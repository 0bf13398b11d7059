/**
 What no pool, router, token holder or nested call can break: the lock and the
 snapshot belong to one running liquidation, a liquidation that returns leaves
 exactly its emitted profit, and over any history the contract never loses more
 than its owner withdrew.
 */
module RoutingSafety {
  import opened Wrappers
  import opened Tokens
  import opened Routing

  // ---------- Scripts run while the contract is entered ----------

  /** Only token balances and allowances changed. */
  ghost predicate OnlyLedger(s: State, t: State) {
    t == s.(ledger := t.ledger)
  }

  ghost predicate ActingIn(running: seq<Frame>, s: State, p: Point) {
    p.Acting? && p.running == running && OnlyLedger(s, p.state)
  }

  /** While the guard is up, other code moves other people's tokens and nothing else. */
  ghost predicate Contained(c: Config, running: seq<Frame>, s: State, r: Run) {
    && (forall p :: p in r.trace ==> ActingIn(running, s, p))
    && (r.out.Success? ==>
          && OnlyLedger(s, r.out.value)
          && LedgerByOthers(c.self, s.ledger, r.out.value.ledger)
          && Bounded(c.self, r.out.value.ledger))
  }

  lemma {:induction false} EnteredScript(c: Config, running: seq<Frame>, s: State, script: seq<Action>)
    requires s.entered && Bounded(c.self, s.ledger)
    ensures Contained(c, running, s, Exec(c, running, s, script))
    decreases script, 0
  {
    if script != [] {
      EnteredStep(c, running, s, script[0]);
      var first := Step(c, running, s, script[0]);
      if first.out.Success? {
        EnteredScript(c, running, first.out.value, script[1..]);
      }
    }
  }

  lemma {:induction false} EnteredStep(c: Config, running: seq<Frame>, s: State, a: Action)
    requires s.entered && Bounded(c.self, s.ledger)
    ensures Contained(c, running, s, Step(c, running, s, a))
    decreases a, 1
  {
    match a
    case Attempt(body) => EnteredScript(c, running, s, body);
    case TokenTransfer(_, _, _, _) => MoveByOther(c, running, s, a);
    case TokenApprove(_, _, _, _) => MoveByOther(c, running, s, a);
    case TokenTransferFrom(_, _, _, _, _) => MoveByOther(c, running, s, a);
    case Revert =>
    case Liquidate(actor, call, ext) => assert Prepare(c, s, actor, call).Failure?;
    case Operate(_, _, _, _, _, _, _) => CallbackByOther(c, running, s, a);
    case FlashLoan(_, _, _, _, _) => CallbackByOther(c, running, s, a);
    case Withdraw(_, _) =>
    case Emergency(_, _, _) =>
  }

  /** Neither a direct call nor somebody else's flash loan gets the callback to run. */
  lemma CallbackByOther(c: Config, running: seq<Frame>, s: State, a: Action)
    requires a.Operate? || a.FlashLoan?
    ensures var r := Step(c, running, s, a); r.out.Failure? && r.trace == []
  {
    if a.FlashLoan? && a.actor != c.self && a.ext.premium.Some? {
      var paid := Transfer(s.ledger, a.asset, c.pool, c.self, a.amount);
      if paid.Some? {
        var r := ExecuteOperation(c, running, s.(ledger := paid.value), c.pool, a.asset, a.amount,
                                  a.ext.premium.value, a.actor, a.params, a.ext);
        assert r == Run(Failure(InitiatorMismatch), []);
      }
    }
  }

  /** An EIP-20 call by someone else is contained whether or not the guard is up. */
  lemma MoveByOther(c: Config, running: seq<Frame>, s: State, a: Action)
    requires a.TokenTransfer? || a.TokenApprove? || a.TokenTransferFrom?
    requires Bounded(c.self, s.ledger)
    ensures Contained(c, running, s, Step(c, running, s, a)) && Step(c, running, s, a).trace == []
  {
    hide Token.Transfer, Token.TransferFrom, Token.Approve, ByOthers, Bounded;
    if a.actor != c.self && a.token in s.ledger {
      assert Bounded(c.self, s.ledger) && FiniteAllowances(s.ledger[a.token], c.self) by {
        BoundedAt(c.self, s.ledger, a.token);
      }
      var t := s.ledger[a.token];
      match a
      case TokenTransfer(actor, token, to, v) =>
        var u := t.Transfer(actor, to, v);
        if u.Some? {
          TransferByOther(t, c.self, actor, to, v);
          OneTokenByOthers(c.self, s.ledger, token, u.value);
        }
      case TokenApprove(actor, token, to, v) =>
        ApproveByOther(t, c.self, actor, to, v);
        OneTokenByOthers(c.self, s.ledger, token, t.Approve(actor, to, v));
      case TokenTransferFrom(actor, token, from, to, v) =>
        var u := t.TransferFrom(actor, from, to, v);
        if u.Some? {
          TransferFromByOther(t, c.self, actor, from, to, v);
          OneTokenByOthers(c.self, s.ledger, token, u.value);
        }
    }
  }

  lemma BoundedAt(self: Address, l: Ledger, t: Address)
    requires Bounded(self, l) && t in l
    ensures FiniteAllowances(l[t], self)
  {
  }

  // ---------- One liquidation ----------

  lemma ApproveKeepsBounded(l: Ledger, t: Address, self: Address, spender: Address, v: nat)
    requires t in l && Bounded(self, l) && v < UINT_MAX
    ensures Bounded(self, l[t := l[t].Approve(self, spender, v)])
    ensures SameSupplies(l, l[t := l[t].Approve(self, spender, v)])
  {
    var u := l[t].Approve(self, spender, v);
    ApproveFacts(l[t], self, spender, v);
    assert FiniteAllowances(u, self) by {
      assert FiniteAllowances(l[t], self);
    }
    assert forall k :: k in l && k != t ==> l[t := u][k] == l[k];
  }

  /** Letting a router spend exactly what came in puts nothing held before at risk. */
  lemma ApprovingGainsIsFree(t: Token, u: Token, self: Address, router: Address)
    requires ByOthers(self, t, u) && t.BalanceOf(self) <= u.BalanceOf(self)
    ensures u.Approve(self, router, u.BalanceOf(self) - t.BalanceOf(self)).Free(self) >= t.Free(self)
  {
    ApproveFacts(u, self, router, u.BalanceOf(self) - t.BalanceOf(self));
    AllowancesShrank(t, u, self);
  }

  lemma AllowancesShrank(t: Token, u: Token, a: Address)
    requires forall s :: u.Allowance(a, s) <= t.Allowance(a, s)
    ensures Sum(u.AllowancesOf(a)) <= Sum(t.AllowancesOf(a))
  {
    forall s ensures Get(u.AllowancesOf(a), s) <= Get(t.AllowancesOf(a), s) {
      assert u.Allowance(a, s) <= t.Allowance(a, s);
    }
    SumMonotone(u.AllowancesOf(a), t.AllowancesOf(a));
  }

  function Executed(s: State): Event
    requires s.events != []
  {
    s.events[|s.events| - 1]
  }

  /** `u` is `s` with one liquidation logged and only the ledger changed besides. */
  ghost predicate Logged(s: State, u: State, p: LiqParams, fee: nat) {
    && |u.events| > 0
    && var e := Executed(u);
    && u == s.(ledger := u.ledger, events := s.events + [e])
    && e.LiquidationExecuted?
    && e == LiquidationExecuted(p.debtAsset, p.collateralAsset, p.borrower, p.debtToCover,
                                e.collateralSeized, fee, e.profit)
    && e.collateralSeized > 0
    && e.profit >= p.minProfit
  }

  /** Free balances of other tokens kept; on the debt token, nobody but the pool may spend more. */
  ghost predicate Kept(c: Config, debt: Address, l: Ledger, m: Ledger) {
    && debt in l
    && SameSupplies(l, m) && Bounded(c.self, m)
    && (forall t :: t in l && t != debt ==> m[t].Free(c.self) >= l[t].Free(c.self))
    && (forall a :: a != c.pool ==> m[debt].Allowance(c.self, a) <= l[debt].Allowance(c.self, a))
  }

  lemma KeptByOthers(c: Config, debt: Address, l: Ledger, m: Ledger, n: Ledger)
    requires Kept(c, debt, l, m) && LedgerByOthers(c.self, m, n)
    ensures Kept(c, debt, l, n)
  {
  }

  lemma KeptByPoolApproval(c: Config, debt: Address, l: Ledger, v: nat)
    requires debt in l && Bounded(c.self, l) && v < UINT_MAX
    ensures Kept(c, debt, l, l[debt := l[debt].Approve(c.self, c.pool, v)])
  {
    ApproveKeepsBounded(l, debt, c.self, c.pool, v);
    ApproveFacts(l[debt], c.self, c.pool, v);
  }

  lemma KeptBySeizedApproval(c: Config, debt: Address, l: Ledger, m: Ledger, coll: Address, router: Address)
    requires Kept(c, debt, l, m) && coll in l && coll != debt && ByOthers(c.self, l[coll], m[coll])
    requires l[coll].BalanceOf(c.self) <= m[coll].BalanceOf(c.self)
    ensures var seized := m[coll].BalanceOf(c.self) - l[coll].BalanceOf(c.self);
      Kept(c, debt, l, m[coll := m[coll].Approve(c.self, router, seized)])
  {
    hide Sum, Token.Free, Token.Supply, Token.Approve, Token.Allowance;
    var seized := m[coll].BalanceOf(c.self) - l[coll].BalanceOf(c.self);
    BalanceWithinSupply(m[coll], c.self);
    ApproveKeepsBounded(m, coll, c.self, router, seized);
    ApprovingGainsIsFree(l[coll], m[coll], c.self, router);
  }

  ghost predicate LiquidationRan(c: Config, s: State, u: State, amount: nat, premium: nat, p: LiqParams) {
    && Logged(s, u, p, premium)
    && BalanceOf(u.ledger, p.debtAsset, c.self) == s.snapshot + amount + premium + Executed(u).profit
    && Kept(c, p.debtAsset, s.ledger, u.ledger)
  }

  lemma RunLiquidationEffect(c: Config, running: seq<Frame>, s: State, amount: nat, premium: nat, p: LiqParams,
                             ext: External)
    requires s.entered && Bounded(c.self, s.ledger) && p.debtToCover < UINT_MAX
    ensures var r := RunLiquidation(c, running, s, p.debtAsset, amount, premium, Some(p), ext);
      && (forall q :: q in r.trace ==> ActingIn(running, s, q))
      && (r.out.Success? ==> LiquidationRan(c, s, r.out.value, amount, premium, p))
  {
    hide Sum, ByOthers, Bounded, SameSupplies, Token.Free, Token.Approve, Exec, Step, Swap;
    var debt, coll := p.debtAsset, p.collateralAsset;
    if debt in s.ledger && coll in s.ledger {
      var l1 := s.ledger[debt := s.ledger[debt].Approve(c.self, c.pool, p.debtToCover)];
      KeptByPoolApproval(c, debt, s.ledger, p.debtToCover);
      EnteredScript(c, running, s.(ledger := l1), ext.liquidation);
      var r1 := Exec(c, running, s.(ledger := l1), ext.liquidation);
      if r1.out.Success? {
        var s2 := r1.out.value;
        KeptByOthers(c, debt, s.ledger, l1, s2.ledger);
        var seized := Seized(c, s, s2, coll);
        if seized.Success? && coll != debt {
          assert ByOthers(c.self, s.ledger[coll], s2.ledger[coll]) by {
            assert ByOthers(c.self, l1[coll], s2.ledger[coll]);
          }
          SwapEffect(c, running, s.ledger, s2, debt, p.sellDex, coll, ext);
        }
      }
    }
  }

  /** Selling what was seized keeps what was held in `before`, the ledger at the start of the liquidation. */
  lemma SwapEffect(c: Config, running: seq<Frame>, before: Ledger, s: State, debt: Address, dex: string,
                   coll: Address, ext: External)
    requires s.entered && Kept(c, debt, before, s.ledger)
    requires coll in before && coll != debt && ByOthers(c.self, before[coll], s.ledger[coll])
    requires BalanceOf(before, coll, c.self) <= BalanceOf(s.ledger, coll, c.self)
    ensures var seized := BalanceOf(s.ledger, coll, c.self) - BalanceOf(before, coll, c.self);
      var r := Swap(c, running, s, dex, coll, seized, ext);
      && (forall q :: q in r.trace ==> ActingIn(running, s, q))
      && (r.out.Success? ==> OnlyLedger(s, r.out.value) && Kept(c, debt, before, r.out.value.ledger))
  {
    hide Sum, ByOthers, Bounded, Token.Free, Token.Approve, Token.Supply, Exec, Step, RouterFor;
    var router := RouterFor(c, dex);
    if router.Success? {
      var seized := BalanceOf(s.ledger, coll, c.self) - BalanceOf(before, coll, c.self);
      var l2 := s.ledger[coll := s.ledger[coll].Approve(c.self, router.value, seized)];
      KeptBySeizedApproval(c, debt, before, s.ledger, coll, router.value);
      EnteredScript(c, running, s.(ledger := l2), ext.swap);
      var r := Exec(c, running, s.(ledger := l2), ext.swap);
      if r.out.Success? {
        KeptByOthers(c, debt, before, l2, r.out.value.ledger);
      }
    }
  }

  /** Approving a debt and having it pulled uses the approval up. */
  lemma Repayment(t: Token, self: Address, pool: Address, owed: nat)
    requires self != pool && owed < UINT_MAX && owed <= t.BalanceOf(self)
    ensures var u := t.Approve(self, pool, owed).TransferFrom(pool, self, pool, owed);
      && u.Some?
      && u.value.Supply() == t.Supply()
      && u.value.BalanceOf(self) == t.BalanceOf(self) - owed
      && (forall a :: u.value.Allowance(self, a) == if a == pool then 0 else t.Allowance(self, a))
  {
    var approved := t.Approve(self, pool, owed);
    ApproveFacts(t, self, pool, owed);
    var spent := approved.Approve(self, pool, 0);
    ApproveFacts(approved, self, pool, 0);
    TransferFacts(spent, self, pool, owed);
  }

  /** Everything a liquidation that returns has done. */
  ghost predicate Profited(c: Config, s: State, u: State, call: LiqCall) {
    && call.params.Some? && call.debtAsset in s.ledger && |u.events| > 0
    && var e := Executed(u);
    && e.LiquidationExecuted?
    && e == LiquidationExecuted(call.debtAsset, call.collateralAsset, call.borrower, call.debtAmount,
                                e.collateralSeized, e.fee, e.profit)
    && e.collateralSeized > 0
    && e.profit >= call.params.value.minProfit
    && BalanceOf(u.ledger, call.debtAsset, c.self) == BalanceOf(s.ledger, call.debtAsset, c.self) + e.profit
    && u == State(u.ledger, false, false, STRAT_LIQ, BalanceOf(s.ledger, call.debtAsset, c.self), s.events + [e])
    && SameSupplies(s.ledger, u.ledger) && Bounded(c.self, u.ledger)
    && u.ledger[call.debtAsset].Allowance(c.self, c.pool) == 0
    && forall t :: t in s.ledger ==>
         u.ledger[t].Free(c.self) >= s.ledger[t].Free(c.self) + if t == call.debtAsset then e.profit else 0
  }

  /** The lock and the snapshot at a moment of the call tree are those of the one running liquidation, if any. */
  ghost predicate Synced(p: Point) {
    var s := p.state;
    if p.running == [] then p.Acting? && !s.lock && !s.entered
    else
      && |p.running| == 1
      && s.lock && s.entered && s.strategy == STRAT_LIQ && s.snapshot == p.running[0].entryBalance
      && (p.CallbackDone? ==> p.asset == p.running[0].debtAsset)
  }

  lemma CallbackEffect(c: Config, running: seq<Frame>, s: State, amount: nat, premium: nat, p: LiqParams, ext: External)
    requires s.entered && s.lock && s.strategy == STRAT_LIQ && running == [Frame(p.debtAsset, s.snapshot)]
    requires Bounded(c.self, s.ledger) && p.debtToCover < UINT_MAX
    ensures var r := ExecuteOperation(c, running, s, c.pool, p.debtAsset, amount, premium, c.self, Some(p), ext);
      var ran := RunLiquidation(c, running, s, p.debtAsset, amount, premium, Some(p), ext).out;
      && (forall q :: q in r.trace ==> Synced(q))
      && (r.out.Success? ==>
            && ran.Success? && LiquidationRan(c, s, ran.value, amount, premium, p)
            && var approved := Approve(ran.value.ledger, p.debtAsset, c.self, c.pool, amount + premium);
            && approved.Some? && r.out.value == ran.value.(ledger := approved.value))
  {
    hide Exec, Step, RunLiquidation, Kept, Token.Approve, Bounded;
    RunLiquidationEffect(c, running, s, amount, premium, p, ext);
    var ran := RunLiquidation(c, running, s, p.debtAsset, amount, premium, Some(p), ext);
    assert forall q :: q in ran.trace ==> ActingIn(running, s, q) && Synced(q);
  }

  /**
   Whatever the pool does during liquidationCall and the router during the
   swap, a liquidation that returns has kept the entry balance and exactly the
   profit it emitted, also when collateral and debt are the same token.
   */
  lemma LiquidationProfit(c: Config, s: State, sender: Address, call: LiqCall, ext: External)
    requires c.pool != c.self && !s.entered && Bounded(c.self, s.ledger)
    ensures var r := ExecuteLiquidation(c, [], s, sender, call, ext);
      && (forall q :: q in r.trace ==> Synced(q))
      && (r.out.Success? ==> Profited(c, s, r.out.value, call))
  {
    hide Exec, Step, RunLiquidation, ExecuteOperation, Token.Transfer, Token.TransferFrom, Token.Approve, Sum, Bounded,
         Token.Supply, Synced, Profited;
    var entry := Prepare(c, s, sender, call);
    if entry.Success? && ext.premium.Some? {
      var (balance, p) := entry.value;
      var debt, amount, premium := call.debtAsset, call.debtAmount, ext.premium.value;
      var running := [] + [Frame(debt, balance)];
      var paid := Transfer(s.ledger, debt, c.pool, c.self, amount);
      if paid.Some? {
        TransferFacts(s.ledger[debt], c.pool, c.self, amount);
        BalanceWithinSupply(s.ledger[debt], c.pool);
        SupplyIsBounded(c.self, s.ledger, debt);
        FundsKeepBounded(s.ledger, c.self, debt, paid.value[debt]);
        var s2 := s.(entered := true, lock := true, strategy := STRAT_LIQ, snapshot := balance, ledger := paid.value);
        CallbackEffect(c, running, s2, amount, premium, p, ext);
        var r := ExecuteOperation(c, running, s2, c.pool, debt, amount, premium, c.self, Some(p), ext);
        if r.out.Success? {
          var ran := RunLiquidation(c, running, s2, debt, amount, premium, Some(p), ext).out.value;
          RepaidInFull(c, s, s2, ran, call, premium, p);
        }
      }
    }
  }

  lemma FundsKeepBounded(l: Ledger, self: Address, t: Address, u: Token)
    requires Bounded(self, l) && t in l && u.Supply() == l[t].Supply()
    requires forall a :: u.Allowance(self, a) == 0 || u.Allowance(self, a) <= l[t].Allowance(self, a)
    ensures Bounded(self, l[t := u]) && SameSupplies(l, l[t := u])
  {
  }

  lemma RepaidInFull(c: Config, s: State, s2: State, s3: State, call: LiqCall, premium: nat, p: LiqParams)
    requires c.pool != c.self && Bounded(c.self, s.ledger) && call.debtAsset in s.ledger && call.params.Some?
    requires p == LiqParams(call.collateralAsset, call.debtAsset, call.borrower, call.debtAmount,
                            call.params.value.sellDex, call.params.value.minProfit)
    requires SameSupplies(s.ledger, s2.ledger)
    requires forall t :: t in s.ledger && t != call.debtAsset ==> s2.ledger[t] == s.ledger[t]
    requires s2.ledger[call.debtAsset].allowances == s.ledger[call.debtAsset].allowances
    requires s2 == State(s2.ledger, true, true, STRAT_LIQ, BalanceOf(s.ledger, call.debtAsset, c.self), s.events)
    requires LiquidationRan(c, s2, s3, call.debtAmount, premium, p)
    ensures var owed := call.debtAmount + premium;
      var approved := Approve(s3.ledger, call.debtAsset, c.self, c.pool, owed);
      && approved.Some?
      && var repaid := TransferFrom(approved.value, call.debtAsset, c.pool, c.self, c.pool, owed);
      && repaid.Some?
      && Profited(c, s, s3.(ledger := repaid.value, lock := false, entered := false), call)
  {
    hide Sum, Token.Transfer, Token.TransferFrom, Token.Approve, Token.Supply, Token.Free, Token.Allowance, Bounded;
    var debt, owed := call.debtAsset, call.debtAmount + premium;
    var t := s3.ledger[debt];
    BalanceWithinSupply(t, c.self);
    assert t.Supply() < UINT_MAX by { SupplyIsBounded(c.self, s3.ledger, debt); }
    Repayment(t, c.self, c.pool, owed);
    var u := t.Approve(c.self, c.pool, owed).TransferFrom(c.pool, c.self, c.pool, owed).value;
    var l := s3.ledger[debt := u];
    assert s3.ledger[debt := t.Approve(c.self, c.pool, owed)][debt := u] == l;
    FundsKeepBounded(s3.ledger, c.self, debt, u);
    FreeGains(s.ledger[debt], s2.ledger[debt], u, c.self, Executed(s3).profit);
  }

  lemma SupplyIsBounded(self: Address, l: Ledger, t: Address)
    requires Bounded(self, l) && t in l
    ensures l[t].Supply() < UINT_MAX
  {
  }

  lemma FreeGains(t: Token, paid: Token, u: Token, a: Address, gain: nat)
    requires paid.allowances == t.allowances
    requires forall s :: u.Allowance(a, s) <= paid.Allowance(a, s)
    requires u.BalanceOf(a) == t.BalanceOf(a) + gain
    ensures u.Free(a) >= t.Free(a) + gain
  {
    AllowancesShrank(t, u, a);
  }

  /** The callback runs only for the pool, on a loan the contract itself took, inside its own liquidation. */
  lemma CallbackNeedsLiquidation(c: Config, running: seq<Frame>, s: State, sender: Address, asset: Address, amount: nat,
                                 premium: nat, initiator: Address, params: Option<LiqParams>, ext: External)
    requires Synced(Acting(running, s))
    requires ExecuteOperation(c, running, s, sender, asset, amount, premium, initiator, params, ext).out.Success?
    ensures sender == c.pool && initiator == c.self
    ensures |running| == 1 && s.snapshot == running[0].entryBalance
  {
  }

  // ---------- Whole histories ----------

  function Delta(e: Event, t: Address): int {
    match e
    case LiquidationExecuted(debtAsset, _, _, _, _, _, profit) => if debtAsset == t then profit as int else 0
    case Withdrawn(token, v) => if token == t then -(v as int) else 0
  }

  /** Profits logged in a token less what its owner withdrew of it. */
  function Gain(events: seq<Event>, t: Address): int {
    if events == [] then 0 else Gain(events[..|events| - 1], t) + Delta(events[|events| - 1], t)
  }

  /** Between two states at rest: what is free grows at least by what the log accounts for. */
  ghost predicate Evolves(c: Config, s: State, u: State) {
    && !u.entered && !u.lock
    && SameSupplies(s.ledger, u.ledger) && Bounded(c.self, u.ledger)
    && forall t :: t in s.ledger ==>
         u.ledger[t].Free(c.self) - Gain(u.events, t) >= s.ledger[t].Free(c.self) - Gain(s.events, t)
  }

  ghost predicate Settled(c: Config, s: State, r: Run) {
    && (forall p :: p in r.trace ==> Synced(p))
    && (r.out.Success? ==> Evolves(c, s, r.out.value))
  }

  ghost predicate AtRest(c: Config, s: State) {
    c.pool != c.self && !s.entered && !s.lock && Bounded(c.self, s.ledger)
  }

  /** A whole transaction, by anyone, from a contract at rest. */
  lemma {:induction false} RestScript(c: Config, s: State, script: seq<Action>)
    requires AtRest(c, s)
    ensures Settled(c, s, Exec(c, [], s, script))
    decreases script, 0
  {
    hide Gain, Bounded, Token.Free, Token.Supply;
    assert Synced(Acting([], s));
    if script != [] {
      RestStep(c, s, script[0]);
      var first := Step(c, [], s, script[0]);
      if first.out.Success? {
        RestScript(c, first.out.value, script[1..]);
      }
    }
  }

  lemma {:induction false} RestStep(c: Config, s: State, a: Action)
    requires AtRest(c, s)
    ensures Settled(c, s, Step(c, [], s, a))
    decreases a, 1
  {
    hide Gain, Bounded, Token.Free, Token.Supply, ExecuteLiquidation, FlashLoanSimple, ExecuteOperation;
    match a
    case Attempt(body) => RestScript(c, s, body);
    case TokenTransfer(_, _, _, _) => MoveByOther(c, [], s, a);
    case TokenApprove(_, _, _, _) => MoveByOther(c, [], s, a);
    case TokenTransferFrom(_, _, _, _, _) => MoveByOther(c, [], s, a);
    case Revert =>
    case Liquidate(actor, call, ext) =>
      LiquidationProfit(c, s, actor, call, ext);
      var r := ExecuteLiquidation(c, [], s, actor, call, ext);
      if r.out.Success? {
        LiquidationEvolves(c, s, r.out.value, call);
      }
    case Operate(_, _, _, _, _, _, _) => CallbackByOther(c, [], s, a);
    case FlashLoan(_, _, _, _, _) => CallbackByOther(c, [], s, a);
    case Withdraw(actor, token) => WithdrawalEvolves(c, s, token, BalanceOf(s.ledger, token, c.self));
    case Emergency(actor, token, v) => WithdrawalEvolves(c, s, token, v);
  }

  lemma LiquidationEvolves(c: Config, s: State, u: State, call: LiqCall)
    requires AtRest(c, s) && Profited(c, s, u, call)
    ensures Evolves(c, s, u)
  {
  }

  lemma WithdrawalEvolves(c: Config, s: State, token: Address, v: nat)
    requires AtRest(c, s)
    ensures PayOwner(c, s, token, v).Success? && c.owner != c.self ==> Evolves(c, s, PayOwner(c, s, token, v).value)
  {
    hide Token.Transfer, Token.Supply;
    if PayOwner(c, s, token, v).Failure? {
      return;
    }
    var u := PayOwner(c, s, token, v).value;
    TransferFacts(s.ledger[token], c.self, c.owner, v);
    FundsKeepBounded(s.ledger, c.self, token, u.ledger[token]);
    assert u.events[..|u.events| - 1] == s.events;
  }

  /** Consecutive transactions: transient slots start at zero, and a transaction that reverts leaves no trace. */
  function History(c: Config, s: State, txs: seq<seq<Action>>): State
    decreases |txs|
  {
    if txs == [] then s else
    var out := Exec(c, [], s.(lock := false, strategy := 0, snapshot := 0), txs[0]).out;
    History(c, if out.Success? then out.value else s, txs[1..])
  }

  lemma {:induction false} HistoryEvolves(c: Config, s: State, txs: seq<seq<Action>>)
    requires AtRest(c, s)
    ensures Evolves(c, s, History(c, s, txs))
    decreases |txs|
  {
    hide Gain, Bounded, Token.Free, Token.Supply;
    if txs != [] {
      var clean := s.(lock := false, strategy := 0, snapshot := 0);
      RestScript(c, clean, txs[0]);
      var out := Exec(c, [], clean, txs[0]).out;
      HistoryEvolves(c, if out.Success? then out.value else s, txs[1..]);
    }
  }

  lemma FreeIsHeld(t: Token, a: Address)
    ensures t.Free(a) <= t.BalanceOf(a)
    ensures (forall s :: t.Allowance(a, s) == 0) ==> t.Free(a) == t.BalanceOf(a)
  {
    if forall s :: t.Allowance(a, s) == 0 {
      forall s ensures Get(t.AllowancesOf(a), s) <= Get(map[], s) {
        assert t.Allowance(a, s) == 0;
      }
      SumMonotone(t.AllowancesOf(a), map[]);
    }
  }

  /**
   "No principal at risk": starting with no allowances given, and over any
   transactions by anyone, each token's balance stays at or above the initial
   balance plus logged profits less the owner's withdrawals.
   */
  lemma NoPrincipalAtRisk(c: Config, s: State, txs: seq<seq<Action>>, t: Address)
    requires AtRest(c, s) && t in s.ledger
    requires forall a :: s.ledger[t].Allowance(c.self, a) == 0
    ensures var u := History(c, s, txs);
      && t in u.ledger && u.ledger[t].Supply() == s.ledger[t].Supply()
      && BalanceOf(u.ledger, t, c.self) >= BalanceOf(s.ledger, t, c.self) + Gain(u.events, t) - Gain(s.events, t)
  {
    HistoryEvolves(c, s, txs);
    FreeIsHeld(s.ledger[t], c.self);
    FreeIsHeld(History(c, s, txs).ledger[t], c.self);
  }

  /** One liquidation from a clean slate leaves no token, sold collateral included, below where it was. */
  lemma NothingFallsBelowEntry(c: Config, s: State, sender: Address, call: LiqCall, ext: External, t: Address)
    requires AtRest(c, s) && t in s.ledger
    requires forall a :: s.ledger[t].Allowance(c.self, a) == 0
    requires ExecuteLiquidation(c, [], s, sender, call, ext).out.Success?
    ensures var u := ExecuteLiquidation(c, [], s, sender, call, ext).out.value;
      t in u.ledger && BalanceOf(u.ledger, t, c.self) >= BalanceOf(s.ledger, t, c.self)
  {
    hide ExecuteLiquidation, Token.Free;
    LiquidationProfit(c, s, sender, call, ext);
    var u := ExecuteLiquidation(c, [], s, sender, call, ext).out.value;
    FreeIsHeld(s.ledger[t], c.self);
    FreeIsHeld(u.ledger[t], c.self);
  }

  /** At every moment of a transaction, reverted branches included, lock and snapshot are the running liquidation's. */
  lemma LockDiscipline(c: Config, s: State, script: seq<Action>, p: Point)
    requires AtRest(c, s) && p in Exec(c, [], s, script).trace
    ensures p.state.lock <==> p.running != []
    ensures |p.running| <= 1
    ensures p.state.lock ==> p.state.snapshot == p.running[0].entryBalance && p.state.strategy == STRAT_LIQ
    ensures p.CallbackDone? ==> p.running != [] && p.asset == p.running[0].debtAsset
  {
    RestScript(c, s, script);
    assert Synced(p);
  }

  // ---------- Nothing is skipped or left out of the trace ----------

  /** Scripts run one after the other, and every moment of the parts is a moment of the whole. */
  lemma {:induction false} ScriptsCompose(c: Config, running: seq<Frame>, s: State, a: seq<Action>, b: seq<Action>)
    ensures var first, whole := Exec(c, running, s, a), Exec(c, running, s, a + b);
      && (forall p :: p in first.trace ==> p in whole.trace)
      && (first.out.Failure? ==> whole.out == first.out)
      && (first.out.Success? ==>
            var rest := Exec(c, running, first.out.value, b);
            && whole.out == rest.out
            && Acting(running, first.out.value) in whole.trace
            && forall p :: p in rest.trace ==> p in whole.trace)
    decreases |a|
  {
    hide Step;
    if a == [] {
      assert a + b == b;
    } else {
      assert (a + b)[0] == a[0] && (a + b)[1..] == a[1..] + b;
      var first := Step(c, running, s, a[0]);
      if first.out.Success? {
        ScriptsCompose(c, running, first.out.value, a[1..], b);
      }
    }
  }

  /** A single action is that action, with all its moments. */
  lemma ScriptOfOne(c: Config, running: seq<Frame>, s: State, a: Action)
    ensures var r, step := Exec(c, running, s, [a]), Step(c, running, s, a);
      r.out == step.out && forall p :: p in step.trace ==> p in r.trace
  {
    hide Step;
    assert [a][1..] == [];
  }

  /** An attempted script never fails: it counts in full or not at all, but its moments always do. */
  lemma AttemptIsAllOrNothing(c: Config, running: seq<Frame>, s: State, body: seq<Action>)
    ensures var tried, r := Exec(c, running, s, body), Exec(c, running, s, [Attempt(body)]);
      && r.out == (if tried.out.Success? then tried.out else Success(s))
      && forall p :: p in tried.trace ==> p in r.trace
  {
    hide Exec;
    ScriptOfOne(c, running, s, Attempt(body));
  }

  /** The moments of both scripts of a run are moments of the run. */
  lemma RunRecords(c: Config, running: seq<Frame>, s: State, debtAsset: Address, amount: nat, premium: nat,
                   p: LiqParams, ext: External)
    requires RunLiquidation(c, running, s, debtAsset, amount, premium, Some(p), ext).out.Success?
    ensures var r := RunLiquidation(c, running, s, debtAsset, amount, premium, Some(p), ext);
      var approved := Approve(s.ledger, debtAsset, c.self, c.pool, p.debtToCover);
      && approved.Some?
      && var seizing := Exec(c, running, s.(ledger := approved.value), ext.liquidation);
      && seizing.out.Success?
      && (forall q :: q in seizing.trace ==> q in r.trace)
      && (p.collateralAsset != debtAsset ==>
            var now := seizing.out.value;
            var seized := Seized(c, s, now, p.collateralAsset);
            && seized.Success?
            && var selling := Swap(c, running, now, p.sellDex, p.collateralAsset, seized.value, ext);
            forall q :: q in selling.trace ==> q in r.trace)
  {
    hide Exec, Step, Swap, Token.Approve;
  }

  /** A liquidation that returns has passed its own callback's completion. */
  lemma CallbackIsRecorded(c: Config, s: State, sender: Address, call: LiqCall, ext: External)
    requires ExecuteLiquidation(c, [], s, sender, call, ext).out.Success?
    ensures var frame := Frame(call.debtAsset, BalanceOf(s.ledger, call.debtAsset, c.self));
      exists q :: q in ExecuteLiquidation(c, [], s, sender, call, ext).trace
                  && q.CallbackDone? && q.running == [frame] && q.asset == call.debtAsset
  {
    hide Exec, Step, RunLiquidation, Token.Transfer, Token.TransferFrom, Token.Approve;
    var (balance, p) := Prepare(c, s, sender, call).value;
    var running := [] + [Frame(call.debtAsset, balance)];
    var paid := Transfer(s.ledger, call.debtAsset, c.pool, c.self, call.debtAmount).value;
    var s1 := s.(entered := true, lock := true, strategy := STRAT_LIQ, snapshot := balance, ledger := paid);
    var r := ExecuteOperation(c, running, s1, c.pool, call.debtAsset, call.debtAmount, ext.premium.value, c.self,
                              Some(p), ext);
    assert r.out.Success? && r.trace[|r.trace| - 1] == CallbackDone(running, r.out.value, call.debtAsset);
    assert ExecuteLiquidation(c, [], s, sender, call, ext).trace == r.trace;
    assert r.trace[|r.trace| - 1] in r.trace;
  }

  lemma {:induction false} HistoriesCompose(c: Config, s: State, txs: seq<seq<Action>>, more: seq<seq<Action>>)
    ensures History(c, s, txs + more) == History(c, History(c, s, txs), more)
    decreases |txs|
  {
    hide Exec;
    if txs == [] {
      assert txs + more == more;
    } else {
      assert (txs + more)[0] == txs[0] && (txs + more)[1..] == txs[1..] + more;
      var out := Exec(c, [], s.(lock := false, strategy := 0, snapshot := 0), txs[0]).out;
      HistoriesCompose(c, if out.Success? then out.value else s, txs[1..], more);
    }
  }

  /** After any history, one more transaction of a single action takes effect in full or not at all. */
  lemma LastTransaction(c: Config, s: State, txs: seq<seq<Action>>, a: Action)
    ensures var b := History(c, s, txs);
      var out := Step(c, [], b.(lock := false, strategy := 0, snapshot := 0), a).out;
      History(c, s, txs + [[a]]) == if out.Success? then out.value else b
  {
    hide Exec, Step;
    HistoriesCompose(c, s, txs, [[a]]);
    var b := History(c, s, txs);
    ScriptOfOne(c, [], b.(lock := false, strategy := 0, snapshot := 0), a);
    assert [[a]][1..] == [];
  }
}
