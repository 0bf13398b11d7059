/**
 The test world: MockAavePool and MockSwapRouter as the scripts they run, the
 exact condition under which a liquidation succeeds there, and the exact
 balances it leaves.
 */
module MockWorld {
  import opened Wrappers
  import opened Tokens
  import opened Routing
  import opened RoutingSafety

  const WAD: nat := 1_000_000_000_000_000_000
  const PREMIUM_BPS: nat := 9

  /** The settings of the two mocks and the address of the router. */
  datatype Mock = Mock(healthFactor: nat, collateralRate: nat, router: Address, price: nat)

  function Premium(amount: nat): Option<nat> {
    if amount * PREMIUM_BPS > UINT_MAX then None else Some(amount * PREMIUM_BPS / 10_000)
  }

  function MulWad(x: nat, rate: nat): Option<nat> {
    if x * rate > UINT_MAX then None else Some(x * rate / WAD)
  }

  /** What both mocks do for the contract: pull `v` of one token, then pay out another at a fixed rate. */
  function PullThenPay(c: Config, actor: Address, tokenIn: Address, tokenOut: Address, v: nat, rate: nat): seq<Action> {
    [TokenTransferFrom(actor, tokenIn, c.self, actor, v),
     match MulWad(v, rate)
     case None => Revert
     case Some(out) => TokenTransfer(actor, tokenOut, c.self, out)]
  }

  /** The name is that of an exchange configured at the mock router's address, other than Aerodrome. */
  predicate RoutedToMock(c: Config, m: Mock, dex: string) {
    && m.router != 0
    && (|| (dex == "uniswap" && c.uniswap == m.router)
        || (dex == "sushiswap" && c.sushiswap == m.router)
        || (dex == "baseswap" && c.baseswap == m.router)
        || (dex == "pancakeswap" && c.pancakeswap == m.router))
  }

  /** Each of the five names leads to its own router, if that is configured, and no other name anywhere. */
  lemma NamedRouter(c: Config, dex: string, router: Address)
    ensures RouterFor(c, dex) == Success(router)
       <==> && router != 0
            && (|| (dex == "uniswap" && c.uniswap == router)
                || (dex == "sushiswap" && c.sushiswap == router)
                || (dex == "baseswap" && c.baseswap == router)
                || (dex == "pancakeswap" && c.pancakeswap == router)
                || (dex == "aerodrome" && c.aerodrome == router))
  {
  }

  /** The fee is nine ten-thousandths of the loan, rounded down, if the product fits. */
  lemma PremiumIsFloor(amount: nat)
    ensures Premium(amount).Some?
       <==> 9 * amount < 0x1_0000_0000_0000_0000_0000_0000_0000_0000_0000_0000_0000_0000_0000_0000_0000_0000
    ensures var r := Premium(amount);
      r.Some? ==> 10_000 * r.value <= 9 * amount < 10_000 * (r.value + 1)
  {
  }

  /** Rates are in units of 10^18, rounded down, if the product fits. */
  lemma MulWadIsFloor(x: nat, rate: nat)
    ensures MulWad(x, rate).Some?
       <==> x * rate < 0x1_0000_0000_0000_0000_0000_0000_0000_0000_0000_0000_0000_0000_0000_0000_0000_0000
    ensures var r := MulWad(x, rate);
      r.Some? ==> 1_000_000_000_000_000_000 * r.value <= x * rate < 1_000_000_000_000_000_000 * (r.value + 1)
  {
    var p := x * rate;
    assert p == WAD * (p / WAD) + p % WAD;
  }

  function MockSwap(c: Config, m: Mock, dex: string, tokenIn: Address, tokenOut: Address, amountIn: nat): seq<Action> {
    if RoutedToMock(c, m, dex) then PullThenPay(c, m.router, tokenIn, tokenOut, amountIn, m.price) else [Revert]
  }

  /** What the mocks answer to a loan of `amount` of `asset` taken out with these parameters. */
  function MockAnswers(c: Config, m: Mock, asset: Address, amount: nat, params: Option<LiqParams>): External {
    match params
    case None => External(Premium(amount), m.healthFactor, [Revert], [Revert], 1)
    case Some(p) =>
      var seized := MulWad(p.debtToCover, m.collateralRate);
      External(Premium(amount), m.healthFactor,
               PullThenPay(c, c.pool, asset, p.collateralAsset, p.debtToCover, m.collateralRate),
               if seized.None? then [Revert] else MockSwap(c, m, p.sellDex, p.collateralAsset, asset, seized.value),
               1)
  }

  function Params(call: LiqCall): LiqParams
    requires call.params.Some?
  {
    LiqParams(call.collateralAsset, call.debtAsset, call.borrower, call.debtAmount,
              call.params.value.sellDex, call.params.value.minProfit)
  }

  function MockExternal(c: Config, m: Mock, call: LiqCall): External {
    MockAnswers(c, m, call.debtAsset, call.debtAmount, if call.params.Some? then Some(Params(call)) else None)
  }

  // ---------- Ledger steps, exactly ----------

  function AllowanceOf(l: Ledger, t: Address, owner: Address, spender: Address): nat {
    if t in l then l[t].Allowance(owner, spender) else 0
  }

  function If(b: bool, v: int): int {
    if b then v else 0
  }

  ghost predicate Moved(l: Ledger, m: Ledger, t: Address, from: Address, to: Address, v: nat) {
    && m.Keys == l.Keys
    && forall k, a :: BalanceOf(m, k, a) == BalanceOf(l, k, a) + If(k == t && a == to, v) - If(k == t && a == from, v)
  }

  ghost predicate SameBalances(l: Ledger, m: Ledger) {
    m.Keys == l.Keys && forall k, a :: BalanceOf(m, k, a) == BalanceOf(l, k, a)
  }

  ghost predicate SameAllowances(l: Ledger, m: Ledger) {
    forall k, o, a :: AllowanceOf(m, k, o, a) == AllowanceOf(l, k, o, a)
  }

  ghost predicate Allowed(l: Ledger, m: Ledger, t: Address, owner: Address, spender: Address, v: nat) {
    forall k, o, a :: AllowanceOf(m, k, o, a) ==
                      if k == t && o == owner && a == spender then v else AllowanceOf(l, k, o, a)
  }

  lemma TransferExact(l: Ledger, t: Address, from: Address, to: Address, v: nat)
    ensures Transfer(l, t, from, to, v).Some? <==> t in l && BalanceOf(l, t, from) >= v
    ensures var m := Transfer(l, t, from, to, v);
      m.Some? ==> Moved(l, m.value, t, from, to, v) && SameAllowances(l, m.value)
  {
  }

  lemma ApproveExact(l: Ledger, t: Address, owner: Address, spender: Address, v: nat)
    ensures Approve(l, t, owner, spender, v).Some? <==> t in l
    ensures var m := Approve(l, t, owner, spender, v);
      m.Some? ==> SameBalances(l, m.value) && Allowed(l, m.value, t, owner, spender, v)
  {
  }

  lemma TransferFromExact(l: Ledger, t: Address, spender: Address, from: Address, to: Address, v: nat)
    ensures TransferFrom(l, t, spender, from, to, v).Some?
       <==> t in l && AllowanceOf(l, t, from, spender) >= v && BalanceOf(l, t, from) >= v
    ensures var m := TransferFrom(l, t, spender, from, to, v);
      var allowed := AllowanceOf(l, t, from, spender);
      m.Some? ==> Moved(l, m.value, t, from, to, v)
                  && Allowed(l, m.value, t, from, spender, if allowed == UINT_MAX then allowed else allowed - v)
  {
  }

  /**
   A withdrawal succeeds exactly for the owner, with nothing running and enough
   of a deployed token, and then moves exactly the logged amount to the owner.
   */
  lemma WithdrawalExact(c: Config, s: State, sender: Address, token: Address, v: nat)
    ensures var r := EmergencyWithdraw(c, s, sender, token, v);
      && (r.Success? <==> sender == c.owner && !s.entered
                          && token in s.ledger && BalanceOf(s.ledger, token, c.self) >= v)
      && (r.Success? ==>
            && r.value == s.(ledger := r.value.ledger, events := s.events + [Withdrawn(token, v)])
            && Moved(s.ledger, r.value.ledger, token, c.self, c.owner, v)
            && SameAllowances(s.ledger, r.value.ledger))
    ensures v == BalanceOf(s.ledger, token, c.self) ==>
      WithdrawToken(c, s, sender, token) == EmergencyWithdraw(c, s, sender, token, v)
  {
    TransferExact(s.ledger, token, c.self, c.owner, v);
  }

  /** The change both sides see when `x` pulls `v` of one token from `a` and pays `out` of another back. */
  ghost predicate Exchanged(l: Ledger, m: Ledger, a: Address, x: Address, tokenIn: Address, tokenOut: Address,
                            v: nat, out: nat) {
    && m.Keys == l.Keys
    && forall k, b :: BalanceOf(m, k, b) == BalanceOf(l, k, b)
         + If(k == tokenIn && b == x, v) - If(k == tokenIn && b == a, v)
         + If(k == tokenOut && b == a, out) - If(k == tokenOut && b == x, out)
  }

  lemma PullThenPayExact(c: Config, running: seq<Frame>, s: State, x: Address, tokenIn: Address, tokenOut: Address,
                         v: nat, rate: nat)
    requires x != c.self && AllowanceOf(s.ledger, tokenIn, c.self, x) == v
    ensures var r := Exec(c, running, s, PullThenPay(c, x, tokenIn, tokenOut, v, rate)).out;
      var out := MulWad(v, rate);
      && (r.Success? <==>
            && out.Some? && tokenIn in s.ledger && tokenOut in s.ledger
            && BalanceOf(s.ledger, tokenIn, c.self) >= v
            && BalanceOf(s.ledger, tokenOut, x) + If(tokenIn == tokenOut, v) >= out.value)
      && (r.Success? ==>
            && OnlyLedger(s, r.value)
            && Exchanged(s.ledger, r.value.ledger, c.self, x, tokenIn, tokenOut, v, out.value)
            && Allowed(s.ledger, r.value.ledger, tokenIn, c.self, x, if v == UINT_MAX then v else 0))
  {
    hide Transfer, TransferFrom, AllowanceOf, BalanceOf, Moved, Exchanged, MulWad;
    var script := PullThenPay(c, x, tokenIn, tokenOut, v, rate);
    ExecPair(c, running, s, script[0], script[1]);
    TransferFromExact(s.ledger, tokenIn, x, c.self, x, v);
    var pulled := TransferFrom(s.ledger, tokenIn, x, c.self, x, v);
    var out := MulWad(v, rate);
    if pulled.Some? && out.Some? {
      TransferExact(pulled.value, tokenOut, x, c.self, out.value);
      MovedTwice(s.ledger, pulled.value, Transfer(pulled.value, tokenOut, x, c.self, out.value),
                 c.self, x, tokenIn, tokenOut, v, out.value);
    }
  }

  lemma MovedTwice(l: Ledger, m: Ledger, n: Option<Ledger>, a: Address, x: Address, tokenIn: Address, tokenOut: Address,
                   v: nat, out: nat)
    requires x != a && Moved(l, m, tokenIn, a, x, v)
    ensures m.Keys == l.Keys
    ensures BalanceOf(m, tokenOut, x) == BalanceOf(l, tokenOut, x) + If(tokenIn == tokenOut, v)
    ensures n.Some? && Moved(m, n.value, tokenOut, x, a, out) ==>
      n.value.Keys == l.Keys && Exchanged(l, n.value, a, x, tokenIn, tokenOut, v, out)
  {
    hide BalanceOf;
  }

  lemma ExecPair(c: Config, running: seq<Frame>, s: State, a: Action, b: Action)
    ensures var first := Step(c, running, s, a).out;
      Exec(c, running, s, [a, b]).out == if first.Failure? then first else Step(c, running, first.value, b).out
  {
    hide Step;
    assert [a, b][1..] == [b];
    var first := Step(c, running, s, a).out;
    if first.Success? {
      var s1 := first.value;
      assert [b][1..] == [];
      assert Exec(c, running, s1, [b]).out == Step(c, running, s1, b).out;
    }
  }

  // ---------- One liquidation, exactly ----------

  /** What the contract gets for the seized collateral; the collateral itself when it is the debt token. */
  function Proceeds(m: Mock, call: LiqCall): Option<nat> {
    var paid := MulWad(call.debtAmount, m.collateralRate);
    if paid.None? || call.collateralAsset == call.debtAsset then paid else MulWad(paid.value, m.price)
  }

  /** Gross collateral less, for a single token, the debt repaid out of the same balance. */
  function SeizedAmount(m: Mock, call: LiqCall): int {
    var paid := MulWad(call.debtAmount, m.collateralRate);
    if paid.None? then 0 else paid.value - If(call.collateralAsset == call.debtAsset, call.debtAmount)
  }

  predicate Sellable(c: Config, m: Mock, l: Ledger, call: LiqCall, dex: string) {
    var paid, proceeds := MulWad(call.debtAmount, m.collateralRate), Proceeds(m, call);
    && paid.Some? && SeizedAmount(m, call) > 0 && BalanceOf(l, call.collateralAsset, c.pool) >= paid.value
    && (call.collateralAsset != call.debtAsset ==>
          RoutedToMock(c, m, dex) && proceeds.Some? && BalanceOf(l, call.debtAsset, m.router) >= proceeds.value)
  }

  predicate Succeeds(c: Config, m: Mock, s: State, sender: Address, call: LiqCall) {
    && sender == c.owner && !s.entered && c.pool != 0 && call.borrower != 0 && call.params.Some?
    && call.debtAsset in s.ledger && call.collateralAsset in s.ledger
    && m.healthFactor < WAD
    && Premium(call.debtAmount).Some?
    && BalanceOf(s.ledger, call.debtAsset, c.pool) >= call.debtAmount
    && Sellable(c, m, s.ledger, call, call.params.value.sellDex)
    && Proceeds(m, call).value >= call.debtAmount + Premium(call.debtAmount).value + call.params.value.minProfit
  }

  ghost predicate Apart(c: Config, m: Mock) {
    c.self != c.pool && c.self != m.router && c.pool != m.router
  }

  /** The net change of every balance over a liquidation that succeeds. */
  function NetChange(c: Config, m: Mock, call: LiqCall, premium: nat, paid: nat, proceeds: nat,
                     k: Address, a: Address): int
  {
    var distinct := call.collateralAsset != call.debtAsset;
    If(k == call.debtAsset && a == c.self, proceeds - call.debtAmount - premium)
    + If(k == call.debtAsset && a == c.pool, call.debtAmount + premium)
    - If(k == call.collateralAsset && a == c.pool, paid)
    + If(distinct && k == call.collateralAsset && a == m.router, paid)
    - If(distinct && k == call.debtAsset && a == m.router, proceeds)
  }

  lemma TwoBalances(t: Token, a: Address, b: Address)
    requires a != b
    ensures t.BalanceOf(a) + t.BalanceOf(b) <= t.Supply()
  {
    SumUpdate(t.balances, a, 0);
    SumUpdate(t.balances[a := 0], b, 0);
  }

  /** Seizing, from a contract already paid the loan. */
  lemma MockSeizure(c: Config, m: Mock, running: seq<Frame>, s: State, call: LiqCall)
    requires Apart(c, m) && call.debtAsset in s.ledger && call.collateralAsset in s.ledger
    requires call.debtAmount < UINT_MAX && BalanceOf(s.ledger, call.debtAsset, c.self) >= call.debtAmount
    ensures var debt, coll, d := call.debtAsset, call.collateralAsset, call.debtAmount;
      var paid := MulWad(d, m.collateralRate);
      var approved := Approve(s.ledger, debt, c.self, c.pool, d);
      && approved.Some?
      && var r := Exec(c, running, s.(ledger := approved.value),
                       PullThenPay(c, c.pool, debt, coll, d, m.collateralRate)).out;
      && (r.Success? && Seized(c, s, r.value, coll).Success? <==>
            && paid.Some? && SeizedAmount(m, call) > 0
            && BalanceOf(s.ledger, coll, c.pool) + If(coll == debt, d) >= paid.value)
      && (r.Success? && Seized(c, s, r.value, coll).Success? ==>
            && Seized(c, s, r.value, coll).value == SeizedAmount(m, call)
            && OnlyLedger(s, r.value)
            && Exchanged(s.ledger, r.value.ledger, c.self, c.pool, debt, coll, d, paid.value)
            && Allowed(s.ledger, r.value.ledger, debt, c.self, c.pool, 0))
  {
    hide Approve, AllowanceOf, Exec, Sum;
    var debt, coll, d := call.debtAsset, call.collateralAsset, call.debtAmount;
    ApproveExact(s.ledger, debt, c.self, c.pool, d);
    var s1 := s.(ledger := Approve(s.ledger, debt, c.self, c.pool, d).value);
    assert AllowanceOf(s1.ledger, debt, c.self, c.pool) == d;
    PullThenPayExact(c, running, s1, c.pool, debt, coll, d, m.collateralRate);
  }

  /** Selling `v` seized units of another token to whichever router `dex` names. */
  lemma MockSelling(c: Config, m: Mock, running: seq<Frame>, s: State, dex: string, tokenIn: Address, tokenOut: Address,
                    v: nat, ext: External)
    requires Apart(c, m) && tokenIn != tokenOut && tokenIn in s.ledger && tokenOut in s.ledger && v < UINT_MAX
    requires BalanceOf(s.ledger, tokenIn, c.self) >= v
    requires ext.swap == MockSwap(c, m, dex, tokenIn, tokenOut, v) && ext.amounts == 1
    ensures var r := Swap(c, running, s, dex, tokenIn, v, ext).out;
      var out := MulWad(v, m.price);
      && (r.Success? <==> RoutedToMock(c, m, dex) && out.Some? && BalanceOf(s.ledger, tokenOut, m.router) >= out.value)
      && (r.Success? ==>
            && OnlyLedger(s, r.value)
            && Exchanged(s.ledger, r.value.ledger, c.self, m.router, tokenIn, tokenOut, v, out.value)
            && Allowed(s.ledger, r.value.ledger, tokenIn, c.self, m.router, 0))
  {
    hide Approve, AllowanceOf, Exec, Sum, RouterFor;
    NamedRouter(c, dex, m.router);
    var router := RouterFor(c, dex);
    if router.Success? {
      NamedRouter(c, dex, router.value);
      ApproveExact(s.ledger, tokenIn, c.self, router.value, v);
      var s1 := s.(ledger := Approve(s.ledger, tokenIn, c.self, router.value, v).value);
      if RoutedToMock(c, m, dex) {
        assert AllowanceOf(s1.ledger, tokenIn, c.self, m.router) == v;
        PullThenPayExact(c, running, s1, m.router, tokenIn, tokenOut, v, m.price);
      } else {
        ExecRevert(c, running, s1);
      }
    }
  }

  /** An Aerodrome-style router at its configured address sells just the same, if it returns any amounts. */
  lemma AerodromeSelling(c: Config, m: Mock, running: seq<Frame>, s: State, tokenIn: Address, tokenOut: Address,
                         v: nat, ext: External)
    requires Apart(c, m) && tokenIn != tokenOut && tokenIn in s.ledger && tokenOut in s.ledger && v < UINT_MAX
    requires BalanceOf(s.ledger, tokenIn, c.self) >= v && c.aerodrome == m.router != 0
    requires ext.swap == PullThenPay(c, m.router, tokenIn, tokenOut, v, m.price)
    ensures var r := Swap(c, running, s, "aerodrome", tokenIn, v, ext).out;
      var out := MulWad(v, m.price);
      && (r.Success? <==> ext.amounts > 0 && out.Some? && BalanceOf(s.ledger, tokenOut, m.router) >= out.value)
      && (r.Success? ==>
            && OnlyLedger(s, r.value)
            && Exchanged(s.ledger, r.value.ledger, c.self, m.router, tokenIn, tokenOut, v, out.value)
            && Allowed(s.ledger, r.value.ledger, tokenIn, c.self, m.router, 0))
  {
    hide Approve, AllowanceOf, Exec, Sum, RouterFor;
    NamedRouter(c, "aerodrome", m.router);
    ApproveExact(s.ledger, tokenIn, c.self, m.router, v);
    var s1 := s.(ledger := Approve(s.ledger, tokenIn, c.self, m.router, v).value);
    assert AllowanceOf(s1.ledger, tokenIn, c.self, m.router) == v;
    PullThenPayExact(c, running, s1, m.router, tokenIn, tokenOut, v, m.price);
  }

  lemma ExecRevert(c: Config, running: seq<Frame>, s: State)
    ensures Exec(c, running, s, [Revert]).out == Failure(ExternalReverted)
  {
  }

  ghost predicate SaleBalances(c: Config, m: Mock, call: LiqCall, paid: nat, proceeds: nat, l: Ledger, n: Ledger) {
    && n.Keys == l.Keys
    && forall k, a :: BalanceOf(n, k, a) == BalanceOf(l, k, a)
         + NetChange(c, m, call, 0, paid, proceeds, k, a)
  }

  ghost predicate SaleAllowances(c: Config, m: Mock, call: LiqCall, l: Ledger, n: Ledger) {
    forall k, o, a :: AllowanceOf(n, k, o, a) ==
      if o == c.self && ((k == call.debtAsset && a == c.pool)
                         || (k == call.collateralAsset != call.debtAsset && a == m.router))
      then 0 else AllowanceOf(l, k, o, a)
  }

  /** When a run of the mocks ends in a profit, from a contract already paid the loan. */
  predicate RunSucceeds(c: Config, m: Mock, l: Ledger, call: LiqCall, premium: nat)
    requires call.params.Some?
  {
    var paid, proceeds := MulWad(call.debtAmount, m.collateralRate), Proceeds(m, call);
    var single := call.collateralAsset == call.debtAsset;
    && m.healthFactor < WAD && call.collateralAsset in l
    && paid.Some? && SeizedAmount(m, call) > 0
    && BalanceOf(l, call.collateralAsset, c.pool) + If(single, call.debtAmount) >= paid.value
    && (single || (RoutedToMock(c, m, call.params.value.sellDex) && proceeds.Some?
                   && BalanceOf(l, call.debtAsset, m.router) >= proceeds.value))
    && proceeds.value >= call.debtAmount + premium + call.params.value.minProfit
  }

  ghost predicate RanExactly(c: Config, m: Mock, s: State, call: LiqCall, premium: nat, r: Result<State, Error>)
    requires call.params.Some?
  {
    && (r.Success? <==> RunSucceeds(c, m, s.ledger, call, premium))
    && (r.Success? ==>
          && var proceeds := Proceeds(m, call).value;
          && var e := LiquidationExecuted(call.debtAsset, call.collateralAsset, call.borrower, call.debtAmount,
                                          SeizedAmount(m, call), premium, proceeds - call.debtAmount - premium);
          && r.value == s.(ledger := r.value.ledger, events := s.events + [e])
          && SaleBalances(c, m, call, MulWad(call.debtAmount, m.collateralRate).value, proceeds,
                          s.ledger, r.value.ledger)
          && SaleAllowances(c, m, call, s.ledger, r.value.ledger))
  }

  /** The loan has been paid out on top of the snapshot, and nothing here can overflow. */
  ghost predicate Funded(c: Config, m: Mock, s: State, call: LiqCall) {
    && call.params.Some? && call.debtAsset in s.ledger
    && BalanceOf(s.ledger, call.debtAsset, c.self) == s.snapshot + call.debtAmount
    && (forall k, a :: BalanceOf(s.ledger, k, a) < UINT_MAX)
    && BalanceOf(s.ledger, call.debtAsset, c.self) + BalanceOf(s.ledger, call.debtAsset, c.pool) < UINT_MAX
    && BalanceOf(s.ledger, call.debtAsset, c.self) + BalanceOf(s.ledger, call.debtAsset, m.router) < UINT_MAX
  }

  lemma BoundedBalances(c: Config, m: Mock, l: Ledger, t: Address)
    requires Apart(c, m) && Bounded(c.self, l)
    ensures forall k, a :: BalanceOf(l, k, a) < UINT_MAX
    ensures BalanceOf(l, t, c.self) + BalanceOf(l, t, c.pool) < UINT_MAX
    ensures BalanceOf(l, t, c.self) + BalanceOf(l, t, m.router) < UINT_MAX
  {
    forall k, a ensures BalanceOf(l, k, a) < UINT_MAX {
      if k in l {
        BalanceWithinSupply(l[k], a);
      }
    }
    if t in l {
      TwoBalances(l[t], c.self, c.pool);
      TwoBalances(l[t], c.self, m.router);
    }
  }

  /** Seizing and the profit check when collateral and debt are the same token. */
  lemma MockRunSingle(c: Config, m: Mock, running: seq<Frame>, s: State, call: LiqCall, premium: nat)
    requires Apart(c, m) && Funded(c, m, s, call) && call.collateralAsset == call.debtAsset
    ensures RanExactly(c, m, s, call, premium,
                       RunLiquidation(c, running, s, call.debtAsset, call.debtAmount, premium, Some(Params(call)),
                                      MockExternal(c, m, call)).out)
  {
    hide Exec, Swap, Sum, AllowanceOf, RouterFor, MulWad, BalanceOf;
    if m.healthFactor < WAD {
      MockSeizure(c, m, running, s, call);
    }
  }

  /** Seizing, selling and the profit check when they are different tokens. */
  lemma MockRunDistinct(c: Config, m: Mock, running: seq<Frame>, s: State, call: LiqCall, premium: nat)
    requires Apart(c, m) && Funded(c, m, s, call) && call.collateralAsset != call.debtAsset
    ensures RanExactly(c, m, s, call, premium,
                       RunLiquidation(c, running, s, call.debtAsset, call.debtAmount, premium, Some(Params(call)),
                                      MockExternal(c, m, call)).out)
  {
    hide Exec, Swap, Sum, AllowanceOf, RouterFor, MulWad, BalanceOf;
    var debt, coll, d := call.debtAsset, call.collateralAsset, call.debtAmount;
    if m.healthFactor < WAD && coll in s.ledger {
      MockSeizure(c, m, running, s, call);
      var approved := s.(ledger := Approve(s.ledger, debt, c.self, c.pool, d).value);
      var r1 := Exec(c, running, approved, PullThenPay(c, c.pool, debt, coll, d, m.collateralRate)).out;
      if r1.Success? && Seized(c, s, r1.value, coll).Success? {
        MockSelling(c, m, running, r1.value, call.params.value.sellDex, coll, debt, SeizedAmount(m, call),
                    MockExternal(c, m, call));
      }
    }
  }

  lemma MockRun(c: Config, m: Mock, running: seq<Frame>, s: State, call: LiqCall, premium: nat)
    requires Apart(c, m) && Funded(c, m, s, call)
    ensures RanExactly(c, m, s, call, premium,
                       RunLiquidation(c, running, s, call.debtAsset, call.debtAmount, premium, Some(Params(call)),
                                      MockExternal(c, m, call)).out)
  {
    hide *;
    if call.collateralAsset == call.debtAsset {
      MockRunSingle(c, m, running, s, call, premium);
    } else {
      MockRunDistinct(c, m, running, s, call, premium);
    }
  }

  /** The approval and the pool's pull after a run that succeeded: always possible, and it uses the approval up. */
  lemma MockRepayment(c: Config, l: Ledger, debt: Address, owed: nat)
    requires c.self != c.pool && debt in l && BalanceOf(l, debt, c.self) >= owed && owed < UINT_MAX
    ensures var approved := Approve(l, debt, c.self, c.pool, owed);
      && approved.Some?
      && var repaid := TransferFrom(approved.value, debt, c.pool, c.self, c.pool, owed);
      && repaid.Some?
      && Moved(l, repaid.value, debt, c.self, c.pool, owed)
      && Allowed(l, repaid.value, debt, c.self, c.pool, 0)
  {
    hide Approve, TransferFrom, AllowanceOf;
    ApproveExact(l, debt, c.self, c.pool, owed);
    var approved := Approve(l, debt, c.self, c.pool, owed).value;
    assert AllowanceOf(approved, debt, c.self, c.pool) == owed;
    TransferFromExact(approved, debt, c.pool, c.self, c.pool, owed);
  }

  /** Exactly what a liquidation that succeeds against the mocks leaves behind. */
  ghost predicate LiquidatedExactly(c: Config, m: Mock, s: State, u: State, call: LiqCall) {
    var premium, paid := Premium(call.debtAmount), MulWad(call.debtAmount, m.collateralRate);
    var proceeds := Proceeds(m, call);
    && premium.Some? && paid.Some? && proceeds.Some? && proceeds.value >= call.debtAmount + premium.value
    && SeizedAmount(m, call) > 0
    && var e := LiquidationExecuted(call.debtAsset, call.collateralAsset, call.borrower, call.debtAmount,
                                    SeizedAmount(m, call), premium.value,
                                    proceeds.value - call.debtAmount - premium.value);
    && u == State(u.ledger, false, false, STRAT_LIQ, BalanceOf(s.ledger, call.debtAsset, c.self), s.events + [e])
    && u.ledger.Keys == s.ledger.Keys
    && (forall k, a :: BalanceOf(u.ledger, k, a) == BalanceOf(s.ledger, k, a)
          + NetChange(c, m, call, premium.value, paid.value, proceeds.value, k, a))
    && SaleAllowances(c, m, call, s.ledger, u.ledger)
  }

  /** The pool's callback: the contract's checks pass and the outcome is that of the run. */
  lemma MockCallback(c: Config, m: Mock, running: seq<Frame>, s: State, call: LiqCall, premium: nat)
    requires Apart(c, m) && Funded(c, m, s, call) && s.lock && s.strategy == STRAT_LIQ
    ensures var ext := MockExternal(c, m, call);
      var ran := RunLiquidation(c, running, s, call.debtAsset, call.debtAmount, premium, Some(Params(call)), ext).out;
      var r := ExecuteOperation(c, running, s, c.pool, call.debtAsset, call.debtAmount, premium, c.self,
                                Some(Params(call)), ext).out;
      && (r.Success? <==> RunSucceeds(c, m, s.ledger, call, premium))
      && (r.Success? ==>
            var approved := Approve(ran.value.ledger, call.debtAsset, c.self, c.pool, call.debtAmount + premium);
            approved.Some? && r.value == ran.value.(ledger := approved.value))
  {
    hide RunLiquidation, RunSucceeds, MockExternal, SaleAllowances, NetChange, Token.Approve;
    MockRun(c, m, running, s, call, premium);
  }

  /** The state in which the pool calls back. */
  function Paid(c: Config, s: State, call: LiqCall): State
    requires Transfer(s.ledger, call.debtAsset, c.pool, c.self, call.debtAmount).Some?
  {
    State(Transfer(s.ledger, call.debtAsset, c.pool, c.self, call.debtAmount).value, true, true, STRAT_LIQ,
          BalanceOf(s.ledger, call.debtAsset, c.self), s.events)
  }

  lemma PaidIsFunded(c: Config, m: Mock, s: State, call: LiqCall)
    requires Apart(c, m) && Bounded(c.self, s.ledger) && call.params.Some?
    requires Transfer(s.ledger, call.debtAsset, c.pool, c.self, call.debtAmount).Some?
    ensures Funded(c, m, Paid(c, s, call), call)
    ensures Moved(s.ledger, Paid(c, s, call).ledger, call.debtAsset, c.pool, c.self, call.debtAmount)
    ensures SameAllowances(s.ledger, Paid(c, s, call).ledger)
  {
    hide Sum, Bounded, Token.Supply, Token.Transfer, AllowanceOf;
    var l := Paid(c, s, call).ledger;
    TransferExact(s.ledger, call.debtAsset, c.pool, c.self, call.debtAmount);
    TransferFacts(s.ledger[call.debtAsset], c.pool, c.self, call.debtAmount);
    FundsKeepBounded(s.ledger, c.self, call.debtAsset, l[call.debtAsset]);
    BoundedBalances(c, m, l, call.debtAsset);
  }

  /** Being paid the loan changes the condition of the run only by what the pool must hold. */
  lemma RunFromPaid(c: Config, m: Mock, s: State, l: Ledger, call: LiqCall, premium: nat)
    requires Apart(c, m) && call.params.Some? && call.debtAsset in s.ledger
    requires Moved(s.ledger, l, call.debtAsset, c.pool, c.self, call.debtAmount)
    ensures RunSucceeds(c, m, l, call, premium)
       <==> && m.healthFactor < WAD && call.collateralAsset in s.ledger
            && Sellable(c, m, s.ledger, call, call.params.value.sellDex)
            && Proceeds(m, call).value >= call.debtAmount + premium + call.params.value.minProfit
  {
  }

  lemma NetOfLoan(c: Config, m: Mock, call: LiqCall, premium: nat, l0: Ledger, l1: Ledger, l2: Ledger, l3: Ledger)
    requires Apart(c, m) && MulWad(call.debtAmount, m.collateralRate).Some? && Proceeds(m, call).Some?
    requires Moved(l0, l1, call.debtAsset, c.pool, c.self, call.debtAmount) && SameAllowances(l0, l1)
    requires SaleBalances(c, m, call, MulWad(call.debtAmount, m.collateralRate).value, Proceeds(m, call).value, l1, l2)
    requires SaleAllowances(c, m, call, l1, l2)
    requires Moved(l2, l3, call.debtAsset, c.self, c.pool, call.debtAmount + premium)
    requires Allowed(l2, l3, call.debtAsset, c.self, c.pool, 0)
    ensures l3.Keys == l0.Keys
    ensures forall k, a :: BalanceOf(l3, k, a) == BalanceOf(l0, k, a)
              + NetChange(c, m, call, premium, MulWad(call.debtAmount, m.collateralRate).value,
                          Proceeds(m, call).value, k, a)
    ensures SaleAllowances(c, m, call, l0, l3)
  {
  }

  lemma EnoughAfterSale(c: Config, m: Mock, s: State, call: LiqCall, premium: nat, l: Ledger)
    requires Apart(c, m) && Funded(c, m, s, call) && RunSucceeds(c, m, s.ledger, call, premium)
    requires SaleBalances(c, m, call, MulWad(call.debtAmount, m.collateralRate).value, Proceeds(m, call).value,
                          s.ledger, l)
    ensures call.debtAsset in l && call.debtAmount + premium < UINT_MAX
    ensures BalanceOf(l, call.debtAsset, c.self) >= call.debtAmount + premium
    ensures MulWad(call.debtAmount, m.collateralRate).Some? && SeizedAmount(m, call) > 0
    ensures Proceeds(m, call).Some? && Proceeds(m, call).value >= call.debtAmount + premium
  {
    hide BalanceOf, MulWad, RouterFor;
  }

  lemma MockFlashLoan(c: Config, m: Mock, s: State, call: LiqCall)
    requires Apart(c, m) && Bounded(c.self, s.ledger) && call.params.Some? && call.debtAsset in s.ledger
    ensures var ext := MockExternal(c, m, call);
      var running := [] + [Frame(call.debtAsset, BalanceOf(s.ledger, call.debtAsset, c.self))];
      var s1 := s.(entered := true, lock := true, strategy := STRAT_LIQ,
                   snapshot := BalanceOf(s.ledger, call.debtAsset, c.self));
      var r := FlashLoanSimple(c, running, s1, c.self, call.debtAsset, call.debtAmount, Some(Params(call)), ext).out;
      && (r.Success? <==>
            && Premium(call.debtAmount).Some? && BalanceOf(s.ledger, call.debtAsset, c.pool) >= call.debtAmount
            && m.healthFactor < WAD && call.collateralAsset in s.ledger
            && Sellable(c, m, s.ledger, call, call.params.value.sellDex)
            && Proceeds(m, call).value
               >= call.debtAmount + Premium(call.debtAmount).value + call.params.value.minProfit)
      && (r.Success? ==> LiquidatedExactly(c, m, s, r.value.(lock := false, entered := false), call))
  {
    hide ExecuteOperation, RunLiquidation, RunSucceeds, Sellable, Sum, Transfer, TransferFrom, Approve, Bounded, MulWad,
         SaleBalances, SaleAllowances, NetChange, BalanceOf, AllowanceOf, Moved, Allowed, SameAllowances, Proceeds,
         Token.Transfer, Token.TransferFrom, Token.Approve;
    var ext := MockExternal(c, m, call);
    var debt, d := call.debtAsset, call.debtAmount;
    TransferExact(s.ledger, debt, c.pool, c.self, d);
    if Premium(d).Some? && Transfer(s.ledger, debt, c.pool, c.self, d).Some? {
      var premium := Premium(d).value;
      var s1 := Paid(c, s, call);
      var running := [] + [Frame(debt, s1.snapshot)];
      PaidIsFunded(c, m, s, call);
      MockRun(c, m, running, s1, call, premium);
      MockCallback(c, m, running, s1, call, premium);
      RunFromPaid(c, m, s, s1.ledger, call, premium);
      var ran := RunLiquidation(c, running, s1, debt, d, premium, Some(Params(call)), ext).out;
      if ran.Success? {
        EnoughAfterSale(c, m, s1, call, premium, ran.value.ledger);
        MockRepayment(c, ran.value.ledger, debt, d + premium);
        var l3 := TransferFrom(Approve(ran.value.ledger, debt, c.self, c.pool, d + premium).value,
                               debt, c.pool, c.self, c.pool, d + premium).value;
        NetOfLoan(c, m, call, premium, s.ledger, s1.ledger, ran.value.ledger, l3);
      }
    }
  }

  /**
   Against the mocks a liquidation succeeds exactly when the caller is the
   owner, nothing is running, the position is unhealthy, the named router is
   the mock, the mocks can pay, and the proceeds cover loan, fee and minimum
   profit; and it then leaves exactly these balances and allowances.
   */
  lemma MockLiquidation(c: Config, m: Mock, s: State, sender: Address, call: LiqCall)
    requires Apart(c, m) && Bounded(c.self, s.ledger)
    ensures var r := ExecuteLiquidation(c, [], s, sender, call, MockExternal(c, m, call)).out;
      && (r.Success? <==> Succeeds(c, m, s, sender, call))
      && (r.Success? ==> LiquidatedExactly(c, m, s, r.value, call))
  {
    hide FlashLoanSimple, Sellable, MulWad, LiquidatedExactly, Bounded;
    if Prepare(c, s, sender, call).Success? {
      MockFlashLoan(c, m, s, call);
    }
  }

  // ---------- Histories ----------

  datatype Op =
    | RunLiq(sender: Address, call: LiqCall)
    | WithdrawAll(sender: Address, token: Address)
    | WithdrawSome(sender: Address, token: Address, amount: nat)
    | Configure(healthFactor: nat, collateralRate: nat, price: nat)

  function Reconfigured(m: Mock, op: Op): Mock {
    if op.Configure? then Mock(op.healthFactor, op.collateralRate, m.router, op.price) else m
  }

  /** One transaction; a reverted one leaves the state as it was. */
  function Apply(c: Config, m: Mock, s: State, op: Op): State {
    var out := match op
      case RunLiq(sender, call) => ExecuteLiquidation(c, [], s, sender, call, MockExternal(c, m, call)).out
      case WithdrawAll(sender, token) => WithdrawToken(c, s, sender, token)
      case WithdrawSome(sender, token, v) => EmergencyWithdraw(c, s, sender, token, v)
      case Configure(_, _, _) => Success(s);
    if out.Success? then out.value else s
  }

  function ApplyAll(c: Config, m: Mock, s: State, ops: seq<Op>): State
    decreases |ops|
  {
    if ops == [] then s else ApplyAll(c, Reconfigured(m, ops[0]), Apply(c, m, s, ops[0]), ops[1..])
  }

  /** The log accounts for every token the contract holds, to the unit. */
  ghost predicate Accounted(c: Config, s: State, u: State) {
    && !u.entered && !u.lock && SameSupplies(s.ledger, u.ledger) && Bounded(c.self, u.ledger)
    && forall t :: BalanceOf(u.ledger, t, c.self) - Gain(u.events, t)
                == BalanceOf(s.ledger, t, c.self) - Gain(s.events, t)
  }

  lemma GainStep(s: State, u: State, t: Address)
    requires |u.events| > 0 && u.events == s.events + [Executed(u)]
    ensures Gain(u.events, t) == Gain(s.events, t) + Delta(Executed(u), t)
  {
  }

  lemma PayOwnerAccounted(c: Config, s: State, token: Address, v: nat)
    requires AtRest(c, s) && c.owner != c.self
    ensures var r := PayOwner(c, s, token, v); r.Success? ==> Accounted(c, s, r.value)
  {
    hide Gain, Bounded, Token.Supply, Token.Free, Sum, Token.Transfer;
    if PayOwner(c, s, token, v).Success? {
      var u := PayOwner(c, s, token, v).value;
      WithdrawalEvolves(c, s, token, v);
      TransferExact(s.ledger, token, c.self, c.owner, v);
      forall t ensures Gain(u.events, t) == Gain(s.events, t) + Delta(Executed(u), t) {
        GainStep(s, u, t);
      }
    }
  }

  lemma ApplyAccounted(c: Config, m: Mock, s: State, op: Op)
    requires AtRest(c, s) && Apart(c, m) && c.owner != c.self
    ensures Accounted(c, s, Apply(c, m, s, op))
  {
    hide Gain, Bounded, Token.Supply, Token.Free, ExecuteLiquidation, BalanceOf, PayOwner, SaleAllowances, Succeeds;
    match op
    case RunLiq(sender, call) =>
      var ext := MockExternal(c, m, call);
      LiquidationProfit(c, s, sender, call, ext);
      MockLiquidation(c, m, s, sender, call);
      var r := ExecuteLiquidation(c, [], s, sender, call, ext).out;
      if r.Success? {
        forall t ensures Gain(r.value.events, t) == Gain(s.events, t) + Delta(Executed(r.value), t) {
          GainStep(s, r.value, t);
        }
      }
    case WithdrawAll(sender, token) => PayOwnerAccounted(c, s, token, BalanceOf(s.ledger, token, c.self));
    case WithdrawSome(sender, token, v) => PayOwnerAccounted(c, s, token, v);
    case Configure(_, _, _) =>
  }

  /**
   Over any liquidations, withdrawals and changes of the mocks' settings,
   each token's balance is the initial one plus logged profits less logged
   withdrawals, and no token's supply changes.
   */
  lemma {:induction false} EveryUnitAccounted(c: Config, m: Mock, s: State, ops: seq<Op>)
    requires AtRest(c, s) && Apart(c, m) && c.owner != c.self
    ensures Accounted(c, s, ApplyAll(c, m, s, ops))
    decreases |ops|
  {
    hide Gain, Bounded, Token.Supply, BalanceOf, Apply;
    if ops != [] {
      ApplyAccounted(c, m, s, ops[0]);
      EveryUnitAccounted(c, Reconfigured(m, ops[0]), Apply(c, m, s, ops[0]), ops[1..]);
    }
  }

  /** After a success the router and the pool may spend nothing more, and the sold token is back where it was. */
  lemma NothingLeftBehind(c: Config, m: Mock, s: State, sender: Address, call: LiqCall)
    requires Apart(c, m) && Bounded(c.self, s.ledger) && Succeeds(c, m, s, sender, call)
    requires call.collateralAsset != call.debtAsset
    ensures var r := ExecuteLiquidation(c, [], s, sender, call, MockExternal(c, m, call)).out;
      && r.Success?
      && BalanceOf(r.value.ledger, call.collateralAsset, c.self) == BalanceOf(s.ledger, call.collateralAsset, c.self)
      && AllowanceOf(r.value.ledger, call.debtAsset, c.self, c.pool) == 0
      && AllowanceOf(r.value.ledger, call.collateralAsset, c.self, m.router) == 0
  {
    hide ExecuteLiquidation, Succeeds;
    MockLiquidation(c, m, s, sender, call);
  }

  // ---------- What the last transaction of a history does ----------

  /** The owner's withdrawal of `v`, in full if it is allowed, and nothing at all otherwise. */
  ghost predicate WithdrewIfAllowed(c: Config, s: State, u: State, sender: Address, token: Address, v: nat) {
    if sender == c.owner && !s.entered && token in s.ledger && BalanceOf(s.ledger, token, c.self) >= v then
      && u.events == s.events + [Withdrawn(token, v)] && Moved(s.ledger, u.ledger, token, c.self, c.owner, v)
      && SameAllowances(s.ledger, u.ledger)
    else u == s
  }

  /** A liquidation, exactly as stated if it is to succeed, and nothing at all otherwise. */
  ghost predicate LiquidatedIfDue(c: Config, m: Mock, s: State, u: State, sender: Address, call: LiqCall) {
    if Succeeds(c, m, s, sender, call) then LiquidatedExactly(c, m, s, u, call) else u == s
  }

  /** After any history of anybody's transactions, a liquidation against the mocks happens exactly when it is due. */
  lemma LastLiquidation(c: Config, m: Mock, s: State, txs: seq<seq<Action>>, sender: Address, call: LiqCall)
    requires AtRest(c, s) && Apart(c, m) && sender != c.self
    ensures LiquidatedIfDue(c, m, History(c, s, txs),
                            History(c, s, txs + [[Liquidate(sender, call, MockExternal(c, m, call))]]), sender, call)
  {
    hide ExecuteLiquidation, Bounded, MockExternal, BalanceOf, History;
    var a := Liquidate(sender, call, MockExternal(c, m, call));
    HistoryEvolves(c, s, txs);
    LastTransaction(c, s, txs, a);
    var b := History(c, s, txs);
    MockLiquidation(c, m, b.(lock := false, strategy := 0, snapshot := 0), sender, call);
  }

  /** After any history, each kind of withdrawal happens exactly when it is allowed. */
  lemma LastWithdrawal(c: Config, s: State, txs: seq<seq<Action>>, sender: Address, token: Address, v: nat)
    requires sender != c.self
    ensures var b := History(c, s, txs);
      && WithdrewIfAllowed(c, b, History(c, s, txs + [[Emergency(sender, token, v)]]), sender, token, v)
      && WithdrewIfAllowed(c, b, History(c, s, txs + [[Withdraw(sender, token)]]), sender, token,
                           BalanceOf(b.ledger, token, c.self))
  {
    hide EmergencyWithdraw, WithdrawToken, BalanceOf, AllowanceOf, History;
    var b := History(c, s, txs);
    var clean := b.(lock := false, strategy := 0, snapshot := 0);
    LastTransaction(c, s, txs, Emergency(sender, token, v));
    LastTransaction(c, s, txs, Withdraw(sender, token));
    WithdrawalExact(c, clean, sender, token, v);
    WithdrawalExact(c, clean, sender, token, BalanceOf(b.ledger, token, c.self));
  }

  /** After any history, other accounts' token calls happen exactly when the token allows them. */
  lemma LastTokenCall(c: Config, s: State, txs: seq<seq<Action>>, actor: Address, token: Address, from: Address,
                      to: Address, v: nat)
    requires actor != c.self
    ensures var l := History(c, s, txs).ledger;
      var moved := History(c, s, txs + [[TokenTransfer(actor, token, to, v)]]).ledger;
      var spent := History(c, s, txs + [[TokenTransferFrom(actor, token, from, to, v)]]).ledger;
      var approved := History(c, s, txs + [[TokenApprove(actor, token, to, v)]]).ledger;
      && (if token in l && BalanceOf(l, token, actor) >= v then Moved(l, moved, token, actor, to, v) else moved == l)
      && (if token in l && AllowanceOf(l, token, from, actor) >= v && BalanceOf(l, token, from) >= v
          then Moved(l, spent, token, from, to, v) else spent == l)
      && (if token in l then Allowed(l, approved, token, actor, to, v) else approved == l)
  {
    hide Transfer, TransferFrom, Approve, BalanceOf, AllowanceOf, History;
    var l := History(c, s, txs).ledger;
    LastTransaction(c, s, txs, TokenTransfer(actor, token, to, v));
    LastTransaction(c, s, txs, TokenTransferFrom(actor, token, from, to, v));
    LastTransaction(c, s, txs, TokenApprove(actor, token, to, v));
    TransferExact(l, token, actor, to, v);
    TransferFromExact(l, token, actor, from, to, v);
    ApproveExact(l, token, actor, to, v);
  }

  /** The mocks' settings after some operations. */
  function SettingsAfter(m: Mock, ops: seq<Op>): Mock
    decreases |ops|
  {
    if ops == [] then m else SettingsAfter(Reconfigured(m, ops[0]), ops[1..])
  }

  lemma {:induction false} OpsCompose(c: Config, m: Mock, s: State, ops: seq<Op>, op: Op)
    ensures ApplyAll(c, m, s, ops + [op]) == Apply(c, SettingsAfter(m, ops), ApplyAll(c, m, s, ops), op)
    ensures SettingsAfter(m, ops + [op]) == Reconfigured(SettingsAfter(m, ops), op)
    decreases |ops|
  {
    hide Apply, Reconfigured;
    if ops == [] {
      assert [op][1..] == [];
    } else {
      assert (ops + [op])[0] == ops[0] && (ops + [op])[1..] == ops[1..] + [op];
      OpsCompose(c, Reconfigured(m, ops[0]), Apply(c, m, s, ops[0]), ops[1..], op);
    }
  }

  /** After any operations against the mocks, the next one does exactly what it should, under the settings made last. */
  lemma LastOp(c: Config, m: Mock, s: State, ops: seq<Op>, op: Op)
    requires AtRest(c, s) && Apart(c, m) && c.owner != c.self
    ensures var now, b, u := SettingsAfter(m, ops), ApplyAll(c, m, s, ops), ApplyAll(c, m, s, ops + [op]);
      match op
      case RunLiq(sender, call) => LiquidatedIfDue(c, now, b, u, sender, call)
      case WithdrawAll(sender, token) => WithdrewIfAllowed(c, b, u, sender, token, BalanceOf(b.ledger, token, c.self))
      case WithdrawSome(sender, token, v) => WithdrewIfAllowed(c, b, u, sender, token, v)
      case Configure(h, rate, price) => u == b && SettingsAfter(m, ops + [op]) == Mock(h, rate, m.router, price)
  {
    hide ExecuteLiquidation, EmergencyWithdraw, WithdrawToken, MockExternal, BalanceOf, AllowanceOf, Bounded, ApplyAll;
    var now, b := SettingsAfter(m, ops), ApplyAll(c, m, s, ops);
    EveryUnitAccounted(c, m, s, ops);
    RouterStays(m, ops);
    OpsCompose(c, m, s, ops, op);
    match op
    case RunLiq(sender, call) => MockLiquidation(c, now, b, sender, call);
    case WithdrawAll(sender, token) => WithdrawalExact(c, b, sender, token, BalanceOf(b.ledger, token, c.self));
    case WithdrawSome(sender, token, v) => WithdrawalExact(c, b, sender, token, v);
    case Configure(_, _, _) =>
  }

  lemma {:induction false} RouterStays(m: Mock, ops: seq<Op>)
    ensures SettingsAfter(m, ops).router == m.router
    decreases |ops|
  {
    if ops != [] {
      RouterStays(Reconfigured(m, ops[0]), ops[1..]);
    }
  }
}
