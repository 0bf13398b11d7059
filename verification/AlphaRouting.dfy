/**
 AlphaRouting and its two mocks as the objects they are: fields written step by
 step, with the state put back when the transaction reverts. Every method is
 proved to do what the functions of Routing say against the mocks' answers, so
 what is proved about those holds of this code.
 */
module AlphaRouting {
  import opened Wrappers
  import opened Tokens
  import opened Routing
  import opened MockWorld

  type Reply = Result<(), Error>

  /** The deployed tokens; a call that fails changes nothing. */
  class Chain {
    var ledger: Ledger

    constructor (ledger: Ledger)
      ensures this.ledger == ledger
    {
      this.ledger := ledger;
    }

    method Settle(outcome: Option<Ledger>) returns (r: Reply)
      modifies this
      ensures outcome.Some? ==> r == Success(()) && ledger == outcome.value
      ensures outcome.None? ==> r == Failure(TokenReverted) && ledger == old(ledger)
    {
      match outcome
      case None => r := Failure(TokenReverted);
      case Some(l) => ledger, r := l, Success(());
    }
  }

  /** What a call that pulls `v` from `from` and then pays `to` at a fixed rate does to the ledger. */
  function Exchange(l: Ledger, actor: Address, from: Address, to: Address, tokenIn: Address, tokenOut: Address,
                    v: nat, rate: nat): Result<Ledger, Error>
  {
    match TransferFrom(l, tokenIn, actor, from, actor, v)
    case None => Failure(TokenReverted)
    case Some(pulled) =>
      match MulWad(v, rate)
      case None => Failure(ExternalReverted)
      case Some(out) =>
        match Transfer(pulled, tokenOut, actor, to, out)
        case None => Failure(TokenReverted)
        case Some(paid) => Success(paid)
  }

  /** The mocks' script and their code say the same. */
  lemma ScriptExchanges(c: Config, running: seq<Frame>, s: State, x: Address, tokenIn: Address, tokenOut: Address,
                        v: nat, rate: nat)
    requires x != c.self
    ensures var e := Exchange(s.ledger, x, c.self, c.self, tokenIn, tokenOut, v, rate);
      Exec(c, running, s, PullThenPay(c, x, tokenIn, tokenOut, v, rate)).out ==
      match e
      case Failure(error) => Failure(error)
      case Success(l) => Success(s.(ledger := l))
  {
    hide Token.Transfer, Token.TransferFrom;
    var script := PullThenPay(c, x, tokenIn, tokenOut, v, rate);
    ExecPair(c, running, s, script[0], script[1]);
  }

  /** Of two different tokens, what comes in is exactly what was paid out. */
  lemma ExchangePays(l: Ledger, x: Address, a: Address, tokenIn: Address, tokenOut: Address, v: nat, rate: nat)
    requires x != a && tokenIn != tokenOut
    ensures var e := Exchange(l, x, a, a, tokenIn, tokenOut, v, rate);
      e.Success? ==> MulWad(v, rate).Some?
                     && BalanceOf(e.value, tokenOut, a) == BalanceOf(l, tokenOut, a) + MulWad(v, rate).value
  {
  }

  class MockSwapRouter {
    const self: Address
    const chain: Chain
    var rateWad: nat

    constructor (self: Address, chain: Chain)
      ensures this.self == self && this.chain == chain && rateWad == WAD
    {
      this.self, this.chain, rateWad := self, chain, WAD;
    }

    method SetRate(rate: nat)
      modifies this
      ensures rateWad == rate
    {
      rateWad := rate;
    }

    method ExactInputSingle(sender: Address, tokenIn: Address, tokenOut: Address, recipient: Address,
                            amountIn: nat, amountOutMinimum: nat) returns (r: Result<nat, Error>)
      modifies chain
      ensures var e := Exchange(old(chain.ledger), self, sender, recipient, tokenIn, tokenOut, amountIn, rateWad);
        && (r.Success? ==> e == Success(chain.ledger) && MulWad(amountIn, rateWad) == Some(r.value)
                           && r.value >= amountOutMinimum)
        && (r.Failure? ==> e == Failure(r.error)
                           || (MulWad(amountIn, rateWad).Some? && MulWad(amountIn, rateWad).value < amountOutMinimum))
    {
      var _ :- chain.Settle(TransferFrom(chain.ledger, tokenIn, self, sender, self, amountIn));
      if amountIn * rateWad > UINT_MAX {
        return Failure(ExternalReverted);
      }
      var amountOut := amountIn * rateWad / WAD;
      if amountOut < amountOutMinimum {
        return Failure(ExternalReverted);
      }
      var _ :- chain.Settle(Transfer(chain.ledger, tokenOut, self, recipient, amountOut));
      r := Success(amountOut);
    }
  }

  class MockAavePool {
    const self: Address
    const chain: Chain
    var healthFactor: nat
    var collateralPerDebtUnitWad: nat

    constructor (self: Address, chain: Chain)
      ensures this.self == self && this.chain == chain && healthFactor == 0 && collateralPerDebtUnitWad == WAD
    {
      this.self, this.chain, healthFactor, collateralPerDebtUnitWad := self, chain, 0, WAD;
    }

    method Configure(healthFactor: nat, rate: nat)
      modifies this
      ensures this.healthFactor == healthFactor && collateralPerDebtUnitWad == rate
    {
      this.healthFactor, collateralPerDebtUnitWad := healthFactor, rate;
    }

    method LiquidationCall(sender: Address, collateralAsset: Address, debtAsset: Address, debtToCover: nat)
      returns (r: Reply)
      modifies chain
      ensures var e := Exchange(old(chain.ledger), self, sender, sender, debtAsset, collateralAsset, debtToCover,
                                collateralPerDebtUnitWad);
        && (r.Success? ==> e == Success(chain.ledger))
        && (r.Failure? ==> e == Failure(r.error))
    {
      var _ :- chain.Settle(TransferFrom(chain.ledger, debtAsset, self, sender, self, debtToCover));
      if debtToCover * collateralPerDebtUnitWad > UINT_MAX {
        return Failure(ExternalReverted);
      }
      var collateralOut := debtToCover * collateralPerDebtUnitWad / WAD;
      r := chain.Settle(Transfer(chain.ledger, collateralAsset, self, sender, collateralOut));
    }

    method FlashLoanSimple(initiator: Address, receiver: AlphaRouting, asset: Address, amount: nat,
                           params: Option<LiqParams>, ghost running: seq<Frame>) returns (r: Reply)
      requires receiver.Wired() && receiver.pool == this && receiver.c.pool == self
      modifies receiver, chain
      ensures receiver.Wired() && receiver.Does(r, old(
        Routing.FlashLoanSimple(receiver.c, running, receiver.Now(), initiator, asset, amount, params,
                                MockAnswers(receiver.c, receiver.Mocks(), asset, amount, params)).out))
    {
      hide Token.Transfer, Token.TransferFrom, Exec, Routing.RunLiquidation;
      if amount * PREMIUM_BPS > UINT_MAX {
        return Failure(ExternalReverted);
      }
      var premium := amount * PREMIUM_BPS / 10_000;
      var _ :- chain.Settle(Transfer(chain.ledger, asset, self, receiver.c.self, amount));
      var _ :- receiver.ExecuteOperation(self, asset, amount, premium, initiator, params, running);
      r := chain.Settle(TransferFrom(chain.ledger, asset, self, receiver.c.self, self, amount + premium));
    }
  }

  class AlphaRouting {
    const c: Config            // owner and constructor-injected addresses
    const chain: Chain
    const pool: MockAavePool   // stands at c.pool, unless that is the zero address
    const router: MockSwapRouter

    var entered: bool
    var lock: bool
    var strategy: nat
    var snapshot: nat
    var events: seq<Event>

    constructor (c: Config, pool: MockAavePool, router: MockSwapRouter)
      requires pool.chain == router.chain && (c.pool == pool.self || c.pool == 0)
      requires c.self != pool.self && c.self != router.self && pool.self != router.self && c.self != 0 && pool.self != 0
      ensures this.c == c && this.pool == pool && this.router == router && chain == pool.chain && Wired()
      ensures !entered && !lock && strategy == 0 && snapshot == 0 && events == []
    {
      this.c, chain, this.pool, this.router := c, pool.chain, pool, router;
      entered, lock, strategy, snapshot, events := false, false, 0, 0, [];
    }

    ghost predicate Wired() {
      && pool.chain == chain && router.chain == chain && (c.pool == pool.self || c.pool == 0)
      && c.self != pool.self && c.self != router.self && pool.self != router.self && c.self != 0 && pool.self != 0
    }

    function Now(): State
      reads this, chain
    {
      State(chain.ledger, entered, lock, strategy, snapshot, events)
    }

    function Mocks(): Mock
      reads pool, router
    {
      Mock(pool.healthFactor, pool.collateralPerDebtUnitWad, router.self, router.rateWad)
    }

    /** The reply and the state are those of `out`; after a failure the state is the caller's to restore. */
    ghost predicate Does(r: Reply, out: Result<State, Error>)
      reads this, chain
    {
      match r
      case Success(_) => out == Success(Now())
      case Failure(e) => out == Failure(e)
    }

    method ExecuteLiquidation(sender: Address, call: LiqCall) returns (r: Reply)
      requires Wired()
      modifies this, chain
      ensures Does'(r, old(Now()), old(
        Routing.ExecuteLiquidation(c, [], Now(), sender, call, MockExternal(c, Mocks(), call)).out))
      ensures c.pool == pool.self && old(Bounded(c.self, chain.ledger)) ==>
        && (r.Success? <==> old(Succeeds(c, Mocks(), Now(), sender, call)))
        && (r.Success? ==> LiquidatedExactly(c, old(Mocks()), old(Now()), Now(), call))
    {
      hide Routing.ExecuteLiquidation, Succeeds, LiquidatedExactly, Bounded, MockExternal;
      if c.pool == pool.self && Bounded(c.self, chain.ledger) {
        MockLiquidation(c, Mocks(), Now(), sender, call);
      }
      var before := Now();
      r := LiquidationBody(sender, call);
      if r.Failure? {
        Revert(before);
      }
    }

    /** As Does, with the state of before the transaction put back after a failure. */
    ghost predicate Does'(r: Reply, before: State, out: Result<State, Error>)
      reads this, chain
    {
      Does(r, out) && (r.Failure? ==> Now() == before)
    }

    method Revert(before: State)
      modifies this, chain
      ensures Now() == before
    {
      chain.ledger := before.ledger;
      entered, lock, strategy := before.entered, before.lock, before.strategy;
      snapshot, events := before.snapshot, before.events;
    }

    method LiquidationBody(sender: Address, call: LiqCall) returns (r: Reply)
      requires Wired()
      modifies this, chain
      ensures Does(r, old(
        Routing.ExecuteLiquidation(c, [], Now(), sender, call, MockExternal(c, Mocks(), call)).out))
    {
      hide Routing.FlashLoanSimple, Token.Transfer, Token.TransferFrom, Exec;
      if sender != c.owner {
        return Failure(NotOwner);
      }
      if entered {
        return Failure(Reentered);
      }
      entered := true;
      if c.pool == 0 {
        return Failure(AaveNotAvailable);
      }
      if call.borrower == 0 {
        return Failure(ZeroBorrower);
      }
      if call.params.None? {
        return Failure(BadParams);
      }
      if call.debtAsset !in chain.ledger {
        return Failure(TokenReverted);
      }
      lock := true;
      strategy := STRAT_LIQ;
      snapshot := BalanceOf(chain.ledger, call.debtAsset, c.self);
      var _ :- pool.FlashLoanSimple(c.self, this, call.debtAsset, call.debtAmount, Some(Params(call)),
                                    [] + [Frame(call.debtAsset, snapshot)]);
      lock := false;
      entered := false;
      r := Success(());
    }

    method ExecuteOperation(sender: Address, asset: Address, amount: nat, premium: nat, initiator: Address,
                            params: Option<LiqParams>, ghost running: seq<Frame>) returns (r: Reply)
      requires Wired() && sender != 0
      modifies this, chain
      ensures Does(r, old(
        Routing.ExecuteOperation(c, running, Now(), sender, asset, amount, premium, initiator, params,
                                 MockAnswers(c, Mocks(), asset, amount, params)).out))
      ensures sender != c.pool ==> r == Failure(UnauthorizedCallback)
      ensures sender == c.pool && initiator != c.self ==> r == Failure(InitiatorMismatch)
      ensures sender == c.pool && initiator == c.self && !old(lock) ==> r == Failure(LockNotSet)
      ensures r.Success? ==> old(lock) && old(strategy) == STRAT_LIQ
    {
      hide Routing.RunLiquidation, Token.Approve, Exec;
      if sender != c.pool {
        return Failure(UnauthorizedCallback);
      }
      if initiator != c.self {
        return Failure(InitiatorMismatch);
      }
      if !lock {
        return Failure(LockNotSet);
      }
      if strategy != STRAT_LIQ {
        return Failure(UnsupportedStrategy(strategy));
      }
      var _ :- RunLiquidation(asset, amount, premium, params, running);
      r := chain.Settle(Approve(chain.ledger, asset, c.self, c.pool, amount + premium));
    }

    method RunLiquidation(debtAsset: Address, amount: nat, premium: nat, params: Option<LiqParams>,
                          ghost running: seq<Frame>) returns (r: Reply)
      requires Wired() && c.pool == pool.self
      modifies this, chain
      ensures Does(r, old(
        Routing.RunLiquidation(c, running, Now(), debtAsset, amount, premium, params,
                               MockAnswers(c, Mocks(), debtAsset, amount, params)).out))
    {
      hide Exec, Routing.Swap, Settle, RouterFor, PullThenPay, MockSwap, MulWad, Exchange, Token.Approve;
      if params.None? {
        return Failure(BadParams);
      }
      var p := params.value;
      ghost var ext := MockAnswers(c, Mocks(), debtAsset, amount, params);
      if pool.healthFactor >= THRESHOLD {
        return Failure(PositionStillHealthy(pool.healthFactor));
      }
      if p.collateralAsset !in chain.ledger {
        return Failure(TokenReverted);
      }
      ghost var before := chain.ledger;
      var collateralBefore := BalanceOf(chain.ledger, p.collateralAsset, c.self);
      var _ :- chain.Settle(Approve(chain.ledger, debtAsset, c.self, c.pool, p.debtToCover));
      ScriptExchanges(c, running, Now(), c.pool, debtAsset, p.collateralAsset, p.debtToCover,
                      pool.collateralPerDebtUnitWad);
      ghost var approved := chain.ledger;
      ApproveExact(before, debtAsset, c.self, c.pool, p.debtToCover);
      if p.collateralAsset != debtAsset {
        ExchangePays(approved, c.pool, c.self, debtAsset, p.collateralAsset, p.debtToCover,
                     pool.collateralPerDebtUnitWad);
      }
      var _ :- pool.LiquidationCall(c.self, p.collateralAsset, debtAsset, p.debtToCover);
      var collateralAfter := BalanceOf(chain.ledger, p.collateralAsset, c.self);
      if collateralAfter < collateralBefore {
        return Failure(Panic);
      }
      var seized := collateralAfter - collateralBefore;
      if seized == 0 {
        return Failure(NoCollateralSeized);
      }
      if p.collateralAsset != debtAsset {
        var _ :- Swap(p.sellDex, p.collateralAsset, debtAsset, seized, running, ext);
      }
      r := CheckProfit(debtAsset, amount, premium, p, seized);
    }

    /** The end of _runLiquidation: the profit check and the event. */
    method CheckProfit(debtAsset: Address, amount: nat, premium: nat, p: LiqParams, seized: nat) returns (r: Reply)
      modifies this`events
      ensures Does(r, old(Settle(c, Now(), debtAsset, amount, premium, p, seized)))
      ensures var spent := snapshot + amount + premium;
        && (r.Success? <==> spent <= UINT_MAX && BalanceOf(chain.ledger, debtAsset, c.self) >= spent + p.minProfit)
        && (r.Success? ==>
              events == old(events) + [LiquidationExecuted(debtAsset, p.collateralAsset, p.borrower, p.debtToCover,
                                         seized, premium, BalanceOf(chain.ledger, debtAsset, c.self) - spent)])
    {
      var owed := amount + premium;
      if owed > UINT_MAX || snapshot + owed > UINT_MAX {
        return Failure(Panic);
      }
      var finalBalance := BalanceOf(chain.ledger, debtAsset, c.self);
      if finalBalance < snapshot + owed {
        return Failure(UnprofitableArb(finalBalance, snapshot + owed));
      }
      var profit := finalBalance - snapshot - owed;
      if profit < p.minProfit {
        return Failure(MinProfitNotMet(profit, p.minProfit));
      }
      events := events + [LiquidationExecuted(debtAsset, p.collateralAsset, p.borrower, p.debtToCover, seized,
                                              premium, profit)];
      r := Success(());
    }

    method Swap(dex: string, tokenIn: Address, tokenOut: Address, amountIn: nat, ghost running: seq<Frame>,
                ghost ext: External) returns (r: Reply)
      requires Wired()
      requires ext.swap == MockSwap(c, Mocks(), dex, tokenIn, tokenOut, amountIn) && ext.amounts == 1
      modifies chain
      ensures Does(r, old(Routing.Swap(c, running, Now(), dex, tokenIn, amountIn, ext).out))
    {
      NamedRouter(c, dex, router.self);
      var address :- RouterFor(c, dex);
      var _ :- chain.Settle(Approve(chain.ledger, tokenIn, c.self, address, amountIn));
      if address != router.self || dex == "aerodrome" {
        ExecRevert(c, running, Now());
        return Failure(ExternalReverted);
      }
      ScriptExchanges(c, running, Now(), router.self, tokenIn, tokenOut, amountIn, router.rateWad);
      var _ :- router.ExactInputSingle(c.self, tokenIn, tokenOut, c.self, amountIn, 0);
      r := Success(());
    }

    /** Since `before`, exactly `amount` of `token` went to the owner and was logged. */
    ghost predicate PaidOwner(before: State, token: Address, amount: nat)
      reads this, chain
    {
      && Now() == before.(ledger := chain.ledger, events := before.events + [Withdrawn(token, amount)])
      && Moved(before.ledger, chain.ledger, token, c.self, c.owner, amount)
      && SameAllowances(before.ledger, chain.ledger)
    }

    method WithdrawToken(sender: Address, token: Address) returns (r: Reply)
      modifies this, chain
      ensures Does'(r, old(Now()), old(Routing.WithdrawToken(c, Now(), sender, token)))
      ensures r.Success? <==> old(sender == c.owner && !entered && token in chain.ledger)
      ensures r.Success? ==> PaidOwner(old(Now()), token, old(BalanceOf(chain.ledger, token, c.self)))
      ensures r.Success? && c.owner != c.self ==>
        && BalanceOf(chain.ledger, token, c.self) == 0
        && BalanceOf(chain.ledger, token, c.owner) == old(BalanceOf(chain.ledger, token, c.owner)
                                                          + BalanceOf(chain.ledger, token, c.self))
    {
      WithdrawalExact(c, Now(), sender, token, BalanceOf(chain.ledger, token, c.self));
      r := EmergencyWithdraw(sender, token, BalanceOf(chain.ledger, token, c.self));
    }

    method EmergencyWithdraw(sender: Address, token: Address, amount: nat) returns (r: Reply)
      modifies this, chain
      ensures Does'(r, old(Now()), old(Routing.EmergencyWithdraw(c, Now(), sender, token, amount)))
      ensures r.Success? <==> old(sender == c.owner && !entered && token in chain.ledger
                                  && BalanceOf(chain.ledger, token, c.self) >= amount)
      ensures r.Success? ==> PaidOwner(old(Now()), token, amount)
    {
      WithdrawalExact(c, Now(), sender, token, amount);
      if sender != c.owner {
        return Failure(NotOwner);
      }
      if entered {
        return Failure(Reentered);
      }
      var before := Now();
      entered := true;
      r := chain.Settle(Transfer(chain.ledger, token, c.self, c.owner, amount));
      if r.Failure? {
        Revert(before);
        return;
      }
      events := events + [Withdrawn(token, amount)];
      entered := false;
    }
  }
}
