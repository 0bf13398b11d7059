/**
 The meaning of a transaction that touches AlphaRouting: the contract's entry
 points and callback as functions from state to state, and everybody else as a
 script of the calls they make. A call that reverts yields no state, so the
 caller's own state stands for the rollback of storage and transient slots.
 */
module Routing {
  import opened Wrappers
  import opened Tokens

  const THRESHOLD: nat := 1_000_000_000_000_000_000
  const STRAT_LIQ: nat := 2

  datatype Config = Config(self: Address, owner: Address, pool: Address,
                           uniswap: Address, sushiswap: Address, baseswap: Address,
                           pancakeswap: Address, aerodrome: Address)

  datatype Error =
    | NotOwner | Reentered | AaveNotAvailable | ZeroBorrower | BadParams
    | UnauthorizedCallback | InitiatorMismatch | LockNotSet | UnsupportedStrategy(strategy: nat)
    | PositionStillHealthy(healthFactor: nat) | NoCollateralSeized
    | UnsupportedDex(dex: string) | DexNotConfigured(dex: string)
    | UnprofitableArb(finalBalance: nat, required: nat) | MinProfitNotMet(got: nat, minRequired: nat)
    | Panic              // checked arithmetic or an index out of bounds
    | TokenReverted      // a token refused the call, or no token is deployed there
    | ExternalReverted   // other code reverted

  datatype SwapParams = SwapParams(sellDex: string, minProfit: nat)

  /** Arguments of executeLiquidation; None for calldata that does not decode. */
  datatype LiqCall = LiqCall(collateralAsset: Address, debtAsset: Address, borrower: Address,
                             debtAmount: nat, params: Option<SwapParams>)

  datatype LiqParams = LiqParams(collateralAsset: Address, debtAsset: Address, borrower: Address,
                                 debtToCover: nat, sellDex: string, minProfit: nat)

  datatype Event =
    | LiquidationExecuted(debtAsset: Address, collateralAsset: Address, borrower: Address,
                          debtCovered: nat, collateralSeized: nat, fee: nat, profit: nat)
    | Withdrawn(token: Address, amount: nat)

  datatype State = State(ledger: Ledger,
                         entered: bool,                             // ReentrancyGuard
                         lock: bool, strategy: nat, snapshot: nat,  // transient slots
                         events: seq<Event>)

  /**
   What the pool and the router answer during one liquidation: the flash-loan
   fee (None if the pool refuses), the borrower's health factor, every call
   made while `liquidationCall` runs, every call made while the router runs,
   and how many amounts an Aerodrome-style router returns.
   */
  datatype External = External(premium: Option<nat>, healthFactor: nat,
                               liquidation: seq<Action>, swap: seq<Action>, amounts: nat)

  /** One call by an account other than AlphaRouting; it takes down its script unless attempted. */
  datatype Action =
    | TokenTransfer(actor: Address, token: Address, to: Address, amount: nat)
    | TokenApprove(actor: Address, token: Address, to: Address, amount: nat)
    | TokenTransferFrom(actor: Address, token: Address, from: Address, to: Address, amount: nat)
    | Attempt(body: seq<Action>)
    | Revert
    | Liquidate(actor: Address, call: LiqCall, ext: External)
    | Operate(actor: Address, asset: Address, amount: nat, premium: nat, initiator: Address,
              params: Option<LiqParams>, ext: External)
    | FlashLoan(actor: Address, asset: Address, amount: nat, params: Option<LiqParams>, ext: External)
    | Withdraw(actor: Address, token: Address)
    | Emergency(actor: Address, token: Address, amount: nat)

  /** A running executeLiquidation and the debt-asset balance it started from. */
  datatype Frame = Frame(debtAsset: Address, entryBalance: nat)

  /** A moment of the call tree: other code is about to act, or the callback has just completed. */
  datatype Point =
    | Acting(running: seq<Frame>, state: State)
    | CallbackDone(running: seq<Frame>, state: State, asset: Address)

  /** The outcome of a call and every moment passed on the way, reverted branches included. */
  datatype Run = Run(out: Result<State, Error>, trace: seq<Point>)

  // ---------- The rest of the world ----------

  function Exec(c: Config, running: seq<Frame>, s: State, script: seq<Action>): Run
    decreases script, 0
  {
    var here := [Acting(running, s)];
    if script == [] then Run(Success(s), here) else
    var first := Step(c, running, s, script[0]);
    match first.out
    case Failure(e) => Run(Failure(e), here + first.trace)
    case Success(s1) =>
      var rest := Exec(c, running, s1, script[1..]);
      Run(rest.out, here + first.trace + rest.trace)
  }

  function OnLedger(s: State, l: Option<Ledger>): Run {
    match l
    case None => Run(Failure(TokenReverted), [])
    case Some(m) => Run(Success(s.(ledger := m)), [])
  }

  /** Nobody but the contract acts as the contract, and the pool calls back only from its own flash loans. */
  predicate ActsAsContract(c: Config, a: Action) {
    match a
    case Attempt(_) => false
    case Revert => false
    case Operate(actor, _, _, _, _, _, _) => actor == c.self || actor == c.pool
    case _ => a.actor == c.self
  }

  function Step(c: Config, running: seq<Frame>, s: State, a: Action): Run
    decreases a, 9
  {
    if ActsAsContract(c, a) then Run(Failure(ExternalReverted), []) else
    match a
    case Attempt(body) =>
      var r := Exec(c, running, s, body);
      if r.out.Success? then r else Run(Success(s), r.trace)
    case Revert => Run(Failure(ExternalReverted), [])
    case TokenTransfer(actor, token, to, v) => OnLedger(s, Transfer(s.ledger, token, actor, to, v))
    case TokenApprove(actor, token, to, v) => OnLedger(s, Approve(s.ledger, token, actor, to, v))
    case TokenTransferFrom(actor, token, from, to, v) => OnLedger(s, TransferFrom(s.ledger, token, actor, from, to, v))
    case Liquidate(actor, call, ext) => ExecuteLiquidation(c, running, s, actor, call, ext)
    case Operate(actor, asset, amount, premium, initiator, params, ext) =>
      ExecuteOperation(c, running, s, actor, asset, amount, premium, initiator, params, ext)
    case FlashLoan(actor, asset, amount, params, ext) =>
      FlashLoanSimple(c, running, s, actor, asset, amount, params, ext)
    case Withdraw(actor, token) => Run(WithdrawToken(c, s, actor, token), [])
    case Emergency(actor, token, v) => Run(EmergencyWithdraw(c, s, actor, token, v), [])
  }

  /** The pool's side of a flash loan to the contract: pay out, call back once, pull back the debt. */
  function FlashLoanSimple(c: Config, running: seq<Frame>, s: State, initiator: Address, asset: Address,
                           amount: nat, params: Option<LiqParams>, ext: External): Run
    decreases ext, 7
  {
    if ext.premium.None? then Run(Failure(ExternalReverted), []) else
    var premium := ext.premium.value;
    match Transfer(s.ledger, asset, c.pool, c.self, amount)
    case None => Run(Failure(TokenReverted), [])
    case Some(paid) =>
      var r := ExecuteOperation(c, running, s.(ledger := paid), c.pool, asset, amount, premium, initiator, params, ext);
      if r.out.Failure? then r else
      match TransferFrom(r.out.value.ledger, asset, c.pool, c.self, c.pool, amount + premium)
      case None => Run(Failure(TokenReverted), r.trace)
      case Some(repaid) => Run(Success(r.out.value.(ledger := repaid)), r.trace)
  }

  // ---------- AlphaRouting ----------

  function CheckEntry(c: Config, s: State, sender: Address): Result<(), Error> {
    if sender != c.owner then Failure(NotOwner)
    else if s.entered then Failure(Reentered)
    else Success(())
  }

  /** The checks before the first write; on success, the balance snapshot and the parameters passed on. */
  function Prepare(c: Config, s: State, sender: Address, call: LiqCall): Result<(nat, LiqParams), Error> {
    var _ :- CheckEntry(c, s, sender);
    if c.pool == 0 then Failure(AaveNotAvailable)
    else if call.borrower == 0 then Failure(ZeroBorrower)
    else if call.params.None? then Failure(BadParams)
    else if call.debtAsset !in s.ledger then Failure(TokenReverted)
    else
      var p := call.params.value;
      Success((BalanceOf(s.ledger, call.debtAsset, c.self),
               LiqParams(call.collateralAsset, call.debtAsset, call.borrower, call.debtAmount, p.sellDex, p.minProfit)))
  }

  function ExecuteLiquidation(c: Config, running: seq<Frame>, s: State, sender: Address,
                              call: LiqCall, ext: External): Run
    decreases ext, 8
  {
    match Prepare(c, s, sender, call)
    case Failure(e) => Run(Failure(e), [])
    case Success((balance, p)) =>
      var r := FlashLoanSimple(c, running + [Frame(call.debtAsset, balance)],
                               s.(entered := true, lock := true, strategy := STRAT_LIQ, snapshot := balance),
                               c.self, call.debtAsset, call.debtAmount, Some(p), ext);
      if r.out.Failure? then r else
      Run(Success(r.out.value.(lock := false, entered := false)), r.trace)
  }

  function ExecuteOperation(c: Config, running: seq<Frame>, s: State, sender: Address, asset: Address, amount: nat,
                            premium: nat, initiator: Address, params: Option<LiqParams>, ext: External): Run
    decreases ext, 6
  {
    if sender != c.pool then Run(Failure(UnauthorizedCallback), [])
    else if initiator != c.self then Run(Failure(InitiatorMismatch), [])
    else if !s.lock then Run(Failure(LockNotSet), [])
    else if s.strategy != STRAT_LIQ then Run(Failure(UnsupportedStrategy(s.strategy)), [])
    else
      var r := RunLiquidation(c, running, s, asset, amount, premium, params, ext);
      if r.out.Failure? then r else
      match Approve(r.out.value.ledger, asset, c.self, c.pool, amount + premium)
      case None => Run(Failure(TokenReverted), r.trace)
      case Some(l) =>
        var done := r.out.value.(ledger := l);
        Run(Success(done), r.trace + [CallbackDone(running, done, asset)])
  }

  function RunLiquidation(c: Config, running: seq<Frame>, s: State, debtAsset: Address, amount: nat, premium: nat,
                          params: Option<LiqParams>, ext: External): Run
    decreases ext, 5
  {
    if params.None? then Run(Failure(BadParams), []) else
    var p := params.value;
    if ext.healthFactor >= THRESHOLD then Run(Failure(PositionStillHealthy(ext.healthFactor)), [])
    else if p.collateralAsset !in s.ledger then Run(Failure(TokenReverted), [])
    else
      match Approve(s.ledger, debtAsset, c.self, c.pool, p.debtToCover)
      case None => Run(Failure(TokenReverted), [])
      case Some(approved) =>
        var r1 := Exec(c, running, s.(ledger := approved), ext.liquidation);
        if r1.out.Failure? then r1 else
        match Seized(c, s, r1.out.value, p.collateralAsset)
        case Failure(e) => Run(Failure(e), r1.trace)
        case Success(seized) =>
          if p.collateralAsset == debtAsset then
            Run(Settle(c, r1.out.value, debtAsset, amount, premium, p, seized), r1.trace)
          else
            var r2 := Swap(c, running, r1.out.value, p.sellDex, p.collateralAsset, seized, ext);
            if r2.out.Failure? then Run(r2.out, r1.trace + r2.trace) else
            Run(Settle(c, r2.out.value, debtAsset, amount, premium, p, seized), r1.trace + r2.trace)
  }

  function Seized(c: Config, before: State, after: State, collateralAsset: Address): Result<nat, Error> {
    var was := BalanceOf(before.ledger, collateralAsset, c.self);
    var now := BalanceOf(after.ledger, collateralAsset, c.self);
    if now < was then Failure(Panic)
    else if now == was then Failure(NoCollateralSeized)
    else Success(now - was)
  }

  function Swap(c: Config, running: seq<Frame>, s: State, dex: string, tokenIn: Address, amountIn: nat,
                ext: External): Run
    decreases ext, 4
  {
    match RouterFor(c, dex)
    case Failure(e) => Run(Failure(e), [])
    case Success(router) =>
      match Approve(s.ledger, tokenIn, c.self, router, amountIn)
      case None => Run(Failure(TokenReverted), [])
      case Some(l) =>
        var r := Exec(c, running, s.(ledger := l), ext.swap);
        if r.out.Success? && dex == "aerodrome" && ext.amounts == 0 then Run(Failure(Panic), r.trace) else r
  }

  function RouterFor(c: Config, dex: string): Result<Address, Error> {
    var router :-
      if dex == "uniswap" then Success(c.uniswap)
      else if dex == "sushiswap" then Success(c.sushiswap)
      else if dex == "baseswap" then Success(c.baseswap)
      else if dex == "pancakeswap" then Success(c.pancakeswap)
      else if dex == "aerodrome" then Success(c.aerodrome)
      else Failure(UnsupportedDex(dex));
    if router == 0 then Failure(DexNotConfigured(dex)) else Success(router)
  }

  /** The profit check, with the event it emits. */
  function Settle(c: Config, s: State, debtAsset: Address, amount: nat, premium: nat, p: LiqParams,
                  seized: nat): Result<State, Error>
  {
    var owed := amount + premium;
    var finalBalance := BalanceOf(s.ledger, debtAsset, c.self);
    if owed > UINT_MAX || s.snapshot + owed > UINT_MAX then Failure(Panic)
    else if finalBalance < s.snapshot + owed then Failure(UnprofitableArb(finalBalance, s.snapshot + owed))
    else
      var profit := finalBalance - s.snapshot - owed;
      if profit < p.minProfit then Failure(MinProfitNotMet(profit, p.minProfit))
      else Success(s.(events := s.events + [LiquidationExecuted(debtAsset, p.collateralAsset, p.borrower,
                                                                p.debtToCover, seized, premium, profit)]))
  }

  function WithdrawToken(c: Config, s: State, sender: Address, token: Address): Result<State, Error> {
    var _ :- CheckEntry(c, s, sender);
    PayOwner(c, s, token, BalanceOf(s.ledger, token, c.self))
  }

  function EmergencyWithdraw(c: Config, s: State, sender: Address, token: Address, v: nat): Result<State, Error> {
    var _ :- CheckEntry(c, s, sender);
    PayOwner(c, s, token, v)
  }

  function PayOwner(c: Config, s: State, token: Address, v: nat): Result<State, Error> {
    match Transfer(s.ledger, token, c.self, c.owner, v)
    case None => Failure(TokenReverted)
    case Some(l) => Success(s.(ledger := l, events := s.events + [Withdrawn(token, v)]))
  }
}
