# Verified model of AlphaRouting

This project models the parts of AlphaRouting that hold state or do arithmetic
and proves what they promise, in Dafny 4.11. `dafny verify dfyconfig.toml`
checks all of it.

| files | what they model |
|---|---|
| `Tokens.dfy` | EIP-20 tokens: balances, allowances, supply, and what a holder has free of allowances |
| `Routing.dfy`, `RoutingSafety.dfy` | the liquidation transaction of `AlphaRouting.sol` inside a world where the pool, the router and everybody else may make any calls, nested to any depth, and the proofs that hold in all of them |
| `MockWorld.dfy`, `AlphaRouting.dfy` | the two mocks, the exact condition and effect of a liquidation against them, and the contract and mocks as classes proved to do what `Routing.dfy` says |
| `NonceProtocol.dfy`, `NonceQueue.dfy` | the nonce allocator: every interleaving of its atomic steps, and one thread's view of it |
| `PriorityLanes.dfy`, `BinaryHeap.dfy`, `PriorityQueue.dfy` | the bounded priority queue: its specification as FIFO lanes, an array heap standing in for the standard library's, and the refinement |
| `Discovery.dfy` | the chunked log scan, the borrower registry, and saves, crashes and restarts around it |
| `ReplayBuffer.dfy` | the replay ring, its queries and its summary |
| `Aave.dfy`, `Selection.dfy` | the reserve bitmap, the fetch of balances and the choice of a target |

## How a transaction is modelled

A call is a function from state to state or to an error. A revert yields no
state, so the caller goes on from its own: storage, transient slots (EIP-1153)
and the log are rolled back together. Everybody but the contract is a script of
actions (token calls, calls into the contract, flash loans with the contract as
receiver, and attempts whose failure is caught), and scripts nest. All results
are for every script. In the classes the state is written step by step and put
back when the transaction fails. Their inner methods are each proved to give the
outcome of the like-named function of `Routing.dfy`, error for error; the table
lists the ones that also state an effect of their own.

Assumptions, each of them the source's own or outside of it:

- The pool is faithful: it pays the loan, calls back once with the same asset,
  amount and parameters, and pulls exactly amount plus fee. It calls
  `executeOperation` only from its own flash loans. The contract relies on this:
  nothing after the loan checks that the callback ran. During `liquidationCall`
  the pool may do anything.
- Token supplies are below the largest uint256, and nobody but the contract
  acts as the contract. Tokens follow EIP-20 without hooks or fees.
- Calldata is its decoded value, or `None` when it does not decode; comparing
  hashes of DEX names is comparing the names.
- The contract's owner does not change.
- The nonce counter and the queue's sequence number stay below 2^64. What
  breaks when the nonce counter does not is proved.
- The event log of the chain is fixed: no reorganisations.

## Where the code and its documentation disagree

- The cache is said to let a restart resume from the last scanned block. It is
  written only after a scan that got all its answers and found somebody new, so
  progress is lost when a scan finds nobody, and also when it finds somebody and
  then fails. `Discovery.ProgressIsKept` gives the exact condition for every
  poll; `Discovery.QuietChainIsRescanned` and
  `Discovery.FailedScanLosesItsFinds` are inputs that lose it. The set of
  borrowers is never wrong.
- The nonce allocator is said to drain the pool before touching the counter. A
  release between a pool miss and the addition is overtaken:
  `NonceQueue.FetchAddIsLeast` gives the exact condition and
  `NonceQueue.LostRace` a run. No nonce is lost or doubled by it. It is also
  called lock-free, but takes a mutex.
- `select_liquidation_target` is said to return nothing only without a borrowed
  or a collateral reserve. It also returns nothing when the largest debt is one
  unit, and for some debts above 2^256 / 5000, whose product with the close
  factor wraps: `Selection.NoTargetIff` is the exact condition, for any
  reserves, and `Selection.DebtsWithoutTarget` has both inputs.
- The health factor is called double-checked; the contract checks it once.

## Model

| member | source | states |
|---|---|---|
| RoutingSafety.LiquidationProfit | src/AlphaRouting.sol:267-297 | whatever runs during the liquidation call and the swap, a liquidation that returns ends with its entry balance plus exactly the emitted profit, which is at least the minimum, with the guard and the lock down and nothing left for the pool to spend; also when collateral and debt are one token |
| RoutingSafety.RunLiquidationEffect | src/AlphaRouting.sol:359-389 | a run that passes the profit check holds snapshot, loan, fee and profit in the debt token, has not lowered the free balance of any other token, and let nobody but the pool spend more of the debt token |
| RoutingSafety.SwapEffect | src/AlphaRouting.sol:393-425 | approving a router for what was seized and letting it do anything costs nothing held before |
| RoutingSafety.RepaidInFull | src/AlphaRouting.sol:335 | after the profit check the final approval always covers the pull and is used up by it |
| RoutingSafety.CallbackEffect | src/AlphaRouting.sol:317-337 | the callback succeeds only when the run does, and changes nothing but the approval after it |
| RoutingSafety.LockDiscipline | src/AlphaRouting.sol:446-479 | at every moment of every call tree, reverted branches included, the lock is set exactly while one liquidation runs, the snapshot is that call's entry balance, and a completed callback belongs to it |
| RoutingSafety.CallbackNeedsLiquidation | src/AlphaRouting.sol:324-333 | executeOperation completes only for the pool, on a loan the contract took, inside a running liquidation |
| RoutingSafety.CallbackByOther | src/AlphaRouting.sol:324-326 | a direct call of the callback, or somebody else's flash loan to the contract, always reverts |
| RoutingSafety.EnteredScript | src/AlphaRouting.sol:267-273 | while the guard is up no script changes the slots, the guard or the log, nor touches the contract's tokens beyond its allowances |
| RoutingSafety.NoPrincipalAtRisk | src/AlphaRouting.sol:359-389 | over any transactions by anyone, starting without allowances, each balance stays at or above the initial one plus logged profits less withdrawals, and no supply changes |
| RoutingSafety.HistoryEvolves | src/AlphaRouting.sol:267-297 | any sequence of transactions from rest ends at rest, with every token's free balance grown at least by what the log accounts for |
| RoutingSafety.RestScript | src/AlphaRouting.sol:267-337 | the same for one transaction of any calls, with every moment of it in order |
| RoutingSafety.LastTransaction | src/AlphaRouting.sol:446-479 | one more transaction starts from the end of the history with its transient slots empty, and ends as the call does or, if that fails, where it began |
| RoutingSafety.ScriptsCompose | src/AlphaRouting.sol:359-389 | a longer script runs its second part from the end of the first, or fails with it, and loses no moment of either |
| RoutingSafety.AttemptIsAllOrNothing | src/AlphaRouting.sol:446-479 | a caught failure leaves the state as before, a success keeps its own, and the moments of both are recorded |
| RoutingSafety.RunRecords | src/AlphaRouting.sol:359-377 | every moment of the liquidation call and of the sale is among those of the run |
| RoutingSafety.CallbackIsRecorded | src/AlphaRouting.sol:317-337 | a liquidation that returns has recorded its completed callback, with its own asset and entry balance |
| MockWorld.WithdrawalExact | src/AlphaRouting.sol:482-498 | a withdrawal succeeds exactly for the owner, with nothing running and enough of a deployed token, and moves exactly the logged amount from the contract to the owner |
| MockWorld.PayOwnerAccounted | src/AlphaRouting.sol:482-498 | after a withdrawal every balance of the contract differs from before by exactly what the log says |
| RoutingSafety.NothingFallsBelowEntry | src/AlphaRouting.sol:367-377 | from zero allowances, one liquidation leaves no token below its entry balance, the collateral included, even if the router spends less than approved |
| MockWorld.MockLiquidation | src/AlphaRouting.sol:359-389 | against the mocks a liquidation succeeds if and only if the stated condition on caller, health, funding, the router configured under the name given, and proceeds holds, and leaves exactly the stated balances, allowances, slots and event |
| MockWorld.MockSeizure | test/mocks/MockAavePool.sol:55-65 | when liquidationCall pays out something, how much is measured as seized, and every balance after it |
| MockWorld.MockSelling | test/mocks/MockSwapRouter.sol:25-30 | when a swap through the named router, one of four names each with its own address, goes through, and every balance and allowance after it |
| MockWorld.AerodromeSelling | src/AlphaRouting.sol:400-412 | the same for the fifth name, whose router must also return amounts |
| MockWorld.NamedRouter | src/AlphaRouting.sol:427-436 | a name gives a router if and only if it is one of the five and that router is configured, and then it gives that one |
| MockWorld.PremiumIsFloor | test/mocks/MockAavePool.sol:48 | the fee is nine ten-thousandths of the amount rounded down, unless the product overflows |
| MockWorld.MulWadIsFloor | test/mocks/MockSwapRouter.sol:27 | what a mock pays out is the amount times the rate over 10^18 rounded down, unless the product overflows |
| MockWorld.MockFlashLoan | test/mocks/MockAavePool.sol:41-53 | when the mock's flash loan to the contract goes through, and exactly what it leaves |
| MockWorld.MockRun | src/AlphaRouting.sol:359-389 | exactly when the run inside the callback succeeds, with its event and balances |
| MockWorld.EveryUnitAccounted | src/AlphaRouting.sol:482-498 | over any liquidations, withdrawals and setting changes against the mocks, each balance is the initial one plus profits less withdrawals, and supplies are unchanged |
| MockWorld.LastOp | src/AlphaRouting.sol:267-297 | after any operations, one more liquidation takes effect exactly when its condition holds of the settings in force, one more withdrawal exactly when it is allowed, and otherwise the state stays |
| MockWorld.LastLiquidation | src/AlphaRouting.sol:267-297 | after any transactions by anyone, a liquidation against the mocks takes effect exactly when its condition holds |
| MockWorld.LastWithdrawal | src/AlphaRouting.sol:482-498 | after any transactions by anyone, a withdrawal moves exactly its amount if it is allowed and nothing otherwise |
| MockWorld.LastTokenCall | src/AlphaRouting.sol:398 | after any transactions by anyone, a transfer, a pull or an approval by others has its EIP-20 effect or none |
| MockWorld.NothingLeftBehind | src/AlphaRouting.sol:398 | after a success with two tokens the sold token is back at its balance and the pool and the router may spend nothing more |
| AlphaRouting.ScriptExchanges | test/mocks/MockAavePool.sol:55-65 | the scripts used for the mocks and the mocks' code give the same result, errors included |
| AlphaRouting.MockSwapRouter.ExactInputSingle | test/mocks/MockSwapRouter.sol:25-30 | the ledger after the swap, or the error |
| AlphaRouting.MockAavePool.LiquidationCall | test/mocks/MockAavePool.sol:55-65 | the ledger after the liquidation call, or the error |
| AlphaRouting.AlphaRouting.constructor | src/AlphaRouting.sol:224-239 | a new contract is unlocked, not entered and has logged nothing |
| AlphaRouting.AlphaRouting.ExecuteLiquidation | src/AlphaRouting.sol:267-297 | succeeds exactly under the condition of MockLiquidation with exactly its effect; a failure restores the whole state and gives the model's error |
| AlphaRouting.AlphaRouting.ExecuteOperation | src/AlphaRouting.sol:317-337 | a wrong sender, a wrong initiator and a missing lock each give their error, in that order, and the callback succeeds only with the lock set for a liquidation |
| AlphaRouting.AlphaRouting.CheckProfit | src/AlphaRouting.sol:379-388 | passes exactly when the balance covers snapshot, loan, fee and minimum profit without overflow, and logs the difference as profit |
| AlphaRouting.AlphaRouting.WithdrawToken | src/AlphaRouting.sol:482-486 | succeeds exactly for the owner with nothing running and a deployed token, leaves the contract none of it and the owner all of it, and otherwise restores the state |
| AlphaRouting.AlphaRouting.EmergencyWithdraw | src/AlphaRouting.sol:495-498 | as above, for an amount the contract holds, which is exactly what moves |
| NonceProtocol.EveryInterleaving | crates/chain/src/nonce.rs:40-53 | in every interleaving of any threads each nonce from the seed to the counter is in exactly one of held, sent, pooled and skipped, once, and was handed out at most once more than it was given back |
| NonceProtocol.StepPartition | crates/chain/src/nonce.rs:40-53 | one step at any moment keeps that partition if and only if a release is of a nonce the client holds or of a pooled one, and an addition does not wrap |
| NonceProtocol.StepInv | crates/chain/src/nonce.rs:66-82 | safe steps keep the whole invariant and never lower the counter |
| NonceProtocol.StepMoves | crates/chain/src/nonce.rs:40-82 | what each step does to counter and pool: a pool hit takes the least and leaves the counter, an addition adds one, an exchange sets the target only where the value loaded still stands |
| NonceProtocol.StepSkipsAndSends | crates/chain/src/nonce.rs:66-82 | only an exchange skips nonces, exactly those it jumps over, and only a send sends |
| NonceProtocol.NextAlone | crates/chain/src/nonce.rs:40-48 | a thread left alone takes the least pooled nonce and leaves the counter, or with an empty pool takes the counter |
| NonceProtocol.ReconcileAlone | crates/chain/src/nonce.rs:66-82 | a thread left alone reconciles in one attempt, to the greater of counter and target |
| NonceProtocol.HolderIsFree | crates/chain/src/nonce.rs:51-53 | a holder can send its nonce, once, or give it back, at any moment |
| NonceProtocol.NoGapWhenDrained | crates/chain/src/nonce.rs:1-11 | with nothing held and the pool empty, every nonce up to the counter was sent exactly once or jumped over |
| NonceProtocol.ReconcileBound | crates/chain/src/nonce.rs:66-82 | under any interference a reconcile fails at most as often as it was behind, and returns a value the counter had that is at least the chain's |
| NonceProtocol.FailedExchanges | crates/chain/src/nonce.rs:66-82 | counted over the steps of any run, a thread has failed exchanges since its last call began at most as often as the counter it first loaded was behind its target |
| NonceQueue.NonceQueue.Next | crates/chain/src/nonce.rs:40-48 | returns the least number from the seed not in use and marks exactly it as used; a pool hit takes only that from the pool and leaves the counter, a miss adds one to the counter |
| NonceQueue.NonceQueue.Release | crates/chain/src/nonce.rs:51-53 | frees exactly that nonce, changes nothing for one already pooled, and leaves the queue valid if and only if the nonce had been handed out or jumped over |
| NonceQueue.NonceQueue.ReleasedCount | crates/chain/src/nonce.rs:59-61 | pooled and used nonces together are all that were issued |
| NonceQueue.NonceQueue.Reconcile | crates/chain/src/nonce.rs:66-82 | with any growth by other threads before each exchange, the bound on failures and the exact final counter: where the others brought it if that is far enough, and the target otherwise; it marks exactly the jumped range as used |
| NonceQueue.PopIsLeast | crates/chain/src/nonce.rs:41-46 | a pool hit yields the least unused nonce in any interleaving |
| NonceQueue.FetchAddIsLeast | crates/chain/src/nonce.rs:47 | a nonce taken from the counter is the least unused one if and only if the pool is still empty |
| NonceQueue.LostRace | crates/chain/src/nonce.rs:40-48 | a run in which a release overtaken by an addition stays pooled below an issued nonce |
| BinaryHeap.CmpIsTotalOrder | crates/workers/src/priority_queue.rs:20-41 | cmp is a total order that ties exactly when eq holds |
| BinaryHeap.RootIsMax | crates/workers/src/priority_queue.rs:70 | the root of a heap in this order is its maximum |
| BinaryHeap.HeapPush | crates/workers/src/priority_queue.rs:65 | the array is a heap again with exactly one more entry |
| BinaryHeap.HeapPop | crates/workers/src/priority_queue.rs:70 | gives the root and leaves a heap of exactly the other entries |
| PriorityQueue.RootIsFirst | crates/workers/src/priority_queue.rs:33-41 | the maximum is unique: the root is the first entry in serving order |
| PriorityQueue.PriorityQueue.constructor | crates/workers/src/priority_queue.rs:50-56 | a new queue stands for empty lanes |
| PriorityQueue.PriorityQueue.TryPush | crates/workers/src/priority_queue.rs:59-67 | accepts exactly below capacity, appending to its lane; a rejected push changes neither heap nor sequence number |
| PriorityQueue.PriorityQueue.Pop | crates/workers/src/priority_queue.rs:69-71 | serves the oldest item of the highest non-empty lane and removes only it |
| PriorityQueue.PriorityQueue.Len | crates/workers/src/priority_queue.rs:73-75 | the number of items waiting in all lanes, never above capacity |
| PriorityQueue.Run | crates/workers/src/priority_queue.rs:59-71 | for any calls with fewer than 2^64 accepted pushes, every single answer, rejections and empty pops included, is the lanes' answer, and what waited and was accepted is what was served and still waits |
| PriorityQueue.FillAndDrain | crates/workers/src/priority_queue.rs:59-71 | a new queue filled with a list that fits and emptied again serves the list's stable sort and is empty |
| PriorityLanes.FillThenEmpty | crates/workers/src/priority_queue.rs:1-5 | of the lanes: pushing a list that fits into empty lanes accepts all of it, and popping as many items serves exactly its stable sort and leaves the lanes empty |
| PriorityLanes.StableSortDescends | crates/workers/src/priority_queue.rs:33-41 | that sort descends in priority |
| PriorityLanes.StableSortKeeps | crates/workers/src/priority_queue.rs:33-41 | that sort keeps the items of each priority in their order |
| PriorityLanes.NothingLostOrInvented | crates/workers/src/priority_queue.rs:59-71 | of the lanes, from any start: what waited and was accepted is what was served and still waits, and the capacity is never exceeded |
| PriorityLanes.AnswerIs | crates/workers/src/priority_queue.rs:59-71 | a push is answered Accepted exactly below capacity and then alone joins the end of its lane, a take hands out the first item of the highest lane that has one, and no other lane changes |
| PriorityLanes.AnswersTell | crates/workers/src/priority_queue.rs:59-71 | over any calls, what was accepted and what was served are, in order, the jobs the answers say |
| Discovery.RequestIsExact | crates/liquidator/src/discovery.rs:82-95 | one request's logs name exactly the addresses that a Borrow event of the pool in its blocks has as onBehalfOf, topic 3 |
| Discovery.WindowsTile | crates/liquidator/src/discovery.rs:77-100 | the requested ranges cover the blocks up to the head once each in order, at most 5000 at a time, and are as few as that allows |
| Discovery.ChunksExact | crates/liquidator/src/discovery.rs:70-103 | a scan failing at any request has found exactly the borrowers of the blocks it counts as scanned, and gets through exactly when no request fails |
| Discovery.ChunkingIsInvisible | crates/liquidator/src/discovery.rs:79-100 | a completed scan finds what one request for the whole range would |
| Discovery.BorrowerRegistry.LoadOrDefault | crates/liquidator/src/discovery.rs:34-43 | starts empty at the start block without a cache file, and otherwise gives the saved registry or the error of an unreadable one |
| Discovery.BorrowerRegistry.InsertAll | crates/liquidator/src/discovery.rs:55-59 | adds exactly the addresses and returns the growth of the set |
| Discovery.BorrowerRegistry.ScanNewBorrowers | crates/liquidator/src/discovery.rs:65-103 | the registry after success or failure, the requests answered, and a count equal to the growth of the set |
| Discovery.Watcher.Start | crates/liquidator/src/main.rs:45 | the process runs from its cache file, or not at all if that cannot be read |
| Discovery.Watcher.Poll | crates/liquidator/src/main.rs:47-55 | what one turn of the loop does to memory, cache file and process |
| Discovery.WhatHappens | crates/liquidator/src/main.rs:45-55 | the process ends on a poll exactly when all requests were answered, somebody new was found and the save failed; the cache changes exactly when that save works |
| Discovery.EveryHistory | crates/liquidator/src/main.rs:45-55 | over any scans, failures, saves, crashes and restarts, memory and disk hold exactly the borrowers of their scanned blocks, disk never ahead of memory |
| Discovery.CrashesLeaveNoTrace | crates/liquidator/src/main.rs:45-55 | two histories that have scanned to the same block have the same registry |
| Discovery.ProgressIsKept | crates/liquidator/src/main.rs:47-55 | after any poll, a crash and a restart resume from what was in memory if and only if all requests were answered, somebody new was found and the save worked, or the scan did not move and they would have resumed from it before |
| Discovery.GrowsIffBorrowedSince | crates/liquidator/src/main.rs:49 | the growth of the set, which is what a scan reports, is positive exactly when an unknown address borrowed in the blocks it got to |
| Discovery.QuietChainIsRescanned | crates/liquidator/src/main.rs:48-53 | on a chain without borrows a restart begins again at the start block |
| Discovery.FailedScanLosesItsFinds | crates/liquidator/src/main.rs:54 | a borrower found in the first request is gone after a restart when the second request fails |
| ReplayBuffer.RecordAllKeepsLast | crates/observability/src/buffer.rs:35-41 | recording anything after any history leaves the last events of all of it |
| ReplayBuffer.FindIsLast | crates/observability/src/buffer.rs:51-84 | the reversed, filtered, cut and reversed chain is the last hits in order |
| ReplayBuffer.HitIs | crates/observability/src/buffer.rs:66-84 | an event is a hit for its own outcome, or for its borrower letter by letter whatever the ASCII case |
| ReplayBuffer.FindOnEnd | crates/observability/src/buffer.rs:51-84 | a query on the ring is an end of the query on the full history, and equal to it exactly when it is full or no hit was evicted |
| ReplayBuffer.CountersPartition | crates/observability/src/buffer.rs:86-119 | the five counters and the three uncounted outcomes sum to the total |
| ReplayBuffer.RecordDelta | crates/observability/src/buffer.rs:35-41 | one record changes every count and both sums by the new event's share less the evicted one's |
| ReplayBuffer.ProfitOfSuccesses | crates/observability/src/buffer.rs:104-106 | the profit counted is that of the events a query for successes finds |
| ReplayBuffer.ReplayBuffer.constructor | crates/observability/src/buffer.rs:22-28 | a capacity of zero becomes one |
| ReplayBuffer.ReplayBuffer.Record | crates/observability/src/buffer.rs:35-41 | the ring stays the end of the history with the event added |
| ReplayBuffer.ReplayBuffer.LastN | crates/observability/src/buffer.rs:44-48 | the last events of the full history, up to the capacity |
| ReplayBuffer.ReplayBuffer.Query | crates/observability/src/buffer.rs:51-84 | the last hits in the ring, an end of those in the full history, equal to them when full |
| ReplayBuffer.ReplayBuffer.Summary | crates/observability/src/buffer.rs:86-119 | each one-pass counter is the size of its own unlimited query, the mean times the size is the sum of the latencies, and the profit is that of the successes |
| Aave.EncodeAfterDecode | crates/liquidator/src/aave.rs:50-58 | encoding decoded flags gives the bitmap modulo 4^n |
| Aave.DecodeAfterEncode | crates/liquidator/src/aave.rs:50-58 | decoding encoded flags gives them back |
| Aave.FlagsAreBits | crates/liquidator/src/aave.rs:53-54 | reserve i is borrowed when bit 2i of the word is set and collateral when bit 2i + 1 is |
| Selection.PicksLastMaximum | crates/liquidator/src/select.rs:32-40 | the choice is the last of the largest eligible reserves, and none exactly when none is eligible |
| Selection.TargetIs | crates/liquidator/src/select.rs:31-52 | a target is chosen if and only if it repays the last largest nonzero debt among the borrowed reserves, seizes the last largest nonzero balance among the collateral ones, and covers half that debt in 256 bits, which is not zero |
| Selection.CoversHalf | crates/liquidator/src/select.rs:42 | half the debt is covered if and only if the 256-bit product does not wrap |
| Selection.FetchingLessIsEnough | crates/liquidator/src/main.rs:103-116 | leaving out reserves without a flag never changes the target |
| Selection.AllPositions | crates/liquidator/src/main.rs:103-116 | a reserve's balance has its asset, stable plus variable debt, aToken balance, and its two bits as flags |
| Selection.FetchBalances | crates/liquidator/src/main.rs:103-118 | fails exactly when the request for a reserve with a bit set fails, and otherwise gives those reserves in their order, each with the data and bits of the user, and leads to the target chosen from all reserves |
| Selection.HalvingsIsCeilLog2 | crates/liquidator/src/select.rs:26 | the number of halvings, rounding up, is the logarithm to base two rounded up |
| Selection.NoTargetIff | crates/liquidator/src/select.rs:31-52 | for any reserves, there is no target if and only if no collateral reserve is nonzero or the largest borrowed debt, times 5000 in 256 bits, is below 10000 or does not exist |
| Selection.DebtsWithoutTarget | crates/liquidator/src/select.rs:42-45 | a largest debt of one unit, or of one more than 2^256 / 5000, has no target whatever the collateral |
| Selection.OneRound | crates/liquidator/src/select.rs:31-52 | while debts do not wrap and assets are distinct, a target seizes the largest collateral and halves exactly the largest eligible debt, rounding up, and there is one as long as an eligible debt exceeds one |
| Selection.ExactRounds | crates/liquidator/src/select.rs:31-52 | liquidating until there is no target takes exactly the sum of those logarithms and leaves each eligible debt at one |
| Tokens.TransferFromByOther | src/AlphaRouting.sol:398 | spending an allowance costs its giver no more than the allowance shrinks |

## Left out

- The six entry points and two callbacks that only revert, ETH withdrawal, and the Balancer vault: a single revert or plain transfer each.
- Ownership transfer: the owner is fixed.
- The pool fee tier, the price limit and the swap's returned amount: they reach only code outside the contract.
- Zero-address checks of particular token implementations: EIP-20 does not ask for them.
- Gas, real pool and exchange pricing, oracle behaviour, and tokens with hooks or transfer fees.
- RoutingSafety.NothingFallsBelowEntry: does not say the collateral is exactly restored, because others may send the contract tokens; MockWorld.NothingLeftBehind says so for the mocks.
- Discovery.BorrowerRegistry.ScanNewBorrowers: is for heads more than 5000 below 2^64, because beyond that the source's chunk arithmetic overflows.
- Partial writes of the cache file, and the file format; a file that cannot be read is modelled.
- The configuration word is taken as a number; the source narrows a larger word to the largest of 128 bits before decoding it.
- The rest of the poll loop (health checks per borrower, signing, sending): network calls without state of their own.
- Aave.DecodeAfterEncode: is for up to 64 reserves, because the source shifts a 128-bit word.
- ReplayBuffer.ReplayBuffer.Summary: takes profits and the mean as real numbers; rounding of floating point is not modelled.
- Selection.ExactRounds: is for distinct assets with an eligible collateral and debts whose product with 5000 stays below 2^256; Selection.CoversHalf says what happens beyond.
- The standard library's heap: `BinaryHeap.dfy` stands in for it; the queue's results do not depend on the heap's shape, because its maximum is unique.
- Formatting and export of summaries, metrics, the HTTP API, settings and chain tables: text, constants and plumbing.
