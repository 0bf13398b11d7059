/**
 Building the set of borrowers from event logs: the chunked scan, the registry
 it fills, and the bot's saves, crashes and restarts around it.
 */
module Discovery {
  import opened Wrappers

  type Address = nat

  const DEFAULT_BLOCK_CHUNK: nat := 5_000
  const U64: nat := 0x1_0000_0000_0000_0000
  const ADDRESS_SPACE: nat := 0x1_0000_0000_0000_0000_0000_0000_0000_0000_0000_0000  // 2^160

  /** A log of the chain: who emitted it and its topics, as 256-bit words. */
  datatype Log = Log(emitter: Address, topics: seq<nat>)

  /** The chain's logs by block, the pool's address, and the Borrow event's signature. */
  datatype Chain = Chain(blocks: nat -> seq<Log>, pool: Address, topic0: nat)

  // ---------- What a complete scan finds ----------

  predicate Matches(chain: Chain, log: Log) {
    log.emitter == chain.pool && |log.topics| > 0 && log.topics[0] == chain.topic0
  }

  /** The borrower a log names: the last twenty bytes of its fourth topic, if it has one. */
  function Borrower(log: Log): Option<Address> {
    if |log.topics| > 3 then Some(log.topics[3] % ADDRESS_SPACE) else None
  }

  function BorrowersOf(logs: seq<Log>): set<Address> {
    if logs == [] then {} else
    (match Borrower(logs[0]) case None => {} case Some(a) => {a}) + BorrowersOf(logs[1..])
  }

  function Matching(chain: Chain, logs: seq<Log>): seq<Log> {
    if logs == [] then [] else
    (if Matches(chain, logs[0]) then [logs[0]] else []) + Matching(chain, logs[1..])
  }

  /** What the node returns for one range of blocks, both ends included. */
  function GetLogs(chain: Chain, from: nat, until: nat): seq<Log>
    decreases until + 1 - from
  {
    if from > until then [] else Matching(chain, chain.blocks(from)) + GetLogs(chain, from + 1, until)
  }

  /**
   The specification: in a block after `lo` up to `hi` the pool emitted a Borrow
   event whose topic 3, onBehalfOf, is `a` in its low 160 bits.
   */
  ghost predicate Borrowed(chain: Chain, lo: nat, hi: nat, a: Address) {
    exists b, log ::
      && lo < b <= hi && log in chain.blocks(b)
      && log.emitter == chain.pool && |log.topics| > 3 && log.topics[0] == chain.topic0
      && log.topics[3] % 0x1_0000_0000_0000_0000_0000_0000_0000_0000_0000_0000 == a
  }

  ghost predicate Exactly(chain: Chain, lo: nat, hi: nat, s: set<Address>) {
    forall a :: a in s <==> Borrowed(chain, lo, hi, a)
  }

  lemma {:induction false} BorrowersOfHas(logs: seq<Log>, a: Address)
    ensures a in BorrowersOf(logs) <==> exists log :: log in logs && Borrower(log) == Some(a)
  {
    if logs != [] {
      BorrowersOfHas(logs[1..], a);
      assert forall log :: log in logs <==> log == logs[0] || log in logs[1..];
    }
  }

  lemma {:induction false} MatchingHas(chain: Chain, logs: seq<Log>, log: Log)
    ensures log in Matching(chain, logs) <==> log in logs && Matches(chain, log)
  {
    if logs != [] {
      MatchingHas(chain, logs[1..], log);
      assert log in logs <==> log == logs[0] || log in logs[1..];
    }
  }

  lemma {:induction false} GetLogsHas(chain: Chain, from: nat, until: nat, log: Log)
    ensures log in GetLogs(chain, from, until)
       <==> Matches(chain, log) && exists b :: from <= b <= until && log in chain.blocks(b)
    decreases until + 1 - from
  {
    if from <= until {
      GetLogsHas(chain, from + 1, until, log);
      MatchingHas(chain, chain.blocks(from), log);
    }
  }

  /** One request finds exactly the borrowers of its range. */
  lemma RequestIsExact(chain: Chain, from: nat, until: nat)
    requires from > 0
    ensures Exactly(chain, from - 1, until, BorrowersOf(GetLogs(chain, from, until)))
  {
    var logs := GetLogs(chain, from, until);
    forall a ensures a in BorrowersOf(logs) <==> Borrowed(chain, from - 1, until, a) {
      BorrowersOfHas(logs, a);
      if a in BorrowersOf(logs) {
        var log :| log in logs && Borrower(log) == Some(a);
        GetLogsHas(chain, from, until, log);
      }
      if Borrowed(chain, from - 1, until, a) {
        var b, log :|
          && from - 1 < b <= until && log in chain.blocks(b)
          && log.emitter == chain.pool && |log.topics| > 3 && log.topics[0] == chain.topic0
          && log.topics[3] % 0x1_0000_0000_0000_0000_0000_0000_0000_0000_0000_0000 == a;
        GetLogsHas(chain, from, until, log);
      }
    }
  }

  lemma ExactlyJoins(chain: Chain, lo: nat, mid: nat, hi: nat, s: set<Address>, t: set<Address>)
    requires lo <= mid <= hi && Exactly(chain, lo, mid, s) && Exactly(chain, mid, hi, t)
    ensures Exactly(chain, lo, hi, s + t)
  {
  }

  /** The range determines the set. */
  lemma ExactlyIsUnique(chain: Chain, lo: nat, hi: nat, s: set<Address>, t: set<Address>)
    requires Exactly(chain, lo, hi, s) && Exactly(chain, lo, hi, t)
    ensures s == t
  {
  }

  // ---------- The chunked scan ----------

  datatype Registry = Registry(lastScanned: nat, borrowers: set<Address>)

  datatype ScanError = HeadUnavailable | RequestFailed

  datatype LoadError = CacheUnreadable

  function ChunkEnd(last: nat, head: nat): nat {
    if last + DEFAULT_BLOCK_CHUNK < head then last + DEFAULT_BLOCK_CHUNK else head
  }

  /** The block ranges a scan from `last` to `head` requests. */
  function Windows(last: nat, head: nat): seq<(nat, nat)>
    decreases head - last
  {
    if last >= head then [] else [(last + 1, ChunkEnd(last, head))] + Windows(ChunkEnd(last, head), head)
  }

  /** The registry after a scan whose request number `failAt`, if there is one, fails; and whether it got through. */
  function Chunks(chain: Chain, r: Registry, head: nat, failAt: Option<nat>): (Registry, bool)
    decreases head - r.lastScanned
  {
    if r.lastScanned >= head then (r, true)
    else if failAt == Some(0) then (r, false)
    else
      var end := ChunkEnd(r.lastScanned, head);
      Chunks(chain, Registry(end, r.borrowers + BorrowersOf(GetLogs(chain, r.lastScanned + 1, end))), head,
             if failAt.Some? then Some(failAt.value - 1) else None)
  }

  /** The windows cover the blocks after `last` up to `head` once each, in order, at most 5000 at a time. */
  lemma {:induction false} WindowsTile(last: nat, head: nat)
    requires last <= head
    ensures var w := Windows(last, head);
      && |w| == (head - last + 4_999) / 5_000
      && (forall i :: 0 <= i < |w| ==> w[i].0 <= w[i].1 < w[i].0 + 5_000)
      && (forall i :: 0 <= i < |w| ==> w[i].0 == (if i == 0 then last else w[i - 1].1) + 1)
      && (w != [] ==> w[|w| - 1].1 == head)
    decreases head - last
  {
    if last < head {
      WindowsTile(ChunkEnd(last, head), head);
    }
  }

  /** However far a scan gets, it has found exactly the borrowers of the blocks it counts as scanned. */
  lemma {:induction false} ChunksExact(chain: Chain, lo: nat, r: Registry, head: nat, failAt: Option<nat>)
    requires lo <= r.lastScanned && Exactly(chain, lo, r.lastScanned, r.borrowers)
    ensures var (u, done) := Chunks(chain, r, head, failAt);
      && r.lastScanned <= u.lastScanned && r.borrowers <= u.borrowers
      && Exactly(chain, lo, u.lastScanned, u.borrowers)
      && (done ==> u.lastScanned == if r.lastScanned < head then head else r.lastScanned)
      && (done <==> failAt.None? || failAt.value >= |Windows(r.lastScanned, head)|)
    decreases head - r.lastScanned
  {
    hide Exactly, Chunks, Windows;
    ChunkUnfolds(chain, r, head, failAt);
    if r.lastScanned < head && failAt != Some(0) {
      var end := ChunkEnd(r.lastScanned, head);
      var found := BorrowersOf(GetLogs(chain, r.lastScanned + 1, end));
      RequestIsExact(chain, r.lastScanned + 1, end);
      ExactlyJoins(chain, lo, r.lastScanned, end, r.borrowers, found);
      ChunksExact(chain, lo, Registry(end, r.borrowers + found), head,
                  if failAt.Some? then Some(failAt.value - 1) else None);
    }
  }

  /** A scan that gets through finds what a single request for the whole range would. */
  lemma ChunkingIsInvisible(chain: Chain, lo: nat, r: Registry, head: nat)
    requires lo <= r.lastScanned < head && Exactly(chain, lo, r.lastScanned, r.borrowers)
    ensures Chunks(chain, r, head, None)
         == (Registry(head, r.borrowers + BorrowersOf(GetLogs(chain, r.lastScanned + 1, head))), true)
  {
    var found := BorrowersOf(GetLogs(chain, r.lastScanned + 1, head));
    ChunksExact(chain, lo, r, head, None);
    RequestIsExact(chain, r.lastScanned + 1, head);
    ExactlyJoins(chain, lo, r.lastScanned, head, r.borrowers, found);
    ExactlyIsUnique(chain, lo, head, Chunks(chain, r, head, None).0.borrowers, r.borrowers + found);
  }

  lemma ChunkUnfolds(chain: Chain, r: Registry, head: nat, failAt: Option<nat>)
    ensures r.lastScanned >= head ==> Chunks(chain, r, head, failAt) == (r, true) && Windows(r.lastScanned, head) == []
    ensures r.lastScanned < head && failAt == Some(0) ==> Chunks(chain, r, head, failAt) == (r, false)
    ensures r.lastScanned < head ==>
      var end := ChunkEnd(r.lastScanned, head);
      Windows(r.lastScanned, head) == [(r.lastScanned + 1, end)] + Windows(end, head)
    ensures r.lastScanned < head && failAt != Some(0) ==>
      var end := ChunkEnd(r.lastScanned, head);
      Chunks(chain, r, head, failAt) ==
      Chunks(chain, Registry(end, r.borrowers + BorrowersOf(GetLogs(chain, r.lastScanned + 1, end))), head,
             if failAt.Some? then Some(failAt.value - 1) else None)
  {
  }

  lemma AppendWindow(s: seq<(nat, nat)>, w: (nat, nat), rest: seq<(nat, nat)>)
    ensures s + ([w] + rest) == (s + [w]) + rest
  {
  }

  lemma EndsAt(last: nat, head: nat)
    ensures ChunkEnd(last, head) == if last + DEFAULT_BLOCK_CHUNK < head then last + DEFAULT_BLOCK_CHUNK else head
  {
  }

  class BorrowerRegistry {
    var lastScannedBlock: nat
    var borrowers: set<Address>

    function Now(): Registry
      reads this
    {
      Registry(lastScannedBlock, borrowers)
    }

    constructor (lastScannedBlock: nat, borrowers: set<Address>)
      ensures Now() == Registry(lastScannedBlock, borrowers)
    {
      this.lastScannedBlock, this.borrowers := lastScannedBlock, borrowers;
    }

    /** Starts empty at `startBlock` without a cache file, and otherwise resumes from it or fails to read it. */
    static method LoadOrDefault(saved: Option<Registry>, readable: bool, startBlock: nat)
      returns (r: Result<BorrowerRegistry, LoadError>)
      ensures r.Success? ==> fresh(r.value) && Loaded(saved, readable, startBlock) == Some(r.value.Now())
      ensures r.Failure? ==> Loaded(saved, readable, startBlock) == None && saved.Some?
    {
      if saved.None? {
        var empty := new BorrowerRegistry(startBlock, {});
        return Success(empty);
      }
      if !readable {
        return Failure(CacheUnreadable);
      }
      var resumed := new BorrowerRegistry(saved.value.lastScanned, saved.value.borrowers);
      return Success(resumed);
    }

    method InsertAll(addresses: set<Address>) returns (added: nat)
      modifies this`borrowers
      ensures borrowers == old(borrowers) + addresses
      ensures added == |borrowers| - |old(borrowers)|
    {
      var before := borrowers;
      borrowers := borrowers + addresses;
      assert borrowers == before + (borrowers - before);
      assert |borrowers| == |before| + |borrowers - before|;
      added := |borrowers| - |before|;
    }

    method ScanNewBorrowers(chain: Chain, head: Option<nat>, failAt: Option<nat>)
      returns (r: Result<nat, ScanError>, ghost answered: seq<(nat, nat)>)
      requires head.Some? ==> head.value + DEFAULT_BLOCK_CHUNK < U64
      modifies this
      ensures head.None? ==> r == Failure(HeadUnavailable) && Now() == old(Now()) && answered == []
      ensures head.Some? ==>
        && (Now(), r.Success?) == Chunks(chain, old(Now()), head.value, failAt)
        && answered + Windows(lastScannedBlock, head.value) == Windows(old(lastScannedBlock), head.value)
      ensures r.Success? ==> r.value == |borrowers| - |old(borrowers)|
    {
      hide Chunks, Windows, GetLogs, BorrowersOf, ChunkEnd;
      answered := [];
      if head.None? {
        return Failure(HeadUnavailable), answered;
      }
      var last := head.value;
      ghost var outcome, ranges := Chunks(chain, Now(), last, failAt), Windows(lastScannedBlock, last);
      ChunkUnfolds(chain, Now(), last, failAt);
      if lastScannedBlock >= last {
        return Success(0), answered;
      }
      var totalNew, from := 0, lastScannedBlock + 1;
      var left := failAt;
      while from <= last
        invariant from == lastScannedBlock + 1 && lastScannedBlock <= last
        invariant Chunks(chain, Now(), last, left) == outcome
        invariant answered + Windows(lastScannedBlock, last) == ranges
        invariant totalNew == |borrowers| - |old(borrowers)|
      {
        ChunkUnfolds(chain, Now(), last, left);
        if left == Some(0) {
          return Failure(RequestFailed), answered;
        }
        assert from + DEFAULT_BLOCK_CHUNK < U64;   // the sum below stays in 64 bits
        var until := if from + DEFAULT_BLOCK_CHUNK - 1 < last then from + DEFAULT_BLOCK_CHUNK - 1 else last;
        EndsAt(lastScannedBlock, last);
        var logs := GetLogs(chain, from, until);
        left := if left.Some? then Some(left.value - 1) else None;
        AppendWindow(answered, (from, until), Windows(until, last));
        answered := answered + [(from, until)];
        var added := InsertAll(BorrowersOf(logs));
        totalNew := totalNew + added;
        lastScannedBlock := until;
        from := until + 1;
      }
      ChunkUnfolds(chain, Now(), last, left);
      r := Success(totalNew);
    }
  }

  // ---------- The bot: saves, crashes and restarts ----------

  /** What loading the cache file gives; None if there is one that cannot be read. */
  function Loaded(saved: Option<Registry>, readable: bool, startBlock: nat): Option<Registry> {
    if saved.None? then Some(Registry(startBlock, {})) else if readable then saved else None
  }

  /** What the process remembers (None while it is down) and what is in its cache file. */
  datatype Bot = Bot(memory: Option<Registry>, disk: Option<Registry>)

  /** One turn of the poll loop, a crash, or a start of the process, which ends it if the cache cannot be read. */
  datatype Happening =
    | Poll(head: Option<nat>, failAt: Option<nat>, saveWorks: bool)
    | Crash
    | Start(readable: bool)

  function Happen(chain: Chain, startBlock: nat, b: Bot, h: Happening): Bot {
    match h
    case Crash => b.(memory := None)
    case Start(readable) => b.(memory := Loaded(b.disk, readable, startBlock))
    case Poll(head, failAt, saveWorks) =>
      if b.memory.None? || head.None? then b else
      var (scanned, done) := Chunks(chain, b.memory.value, head.value, failAt);
      if !done || |scanned.borrowers| == |b.memory.value.borrowers| then b.(memory := Some(scanned))
      else if saveWorks then Bot(Some(scanned), Some(scanned))
      else b.(memory := None)   // the failed save ends the process
  }

  /** The bot's process and its cache file. */
  class Watcher {
    const startBlock: nat
    var registry: BorrowerRegistry
    var running: bool
    var disk: Option<Registry>

    constructor (startBlock: nat)
      ensures this.startBlock == startBlock && fresh(registry) && Now() == Bot(None, None)
    {
      this.startBlock, running, disk := startBlock, false, None;
      registry := new BorrowerRegistry(startBlock, {});
    }

    function Now(): Bot
      reads this, registry
    {
      Bot(if running then Some(registry.Now()) else None, disk)
    }

    method Start(readable: bool)
      modifies this
      ensures registry == old(registry) || fresh(registry)
      ensures Now() == old(Bot(Loaded(disk, readable, startBlock), disk))
    {
      var loaded := BorrowerRegistry.LoadOrDefault(disk, readable, startBlock);
      running := loaded.Success?;
      if loaded.Success? {
        registry := loaded.value;
      }
    }

    /** One turn of the poll loop up to the save; a save that fails ends the process. */
    method Poll(chain: Chain, head: Option<nat>, failAt: Option<nat>, saveWorks: bool)
      requires head.Some? ==> head.value + DEFAULT_BLOCK_CHUNK < U64
      modifies this, registry
      ensures Now() == old(Happen(chain, startBlock, Now(), Happening.Poll(head, failAt, saveWorks)))
    {
      hide Chunks, Windows;
      if !running {
        return;
      }
      var result, _ := registry.ScanNewBorrowers(chain, head, failAt);
      if result.Success? && result.value > 0 {
        if saveWorks {
          disk := Some(registry.Now());
        } else {
          running := false;
        }
      }
    }
  }

  function HappenAll(chain: Chain, startBlock: nat, b: Bot, hs: seq<Happening>): Bot
    decreases |hs|
  {
    if hs == [] then b else HappenAll(chain, startBlock, Happen(chain, startBlock, b, hs[0]), hs[1..])
  }

  ghost predicate RegistryOk(chain: Chain, startBlock: nat, r: Registry) {
    startBlock <= r.lastScanned && Exactly(chain, startBlock, r.lastScanned, r.borrowers)
  }

  ghost predicate BotOk(chain: Chain, startBlock: nat, b: Bot) {
    && (b.memory.Some? ==> RegistryOk(chain, startBlock, b.memory.value))
    && (b.disk.Some? ==> RegistryOk(chain, startBlock, b.disk.value))
    && (b.memory.Some? && b.disk.Some? ==> b.disk.value.lastScanned <= b.memory.value.lastScanned)
  }

  lemma HappenKeepsOk(chain: Chain, startBlock: nat, b: Bot, h: Happening)
    requires BotOk(chain, startBlock, b)
    ensures BotOk(chain, startBlock, Happen(chain, startBlock, b, h))
  {
    if h.Poll? && b.memory.Some? && h.head.Some? {
      ChunksExact(chain, startBlock, b.memory.value, h.head.value, h.failAt);
    }
  }

  /**
   Over any polls, failed or saved or not, crashes and restarts: memory and
   disk each hold exactly the borrowers of the blocks they count as scanned.
   */
  lemma {:induction false} EveryHistory(chain: Chain, startBlock: nat, b: Bot, hs: seq<Happening>)
    requires BotOk(chain, startBlock, b)
    ensures BotOk(chain, startBlock, HappenAll(chain, startBlock, b, hs))
    decreases |hs|
  {
    hide BotOk, Happen;
    if hs != [] {
      HappenKeepsOk(chain, startBlock, b, hs[0]);
      EveryHistory(chain, startBlock, Happen(chain, startBlock, b, hs[0]), hs[1..]);
    }
  }

  /** After a completed scan to `head` the watchlist does not depend on the crashes before it. */
  lemma CrashesLeaveNoTrace(chain: Chain, startBlock: nat, hs: seq<Happening>, others: seq<Happening>)
    ensures var b := HappenAll(chain, startBlock, Bot(None, None), hs);
      var d := HappenAll(chain, startBlock, Bot(None, None), others);
      b.memory.Some? && d.memory.Some? && b.memory.value.lastScanned == d.memory.value.lastScanned
      ==> b.memory == d.memory
  {
    EveryHistory(chain, startBlock, Bot(None, None), hs);
    EveryHistory(chain, startBlock, Bot(None, None), others);
    var b := HappenAll(chain, startBlock, Bot(None, None), hs);
    var d := HappenAll(chain, startBlock, Bot(None, None), others);
    if b.memory.Some? && d.memory.Some? && b.memory.value.lastScanned == d.memory.value.lastScanned {
      ExactlyIsUnique(chain, startBlock, b.memory.value.lastScanned,
                      b.memory.value.borrowers, d.memory.value.borrowers);
    }
  }

  /**
   What each happening does, from the events themselves: only a failed save, a
   crash or an unreadable cache ends the process, and only a save writes.
   */
  lemma WhatHappens(chain: Chain, startBlock: nat, b: Bot, head: Option<nat>, failAt: Option<nat>, flag: bool)
    requires BotOk(chain, startBlock, b) && b.memory.Some?
    ensures var r := b.memory.value;
      var u := Happen(chain, startBlock, b, Poll(head, failAt, flag));
      var found := head.Some? && AllAnswered(r.lastScanned, head.value, failAt) && NewBorrower(chain, r, head.value);
      && (u.memory.None? <==> found && !flag)
      && (u.memory.Some? ==> u.memory.value == if head.Some? then Chunks(chain, r, head.value, failAt).0 else r)
      && u.disk == if found && flag then u.memory else b.disk
    ensures Happen(chain, startBlock, b, Crash) == Bot(None, b.disk)
    ensures Happen(chain, startBlock, b, Start(flag))
         == Bot(if b.disk.None? then Some(Registry(startBlock, {})) else if flag then b.disk else None, b.disk)
  {
    hide Chunks, Exactly, Windows, NewBorrower;
    if head.Some? {
      var r := b.memory.value;
      ChunksExact(chain, startBlock, r, head.value, failAt);
      GrowsIffBorrowedSince(chain, startBlock, r, head.value, failAt);
      if r.lastScanned >= head.value {
        NoNewBorrower(chain, r, head.value);
        NoNewBorrower(chain, r, r.lastScanned);
      }
    }
  }

  /** What a crash and a restart right after `b` would resume from. */
  function Resumed(chain: Chain, startBlock: nat, b: Bot): Option<Registry> {
    Happen(chain, startBlock, Happen(chain, startBlock, b, Crash), Start(true)).memory
  }

  /** Somebody not yet in `r` borrowed after its last block, up to `hi`. */
  ghost predicate NewBorrower(chain: Chain, r: Registry, hi: nat) {
    exists a :: a !in r.borrowers && Borrowed(chain, r.lastScanned, hi, a)
  }

  /** Every request of a scan from `last` to `head` is answered. */
  predicate AllAnswered(last: nat, head: nat, failAt: Option<nat>) {
    failAt.None? || failAt.value >= |Windows(last, head)|
  }

  /** No request of a scan from `last` to `head` is answered: it is up to date, or the first request fails. */
  predicate NoneAnswered(last: nat, head: nat, failAt: Option<nat>) {
    last >= head || failAt == Some(0)
  }

  /**
   After a poll, a crash and a restart resume from what was in memory exactly
   when the scan got through, found somebody new and was saved, or when it did
   not move and they would have before. Any other progress, without a find or
   before a failed request, is not in the cache file.
   */
  lemma ProgressIsKept(chain: Chain, startBlock: nat, b: Bot, head: Option<nat>, failAt: Option<nat>, saveWorks: bool)
    requires BotOk(chain, startBlock, b) && b.memory.Some?
    ensures var r := b.memory.value;
      var u := Happen(chain, startBlock, b, Poll(head, failAt, saveWorks));
      Resumed(chain, startBlock, u) == u.memory
      <==> || (head.Some? && AllAnswered(r.lastScanned, head.value, failAt)
               && NewBorrower(chain, r, head.value) && saveWorks)
           || ((head.None? || NoneAnswered(r.lastScanned, head.value, failAt))
               && Resumed(chain, startBlock, b) == b.memory)
  {
    hide Chunks, Exactly, Windows, NewBorrower;
    if head.Some? {
      var r := b.memory.value;
      ChunksExact(chain, startBlock, r, head.value, failAt);
      ScanMoves(chain, startBlock, r, head.value, failAt);
      GrowsIffBorrowedSince(chain, startBlock, r, head.value, failAt);
      if r.lastScanned >= head.value {
        NoNewBorrower(chain, r, head.value);
        NoNewBorrower(chain, r, r.lastScanned);
      }
    }
  }

  lemma NoNewBorrower(chain: Chain, r: Registry, hi: nat)
    requires hi <= r.lastScanned
    ensures !NewBorrower(chain, r, hi)
  {
  }

  /** A scan with an answered request moves the last scanned block, and no other changes anything. */
  lemma ScanMoves(chain: Chain, lo: nat, r: Registry, head: nat, failAt: Option<nat>)
    requires lo <= r.lastScanned && Exactly(chain, lo, r.lastScanned, r.borrowers)
    ensures var u := Chunks(chain, r, head, failAt).0;
      if NoneAnswered(r.lastScanned, head, failAt) then u == r else u.lastScanned > r.lastScanned
  {
    hide Exactly, Chunks, Windows;
    ChunkUnfolds(chain, r, head, failAt);
    if !NoneAnswered(r.lastScanned, head, failAt) {
      var end := ChunkEnd(r.lastScanned, head);
      var found := BorrowersOf(GetLogs(chain, r.lastScanned + 1, end));
      RequestIsExact(chain, r.lastScanned + 1, end);
      ExactlyJoins(chain, lo, r.lastScanned, end, r.borrowers, found);
      ChunksExact(chain, lo, Registry(end, r.borrowers + found), head,
                  if failAt.Some? then Some(failAt.value - 1) else None);
    }
  }

  /** The count a scan reports is positive exactly when an unknown address borrowed in the blocks it got to. */
  lemma GrowsIffBorrowedSince(chain: Chain, startBlock: nat, r: Registry, head: nat, failAt: Option<nat>)
    requires RegistryOk(chain, startBlock, r)
    ensures var u := Chunks(chain, r, head, failAt).0;
      |u.borrowers| - |r.borrowers| > 0 <==> NewBorrower(chain, r, u.lastScanned)
    ensures var u := Chunks(chain, r, head, failAt).0;
      |u.borrowers| >= |r.borrowers| && (|u.borrowers| == |r.borrowers| <==> u.borrowers == r.borrowers)
  {
    hide Chunks, Windows;
    ChunksExact(chain, startBlock, r, head, failAt);
    var u := Chunks(chain, r, head, failAt).0;
    forall a | a !in r.borrowers ensures a in u.borrowers <==> Borrowed(chain, r.lastScanned, u.lastScanned, a) {
      assert a in u.borrowers <==> Borrowed(chain, startBlock, u.lastScanned, a);
      assert a in r.borrowers <==> Borrowed(chain, startBlock, r.lastScanned, a);
    }
    if r.borrowers != u.borrowers {
      SmallerSubset(r.borrowers, u.borrowers);
      var a :| a in u.borrowers && a !in r.borrowers;
    }
  }

  lemma SmallerSubset(s: set<Address>, t: set<Address>)
    requires s < t
    ensures |s| < |t|
  {
    assert t == s + (t - s);
    assert t - s != {};
  }

  /** Concretely: on a chain without borrows a restart rescans everything. */
  lemma QuietChainIsRescanned(chain: Chain, startBlock: nat, head: nat)
    requires startBlock < head && forall b :: chain.blocks(b) == []
    ensures var u := HappenAll(chain, startBlock, Bot(None, None), [Start(true), Poll(Some(head), None, true)]);
      u.memory == Some(Registry(head, {})) && Resumed(chain, startBlock, u) == Some(Registry(startBlock, {}))
  {
    var started := Bot(Some(Registry(startBlock, {})), None);
    ChunksExact(chain, startBlock, started.memory.value, head, None);
    var scanned := Chunks(chain, started.memory.value, head, None).0;
    forall a ensures a !in scanned.borrowers {
      assert a in scanned.borrowers <==> Borrowed(chain, startBlock, scanned.lastScanned, a);
    }
    assert scanned.borrowers == {};
    var polled := Happen(chain, startBlock, started, Poll(Some(head), None, true));
    assert polled == Bot(Some(Registry(head, {})), None);
    assert [Start(true), Poll(Some(head), None, true)][1..] == [Poll(Some(head), None, true)];
    assert HappenAll(chain, startBlock, polled, []) == polled;
    assert HappenAll(chain, startBlock, started, [Poll(Some(head), None, true)]) == polled;
  }

  /** Concretely: a find in the first request is lost to a restart when the second request fails. */
  lemma FailedScanLosesItsFinds(chain: Chain, startBlock: nat, a: Address)
    requires Borrowed(chain, startBlock, startBlock + DEFAULT_BLOCK_CHUNK, a)
    ensures var started := Bot(Some(Registry(startBlock, {})), None);
      var u := Happen(chain, startBlock, started, Poll(Some(startBlock + 6_000), Some(1), true));
      && u.memory.Some? && u.memory.value.lastScanned == startBlock + DEFAULT_BLOCK_CHUNK
      && a in u.memory.value.borrowers
      && Resumed(chain, startBlock, u) == Some(Registry(startBlock, {}))
  {
    hide Windows;
    var r := Registry(startBlock, {});
    var head := startBlock + 6_000;
    ChunkUnfolds(chain, r, head, Some(1));
    var found := BorrowersOf(GetLogs(chain, startBlock + 1, startBlock + DEFAULT_BLOCK_CHUNK));
    ChunkUnfolds(chain, Registry(startBlock + DEFAULT_BLOCK_CHUNK, {} + found), head, Some(0));
    RequestIsExact(chain, startBlock + 1, startBlock + DEFAULT_BLOCK_CHUNK);
  }
}
