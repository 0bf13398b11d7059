/**
 The nonce allocator shared by any number of threads, one atomic step at a
 time: `next` pops the pool under the mutex and, on a miss, adds to the counter
 after the mutex is gone; `reconcile` loads and then compares-and-exchanges.
 */
module NonceProtocol {
  import opened Wrappers

  const U64: nat := 0x1_0000_0000_0000_0000

  type Thread = nat

  /** Where a thread is. `first` is the first value its reconcile loaded, `fails` its failed exchanges so far. */
  datatype Pc =
    | Idle
    | Missed                                                      // next: pool empty, fetch_add to come
    | Began(target: nat)                                          // reconcile: first load to come
    | Loaded(target: nat, first: nat, local: nat, fails: nat)     // reconcile: compare_exchange to come
    | Retrying(target: nat, first: nat, local: nat, fails: nat)   // reconcile: the exchange failed
    | Reconciled(target: nat, first: nat, fails: nat, value: nat) // reconcile returned `value`

  datatype Step =
    | Pop(t: Thread)
    | FetchAdd(t: Thread)
    | Release(t: Thread, n: nat)
    | Send(t: Thread, n: nat)
    | Begin(t: Thread, target: nat)
    | Load(t: Thread)
    | Exchange(t: Thread)

  /**
   The shared counter and pool, the threads, and who has each nonce: held by a
   client (`holder` is the one it was last handed to), sent to the chain, or
   skipped when reconcile jumped over it.
   `issued` and `returned` log every nonce handed out and every one given back,
   `visited` every value the counter has had.
   */
  datatype Sys = Sys(seed: nat, current: nat, released: set<nat>, pcs: map<Thread, Pc>,
                     held: multiset<nat>, holder: map<nat, Thread>, sent: multiset<nat>, skipped: set<nat>,
                     issued: multiset<nat>, returned: multiset<nat>, visited: set<nat>)

  function At(s: Sys, t: Thread): Pc {
    if t in s.pcs then s.pcs[t] else Idle
  }

  predicate Holds(s: Sys, t: Thread, n: nat) {
    n in s.held && n in s.holder && s.holder[n] == t
  }

  predicate Resting(pc: Pc) {
    pc.Idle? || pc.Reconciled?
  }

  /** A step some thread or client can take. A release is a plain call: nothing in the code stops a bad one. */
  predicate Enabled(s: Sys, step: Step) {
    match step
    case Pop(t) => Resting(At(s, t))
    case FetchAdd(t) => At(s, t).Missed?
    case Release(t, n) => n < U64
    case Send(t, n) => Holds(s, t, n)
    case Begin(t, target) => Resting(At(s, t)) && target < U64
    case Load(t) => At(s, t).Began? || At(s, t).Retrying?
    case Exchange(t) => At(s, t).Loaded?
  }

  ghost predicate Least(s: set<nat>, m: nat) {
    m in s && forall n :: n in s ==> m <= n
  }

  function Min(s: set<nat>): (m: nat)
    requires s != {}
    ensures Least(s, m)
  {
    MinExists(s);
    var m :| m in s && forall n :: n in s ==> m <= n;
    m
  }

  lemma {:induction false} MinExists(s: set<nat>)
    requires s != {}
    ensures exists m :: Least(s, m)
    decreases |s|
  {
    var a :| a in s;
    if !Least(s, a) {
      var b :| b in s && b < a;
      var rest := s - {a};
      assert b in rest;
      MinExists(rest);
      var m :| Least(rest, m);
      assert m <= b;
      assert Least(s, m) by {
        forall n | n in s ensures m <= n {
          assert n == a || n in rest;
        }
      }
    }
  }

  function Range(lo: nat, hi: nat): (s: set<nat>)
    ensures forall n :: n in s <==> lo <= n < hi
    decreases hi - lo
  {
    if lo >= hi then {} else {lo} + Range(lo + 1, hi)
  }

  function Issue(s: Sys, t: Thread, n: nat): Sys {
    s.(held := s.held + multiset{n}, holder := s.holder[n := t], issued := s.issued + multiset{n})
  }

  function Go(s: Sys, t: Thread, pc: Pc): Sys {
    s.(pcs := s.pcs[t := pc])
  }

  function Do(s: Sys, step: Step): Sys
    requires Enabled(s, step)
  {
    match step
    case Pop(t) =>
      if s.released == {} then Go(s, t, Missed)
      else
        var n := Min(s.released);
        Issue(Go(s.(released := s.released - {n}), t, Idle), t, n)
    case FetchAdd(t) =>
      var next := (s.current + 1) % U64;
      Issue(Go(s.(current := next, visited := s.visited + {next}), t, Idle), t, s.current)
    case Release(t, n) =>
      var pooled := s.(released := s.released + {n});
      if Holds(s, t, n) then pooled.(held := s.held - multiset{n}, returned := s.returned + multiset{n}) else pooled
    case Send(t, n) =>
      s.(held := s.held - multiset{n}, sent := s.sent + multiset{n})
    case Begin(t, target) => Go(s, t, Began(target))
    case Load(t) =>
      var pc := At(s, t);
      var first := if pc.Began? then s.current else pc.first;
      var fails := if pc.Began? then 0 else pc.fails;
      if s.current >= pc.target then Go(s, t, Reconciled(pc.target, first, fails, s.current))
      else Go(s, t, Loaded(pc.target, first, s.current, fails))
    case Exchange(t) =>
      var pc := At(s, t);
      if s.current == pc.local then
        Go(s.(current := pc.target, visited := s.visited + {pc.target},
              skipped := s.skipped + Range(s.current, pc.target)),
           t, Reconciled(pc.target, pc.first, pc.fails, pc.target))
      else Go(s, t, Retrying(pc.target, pc.first, pc.local, pc.fails + 1))
  }

  function Start(seed: nat): Sys {
    Sys(seed, seed, {}, map[], multiset{}, map[], multiset{}, {}, multiset{}, multiset{}, {seed})
  }

  // ---------- The invariant ----------

  function One(b: bool): nat {
    if b then 1 else 0
  }

  /** How many places a nonce is in. */
  function Places(s: Sys, n: nat): nat {
    s.held[n] + s.sent[n] + One(n in s.released) + One(n in s.skipped)
  }

  /** Every nonce handed out or jumped over is in exactly one place, exactly once, and no other nonce is anywhere. */
  ghost predicate Partition(s: Sys) {
    forall n: nat :: Places(s, n) == One(s.seed <= n < s.current)
  }

  predicate BalancedAt(s: Sys, n: nat) {
    s.issued[n] == s.held[n] + s.sent[n] + s.returned[n]
  }

  /** Handed out minus given back is what is held or sent. */
  ghost predicate Balanced(s: Sys) {
    forall n: nat :: BalancedAt(s, n)
  }

  /** Each failed exchange saw the counter grow past the value loaded before it. */
  ghost predicate PcOk(s: Sys, pc: Pc) {
    match pc
    case Idle => true
    case Missed => true
    case Began(target) => target < U64
    case Loaded(target, first, local, fails) =>
      first <= local <= s.current && local < target < U64 && fails <= local - first
    case Retrying(target, first, local, fails) =>
      first <= local < s.current && local < target < U64 && fails <= local - first + 1
    case Reconciled(target, first, fails, value) =>
      target <= value <= s.current && value in s.visited && first <= value
      && fails <= if first < target then target - first else 0
  }

  ghost predicate Inv(s: Sys) {
    && s.seed <= s.current < U64
    && Partition(s) && Balanced(s)
    && s.current in s.visited
    && forall t :: t in s.pcs ==> PcOk(s, s.pcs[t])
  }

  /** What the allocator needs of its clients, and of the 64-bit counter. */
  predicate Safe(s: Sys, step: Step) {
    match step
    case Release(t, n) => Holds(s, t, n) || n in s.released
    case FetchAdd(_) => s.current + 1 < U64
    case _ => true
  }

  lemma StartInv(seed: nat)
    requires seed < U64
    ensures Inv(Start(seed))
  {
  }

  /** The places of a nonce change only where the step moves it. */
  lemma StepPlaces(s: Sys, step: Step, n: nat)
    requires Enabled(s, step)
    ensures var u := Do(s, step);
      match step
      case FetchAdd(_) => Places(u, n) == Places(s, n) + One(n == s.current)
      case Release(t, m) => Places(u, n) == if n != m then Places(s, n)
                            else Places(s, n) + One(n !in s.released) - One(Holds(s, t, n))
      case Exchange(t) => Places(u, n) == Places(s, n)
                          + if s.current != At(s, t).local then 0
                            else One(n in Range(s.current, At(s, t).target) && n !in s.skipped)
      case _ => Places(u, n) == Places(s, n)
  {
    hide Min, Range;
    if step.Release? {
      ReleasePlaces(s, step, n);
    } else if step.Send? || step.Pop? {
      MovePlaces(s, step, n);
    }
  }

  lemma ReleasePlaces(s: Sys, step: Step, n: nat)
    requires Enabled(s, step) && step.Release?
    ensures Places(Do(s, step), n) == if n != step.n then Places(s, n)
                                      else Places(s, n) + One(n !in s.released) - One(Holds(s, step.t, n))
  {
    hide Min, Range;
  }

  /** Taking a nonce from the pool and sending one move it from one place to another. */
  lemma MovePlaces(s: Sys, step: Step, n: nat)
    requires Enabled(s, step) && (step.Send? || step.Pop?)
    ensures Places(Do(s, step), n) == Places(s, n)
  {
    hide Range;
  }

  /**
   One step of any thread at any moment keeps the partition exactly when it is
   safe: releasing a nonce one does not hold, unless it is in the pool already,
   or adding past the last 64-bit value, always breaks it.
   */
  lemma StepPartition(s: Sys, step: Step)
    requires Inv(s) && Enabled(s, step)
    ensures Partition(Do(s, step)) <==> Safe(s, step)
  {
    hide Places, Balanced;
    var u := Do(s, step);
    forall n: nat ensures Safe(s, step) ==> Places(u, n) == One(u.seed <= n < u.current) {
      assert Places(s, n) == One(s.seed <= n < s.current);
      StepPlaces(s, step, n);
      PlacesFacts(s, n);
      if step.Exchange? {
        assert PcOk(s, s.pcs[step.t]);
      }
    }
    if !Safe(s, step) {
      var n := if step.Release? then step.n else s.current;
      assert Places(s, n) == One(s.seed <= n < s.current);
      StepPlaces(s, step, n);
      PlacesFacts(s, n);
    }
  }

  lemma PlacesFacts(s: Sys, n: nat)
    ensures Places(s, n) >= s.held[n] + One(n in s.released) + One(n in s.skipped)
  {
  }

  /** Safe steps keep everything, and the counter never goes down. */
  lemma StepInv(s: Sys, step: Step)
    requires Inv(s) && Enabled(s, step) && Safe(s, step)
    ensures Inv(Do(s, step)) && Do(s, step).current >= s.current && Do(s, step).seed == s.seed
  {
    hide Partition, Balanced, Min, Places;
    StepPartition(s, step);
    StepBalanced(s, step);
    StepThreads(s, step);
  }

  lemma StepCounter(s: Sys, step: Step)
    requires Inv(s) && Enabled(s, step) && Safe(s, step)
    ensures var u := Do(s, step);
      && s.current <= u.current < U64 && u.seed == s.seed
      && u.current in u.visited && s.visited <= u.visited
  {
  }

  /** What a thread knows stays true while others move the counter up. */
  lemma PcStable(s: Sys, u: Sys, pc: Pc)
    requires PcOk(s, pc) && s.current <= u.current && s.visited <= u.visited
    ensures PcOk(u, pc)
  {
  }

  lemma StepThreads(s: Sys, step: Step)
    requires Inv(s) && Enabled(s, step) && Safe(s, step)
    ensures var u := Do(s, step);
      && s.seed <= s.current <= u.current < U64 && u.seed == s.seed
      && u.current in u.visited
      && forall t :: t in u.pcs ==> PcOk(u, u.pcs[t])
  {
    hide Partition, Balanced, Min;
    var u := Do(s, step);
    StepCounter(s, step);
    forall t | t in u.pcs ensures PcOk(u, u.pcs[t]) {
      if t in s.pcs {
        assert PcOk(s, s.pcs[t]);
        PcStable(s, u, s.pcs[t]);
      }
      if !step.Release? && !step.Send? && step.t == t {
        OwnStep(s, step);
      } else {
        assert t in s.pcs && u.pcs[t] == s.pcs[t];
      }
    }
  }

  lemma OwnStep(s: Sys, step: Step)
    requires Inv(s) && Enabled(s, step) && Safe(s, step) && !step.Release? && !step.Send?
    ensures step.t in Do(s, step).pcs && PcOk(Do(s, step), Do(s, step).pcs[step.t])
  {
  }

  lemma StepBalanced(s: Sys, step: Step)
    requires Balanced(s) && Enabled(s, step)
    ensures Balanced(Do(s, step))
  {
    hide Do, Enabled;
    forall n: nat ensures BalancedAt(Do(s, step), n) {
      assert BalancedAt(s, n);
      StepBalancedAt(s, step, n);
    }
  }

  lemma StepBalancedAt(s: Sys, step: Step, n: nat)
    requires BalancedAt(s, n) && Enabled(s, step)
    ensures BalancedAt(Do(s, step), n)
  {
  }

  /** The counter moves only by one addition or to a reconcile's target, and the pool only by pops and releases. */
  lemma StepMoves(s: Sys, step: Step)
    requires Inv(s) && Enabled(s, step) && Safe(s, step)
    ensures var u := Do(s, step);
      && u.current == (match step
           case FetchAdd(_) => s.current + 1
           case Exchange(t) => if s.current == At(s, t).local then At(s, t).target else s.current
           case _ => s.current)
      && u.released == (match step
           case Pop(_) => s.released - (if s.released == {} then {} else {Min(s.released)})
           case Release(_, n) => s.released + {n}
           case _ => s.released)
  {
    hide Partition, Balanced, Min, Range;
    if step.Exchange? {
      assert PcOk(s, s.pcs[step.t]);
    }
  }

  /** A nonce is skipped only by the exchange that jumps over it, and sent only by its holder. */
  lemma StepSkipsAndSends(s: Sys, step: Step)
    requires Inv(s) && Enabled(s, step) && Safe(s, step)
    ensures var u := Do(s, step);
      && (forall n :: n in u.skipped <==> n in s.skipped || (step.Exchange? && s.current <= n < u.current))
      && (forall n :: u.sent[n] == s.sent[n] + One(step.Send? && step.n == n))
  {
    hide Partition, Balanced, Min;
    if step.Exchange? {
      assert PcOk(s, s.pcs[step.t]);
    }
  }

  // ---------- Every call can be finished ----------

  /** Left alone, a `next` gives its caller the least pooled nonce, or else the counter's, and nothing else happens. */
  lemma NextAlone(s: Sys, t: Thread)
    requires Inv(s) && Resting(At(s, t)) && s.current + 1 < U64
    ensures Enabled(s, Pop(t))
    ensures var u := Do(s, Pop(t));
      if s.released != {} then
        && Resting(At(u, t)) && Holds(u, t, Min(s.released))
        && u.released == s.released - {Min(s.released)} && u.current == s.current
      else
        && Enabled(u, FetchAdd(t)) && Safe(u, FetchAdd(t))
        && var v := Do(u, FetchAdd(t));
        Resting(At(v, t)) && Holds(v, t, s.current) && v.released == {} && v.current == s.current + 1
  {
    hide Partition, Balanced, Min;
  }

  /** Left alone, a `reconcile` brings the counter to the greater of its own and the chain's, and returns that. */
  lemma ReconcileAlone(s: Sys, t: Thread, target: nat)
    requires Inv(s) && Resting(At(s, t)) && target < U64
    ensures Enabled(s, Begin(t, target))
    ensures var began := Do(s, Begin(t, target));
      && Enabled(began, Load(t))
      && var loaded := Do(began, Load(t));
      if s.current >= target then
        At(loaded, t) == Reconciled(target, s.current, 0, s.current) && loaded.current == s.current
      else
        && Enabled(loaded, Exchange(t))
        && var done := Do(loaded, Exchange(t));
        At(done, t) == Reconciled(target, s.current, 0, target) && done.current == target
  {
    hide Partition, Balanced;
  }

  /** A client can always send or give back what it holds. */
  lemma HolderIsFree(s: Sys, t: Thread, n: nat)
    requires Inv(s) && Holds(s, t, n)
    ensures Enabled(s, Send(t, n)) && Do(s, Send(t, n)).sent[n] == 1 && n !in Do(s, Send(t, n)).held
    ensures Enabled(s, Release(t, n)) && n in Do(s, Release(t, n)).released && n !in Do(s, Release(t, n)).held
  {
    assert Places(s, n) == One(s.seed <= n < s.current);
  }

  // ---------- Whole runs ----------

  predicate SafeRun(s: Sys, steps: seq<Step>)
    decreases |steps|
  {
    steps == [] || (Enabled(s, steps[0]) && Safe(s, steps[0]) && SafeRun(Do(s, steps[0]), steps[1..]))
  }

  function Exec(s: Sys, steps: seq<Step>): Sys
    requires SafeRun(s, steps)
    decreases |steps|
  {
    if steps == [] then s else Exec(Do(s, steps[0]), steps[1..])
  }

  lemma {:induction false} RunInv(s: Sys, steps: seq<Step>)
    requires Inv(s) && SafeRun(s, steps)
    ensures Inv(Exec(s, steps)) && Exec(s, steps).current >= s.current && Exec(s, steps).seed == s.seed
    decreases |steps|
  {
    hide Inv, Do, Safe, Enabled;
    if steps != [] {
      StepInv(s, steps[0]);
      RunInv(Do(s, steps[0]), steps[1..]);
    }
  }

  /**
   In every interleaving, each nonce from the seed up to the counter is in
   exactly one place once, and has been handed out at most once more than it
   was given back: no two clients ever hold the same one, and none is lost.
   */
  lemma EveryInterleaving(seed: nat, steps: seq<Step>, n: nat)
    requires seed < U64 && SafeRun(Start(seed), steps)
    ensures var s := Exec(Start(seed), steps);
      && s.held[n] + s.sent[n] + (if n in s.released then 1 else 0) + (if n in s.skipped then 1 else 0)
         == (if seed <= n < s.current then 1 else 0)
      && s.issued[n] == s.held[n] + s.sent[n] + s.returned[n] <= 1 + s.returned[n]
  {
    StartInv(seed);
    RunInv(Start(seed), steps);
    var s := Exec(Start(seed), steps);
    assert Places(s, n) == One(s.seed <= n < s.current);
    assert BalancedAt(s, n);
    PlacesFacts(s, n);
  }

  /** With nothing held and the pool drained, the chain has every nonce exactly once, but for jumps: no gap parks it. */
  lemma NoGapWhenDrained(seed: nat, steps: seq<Step>, n: nat)
    requires seed < U64 && SafeRun(Start(seed), steps)
    requires var s := Exec(Start(seed), steps); s.held == multiset{} && s.released == {}
    ensures var s := Exec(Start(seed), steps);
      s.sent[n] == if seed <= n < s.current && n !in s.skipped then 1 else 0
  {
    EveryInterleaving(seed, steps, n);
  }

  /** However the other threads interfere, a reconcile fails at most as often as it is behind, and never goes back. */
  lemma ReconcileBound(seed: nat, steps: seq<Step>, t: Thread)
    requires seed < U64 && SafeRun(Start(seed), steps)
    ensures var s := Exec(Start(seed), steps);
      match At(s, t)
      case Loaded(target, first, local, fails) => fails < target - first
      case Retrying(target, first, local, fails) => fails <= target - first
      case Reconciled(target, first, fails, value) =>
        && target <= value <= s.current && value in s.visited
        && fails <= if first < target then target - first else 0
      case _ => true
  {
    StartInv(seed);
    RunInv(Start(seed), steps);
    var s := Exec(Start(seed), steps);
    if t in s.pcs {
      assert PcOk(s, s.pcs[t]);
    }
  }

  // ---------- Failed exchanges, counted from outside ----------

  /** What an onlooker notes of a thread's latest reconcile, from the steps and the counter alone. */
  datatype Watch = Watch(target: nat, first: Option<nat>, loaded: nat, failed: nat)

  function Note(w: Watch, s: Sys, step: Step, t: Thread): Watch {
    match step
    case Begin(u, target) => if u == t then Watch(target, None, 0, 0) else w
    case Load(u) =>
      var first := if w.first.None? then Some(s.current) else w.first;
      if u == t then w.(first := first, loaded := s.current) else w
    case Exchange(u) => if u == t && s.current != w.loaded then w.(failed := w.failed + 1) else w
    case _ => w
  }

  function Notes(w: Watch, s: Sys, steps: seq<Step>, t: Thread): Watch
    requires SafeRun(s, steps)
    decreases |steps|
  {
    if steps == [] then w else Notes(Note(w, s, steps[0], t), Do(s, steps[0]), steps[1..], t)
  }

  predicate FewFailures(w: Watch) {
    w.failed <= if w.first.Some? && w.first.value < w.target then w.target - w.first.value else 0
  }

  /** The onlooker's notes agree with what the thread itself remembers. */
  predicate Agrees(w: Watch, pc: Pc) {
    match pc
    case Idle => true
    case Missed => true
    case Began(target) => w == Watch(target, None, 0, 0)
    case Loaded(target, first, local, fails) => w == Watch(target, Some(first), local, fails)
    case Retrying(target, first, local, fails) => w == Watch(target, Some(first), local, fails)
    case Reconciled(target, first, fails, _) => w.target == target && w.first == Some(first) && w.failed == fails
  }

  lemma NoteAgrees(w: Watch, s: Sys, step: Step, t: Thread)
    requires Inv(s) && Enabled(s, step) && Safe(s, step)
    requires Agrees(w, At(s, t)) && FewFailures(w)
    ensures Agrees(Note(w, s, step, t), At(Do(s, step), t)) && FewFailures(Note(w, s, step, t))
  {
    hide Partition, Balanced, Min, Inv;
    StepInv(s, step);
    var u := Do(s, step);
    assert PcOk(u, At(u, t)) by {
      PcOkAt(u, t);
    }
  }

  lemma PcOkAt(s: Sys, t: Thread)
    requires Inv(s)
    ensures PcOk(s, At(s, t))
  {
  }

  lemma {:induction false} NotesAgree(w: Watch, s: Sys, steps: seq<Step>, t: Thread)
    requires Inv(s) && SafeRun(s, steps) && Agrees(w, At(s, t)) && FewFailures(w)
    ensures FewFailures(Notes(w, s, steps, t))
    decreases |steps|
  {
    hide Inv, Do, Enabled, Safe, Note, Agrees, FewFailures;
    if steps != [] {
      StepInv(s, steps[0]);
      NoteAgrees(w, s, steps[0], t);
      NotesAgree(Note(w, s, steps[0], t), Do(s, steps[0]), steps[1..], t);
    }
  }

  /**
   In every run, the exchanges of a thread that found the counter changed since
   its last load, counted since it last began a reconcile, are at most as many
   as that reconcile's first load was behind its target.
   */
  lemma FailedExchanges(seed: nat, steps: seq<Step>, t: Thread)
    requires seed < U64 && SafeRun(Start(seed), steps)
    ensures var w := Notes(Watch(0, None, 0, 0), Start(seed), steps, t);
      && (w.failed > 0 ==> w.first.Some? && w.first.value < w.target)
      && (w.first.Some? ==> w.failed <= if w.first.value < w.target then w.target - w.first.value else 0)
  {
    StartInv(seed);
    NotesAgree(Watch(0, None, 0, 0), Start(seed), steps, t);
  }
}
