/**
 What the bounded priority queue is for, without its heap: one first-in
 first-out lane per priority, served from the highest non-empty lane.
 */
module PriorityLanes {
  import opened Wrappers

  const LEVELS: nat := 256

  type Priority = p: nat | p < LEVELS witness 0

  datatype Job<T> = Job(priority: Priority, item: T)

  /** One lane per priority, lowest first. */
  type Lanes<T> = seq<seq<T>>

  function Empty<T>(): Lanes<T> {
    seq(LEVELS, _ => [])
  }

  /** How many items wait in the lanes below `k`. */
  function Waiting<T>(l: Lanes<T>, k: nat): nat
    requires k <= |l|
  {
    if k == 0 then 0 else Waiting(l, k - 1) + |l[k - 1]|
  }

  function Push<T>(l: Lanes<T>, item: T, p: Priority): (m: Lanes<T>)
    requires |l| == LEVELS
    ensures |m| == LEVELS
  {
    l[p := l[p] + [item]]
  }

  /** The highest non-empty lane below `k`. */
  function Highest<T>(l: Lanes<T>, k: nat): (r: Option<nat>)
    requires k <= |l|
    ensures r.Some? ==> r.value < k && l[r.value] != [] && forall q :: r.value < q < k ==> l[q] == []
    ensures r.None? ==> forall q :: 0 <= q < k ==> l[q] == []
  {
    if k == 0 then None else if l[k - 1] != [] then Some(k - 1) else Highest(l, k - 1)
  }

  /** The next item served, with its priority. */
  function Head<T>(l: Lanes<T>): Option<Job<T>>
    requires |l| == LEVELS
  {
    match Highest(l, |l|)
    case None => None
    case Some(p) => Some(Job(p, l[p][0]))
  }

  function Pop<T>(l: Lanes<T>): Lanes<T> {
    match Highest(l, |l|)
    case None => l
    case Some(p) => l[p := l[p][1..]]
  }

  // ---------- Filling and draining is a stable sort ----------

  function Only<T>(items: seq<Job<T>>, p: nat): seq<Job<T>> {
    if items == [] then [] else
    (if items[0].priority == p then [items[0]] else []) + Only(items[1..], p)
  }

  /** The items of priority below `k`, highest first and otherwise in their given order. */
  function StableSort<T>(items: seq<Job<T>>, k: nat): seq<Job<T>> {
    if k == 0 then [] else Only(items, k - 1) + StableSort(items, k - 1)
  }

  function PushAll<T>(l: Lanes<T>, items: seq<Job<T>>): (m: Lanes<T>)
    requires |l| == LEVELS
    ensures |m| == LEVELS
    decreases |items|
  {
    if items == [] then l else PushAll(Push(l, items[0].item, items[0].priority), items[1..])
  }

  /** Everything served, in order, by popping until nothing is left. */
  function Drain<T>(l: Lanes<T>): seq<Job<T>>
    requires |l| == LEVELS
    decreases Waiting(l, |l|)
  {
    match Head(l)
    case None => []
    case Some(h) =>
      PopServesOne(l, |l|);
      [h] + Drain(Pop(l))
  }

  lemma {:induction false} PopServesOne<T>(l: Lanes<T>, k: nat)
    requires k <= |l| && Highest(l, |l|).Some?
    ensures Waiting(Pop(l), k) == Waiting(l, k) - if Highest(l, |l|).value < k then 1 else 0
  {
    if k > 0 {
      PopServesOne(l, k - 1);
    }
  }

  function Tagged<T>(lane: seq<T>, p: Priority): seq<Job<T>> {
    if lane == [] then [] else [Job(p, lane[0])] + Tagged(lane[1..], p)
  }

  /** The lanes below `k`, one after another from the highest. */
  function Joined<T>(l: Lanes<T>, k: nat): seq<Job<T>>
    requires k <= |l| == LEVELS
  {
    if k == 0 then [] else Tagged(l[k - 1], k - 1) + Joined(l, k - 1)
  }

  lemma {:induction false} JoinedStartsAtHighest<T>(l: Lanes<T>, k: nat)
    requires k <= |l| == LEVELS && Highest(l, k).Some?
    ensures var p := Highest(l, k).value;
      Joined(l, k) == [Job(p, l[p][0])] + Joined(l[p := l[p][1..]], k)
  {
    hide Joined;
    var p := Highest(l, k).value;
    var m := l[p := l[p][1..]];
    JoinedStep(l, k);
    JoinedStep(m, k);
    if p == k - 1 {
      JoinedBelow(l, m, k - 1);
      assert Joined(l, k) == ([Job(p, l[p][0])] + Tagged(l[p][1..], p)) + Joined(m, k - 1);
    } else {
      JoinedStartsAtHighest(l, k - 1);
      assert Tagged(l[k - 1], k - 1) == [];
    }
  }

  lemma JoinedStep<T>(l: Lanes<T>, k: nat)
    requires 0 < k <= |l| == LEVELS
    ensures Joined(l, k) == Tagged(l[k - 1], k - 1) + Joined(l, k - 1)
  {
  }

  lemma {:induction false} JoinedBelow<T>(l: Lanes<T>, m: Lanes<T>, k: nat)
    requires k <= |l| == |m| == LEVELS && forall q :: 0 <= q < k ==> l[q] == m[q]
    ensures Joined(l, k) == Joined(m, k)
  {
    if k > 0 {
      JoinedBelow(l, m, k - 1);
    }
  }

  lemma {:induction false} DrainJoins<T>(l: Lanes<T>)
    requires |l| == LEVELS
    ensures Drain(l) == Joined(l, LEVELS)
    decreases Waiting(l, |l|)
  {
    if Highest(l, LEVELS).Some? {
      PopServesOne(l, |l|);
      JoinedStartsAtHighest(l, LEVELS);
      DrainJoins(Pop(l));
    } else {
      JoinedOfEmpty(l, LEVELS);
    }
  }

  lemma {:induction false} JoinedOfEmpty<T>(l: Lanes<T>, k: nat)
    requires k <= |l| == LEVELS && forall q :: 0 <= q < k ==> l[q] == []
    ensures Joined(l, k) == []
  {
    if k > 0 {
      JoinedOfEmpty(l, k - 1);
    }
  }

  lemma {:induction false} PushAllLanes<T>(l: Lanes<T>, items: seq<Job<T>>, p: Priority)
    requires |l| == LEVELS
    ensures Tagged(PushAll(l, items)[p], p) == Tagged(l[p], p) + Only(items, p)
    decreases |items|
  {
    if items != [] {
      var m := Push(l, items[0].item, items[0].priority);
      PushAllLanes(m, items[1..], p);
      if items[0].priority == p {
        TaggedAppend(l[p], p, items[0].item);
      }
    }
  }

  lemma {:induction false} TaggedAppend<T>(lane: seq<T>, p: Priority, x: T)
    ensures Tagged(lane + [x], p) == Tagged(lane, p) + [Job(p, x)]
  {
    if lane != [] {
      TaggedAppend(lane[1..], p, x);
      assert (lane + [x])[1..] == lane[1..] + [x];
    }
  }

  lemma {:induction false} JoinedIsSorted<T>(items: seq<Job<T>>, k: nat)
    requires k <= LEVELS
    ensures Joined(PushAll(Empty(), items), k) == StableSort(items, k)
  {
    if k > 0 {
      JoinedIsSorted(items, k - 1);
      PushAllLanes(Empty(), items, k - 1);
    }
  }

  /** Pushing any items into empty lanes and popping until empty is the stable sort by descending priority. */
  lemma FillThenDrain<T>(items: seq<Job<T>>)
    ensures Drain(PushAll(Empty(), items)) == StableSort(items, LEVELS)
  {
    JoinedIsSorted(items, LEVELS);
    DrainJoins(PushAll(Empty(), items));
  }

  /** A stable sort descends in priority. */
  lemma {:induction false} StableSortDescends<T>(items: seq<Job<T>>, k: nat)
    requires k <= LEVELS
    ensures forall i :: 0 <= i < |StableSort(items, k)| ==> StableSort(items, k)[i].priority < k
    ensures forall i, j :: 0 <= i < j < |StableSort(items, k)|
              ==> StableSort(items, k)[i].priority >= StableSort(items, k)[j].priority
  {
    if k > 0 {
      StableSortDescends(items, k - 1);
      OnlyHas(items, k - 1);
    }
  }

  /** A stable sort keeps the items of each priority, in their order. */
  lemma {:induction false} StableSortKeeps<T>(items: seq<Job<T>>, k: nat, p: nat)
    requires k <= LEVELS
    ensures Only(StableSort(items, k), p) == if p < k then Only(items, p) else []
  {
    hide Only;
    if k == 0 {
      OnlyNone<T>(p);
    } else {
      StableSortKeeps(items, k - 1, p);
      OnlyConcat(Only(items, k - 1), StableSort(items, k - 1), p);
      OnlyOnly(items, k - 1, p);
    }
  }

  lemma OnlyNone<T>(p: nat)
    ensures Only<T>([], p) == []
  {
  }

  lemma {:induction false} OnlyHas<T>(items: seq<Job<T>>, p: nat)
    ensures forall i :: 0 <= i < |Only(items, p)| ==> Only(items, p)[i].priority == p
  {
    if items != [] {
      OnlyHas(items[1..], p);
    }
  }

  lemma {:induction false} OnlyConcat<T>(a: seq<Job<T>>, b: seq<Job<T>>, p: nat)
    ensures Only(a + b, p) == Only(a, p) + Only(b, p)
  {
    if a == [] {
      assert a + b == b;
    } else {
      assert (a + b)[1..] == a[1..] + b && (a + b)[0] == a[0];
      OnlyConcat(a[1..], b, p);
      var head := if a[0].priority == p then [a[0]] else [];
      assert head + (Only(a[1..], p) + Only(b, p)) == (head + Only(a[1..], p)) + Only(b, p);
    }
  }

  lemma {:induction false} OnlyOnly<T>(items: seq<Job<T>>, q: nat, p: nat)
    ensures Only(Only(items, q), p) == if p == q then Only(items, q) else []
  {
    if items != [] {
      OnlyOnly(items[1..], q, p);
      if items[0].priority == q {
        OnlyConcat([items[0]], Only(items[1..], q), p);
        assert [items[0]][1..] == [];
        assert Only([items[0]], p) == if p == q then [items[0]] else [];
      } else {
        assert Only(items, q) == Only(items[1..], q);
      }
    }
  }

  // ---------- Any sequence of calls ----------

  datatype Call<T> = TryPush(job: Job<T>) | TakeNext

  /** The lanes, every job accepted so far and every job served so far. */
  datatype Record<T> = Record(lanes: Lanes<T>, accepted: seq<Job<T>>, served: seq<Job<T>>)

  /** One call on a queue of the given capacity. */
  function Serve<T>(r: Record<T>, capacity: nat, call: Call<T>): (u: Record<T>)
    requires |r.lanes| == LEVELS
    ensures |u.lanes| == LEVELS
  {
    match call
    case TryPush(job) =>
      if Waiting(r.lanes, LEVELS) >= capacity then r
      else Record(Push(r.lanes, job.item, job.priority), r.accepted + [job], r.served)
    case TakeNext =>
      match Head(r.lanes)
      case None => r
      case Some(job) => Record(Pop(r.lanes), r.accepted, r.served + [job])
  }

  function ServeAll<T>(r: Record<T>, capacity: nat, calls: seq<Call<T>>): (u: Record<T>)
    requires |r.lanes| == LEVELS
    ensures |u.lanes| == LEVELS
    decreases |calls|
  {
    if calls == [] then r else
    ServeAll(Serve(r, capacity, calls[0]), capacity, calls[1..])
  }

  datatype Answer<T> = Accepted | Rejected | Served(job: Job<T>) | Nothing

  /** What the caller is told. */
  function AnswerTo<T>(l: Lanes<T>, capacity: nat, call: Call<T>): Answer<T>
    requires |l| == LEVELS
  {
    match call
    case TryPush(_) => if Waiting(l, LEVELS) >= capacity then Rejected else Accepted
    case TakeNext =>
      match Head(l)
      case None => Nothing
      case Some(job) => Served(job)
  }

  /** One answer for each call. */
  function Answers<T>(r: Record<T>, capacity: nat, calls: seq<Call<T>>): seq<Answer<T>>
    requires |r.lanes| == LEVELS
    decreases |calls|
  {
    if calls == [] then [] else
    [AnswerTo(r.lanes, capacity, calls[0])] + Answers(Serve(r, capacity, calls[0]), capacity, calls[1..])
  }

  /**
   A push is accepted exactly below capacity and then joins the end of its lane;
   a take is answered exactly when something waits, with the first item of the
   highest lane that has one. The record and the lanes change by that alone.
   */
  lemma AnswerIs<T>(r: Record<T>, capacity: nat, call: Call<T>)
    requires |r.lanes| == LEVELS
    ensures var u, a := Serve(r, capacity, call), AnswerTo(r.lanes, capacity, call);
      match call
      case TryPush(job) =>
        && a == (if Waiting(r.lanes, LEVELS) < capacity then Accepted else Rejected)
        && u.served == r.served && u.accepted == r.accepted + (if a == Accepted then [job] else [])
        && forall p :: 0 <= p < LEVELS ==>
             u.lanes[p] == r.lanes[p] + if a == Accepted && p == job.priority then [job.item] else []
      case TakeNext =>
        && (a == Nothing || a.Served?) && (a.Served? <==> Waiting(r.lanes, LEVELS) > 0)
        && u.accepted == r.accepted && u.served == r.served + (if a.Served? then [a.job] else [])
        && forall p :: 0 <= p < LEVELS ==>
             && r.lanes[p] == (if a.Served? && p == a.job.priority then [a.job.item] else []) + u.lanes[p]
             && (a.Served? && p > a.job.priority ==> r.lanes[p] == [])
  {
    hide Waiting;
    if call.TakeNext? {
      if Highest(r.lanes, LEVELS).Some? {
        PopServesOne(r.lanes, LEVELS);
      } else {
        WaitingNone(r.lanes, LEVELS);
      }
    }
  }

  /** The jobs whose push was answered with acceptance. */
  function AcceptedOf<T>(calls: seq<Call<T>>, answers: seq<Answer<T>>): seq<Job<T>>
    requires |calls| == |answers|
  {
    if calls == [] then [] else
    (if calls[0].TryPush? && answers[0] == Accepted then [calls[0].job] else [])
    + AcceptedOf(calls[1..], answers[1..])
  }

  /** The jobs handed out. */
  function ServedOf<T>(answers: seq<Answer<T>>): seq<Job<T>> {
    if answers == [] then [] else (if answers[0].Served? then [answers[0].job] else []) + ServedOf(answers[1..])
  }

  /** Over any calls, the answers tell exactly what was accepted and what was served, in order. */
  lemma {:induction false} AnswersTell<T>(r: Record<T>, capacity: nat, calls: seq<Call<T>>)
    requires |r.lanes| == LEVELS
    ensures var u, answers := ServeAll(r, capacity, calls), Answers(r, capacity, calls);
      && |answers| == |calls|
      && u.accepted == r.accepted + AcceptedOf(calls, answers)
      && u.served == r.served + ServedOf(answers)
    decreases |calls|
  {
    hide Serve, AnswerTo, ServeAll, Answers, AcceptedOf, ServedOf;
    if calls == [] {
      NoMoreCalls(r, capacity);
    } else {
      var next, a := Serve(r, capacity, calls[0]), AnswerTo(r.lanes, capacity, calls[0]);
      var rest := Answers(next, capacity, calls[1..]);
      CallUnfolds(r, capacity, calls);
      AnswersTell(next, capacity, calls[1..]);
      OneTold(calls, a, rest);
      CallTold(r, capacity, calls[0], AcceptedOf(calls[1..], rest), ServedOf(rest));
    }
  }

  lemma CallTold<T>(r: Record<T>, capacity: nat, call: Call<T>, accepted: seq<Job<T>>, served: seq<Job<T>>)
    requires |r.lanes| == LEVELS
    ensures var next, a := Serve(r, capacity, call), AnswerTo(r.lanes, capacity, call);
      && next.accepted + accepted
         == r.accepted + ((if call.TryPush? && a == Accepted then [call.job] else []) + accepted)
      && next.served + served == r.served + ((if a.Served? then [a.job] else []) + served)
  {
    hide Serve, AnswerTo;
    AnswerIs(r, capacity, call);
  }

  lemma CallUnfolds<T>(r: Record<T>, capacity: nat, calls: seq<Call<T>>)
    requires |r.lanes| == LEVELS && calls != []
    ensures var next, a := Serve(r, capacity, calls[0]), AnswerTo(r.lanes, capacity, calls[0]);
      && ServeAll(r, capacity, calls) == ServeAll(next, capacity, calls[1..])
      && Answers(r, capacity, calls) == [a] + Answers(next, capacity, calls[1..])
      && next.served == if a.Served? then r.served + [a.job] else r.served
  {
  }

  lemma NoMoreCalls<T>(r: Record<T>, capacity: nat)
    requires |r.lanes| == LEVELS
    ensures ServeAll(r, capacity, []) == r && Answers(r, capacity, []) == []
    ensures AcceptedOf<T>([], []) == [] && ServedOf<T>([]) == []
  {
  }

  lemma OneTold<T>(calls: seq<Call<T>>, a: Answer<T>, rest: seq<Answer<T>>)
    requires |calls| == |rest| + 1
    ensures AcceptedOf(calls, [a] + rest)
         == (if calls[0].TryPush? && a == Accepted then [calls[0].job] else []) + AcceptedOf(calls[1..], rest)
    ensures ServedOf([a] + rest) == (if a.Served? then [a.job] else []) + ServedOf(rest)
  {
  }

  lemma {:induction false} AcceptedGrows<T>(r: Record<T>, capacity: nat, calls: seq<Call<T>>)
    requires |r.lanes| == LEVELS
    ensures |ServeAll(r, capacity, calls).accepted| >= |r.accepted|
    decreases |calls|
  {
    if calls != [] {
      AcceptedGrows(Serve(r, capacity, calls[0]), capacity, calls[1..]);
    }
  }

  /** From the lanes at the start: nothing lost, nothing invented, and no more waiting than fit. */
  ghost predicate Conserved<T>(start: Lanes<T>, r: Record<T>, capacity: nat) {
    && |start| == |r.lanes| == LEVELS
    && multiset(Joined(start, LEVELS)) + multiset(r.accepted) == multiset(r.served) + multiset(Joined(r.lanes, LEVELS))
    && Waiting(r.lanes, LEVELS) <= capacity
  }

  /** Over any calls, what waited before and what was accepted is what was served and what still waits. */
  lemma {:induction false} NothingLostOrInvented<T>(start: Lanes<T>, r: Record<T>, capacity: nat, calls: seq<Call<T>>)
    requires Conserved(start, r, capacity)
    ensures Conserved(start, ServeAll(r, capacity, calls), capacity)
    decreases |calls|
  {
    hide Conserved;
    if calls != [] {
      assert |r.lanes| == LEVELS by { ConservedLevels(start, r, capacity); }
      ServeConserves(start, r, capacity, calls[0]);
      NothingLostOrInvented(start, Serve(r, capacity, calls[0]), capacity, calls[1..]);
    }
  }

  lemma ConservedLevels<T>(start: Lanes<T>, r: Record<T>, capacity: nat)
    requires Conserved(start, r, capacity)
    ensures |r.lanes| == LEVELS
  {
  }

  lemma ServeConserves<T>(start: Lanes<T>, r: Record<T>, capacity: nat, call: Call<T>)
    requires Conserved(start, r, capacity)
    ensures Conserved(start, Serve(r, capacity, call), capacity)
  {
    hide Joined, Waiting;
    if call.TryPush? {
      PushJoins(r.lanes, call.job.item, call.job.priority, LEVELS);
      PushWaits(r.lanes, call.job.item, call.job.priority, LEVELS);
      assert call.job == Job(call.job.priority, call.job.item);
      AddBothSides(multiset(Joined(start, LEVELS)), multiset(r.accepted),
                   multiset(r.served), multiset(Joined(r.lanes, LEVELS)), multiset{call.job});
    } else if Highest(r.lanes, LEVELS).Some? {
      JoinedStartsAtHighest(r.lanes, LEVELS);
      PopServesOne(r.lanes, LEVELS);
    }
  }

  lemma AddBothSides<T>(a: multiset<T>, b: multiset<T>, c: multiset<T>, d: multiset<T>, x: multiset<T>)
    requires a + b == c + d
    ensures a + (b + x) == c + (d + x)
  {
    assert a + (b + x) == (a + b) + x && c + (d + x) == (c + d) + x;
  }

  lemma {:induction false} PushJoins<T>(l: Lanes<T>, item: T, p: Priority, k: nat)
    requires p < k <= |l| == LEVELS
    ensures multiset(Joined(Push(l, item, p), k)) == multiset(Joined(l, k)) + multiset{Job(p, item)}
  {
    var m := Push(l, item, p);
    JoinedStep(m, k);
    JoinedStep(l, k);
    var below := Joined(m, k - 1);
    if p == k - 1 {
      JoinedBelow(l, m, k - 1);
      TaggedAppend(l[p], p, item);
      AddInside(Tagged(l[p], p), Job(p, item), below);
    } else {
      PushJoins(l, item, p, k - 1);
      AddBehind(Tagged(l[k - 1], k - 1), Job(p, item), below, Joined(l, k - 1));
    }
  }

  lemma AddInside<T>(a: seq<T>, x: T, b: seq<T>)
    ensures multiset((a + [x]) + b) == multiset(a + b) + multiset{x}
  {
  }

  lemma AddBehind<T>(a: seq<T>, x: T, b: seq<T>, c: seq<T>)
    requires multiset(b) == multiset(c) + multiset{x}
    ensures multiset(a + b) == multiset(a + c) + multiset{x}
  {
  }

  lemma {:induction false} PushWaits<T>(l: Lanes<T>, item: T, p: Priority, k: nat)
    requires k <= |l| == LEVELS
    ensures Waiting(Push(l, item, p), k) == Waiting(l, k) + if p < k then 1 else 0
  {
    if k > 0 {
      PushWaits(l, item, p, k - 1);
    }
  }

  // ---------- Filling a queue and emptying it ----------

  function Pushes<T>(items: seq<Job<T>>): seq<Call<T>> {
    if items == [] then [] else [TryPush(items[0])] + Pushes(items[1..])
  }

  function Takes<T>(n: nat): seq<Call<T>> {
    if n == 0 then [] else [TakeNext] + Takes(n - 1)
  }

  lemma {:induction false} ServeConcat<T>(r: Record<T>, capacity: nat, a: seq<Call<T>>, b: seq<Call<T>>)
    requires |r.lanes| == LEVELS
    ensures ServeAll(r, capacity, a + b) == ServeAll(ServeAll(r, capacity, a), capacity, b)
    decreases |a|
  {
    if a == [] {
      assert a + b == b;
    } else {
      ServeConcat(Serve(r, capacity, a[0]), capacity, a[1..], b);
      assert (a + b)[1..] == a[1..] + b;
    }
  }

  lemma PushAllStep<T>(l: Lanes<T>, items: seq<Job<T>>)
    requires |l| == LEVELS && items != []
    ensures PushAll(l, items) == PushAll(Push(l, items[0].item, items[0].priority), items[1..])
  {
  }

  lemma {:induction false} PushPhase<T>(r: Record<T>, capacity: nat, items: seq<Job<T>>)
    requires |r.lanes| == LEVELS && Waiting(r.lanes, LEVELS) + |items| <= capacity
    ensures ServeAll(r, capacity, Pushes(items)) == Record(PushAll(r.lanes, items), r.accepted + items, r.served)
    ensures Waiting(PushAll(r.lanes, items), LEVELS) == Waiting(r.lanes, LEVELS) + |items|
    decreases |items|
  {
    hide Waiting, Push, PushAll, Pushes, Serve, ServeAll;
    if items == [] {
      PushAllNone(r.lanes);
      assert Pushes<T>([]) == [] by { NoPushes<T>(); }
      assert r.accepted + items == r.accepted;
      ServeNothing(r, capacity);
    } else {
      var job := items[0];
      PushesStep(items);
      PushAllStep(r.lanes, items);
      ServeStep(r, capacity, Pushes(items));
      AcceptStep(r, capacity, job);
      PushWaits(r.lanes, job.item, job.priority, LEVELS);
      PushPhase(Serve(r, capacity, TryPush(job)), capacity, items[1..]);
      AppendFirst(r.accepted, items);
    }
  }

  lemma PushesStep<T>(items: seq<Job<T>>)
    requires items != []
    ensures Pushes(items) != [] && Pushes(items)[0] == TryPush(items[0]) && Pushes(items)[1..] == Pushes(items[1..])
  {
  }

  lemma AppendFirst<T>(a: seq<T>, b: seq<T>)
    requires b != []
    ensures a + b == a + [b[0]] + b[1..]
  {
  }

  lemma NoPushes<T>()
    ensures Pushes<T>([]) == []
  {
  }

  lemma PushAllNone<T>(l: Lanes<T>)
    requires |l| == LEVELS
    ensures PushAll(l, []) == l
  {
  }

  lemma ServeNothing<T>(r: Record<T>, capacity: nat)
    requires |r.lanes| == LEVELS
    ensures ServeAll(r, capacity, []) == r
  {
  }

  lemma ServeStep<T>(r: Record<T>, capacity: nat, calls: seq<Call<T>>)
    requires |r.lanes| == LEVELS && calls != []
    ensures ServeAll(r, capacity, calls) == ServeAll(Serve(r, capacity, calls[0]), capacity, calls[1..])
  {
  }

  lemma AcceptStep<T>(r: Record<T>, capacity: nat, job: Job<T>)
    requires |r.lanes| == LEVELS && Waiting(r.lanes, LEVELS) < capacity
    ensures Serve(r, capacity, TryPush(job))
         == Record(Push(r.lanes, job.item, job.priority), r.accepted + [job], r.served)
  {
  }

  /** Taking one item serves the first of what is left to drain. */
  lemma TakeStep<T>(r: Record<T>, capacity: nat)
    requires |r.lanes| == LEVELS
    ensures var u := Serve(r, capacity, TakeNext);
      && u.accepted == r.accepted
      && r.served + Drain(r.lanes) == u.served + Drain(u.lanes)
      && (Head(r.lanes).Some? ==> Waiting(u.lanes, LEVELS) == Waiting(r.lanes, LEVELS) - 1)
      && (Head(r.lanes).None? ==> Drain(r.lanes) == [] && Waiting(r.lanes, LEVELS) == 0)
  {
    hide Waiting;
    if Highest(r.lanes, LEVELS).Some? {
      PopServesOne(r.lanes, LEVELS);
    } else {
      WaitingNone(r.lanes, LEVELS);
    }
  }

  lemma {:induction false} TakePhase<T>(r: Record<T>, capacity: nat)
    requires |r.lanes| == LEVELS
    ensures var u := ServeAll(r, capacity, Takes(Waiting(r.lanes, LEVELS)));
      u.served == r.served + Drain(r.lanes) && Waiting(u.lanes, LEVELS) == 0
    decreases Waiting(r.lanes, LEVELS)
  {
    hide Waiting, Serve, ServeAll, Drain;
    TakeStep(r, capacity);
    var n := Waiting(r.lanes, LEVELS);
    if Head(r.lanes).Some? {
      assert Takes<T>(n)[0] == TakeNext && Takes<T>(n)[1..] == Takes<T>(n - 1);
      ServeStep(r, capacity, Takes(n));
      TakePhase(Serve(r, capacity, TakeNext), capacity);
    } else {
      ServeNothing(r, capacity);
      assert r.served + [] == r.served;
    }
  }

  lemma {:induction false} WaitingNone<T>(l: Lanes<T>, k: nat)
    requires k <= |l| && forall q :: 0 <= q < |l| ==> l[q] == []
    ensures Waiting(l, k) == 0
  {
    if k > 0 {
      WaitingNone(l, k - 1);
    }
  }

  /**
   Pushing a list that fits into an empty queue accepts all of it, and taking
   as many items out serves exactly its stable sort by descending priority and
   leaves the queue empty.
   */
  lemma FillThenEmpty<T>(capacity: nat, items: seq<Job<T>>)
    requires |items| <= capacity
    ensures var r := ServeAll(Record(Empty(), [], []), capacity, Pushes(items) + Takes(|items|));
      r.accepted == items && r.served == StableSort(items, LEVELS) && r.lanes == Empty()
  {
    hide Waiting;
    var r: Record<T> := Record(Empty(), [], []);
    WaitingNone(r.lanes, LEVELS);
    PushPhase(r, capacity, items);
    ServeConcat(r, capacity, Pushes(items), Takes(|items|));
    var full := ServeAll(r, capacity, Pushes(items));
    TakePhase(full, capacity);
    TakesAcceptNothing(full, capacity, |items|);
    FillThenDrain(items);
    NoneWaiting(ServeAll(full, capacity, Takes(|items|)).lanes, LEVELS);
  }

  lemma {:induction false} NoneWaiting<T>(l: Lanes<T>, k: nat)
    requires k <= |l| == LEVELS && Waiting(l, k) == 0
    ensures forall q :: 0 <= q < k ==> l[q] == []
    ensures k == LEVELS ==> l == Empty()
  {
    if k > 0 {
      NoneWaiting(l, k - 1);
    }
  }

  lemma {:induction false} TakesAcceptNothing<T>(r: Record<T>, capacity: nat, n: nat)
    requires |r.lanes| == LEVELS
    ensures ServeAll(r, capacity, Takes(n)).accepted == r.accepted
    decreases n
  {
    if n > 0 {
      TakesAcceptNothing(Serve(r, capacity, TakeNext), capacity, n - 1);
      assert Takes<T>(n)[1..] == Takes<T>(n - 1);
    }
  }
}
