/**
 The bounded priority queue: its heap of stamped entries refines one FIFO lane
 per priority, served highest first. Each method is one critical section of the
 queue's mutex, so any concurrent history is a sequence of these calls.
 */
module PriorityQueue {
  import opened Wrappers
  import opened PriorityLanes
  import opened BinaryHeap

  const U64: nat := 0x1_0000_0000_0000_0000

  // ---------- The entries in the order they will be served ----------

  ghost predicate Sorted<T>(s: seq<Entry<T>>) {
    forall i, j :: 0 <= i < j < |s| ==> Cmp(s[i], s[j]) == Greater
  }

  ghost function Insert<T>(s: seq<Entry<T>>, e: Entry<T>): seq<Entry<T>> {
    if s == [] || s[0].priority < e.priority then [e] + s else [s[0]] + Insert(s[1..], e)
  }

  ghost function Lane<T>(s: seq<Entry<T>>, p: nat): seq<T> {
    if s == [] then [] else (if s[0].priority == p then [s[0].item] else []) + Lane(s[1..], p)
  }

  ghost function LanesOf<T>(s: seq<Entry<T>>): (l: Lanes<T>)
    ensures |l| == LEVELS
  {
    seq(LEVELS, p requires 0 <= p => Lane(s, p))
  }

  lemma {:induction false} InsertSorts<T>(s: seq<Entry<T>>, e: Entry<T>)
    requires Sorted(s) && forall i :: 0 <= i < |s| ==> s[i].stamp < e.stamp
    ensures Sorted(Insert(s, e)) && multiset(Insert(s, e)) == multiset(s) + multiset{e}
  {
    if s == [] || s[0].priority < e.priority {
      var r := [e] + s;
      forall i, j | 0 <= i < j < |r| ensures Cmp(r[i], r[j]) == Greater {
        if i == 0 && j > 1 {
          assert Cmp(s[0], s[j - 1]) == Greater;
        }
      }
    } else {
      InsertSorts(s[1..], e);
      var r := Insert(s[1..], e);
      hide Insert;
      assert s == [s[0]] + s[1..];
      forall j | 0 <= j < |r| ensures Cmp(s[0], r[j]) == Greater {
        assert r[j] in multiset(r);
        assert r[j] in s[1..] || r[j] == e;
      }
      ConsSorted(s[0], r);
    }
  }

  lemma ConsSorted<T>(a: Entry<T>, s: seq<Entry<T>>)
    requires Sorted(s) && forall j :: 0 <= j < |s| ==> Cmp(a, s[j]) == Greater
    ensures Sorted([a] + s)
  {
  }

  lemma {:induction false} InsertPushes<T>(s: seq<Entry<T>>, e: Entry<T>, p: nat)
    requires Sorted(s)
    ensures Lane(Insert(s, e), p) == Lane(s, p) + if p == e.priority then [e.item] else []
  {
    if s == [] || s[0].priority < e.priority {
      LaneBelow(s, e.priority);
      assert ([e] + s)[1..] == s;
    } else {
      InsertPushes(s[1..], e, p);
      assert Insert(s, e)[1..] == Insert(s[1..], e);
    }
  }

  lemma {:induction false} LaneBelow<T>(s: seq<Entry<T>>, p: nat)
    requires Sorted(s) && (s == [] || s[0].priority < p)
    ensures forall q :: p <= q ==> Lane(s, q) == []
  {
    if s != [] {
      LaneBelow(s[1..], p);
    }
  }

  /** The first entry in order is the oldest of the highest non-empty lane. */
  lemma FirstIsHead<T>(s: seq<Entry<T>>)
    requires Sorted(s)
    ensures Head(LanesOf(s)) == if s == [] then None else Some(Job(s[0].priority, s[0].item))
    ensures PriorityLanes.Pop(LanesOf(s)) == if s == [] then LanesOf(s) else LanesOf(s[1..])
  {
    var l := LanesOf(s);
    if s != [] {
      var p: nat := s[0].priority;
      LaneBelow(s, p + 1);
      assert l[p] == [s[0].item] + Lane(s[1..], p);
      assert Highest(l, LEVELS) == Some(p);
      forall q | 0 <= q < LEVELS ensures LanesOf(s[1..])[q] == l[p := l[p][1..]][q] {
        assert q != p ==> Lane(s, q) == [] + Lane(s[1..], q);
      }
    }
  }

  lemma {:induction false} LanesHold<T>(s: seq<Entry<T>>)
    ensures Waiting(LanesOf(s), LEVELS) == |s|
  {
    if s == [] {
      WaitingNone(LanesOf(s), LEVELS);
    } else {
      LanesHold(s[1..]);
      var p := s[0].priority;
      WaitingMore(LanesOf(s[1..]), LanesOf(s), p, LEVELS);
    }
  }

  lemma {:induction false} WaitingMore<T>(l: Lanes<T>, m: Lanes<T>, p: nat, k: nat)
    requires k <= |l| == |m| && p < |l| && |m[p]| == |l[p]| + 1
    requires forall q :: 0 <= q < |l| && q != p ==> m[q] == l[q]
    ensures Waiting(m, k) == Waiting(l, k) + if p < k then 1 else 0
  {
    if k > 0 {
      WaitingMore(l, m, p, k - 1);
    }
  }

  /** The heap `s` holds the entries of `order`, which is in serving order, and all were stamped before `stamp`. */
  ghost predicate Represents<T>(s: seq<Entry<T>>, order: seq<Entry<T>>, stamp: nat) {
    && Heap(s) && |s| == |order| && multiset(s) == multiset(order)
    && Sorted(order) && forall i :: 0 <= i < |order| ==> order[i].stamp < stamp
  }

  lemma Represented<T>(s: seq<Entry<T>>, order: seq<Entry<T>>, stamp: nat)
    requires Represents(s, order, stamp)
    ensures Heap(s) && Sorted(order) && |s| == |order|
  {
  }

  /** Pushing the next stamp puts one entry in its place in the order. */
  lemma PushRepresents<T>(was: seq<Entry<T>>, order: seq<Entry<T>>, e: Entry<T>, now: seq<Entry<T>>)
    requires Represents(was, order, e.stamp)
    requires Heap(now) && multiset(now) == multiset(was) + multiset{e}
    ensures Represents(now, Insert(order, e), e.stamp + 1)
    ensures LanesOf(Insert(order, e)) == Push(LanesOf(order), e.item, e.priority)
  {
    hide Heap, Sorted, Insert, LanesOf, Push;
    InsertSorts(order, e);
    StampsBelow(order, e);
    InsertContents(order, e);
    SameSize(now, Insert(order, e));
  }

  /** Popping the root leaves the order without its first entry. */
  lemma PopRepresents<T>(was: seq<Entry<T>>, order: seq<Entry<T>>, stamp: nat, now: seq<Entry<T>>)
    requires Represents(was, order, stamp) && was != []
    requires Heap(now) && multiset(now) == multiset(was) - multiset{was[0]}
    ensures order != [] && was[0] == order[0] && Represents(now, order[1..], stamp)
  {
    hide Heap, Sorted;
    RootIsFirst(was, order);
    AfterFirst(order, stamp);
    SameSize(now, order[1..]);
  }

  // ---------- The queue ----------

  class PriorityQueue<T(0)> {
    const capacity: nat
    const heap: array<Entry<T>>
    var length: nat
    var stamp: nat                     // next sequence number
    ghost var order: seq<Entry<T>>

    constructor (capacity: nat)
      ensures this.capacity == capacity && Valid() && fresh(heap)
      ensures stamp == 0 && Contents() == PriorityLanes.Empty<T>()
    {
      this.capacity := capacity;
      heap := new Entry<T>[capacity];
      length, stamp, order := 0, 0, [];
    }

    ghost predicate Valid()
      reads this, heap
    {
      && heap.Length == capacity && length <= capacity && stamp < U64
      && Represents(heap[..length], order, stamp)
    }

    /** The lanes this queue stands for. */
    ghost function Contents(): Lanes<T>
      reads this
    {
      LanesOf(order)
    }

    method TryPush(item: T, priority: Priority) returns (ok: bool)
      requires Valid() && (length < capacity ==> stamp + 1 < U64)
      modifies this, heap
      ensures Valid() && ok == (Waiting(old(Contents()), LEVELS) < capacity)
      ensures ok ==> stamp == old(stamp) + 1 && Contents() == Push(old(Contents()), item, priority)
      ensures !ok ==> stamp == old(stamp) && Contents() == old(Contents()) && heap[..] == old(heap[..])
    {
      hide Represents, Heap, Insert, Waiting, LanesOf, Push;
      ghost var was := heap[..length];
      Represented(was, order, stamp);
      LanesHold(order);
      if length >= capacity {
        return false;
      }
      var e := Entry(priority, stamp, item);
      stamp := stamp + 1;
      HeapPush(heap, length, e);
      length := length + 1;
      PushRepresents(was, order, e, heap[..length]);
      order := Insert(order, e);
      return true;
    }

    method Pop() returns (r: Option<Job<T>>)
      requires Valid()
      modifies this, heap
      ensures Valid() && stamp == old(stamp)
      ensures r == Head(old(Contents())) && Contents() == PriorityLanes.Pop(old(Contents()))
    {
      hide Represents, Heap, Sorted, LanesOf, Head, PriorityLanes.Pop;
      ghost var was := heap[..length];
      Represented(was, order, stamp);
      FirstIsHead(order);
      if length == 0 {
        return None;
      }
      var top := HeapPop(heap, length);
      length := length - 1;
      PopRepresents(was, order, stamp, heap[..length]);
      order := order[1..];
      r := Some(Job(top.priority, top.item));
    }

    method Len() returns (n: nat)
      requires Valid()
      ensures n == Waiting(Contents(), LEVELS) <= capacity
    {
      LanesHold(order);
      n := length;
    }
  }

  /** One call on the queue, answered as the lanes answer it. */
  method Perform<T(0)>(q: PriorityQueue<T>, call: Call<T>, ghost r: Record<T>) returns (a: Answer<T>)
    requires q.Valid() && r.lanes == q.Contents()
    requires q.stamp + |Serve(r, q.capacity, call).accepted| < U64 + |r.accepted|
    modifies q, q.heap
    ensures q.Valid() && q.stamp + |r.accepted| == old(q.stamp) + |Serve(r, q.capacity, call).accepted|
    ensures a == AnswerTo(r.lanes, q.capacity, call) && q.Contents() == Serve(r, q.capacity, call).lanes
  {
    hide Waiting, Push, LanesOf;
    LanesHold(q.order);
    match call
    case TryPush(job) =>
      var ok := q.TryPush(job.item, job.priority);
      a := if ok then Accepted else Rejected;
    case TakeNext =>
      var job := q.Pop();
      a := if job.Some? then Served(job.value) else Nothing;
  }

  /**
   Any sequence of calls: every call is answered as the lanes would answer it,
   and what waited and was accepted is what was served and still waits.
   */
  method Run<T(0)>(q: PriorityQueue<T>, calls: seq<Call<T>>) returns (answers: seq<Answer<T>>, served: seq<Job<T>>)
    requires q.Valid() && q.stamp + |ServeAll(Record(q.Contents(), [], []), q.capacity, calls).accepted| < U64
    modifies q, q.heap
    ensures q.Valid()
    ensures var start := Record(old(q.Contents()), [], []);
      && answers == Answers(start, q.capacity, calls)
      && var end := ServeAll(start, q.capacity, calls);
      && end.lanes == q.Contents() && end.served == served
      && Conserved(start.lanes, end, q.capacity)
  {
    hide Serve, LanesOf, AnswerTo, Answers, ServeAll, Joined, Waiting;
    answers, served := [], [];
    ghost var r := Record(q.Contents(), [], []);
    ghost var start, whole := r, ServeAll(r, q.capacity, calls);
    LanesHold(q.order);
    NothingLostOrInvented(start.lanes, r, q.capacity, calls);
    for i := 0 to |calls|
      invariant q.Valid() && q.stamp + |whole.accepted| < U64 + |r.accepted|
      invariant q.Contents() == r.lanes && served == r.served
      invariant whole == ServeAll(r, q.capacity, calls[i..])
      invariant answers + Answers(r, q.capacity, calls[i..]) == Answers(start, q.capacity, calls)
    {
      CallUnfolds(r, q.capacity, calls[i..]);
      assert calls[i..][1..] == calls[i + 1..];
      ghost var rest := Serve(r, q.capacity, calls[i]);
      AcceptedGrows(rest, q.capacity, calls[i + 1..]);
      var a := Perform(q, calls[i], r);
      AppendAnswer(answers, a, Answers(rest, q.capacity, calls[i + 1..]));
      answers := answers + [a];
      served := if a.Served? then served + [a.job] else served;
      r := rest;
    }
    NoMoreCalls(r, q.capacity);
  }

  lemma AppendAnswer<T>(s: seq<T>, a: T, rest: seq<T>)
    ensures s + ([a] + rest) == (s + [a]) + rest
  {
  }

  /** A new queue filled with any list that fits and emptied again serves the list's stable sort. */
  method FillAndDrain<T(0)>(capacity: nat, items: seq<Job<T>>) returns (q: PriorityQueue<T>, served: seq<Job<T>>)
    requires |items| <= capacity && |items| < U64
    ensures fresh(q) && q.Valid() && q.capacity == capacity && q.Contents() == PriorityLanes.Empty<T>()
    ensures served == StableSort(items, LEVELS)
  {
    hide Serve, ServeAll, LanesOf, Conserved;
    q := new PriorityQueue<T>(capacity);
    FillThenEmpty(capacity, items);
    var _, jobs := Run(q, Pushes(items) + Takes(|items|));
    served := jobs;
  }

  lemma StampsBelow<T>(s: seq<Entry<T>>, e: Entry<T>)
    requires Sorted(s) && forall i :: 0 <= i < |s| ==> s[i].stamp < e.stamp
    ensures forall i :: 0 <= i < |Insert(s, e)| ==> Insert(s, e)[i].stamp < e.stamp + 1
  {
  }

  lemma InsertContents<T>(s: seq<Entry<T>>, e: Entry<T>)
    requires Sorted(s)
    ensures LanesOf(Insert(s, e)) == Push(LanesOf(s), e.item, e.priority)
  {
    forall p | 0 <= p < LEVELS ensures LanesOf(Insert(s, e))[p] == Push(LanesOf(s), e.item, e.priority)[p] {
      InsertPushes(s, e, p);
    }
  }

  lemma AfterFirst<T>(s: seq<Entry<T>>, stamp: nat)
    requires s != [] && Sorted(s) && forall i :: 0 <= i < |s| ==> s[i].stamp < stamp
    ensures Sorted(s[1..]) && multiset(s[1..]) == multiset(s) - multiset{s[0]}
    ensures forall i :: 0 <= i < |s[1..]| ==> s[1..][i].stamp < stamp
  {
    assert s == [s[0]] + s[1..];
  }

  lemma SameSize<T>(s: seq<T>, t: seq<T>)
    requires multiset(s) == multiset(t)
    ensures |s| == |t|
  {
    assert |multiset(s)| == |s| && |multiset(t)| == |t|;
  }

  /** Stamps being distinct, the maximum is unique: the heap's root is the first in order. */
  lemma RootIsFirst<T>(s: seq<Entry<T>>, order: seq<Entry<T>>)
    requires Heap(s) && Sorted(order) && multiset(s) == multiset(order) && s != []
    ensures order != [] && s[0] == order[0]
  {
    SameSize(s, order);
    assert order[0] in multiset(order) && s[0] in multiset(s);
    assert order[0] in s && s[0] in order;
    var i :| 0 <= i < |s| && s[i] == order[0];
    RootIsMax(s, i);
    var j :| 0 <= j < |order| && order[j] == s[0];
  }
}
