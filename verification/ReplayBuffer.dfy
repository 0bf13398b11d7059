/**
 The capacity-bounded replay ring of execution events: it is always the end of
 the full history, its queries are ends of the same queries on that history,
 and its one-pass summary agrees with them. Profits and the mean latency are
 real numbers here.
 */
module ReplayBuffer {
  import opened Wrappers

  datatype Outcome = Pending | SimPassed | SimFailed | GateRejected | Broadcast | Success | Reverted | Error

  /** The fields the buffer looks at; the rest of the event is `payload`. */
  datatype Event = Event(outcome: Outcome, borrower: Option<string>, latencyMs: nat, actualProfit: Option<real>,
                         payload: nat)

  // ---------- Ends of sequences ----------

  function Last<T>(s: seq<T>, n: nat): seq<T> {
    if |s| <= n then s else s[|s| - n..]
  }

  function Take<T>(s: seq<T>, n: nat): seq<T> {
    if |s| <= n then s else s[..n]
  }

  function Reverse<T>(s: seq<T>): (r: seq<T>)
    ensures |r| == |s|
  {
    if s == [] then [] else Reverse(s[1..]) + [s[0]]
  }

  ghost predicate Suffix<T>(s: seq<T>, t: seq<T>) {
    |s| <= |t| && s == t[|t| - |s|..]
  }

  lemma {:induction false} ReverseAt<T>(s: seq<T>, i: nat)
    requires i < |s|
    ensures Reverse(s)[i] == s[|s| - 1 - i]
  {
    if i < |s| - 1 {
      ReverseAt(s[1..], i);
    }
  }

  lemma ReverseTakeReverse<T>(s: seq<T>, n: nat)
    ensures Reverse(Take(Reverse(s), n)) == Last(s, n)
  {
    var t := Take(Reverse(s), n);
    forall i | 0 <= i < |t| ensures Reverse(t)[i] == Last(s, n)[i] {
      ReverseAt(t, i);
      ReverseAt(s, |t| - 1 - i);
    }
  }

  // ---------- Queries ----------

  /** What a query asks for. */
  datatype Query = ByOutcome(outcome: Outcome) | ByBorrower(borrower: string)

  function LowerChar(c: char): char {
    if 'A' <= c <= 'Z' then (c as int + 32) as char else c
  }

  function Lower(s: string): string {
    if s == [] then [] else [LowerChar(s[0])] + Lower(s[1..])
  }

  predicate Hit(q: Query, e: Event) {
    match q
    case ByOutcome(o) => e.outcome == o
    case ByBorrower(b) => e.borrower.Some? && Lower(e.borrower.value) == Lower(b)
  }

  /** The same character but for the case of an ASCII letter. */
  predicate SameLetter(x: char, y: char) {
    || x == y
    || ('A' <= x <= 'Z' && y as int == x as int + 32)
    || ('A' <= y <= 'Z' && x as int == y as int + 32)
  }

  lemma {:induction false} LowerAgrees(x: string, y: string)
    ensures Lower(x) == Lower(y) <==> |x| == |y| && forall i :: 0 <= i < |x| ==> SameLetter(x[i], y[i])
  {
    if x != [] && y != [] {
      LowerAgrees(x[1..], y[1..]);
      assert Lower(x)[1..] == Lower(x[1..]) && Lower(y)[1..] == Lower(y[1..]);
      assert Lower(x)[0] == Lower(y)[0] <==> SameLetter(x[0], y[0]);
      assert forall i :: 0 < i < |x| ==> x[i] == x[1..][i - 1];
      assert forall i :: 0 < i < |y| ==> y[i] == y[1..][i - 1];
    }
  }

  /** An event is a hit for its own outcome, or for its borrower whatever the case of the letters. */
  lemma HitIs(q: Query, e: Event)
    ensures Hit(q, e) <==> match q
      case ByOutcome(o) => e.outcome == o
      case ByBorrower(b) =>
        && e.borrower.Some? && |e.borrower.value| == |b|
        && forall i :: 0 <= i < |b| ==> SameLetter(e.borrower.value[i], b[i])
  {
    if q.ByBorrower? && e.borrower.Some? {
      LowerAgrees(e.borrower.value, q.borrower);
    }
  }

  function Filter(s: seq<Event>, q: Query): seq<Event> {
    if s == [] then [] else (if Hit(q, s[0]) then [s[0]] else []) + Filter(s[1..], q)
  }

  lemma FilterStep(s: seq<Event>, q: Query)
    requires s != []
    ensures Filter(s, q) == (if Hit(q, s[0]) then [s[0]] else []) + Filter(s[1..], q)
    ensures Filter([], q) == []
  {
  }

  lemma {:induction false} FilterConcat(s: seq<Event>, t: seq<Event>, q: Query)
    ensures Filter(s + t, q) == Filter(s, q) + Filter(t, q)
  {
    if s == [] {
      assert s + t == t;
    } else {
      hide Filter, Hit;
      assert (s + t)[1..] == s[1..] + t && (s + t)[0] == s[0];
      FilterConcat(s[1..], t, q);
      FilterStep(s, q);
      FilterStep(s + t, q);
    }
  }

  lemma {:induction false} FilterReverse(s: seq<Event>, q: Query)
    ensures Filter(Reverse(s), q) == Reverse(Filter(s, q))
  {
    if s != [] {
      FilterReverse(s[1..], q);
      FilterConcat(Reverse(s[1..]), [s[0]], q);
      assert [s[0]][1..] == [];
      if Hit(q, s[0]) {
        assert Filter(s, q)[1..] == Filter(s[1..], q);
      } else {
        assert Filter(s, q) == Filter(s[1..], q);
      }
    }
  }

  /** The iterator chain of the queries: reversed, filtered, cut, and turned round again. */
  function Find(s: seq<Event>, q: Query, limit: nat): seq<Event> {
    if limit == 0 then [] else Reverse(Take(Filter(Reverse(s), q), limit))
  }

  /** The chain yields the last `limit` hits, in chronological order. */
  lemma FindIsLast(s: seq<Event>, q: Query, limit: nat)
    ensures Find(s, q, limit) == Last(Filter(s, q), limit)
  {
    FilterReverse(s, q);
    ReverseTakeReverse(Filter(s, q), limit);
  }

  /**
   On the last part of a history, a query yields an end of what it yields on
   the whole, and the same exactly when it is full or nothing dropped was a hit.
   */
  lemma FindOnEnd(history: seq<Event>, capacity: nat, q: Query, limit: nat)
    ensures var ring := Last(history, capacity);
      var dropped := history[..|history| - |ring|];
      && Suffix(Find(ring, q, limit), Find(history, q, limit))
      && (Find(ring, q, limit) == Find(history, q, limit)
          <==> |Find(ring, q, limit)| == limit || Filter(dropped, q) == [])
  {
    hide Find, Filter;
    var ring := Last(history, capacity);
    var dropped := history[..|history| - |ring|];
    FindIsLast(ring, q, limit);
    FindIsLast(history, q, limit);
    assert dropped + ring == history;
    FilterConcat(dropped, ring, q);
    LastOfConcat(Filter(dropped, q), Filter(ring, q), limit);
  }

  /** The end of a sequence with something before it: the same end exactly when it is full or there was nothing. */
  lemma LastOfConcat<T>(s: seq<T>, t: seq<T>, n: nat)
    ensures Suffix(Last(t, n), Last(s + t, n))
    ensures |Last(t, n)| == n || s == [] ==> Last(t, n) == Last(s + t, n)
    ensures |Last(t, n)| != n && s != [] ==> |Last(t, n)| != |Last(s + t, n)|
  {
    if s == [] {
      assert s + t == t;
    }
  }

  // ---------- The ring ----------

  function Record(ring: seq<Event>, capacity: nat, e: Event): seq<Event>
    requires |ring| <= capacity && capacity > 0
  {
    (if |ring| == capacity then ring[1..] else ring) + [e]
  }

  function RecordAll(ring: seq<Event>, capacity: nat, es: seq<Event>): (r: seq<Event>)
    requires |ring| <= capacity && capacity > 0
    ensures |r| <= capacity
    decreases |es|
  {
    if es == [] then ring else RecordAll(Record(ring, capacity, es[0]), capacity, es[1..])
  }

  /** Recording anything after any history leaves the last `capacity` events of all of it. */
  lemma {:induction false} RecordAllKeepsLast(history: seq<Event>, capacity: nat, es: seq<Event>)
    requires capacity > 0
    ensures RecordAll(Last(history, capacity), capacity, es) == Last(history + es, capacity)
    decreases |es|
  {
    if es == [] {
      assert history + es == history;
    } else {
      assert Record(Last(history, capacity), capacity, es[0]) == Last(history + [es[0]], capacity);
      RecordAllKeepsLast(history + [es[0]], capacity, es[1..]);
      assert history + es == history + [es[0]] + es[1..];
    }
  }

  // ---------- The summary ----------

  datatype ReplaySummary = ReplaySummary(total: nat, simPassed: nat, simFailed: nat, success: nat, reverted: nat,
                                         gasRejected: nat,
                             meanLatencyMs: real, totalRealizedProfit: real)

  function Count(s: seq<Event>, o: Outcome): nat {
    |Filter(s, ByOutcome(o))|
  }

  function Realized(e: Event): real {
    if e.outcome.Success? && e.actualProfit.Some? then e.actualProfit.value else 0.0
  }

  function ProfitSum(s: seq<Event>): real {
    if s == [] then 0.0 else ProfitSum(s[..|s| - 1]) + Realized(s[|s| - 1])
  }

  function LatencySum(s: seq<Event>): nat {
    if s == [] then 0 else LatencySum(s[..|s| - 1]) + s[|s| - 1].latencyMs
  }

  function Mean(sum: nat, n: nat): real {
    if n == 0 then 0.0 else sum as real / n as real
  }

  /** The summary in terms of the queries. */
  function Summarized(s: seq<Event>): ReplaySummary {
    ReplaySummary(|s|, Count(s, SimPassed), Count(s, SimFailed), Count(s, Outcome.Success), Count(s, Reverted),
            Count(s, GateRejected), Mean(LatencySum(s), |s|), ProfitSum(s))
  }

  lemma CountStep(s: seq<Event>, e: Event, o: Outcome)
    ensures Count(s + [e], o) == Count(s, o) + if e.outcome == o then 1 else 0
  {
    FilterConcat(s, [e], ByOutcome(o));
    assert [e][1..] == [];
  }

  lemma SumStep(s: seq<Event>, e: Event)
    ensures ProfitSum(s + [e]) == ProfitSum(s) + Realized(e)
    ensures LatencySum(s + [e]) == LatencySum(s) + e.latencyMs
  {
  }

  /** The counters and the three outcomes without one account for every event. */
  lemma {:induction false} CountersPartition(s: seq<Event>)
    ensures var m := Summarized(s);
      m.simPassed + m.simFailed + m.success + m.reverted + m.gasRejected
      + Count(s, Pending) + Count(s, Broadcast) + Count(s, Error) == m.total
    decreases |s|
  {
    if s != [] {
      var t, e := s[..|s| - 1], s[|s| - 1];
      assert s == t + [e];
      CountersPartition(t);
      forall o: Outcome ensures Count(s, o) == Count(t, o) + if e.outcome == o then 1 else 0 {
        CountStep(t, e, o);
      }
    }
  }

  lemma {:induction false} SumTail(s: seq<Event>)
    requires s != []
    ensures ProfitSum(s) == Realized(s[0]) + ProfitSum(s[1..])
    ensures LatencySum(s) == s[0].latencyMs + LatencySum(s[1..])
  {
    if |s| > 1 {
      SumTail(s[..|s| - 1]);
      assert s[..|s| - 1][1..] == s[1..][..|s| - 2];
    } else {
      assert s[1..] == [];
    }
  }

  /** What the events with a profit made, whatever their outcome. */
  function Profits(s: seq<Event>): real {
    if s == [] then 0.0 else
    (if s[0].actualProfit.Some? then s[0].actualProfit.value else 0.0) + Profits(s[1..])
  }

  /** The profit counted is that of the events a query for successes finds. */
  lemma {:induction false} ProfitOfSuccesses(s: seq<Event>)
    ensures ProfitSum(s) == Profits(Filter(s, ByOutcome(Outcome.Success)))
  {
    if s != [] {
      hide ProfitSum;
      SumTail(s);
      ProfitOfSuccesses(s[1..]);
      if s[0].outcome.Success? {
        assert Filter(s, ByOutcome(Outcome.Success))[1..] == Filter(s[1..], ByOutcome(Outcome.Success));
      } else {
        assert Filter(s, ByOutcome(Outcome.Success)) == Filter(s[1..], ByOutcome(Outcome.Success));
      }
    }
  }

  /** One record changes counts and sums by the new event's share less the evicted one's. */
  lemma RecordDelta(ring: seq<Event>, capacity: nat, e: Event, o: Outcome)
    requires |ring| <= capacity && capacity > 0
    ensures var now := Record(ring, capacity, e);
      var full := |ring| == capacity;
      && Count(now, o) == Count(ring, o) + (if e.outcome == o then 1 else 0)
                          - (if full && ring[0].outcome == o then 1 else 0)
      && ProfitSum(now) == ProfitSum(ring) + Realized(e) - (if full then Realized(ring[0]) else 0.0)
      && LatencySum(now) == LatencySum(ring) + e.latencyMs - (if full then ring[0].latencyMs else 0)
  {
    var kept := if |ring| == capacity then ring[1..] else ring;
    CountStep(kept, e, o);
    SumStep(kept, e);
    if |ring| == capacity {
      SumTail(ring);
    }
  }

  class ReplayBuffer {
    const capacity: nat
    var events: seq<Event>
    ghost var history: seq<Event>

    /** A capacity of zero becomes one. */
    constructor (capacity: nat)
      ensures this.capacity == (if capacity > 1 then capacity else 1) && Valid() && history == []
    {
      this.capacity := if capacity > 1 then capacity else 1;
      events, history := [], [];
    }

    ghost predicate Valid()
      reads this
    {
      capacity > 0 && events == Last(history, capacity)
    }

    method Record(e: Event)
      requires Valid()
      modifies this
      ensures Valid() && history == old(history) + [e]
    {
      if |events| == capacity {
        events := events[1..];
      }
      events := events + [e];
      history := history + [e];
    }

    method LastN(n: nat) returns (r: seq<Event>)
      requires Valid()
      ensures r == Last(history, if n < capacity then n else capacity)
    {
      var start := if |events| < n then 0 else |events| - n;
      r := events[start..];
    }

    method Query(q: Query, limit: nat) returns (r: seq<Event>)
      requires Valid()
      ensures r == Last(Filter(events, q), limit)
      ensures Suffix(r, Last(Filter(history, q), limit))
      ensures |r| == limit ==> r == Last(Filter(history, q), limit)
    {
      FindIsLast(events, q, limit);
      FindIsLast(history, q, limit);
      FindOnEnd(history, capacity, q, limit);
      r := Find(events, q, limit);
    }

    method Summary() returns (m: ReplaySummary)
      requires Valid()
      ensures m == Summarized(events) && m.total == |events|
      ensures m.simPassed == |Filter(events, ByOutcome(SimPassed))|
      ensures m.simFailed == |Filter(events, ByOutcome(SimFailed))|
      ensures m.success == |Filter(events, ByOutcome(Outcome.Success))|
      ensures m.reverted == |Filter(events, ByOutcome(Reverted))|
      ensures m.gasRejected == |Filter(events, ByOutcome(GateRejected))|
      ensures m.meanLatencyMs * |events| as real == LatencySum(events) as real
      ensures events == [] ==> m.meanLatencyMs == 0.0
      ensures m.totalRealizedProfit == Profits(Filter(events, ByOutcome(Outcome.Success)))
    {
      hide Filter, ProfitSum, LatencySum, Profits, Mean;
      var simPassed, simFailed, success, reverted, gasRejected := 0, 0, 0, 0, 0;
      var latencySum: nat, realized := 0, 0.0;
      Empty();
      for i := 0 to |events|
        invariant simPassed == Count(events[..i], SimPassed) && simFailed == Count(events[..i], SimFailed)
        invariant success == Count(events[..i], Outcome.Success) && reverted == Count(events[..i], Reverted)
        invariant gasRejected == Count(events[..i], GateRejected)
        invariant latencySum == LatencySum(events[..i]) && realized == ProfitSum(events[..i])
      {
        var e := events[i];
        assert events[..i + 1] == events[..i] + [e];
        forall o: Outcome
          ensures Count(events[..i + 1], o) == Count(events[..i], o) + if e.outcome == o then 1 else 0
        {
          CountStep(events[..i], e, o);
        }
        SumStep(events[..i], e);
        match e.outcome {
          case SimPassed => simPassed := simPassed + 1;
          case SimFailed => simFailed := simFailed + 1;
          case Success => success := success + 1;
          case Reverted => reverted := reverted + 1;
          case GateRejected => gasRejected := gasRejected + 1;
          case _ =>
        }
        latencySum := latencySum + e.latencyMs;
        if e.outcome.Success? && e.actualProfit.Some? {
          realized := realized + e.actualProfit.value;
        }
      }
      assert events[..|events|] == events;
      ProfitOfSuccesses(events);
      MeanTimes(latencySum, |events|);
      m := ReplaySummary(|events|, simPassed, simFailed, success, reverted, gasRejected,
                           Mean(latencySum, |events|), realized);
    }
  }

  lemma MeanTimes(sum: nat, n: nat)
    ensures if n == 0 then Mean(sum, n) == 0.0 else Mean(sum, n) * n as real == sum as real
  {
  }

  lemma Empty()
    ensures forall o: Outcome :: Count([], o) == 0
    ensures ProfitSum([]) == 0.0 && LatencySum([]) == 0
  {
  }
}
