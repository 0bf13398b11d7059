/**
 An array-backed max-heap, standing in for the standard library's BinaryHeap,
 ordered by the queue's own `cmp`.
 */
module BinaryHeap {
  import opened PriorityLanes

  datatype Ordering = Less | Equal | Greater

  datatype Entry<T> = Entry(priority: Priority, stamp: nat, item: T)

  function CmpNat(a: nat, b: nat): Ordering {
    if a < b then Less else if a == b then Equal else Greater
  }

  /** Higher priority is greater; among equals, the earlier submission is. */
  function Cmp<T>(a: Entry<T>, b: Entry<T>): Ordering {
    match CmpNat(a.priority, b.priority)
    case Equal => CmpNat(b.stamp, a.stamp)
    case ord => ord
  }

  predicate Eq<T>(a: Entry<T>, b: Entry<T>) {
    a.priority == b.priority && a.stamp == b.stamp
  }

  predicate AtMost<T>(a: Entry<T>, b: Entry<T>) {
    Cmp(a, b) != Greater
  }

  /** A total order, in agreement with `eq`: entries that differ in priority or stamp never tie. */
  lemma CmpIsTotalOrder<T>(a: Entry<T>, b: Entry<T>, c: Entry<T>)
    ensures Cmp(a, b) == Equal <==> Eq(a, b)
    ensures Cmp(a, b) == Greater <==> Cmp(b, a) == Less
    ensures AtMost(a, b) && AtMost(b, c) ==> AtMost(a, c)
  {
  }

  function Parent(i: nat): nat
    requires i > 0
  {
    (i - 1) / 2
  }

  ghost predicate Heap<T>(s: seq<Entry<T>>) {
    forall i :: 0 < i < |s| ==> AtMost(s[i], s[Parent(i)])
  }

  /** The root of a heap is its maximum. */
  lemma {:induction false} RootIsMax<T>(s: seq<Entry<T>>, i: nat)
    requires Heap(s) && i < |s|
    ensures AtMost(s[i], s[0])
  {
    if i > 0 {
      RootIsMax(s, Parent(i));
      CmpIsTotalOrder(s[i], s[Parent(i)], s[0]);
    }
  }

  function Swapped<T>(s: seq<T>, i: nat, j: nat): seq<T>
    requires i < |s| && j < |s|
  {
    s[i := s[j]][j := s[i]]
  }

  lemma SwappedSame<T>(s: seq<T>, i: nat, j: nat)
    requires i < |s| && j < |s|
    ensures multiset(Swapped(s, i, j)) == multiset(s)
  {
  }

  method Swap<T>(a: array<Entry<T>>, n: nat, i: nat, j: nat)
    requires i < n <= a.Length && j < n
    modifies a
    ensures a[..n] == Swapped(old(a[..n]), i, j) && multiset(a[..n]) == multiset(old(a[..n]))
    ensures a[n..] == old(a[n..])
  {
    SwappedSame(a[..n], i, j);
    a[i], a[j] := a[j], a[i];
  }

  /** A heap but for element `i`, which may be too great for its place. */
  ghost predicate HeapButUp<T>(s: seq<Entry<T>>, i: nat) {
    && i < |s|
    && (forall j :: 0 < j < |s| && j != i ==> AtMost(s[j], s[Parent(j)]))
    && (forall j :: 0 < j < |s| && 0 < i == Parent(j) ==> AtMost(s[j], s[Parent(i)]))
  }

  /** A heap but for element `i`, which may be too small for its place. */
  ghost predicate HeapButDown<T>(s: seq<Entry<T>>, i: nat) {
    && (forall j :: 0 < j < |s| && Parent(j) != i ==> AtMost(s[j], s[Parent(j)]))
    && (forall j :: 0 < j < |s| && 0 < i < |s| && i == Parent(j) ==> AtMost(s[j], s[Parent(i)]))
  }

  lemma UpStep<T>(s: seq<Entry<T>>, i: nat)
    requires HeapButUp(s, i) && i > 0 && !AtMost(s[i], s[Parent(i)])
    ensures HeapButUp(Swapped(s, i, Parent(i)), Parent(i))
  {
    hide AtMost;
    var p, u := Parent(i), Swapped(s, i, Parent(i));
    CmpIsTotal(s[i], s[p]);
    forall j | 0 < j < |u| && j != p
      ensures AtMost(u[j], u[Parent(j)])
      ensures 0 < p == Parent(j) ==> AtMost(u[j], u[Parent(p)])
    {
      if j != i && Parent(j) == p {
        AtMostTransitive(s[j], s[p], s[i]);
      }
      if 0 < p && Parent(j) == p && j != i {
        AtMostTransitive(s[j], s[p], s[Parent(p)]);
      }
    }
  }

  /** `c` is the greatest child of `i`. */
  ghost predicate GreatestChild<T>(s: seq<Entry<T>>, i: nat, c: nat) {
    0 < c < |s| && Parent(c) == i && forall j :: 0 < j < |s| && Parent(j) == i ==> AtMost(s[j], s[c])
  }

  lemma DownStep<T>(s: seq<Entry<T>>, i: nat, c: nat)
    requires HeapButDown(s, i) && GreatestChild(s, i, c) && !AtMost(s[c], s[i])
    ensures HeapButDown(Swapped(s, i, c), c)
  {
  }

  lemma CmpIsTotal<T>(a: Entry<T>, b: Entry<T>)
    ensures AtMost(a, b) || AtMost(b, a)
  {
  }

  lemma AtMostTransitive<T>(a: Entry<T>, b: Entry<T>, c: Entry<T>)
    requires AtMost(a, b) && AtMost(b, c)
    ensures AtMost(a, c)
  {
  }

  /** Restores the heap after its last element arrived. */
  method SiftUp<T>(a: array<Entry<T>>, n: nat)
    requires 0 < n <= a.Length && Heap(a[..n - 1])
    modifies a
    ensures Heap(a[..n]) && multiset(a[..n]) == multiset(old(a[..n])) && a[n..] == old(a[n..])
  {
    hide AtMost;
    var i := n - 1;
    LastArrived(a[..n]);
    while i > 0
      invariant HeapButUp(a[..n], i) && multiset(a[..n]) == multiset(old(a[..n])) && a[n..] == old(a[n..])
    {
      var p := (i - 1) / 2;
      if Cmp(a[i], a[p]) != Greater {
        AtMostIs(a[i], a[p]);
        return;
      }
      AtMostIs(a[i], a[p]);
      UpStep(a[..n], i);
      Swap(a, n, i, p);
      i := p;
    }
  }

  lemma AtMostIs<T>(a: Entry<T>, b: Entry<T>)
    ensures AtMost(a, b) <==> Cmp(a, b) != Greater
  {
  }

  lemma LastArrived<T>(s: seq<Entry<T>>)
    requires |s| > 0 && Heap(s[..|s| - 1])
    ensures HeapButUp(s, |s| - 1)
  {
  }

  /** Restores the heap after its root was replaced. */
  method SiftDown<T>(a: array<Entry<T>>, n: nat)
    requires n <= a.Length && HeapButDown(a[..n], 0)
    modifies a
    ensures Heap(a[..n]) && multiset(a[..n]) == multiset(old(a[..n])) && a[n..] == old(a[n..])
  {
    hide AtMost, Cmp, HeapButDown, GreatestChild, Heap, Swapped, Parent;
    var i := 0;
    while 2 * i + 1 < n
      invariant HeapButDown(a[..n], i) && multiset(a[..n]) == multiset(old(a[..n])) && a[n..] == old(a[n..])
    {
      var c := 2 * i + 1;
      if c + 1 < n && Cmp(a[c + 1], a[c]) == Greater {
        c := c + 1;
      }
      ChildChosen(a[..n], i, c);
      AtMostIs(a[c], a[i]);
      if Cmp(a[c], a[i]) != Greater {
        ChildrenBelow(a[..n], i, c);
        return;
      }
      DownStep(a[..n], i, c);
      Swap(a, n, i, c);
      i := c;
    }
    NoChildren(a[..n], i);
  }

  lemma EmptyIsHeap<T>(s: seq<Entry<T>>)
    requires s == []
    ensures Heap(s)
  {
  }

  lemma NoChildren<T>(s: seq<Entry<T>>, i: nat)
    requires HeapButDown(s, i) && |s| <= 2 * i + 1
    ensures Heap(s)
  {
  }

  lemma ChildChosen<T>(s: seq<Entry<T>>, i: nat, c: nat)
    requires 2 * i + 1 <= c <= 2 * i + 2 && c < |s|
    requires c == 2 * i + 1 ==> c + 1 >= |s| || Cmp(s[c + 1], s[c]) != Greater
    requires c == 2 * i + 2 ==> Cmp(s[c], s[c - 1]) == Greater
    ensures GreatestChild(s, i, c)
  {
  }

  lemma ChildrenBelow<T>(s: seq<Entry<T>>, i: nat, c: nat)
    requires HeapButDown(s, i) && GreatestChild(s, i, c) && AtMost(s[c], s[i])
    ensures Heap(s)
  {
  }

  method HeapPush<T>(a: array<Entry<T>>, n: nat, e: Entry<T>)
    requires n < a.Length && Heap(a[..n])
    modifies a
    ensures Heap(a[..n + 1]) && multiset(a[..n + 1]) == multiset(old(a[..n])) + multiset{e}
  {
    hide Heap;
    ghost var was := a[..n];
    a[n] := e;
    assert a[..n + 1] == was + [e] && a[..n] == was;
    SiftUp(a, n + 1);
  }

  method HeapPop<T>(a: array<Entry<T>>, n: nat) returns (top: Entry<T>)
    requires 0 < n <= a.Length && Heap(a[..n])
    modifies a
    ensures top == old(a[0]) && Heap(a[..n - 1])
    ensures multiset(a[..n - 1]) == multiset(old(a[..n])) - multiset{top}
  {
    hide Heap, HeapButDown;
    ghost var was := a[..n];
    top := a[0];
    if n > 1 {
      a[0] := a[n - 1];
      RootReplaced(was, a[..n - 1]);
      SiftDown(a, n - 1);
    } else {
      assert was == [top];
      EmptyIsHeap(a[..0]);
    }
  }

  lemma RootReplaced<T>(was: seq<Entry<T>>, now: seq<Entry<T>>)
    requires Heap(was) && |was| == |now| + 1 && |now| > 0
    requires now == was[..|now|][0 := was[|now|]]
    ensures HeapButDown(now, 0) && multiset(now) == multiset(was) - multiset{was[0]}
  {
    assert was == [was[0]] + was[1..|now|] + [was[|now|]];
    assert now == [was[|now|]] + was[1..|now|];
    forall j | 0 < j < |now| && Parent(j) != 0 ensures AtMost(now[j], now[Parent(j)]) {
      assert AtMost(was[j], was[Parent(j)]);
    }
  }
}
