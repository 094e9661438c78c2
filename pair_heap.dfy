/**
 * The heap of iterator pairs that both merges keep: the comparator on pairs,
 * the state the main merge loop keeps from round to round, and the lemmas
 * that carry that state through the set-up and through one round.
 */
module PairHeap {
  import opened Heap
  import opened Cursors

  /** CompareFunction::operator() (my_n_way_merge.h): two pairs compare as
      the elements their `first` iterators point at. The source dereferences
      `first` unchecked and the merge only compares pairs that still have
      elements; pairs with none are ranked below all others here, which keeps
      the order strict weak on every pair. */
  function CompareFunction<T(!new)>(cmp: (T, T) -> bool): (r: (Cursor<T>, Cursor<T>) -> bool)
    ensures forall p1, p2 {:trigger r(p1, p2)} :: Live(p1) && Live(p2) ==> (r(p1, p2) <==> cmp(Head(p1), Head(p2)))
  {
    (p1: Cursor<T>, p2: Cursor<T>) =>
      if Live(p1) && Live(p2) then cmp(Head(p1), Head(p2)) else !Live(p1) && Live(p2)
  }

  /** Comparing pairs by their heads is a strict weak order whenever comparing
      elements is, as std::make_heap and std::pop_heap require. */
  lemma CompareFunctionIsStrictWeakOrder<T(!new)>(cmp: (T, T) -> bool)
    requires StrictWeakOrder(cmp)
    ensures StrictWeakOrder(CompareFunction(cmp))
  {
    var r := CompareFunction(cmp);
    forall x, y, z | r(x, y) && r(y, z)
      ensures r(x, z)
    {
      assert Live(y) && Live(z);
    }
    forall x, y, z | !r(x, y) && !r(y, z)
      ensures !r(x, z)
    {
      if Live(y) {
        assert Live(x) ==> !cmp(Head(x), Head(y));
      }
    }
  }

  /** Every input pair is sorted. */
  ghost predicate InputsSorted<T>(lists: seq<Cursor<T>>, cmp: (T, T) -> bool) {
    forall i :: 0 <= i < |lists| ==> SortedBy(Remaining(lists[i]), cmp)
  }

  /** What holds before each round of the main loop: the live pairs form a
      heap, what has been emitted and what is still pending are together the
      elements of the inputs, and, for sorted inputs, every pending pair is
      sorted and what has been emitted is sorted and not above anything
      pending. */
  ghost predicate MergeState<T(!new)>(lists: seq<Cursor<T>>, cmp: (T, T) -> bool, h: seq<Cursor<T>>, emitted: seq<T>) {
    && IsHeap(h, CompareFunction(cmp))
    && (forall c :: c in h ==> Live(c))
    && multiset(emitted) + Pending(h) == Pending(lists)
    && (InputsSorted(lists, cmp) ==>
          && (forall c :: c in h ==> SortedBy(Remaining(c), cmp))
          && SortedBy(emitted, cmp)
          && (forall i, x :: 0 <= i < |emitted| && x in Pending(h) ==> !cmp(emitted[i], x)))
  }

  /** After the initial check and std::make_heap the main loop starts in
      MergeState with nothing emitted. */
  lemma InitialState<T(!new)>(lists: seq<Cursor<T>>, cmp: (T, T) -> bool, h: seq<Cursor<T>>)
    requires IsHeap(h, CompareFunction(cmp))
    requires multiset(h) == multiset(LiveOf(lists))
    ensures MergeState(lists, cmp, h, [])
    ensures |h| == |LiveOf(lists)|
  {
    LiveOfMembers(lists);
    PendingPermutation(h, LiveOf(lists));
    PendingLiveOf(lists);
    forall c | c in h
      ensures Live(c) && c in lists
    {
      assert c in multiset(h);
    }
    assert |h| == |multiset(h)| == |multiset(LiveOf(lists))|;
  }

  /** The root's head is not above anything pending anywhere in the heap. */
  lemma RootHeadLeast<T(!new)>(cmp: (T, T) -> bool, h: seq<Cursor<T>>, x: T)
    requires StrictWeakOrder(cmp)
    requires IsHeap(h, CompareFunction(cmp)) && |h| > 0
    requires forall c :: c in h ==> Live(c) && SortedBy(Remaining(c), cmp)
    requires x in Pending(h)
    ensures !cmp(Head(h[0]), x)
  {
    InPending(h, x);
    var c :| c in h && x in Remaining(c);
    CompareFunctionIsStrictWeakOrder(cmp);
    RootIsGreatest(h, CompareFunction(cmp));
    assert c in multiset(h);
    assert !cmp(Head(h[0]), Head(c));
    HeadLeast(c, cmp, x);
  }

  /** The pairs after one round: the other pairs of the heap, plus the
      advanced root when it still has elements. */
  ghost predicate AfterRound<T>(h: seq<Cursor<T>>, h2: seq<Cursor<T>>) {
    |h| > 0 &&
    multiset(h2) == multiset(h[1..]) + (if Live(Advance(h[0])) then multiset{Advance(h[0])} else multiset{})
  }

  /** After a round every pair is the advanced root, still live, or a pair
      that was in the heap before. */
  lemma AfterRoundMembers<T>(h: seq<Cursor<T>>, h2: seq<Cursor<T>>)
    requires AfterRound(h, h2)
    ensures forall d :: d in h2 ==> (d == Advance(h[0]) && Live(d)) || d in h
  {
    forall d | d in h2
      ensures (d == Advance(h[0]) && Live(d)) || d in h
    {
      assert d in multiset(h2);
      if d in h[1..] {
        var j :| 0 <= j < |h[1..]| && h[1..][j] == d;
        assert h[j + 1] == d;
      }
    }
  }

  /** A round takes exactly the root's head out of what is pending. */
  lemma AfterRoundPending<T>(h: seq<Cursor<T>>, h2: seq<Cursor<T>>)
    requires AfterRound(h, h2) && Live(h[0])
    ensures Pending(h) == multiset{Head(h[0])} + Pending(h2)
  {
    var c, c' := h[0], Advance(h[0]);
    RemainingAdvance(c);
    assert Elements(c) == multiset{Head(c)} + Elements(c');
    var k := if Live(c') then [c'] + h[1..] else h[1..];
    assert multiset(h2) == multiset(k);
    PendingPermutation(h2, k);
    assert Pending(h) == Elements(c) + Pending(h[1..]);
    if Live(c') {
      assert k[0] == c' && k[1..] == h[1..];
      assert Pending(k) == Elements(c') + Pending(h[1..]);
    }
  }

  /** One round of the main loop, in terms of the pending elements: the root
      gives up its head, and the heap that results holds the other pairs plus
      the advanced root unless that has run out. */
  lemma MergeStep<T(!new)>(lists: seq<Cursor<T>>, cmp: (T, T) -> bool, h: seq<Cursor<T>>, h2: seq<Cursor<T>>, emitted: seq<T>)
    requires StrictWeakOrder(cmp)
    requires MergeState(lists, cmp, h, emitted) && |h| > 0
    requires IsHeap(h2, CompareFunction(cmp))
    requires AfterRound(h, h2)
    ensures |emitted| < |Pending(lists)|
    ensures MergeState(lists, cmp, h2, emitted + [Head(h[0])])
  {
    assert h[0] in h;
    var e := Head(h[0]);
    AfterRoundMembers(h, h2);
    AfterRoundPending(h, h2);
    assert multiset(emitted + [e]) == multiset(emitted) + multiset{e};
    assert |multiset(emitted)| + |Pending(h)| == |Pending(lists)|;
    if InputsSorted(lists, cmp) {
      MergeStepSorted(cmp, h, h2, emitted);
    }
  }

  /** The sortedness half of MergeStep. */
  lemma MergeStepSorted<T(!new)>(cmp: (T, T) -> bool, h: seq<Cursor<T>>, h2: seq<Cursor<T>>, emitted: seq<T>)
    requires StrictWeakOrder(cmp)
    requires IsHeap(h, CompareFunction(cmp)) && |h| > 0
    requires forall c :: c in h ==> Live(c) && SortedBy(Remaining(c), cmp)
    requires forall d :: d in h2 ==> d == Advance(h[0]) || d in h
    requires Pending(h) == multiset{Head(h[0])} + Pending(h2)
    requires SortedBy(emitted, cmp)
    requires forall i, x :: 0 <= i < |emitted| && x in Pending(h) ==> !cmp(emitted[i], x)
    ensures forall c :: c in h2 ==> SortedBy(Remaining(c), cmp)
    ensures SortedBy(emitted + [Head(h[0])], cmp)
    ensures forall i, x :: 0 <= i < |emitted| + 1 && x in Pending(h2) ==> !cmp((emitted + [Head(h[0])])[i], x)
  {
    var c := h[0];
    assert c in h;
    var e := Head(c);
    AdvanceKeepsSorted(c, cmp);
    assert e in Pending(h);
    var out := emitted + [e];
    forall i, j | 0 <= i < j < |out|
      ensures !cmp(out[i], out[j])
    {
      if j == |emitted| {
        assert out[j] == e;
      } else {
        assert out[i] == emitted[i] && out[j] == emitted[j];
      }
    }
    forall i, x | 0 <= i < |out| && x in Pending(h2)
      ensures !cmp(out[i], x)
    {
      assert x in Pending(h);
      if i == |emitted| {
        RootHeadLeast(cmp, h, x);
      } else {
        assert out[i] == emitted[i];
      }
    }
  }

  /** When the heap is empty everything has been emitted. */
  lemma FinalState<T(!new)>(lists: seq<Cursor<T>>, cmp: (T, T) -> bool, h: seq<Cursor<T>>, emitted: seq<T>)
    requires MergeState(lists, cmp, h, emitted) && |h| == 0
    ensures multiset(emitted) == multiset(AllRemaining(lists))
    ensures |emitted| == |AllRemaining(lists)|
    ensures InputsSorted(lists, cmp) ==> SortedBy(emitted, cmp)
  {
    PendingIsAllRemaining(lists);
    assert |multiset(emitted)| == |multiset(AllRemaining(lists))|;
  }

}
