/**
 * my_n_way_merge.h: merging sorted lists, each given by an iterator pair,
 * into an output container. A heap of the pairs, ordered by the elements
 * their `first` iterators point at, says which list holds the next element.
 *
 * `cmp` is the heap comparator (`Compare`), not the sort order: lists sorted
 * ascending are merged with std::greater, which makes the heap a min-heap.
 * A list counts as sorted when SortedBy(list, cmp) holds.
 */
module NWayMerge {
  import opened Heap
  import opened Cursors
  import opened PairHeap

  /** What holds before each round of the initial check, with s the whole
      buffer, orig its first n slots as they were and tail the rest: the
      pairs before `it` are live, those in [it, heapEnd) are still to be
      checked, together they hold the live pairs of orig, and the slots from
      n on are untouched. */
  ghost predicate CheckState<T>(s: seq<Cursor<T>>, n: nat, it: nat, heapEnd: nat, orig: seq<Cursor<T>>, tail: seq<Cursor<T>>) {
    && it <= heapEnd <= n < |s|
    && s[n..] == tail
    && (forall i :: 0 <= i < it ==> Live(s[i]))
    && (forall i :: it <= i < heapEnd ==> Valid(s[i]))
    && multiset(s[..it]) + multiset(LiveOf(s[it..heapEnd])) == multiset(LiveOf(orig))
  }

  /** Copying the last unchecked pair over an empty one leaves the live
      pairs of the unchecked range as they were. */
  lemma DropLive<T>(s: seq<Cursor<T>>, t: seq<Cursor<T>>, it: nat, e: nat)
    requires it < e <= |s| && !Live(s[it])
    requires t == s[it := s[e - 1]]
    ensures multiset(LiveOf(t[it..e - 1])) == multiset(LiveOf(s[it..e]))
  {
    if it == e - 1 {
      assert s[it..e] == [s[it]];
      assert LiveOf([s[it]]) == [];
      assert t[it..e - 1] == [];
    } else {
      assert t[it..e - 1] == [s[e - 1]] + s[it + 1..e - 1];
      assert s[it..e] == [s[it]] + s[it + 1..e - 1] + [s[e - 1]];
      LiveOfAppend([s[e - 1]], s[it + 1..e - 1]);
      LiveOfAppend([s[it]] + s[it + 1..e - 1], [s[e - 1]]);
      LiveOfAppend([s[it]], s[it + 1..e - 1]);
      assert LiveOf([s[it]]) == [];
    }
  }

  /** Dropping the empty pair at `it` by copying the last unchecked pair over
      it keeps the live pairs counted, and touches nothing from n on. */
  lemma DropStep<T>(s: seq<Cursor<T>>, t: seq<Cursor<T>>, n: nat, it: nat, e: nat, orig: seq<Cursor<T>>, tail: seq<Cursor<T>>)
    requires CheckState(s, n, it, e, orig, tail) && it < e && !Live(s[it])
    requires t == s[it := s[e - 1]]
    ensures CheckState(t, n, it, e - 1, orig, tail)
  {
    DropLive(s, t, it, e);
    assert t[..it] == s[..it];
    assert t[n..] == s[n..];
  }

  /** Keeping the live pair at `it` moves it from the unchecked part of the
      range to the checked part. */
  lemma KeepStep<T>(s: seq<Cursor<T>>, n: nat, it: nat, e: nat, orig: seq<Cursor<T>>, tail: seq<Cursor<T>>)
    requires CheckState(s, n, it, e, orig, tail) && it < e && Valid(s[it]) && !(s[it].first >= s[it].second)
    ensures CheckState(s, n, it + 1, e, orig, tail)
  {
    assert s[..it + 1] == s[..it] + [s[it]];
    assert s[it..e] == [s[it]] + s[it + 1..e];
    LiveOfAppend([s[it]], s[it + 1..e]);
  }

  /** Before the initial check every pair is still to be checked. */
  lemma CheckStart<T>(s: seq<Cursor<T>>, n: nat, orig: seq<Cursor<T>>, tail: seq<Cursor<T>>)
    requires n < |s| && orig == s[..n] && tail == s[n..]
    requires forall i :: 0 <= i < n ==> Valid(s[i])
    ensures CheckState(s, n, 0, n, orig, tail)
  {
    assert s[0..n] == orig;
  }

  /** When nothing is left to check, the checked pairs are the live ones. */
  lemma DropEmptyListsDone<T>(s: seq<Cursor<T>>, n: nat, it: nat, heapEnd: nat, orig: seq<Cursor<T>>, tail: seq<Cursor<T>>)
    requires CheckState(s, n, it, heapEnd, orig, tail) && it == heapEnd
    ensures forall i :: 0 <= i < it ==> Live(s[i])
    ensures multiset(s[..it]) == multiset(LiveOf(orig))
    ensures it <= n < |s| && s[n..] == tail
  {
    assert s[it..it] == [];
  }

  /** One round of the initial check: an empty or invalid pair at `it` is
      overwritten by the last unchecked pair heap[heapEnd-1], a live one is
      kept. */
  method CheckOne<T>(heap: array<Cursor<T>>, n: nat, it: nat, heapEnd: nat, ghost orig: seq<Cursor<T>>, ghost tail: seq<Cursor<T>>)
    returns (dropped: bool)
    requires it < heapEnd
    requires CheckState(heap[..], n, it, heapEnd, orig, tail)
    modifies heap
    ensures dropped <==> old(heap[it].first >= heap[it].second)
    ensures dropped ==> CheckState(heap[..], n, it, heapEnd - 1, orig, tail)
    ensures !dropped ==> CheckState(heap[..], n, it + 1, heapEnd, orig, tail)
  {
    ghost var s := heap[..];
    dropped := heap[it].first >= heap[it].second;
    if dropped {
      heap[it] := heap[heapEnd - 1];
      DropStep(s, heap[..], n, it, heapEnd, orig, tail);
    } else {
      KeepStep(s, n, it, heapEnd, orig, tail);
    }
  }

  /** The initial check of my_n_way_merge (and of my_merge_sorted_lists):
      heap[0..n) holds the pairs and heap[n] is the spare slot. Each empty or
      invalid pair is overwritten by the last pair not yet excluded, which is
      then checked in its turn. Afterwards heap[0..heapSize) holds exactly the
      live pairs, and the spare slot is untouched. */
  method DropEmptyLists<T(!new)>(heap: array<Cursor<T>>, n: nat) returns (heapSize: nat)
    requires n < heap.Length
    requires forall i :: 0 <= i < n ==> Valid(heap[i])
    modifies heap
    ensures heapSize <= n
    ensures forall i :: 0 <= i < heapSize ==> Live(heap[i])
    ensures multiset(heap[..heapSize]) == multiset(LiveOf(old(heap[..n])))
    ensures heap[n..] == old(heap[n..])
  {
    ghost var orig, tail := heap[..n], heap[n..];
    CheckStart(heap[..], n, orig, tail);
    heapSize := CheckLoop(heap, n, orig, tail);
    DropEmptyListsDone(heap[..], n, heapSize, heapSize, orig, tail);
    assert heap[n..] == heap[..][n..];
    assert heap[..heapSize] == heap[..][..heapSize];
  }

  /** The loop of the initial check. */
  method CheckLoop<T>(heap: array<Cursor<T>>, n: nat, ghost orig: seq<Cursor<T>>, ghost tail: seq<Cursor<T>>) returns (heapSize: nat)
    requires CheckState(heap[..], n, 0, n, orig, tail)
    modifies heap
    ensures CheckState(heap[..], n, heapSize, heapSize, orig, tail)
  {
    heapSize := n;
    var heapEnd := n;
    var it := 0;
    while it < heapEnd
      invariant heapEnd == heapSize
      invariant CheckState(heap[..], n, it, heapEnd, orig, tail)
      decreases heapEnd - it
    {
      var dropped := CheckOne(heap, n, it, heapEnd, orig, tail);
      if dropped {
        heapEnd, heapSize := heapEnd - 1, heapSize - 1;
      } else {
        it := it + 1;
      }
    }
  }

  /** The set-up of my_n_way_merge: the pairs are copied into a buffer
      with one spare slot holding a copy of the first pair, empty and invalid
      pairs are dropped, and std::make_heap orders the rest. */
  method BuildHeap<T(!new)>(lists: seq<Cursor<T>>, cmp: (T, T) -> bool) returns (heap: array<Cursor<T>>, heapSize: nat)
    requires StrictWeakOrder(cmp)
    requires |lists| > 0 && forall i :: 0 <= i < |lists| ==> Valid(lists[i])
    ensures fresh(heap) && heap.Length == |lists| + 1
    ensures heapSize <= |lists| && heapSize == |LiveOf(lists)|
    ensures multiset(heap[..heapSize]) == multiset(LiveOf(lists))
    ensures MergeState(lists, cmp, heap[..heapSize], [])
  {
    var n := |lists|;
    heap := new Cursor<T>[n + 1](i requires 0 <= i <= n => if i < n then lists[i] else lists[0]);
    assert heap[..n] == lists;
    heapSize := DropEmptyLists(heap, n);
    CompareFunctionIsStrictWeakOrder(cmp);
    MakeHeap(heap, heapSize, CompareFunction(cmp));
    InitialState(lists, cmp, heap[..heapSize]);
  }

  /** The fix-up after the root's `first` was advanced: a root with nothing
      left is removed with std::pop_heap, otherwise replace_heap puts the
      advanced root back in its place, using slot heapSize as scratch. h is
      the heap as it was before the root was advanced. */
  method FixHeap<T(!new)>(heap: array<Cursor<T>>, heapSize: nat, cmp: (T, T) -> bool, ghost h: seq<Cursor<T>>)
    returns (heapSize': nat, ghost popped: bool)
    requires StrictWeakOrder(cmp)
    requires 0 < heapSize < heap.Length && |h| == heapSize
    requires IsHeap(h, CompareFunction(cmp)) && heap[1..heapSize] == h[1..]
    requires Valid(heap[0]) && heap[0].first <= heap[0].second
    modifies heap
    ensures popped <==> !Live(old(heap[0]))
    ensures heapSize' == if popped then heapSize - 1 else heapSize
    ensures IsHeap(heap[..heapSize'], CompareFunction(cmp))
    ensures multiset(heap[..heapSize']) == multiset(h[1..]) + (if popped then multiset{} else multiset{old(heap[0])})
  {
    NewRootKeepsLinksBelow(h, heap[..heapSize], CompareFunction(cmp));
    if heap[0].first == heap[0].second {
      PopExhausted(heap, heapSize, cmp);
      heapSize', popped := heapSize - 1, true;
    } else {
      ReplaceRoot(heap, heapSize, cmp);
      heapSize', popped := heapSize, false;
    }
  }

  /** std::pop_heap(heap_begin, heap_begin + heapSize, compare_func). */
  method PopExhausted<T(!new)>(heap: array<Cursor<T>>, heapSize: nat, cmp: (T, T) -> bool)
    requires StrictWeakOrder(cmp)
    requires 0 < heapSize <= heap.Length
    requires IsHeapBelowRoot(heap[..heapSize - 1], CompareFunction(cmp))
    modifies heap
    ensures IsHeap(heap[..heapSize - 1], CompareFunction(cmp))
    ensures multiset(heap[..heapSize - 1]) == old(multiset(heap[1..heapSize]))
  {
    CompareFunctionIsStrictWeakOrder(cmp);
    PopHeap(heap, heapSize, CompareFunction(cmp));
  }

  /** replace_heap(heap_begin, heap_begin + heapSize + 1, *heap_begin, compare_func). */
  method ReplaceRoot<T(!new)>(heap: array<Cursor<T>>, heapSize: nat, cmp: (T, T) -> bool)
    requires StrictWeakOrder(cmp)
    requires 0 < heapSize < heap.Length
    requires IsHeapBelowRoot(heap[..heapSize], CompareFunction(cmp))
    modifies heap
    ensures IsHeap(heap[..heapSize], CompareFunction(cmp))
    ensures multiset(heap[..heapSize]) == old(multiset(heap[1..heapSize])) + multiset{old(heap[0])}
  {
    CompareFunctionIsStrictWeakOrder(cmp);
    ReplaceHeap(heap, heapSize + 1, heap[0], CompareFunction(cmp));
  }

  /** One round of the main loop after the check for an empty heap: read
      `*first` of the root, advance the root's `first`, and fix the heap. The
      merge state moves on by the element read; `popped` says whether the
      root had run out and was removed. */
  method MergeRound<T(!new)>(heap: array<Cursor<T>>, heapSize: nat, cmp: (T, T) -> bool,
                             ghost lists: seq<Cursor<T>>, ghost emitted: seq<T>)
    returns (e: T, heapSize': nat, ghost popped: bool)
    requires StrictWeakOrder(cmp)
    requires 0 < heapSize < heap.Length
    requires MergeState(lists, cmp, heap[..heapSize], emitted)
    modifies heap
    ensures e == Head(old(heap[0]))
    ensures popped <==> !Live(Advance(old(heap[0])))
    ensures heapSize' == if popped then heapSize - 1 else heapSize
    ensures multiset(heap[..heapSize']) == old(multiset(heap[1..heapSize])) + (if popped then multiset{} else multiset{Advance(old(heap[0]))})
    ensures |emitted| < |Pending(lists)|
    ensures MergeState(lists, cmp, heap[..heapSize'], emitted + [e])
  {
    ghost var h := heap[..heapSize];
    assert h[0] in h;
    var root := heap[0];
    e := Head(root);
    heap[0] := Advance(root);
    RemainingAdvance(root);
    assert heap[1..heapSize] == h[1..];
    heapSize', popped := FixHeap(heap, heapSize, cmp, h);
    MergeStep(lists, cmp, h, heap[..heapSize'], emitted);
  }

  /** my_n_way_merge over iterator pairs: appends to `output` the elements
      of all the pairs and returns the extended container. Empty and invalid
      pairs contribute nothing; when every pair is sorted, so is what was
      appended. Each element appended is followed by exactly one heap fix-up:
      a std::pop_heap when its pair has run out (once per non-empty pair) or
      a replace_heap otherwise. Nothing the caller holds is modified. */
  method NWayMerge<T(!new)>(lists: seq<Cursor<T>>, output: seq<T>, cmp: (T, T) -> bool)
    returns (result: seq<T>, ghost popCalls: nat, ghost replaceCalls: nat)
    requires StrictWeakOrder(cmp)
    requires forall i :: 0 <= i < |lists| ==> Valid(lists[i])
    ensures |result| == |output| + |AllRemaining(lists)|
    ensures result[..|output|] == output
    ensures multiset(result[|output|..]) == multiset(AllRemaining(lists))
    ensures InputsSorted(lists, cmp) ==> SortedBy(result[|output|..], cmp)
    ensures popCalls == |LiveOf(lists)| && popCalls + replaceCalls == |result| - |output|
  {
    if |lists| == 0 {
      return output, 0, 0;
    }
    var heap, heapSize := BuildHeap(lists, cmp);
    ghost var emitted;
    result, emitted, popCalls, replaceCalls := MergeLoop(heap, heapSize, lists, output, cmp);
    FinalState(lists, cmp, heap[..0], emitted);
    assert result[|output|..] == emitted;
  }

  /** The main loop of my_n_way_merge: while the heap is not empty, append
      the root's head, advance the root and fix the heap. It ends with every
      pending element appended, in MergeState with an empty heap. */
  method MergeLoop<T(!new)>(heap: array<Cursor<T>>, heapSize: nat, ghost lists: seq<Cursor<T>>, output: seq<T>, cmp: (T, T) -> bool)
    returns (result: seq<T>, ghost emitted: seq<T>, ghost popCalls: nat, ghost replaceCalls: nat)
    requires StrictWeakOrder(cmp)
    requires heapSize < heap.Length && heapSize == |LiveOf(lists)|
    requires MergeState(lists, cmp, heap[..heapSize], [])
    modifies heap
    ensures result == output + emitted
    ensures MergeState(lists, cmp, heap[..0], emitted)
    ensures popCalls == |LiveOf(lists)| && popCalls + replaceCalls == |emitted|
  {
    var size: nat := heapSize;
    result := output;
    emitted := [];
    popCalls, replaceCalls := 0, 0;
    while size > 0
      invariant size <= heapSize
      invariant result == output + emitted
      invariant MergeState(lists, cmp, heap[..size], emitted)
      invariant |emitted| <= |Pending(lists)|
      invariant popCalls + size == |LiveOf(lists)|
      invariant popCalls + replaceCalls == |emitted|
      decreases |Pending(lists)| - |emitted|
    {
      var e;
      ghost var popped;
      e, size, popped := MergeRound(heap, size, cmp, lists, emitted);
      AppendAssoc(output, emitted, e);
      result := result + [e];
      emitted := emitted + [e];
      if popped {
        popCalls := popCalls + 1;
      } else {
        replaceCalls := replaceCalls + 1;
      }
    }
  }

  lemma AppendAssoc<T>(a: seq<T>, b: seq<T>, e: T)
    ensures (a + b) + [e] == a + (b + [e])
  {}

  /** my_n_way_merge over a range of containers: one (cbegin(), cend()) pair
      per container, merged as above. */
  method NWayMergeRange<T(!new)>(lists: seq<seq<T>>, output: seq<T>, cmp: (T, T) -> bool) returns (result: seq<T>)
    requires StrictWeakOrder(cmp)
    ensures |result| == |output| + TotalLength(lists)
    ensures result[..|output|] == output
    ensures multiset(result[|output|..]) == multiset(Flatten(lists))
    ensures (forall i :: 0 <= i < |lists| ==> SortedBy(lists[i], cmp)) ==> SortedBy(result[|output|..], cmp)
  {
    FlattenLength(lists);
    if |lists| == 0 {
      return output;
    }
    var inputs := PairsOf(lists);
    ghost var popCalls, replaceCalls;
    result, popCalls, replaceCalls := NWayMerge(inputs, output, cmp);
  }
}
