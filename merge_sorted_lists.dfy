/**
 * my_merge_sorted_lists.h: the earlier form of my_n_way_merge. It performs
 * the same steps: a spare slot copied from the first pair, the same initial
 * check, std::make_heap, then emit the root's head, advance the root and fix
 * it with std::pop_heap or replace_heap. Its comparator is a lambda that
 * compares two pairs by the elements their `first` iterators point at, which
 * is CompareFunction. So both entry points here run the NWayMerge model, and
 * the manual tests of my_merge_sorted_lists_test.cpp are proved against them.
 */
module MergeSortedLists {
  import opened Heap
  import opened Cursors
  import opened PairHeap
  import opened NWayMerge

  /** my_merge_sorted_lists over iterator pairs: appends the elements of all
      the pairs to `output`. Empty and invalid pairs contribute nothing; if
      every pair is sorted, so is what was appended. Each element appended is
      followed by exactly one heap fix-up: pop_heap once per non-empty pair,
      replace_heap otherwise. */
  method MergeSortedLists<T(!new)>(lists: seq<Cursor<T>>, output: seq<T>, cmp: (T, T) -> bool)
    returns (result: seq<T>, ghost popCalls: nat, ghost replaceCalls: nat)
    requires StrictWeakOrder(cmp)
    requires forall i :: 0 <= i < |lists| ==> Valid(lists[i])
    ensures |result| == |output| + |AllRemaining(lists)|
    ensures result[..|output|] == output
    ensures multiset(result[|output|..]) == multiset(AllRemaining(lists))
    ensures InputsSorted(lists, cmp) ==> SortedBy(result[|output|..], cmp)
    ensures popCalls == |LiveOf(lists)| && popCalls + replaceCalls == |result| - |output|
  {
    result, popCalls, replaceCalls := NWayMerge.NWayMerge(lists, output, cmp);
  }

  /** my_merge_sorted_lists over a range of containers: one
      (begin(), end()) pair per container, in order, merged as above. */
  method MergeSortedListsRange<T(!new)>(lists: seq<seq<T>>, output: seq<T>, cmp: (T, T) -> bool) returns (result: seq<T>)
    requires StrictWeakOrder(cmp)
    ensures |result| == |output| + TotalLength(lists)
    ensures result[..|output|] == output
    ensures multiset(result[|output|..]) == multiset(Flatten(lists))
    ensures (forall i :: 0 <= i < |lists| ==> SortedBy(lists[i], cmp)) ==> SortedBy(result[|output|..], cmp)
  {
    FlattenLength(lists);
    if |lists| == 0 {
      return output;
    }
    var inputs := PairsOf(lists);
    ghost var popCalls, replaceCalls;
    result, popCalls, replaceCalls := MergeSortedLists(inputs, output, cmp);
  }

  /** Dropping the first element keeps a list sorted. */
  lemma SortedTail<T>(s: seq<T>, cmp: (T, T) -> bool)
    requires SortedBy(s, cmp) && |s| > 0
    ensures SortedBy(s[1..], cmp)
  {
    forall i, j | 0 <= i < j < |s| - 1
      ensures !cmp(s[1..][i], s[1..][j])
    {
      assert s[1..][i] == s[i + 1] && s[1..][j] == s[j + 1];
    }
  }

  /** The first element of a list sorted ascending is not above any of its
      elements. */
  lemma AscendingHeadLeast(s: seq<int>, x: int)
    requires SortedBy(s, Greater) && x in multiset(s)
    ensures s[0] <= x
  {
    var j :| 0 <= j < |s| && s[j] == x;
    if j > 0 {
      assert !Greater(s[0], s[j]);
    }
  }

  /** Two ascending lists with the same elements are equal: the merged
      output is determined by its elements, which is what lets the manual
      tests compare it with a literal list. */
  lemma {:induction false} SortedUnique(a: seq<int>, b: seq<int>)
    requires SortedBy(a, Greater) && SortedBy(b, Greater)
    requires multiset(a) == multiset(b)
    ensures a == b
    decreases |a|
  {
    assert |b| == |multiset(b)| == |multiset(a)| == |a|;
    if |a| > 0 {
      assert a[0] in multiset(a) && b[0] in multiset(b);
      AscendingHeadLeast(a, b[0]);
      AscendingHeadLeast(b, a[0]);
      SameTails(a, b);
      SortedTail(a, Greater);
      SortedTail(b, Greater);
      SortedUnique(a[1..], b[1..]);
      SameHeadAndTail(a, b);
    }
  }

  /** Lists with the same elements and the same first element have tails
      with the same elements. */
  lemma SameTails<T>(a: seq<T>, b: seq<T>)
    requires |a| > 0 && |b| > 0 && a[0] == b[0]
    requires multiset(a) == multiset(b)
    ensures multiset(a[1..]) == multiset(b[1..])
  {
    MultisetRemoveHead(a);
    MultisetRemoveHead(b);
  }

  lemma SameHeadAndTail<T>(a: seq<T>, b: seq<T>)
    requires |a| > 0 && |b| > 0 && a[0] == b[0] && a[1..] == b[1..]
    ensures a == b
  {
    assert a == [a[0]] + a[1..] && b == [b[0]] + b[1..];
  }

  /** Every list is sorted ascending. */
  ghost predicate AllAscending(lists: seq<seq<int>>) {
    forall i :: 0 <= i < |lists| ==> SortedBy(lists[i], Greater)
  }

  /** `expected` is what merging `lists` ascending should give: sorted, with
      the elements of the lists. */
  ghost predicate MergedOf(expected: seq<int>, lists: seq<seq<int>>) {
    SortedBy(expected, Greater) && multiset(expected) == multiset(Flatten(lists))
  }

  /** manual_unit_test: merge with std::greater<int> into an empty vector;
      for sorted inputs the output equals `expected` exactly when `expected`
      is sorted and holds the elements of the inputs. */
  method ManualUnitTest(lists: seq<seq<int>>, expected: seq<int>) returns (output: seq<int>)
    requires AllAscending(lists)
    ensures output == expected <==> MergedOf(expected, lists)
  {
    GreaterIsStrictWeakOrder();
    output := MergeSortedListsRange(lists, [], Greater);
    assert output[0..] == output;
    if MergedOf(expected, lists) {
      SortedUnique(output, expected);
    }
  }

  /** The lists of manual_unit_tests. */
  const V1: seq<int> := [1, 9, 10, 11]
  const V2: seq<int> := [3]
  const V3: seq<int> := []
  const V4: seq<int> := [2, 4, 12, 13]
  const V5: seq<int> := [5, 6, 7, 8, 14, 15, 16, 17]

  /** A list whose neighbours are in ascending order is sorted ascending. */
  lemma {:induction false} StepwiseAscending(s: seq<int>)
    requires forall i :: 0 < i < |s| ==> s[i - 1] <= s[i]
    ensures SortedBy(s, Greater)
    decreases |s|
  {
    if |s| > 1 {
      StepwiseAscending(s[1..]);
      forall i, j | 0 <= i < j < |s|
        ensures !Greater(s[i], s[j])
      {
        assert s[j] == s[1..][j - 1];
        if i > 0 {
          assert s[i] == s[1..][i - 1];
        } else if j > 1 {
          assert s[1] == s[1..][0];
        }
      }
    }
  }

  lemma ListsSorted()
    ensures SortedBy(V1, Greater) && SortedBy(V2, Greater) && SortedBy(V3, Greater)
    ensures SortedBy(V4, Greater) && SortedBy(V5, Greater)
  {
    StepwiseAscending(V1);
    StepwiseAscending(V4);
    StepwiseAscending(V5);
  }

  lemma FlattenCons<T>(a: seq<T>, rest: seq<seq<T>>)
    ensures Flatten([a] + rest) == a + Flatten(rest)
  {
    assert ([a] + rest)[1..] == rest;
  }

  lemma AscendingCons(a: seq<int>, rest: seq<seq<int>>)
    requires SortedBy(a, Greater) && AllAscending(rest)
    ensures AllAscending([a] + rest)
  {
    forall i | 0 < i < |[a] + rest|
      ensures SortedBy(([a] + rest)[i], Greater)
    {
      assert ([a] + rest)[i] == rest[i - 1];
    }
  }

  /** The inputs of the manual tests, with one, two, three and five
      lists: all sorted, and holding their concatenation. */
  lemma OneList(x: seq<int>)
    requires SortedBy(x, Greater)
    ensures AllAscending([x]) && Flatten([x]) == x
  {
    FlattenCons(x, []);
    AscendingCons(x, []);
    assert [x] == [x] + [];
  }

  lemma TwoLists(x: seq<int>, y: seq<int>)
    requires SortedBy(x, Greater) && SortedBy(y, Greater)
    ensures AllAscending([x, y]) && Flatten([x, y]) == x + y
  {
    OneList(y);
    FlattenCons(x, [y]);
    AscendingCons(x, [y]);
    assert [x, y] == [x] + [y];
  }

  lemma ThreeLists(x: seq<int>, y: seq<int>, z: seq<int>)
    requires SortedBy(x, Greater) && SortedBy(y, Greater) && SortedBy(z, Greater)
    ensures AllAscending([x, y, z]) && Flatten([x, y, z]) == x + y + z
  {
    TwoLists(y, z);
    FlattenCons(x, [y, z]);
    AscendingCons(x, [y, z]);
    assert [x, y, z] == [x] + [y, z];
  }

  lemma FiveLists(v: seq<int>, w: seq<int>, x: seq<int>, y: seq<int>, z: seq<int>)
    requires SortedBy(v, Greater) && SortedBy(w, Greater)
    requires SortedBy(x, Greater) && SortedBy(y, Greater) && SortedBy(z, Greater)
    ensures AllAscending([v, w, x, y, z]) && Flatten([v, w, x, y, z]) == v + w + x + y + z
  {
    ThreeLists(x, y, z);
    FlattenCons(w, [x, y, z]);
    AscendingCons(w, [x, y, z]);
    FlattenCons(v, [w, x, y, z]);
    AscendingCons(v, [w, x, y, z]);
    assert [w, x, y, z] == [w] + [x, y, z];
    assert [v, w, x, y, z] == [v] + [w, x, y, z];
  }

  /** A non-empty list with more than one element. */
  method TestOneList() returns (output: seq<int>)
    ensures output == [1, 9, 10, 11]
  {
    ListsSorted();
    OneList(V1);
    output := ManualUnitTest([V1], V1);
  }

  /** A non-empty list with one element. */
  method TestOneElement() returns (output: seq<int>)
    ensures output == [3]
  {
    ListsSorted();
    OneList(V2);
    output := ManualUnitTest([V2], V2);
  }

  /** An empty list. */
  method TestEmptyList() returns (output: seq<int>)
    ensures output == []
  {
    ListsSorted();
    OneList(V3);
    output := ManualUnitTest([V3], V3);
  }

  /** A non-empty list followed by an empty one. */
  method TestNonEmptyThenEmpty() returns (output: seq<int>)
    ensures output == [1, 9, 10, 11]
  {
    ListsSorted();
    assert V1 + V3 == V1;
    TwoLists(V1, V3);
    output := ManualUnitTest([V1, V3], V1);
  }

  /** An empty list followed by a non-empty one. */
  method TestEmptyThenNonEmpty() returns (output: seq<int>)
    ensures output == [1, 9, 10, 11]
  {
    ListsSorted();
    assert V3 + V1 == V1;
    TwoLists(V3, V1);
    output := ManualUnitTest([V3, V1], V1);
  }

  /** Reordering pieces of a list does not change its elements. */
  lemma Rearrange3<T>(a: seq<T>, b: seq<T>, c: seq<T>)
    ensures multiset(a + b + c) == multiset(a + c + b)
  {
  }

  lemma Rearrange8<T>(a: seq<T>, b: seq<T>, c: seq<T>, d: seq<T>, e: seq<T>, f: seq<T>, g: seq<T>, h: seq<T>)
    ensures multiset(a + b + c + d + e + f + g + h) == multiset(a + d + c + e + g + b + f + h)
  {
  }

  /** {1, 3, 9, 10, 11}, sorted, has the elements of v1 and v2. */
  lemma TwoNonEmptyElements()
    ensures SortedBy([1, 3, 9, 10, 11], Greater)
    ensures multiset([1, 3, 9, 10, 11]) == multiset(V1 + V2)
  {
    StepwiseAscending([1, 3, 9, 10, 11]);
    var a, b, c := [1], [9, 10, 11], [3];
    assert V1 + V2 == a + b + c;
    assert [1, 3, 9, 10, 11] == a + c + b;
    Rearrange3(a, b, c);
  }

  /** Two non-empty lists. */
  method TestTwoNonEmpty() returns (output: seq<int>)
    ensures output == [1, 3, 9, 10, 11]
  {
    ListsSorted();
    TwoNonEmptyElements();
    TwoLists(V1, V2);
    output := ManualUnitTest([V1, V2], [1, 3, 9, 10, 11]);
  }

  /** Two empty lists. */
  method TestTwoEmpty() returns (output: seq<int>)
    ensures output == []
  {
    ListsSorted();
    assert V3 + V3 == V3;
    TwoLists(V3, V3);
    output := ManualUnitTest([V3, V3], V3);
  }

  /** An empty list, a non-empty one and another empty one. */
  method TestEmptyAround() returns (output: seq<int>)
    ensures output == [1, 9, 10, 11]
  {
    ListsSorted();
    assert V3 + V1 + V3 == V1;
    ThreeLists(V3, V1, V3);
    output := ManualUnitTest([V3, V1, V3], V1);
  }

  /** The numbers 1 to 17, the merge of all five lists. */
  const OneToSeventeen: seq<int> := [1, 2, 3, 4, 5, 6, 7, 8, 9, 10, 11, 12, 13, 14, 15, 16, 17]

  lemma OneToSeventeenSorted()
    ensures SortedBy(OneToSeventeen, Greater)
  {
    StepwiseAscending(OneToSeventeen);
  }

  /** The numbers 1 to 17 are the elements of the five lists. */
  lemma AllFiveElements()
    ensures multiset(OneToSeventeen) == multiset(V1 + V2 + V3 + V4 + V5)
  {
    var a, b, c, d, e, f, g, h := [1], [9, 10, 11], [3], [2], [4], [12, 13], [5, 6, 7, 8], [14, 15, 16, 17];
    assert V1 + V2 + V3 + V4 + V5 == a + b + c + d + e + f + g + h;
    assert OneToSeventeen == a + d + c + e + g + b + f + h;
    Rearrange8(a, b, c, d, e, f, g, h);
  }

  /** All five lists. */
  method TestAllFive() returns (output: seq<int>)
    ensures output == [1, 2, 3, 4, 5, 6, 7, 8, 9, 10, 11, 12, 13, 14, 15, 16, 17]
  {
    ListsSorted();
    OneToSeventeenSorted();
    AllFiveElements();
    FiveLists(V1, V2, V3, V4, V5);
    output := ManualUnitTest([V1, V2, V3, V4, V5], OneToSeventeen);
  }
}
