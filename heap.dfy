/**
 * Binary heaps over a prefix of an array, ordered by a caller-supplied
 * comparator, and the two root-replacement primitives of my_heap.h.
 *
 * A heap of size n occupies a[0..n): slot i has children 2i+1 and 2i+2, and
 * the heap property says that no parent compares below its child, i.e.
 * !comp(a[parent], a[child]). With `Less` the root is the maximum (a max-heap),
 * with `Greater` it is the minimum.
 *
 * SiftDown, PopHeap and MakeHeap stand in for std::pop_heap and
 * std::make_heap, which the source calls but does not define.
 */
module Heap {

  /** Irreflexive, transitive, and incomparability is transitive (equivalently,
      !comp is a total preorder): what C++ asks of a heap comparator. */
  ghost predicate StrictWeakOrder<T(!new)>(comp: (T, T) -> bool) {
    && (forall x :: !comp(x, x))
    && (forall x, y, z {:trigger comp(x, y), comp(y, z)} :: comp(x, y) && comp(y, z) ==> comp(x, z))
    && (forall x, y, z {:trigger comp(x, y), comp(y, z)} :: !comp(x, y) && !comp(y, z) ==> !comp(x, z))
  }

  /** std::less<int>, the default comparator of my_heap.h. */
  function Less(x: int, y: int): bool { x < y }

  /** std::greater<int>, the comparator the merge tests heapify with. */
  function Greater(x: int, y: int): bool { x > y }

  lemma LessIsStrictWeakOrder()
    ensures StrictWeakOrder(Less)
  {}

  lemma GreaterIsStrictWeakOrder()
    ensures StrictWeakOrder(Greater)
  {}

  function Parent(i: nat): nat
    requires i > 0
  {
    (i - 1) / 2
  }

  /** Every parent-child link of s whose parent index is at least `lo` and is
      not `skip` is in heap order. */
  ghost predicate LinksHold<T(!new)>(s: seq<T>, comp: (T, T) -> bool, lo: int, skip: int) {
    forall i :: 0 < i < |s| && lo <= Parent(i) && Parent(i) != skip ==> !comp(s[Parent(i)], s[i])
  }

  /** s is a heap under comp. */
  ghost predicate IsHeap<T(!new)>(s: seq<T>, comp: (T, T) -> bool) {
    LinksHold(s, comp, 0, -1)
  }

  /** s is a heap except, possibly, for the links that leave its root: what
      remains of a heap after its root has been overwritten. */
  ghost predicate IsHeapBelowRoot<T(!new)>(s: seq<T>, comp: (T, T) -> bool) {
    LinksHold(s, comp, 1, -1)
  }

  /** The root of a heap is not below any of its elements. */
  lemma {:induction false} RootDominates<T(!new)>(s: seq<T>, comp: (T, T) -> bool, i: nat)
    requires StrictWeakOrder(comp)
    requires IsHeap(s, comp)
    requires i < |s|
    ensures !comp(s[0], s[i])
    decreases i
  {
    if i > 0 {
      RootDominates(s, comp, Parent(i));
      assert !comp(s[Parent(i)], s[i]);
    }
  }

  /** The root of a heap is a greatest element of its multiset. */
  lemma RootIsGreatest<T(!new)>(s: seq<T>, comp: (T, T) -> bool)
    requires StrictWeakOrder(comp)
    requires IsHeap(s, comp)
    requires |s| > 0
    ensures forall x :: x in multiset(s) ==> !comp(s[0], x)
  {
    forall x | x in multiset(s)
      ensures !comp(s[0], x)
    {
      var i :| 0 <= i < |s| && s[i] == x;
      RootDominates(s, comp, i);
    }
  }

  /** Under the default comparator the root of a heap is its maximum. */
  lemma MaxHeapRoot(s: seq<int>)
    requires IsHeap(s, Less)
    requires |s| > 0
    ensures forall x :: x in multiset(s) ==> x <= s[0]
  {
    LessIsStrictWeakOrder();
    RootIsGreatest(s, Less);
  }

  /** The children of slot k are exactly 2k+1 and 2k+2. */
  lemma ParentOf(d: nat, k: nat)
    requires d > 0
    ensures Parent(d) == k <==> d == 2 * k + 1 || d == 2 * k + 2
  {}

  /** A greatest child of slot k in s. */
  ghost predicate GreatestChild<T(!new)>(s: seq<T>, comp: (T, T) -> bool, k: nat, c: nat) {
    0 < c < |s| && Parent(c) == k &&
    forall d :: 0 < d < |s| && Parent(d) == k ==> !comp(s[c], s[d])
  }

  /** While sifting, the element at k may be below its children, but the
      element above k is not below them. */
  ghost predicate SiftState<T(!new)>(s: seq<T>, comp: (T, T) -> bool, start: nat, k: nat) {
    && start <= k < |s|
    && LinksHold(s, comp, start, k)
    && (k != start ==> start <= Parent(k) && forall c :: 0 < c < |s| && Parent(c) == k ==> !comp(s[Parent(k)], s[c]))
  }

  /** Swapping k with a greatest child c that it is below moves the gap to c. */
  lemma SiftSwap<T(!new)>(s: seq<T>, t: seq<T>, comp: (T, T) -> bool, start: nat, k: nat, c: nat)
    requires StrictWeakOrder(comp)
    requires SiftState(s, comp, start, k)
    requires GreatestChild(s, comp, k, c) && comp(s[k], s[c])
    requires t == s[k := s[c]][c := s[k]]
    ensures SiftState(t, comp, start, c)
  {
    ParentOf(c, k);
    forall i | 0 < i < |t| && start <= Parent(i) && Parent(i) != c
      ensures !comp(t[Parent(i)], t[i])
    {
      if Parent(i) == k {
        if i == c {
          assert !comp(s[c], s[k]);
        } else {
          assert !comp(s[c], s[i]);
        }
      } else if i == k {
        assert !comp(s[Parent(k)], s[c]);
      } else {
        assert i != c;
      }
    }
    forall d | 0 < d < |t| && Parent(d) == c
      ensures !comp(t[Parent(c)], t[d])
    {
      ParentOf(d, c);
      assert Parent(d) != k;
    }
  }

  /** Once k is not below its greatest child, the whole subtree is in order. */
  lemma SiftStop<T(!new)>(s: seq<T>, comp: (T, T) -> bool, start: nat, k: nat, c: nat)
    requires StrictWeakOrder(comp)
    requires SiftState(s, comp, start, k)
    requires GreatestChild(s, comp, k, c) && !comp(s[k], s[c])
    ensures LinksHold(s, comp, start, -1)
  {
    forall i | 0 < i < |s| && start <= Parent(i) && Parent(i) == k
      ensures !comp(s[Parent(i)], s[i])
    {
      assert !comp(s[c], s[i]);
    }
  }

  lemma SwapMultiset<T>(s: seq<T>, i: nat, j: nat)
    requires i < |s| && j < |s|
    ensures multiset(s[i := s[j]][j := s[i]]) == multiset(s)
  {}

  /** The greater child of slot k of a[0..n); the left one on a tie. */
  method GreaterChild<T(!new)>(a: array<T>, n: nat, k: nat, comp: (T, T) -> bool) returns (child: nat)
    requires StrictWeakOrder(comp)
    requires n <= a.Length && 2 * k + 1 < n
    ensures GreatestChild(a[..n], comp, k, child)
  {
    child := 2 * k + 1;
    if child + 1 < n && comp(a[child], a[child + 1]) {
      child := child + 1;
    }
    forall d | 0 < d < n && Parent(d) == k
      ensures !comp(a[child], a[d])
    {
      ParentOf(d, k);
    }
    ParentOf(child, k);
  }

  /** One step of the sift: swap slot k with its greatest child. */
  method SiftStep<T(!new)>(a: array<T>, n: nat, start: nat, k: nat, child: nat, comp: (T, T) -> bool)
    requires StrictWeakOrder(comp)
    requires n <= a.Length
    requires SiftState(a[..n], comp, start, k)
    requires GreatestChild(a[..n], comp, k, child) && comp(a[k], a[child])
    modifies a
    ensures SiftState(a[..n], comp, start, child)
    ensures multiset(a[..n]) == old(multiset(a[..n]))
    ensures a[n..] == old(a[n..])
  {
    ghost var s, rest := a[..n], a[n..];
    a[k], a[child] := a[child], a[k];
    assert a[..n] == s[k := s[child]][child := s[k]];
    assert a[n..] == rest;
    SwapMultiset(s, k, child);
    SiftSwap(s, a[..n], comp, start, k, child);
  }

  /** Sift a[start] down through a[0..n) until its subtree is in heap order.
      Beforehand every link below `start` must hold; afterwards every link
      whose parent is at or below `start` holds. Slots from n on do not change. */
  method SiftDown<T(!new)>(a: array<T>, n: nat, start: nat, comp: (T, T) -> bool)
    requires StrictWeakOrder(comp)
    requires n <= a.Length && start < n
    requires LinksHold(a[..n], comp, start, start)
    modifies a
    ensures LinksHold(a[..n], comp, start, -1)
    ensures multiset(a[..n]) == old(multiset(a[..n]))
    ensures a[n..] == old(a[n..])
  {
    var k := start;
    while 2 * k + 1 < n
      invariant SiftState(a[..n], comp, start, k)
      invariant multiset(a[..n]) == old(multiset(a[..n]))
      invariant a[n..] == old(a[n..])
      decreases n - k
    {
      var child := GreaterChild(a, n, k, comp);
      if !comp(a[k], a[child]) {
        SiftStop(a[..n], comp, start, k, child);
        return;
      }
      SiftStep(a, n, start, k, child, comp);
      k := child;
    }
    LeafStop(a[..n], comp, start, k);
  }

  /** A slot without children closes the sift. */
  lemma LeafStop<T(!new)>(s: seq<T>, comp: (T, T) -> bool, start: nat, k: nat)
    requires SiftState(s, comp, start, k) && 2 * k + 1 >= |s|
    ensures LinksHold(s, comp, start, -1)
  {
    forall i | 0 < i < |s| && start <= Parent(i)
      ensures !comp(s[Parent(i)], s[i])
    {
      ParentOf(i, k);
    }
  }

  /** Overwriting the root of a sequence leaves the links below it alone,
      also on every prefix that drops the last slot. */
  lemma NewRootKeepsLinksBelow<T(!new)>(s: seq<T>, t: seq<T>, comp: (T, T) -> bool)
    requires |s| == |t| > 0 && t[1..] == s[1..]
    requires IsHeapBelowRoot(s, comp)
    ensures IsHeapBelowRoot(t, comp)
    ensures IsHeapBelowRoot(t[..|t| - 1], comp)
  {
    forall i | 0 < i < |t| && 1 <= Parent(i)
      ensures !comp(t[Parent(i)], t[i])
    {
      assert t[Parent(i)] == t[1..][Parent(i) - 1] == s[1..][Parent(i) - 1];
      assert t[i] == t[1..][i - 1];
    }
  }

  /** Swapping the first and last slots of s. */
  lemma RootSwapFacts<T>(s: seq<T>, t: seq<T>)
    requires |s| > 1 && t == s[0 := s[|s| - 1]][|s| - 1 := s[0]]
    ensures t[1..|t| - 1] == s[1..|s| - 1] && t[|t| - 1] == s[0]
    ensures multiset(t[..|t| - 1]) == multiset(s[1..])
  {
    var n := |s|;
    assert t[..n - 1] == [s[n - 1]] + s[1..n - 1];
    assert s[1..] == s[1..n - 1] + [s[n - 1]];
  }

  /** The first step of std::pop_heap: the root goes to slot n-1 and the
      last element of the heap becomes the new root, which may be out of place. */
  method SwapRootLast<T(!new)>(a: array<T>, n: nat, comp: (T, T) -> bool)
    requires 1 < n <= a.Length
    requires IsHeapBelowRoot(a[..n - 1], comp)
    modifies a
    ensures IsHeapBelowRoot(a[..n - 1], comp)
    ensures a[n - 1] == old(a[0])
    ensures multiset(a[..n - 1]) == old(multiset(a[1..n]))
    ensures a[n..] == old(a[n..])
  {
    ghost var s, rest := a[..n], a[n..];
    assert s[1..] == a[1..n];
    a[0], a[n - 1] := a[n - 1], a[0];
    assert a[..n] == s[0 := s[n - 1]][n - 1 := s[0]];
    assert a[n..] == rest;
    RootSwapFacts(s, a[..n]);
    assert a[..n][..n - 1] == a[..n - 1];
    NewRootKeepsLinksBelow(s[..n - 1], a[..n - 1], comp);
  }

  /** std::pop_heap on a[0..n) ([pop.heap], section 25.8.8.3 of C++20): swap
      the root into slot n-1, then make a[0..n-1) a heap again. Only the links
      of a[0..n-1) below its root are relied on, because the root is moved out. */
  method PopHeap<T(!new)>(a: array<T>, n: nat, comp: (T, T) -> bool)
    requires StrictWeakOrder(comp)
    requires 0 < n <= a.Length
    requires IsHeapBelowRoot(a[..n - 1], comp)
    modifies a
    ensures IsHeap(a[..n - 1], comp)
    ensures a[n - 1] == old(a[0])
    ensures multiset(a[..n - 1]) == old(multiset(a[1..n]))
    ensures a[n..] == old(a[n..])
  {
    if n > 1 {
      SwapRootLast(a, n, comp);
      ghost var mid := a[..];
      SiftDown(a, n - 1, 0, comp);
      assert a[n - 1] == a[n - 1..][0] == mid[n - 1..][0];
      assert a[n..] == a[n - 1..][1..];
    }
  }

  /** std::make_heap on a[0..n) ([make.heap], section 25.8.8.4 of C++20):
      rearrange a[0..n) into a heap, bottom-up. */
  method MakeHeap<T(!new)>(a: array<T>, n: nat, comp: (T, T) -> bool)
    requires StrictWeakOrder(comp)
    requires n <= a.Length
    modifies a
    ensures IsHeap(a[..n], comp)
    ensures multiset(a[..n]) == old(multiset(a[..n]))
    ensures a[n..] == old(a[n..])
  {
    var start := n / 2;
    while start > 0
      invariant start <= n / 2
      invariant LinksHold(a[..n], comp, start, -1)
      invariant multiset(a[..n]) == old(multiset(a[..n]))
      invariant a[n..] == old(a[n..])
    {
      start := start - 1;
      SiftDown(a, n, start, comp);
    }
  }

  /** replace_heap (my_heap.h): the heap is a[0..last-1) and slot last-1 is
      scratch. `data` takes the root's place in the heap, the old root ends up
      in the scratch slot, and nothing past `last` changes. With fewer than two
      slots nothing happens at all. */
  method ReplaceHeap<T(!new)>(a: array<T>, last: nat, data: T, comp: (T, T) -> bool)
    requires StrictWeakOrder(comp)
    requires last <= a.Length
    requires last >= 2 ==> IsHeapBelowRoot(a[..last - 1], comp)
    modifies a
    ensures last <= 1 ==> a[..] == old(a[..])
    ensures last >= 2 ==>
      && IsHeap(a[..last - 1], comp)
      && a[last - 1] == old(a[0])
      && multiset(a[..last - 1]) == old(multiset(a[1..last - 1])) + multiset{data}
      && a[last..] == old(a[last..])
  {
    if last <= 1 {
      return;
    }
    ghost var s := a[..last];
    a[last - 1] := data;
    assert a[..last - 1] == s[..last - 1];
    assert a[1..last] == s[1..last - 1] + [data];
    PopHeap(a, last, comp);
  }

  /** The element pushpop_heap discards: the greater of the root and `data`. */
  function PushPopDiscarded<T>(root: T, data: T, comp: (T, T) -> bool): T {
    if comp(root, data) then data else root
  }

  /** pushpop_heap (my_heap.h): push `data`, then pop the greatest. When the
      root is below `data`, `data` itself would be popped straight away and the
      buffer is left exactly as it was; otherwise this is replace_heap. */
  method PushPopHeap<T(!new)>(a: array<T>, last: nat, data: T, comp: (T, T) -> bool)
    requires StrictWeakOrder(comp)
    requires last <= a.Length
    requires last >= 2 ==> IsHeap(a[..last - 1], comp)
    modifies a
    ensures last <= 1 || comp(old(a[0]), data) ==> a[..] == old(a[..])
    ensures last >= 2 && !comp(old(a[0]), data) ==>
      && a[last - 1] == old(a[0])
      && multiset(a[..last - 1]) == old(multiset(a[1..last - 1])) + multiset{data}
      && a[last..] == old(a[last..])
    ensures last >= 2 ==>
      && IsHeap(a[..last - 1], comp)
      && multiset(a[..last - 1]) == old(multiset(a[..last - 1])) + multiset{data} - multiset{PushPopDiscarded(old(a[0]), data, comp)}
  {
    if last <= 1 {
      return;
    }
    if comp(a[0], data) {
      return;
    }
    ghost var s := a[..last - 1];
    assert s == [s[0]] + s[1..];
    ReplaceHeap(a, last, data, comp);
  }

  /** What pushpop_heap discards is a greatest element of the heap with `data`
      added, so the heap keeps the smaller ones, as push-then-pop would. */
  lemma PushPopDiscardsGreatest<T(!new)>(s: seq<T>, data: T, comp: (T, T) -> bool)
    requires StrictWeakOrder(comp)
    requires IsHeap(s, comp)
    requires |s| > 0
    ensures PushPopDiscarded(s[0], data, comp) in multiset(s) + multiset{data}
    ensures forall x :: x in multiset(s) + multiset{data} ==> !comp(PushPopDiscarded(s[0], data, comp), x)
  {
    RootIsGreatest(s, comp);
  }

  /** replace_heap with the default comparator std::less (a max-heap). */
  method ReplaceHeapLess(a: array<int>, last: nat, data: int)
    requires last <= a.Length
    requires last >= 2 ==> IsHeapBelowRoot(a[..last - 1], Less)
    modifies a
    ensures last <= 1 ==> a[..] == old(a[..])
    ensures last >= 2 ==>
      && IsHeap(a[..last - 1], Less)
      && a[last - 1] == old(a[0])
      && multiset(a[..last - 1]) == old(multiset(a[1..last - 1])) + multiset{data}
      && a[last..] == old(a[last..])
  {
    LessIsStrictWeakOrder();
    ReplaceHeap(a, last, data, Less);
  }

  /** pushpop_heap with the default comparator std::less (a max-heap). */
  method PushPopHeapLess(a: array<int>, last: nat, data: int)
    requires last <= a.Length
    requires last >= 2 ==> IsHeap(a[..last - 1], Less)
    modifies a
    ensures last <= 1 || old(a[0]) < data ==> a[..] == old(a[..])
    ensures last >= 2 && old(a[0]) >= data ==>
      && a[last - 1] == old(a[0])
      && multiset(a[..last - 1]) == old(multiset(a[1..last - 1])) + multiset{data}
      && a[last..] == old(a[last..])
    ensures last >= 2 ==> IsHeap(a[..last - 1], Less)
  {
    LessIsStrictWeakOrder();
    PushPopHeap(a, last, data, Less);
  }

  /** A max-heap holding rest + [m], with m not below anything in rest, has m
      at its root and rest below it. */
  lemma MaxHeapRootIs(s: seq<int>, m: int, rest: seq<int>)
    requires IsHeap(s, Less) && multiset(s) == multiset(rest + [m])
    requires forall x :: x in rest ==> x <= m
    ensures s[0] == m
    ensures multiset(s[1..]) == multiset(rest)
  {
    MaxHeapRoot(s);
    assert multiset(rest + [m]) == multiset(rest) + multiset{m};
    assert m in multiset(s);
    assert s[0] in multiset(rest) + multiset{m};
    if s[0] in multiset(rest) {
      assert s[0] in rest;
    }
    assert s == [s[0]] + s[1..];
    assert multiset(s[1..]) == multiset(s) - multiset{s[0]};
  }

  /** std::make_heap with its default comparator std::less, as the tests call it. */
  method MakeHeapLess(a: array<int>, n: nat)
    requires n <= a.Length
    modifies a
    ensures IsHeap(a[..n], Less)
    ensures multiset(a[..n]) == old(multiset(a[..n]))
    ensures a[n..] == old(a[n..])
  {
    LessIsStrictWeakOrder();
    MakeHeap(a, n, Less);
  }

  /** The test's vector v holding h, made into a heap with the default
      std::make_heap. */
  method MakeHeapTestStep(h: seq<int>) returns (h': seq<int>)
    ensures IsHeap(h', Less) && multiset(h') == multiset(h)
  {
    var v := new int[|h|](i requires 0 <= i < |h| => h[i]);
    assert v[..] == v[..|h|] == h;
    MakeHeapLess(v, |h|);
    assert v[..] == v[..|h|];
    h' := v[..];
  }

  /** One step of the manual tests: h is a max-heap holding rest + [m]; as
      the test does, a scratch slot is pushed, `data` goes in through
      replace_heap, and the scratch slot is popped again, leaving rest + [data]. */
  method ReplaceTestStep(h: seq<int>, data: int, ghost m: int, ghost rest: seq<int>, ghost expected: seq<int>)
    returns (h': seq<int>)
    requires IsHeap(h, Less) && multiset(h) == multiset(rest + [m])
    requires forall x :: x in rest ==> x <= m
    requires multiset(expected) == multiset(rest + [data])
    ensures IsHeap(h', Less) && multiset(h') == multiset(expected)
  {
    MaxHeapRootIs(h, m, rest);
    var v := new int[|h| + 1](i requires 0 <= i <= |h| => if i < |h| then h[i] else 0);
    assert v[..|h|] == h;
    assert v[1..|h|] == h[1..];
    ReplaceHeapLess(v, |h| + 1, data);
    h' := v[..|h|];
  }

  /** The same step through pushpop_heap: nothing changes when `data` exceeds
      the maximum, otherwise `data` displaces it. */
  method PushPopTestStep(h: seq<int>, data: int, ghost m: int, ghost rest: seq<int>, ghost expected: seq<int>)
    returns (h': seq<int>)
    requires IsHeap(h, Less) && multiset(h) == multiset(rest + [m])
    requires forall x :: x in rest ==> x <= m
    requires multiset(expected) == multiset(rest + [if m < data then m else data])
    ensures IsHeap(h', Less) && multiset(h') == multiset(expected)
    ensures m < data ==> h' == h
  {
    MaxHeapRootIs(h, m, rest);
    var v := new int[|h| + 1](i requires 0 <= i <= |h| => if i < |h| then h[i] else 0);
    assert v[..|h|] == h;
    assert v[1..|h|] == h[1..];
    PushPopHeapLess(v, |h| + 1, data);
    h' := v[..|h|];
  }

  /** The element lists the manual tests compare against, each written as
      the elements below its maximum followed by that maximum (one lemma per
      list keeps each proof small). */
  lemma TestMultiset30()
    ensures multiset([5, 10, 15, 20, 30]) == multiset([5, 10, 15, 20] + [30])
  {
    assert [5, 10, 15, 20, 30] == [5, 10, 15, 20] + [30];
  }

  lemma TestMultiset35()
    ensures multiset([5, 10, 15, 20, 35]) == multiset([5, 10, 15, 20] + [35])
  {
    assert [5, 10, 15, 20, 35] == [5, 10, 15, 20] + [35];
  }

  lemma TestMultiset21()
    ensures multiset([5, 10, 15, 20, 21]) == multiset([5, 10, 15, 20] + [21])
  {
    assert [5, 10, 15, 20, 21] == [5, 10, 15, 20] + [21];
  }

  lemma TestMultiset14()
    ensures multiset([5, 10, 14, 15, 20]) == multiset([5, 10, 15, 20] + [14])
    ensures multiset([5, 10, 14, 15, 20]) == multiset([5, 10, 14, 15] + [20])
  {
    assert [5, 10, 14, 15, 20] == [5, 10, 14, 15] + [20];
  }

  lemma TestMultiset8()
    ensures multiset([5, 8, 10, 14, 15]) == multiset([5, 10, 14, 15] + [8])
  {
  }

  /** An assertion of the manual tests: h is a max-heap (is_heapified) with
      the same elements as `expected` (has_same_elements). */
  ghost predicate HeapWith(h: seq<int>, expected: seq<int>) {
    IsHeap(h, Less) && multiset(h) == multiset(expected)
  }

  method ReplaceStage1() returns (h0: seq<int>, h1: seq<int>)
    ensures HeapWith(h0, [5, 10, 15, 20, 30])
    ensures HeapWith(h1, [5, 10, 15, 20, 35])
  {
    TestMultiset30(); TestMultiset35();
    h0 := MakeHeapTestStep([5, 10, 15, 20, 30]);
    h1 := ReplaceTestStep(h0, 35, 30, [5, 10, 15, 20], [5, 10, 15, 20, 35]);
  }

  method ReplaceStage2(h1: seq<int>) returns (h2: seq<int>)
    requires HeapWith(h1, [5, 10, 15, 20, 35])
    ensures HeapWith(h2, [5, 10, 15, 20, 21])
  {
    TestMultiset35(); TestMultiset21();
    h2 := ReplaceTestStep(h1, 21, 35, [5, 10, 15, 20], [5, 10, 15, 20, 21]);
  }

  method ReplaceStage3(h2: seq<int>) returns (h3: seq<int>)
    requires HeapWith(h2, [5, 10, 15, 20, 21])
    ensures HeapWith(h3, [5, 10, 14, 15, 20])
  {
    TestMultiset21(); TestMultiset14();
    h3 := ReplaceTestStep(h2, 14, 21, [5, 10, 15, 20], [5, 10, 14, 15, 20]);
  }

  method ReplaceStage4(h3: seq<int>) returns (h4: seq<int>)
    requires HeapWith(h3, [5, 10, 14, 15, 20])
    ensures HeapWith(h4, [5, 8, 10, 14, 15])
  {
    TestMultiset14(); TestMultiset8();
    h4 := ReplaceTestStep(h3, 8, 20, [5, 10, 14, 15], [5, 8, 10, 14, 15]);
  }

  /** The manual replace_heap test of my_heap_test.cpp: a max-heap of
      {5, 10, 15, 20, 30} with 35, 21, 14 and 8 put in turn at the root. */
  method ReplaceHeapScenario() returns (h0: seq<int>, h1: seq<int>, h2: seq<int>, h3: seq<int>, h4: seq<int>)
    ensures HeapWith(h0, [5, 10, 15, 20, 30])
    ensures HeapWith(h1, [5, 10, 15, 20, 35])
    ensures HeapWith(h2, [5, 10, 15, 20, 21])
    ensures HeapWith(h3, [5, 10, 14, 15, 20])
    ensures HeapWith(h4, [5, 8, 10, 14, 15])
  {
    h0, h1 := ReplaceStage1();
    h2 := ReplaceStage2(h1);
    h3 := ReplaceStage3(h2);
    h4 := ReplaceStage4(h3);
  }

  method PushPopStage1() returns (h0: seq<int>, h1: seq<int>)
    ensures HeapWith(h1, [5, 10, 15, 20, 30]) && h1 == h0
  {
    TestMultiset30();
    h0 := MakeHeapTestStep([5, 10, 15, 20, 30]);
    h1 := PushPopTestStep(h0, 35, 30, [5, 10, 15, 20], [5, 10, 15, 20, 30]);
  }

  method PushPopStage2(h1: seq<int>) returns (h2: seq<int>)
    requires HeapWith(h1, [5, 10, 15, 20, 30])
    ensures HeapWith(h2, [5, 10, 15, 20, 21])
  {
    TestMultiset30(); TestMultiset21();
    h2 := PushPopTestStep(h1, 21, 30, [5, 10, 15, 20], [5, 10, 15, 20, 21]);
  }

  method PushPopStage3(h2: seq<int>) returns (h3: seq<int>)
    requires HeapWith(h2, [5, 10, 15, 20, 21])
    ensures HeapWith(h3, [5, 10, 14, 15, 20])
  {
    TestMultiset21(); TestMultiset14();
    h3 := PushPopTestStep(h2, 14, 21, [5, 10, 15, 20], [5, 10, 14, 15, 20]);
  }

  method PushPopStage4(h3: seq<int>) returns (h4: seq<int>)
    requires HeapWith(h3, [5, 10, 14, 15, 20])
    ensures HeapWith(h4, [5, 8, 10, 14, 15])
  {
    TestMultiset14(); TestMultiset8();
    h4 := PushPopTestStep(h3, 8, 20, [5, 10, 14, 15], [5, 8, 10, 14, 15]);
  }

  /** The manual pushpop_heap test of my_heap_test.cpp: pushing 35 into the
      max-heap of {5, 10, 15, 20, 30} changes nothing; 21, 14 and 8 then each
      displace the maximum. */
  method PushPopHeapScenario() returns (h0: seq<int>, h1: seq<int>, h2: seq<int>, h3: seq<int>, h4: seq<int>)
    ensures HeapWith(h1, [5, 10, 15, 20, 30]) && h1 == h0
    ensures HeapWith(h2, [5, 10, 15, 20, 21])
    ensures HeapWith(h3, [5, 10, 14, 15, 20])
    ensures HeapWith(h4, [5, 8, 10, 14, 15])
  {
    h0, h1 := PushPopStage1();
    h2 := PushPopStage2(h1);
    h3 := PushPopStage3(h2);
    h4 := PushPopStage4(h3);
  }
}
