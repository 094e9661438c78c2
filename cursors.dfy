/**
 * The (first, second) iterator pairs both merges work on, and what is left
 * to read through them.
 *
 * A pair denotes the range [first, second) of one sorted list. The merges
 * move `first` forward and never write through it, so a list is a value
 * here and a pair is that list with the two positions.
 */
module Cursors {
  import opened Heap

  /** A std::pair of iterators into `list`: `first` and `second` are
      positions, 0 being begin() and |list| being end(). */
  datatype Cursor<T> = Cursor(list: seq<T>, first: nat, second: nat)

  /** Both iterators point into the list or one past its end, as any
      iterator the caller can form does; first > second is allowed and is
      what the merges call an invalid list. */
  predicate Valid<T>(c: Cursor<T>) {
    c.first <= |c.list| && c.second <= |c.list|
  }

  /** The pair still has an element to read. For a valid pair this is the
      negation of the test `first >= second` of the merges. */
  predicate Live<T>(c: Cursor<T>) {
    c.first < c.second <= |c.list|
  }

  /** The element `*first`. */
  function Head<T>(c: Cursor<T>): T
    requires Live(c)
  {
    c.list[c.first]
  }

  /** The pair after `++first`. */
  function Advance<T>(c: Cursor<T>): Cursor<T> {
    c.(first := c.first + 1)
  }

  /** The elements still to be read through c: [first, second), or nothing
      for an empty or invalid pair. */
  function Remaining<T>(c: Cursor<T>): seq<T> {
    if Live(c) then c.list[c.first..c.second] else []
  }

  /** Everything still to be read through the pairs of cs, pair by pair. */
  function AllRemaining<T>(cs: seq<Cursor<T>>): seq<T> {
    if |cs| == 0 then [] else Remaining(cs[0]) + AllRemaining(cs[1..])
  }

  /** The pairs of cs that still have elements, in order. */
  function LiveOf<T>(cs: seq<Cursor<T>>): seq<Cursor<T>> {
    if |cs| == 0 then []
    else if Live(cs[0]) then [cs[0]] + LiveOf(cs[1..])
    else LiveOf(cs[1..])
  }

  /** The lists one after the other. */
  function Flatten<T>(lists: seq<seq<T>>): seq<T> {
    if |lists| == 0 then [] else lists[0] + Flatten(lists[1..])
  }

  /** The sum of the lengths of the lists. */
  function TotalLength<T>(lists: seq<seq<T>>): nat {
    if |lists| == 0 then 0 else |lists[0]| + TotalLength(lists[1..])
  }

  /** The pair (begin(), end()) over a whole list. */
  function Whole<T>(list: seq<T>): (c: Cursor<T>)
    ensures Valid(c) && Remaining(c) == list
  {
    Cursor(list, 0, |list|)
  }

  /** No element of s compares below a later one: s is sorted in the order
      whose "greater" relation is cmp (with std::greater, ascending). */
  ghost predicate SortedBy<T>(s: seq<T>, cmp: (T, T) -> bool) {
    forall i, j :: 0 <= i < j < |s| ==> !cmp(s[i], s[j])
  }

  /** Reading one element: a live pair gives up its head and becomes its
      advanced pair, which is still valid and no longer has the head. */
  lemma RemainingAdvance<T>(c: Cursor<T>)
    requires Live(c)
    ensures Remaining(c) == [Head(c)] + Remaining(Advance(c))
    ensures Valid(Advance(c))
    ensures Live(Advance(c)) <==> Advance(c).first != c.second
  {
    if Live(Advance(c)) {
      assert c.list[c.first..c.second] == [c.list[c.first]] + c.list[c.first + 1..c.second];
    }
  }

  /** What remains of an advanced pair is a suffix of what remained, so a
      sorted pair stays sorted. */
  lemma AdvanceKeepsSorted<T>(c: Cursor<T>, cmp: (T, T) -> bool)
    requires Live(c) && SortedBy(Remaining(c), cmp)
    ensures SortedBy(Remaining(Advance(c)), cmp)
  {
    RemainingAdvance(c);
    var s, t := Remaining(c), Remaining(Advance(c));
    forall i, j | 0 <= i < j < |t|
      ensures !cmp(t[i], t[j])
    {
      assert t[i] == s[i + 1] && t[j] == s[j + 1];
    }
  }

  /** The head of a sorted pair is not below anything the pair still holds. */
  lemma HeadLeast<T(!new)>(c: Cursor<T>, cmp: (T, T) -> bool, x: T)
    requires Live(c) && SortedBy(Remaining(c), cmp)
    requires StrictWeakOrder(cmp)
    requires x in Remaining(c)
    ensures !cmp(Head(c), x)
  {
    var s := Remaining(c);
    var j :| 0 <= j < |s| && s[j] == x;
    assert s[0] == Head(c);
    if j > 0 {
      assert !cmp(s[0], s[j]);
    }
  }

  /** The elements still to be read through c, counted with multiplicity. */
  ghost function Elements<T>(c: Cursor<T>): multiset<T> {
    multiset(Remaining(c))
  }

  /** The union of f over the items of xs. */
  ghost function SumOf<X, T>(xs: seq<X>, f: X -> multiset<T>): multiset<T> {
    if |xs| == 0 then multiset{} else f(xs[0]) + SumOf(xs[1..], f)
  }

  /** The elements still to be read through the pairs of cs, counted with
      multiplicity. */
  ghost function Pending<T>(cs: seq<Cursor<T>>): multiset<T> {
    SumOf(cs, Elements)
  }

  /** Taking the item at k out of xs takes exactly f of it out of the sum. */
  lemma {:induction false} SumRemove<X, T>(xs: seq<X>, f: X -> multiset<T>, k: nat)
    requires k < |xs|
    ensures SumOf(xs, f) == f(xs[k]) + SumOf(xs[..k] + xs[k + 1..], f)
    decreases k
  {
    if k == 0 {
      assert xs[..0] + xs[1..] == xs[1..];
    } else {
      var t := xs[1..];
      SumRemove(t, f, k - 1);
      var rest := xs[..k] + xs[k + 1..];
      assert rest[0] == xs[0] && rest[1..] == t[..k - 1] + t[k..];
    }
  }

  lemma MultisetRemoveAt<X>(y: seq<X>, k: nat)
    requires k < |y|
    ensures multiset(y[..k] + y[k + 1..]) == multiset(y) - multiset{y[k]}
  {
    assert y == y[..k] + [y[k]] + y[k + 1..];
  }

  lemma MultisetRemoveHead<X>(x: seq<X>)
    requires |x| > 0
    ensures multiset(x[1..]) == multiset(x) - multiset{x[0]}
  {
    assert x == [x[0]] + x[1..];
  }

  lemma IndexOf<X>(y: seq<X>, v: X) returns (k: nat)
    requires v in multiset(y)
    ensures k < |y| && y[k] == v
  {
    k :| 0 <= k < |y| && y[k] == v;
  }

  /** The sum does not depend on the order of the items. */
  lemma {:induction false} SumPermutation<X, T>(x: seq<X>, y: seq<X>, f: X -> multiset<T>)
    requires multiset(x) == multiset(y)
    ensures SumOf(x, f) == SumOf(y, f)
    decreases |x|
  {
    if |x| > 0 {
      var k := IndexOf(y, x[0]);
      SumRemove(y, f, k);
      MultisetRemoveAt(y, k);
      MultisetRemoveHead(x);
      SumPermutation(x[1..], y[..k] + y[k + 1..], f);
    }
  }

  /** Pending counts what AllRemaining lists. */
  lemma {:induction false} PendingIsAllRemaining<T>(cs: seq<Cursor<T>>)
    ensures Pending(cs) == multiset(AllRemaining(cs))
    decreases |cs|
  {
    if |cs| > 0 {
      PendingIsAllRemaining(cs[1..]);
    }
  }

  /** Which pair holds an element does not change how many times it is still
      to be read: rearranging the pairs leaves Pending alone. */
  lemma PendingPermutation<T>(x: seq<Cursor<T>>, y: seq<Cursor<T>>)
    requires multiset(x) == multiset(y)
    ensures Pending(x) == Pending(y)
  {
    SumPermutation(x, y, Elements);
  }

  /** Empty and invalid pairs contribute nothing. */
  lemma {:induction false} PendingLiveOf<T>(cs: seq<Cursor<T>>)
    ensures Pending(LiveOf(cs)) == Pending(cs)
    decreases |cs|
  {
    if |cs| > 0 {
      PendingLiveOf(cs[1..]);
      if Live(cs[0]) {
        assert ([cs[0]] + LiveOf(cs[1..]))[1..] == LiveOf(cs[1..]);
      }
    }
  }

  /** LiveOf keeps exactly the live pairs of cs. */
  lemma {:induction false} LiveOfMembers<T>(cs: seq<Cursor<T>>)
    ensures forall c :: c in LiveOf(cs) <==> c in cs && Live(c)
    decreases |cs|
  {
    if |cs| > 0 {
      LiveOfMembers(cs[1..]);
      assert cs == [cs[0]] + cs[1..];
    }
  }

  lemma {:induction false} LiveOfAppend<T>(x: seq<Cursor<T>>, y: seq<Cursor<T>>)
    ensures LiveOf(x + y) == LiveOf(x) + LiveOf(y)
    decreases |x|
  {
    if |x| > 0 {
      assert (x + y)[0] == x[0] && (x + y)[1..] == x[1..] + y;
      LiveOfAppend(x[1..], y);
    } else {
      assert x + y == y;
    }
  }

  /** Each pending element is pending in one particular pair. */
  lemma {:induction false} InPending<T>(cs: seq<Cursor<T>>, x: T)
    requires x in Pending(cs)
    ensures exists c :: c in cs && x in Remaining(c)
    decreases |cs|
  {
    if x !in Elements(cs[0]) {
      InPending(cs[1..], x);
      var c :| c in cs[1..] && x in Remaining(c);
      assert c in cs;
    }
  }

  /** The whole-list pairs of some lists hold exactly those lists, in order. */
  lemma {:induction false} AllRemainingWhole<T>(cs: seq<Cursor<T>>, lists: seq<seq<T>>)
    requires |cs| == |lists|
    requires forall i :: 0 <= i < |cs| ==> cs[i] == Whole(lists[i])
    ensures AllRemaining(cs) == Flatten(lists)
    decreases |cs|
  {
    if |cs| > 0 {
      AllRemainingWhole(cs[1..], lists[1..]);
    }
  }

  lemma {:induction false} FlattenLength<T>(lists: seq<seq<T>>)
    ensures |Flatten(lists)| == TotalLength(lists)
    decreases |lists|
  {
    if |lists| > 0 {
      FlattenLength(lists[1..]);
    }
  }

  /** The loop of both range wrappers: one whole-list pair per list, in the
      order of the lists. */
  method PairsOf<T>(lists: seq<seq<T>>) returns (inputs: seq<Cursor<T>>)
    ensures |inputs| == |lists|
    ensures forall i :: 0 <= i < |lists| ==> inputs[i] == Whole(lists[i])
    ensures AllRemaining(inputs) == Flatten(lists)
  {
    inputs := [];
    for i := 0 to |lists|
      invariant |inputs| == i
      invariant forall j :: 0 <= j < i ==> inputs[j] == Whole(lists[j])
    {
      inputs := inputs + [Whole(lists[i])];
    }
    AllRemainingWhole(inputs, lists);
  }
}
