# N-way merge of sorted lists over a heap of iterator pairs — a Dafny model

The library has two parts. The first is a pair of root-replacement primitives
for binary heaps, `replace_heap` and `pushpop_heap` (`my_heap.h`). The second
is a k-way merge of sorted lists that keeps one `(first, second)` iterator pair
per list in a heap (`my_n_way_merge.h` and its earlier form
`my_merge_sorted_lists.h`). The heap's root always holds the pair whose
`*first` is the next element to emit. After each emitted element, `first` is
advanced and the heap is fixed once:

- with `std::pop_heap` when the pair has run out;
- with `replace_heap` otherwise.

This project models those functions in Dafny and proves what it promises:

- both primitives leave a heap with the right elements and the right scratch
  slot contents, and they have their no-op cases;
- the merge's output contains exactly the elements of the inputs;
- the output is sorted when the inputs are;
- the output is as long as the inputs together;
- there is one heap fix-up per emitted element;
- the concrete tests of `my_heap_test.cpp` and
  `my_merge_sorted_lists_test.cpp` hold.

Modules, one per source file, plus `Cursors` for the iterator pairs and `PairHeap` for the heap of pairs and the merge invariant:

- `Heap` (`heap.dfy`) covers `my_heap.h`: `replace_heap`, `pushpop_heap` and
  their `std::less` overloads. It also defines `SiftDown`, `PopHeap` and
  `MakeHeap`, which stand in for `std::pop_heap` and `std::make_heap`. The
  source calls those two functions but does not define them. The module also
  holds the manual tests of `my_heap_test.cpp`.
  - The heap occupies `a[0..n)` of an array with slot `i`'s children at
    `2i+1` and `2i+2`.
  - The comparator is a function value `comp` that must be a strict weak
    order.
  - The methods work in place on the array, as the source does.
- `Cursors` (`cursors.dfy`) covers the iterator pairs. A `Cursor` is a list
  value with two positions, `first` and `second`. The merges only move
  `first` and never write through it, so nothing the caller passes in is
  modified.
  - `Remaining` is what a pair still has to read.
  - `Pending` is all the elements still to be read, counted with multiplicity.
  - `LiveOf` is the pairs that are neither empty nor invalid.
- `PairHeap` (`pair_heap.dfy`) holds two things:
  - `CompareFunction`, which orders pairs by the elements their `first`
    points at;
  - `MergeState`, the invariant kept by the main loop of both merges, with
    the lemmas that establish it and carry it through one round.
- `NWayMerge` (`n_way_merge.dfy`) covers `my_n_way_merge.h`:
  - the initial check that drops empty and invalid pairs by copying the last
    unchecked pair over them, as an in-place loop on the heap array;
  - `std::make_heap`;
  - the main loop;
  - the range wrapper.
- `MergeSortedLists` (`merge_sorted_lists.dfy`) covers
  `my_merge_sorted_lists.h` and the manual tests of
  `my_merge_sorted_lists_test.cpp`.
  - Its iterator-pair function runs the same steps as `my_n_way_merge`. Its
    lambda comparator is `CompareFunction`. So it delegates to the
    `NWayMerge` model.
  - Its other differences from `my_n_way_merge` do not affect behaviour:
    `first++` inside `push_back`, `heap_size--` inside the `pop_heap` call,
    an unqualified `pop_heap`, and `begin()`/`end()` in place of
    `cbegin()`/`cend()` in the range wrapper.

Three conventions hold throughout:

- `Compare` is the heap comparator, not the sort order. Lists sorted
  ascending are merged with `std::greater`. A list is sorted for `cmp` when
  `SortedBy(list, cmp)` holds, which means no element compares below a later
  one.
- The output container is a `seq`, and `push_back` appends to it.
- The element type is generic. std::less and std::greater on `int` are the
  functions `Less` and `Greater`.

The heap is left alone exactly when `comp(*first, data)` holds
(`my_heap.h:52-53`), that is, when `data` would be popped straight back out.

## Model

| member | source | states |
|---|---|---|
| Heap.LessIsStrictWeakOrder | my_heap.h:29-33 | std::less, the default comparator of both overloads, is a strict weak order, as std::pop_heap requires |
| Heap.GreaterIsStrictWeakOrder | my_merge_sorted_lists_test.cpp:20 | std::greater<int>, the comparator the merge tests use, is a strict weak order |
| Heap.RootDominates | my_heap.h:13-14 | in a heap under comp, no slot compares above the root, shown by induction along the parent chain |
| Heap.RootIsGreatest | my_heap.h:13-14 | the root of a non-empty heap is a greatest element of its multiset |
| Heap.MaxHeapRoot | my_heap.h:13-14 | under std::less the root of a heap is its maximum |
| Heap.SiftSwap | my_heap.h:27 | swapping an out-of-place slot with its greatest child moves the one possible disorder down to that child |
| Heap.SiftStop | my_heap.h:27 | once the sifted element is not below its greatest child, every link from `start` down is in heap order |
| Heap.LeafStop | my_heap.h:27 | a sifted element that reached a slot without children leaves every link from `start` down in heap order |
| Heap.GreaterChild | my_heap.h:27 | the child picked is a child of k that no other child of k compares above |
| Heap.SiftStep | my_heap.h:27 | one swap of the sift keeps the sift invariant at the child, and keeps the multiset and everything past n |
| Heap.SiftDown | my_heap.h:27 | with every link below `start` in order, the sift leaves every link from `start` down in order, the same multiset and the slots past n untouched |
| Heap.SwapRootLast | my_heap.h:27 | std::pop_heap's first move: the old root lands in slot n-1, a[0..n-1) has the other elements, and only the new root may be out of place |
| Heap.NewRootKeepsLinksBelow | my_n_way_merge.h:80-90 | overwriting the root of a heap-below-the-root (by advancing its `first`, or by the swap in pop_heap) leaves the links below the root intact, on the region and on its prefix without the last slot |
| Heap.PopHeap | my_heap.h:27 | std::pop_heap on a[0..n): a[0..n-1) is a heap of every element but the old root, the old root is in slot n-1, and nothing past n changes |
| Heap.MakeHeap | my_n_way_merge.h:72 | std::make_heap: a[0..n) becomes a heap with the same multiset, and nothing else changes |
| Heap.ReplaceHeap | my_heap.h:16-28 | with at least two slots, `data` replaces the root: a heap over [0, last-1) holds the old elements minus the root plus `data`, the old root is in scratch slot last-1, and nothing past last changes; with fewer slots the array is unchanged |
| Heap.PushPopHeap | my_heap.h:43-56 | unchanged when there are under two slots or when comp(root, data) holds; otherwise exactly replace_heap. In every case the heap afterwards holds the old elements plus `data` minus the greater of root and `data` |
| Heap.PushPopDiscardsGreatest | my_heap.h:35-42 | what pushpop_heap discards is in the heap-plus-data and is a greatest element of it, which is push-then-pop |
| Heap.ReplaceHeapLess | my_heap.h:29-33 | replace_heap with the default comparator std::less: the same guarantees on a max-heap |
| Heap.PushPopHeapLess | my_heap.h:57-61 | pushpop_heap with std::less: unchanged when the root is below `data`, otherwise the root goes to scratch and `data` enters the max-heap |
| Heap.MaxHeapRootIs | my_heap_test.cpp:39 | a max-heap holding rest plus a maximum m has m at the root and rest below it |
| Heap.MakeHeapLess | my_heap_test.cpp:36 | make_heap with the default comparator yields a max-heap with the same elements |
| Heap.MakeHeapTestStep | my_heap_test.cpp:35-37 | the test's vector after make_heap is_heapified and has the same elements as its literal |
| Heap.ReplaceTestStep | my_heap_test.cpp:40-43 | push_back(0), replace_heap(data), pop_back(): the vector is a max-heap of the old elements with the maximum replaced by `data` |
| Heap.PushPopTestStep | my_heap_test.cpp:71-74 | the same through pushpop_heap: unchanged when `data` exceeds the maximum, otherwise the maximum is replaced by `data` |
| Heap.ReplaceStage1 | my_heap_test.cpp:35-43 | make_heap of {5,10,15,20,30} gives a max-heap of those elements, then replace_heap(35) gives a max-heap of {5,10,15,20,35} |
| Heap.ReplaceStage2 | my_heap_test.cpp:45-49 | replace_heap(21) gives a max-heap of {5,10,15,20,21} |
| Heap.ReplaceStage3 | my_heap_test.cpp:51-55 | replace_heap(14) gives a max-heap of {5,10,14,15,20} |
| Heap.ReplaceStage4 | my_heap_test.cpp:57-61 | replace_heap(8) gives a max-heap of {5,8,10,14,15} |
| Heap.ReplaceHeapScenario | my_heap_test.cpp:33-62 | every assertion of manual_unit_test_replace_heap holds: is_heapified after make_heap, and has_same_elements and is_heapified after each replacement |
| Heap.PushPopStage1 | my_heap_test.cpp:66-74 | pushpop_heap(35) on the max-heap of {5,10,15,20,30} leaves it exactly as it was |
| Heap.PushPopStage2 | my_heap_test.cpp:76-80 | pushpop_heap(21) gives a max-heap of {5,10,15,20,21} |
| Heap.PushPopStage3 | my_heap_test.cpp:82-86 | pushpop_heap(14) gives a max-heap of {5,10,14,15,20} |
| Heap.PushPopStage4 | my_heap_test.cpp:88-92 | pushpop_heap(8) gives a max-heap of {5,8,10,14,15} |
| Heap.PushPopHeapScenario | my_heap_test.cpp:64-93 | every assertion of manual_unit_test_pushpop_heap holds, including the untouched heap after pushing 35 |
| Cursors.Whole | my_n_way_merge.h:113-115 | the pair (cbegin(), cend()) is valid and reads exactly its container |
| Cursors.RemainingAdvance | my_n_way_merge.h:77-80 | reading `*first` and then `++first` splits what the pair holds into its head and what the advanced pair holds; the advanced pair is valid and has elements left iff `first != second` |
| Cursors.AdvanceKeepsSorted | my_n_way_merge.h:80 | advancing a sorted pair leaves it sorted |
| Cursors.HeadLeast | my_n_way_merge.h:76-77 | the head of a sorted pair is not below anything the pair still holds |
| Cursors.PendingIsAllRemaining | my_n_way_merge.h:37-40 | the pending multiset of some pairs is the multiset of everything they still hold, pair after pair |
| Cursors.PendingPermutation | my_n_way_merge.h:72 | rearranging the pairs, as make_heap and the heap fix-ups do, leaves the pending elements unchanged |
| Cursors.PendingLiveOf | my_n_way_merge.h:58 | empty and invalid pairs hold nothing, so dropping them leaves the pending elements unchanged |
| Cursors.LiveOfMembers | my_n_way_merge.h:58 | the pairs kept are exactly those with `first < second` |
| Cursors.LiveOfAppend | my_n_way_merge.h:56-69 | the live pairs of a concatenation are the live pairs of each part, in order |
| Cursors.InPending | my_n_way_merge.h:75-77 | each pending element is held by some pair |
| Cursors.AllRemainingWhole | my_n_way_merge.h:112-116 | whole-container pairs hold their containers one after the other |
| Cursors.FlattenLength | my_n_way_merge.h:96-119 | the containers one after the other are as long as their lengths added up |
| Cursors.PairsOf | my_n_way_merge.h:110-116 | the wrapper's loop builds one (cbegin(), cend()) pair per container, in order, together holding the containers' concatenation |
| PairHeap.CompareFunction | my_n_way_merge.h:24-34 | on two pairs that still have elements, the pair order is comp on the elements their `first` points at |
| PairHeap.CompareFunctionIsStrictWeakOrder | my_n_way_merge.h:47 | the pair order is a strict weak order whenever comp is, so std::make_heap and std::pop_heap may use it |
| PairHeap.InitialState | my_n_way_merge.h:71-75 | a heap of exactly the live pairs starts the main loop in its invariant, with nothing emitted |
| PairHeap.RootHeadLeast | my_n_way_merge.h:76-77 | for sorted pairs, the root's head is not above any element pending in the heap, so it is the right next output |
| PairHeap.AfterRoundMembers | my_n_way_merge.h:82-91 | after a round every pair in the heap is either the advanced root, still live, or a pair already there |
| PairHeap.AfterRoundPending | my_n_way_merge.h:77-91 | a round takes exactly the root's head out of the pending elements |
| PairHeap.MergeStep | my_n_way_merge.h:75-92 | one round keeps the invariant with the emitted head appended: heap, live pairs, emitted plus pending equal the inputs, and sorted output not above anything pending; and what was emitted is still fewer than the inputs |
| PairHeap.MergeStepSorted | my_n_way_merge.h:75-92 | for sorted inputs, the emitted list with the root's head appended is sorted and not above anything still pending |
| PairHeap.FinalState | my_n_way_merge.h:75 | when the heap is empty, what was emitted is a permutation of the inputs, as long as them, and sorted when they are |
| NWayMerge.DropLive | my_n_way_merge.h:63 | copying the last unchecked pair over an empty one leaves the live pairs of the unchecked range unchanged as a multiset |
| NWayMerge.DropStep | my_n_way_merge.h:58-67 | dropping an empty or invalid pair keeps the check invariant with the unchecked range one shorter |
| NWayMerge.KeepStep | my_n_way_merge.h:57-58 | keeping a live pair moves it into the checked part and keeps the check invariant |
| NWayMerge.CheckStart | my_n_way_merge.h:56-57 | before the check every pair is unchecked and the invariant holds |
| NWayMerge.DropEmptyListsDone | my_n_way_merge.h:57-69 | when nothing is left unchecked, the checked pairs are live and are a permutation of the live input pairs, and the spare slot is untouched |
| NWayMerge.CheckOne | my_n_way_merge.h:58-68 | one round of the check drops exactly when `first >= second` and keeps the invariant either way |
| NWayMerge.CheckLoop | my_n_way_merge.h:57-69 | the loop ends with every pair checked, in the check invariant |
| NWayMerge.DropEmptyLists | my_n_way_merge.h:55-69 | afterwards heap[0..heapSize) holds exactly the live input pairs, in some order, and the spare slot is untouched |
| NWayMerge.BuildHeap | my_n_way_merge.h:51-72 | the set-up yields a fresh buffer one slot longer than the input, whose first `heapSize` slots are a heap holding, as a multiset, exactly the live pairs of the input |
| NWayMerge.FixHeap | my_n_way_merge.h:82-91 | pops exactly when the advanced root has run out; either way a heap of the other pairs remains, plus the advanced root when it still has elements |
| NWayMerge.PopExhausted | my_n_way_merge.h:85-86 | std::pop_heap over the heap removes the root and leaves a heap of the others one slot shorter |
| NWayMerge.ReplaceRoot | my_n_way_merge.h:90 | replace_heap with the root itself as `data` restores the heap over the same slots with the same pairs |
| NWayMerge.MergeRound | my_n_way_merge.h:76-91 | one round emits the head of the old root and keeps the merge invariant with that element appended; it pops exactly when the advanced root has run out, shrinking the heap by one, and the heap then holds the other pairs plus, when not popped, the advanced root |
| NWayMerge.MergeLoop | my_n_way_merge.h:75-92 | the loop ends with an empty heap and everything pending emitted, appended to `output`; pop_heap ran once per live pair, and pop_heap plus replace_heap ran once per element |
| NWayMerge.NWayMerge | my_n_way_merge.h:37-93 | `output` is kept as a prefix, what is appended is a permutation of all the pairs' elements, as long as them, and sorted when every pair is; one fix-up per element; no pairs means no change |
| NWayMerge.NWayMergeRange | my_n_way_merge.h:96-119 | over containers: `output` is kept, and what is appended is a permutation of the containers' concatenation, as long as their total length, and sorted when each container is |
| MergeSortedLists.MergeSortedLists | my_merge_sorted_lists.h:17-59 | the same guarantees as my_n_way_merge: output prefix kept, permutation, total length, sorted for sorted inputs, one fix-up per element |
| MergeSortedLists.MergeSortedListsRange | my_merge_sorted_lists.h:62-83 | over containers with (begin(), end()) pairs: prefix kept, permutation of the concatenation, total length, sorted when each container is |
| MergeSortedLists.SortedUnique | my_merge_sorted_lists_test.cpp:24 | two ascending lists with the same elements are equal, which turns the merge's guarantees into `output == expected_results` |
| MergeSortedLists.ManualUnitTest | my_merge_sorted_lists_test.cpp:15-25 | for sorted inputs, manual_unit_test's assertion holds exactly when `expected` is sorted and has the inputs' elements |
| MergeSortedLists.StepwiseAscending | my_merge_sorted_lists_test.cpp:29-33 | a list ascending between neighbours is sorted ascending |
| MergeSortedLists.ListsSorted | my_merge_sorted_lists_test.cpp:29-33 | v1 to v5 of the tests are sorted ascending |
| MergeSortedLists.OneList | my_merge_sorted_lists_test.cpp:38 | a test input of one sorted list is all sorted and holds that list |
| MergeSortedLists.TwoLists | my_merge_sorted_lists_test.cpp:53-54 | a test input of two sorted lists is all sorted and holds their concatenation |
| MergeSortedLists.ThreeLists | my_merge_sorted_lists_test.cpp:77-79 | a test input of three sorted lists is all sorted and holds their concatenation |
| MergeSortedLists.FiveLists | my_merge_sorted_lists_test.cpp:84-88 | a test input of five sorted lists is all sorted and holds their concatenation |
| MergeSortedLists.TwoNonEmptyElements | my_merge_sorted_lists_test.cpp:64-68 | {1,3,9,10,11} is sorted and has the elements of v1 followed by v2 |
| MergeSortedLists.OneToSeventeenSorted | my_merge_sorted_lists_test.cpp:89-92 | 1 to 17 in order is sorted ascending |
| MergeSortedLists.AllFiveElements | my_merge_sorted_lists_test.cpp:83-92 | the five lists together hold exactly the numbers 1 to 17 |
| MergeSortedLists.TestOneList | my_merge_sorted_lists_test.cpp:37-40 | merging [v1] gives {1,9,10,11} |
| MergeSortedLists.TestOneElement | my_merge_sorted_lists_test.cpp:42-45 | merging [v2] gives {3} |
| MergeSortedLists.TestEmptyList | my_merge_sorted_lists_test.cpp:47-50 | merging [v3] gives {} |
| MergeSortedLists.TestNonEmptyThenEmpty | my_merge_sorted_lists_test.cpp:52-56 | merging [v1, v3] gives {1,9,10,11} |
| MergeSortedLists.TestEmptyThenNonEmpty | my_merge_sorted_lists_test.cpp:58-62 | merging [v3, v1] gives {1,9,10,11} |
| MergeSortedLists.TestTwoNonEmpty | my_merge_sorted_lists_test.cpp:64-68 | merging [v1, v2] gives {1,3,9,10,11} |
| MergeSortedLists.TestTwoEmpty | my_merge_sorted_lists_test.cpp:70-74 | merging [v3, v3] gives {} |
| MergeSortedLists.TestEmptyAround | my_merge_sorted_lists_test.cpp:76-81 | merging [v3, v1, v3] gives {1,9,10,11} |
| MergeSortedLists.TestAllFive | my_merge_sorted_lists_test.cpp:83-93 | merging all five lists gives 1 to 17 in order |

## Left out

- The `first` parameter of replace_heap and pushpop_heap is not modelled as an offset. The heap always starts at slot 0 of the array, because every call in the library passes `begin()`.
- Heap.PopHeap, Heap.MakeHeap: these are specified by the heap property, the multiset and the untouched slots only. The exact arrangement libstdc++ produces (its hole-based sift) is not modelled. PopHeap asks only that the links below the root hold (this is weaker than section 25.8.8.3 of C++20 demands). That is all the sift relies on, and it is what replace_heap and the merge provide.
- PairHeap.CompareFunction: the source dereferences `first` without a check. Two pairs that still have elements compare exactly as in the source. A pair with nothing left is ranked below all others, which keeps the order strict weak on every pair. The merge never compares such a pair, because the initial check drops them and an exhausted root is popped at once.
- The initial check's `--it` runs on `begin()` when the first pair is dropped. That forms an iterator before the start of the vector, and the following `++it` brings it back. The model checks the same slot again, which is what the code evidently means.
- Iterator kinds beyond positions into a list are not modelled: `const_iterator` versus `iterator`, and random access. Neither are the by-value copy of the pair vector and the `heap.push_back(heap.front())` reallocation. The model copies the pairs into a fresh array one slot longer.
- The output container is a sequence that only grows at its end. Any other effect of its `push_back` is not part of this model.
- Time complexity (O(M log N)) is not stated.
- Stability across lists is not stated. The source does not promise it, and the model says nothing about which list an equal element comes from.
- Heap.ReplaceTestStep, Heap.PushPopTestStep: the tests' `is_heapified` compares the vector with a copy rearranged by `std::make_heap`. `has_same_elements` compares sorted copies. The model states instead that the vector is a heap under std::less and has the same multiset. Equality with the make_heap copy depends on libstdc++'s layout.
- The random tests (`random_unit_tests` in both test files) are not modelled. They depend on `srandom`/`random` and `time`.
- my_debug_util.h is not part of this model (printing helpers only).
- `int` is unbounded here. The tests use small values, so C++'s `int` width plays no role.
