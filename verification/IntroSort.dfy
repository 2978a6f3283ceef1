/**
 The in-place sort of the engine: quicksort by median of three with a depth budget, heapsort
 when the budget is spent, insertion sort on short stretches, and a first scan that leaves an
 already ordered tail alone.
 */
module IntroSort {
  import opened Arithmetic

  ghost predicate TotalOrder<T(!new)>(less: (T, T) -> bool) {
    && (forall x, y :: less(x, y) || x == y || less(y, x))
    && (forall x, y :: less(x, y) ==> x != y && !less(y, x))
    && (forall x, y, z :: less(x, y) && less(y, z) ==> less(x, z))
  }

  lemma NotLessTransitive<T(!new)>(less: (T, T) -> bool, x: T, y: T, z: T)
    requires TotalOrder(less) && !less(y, x) && !less(z, y)
    ensures !less(z, x)
  {
  }

  lemma LessAsymmetric<T(!new)>(less: (T, T) -> bool, x: T, y: T)
    requires TotalOrder(less) && less(x, y)
    ensures !less(y, x)
  {
  }

  /* ---------- rearranging a stretch ---------- */

  /** t rearranges the stretch [from, to) of s and leaves the rest alone. */
  ghost predicate Permuted<T>(s: seq<T>, t: seq<T>, from: nat, to: nat) {
    && |s| == |t| && from <= to <= |s|
    && s[..from] == t[..from] && s[to..] == t[to..]
    && multiset(s) == multiset(t)
  }

  /** The stretch [from, to) is ordered. */
  ghost predicate Ordered<T>(s: seq<T>, from: nat, to: nat, less: (T, T) -> bool) {
    to <= |s| && forall i, j :: from <= i < j < to ==> !less(s[j], s[i])
  }

  /** All pairs of [from, to) are ordered, except perhaps those inside [b, e). */
  ghost predicate OrderedExcept<T>(s: seq<T>, from: nat, to: nat, b: nat, e: nat, less: (T, T) -> bool) {
    && to <= |s|
    && forall i, j :: from <= i < j < to && !(b <= i && j < e) ==> !less(s[j], s[i])
  }

  lemma PermutedWider<T>(s: seq<T>, t: seq<T>, from: nat, to: nat, from': nat, to': nat)
    requires Permuted(s, t, from, to) && from' <= from && to <= to' <= |s|
    ensures Permuted(s, t, from', to')
  {
    assert s[..from'] == s[..from][..from'] && t[..from'] == t[..from][..from'];
    assert s[to'..] == s[to..][to' - to..] && t[to'..] == t[to..][to' - to..];
  }

  lemma InThree<T>(s: seq<T>, from: nat, to: nat)
    requires from <= to <= |s|
    ensures multiset(s) == multiset(s[..from]) + multiset(s[from..to]) + multiset(s[to..])
  {
    assert s == s[..from] + s[from..to] + s[to..];
  }

  /** A rearranged stretch holds the same elements. */
  lemma PermutedStretch<T>(s: seq<T>, t: seq<T>, from: nat, to: nat)
    requires Permuted(s, t, from, to)
    ensures multiset(s[from..to]) == multiset(t[from..to])
  {
    InThree(s, from, to);
    InThree(t, from, to);
    var outer := multiset(s[..from]) + multiset(s[to..]);
    assert multiset(s[from..to]) == multiset(s) - outer;
    assert multiset(t[from..to]) == multiset(t) - outer;
  }

  /** Where an element of a rearranged stretch came from. */
  lemma Origin<T>(s: seq<T>, t: seq<T>, from: nat, to: nat, i: nat) returns (k: nat)
    requires Permuted(s, t, from, to) && from <= i < to
    ensures from <= k < to && s[k] == t[i]
  {
    PermutedStretch(s, t, from, to);
    assert t[from..to][i - from] in multiset(s[from..to]);
    assert t[i] in s[from..to];
    var k' :| 0 <= k' < to - from && s[from..to][k'] == t[i];
    k := from + k';
  }

  lemma Outside<T>(s: seq<T>, t: seq<T>, from: nat, to: nat, i: nat)
    requires Permuted(s, t, from, to) && i < |s| && !(from <= i < to)
    ensures s[i] == t[i]
  {
    if i < from {
      assert s[..from][i] == t[..from][i];
    } else {
      assert s[to..][i - to] == t[to..][i - to];
    }
  }

  lemma SwapPermutes<T>(s: seq<T>, i: nat, j: nat, from: nat, to: nat)
    requires from <= i < to <= |s| && from <= j < to
    ensures Permuted(s, s[i := s[j]][j := s[i]], from, to)
  {
    var t := s[i := s[j]][j := s[i]];
    assert t[..from] == s[..from] && t[to..] == s[to..];
  }

  /** Rearranging the open stretch does not disturb what is settled around it. */
  lemma ExceptPermuted<T>(s: seq<T>, t: seq<T>, from: nat, to: nat, b: nat, e: nat, less: (T, T) -> bool)
    requires from <= b <= e <= to && OrderedExcept(s, from, to, b, e, less) && Permuted(s, t, b, e)
    ensures OrderedExcept(t, from, to, b, e, less)
  {
    forall i, j | from <= i < j < to && !(b <= i && j < e)
      ensures !less(t[j], t[i])
    {
      var i', j' := i, j;
      if b <= i < e { i' := Origin(s, t, b, e, i); } else { Outside(s, t, b, e, i); }
      if b <= j < e { j' := Origin(s, t, b, e, j); } else { Outside(s, t, b, e, j); }
      assert from <= i' < j' < to && !(b <= i' && j' < e);
    }
  }

  /* ---------- insertion sort ---------- */

  /** s with its element i moved down to position j. */
  function MovedDown<T>(s: seq<T>, j: nat, i: nat): seq<T>
    requires j <= i < |s|
  {
    s[..j] + [s[i]] + s[j..i] + s[i + 1..]
  }

  lemma MovedDownPermutes<T>(s: seq<T>, base: nat, j: nat, i: nat)
    requires base <= j <= i < |s|
    ensures Permuted(s, MovedDown(s, j, i), base, i + 1)
  {
    var t := MovedDown(s, j, i);
    assert s == s[..j] + s[j..i] + [s[i]] + s[i + 1..];
    assert t[..base] == s[..base] && t[i + 1..] == s[i + 1..];
  }

  lemma MovedDownOrders<T(!new)>(s: seq<T>, base: nat, j: nat, i: nat, less: (T, T) -> bool)
    requires TotalOrder(less) && base <= j <= i < |s| && Ordered(s, base, i, less)
    requires forall k :: j <= k < i ==> less(s[i], s[k])
    requires j > base ==> !less(s[i], s[j - 1])
    ensures Ordered(MovedDown(s, j, i), base, i + 1, less)
  {
    hide TotalOrder;
    var t := MovedDown(s, j, i);
    forall k | base <= k < j ensures !less(s[i], s[k]) {
      if k < j - 1 { NotLessTransitive(less, s[k], s[j - 1], s[i]); }
    }
    forall k | j <= k < i ensures !less(s[k], s[i]) { LessAsymmetric(less, s[i], s[k]); }
    assert forall k :: 0 <= k <= i ==> t[k] == if k < j then s[k] else if k == j then s[i] else s[k - 1];
  }

  /** Insertion of the element at i into the ordered stretch before it, by shifting. */
  method InsertOne<T(!new)>(a: array<T>, base: nat, i: nat, less: (T, T) -> bool)
    requires TotalOrder(less) && base <= i < a.Length && Ordered(a[..], base, i, less)
    modifies a
    ensures Ordered(a[..], base, i + 1, less) && Permuted(old(a[..]), a[..], base, i + 1)
  {
    hide TotalOrder, Ordered, Permuted;
    ghost var s := a[..];
    var value := a[i];
    var j := i;
    while j > base && less(value, a[j - 1])
      invariant base <= j <= i
      invariant forall k :: 0 <= k < j || i < k < a.Length ==> a[k] == s[k]
      invariant forall k :: j <= k < i ==> a[k + 1] == s[k] && less(value, s[k])
    {
      a[j] := a[j - 1];
      j := j - 1;
    }
    a[j] := value;
    IsMovedDown(s, a[..], j, i);
    MovedDownPermutes(s, base, j, i);
    MovedDownOrders(s, base, j, i, less);
  }

  lemma IsMovedDown<T>(s: seq<T>, t: seq<T>, j: nat, i: nat)
    requires |t| == |s| && j <= i < |s| && t[j] == s[i]
    requires forall k :: 0 <= k < j || i < k < |s| ==> t[k] == s[k]
    requires forall k :: j <= k < i ==> t[k + 1] == s[k]
    ensures t == MovedDown(s, j, i)
  {
    var r := MovedDown(s, j, i);
    forall k | 0 <= k < |s| ensures t[k] == r[k] {
      if j < k <= i { assert t[(k - 1) + 1] == s[k - 1]; }
    }
  }

  method InsertionSort<T(!new)>(a: array<T>, base: nat, n: nat, less: (T, T) -> bool)
    requires TotalOrder(less) && base + n <= a.Length
    modifies a
    ensures Ordered(a[..], base, base + n, less) && Permuted(old(a[..]), a[..], base, base + n)
  {
    hide TotalOrder;
    var i := 1;
    while i < n
      invariant i <= n || n == 0
      invariant 1 <= i && base + i <= a.Length + 1
      invariant Ordered(a[..], base, base + if i <= n then i else n, less)
      invariant Permuted(old(a[..]), a[..], base, base + n)
    {
      ghost var before := a[..];
      InsertOne(a, base, base + i, less);
      PermutedWider(before, a[..], base, base + i + 1, base, base + n);
      i := i + 1;
    }
  }

  /* ---------- heapsort ---------- */

  /** In the heap of n elements stored from base on, element k is not below its children. */
  ghost predicate HeapAt<T>(s: seq<T>, base: nat, n: nat, k: nat, less: (T, T) -> bool)
    requires base + n <= |s|
  {
    && (2 * k + 1 < n ==> !less(s[base + k], s[base + 2 * k + 1]))
    && (2 * k + 2 < n ==> !less(s[base + k], s[base + 2 * k + 2]))
  }

  ghost predicate HeapFrom<T>(s: seq<T>, base: nat, n: nat, root: nat, less: (T, T) -> bool) {
    base + n <= |s| && forall k :: root <= k < n ==> HeapAt(s, base, n, k, less)
  }

  /** A heap from start on, except perhaps at hole, whose parent tops its children. */
  ghost predicate HeapBut<T>(s: seq<T>, base: nat, n: nat, start: nat, hole: nat, less: (T, T) -> bool) {
    && base + n <= |s| && start <= hole < n
    && (forall k :: start <= k < n && k != hole ==> HeapAt(s, base, n, k, less))
    && (hole > start && (hole - 1) / 2 >= start ==>
          && (2 * hole + 1 < n ==> !less(s[base + (hole - 1) / 2], s[base + 2 * hole + 1]))
          && (2 * hole + 2 < n ==> !less(s[base + (hole - 1) / 2], s[base + 2 * hole + 2])))
  }

  /** The child of hole that the sift moves up: the larger one. */
  function Larger<T>(s: seq<T>, base: nat, n: nat, hole: nat, less: (T, T) -> bool): (c: nat)
    requires base + n <= |s| && 2 * hole + 1 < n
    ensures c < n && (c - 1) / 2 == hole && hole < c
  {
    if 2 * hole + 2 < n && less(s[base + 2 * hole + 1], s[base + 2 * hole + 2]) then 2 * hole + 2 else 2 * hole + 1
  }

  lemma SiftStep<T(!new)>(s: seq<T>, base: nat, n: nat, start: nat, hole: nat, less: (T, T) -> bool)
    requires TotalOrder(less) && HeapBut(s, base, n, start, hole, less) && 2 * hole + 1 < n
    requires less(s[base + hole], s[base + Larger(s, base, n, hole, less)])
    ensures var c := Larger(s, base, n, hole, less);
            HeapBut(s[base + hole := s[base + c]][base + c := s[base + hole]], base, n, start, c, less)
  {
    var c := Larger(s, base, n, hole, less);
    var t := s[base + hole := s[base + c]][base + c := s[base + hole]];
    forall k | start <= k < n && k != c
      ensures HeapAt(t, base, n, k, less)
    {
      assert k != hole ==> HeapAt(s, base, n, k, less);
    }
    assert HeapAt(s, base, n, c, less);
  }

  lemma SiftDone<T(!new)>(s: seq<T>, base: nat, n: nat, start: nat, hole: nat, less: (T, T) -> bool)
    requires TotalOrder(less) && HeapBut(s, base, n, start, hole, less)
    requires 2 * hole + 1 < n ==> !less(s[base + hole], s[base + Larger(s, base, n, hole, less)])
    ensures HeapFrom(s, base, n, start, less)
  {
    assert HeapAt(s, base, n, hole, less);
  }

  method Put<T>(a: array<T>, i: nat, x: T)
    requires i < a.Length
    modifies a
    ensures a[..] == old(a[..])[i := x]
  {
    a[i] := x;
  }

  method Swap<T>(a: array<T>, i: nat, j: nat)
    requires i < a.Length && j < a.Length
    modifies a
    ensures a[..] == old(a[..])[i := old(a[j])][j := old(a[i])]
  {
    a[i], a[j] := a[j], a[i];
  }

  /** The child of hole that a sift compares with. */
  method LargerChild<T(!new)>(a: array<T>, base: nat, n: nat, hole: nat, less: (T, T) -> bool, ghost value: T) returns (child: nat)
    requires base + n <= a.Length && 2 * hole + 1 < n
    ensures child == Larger(a[..][base + hole := value], base, n, hole, less)
  {
    child := hole * 2 + 1;
    if child + 1 < n && less(a[base + child], a[base + child + 1]) { child := child + 1; }
  }

  lemma HoleMoves<T>(r: seq<T>, i: nat, c: nat, value: T)
    requires i < |r| && c < |r| && i != c
    ensures var s := r[i := value];
            s[i := s[c]][c := s[i]] == r[i := r[c]][c := value]
  {
  }

  /** Lets the value at root sink to its place below it. */
  method Sift<T(!new)>(a: array<T>, base: nat, root: nat, n: nat, less: (T, T) -> bool)
    requires TotalOrder(less) && root < n && base + n <= a.Length
    requires HeapFrom(a[..], base, n, root + 1, less)
    modifies a
    ensures HeapFrom(a[..], base, n, root, less) && Permuted(old(a[..]), a[..], base, base + n)
  {
    hide TotalOrder, HeapFrom, HeapBut, Permuted, Larger;
    var value := a[base + root];
    var hole := root;
    ghost var start := a[..];
    ghost var s := start;
    StartSift(s, base, n, root, less);
    PermutedSelf(s, base, base + n);
    while hole < n / 2
      invariant root <= hole < n
      invariant s == a[..][base + hole := value]
      invariant HeapBut(s, base, n, root, hole, less) && Permuted(start, s, base, base + n)
    {
      var child := LargerChild(a, base, n, hole, less, value);
      if !less(value, a[base + child]) { break; }
      SiftStep(s, base, n, root, hole, less);
      PermutedSwap(start, s, base + hole, base + child, base, base + n);
      HoleMoves(a[..], base + hole, base + child, value);
      s := s[base + hole := s[base + child]][base + child := s[base + hole]];
      Put(a, base + hole, a[base + child]);
      hole := child;
    }
    SiftDone(s, base, n, root, hole, less);
    Put(a, base + hole, value);
  }

  lemma PermutedSelf<T>(s: seq<T>, from: nat, to: nat)
    requires from <= to <= |s|
    ensures Permuted(s, s, from, to)
  {
  }

  lemma PermutedSwap<T>(s: seq<T>, t: seq<T>, i: nat, j: nat, from: nat, to: nat)
    requires Permuted(s, t, from, to) && from <= i < to && from <= j < to
    ensures Permuted(s, t[i := t[j]][j := t[i]], from, to)
  {
    SwapPermutes(t, i, j, from, to);
  }

  lemma StartSift<T>(s: seq<T>, base: nat, n: nat, root: nat, less: (T, T) -> bool)
    requires root < n && HeapFrom(s, base, n, root + 1, less)
    ensures HeapBut(s, base, n, root, root, less)
  {
  }

  /** The top of a heap is not below anything in it. */
  lemma {:induction false} TopIsLargest<T(!new)>(s: seq<T>, base: nat, n: nat, k: nat, less: (T, T) -> bool)
    requires TotalOrder(less) && k < n && HeapFrom(s, base, n, 0, less)
    ensures !less(s[base], s[base + k])
    decreases k
  {
    hide TotalOrder;
    if k > 0 {
      var q := (k - 1) / 2;
      TopIsLargest(s, base, n, q, less);
      assert HeapAt(s, base, n, q, less);
      NotLessTransitive(less, s[base + k], s[base + q], s[base]);
    } else {
      Irreflexive(less, s[base]);
    }
  }

  lemma Irreflexive<T(!new)>(less: (T, T) -> bool, x: T)
    requires TotalOrder(less)
    ensures !less(x, x)
  {
  }

  /** What the second loop of heapsort keeps: a heap in front, and behind it the largest
      elements in order. */
  ghost predicate HalfSorted<T>(s: seq<T>, base: nat, end: nat, n: nat, less: (T, T) -> bool) {
    end <= n && HeapFrom(s, base, end, 0, less) && OrderedExcept(s, base, base + n, base, base + end, less)
  }

  lemma TopMoves<T(!new)>(s: seq<T>, base: nat, end: nat, n: nat, less: (T, T) -> bool)
    requires TotalOrder(less) && end + 1 <= n && HalfSorted(s, base, end + 1, n, less)
    ensures var t := s[base := s[base + end]][base + end := s[base]];
            HeapFrom(t, base, end, 1, less) && OrderedExcept(t, base, base + n, base, base + end, less)
  {
    hide TotalOrder, OrderedExcept;
    var t := s[base := s[base + end]][base + end := s[base]];
    SwapPermutes(s, base, base + end, base, base + end + 1);
    assert OrderedExcept(t, base, base + n, base, base + end + 1, less) by {
      hide HeapFrom, Permuted;
      ExceptPermuted(s, t, base, base + n, base, base + end + 1, less);
    }
    assert HeapFrom(t, base, end, 1, less) by {
      forall k | 1 <= k < end ensures HeapAt(t, base, end, k, less) {
        assert HeapAt(s, base, end + 1, k, less);
      }
    }
    forall i | base <= i < base + end ensures !less(t[base + end], t[i]) {
      TopIsLargest(s, base, end + 1, if i == base then end else i - base, less);
    }
    assert OrderedExcept(t, base, base + n, base, base + end, less) by {
      NarrowLast(t, base, base + n, base + end, less);
    }
  }

  lemma NarrowLast<T>(s: seq<T>, from: nat, to: nat, e: nat, less: (T, T) -> bool)
    requires OrderedExcept(s, from, to, from, e + 1, less) && from <= e < to
    requires forall i :: from <= i < e ==> !less(s[e], s[i])
    ensures OrderedExcept(s, from, to, from, e, less)
  {
  }

  lemma PermutedTrans<T>(s: seq<T>, t: seq<T>, u: seq<T>, from: nat, to: nat)
    requires Permuted(s, t, from, to) && Permuted(t, u, from, to)
    ensures Permuted(s, u, from, to)
  {
  }

  lemma LeavesAreHeaps<T>(s: seq<T>, base: nat, n: nat, less: (T, T) -> bool)
    requires base + n <= |s|
    ensures HeapFrom(s, base, n, n / 2, less)
  {
  }

  lemma HeapStarts<T>(s: seq<T>, base: nat, n: nat, less: (T, T) -> bool)
    requires HeapFrom(s, base, n, 0, less)
    ensures HalfSorted(s, base, n, n, less)
  {
  }

  /** Sifting the new top restores the heap and leaves the settled tail alone. */
  lemma HeapShrinks<T>(s: seq<T>, t: seq<T>, base: nat, end: nat, n: nat, less: (T, T) -> bool)
    requires OrderedExcept(s, base, base + n, base, base + end, less) && Permuted(s, t, base, base + end)
    requires end <= n && HeapFrom(t, base, end, 0, less)
    ensures HalfSorted(t, base, end, n, less)
  {
    ExceptPermuted(s, t, base, base + n, base, base + end, less);
  }

  lemma HeapEnds<T>(s: seq<T>, base: nat, end: nat, n: nat, less: (T, T) -> bool)
    requires HalfSorted(s, base, end, n, less) && end <= 1
    ensures Ordered(s, base, base + n, less)
  {
  }

  method HeapSort<T(!new)>(a: array<T>, base: nat, n: nat, less: (T, T) -> bool)
    requires TotalOrder(less) && base + n <= a.Length
    modifies a
    ensures Ordered(a[..], base, base + n, less) && Permuted(old(a[..]), a[..], base, base + n)
  {
    hide TotalOrder, HeapFrom, OrderedExcept, HalfSorted, Permuted, Ordered;
    ghost var start := a[..];
    PermutedSelf(start, base, base + n);
    LeavesAreHeaps(start, base, n, less);
    var i := n / 2;
    while i > 0
      invariant 0 <= i <= n / 2
      invariant HeapFrom(a[..], base, n, i, less) && Permuted(start, a[..], base, base + n)
    {
      ghost var before := a[..];
      Sift(a, base, i - 1, n, less);
      PermutedTrans(start, before, a[..], base, base + n);
      i := i - 1;
    }
    var end := n;
    HeapStarts(a[..], base, n, less);
    while end > 1
      invariant 0 <= end <= n
      invariant HalfSorted(a[..], base, end, n, less) && Permuted(start, a[..], base, base + n)
    {
      end := end - 1;
      ghost var before := a[..];
      TopMoves(before, base, end, n, less);
      Swap(a, base, base + end);
      ghost var swapped := a[..];
      Sift(a, base, 0, end, less);
      HeapShrinks(swapped, a[..], base, end, n, less);
      PermutedSwap(start, before, base, base + end, base, base + n);
      PermutedWider(swapped, a[..], base, base + end, base, base + n);
      PermutedTrans(start, swapped, a[..], base, base + n);
    }
    HeapEnds(a[..], base, end, n, less);
  }

  /* ---------- quicksort ---------- */

  /** No element of the stretch is above, respectively below, the pivot. */
  ghost predicate NotAbove<T>(s: seq<T>, from: nat, to: nat, pivot: T, less: (T, T) -> bool) {
    to <= |s| && forall i :: from <= i < to ==> !less(pivot, s[i])
  }

  ghost predicate NotBelow<T>(s: seq<T>, from: nat, to: nat, pivot: T, less: (T, T) -> bool) {
    to <= |s| && forall i :: from <= i < to ==> !less(s[i], pivot)
  }

  /** Puts two elements in order. */
  method OrderPair<T(!new)>(a: array<T>, i: nat, j: nat, less: (T, T) -> bool, ghost from: nat, ghost to: nat)
    requires from <= i < to <= a.Length && from <= j < to
    modifies a
    ensures Permuted(old(a[..]), a[..], from, to)
  {
    SwapPermutes(a[..], i, j, from, to);
    if less(a[j], a[i]) { Swap(a, i, j); }
  }

  /** Moves the median of the first, middle and last element to the middle. */
  method MedianToMiddle<T(!new)>(a: array<T>, base: nat, n: nat, less: (T, T) -> bool)
    requires n > 16 && base + n <= a.Length
    modifies a
    ensures Permuted(old(a[..]), a[..], base, base + n)
  {
    hide Permuted;
    ghost var s0 := a[..];
    OrderPair(a, base, base + n / 2, less, base, base + n);
    ghost var s1 := a[..];
    OrderPair(a, base + n / 2, base + n - 1, less, base, base + n);
    ghost var s2 := a[..];
    PermutedTrans(s0, s1, s2, base, base + n);
    OrderPair(a, base, base + n / 2, less, base, base + n);
    PermutedTrans(s0, s2, a[..], base, base + n);
  }

  /** Steps over elements below the pivot; some element ahead is known to stop it. */
  method ScanUp<T(!new)>(a: array<T>, base: nat, lo: nat, less: (T, T) -> bool, pivot: T, ghost stop: nat) returns (k: nat)
    requires TotalOrder(less) && lo <= stop && base + stop < a.Length && !less(a[base + stop], pivot)
    ensures lo <= k <= stop && !less(a[base + k], pivot)
    ensures NotAbove(a[..], base + lo, base + k, pivot, less)
  {
    hide TotalOrder;
    k := lo;
    while less(a[base + k], pivot)
      invariant lo <= k <= stop
      invariant NotAbove(a[..], base + lo, base + k, pivot, less)
      decreases stop - k
    {
      LessAsymmetric(less, a[base + k], pivot);
      k := k + 1;
    }
  }

  method ScanDown<T(!new)>(a: array<T>, base: nat, hi: nat, less: (T, T) -> bool, pivot: T, ghost stop: nat) returns (k: nat)
    requires TotalOrder(less) && stop <= hi && base + hi < a.Length && !less(pivot, a[base + stop])
    ensures stop <= k <= hi && !less(pivot, a[base + k])
    ensures NotBelow(a[..], base + k + 1, base + hi + 1, pivot, less)
  {
    hide TotalOrder;
    k := hi;
    while less(pivot, a[base + k])
      invariant stop <= k <= hi
      invariant NotBelow(a[..], base + k + 1, base + hi + 1, pivot, less)
      decreases k
    {
      LessAsymmetric(less, pivot, a[base + k]);
      k := k - 1;
    }
  }

  /** What the partition loop keeps. Once an exchange was made both scans have moved; right
      and left are elements that stop them. */
  ghost predicate Parting<T>(s: seq<T>, base: nat, n: nat, lo: nat, hi: int, left: nat, right: nat, pivot: T, less: (T, T) -> bool) {
    && base + n <= |s| && lo <= right < n && left <= hi < n && lo <= hi + 1
    && !less(s[base + right], pivot) && !less(pivot, s[base + left])
    && NotAbove(s, base, base + lo, pivot, less) && NotBelow(s, base + hi + 1, base + n, pivot, less)
    && ((lo == 0 && hi == n - 1 && left == right == n / 2) || (0 < lo && hi < n - 1))
  }

  lemma Exchange<T>(s: seq<T>, base: nat, n: nat, lo: nat, hi: nat, l: nat, h: nat, left: nat, right: nat, pivot: T, less: (T, T) -> bool)
    requires Parting(s, base, n, lo, hi, left, right, pivot, less)
    requires lo <= l <= right && left <= h <= hi && l < h
    requires NotAbove(s, base + lo, base + l, pivot, less) && !less(s[base + l], pivot)
    requires NotBelow(s, base + h + 1, base + hi + 1, pivot, less) && !less(pivot, s[base + h])
    ensures Parting(s[base + l := s[base + h]][base + h := s[base + l]], base, n, l + 1, h - 1, l, h, pivot, less)
  {
  }

  lemma Parted<T>(s: seq<T>, base: nat, n: nat, lo: nat, hi: nat, l: nat, h: nat, left: nat, right: nat, pivot: T, less: (T, T) -> bool)
    requires n > 16 && Parting(s, base, n, lo, hi, left, right, pivot, less)
    requires lo <= l <= right && left <= h <= hi && l >= h
    requires NotAbove(s, base + lo, base + l, pivot, less)
    requires NotBelow(s, base + h + 1, base + hi + 1, pivot, less) && !less(s[base + l], pivot)
    ensures 0 < l < n && NotAbove(s, base, base + l, pivot, less) && NotBelow(s, base + l, base + n, pivot, less)
  {
  }

  /** Two-way partition around the middle element. Both parts are smaller than the whole,
      and no element of the front is above one of the back. */
  method Split<T(!new)>(a: array<T>, base: nat, n: nat, less: (T, T) -> bool) returns (cut: nat, ghost pivot: T)
    requires TotalOrder(less) && n > 16 && base + n <= a.Length
    modifies a
    ensures 0 < cut < n
    ensures NotAbove(a[..], base, base + cut, pivot, less) && NotBelow(a[..], base + cut, base + n, pivot, less)
    ensures Permuted(old(a[..]), a[..], base, base + n)
  {
    hide TotalOrder, Permuted, NotAbove, NotBelow;
    ghost var start := a[..];
    PermutedSelf(start, base, base + n);
    var p := a[base + n / 2];
    pivot := p;
    var lo, hi := 0, n - 1;
    ghost var left: nat, right: nat := n / 2, n / 2;
    PartingStarts(start, base, n, less);
    while true
      invariant Parting(a[..], base, n, lo, hi, left, right, p, less)
      invariant Permuted(start, a[..], base, base + n)
      decreases n - lo
    {
      var l := ScanUp(a, base, lo, less, p, right);
      var h := ScanDown(a, base, hi, less, p, left);
      if l >= h {
        Parted(a[..], base, n, lo, hi, l, h, left, right, p, less);
        return l, pivot;
      }
      Exchange(a[..], base, n, lo, hi, l, h, left, right, p, less);
      PermutedSwap(start, a[..], base + l, base + h, base, base + n);
      Swap(a, base + l, base + h);
      left, right := l, h;
      lo, hi := l + 1, h - 1;
    }
  }

  lemma PartingStarts<T(!new)>(s: seq<T>, base: nat, n: nat, less: (T, T) -> bool)
    requires TotalOrder(less) && n > 16 && base + n <= |s|
    ensures Parting(s, base, n, 0, n - 1, n / 2, n / 2, s[base + n / 2], less)
  {
  }

  /** With the front of a parted stretch ordered, only the back is left open. */
  lemma FrontSettles<T(!new)>(s: seq<T>, t: seq<T>, from: nat, to: nat, b: nat, c: nat, e: nat, pivot: T, less: (T, T) -> bool)
    requires TotalOrder(less) && from <= b <= c <= e <= to
    requires OrderedExcept(s, from, to, b, e, less)
    requires NotAbove(s, b, c, pivot, less) && NotBelow(s, c, e, pivot, less)
    requires Permuted(s, t, b, c) && Ordered(t, b, c, less)
    ensures OrderedExcept(t, from, to, c, e, less)
  {
    hide TotalOrder, Permuted;
    assert |t| == |s| by { SameLength(s, t, b, c); }
    forall i, j | from <= i < j < to && !(c <= i && j < e)
      ensures !less(t[j], t[i])
    {
      if !(b <= i && j < e) {
        SettledPair(s, t, from, to, b, c, e, i, j, less);
      } else if c <= j {
        var i' := Origin(s, t, b, c, i);
        Outside(s, t, b, c, j);
        NotLessTransitive(less, t[i], pivot, t[j]);
      }
    }
  }

  lemma SameLength<T>(s: seq<T>, t: seq<T>, from: nat, to: nat)
    requires Permuted(s, t, from, to)
    ensures |s| == |t|
  {
  }

  /** A pair not inside the open stretch keeps its order when part of the stretch is rearranged. */
  lemma SettledPair<T>(s: seq<T>, t: seq<T>, from: nat, to: nat, b: nat, c: nat, e: nat, i: nat, j: nat, less: (T, T) -> bool)
    requires from <= b <= c <= e <= to && OrderedExcept(s, from, to, b, e, less)
    requires (Permuted(s, t, b, c) || Permuted(s, t, c, e)) && from <= i < j < to && !(b <= i && j < e)
    ensures !less(t[j], t[i])
  {
    if Permuted(s, t, b, c) { PermutedWider(s, t, b, c, b, e); } else { PermutedWider(s, t, c, e, b, e); }
    ExceptPermuted(s, t, from, to, b, e, less);
    PairOf(t, from, to, b, e, i, j, less);
  }

  lemma PairOf<T>(s: seq<T>, from: nat, to: nat, b: nat, e: nat, i: nat, j: nat, less: (T, T) -> bool)
    requires OrderedExcept(s, from, to, b, e, less) && from <= i < j < to && !(b <= i && j < e)
    ensures !less(s[j], s[i])
  {
  }

  /** With the back of a parted stretch ordered, only the front is left open. */
  lemma BackSettles<T(!new)>(s: seq<T>, t: seq<T>, from: nat, to: nat, b: nat, c: nat, e: nat, pivot: T, less: (T, T) -> bool)
    requires TotalOrder(less) && from <= b <= c <= e <= to
    requires OrderedExcept(s, from, to, b, e, less)
    requires NotAbove(s, b, c, pivot, less) && NotBelow(s, c, e, pivot, less)
    requires Permuted(s, t, c, e) && Ordered(t, c, e, less)
    ensures OrderedExcept(t, from, to, b, c, less)
  {
    hide TotalOrder, Permuted;
    assert |t| == |s| by { SameLength(s, t, c, e); }
    forall i, j | from <= i < j < to && !(b <= i && j < c)
      ensures !less(t[j], t[i])
    {
      if !(b <= i && j < e) {
        SettledPair(s, t, from, to, b, c, e, i, j, less);
      } else if i < c {
        var j' := Origin(s, t, c, e, j);
        Outside(s, t, c, e, i);
        NotLessTransitive(less, t[i], pivot, t[j]);
      }
    }
  }

  lemma NothingSettled<T>(s: seq<T>, from: nat, to: nat, less: (T, T) -> bool)
    requires to <= |s|
    ensures OrderedExcept(s, from, to, from, to, less)
  {
  }

  /** One partition of the stretch that is still open. */
  method Part<T(!new)>(a: array<T>, b: nat, m: nat, less: (T, T) -> bool, ghost start: seq<T>, ghost from: nat, ghost to: nat)
    returns (cut: nat, ghost pivot: T)
    requires TotalOrder(less) && m > 16 && from <= b && b + m <= to <= a.Length
    requires OrderedExcept(a[..], from, to, b, b + m, less) && Permuted(start, a[..], from, to)
    modifies a
    ensures 0 < cut < m
    ensures NotAbove(a[..], b, b + cut, pivot, less) && NotBelow(a[..], b + cut, b + m, pivot, less)
    ensures OrderedExcept(a[..], from, to, b, b + m, less) && Permuted(start, a[..], from, to)
  {
    hide TotalOrder, OrderedExcept, Permuted, NotAbove, NotBelow;
    ghost var s := a[..];
    MedianToMiddle(a, b, m, less);
    Rearranged(start, s, a[..], from, to, b, b + m, less);
    s := a[..];
    cut, pivot := Split(a, b, m, less);
    Rearranged(start, s, a[..], from, to, b, b + m, less);
  }

  /** The calls that are open at once on n elements number at most the logarithm of n. */
  ghost predicate Shallow(frames: nat, n: nat) {
    frames == 0 || Power(2, frames) <= n
  }

  lemma OneFrame(n: nat)
    ensures Shallow(0, n)
  {
  }

  /** The deeper of what was open before and a call on one of two parts, no larger than half. */
  ghost function OneDeeper(frames: nat, below: nat, part: nat, n: nat): (r: nat)
    requires Shallow(frames, n) && Shallow(below, part) && 2 * part <= n && n >= 2
    ensures Shallow(r, n)
  {
    assert Power(2, below + 1) == 2 * Power(2, below);
    if frames < below + 1 then below + 1 else frames
  }

  /** Orders the n elements from base on. The shorter part of each partition is ordered by a
      recursive call, the longer one in the next turn of the loop. */
  method Partition<T(!new)>(a: array<T>, base: nat, n: nat, depth: nat, less: (T, T) -> bool) returns (ghost frames: nat)
    requires TotalOrder(less) && base + n <= a.Length
    modifies a
    ensures Ordered(a[..], base, base + n, less) && Permuted(old(a[..]), a[..], base, base + n)
    ensures Shallow(frames, n)
    decreases n
  {
    hide TotalOrder, Ordered, OrderedExcept, Permuted, NotAbove, NotBelow, Shallow, OneDeeper;
    frames := 0;
    OneFrame(n);
    ghost var start := a[..];
    ghost var from, to := base, base + n;
    PermutedSelf(start, from, to);
    NothingSettled(start, from, to, less);
    var b: nat, m: nat, d: nat := base, n, depth;
    while m > 16
      invariant m <= n && from <= b && b + m <= to
      invariant OrderedExcept(a[..], from, to, b, b + m, less) && Permuted(start, a[..], from, to)
      invariant Shallow(frames, n)
      decreases m
    {
      ghost var s := a[..];
      if d == 0 {
        HeapSort(a, b, m, less);
        Finish(start, s, a[..], from, to, b, b + m, less);
        return;
      }
      d := d - 1;
      ghost var pivot;
      var lo;
      lo, pivot := Part(a, b, m, less, start, from, to);
      s := a[..];
      if lo < m - lo {
        ghost var below := Partition(a, b, lo, d, less);
        frames := OneDeeper(frames, below, lo, n);
        FrontSettles(s, a[..], from, to, b, b + lo, b + m, pivot, less);
        PermutedWider(s, a[..], b, b + lo, from, to);
        b, m := b + lo, m - lo;
      } else {
        ghost var below := Partition(a, b + lo, m - lo, d, less);
        frames := OneDeeper(frames, below, m - lo, n);
        BackSettles(s, a[..], from, to, b, b + lo, b + m, pivot, less);
        PermutedWider(s, a[..], b + lo, b + m, from, to);
        m := lo;
      }
      PermutedTrans(start, s, a[..], from, to);
    }
    ghost var s := a[..];
    InsertionSort(a, b, m, less);
    Finish(start, s, a[..], from, to, b, b + m, less);
  }

  lemma Rearranged<T>(start: seq<T>, s: seq<T>, t: seq<T>, from: nat, to: nat, b: nat, e: nat, less: (T, T) -> bool)
    requires from <= b <= e <= to && OrderedExcept(s, from, to, b, e, less)
    requires Permuted(start, s, from, to) && Permuted(s, t, b, e)
    ensures OrderedExcept(t, from, to, b, e, less) && Permuted(start, t, from, to)
  {
    ExceptPermuted(s, t, from, to, b, e, less);
    PermutedWider(s, t, b, e, from, to);
  }

  lemma Finish<T>(start: seq<T>, s: seq<T>, t: seq<T>, from: nat, to: nat, b: nat, e: nat, less: (T, T) -> bool)
    requires from <= b <= e <= to && OrderedExcept(s, from, to, b, e, less)
    requires Permuted(start, s, from, to) && Permuted(s, t, b, e) && Ordered(t, b, e, less)
    ensures Ordered(t, from, to, less) && Permuted(start, t, from, to)
  {
    Rearranged(start, s, t, from, to, b, e, less);
  }

  /* ---------- the whole sort ---------- */

  /** Finds the end of the shortest prefix after which no element is below its predecessor;
      zero when the whole is in order. */
  method LastInversion<T(!new)>(a: array<T>, n: nat, less: (T, T) -> bool) returns (end: nat)
    requires TotalOrder(less) && n <= a.Length
    ensures end <= n && Ordered(a[..], if end == 0 then 0 else end - 1, n, less)
  {
    hide TotalOrder;
    end := 0;
    var i := 1;
    while i < n
      invariant 1 <= i && (i <= n || n == 0) && end <= i && end <= n
      invariant Ordered(a[..], if end == 0 then 0 else end - 1, if i <= n then i else n, less)
    {
      if less(a[i], a[i - 1]) {
        end := i + 1;
      } else {
        OrderedExtends(a[..], if end == 0 then 0 else end - 1, i, less);
      }
      i := i + 1;
    }
  }

  lemma OrderedExtends<T(!new)>(s: seq<T>, from: nat, i: nat, less: (T, T) -> bool)
    requires TotalOrder(less) && from < i < |s| && Ordered(s, from, i, less) && !less(s[i], s[i - 1])
    ensures Ordered(s, from, i + 1, less)
  {
    hide TotalOrder;
    forall k | from <= k < i ensures !less(s[i], s[k]) {
      if k < i - 1 { NotLessTransitive(less, s[k], s[i - 1], s[i]); }
    }
  }

  method Largest<T(!new)>(a: array<T>, n: nat, less: (T, T) -> bool) returns (m: nat)
    requires TotalOrder(less) && 0 < n <= a.Length
    ensures m < n && NotAbove(a[..], 0, n, a[m], less)
  {
    m := 0;
    for i := 1 to n
      invariant m < i && NotAbove(a[..], 0, i, a[m], less)
    {
      if less(a[m], a[i]) { m := i; }
    }
  }

  /** The first position from end on whose element is not below x. */
  method TailAbove<T(!new)>(a: array<T>, end: nat, n: nat, x: T, less: (T, T) -> bool) returns (k: nat)
    requires TotalOrder(less) && end <= n <= a.Length && Ordered(a[..], end, n, less)
    ensures end <= k <= n && NotBelow(a[..], k, n, x, less) && NotAbove(a[..], end, k, x, less)
  {
    hide TotalOrder;
    var low, high := end, n;
    ghost var s := a[..];
    while low < high
      invariant end <= low <= high <= n
      invariant NotAbove(s, end, low, x, less) && NotBelow(s, high, n, x, less)
    {
      var mid := low + (high - low) / 2;
      assert a[mid] == s[mid];
      if less(a[mid], x) {
        LessAsymmetric(less, s[mid], x);
        forall i | end <= i <= mid ensures !less(x, s[i]) {
          if i < mid { NotLessTransitive(less, s[i], s[mid], x); }
        }
        low := mid + 1;
      } else {
        forall i | mid <= i < n ensures !less(s[i], x) {
          if mid < i { NotLessTransitive(less, x, s[mid], s[i]); }
        }
        high := mid;
      }
    }
    k := low;
  }

  /** The tail that is in order and not below the rest may stay where it is. */
  lemma TailSettled<T(!new)>(s: seq<T>, end: nat, k: nat, n: nat, x: T, less: (T, T) -> bool)
    requires TotalOrder(less) && end <= k <= n <= |s| && Ordered(s, end, n, less)
    requires NotAbove(s, 0, end, x, less) && NotAbove(s, end, k, x, less) && NotBelow(s, k, n, x, less)
    ensures OrderedExcept(s, 0, n, 0, k, less)
  {
    hide TotalOrder;
    forall i, j | 0 <= i < j < n && !(0 <= i && j < k)
      ensures !less(s[j], s[i])
    {
      if i < k { NotLessTransitive(less, s[i], x, s[j]); }
    }
  }

  method Sort<T(!new)>(a: array<T>, n: nat, less: (T, T) -> bool) returns (ghost frames: nat)
    requires TotalOrder(less) && n <= a.Length
    modifies a
    ensures Ordered(a[..], 0, n, less) && Permuted(old(a[..]), a[..], 0, n)
    ensures Shallow(frames, n)
  {
    hide TotalOrder, NotAbove, NotBelow;
    frames := 0;
    ghost var s := a[..];
    PermutedSelf(s, 0, n);
    var end := LastInversion(a, n, less);
    if end == 0 { return; }
    var k := n;
    NothingSettled(s, 0, n, less);
    if end < n {
      var m := Largest(a, end, less);
      k := TailAbove(a, end, n, a[m], less);
      TailSettled(s, end, k, n, a[m], less);
    }
    var depth, count := 0, k;
    while count > 1 {
      depth := depth + 2;
      count := count / 2;
    }
    frames := Partition(a, 0, k, depth, less);
    Finish(s, s, a[..], 0, n, 0, k, less);
  }
}
