/**
 The spreading of benchmark facts over predicates: as few lanes as a cap on each allows, of
 nearly equal size, filled in order, in reverse, or in the order of multiples of thirteen.
 */
module Lanes {
  import opened Arithmetic
  import Safety

  /** The number of lanes for a number of entries under a cap. */
  function LaneCount(entries: nat, cap: nat): nat
    requires cap > 0
  {
    (entries + cap - 1) / cap
  }

  /** That many lanes can hold the entries under the cap, and fewer cannot. */
  lemma LaneCountIsLeast(entries: nat, cap: nat, lanes: nat)
    requires cap > 0
    ensures lanes >= LaneCount(entries, cap) <==> lanes * cap >= entries
  {
    var n := LaneCount(entries, cap);
    Parts(entries + cap - 1, cap);
    if lanes >= n { Scaled(n, lanes, cap); } else { Scaled(lanes + 1, n, cap); Scaled(lanes, n, cap); }
  }

  /** The size of lane p. */
  function Size(entries: nat, lanes: nat, p: nat): nat
    requires p < lanes
  {
    (entries + lanes - 1 - p) / lanes
  }

  /** The entries in the lanes before p. */
  function Before(entries: nat, lanes: nat, p: nat): nat
    requires p <= lanes
  {
    if p == 0 then 0 else Before(entries, lanes, p - 1) + Size(entries, lanes, p - 1)
  }

  lemma ShareIs(x: nat, q: nat, r: nat, n: nat, p: nat)
    requires r < n && p < n && x == q * n + r + n - 1 - p && (q + 1) * n == q * n + n
    ensures x / n == q + (if p < r then 1 else 0)
  {
    if p < r { Quotient(x, q + 1, n); } else { Quotient(x, q, n); }
  }

  /** Every lane has the whole share, and the first ones one more. */
  lemma SizeIs(entries: nat, lanes: nat, p: nat)
    requires p < lanes
    ensures Size(entries, lanes, p) == entries / lanes + (if p < entries % lanes then 1 else 0)
  {
    var q, r := entries / lanes, entries % lanes;
    Parts(entries, lanes);
    Scaled(q, q, lanes);
    ShareIs(entries + lanes - 1 - p, q, r, lanes, p);
  }

  lemma {:induction false} BeforeIs(entries: nat, lanes: nat, p: nat)
    requires p <= lanes && lanes > 0
    ensures Before(entries, lanes, p) == p * (entries / lanes) + (if p < entries % lanes then p else entries % lanes)
  {
    var q := entries / lanes;
    if p > 0 {
      BeforeIs(entries, lanes, p - 1);
      SizeIs(entries, lanes, p - 1);
      assert p * q == (p - 1) * q + q;
    }
  }

  /** The lanes hold all entries between them. */
  lemma SizesAddUp(entries: nat, lanes: nat)
    requires lanes > 0
    ensures Before(entries, lanes, lanes) == entries
  {
    BeforeIs(entries, lanes, lanes);
    assert entries == lanes * (entries / lanes) + entries % lanes;
  }

  /** With as many lanes as the cap asks for, no lane exceeds it. */
  lemma CapHolds(entries: nat, cap: nat, p: nat)
    requires cap > 0 && p < LaneCount(entries, cap)
    ensures Size(entries, LaneCount(entries, cap), p) <= cap
  {
    var lanes := LaneCount(entries, cap);
    assert entries <= lanes * cap by {
      var d := (entries + cap - 1) / cap;
      assert entries + cap - 1 < d * cap + cap;
    }
    var x := entries + lanes - 1 - p;
    var s := x / lanes;
    assert s * lanes <= x;
    Scaled(cap, cap, lanes);
    if s > cap { Scaled(cap + 1, s, lanes); }
  }

  lemma {:induction false} BeforeGrows(entries: nat, lanes: nat, p: nat, q: nat)
    requires p <= q <= lanes
    ensures Before(entries, lanes, p) <= Before(entries, lanes, q)
    decreases q
  {
    if p < q { BeforeGrows(entries, lanes, p, q - 1); }
  }

  /** The slot of an ordinal. The search always ends inside the lanes. */
  method Slot(entries: nat, lanes: nat, ordinal: nat) returns (p: nat, value: nat)
    requires ordinal < entries && lanes > 0
    ensures p < lanes && value < Size(entries, lanes, p) && Before(entries, lanes, p) + value == ordinal
  {
    SizesAddUp(entries, lanes);
    p, value := 0, ordinal;
    while value >= Size(entries, lanes, p)
      invariant p < lanes && Before(entries, lanes, p) + value == ordinal
      decreases lanes - p
    {
      value := value - Size(entries, lanes, p);
      p := p + 1;
    }
  }

  /** A slot belongs to one ordinal and an ordinal to one slot. */
  lemma SlotsAreUnique(entries: nat, lanes: nat, p: nat, v: nat, q: nat, w: nat)
    requires p < lanes && v < Size(entries, lanes, p) && q < lanes && w < Size(entries, lanes, q)
    requires Before(entries, lanes, p) + v == Before(entries, lanes, q) + w
    ensures p == q && v == w
  {
    if p < q { BeforeGrows(entries, lanes, p + 1, q); }
    if q < p { BeforeGrows(entries, lanes, q + 1, p); }
  }

  /** And every slot is some ordinal's. */
  lemma SlotsAreFilled(entries: nat, lanes: nat, p: nat, v: nat)
    requires p < lanes && v < Size(entries, lanes, p)
    ensures Before(entries, lanes, p) + v < entries
  {
    SizesAddUp(entries, lanes);
    BeforeGrows(entries, lanes, p + 1, lanes);
  }

  /* ---------- multiples of thirteen ---------- */

  /** The ordinal of the i-th entry in permuted order. */
  function Place(entries: nat, i: nat): nat
    requires entries > 0
  {
    i * 13 % entries
  }

  lemma SmallProduct(r: nat, k: nat)
    requires 0 < r < 13 && 0 < k < 13
    ensures r * k % 13 != 0
  {
    if k == 1 {
      assert r * 1 % 13 != 0;
    } else if k == 2 {
      assert r * 2 % 13 != 0;
    } else if k == 3 {
      assert r * 3 % 13 != 0;
    } else if k == 4 {
      assert r * 4 % 13 != 0;
    } else if k == 5 {
      assert r * 5 % 13 != 0;
    } else if k == 6 {
      assert r * 6 % 13 != 0;
    } else if k == 7 {
      assert r * 7 % 13 != 0;
    } else if k == 8 {
      assert r * 8 % 13 != 0;
    } else if k == 9 {
      assert r * 9 % 13 != 0;
    } else if k == 10 {
      assert r * 10 % 13 != 0;
    } else if k == 11 {
      assert r * 11 % 13 != 0;
    } else {
      assert r * 12 % 13 != 0;
    }
  }

  lemma ThirteenIsPrime(e: nat, k: nat)
    requires e % 13 != 0 && 0 < k < 13
    ensures e * k % 13 != 0
  {
    var q, r := e / 13, e % 13;
    assert e * k == 13 * (q * k) + r * k;
    SmallProduct(r, k);
    DropsThirteens(q * k, r * k);
  }

  lemma DropsThirteens(x: int, y: int)
    ensures (13 * x + y) % 13 == y % 13
  {
  }

  lemma NoCommonMultiple(entries: nat, d: nat, k: int)
    requires 0 < d < entries && entries % 13 != 0
    ensures d * 13 != k * entries
  {
    DropsThirteens(d, 0);
    if k <= 0 {
      Scaled(k, 0, entries);
    } else if k >= 13 {
      Scaled(13, k, entries);
    } else {
      ThirteenIsPrime(entries, k);
    }
  }

  /** Stepping by thirteen reaches different places, unless thirteen divides the number of
      entries. */
  lemma StepsDiffer(entries: nat, i: nat, j: nat)
    requires i < j < entries && entries % 13 != 0
    ensures Place(entries, i) != Place(entries, j)
  {
    var a, b := i * 13 / entries, j * 13 / entries;
    assert i * 13 == a * entries + i * 13 % entries && j * 13 == b * entries + j * 13 % entries;
    assert (b - a) * entries == b * entries - a * entries;
    NoCommonMultiple(entries, j - i, b - a);
  }

  /** So every place is reached, and the steps are a permutation of the places. */
  lemma StepsReach(entries: nat, o: nat)
    requires o < entries && entries % 13 != 0
    ensures exists i: nat :: i < entries && Place(entries, i) == o
  {
    hide Place;
    var places: seq<nat> := seq(entries, i requires 0 <= i < entries => Place(entries, i));
    assert forall i :: 0 <= i < entries ==> places[i] < entries by { PlacesBelow(entries); }
    assert Safety.Distinct(places) by {
      forall i, j | 0 <= i < j < entries ensures places[i] != places[j] { StepsDiffer(entries, i, j); }
    }
    Safety.OrderCovers(places, entries);
    assert o in places;
    var i :| 0 <= i < |places| && places[i] == o;
    assert Place(entries, i) == o;
  }

  lemma PlacesBelow(entries: nat)
    requires entries > 0
    ensures forall i: nat :: Place(entries, i) < entries
  {
  }

  lemma Thirteenth(n: nat)
    requires n > 0 && n % 13 == 0
    ensures n / 13 * 13 == n && 0 < n / 13 < n
  {
  }

  /** When thirteen divides it, a place is met twice. */
  lemma StepsMeet(entries: nat, i: nat)
    requires entries > 0 && entries % 13 == 0 && i == entries / 13
    ensures 0 < i < entries && Place(entries, i) == Place(entries, 0)
  {
    Thirteenth(entries);
    Turns(0, 1, entries);
    assert 0 * 13 == 0;
  }
}
