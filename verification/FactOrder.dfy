/**
 The canonical order of facts: by predicate, then arity, then term by term with the
 kinds ordered symbol, integer, boolean. Fact sets are kept sorted by it and searched by
 halving.
 */
module FactOrder {
  import opened Datalog

  function KindRank(v: Value): nat {
    match v
    case Symbol(_) => 1
    case Integer(_) => 2
    case Boolean(_) => 3
  }

  predicate ValueLess(a: Value, b: Value) {
    KindRank(a) < KindRank(b) ||
    match (a, b)
    case (Symbol(x), Symbol(y)) => x < y
    case (Integer(x), Integer(y)) => x < y
    case (Boolean(x), Boolean(y)) => !x && y
    case _ => false
  }

  /** Lexicographic order of value lists of one length. */
  predicate ValuesLess(a: seq<Value>, b: seq<Value>)
    requires |a| == |b|
  {
    a != [] && (ValueLess(a[0], b[0]) || (a[0] == b[0] && ValuesLess(a[1..], b[1..])))
  }

  predicate Less(a: Fact, b: Fact) {
    a.pred < b.pred ||
    (a.pred == b.pred &&
     (|a.values| < |b.values| || (|a.values| == |b.values| && ValuesLess(a.values, b.values))))
  }

  /** Symbols come before integers and these before booleans, and each kind ascends. */
  lemma ValuesAscend(x: Value, y: Value)
    ensures x.Symbol? && y.Symbol? ==> (ValueLess(x, y) <==> x.id < y.id)
    ensures x.Integer? && y.Integer? ==> (ValueLess(x, y) <==> x.i < y.i)
    ensures x.Boolean? && y.Boolean? ==> (ValueLess(x, y) <==> x == Boolean(false) && y == Boolean(true))
    ensures x.Symbol? && !y.Symbol? ==> ValueLess(x, y) && !ValueLess(y, x)
    ensures x.Integer? && y.Boolean? ==> ValueLess(x, y) && !ValueLess(y, x)
  {
  }

  /** Facts go by predicate, then by length, then by the first value that differs. */
  lemma {:induction false} FirstDifferenceDecides(a: Fact, b: Fact)
    ensures Less(a, b) <==>
              || a.pred < b.pred
              || (a.pred == b.pred && |a.values| < |b.values|)
              || (a.pred == b.pred && |a.values| == |b.values| &&
                  exists k :: 0 <= k < |a.values| && a.values[..k] == b.values[..k] && ValueLess(a.values[k], b.values[k]))
  {
    hide ValueLess;
    if |a.values| == |b.values| { DifferenceDecides(a.values, b.values); }
  }

  lemma {:induction false} DifferenceDecides(a: seq<Value>, b: seq<Value>)
    requires |a| == |b|
    ensures ValuesLess(a, b) <==> exists k :: 0 <= k < |a| && a[..k] == b[..k] && ValueLess(a[k], b[k])
    decreases |a|
  {
    hide ValueLess;
    if a != [] {
      DifferenceDecides(a[1..], b[1..]);
      if ValuesLess(a, b) && !ValueLess(a[0], b[0]) {
        var k :| 0 <= k < |a[1..]| && a[1..][..k] == b[1..][..k] && ValueLess(a[1..][k], b[1..][k]);
        assert a[..k + 1] == [a[0]] + a[1..][..k] && b[..k + 1] == [b[0]] + b[1..][..k];
        assert ValueLess(a[k + 1], b[k + 1]);
      }
      if ValuesLess(a, b) && ValueLess(a[0], b[0]) { assert a[..0] == b[..0]; }
      if k :| 0 <= k < |a| && a[..k] == b[..k] && ValueLess(a[k], b[k]) {
        if k > 0 {
          assert a[0] == a[..k][0] == b[..k][0] == b[0];
          assert a[1..][..k - 1] == a[..k][1..] == b[..k][1..] == b[1..][..k - 1];
          assert a[1..][k - 1] == a[k] && b[1..][k - 1] == b[k];
        }
      }
    }
  }

  lemma {:induction false} ValuesOrdered(a: seq<Value>, b: seq<Value>)
    requires |a| == |b|
    ensures ValuesLess(a, b) || a == b || ValuesLess(b, a)
    ensures !(ValuesLess(a, b) && ValuesLess(b, a))
    ensures a == b ==> !ValuesLess(a, b)
    decreases |a|
  {
    if a != [] {
      ValuesOrdered(a[1..], b[1..]);
      assert a[0] == b[0] && a[1..] == b[1..] ==> a == [b[0]] + b[1..];
    }
  }

  lemma {:induction false} ValuesTransitive(a: seq<Value>, b: seq<Value>, c: seq<Value>)
    requires |a| == |b| == |c| && ValuesLess(a, b) && ValuesLess(b, c)
    ensures ValuesLess(a, c)
    decreases |a|
  {
    if a[0] == b[0] && b[0] == c[0] {
      ValuesTransitive(a[1..], b[1..], c[1..]);
    }
  }

  /** The order is total: exactly one of less, equal and greater holds. */
  lemma Trichotomy(a: Fact, b: Fact)
    ensures Less(a, b) || a == b || Less(b, a)
    ensures !(Less(a, b) && Less(b, a))
    ensures a == b ==> !Less(a, b)
  {
    if |a.values| == |b.values| { ValuesOrdered(a.values, b.values); }
  }

  lemma Transitive(a: Fact, b: Fact, c: Fact)
    requires Less(a, b) && Less(b, c)
    ensures Less(a, c)
  {
    if a.pred == b.pred == c.pred && |a.values| == |b.values| == |c.values| {
      ValuesTransitive(a.values, b.values, c.values);
    }
  }

  /** Strictly ascending, hence without duplicates. */
  ghost predicate Ascending(s: seq<Fact>) {
    forall i, j :: 0 <= i < j < |s| ==> Less(s[i], s[j])
  }

  /** One comparison settles one half of a sorted list. */
  lemma Halves(s: seq<Fact>, mid: nat, f: Fact)
    requires Ascending(s) && mid < |s|
    ensures Less(s[mid], f) ==> forall i :: 0 <= i <= mid ==> Less(s[i], f)
    ensures !Less(s[mid], f) ==> forall i :: mid <= i < |s| ==> !Less(s[i], f)
  {
    if Less(s[mid], f) {
      forall i | 0 <= i < mid ensures Less(s[i], f) { Transitive(s[i], s[mid], f); }
    } else {
      forall i | mid < i < |s| ensures !Less(s[i], f) {
        if Less(s[i], f) { Transitive(s[mid], s[i], f); }
      }
    }
  }

  /** A fact can only be in a sorted list where the facts stop being below it. */
  lemma FirstNotBelow(s: seq<Fact>, k: nat, f: Fact)
    requires Ascending(s) && k <= |s|
    requires (forall i :: 0 <= i < k ==> Less(s[i], f)) && forall i :: k <= i < |s| ==> !Less(s[i], f)
    ensures k < |s| && s[k] == f <==> f in s
  {
    if f in s {
      var i :| 0 <= i < |s| && s[i] == f;
      Trichotomy(f, f);
      assert k <= i;
      if k < i { Trichotomy(s[k], f); }
    }
  }

  /** The first position whose fact is not below f: a binary search. */
  method Position(s: seq<Fact>, f: Fact) returns (k: nat)
    requires Ascending(s)
    ensures k <= |s|
    ensures forall i :: 0 <= i < k ==> Less(s[i], f)
    ensures forall i :: k <= i < |s| ==> !Less(s[i], f)
    ensures k < |s| && s[k] == f <==> f in s
  {
    var lo, hi := 0, |s|;
    while lo < hi
      invariant 0 <= lo <= hi <= |s|
      invariant forall i :: 0 <= i < lo ==> Less(s[i], f)
      invariant forall i :: hi <= i < |s| ==> !Less(s[i], f)
    {
      var mid := lo + (hi - lo) / 2;
      Halves(s, mid, f);
      if Less(s[mid], f) { lo := mid + 1; } else { hi := mid; }
    }
    k := lo;
    FirstNotBelow(s, k, f);
  }

  /** Membership in a sorted set. */
  method Contains(s: seq<Fact>, f: Fact) returns (found: bool)
    requires Ascending(s)
    ensures found <==> f in s
  {
    var k := Position(s, f);
    found := k < |s| && s[k] == f;
  }

  /* ---------- sorting distinct facts ---------- */

  ghost predicate DistinctFacts(s: seq<Fact>) {
    forall i, j :: 0 <= i < j < |s| ==> s[i] != s[j]
  }

  function FactSet(s: seq<Fact>): set<Fact> {
    set f | f in s
  }

  lemma {:induction false} DistinctSize(s: seq<Fact>)
    requires DistinctFacts(s)
    ensures |FactSet(s)| == |s|
  {
    if s != [] {
      var front, last := s[..|s| - 1], s[|s| - 1];
      DistinctSize(front);
      assert FactSet(s) == FactSet(front) + {last};
    }
  }

  lemma AscendingDistinct(s: seq<Fact>)
    requires Ascending(s)
    ensures DistinctFacts(s)
  {
    forall i, j | 0 <= i < j < |s| ensures s[i] != s[j] { Trichotomy(s[i], s[j]); }
  }

  /** Inserts the last fact of s into the ascending facts before it, by swapping it down. */
  method SwapDown(s: seq<Fact>) returns (r: seq<Fact>)
    requires s != [] && Ascending(s[..|s| - 1]) && DistinctFacts(s)
    ensures Ascending(r) && |r| == |s| && FactSet(r) == FactSet(s)
  {
    hide Less;
    r := s;
    var j := |s| - 1;
    ghost var x := s[|s| - 1];
    ghost var rest := s[..|s| - 1];
    while j > 0 && Less(r[j], r[j - 1])
      invariant 0 <= j < |s| == |r|
      invariant r == rest[..j] + [x] + rest[j..]
      invariant forall i :: j <= i < |rest| ==> Less(x, rest[i])
    {
      assert r[j] == x && r[j - 1] == rest[j - 1];
      r := r[j - 1 := r[j]][j := r[j - 1]];
      j := j - 1;
      assert r == rest[..j] + [x] + rest[j..];
    }
    assert r[j] == x;
    if j > 0 {
      Trichotomy(x, rest[j - 1]);
      assert r[j - 1] == rest[j - 1] == s[j - 1] && x == s[|s| - 1];
      forall i | 0 <= i < j ensures Less(rest[i], x) {
        if i < j - 1 { Transitive(rest[i], rest[j - 1], x); }
      }
    }
    assert FactSet(r) == FactSet(rest) + {x} == FactSet(s);
  }

  /** Insertion sort of a slice of distinct facts. */
  method SortFacts(s: seq<Fact>) returns (r: seq<Fact>)
    requires DistinctFacts(s)
    ensures Ascending(r) && |r| == |s| && FactSet(r) == FactSet(s)
  {
    r := [];
    for i := 0 to |s|
      invariant Ascending(r) && |r| == i && FactSet(r) == FactSet(s[..i])
    {
      assert s[i] !in s[..i];
      assert s[i] !in FactSet(s[..i]);
      AscendingDistinct(r);
      assert (r + [s[i]])[..i] == r;
      ghost var before := r;
      r := SwapDown(r + [s[i]]);
      assert FactSet(s[..i + 1]) == FactSet(s[..i]) + {s[i]};
      assert FactSet(before + [s[i]]) == FactSet(before) + {s[i]};
    }
    assert s[..|s|] == s;
  }

  /* ---------- counting by predicate ---------- */

  function CountOf(s: seq<Fact>, q: nat): nat {
    if s == [] then 0 else CountOf(s[..|s| - 1], q) + (if s[|s| - 1].pred == q then 1 else 0)
  }

  lemma {:induction false} NoneCounted(s: seq<Fact>, q: nat)
    requires forall i :: 0 <= i < |s| ==> s[i].pred != q
    ensures CountOf(s, q) == 0
  {
    if s != [] { NoneCounted(s[..|s| - 1], q); }
  }

  lemma CountGrows(s: seq<Fact>, f: Fact, q: nat)
    ensures CountOf(s + [f], q) == CountOf(s, q) + (if f.pred == q then 1 else 0)
  {
    assert (s + [f])[..|s|] == s;
  }

  /** The facts of one predicate. */
  ghost function OfPredicate(s: set<Fact>, q: nat): set<Fact> {
    set f | f in s && f.pred == q
  }

  lemma {:induction false} CountIsSize(s: seq<Fact>, q: nat)
    requires DistinctFacts(s)
    ensures CountOf(s, q) == |OfPredicate(FactSet(s), q)|
  {
    if s != [] {
      var front, last := s[..|s| - 1], s[|s| - 1];
      CountIsSize(front, q);
      assert FactSet(s) == FactSet(front) + {last};
      if last.pred == q {
        assert OfPredicate(FactSet(s), q) == OfPredicate(FactSet(front), q) + {last};
      } else {
        assert OfPredicate(FactSet(s), q) == OfPredicate(FactSet(front), q);
      }
    } else {
      assert OfPredicate(FactSet(s), q) == {};
    }
  }
}
