/**
 Evaluation of count, min, max and sum over the facts of a frozen store.
 */
module Aggregates {
  import opened Datalog
  import opened FactOrder
  import opened IntroSort
  import opened Semantics

  /* ---------- sorting with duplicates ---------- */

  ghost predicate Sorted<T>(s: seq<T>, less: (T, T) -> bool) {
    forall i, j :: 0 <= i < j < |s| ==> !less(s[j], s[i])
  }

  method SortAll<T(!new)>(s: seq<T>, less: (T, T) -> bool) returns (r: seq<T>)
    requires TotalOrder(less)
    ensures Sorted(r, less) && multiset(r) == multiset(s)
  {
    hide TotalOrder;
    var a := new T[|s|](i requires 0 <= i < |s| => s[i]);
    assert a[..] == s;
    ghost var _ := Sort(a, |s|, less);
    r := a[..];
  }

  function Elements<T>(s: seq<T>): set<T> {
    set x | x in s
  }

  /** In a sorted list an element that differs from its neighbour is new. */
  lemma SortedNeighbour<T(!new)>(s: seq<T>, less: (T, T) -> bool, i: nat)
    requires TotalOrder(less) && Sorted(s, less) && 0 < i < |s| && s[i] != s[i - 1]
    ensures s[i] !in s[..i]
  {
    assert !less(s[i], s[i - 1]);
    assert less(s[i - 1], s[i]);
    forall k | 0 <= k < i - 1
      ensures s[k] != s[i]
    {
      assert !less(s[i - 1], s[k]);
    }
  }

  lemma ElementsGrow<T>(s: seq<T>, i: nat)
    requires i < |s|
    ensures Elements(s[..i + 1]) == Elements(s[..i]) + {s[i]}
  {
    assert s[..i + 1] == s[..i] + [s[i]];
  }

  /** Walking along a sorted list, the elements met for the first time are those that
      differ from the one before. */
  lemma FirstMeeting<T(!new)>(s: seq<T>, less: (T, T) -> bool, i: nat)
    requires TotalOrder(less) && Sorted(s, less) && i < |s|
    ensures s[i] !in Elements(s[..i]) <==> (i == 0 || s[i - 1] != s[i])
  {
    if i > 0 {
      assert s[i - 1] in s[..i];
      if s[i - 1] != s[i] { SortedNeighbour(s, less, i); }
    }
  }

  /** Sorts, then counts the places where an element differs from the one before. */
  method CountDistinct<T(==,!new)>(s: seq<T>, less: (T, T) -> bool) returns (n: nat)
    requires TotalOrder(less)
    ensures n == |Elements(s)|
  {
    hide TotalOrder, Sorted;
    var sorted := SortAll(s, less);
    n := 0;
    for i := 0 to |sorted|
      invariant n == |Elements(sorted[..i])|
    {
      ElementsGrow(sorted, i);
      FirstMeeting(sorted, less, i);
      if i == 0 || sorted[i - 1] != sorted[i] {
        n := n + 1;
      } else {
        assert Elements(sorted[..i + 1]) == Elements(sorted[..i]);
      }
    }
    assert sorted[..|sorted|] == sorted;
    SameElements(sorted, s);
  }

  lemma SameElements<T>(s: seq<T>, t: seq<T>)
    requires multiset(s) == multiset(t)
    ensures Elements(s) == Elements(t)
  {
    assert forall x :: x in s <==> x in multiset(s);
    assert forall x :: x in t <==> x in multiset(t);
  }

  lemma ValueOrder()
    ensures TotalOrder(ValueLess)
  {
  }

  lemma FactsOrder()
    ensures TotalOrder(Less)
  {
    forall x, y
      ensures Less(x, y) || x == y || Less(y, x)
      ensures Less(x, y) ==> x != y && !Less(y, x)
    {
      Trichotomy(x, y);
    }
    forall x, y, z | Less(x, y) && Less(y, z)
      ensures Less(x, z)
    {
      Transitive(x, y, z);
    }
  }

  /* ---------- evaluation ---------- */

  function Matching(facts: seq<Fact>, l: Literal, b: Bindings): set<Fact>
    requires l.Aggregate? && GroupKeys(l) <= b.Keys
  {
    set f | f in facts && MatchesPattern(l, b, f)
  }

  /** The value a match gives to the projected variable stands at its first occurrence. */
  lemma ProjectedValue(l: Literal, b: Bindings, f: Fact)
    requires l.Aggregate? && GroupKeys(l) <= b.Keys && MatchesPattern(l, b, f)
    requires l.projection in TermsVars(l.atom.terms)
    ensures ProjectedTerm(l.atom.terms, l.projection) < |f.values|
    ensures var local := MatchFact(map[], Pattern(l, b), f).value;
            l.projection in local && local[l.projection] == Projected(f, ProjectedTerm(l.atom.terms, l.projection))
  {
    var t := ProjectedTerm(l.atom.terms, l.projection);
    FirstOccurrence(l.atom.terms, l.projection);
    MatchFactSound(map[], Pattern(l, b), f);
    var local := MatchFact(map[], Pattern(l, b), f).value;
    assert Pattern(l, b).terms[t] == PatternTerm(l, b, t) == Var(l.projection);
    assert Ground(Pattern(l, b), local).values[t] == f.values[t];
  }

  lemma {:induction false} FirstOccurrence(ts: seq<Term>, v: nat)
    requires v in TermsVars(ts)
    ensures ProjectedTerm(ts, v) < |ts| && ts[ProjectedTerm(ts, v)] == Var(v)
  {
    if ts[0] != Var(v) {
      TermsVarsCons(ts);
      FirstOccurrence(ts[1..], v);
    }
  }

  ghost function ProjectedSet(facts: set<Fact>, t: nat): set<Value> {
    set f | f in facts :: Projected(f, t)
  }

  /** The facts that match the source atom, in store order. */
  method Collect(facts: seq<Fact>, l: Literal, b: Bindings) returns (matches: seq<Fact>, values: seq<Value>)
    requires l.Aggregate? && GroupKeys(l) <= b.Keys && l.projection in TermsVars(l.atom.terms)
    ensures Elements(matches) == Matching(facts, l, b)
    ensures Elements(values) == ProjectedSet(Matching(facts, l, b), ProjectedTerm(l.atom.terms, l.projection))
  {
    matches, values := [], [];
    ghost var t := ProjectedTerm(l.atom.terms, l.projection);
    for i := 0 to |facts|
      invariant Elements(matches) == Matching(facts[..i], l, b)
      invariant Elements(values) == ProjectedSet(Matching(facts[..i], l, b), t)
    {
      var m := MatchFact(map[], Pattern(l, b), facts[i]);
      ghost var before := Matching(facts[..i], l, b);
      if m.Some? {
        ProjectedValue(l, b, facts[i]);
        assert Matching(facts[..i + 1], l, b) == before + {facts[i]};
        assert ProjectedSet(before + {facts[i]}, t) == ProjectedSet(before, t) + {Projected(facts[i], t)};
        assert Elements(values + [m.value[l.projection]]) == Elements(values) + {m.value[l.projection]};
        assert Elements(matches + [facts[i]]) == Elements(matches) + {facts[i]};
        matches, values := matches + [facts[i]], values + [m.value[l.projection]];
      } else {
        assert Matching(facts[..i + 1], l, b) == before;
      }
    }
    assert facts[..|facts|] == facts;
  }

  /** The number of distinct values the matching facts give to the projected variable. */
  method EvaluateCount(facts: seq<Fact>, l: Literal, b: Bindings) returns (out: AggOutcome)
    requires l.Aggregate? && l.kind.Count? && GroupKeys(l) <= b.Keys && l.projection in TermsVars(l.atom.terms)
    ensures AggregateIs(l.kind, Matching(facts, l, b), ProjectedTerm(l.atom.terms, l.projection), out)
  {
    var matches, values := Collect(facts, l, b);
    ValueOrder();
    var n := CountDistinct(values, ValueLess);
    out := Yields(Integer(n));
  }

  /** Minimum, maximum and sum. All of them reject a projected value that is no bounded
      non-negative integer. */
  method EvaluateNumeric(facts: seq<Fact>, l: Literal, b: Bindings) returns (out: AggOutcome)
    requires l.Aggregate? && !l.kind.Count? && GroupKeys(l) <= b.Keys && l.projection in TermsVars(l.atom.terms)
    ensures AggregateIs(l.kind, Matching(facts, l, b), ProjectedTerm(l.atom.terms, l.projection), out)
  {
    var t := ProjectedTerm(l.atom.terms, l.projection);
    var matches, values := Collect(facts, l, b);
    var accumulated, found := 0, false;
    for i := 0 to |matches|
      invariant forall j :: 0 <= j < i ==> Summable(Projected(matches[j], t))
      invariant found <==> i > 0
      invariant !l.kind.Sum? && found ==>
                  && (exists j :: 0 <= j < i && IntegerAt(matches[j], t) == accumulated)
                  && (forall j :: 0 <= j < i ==>
                        if l.kind.Min? then accumulated <= IntegerAt(matches[j], t) else IntegerAt(matches[j], t) <= accumulated)
    {
      var v := Projected(matches[i], t);
      if !Summable(v) {
        assert matches[i] in Elements(matches);
        return Rejected;
      }
      if !l.kind.Sum? && (!found || (if l.kind.Min? then v.i < accumulated else v.i > accumulated)) {
        accumulated := v.i;
        assert IntegerAt(matches[i], t) == accumulated;
      }
      found := true;
    }
    assert forall f :: f in Matching(facts, l, b) ==> f in matches by {
      assert forall f :: f in Matching(facts, l, b) ==> f in Elements(matches);
    }
    if l.kind.Sum? {
      out := EvaluateSum(matches, t);
    } else if !found {
      assert Matching(facts, l, b) == {};
      out := NoValue;
    } else {
      ghost var j :| 0 <= j < |matches| && IntegerAt(matches[j], t) == accumulated;
      assert matches[j] in Elements(matches);
      out := Yields(Integer(accumulated));
    }
  }

  lemma SumStep(sorted: seq<Fact>, t: nat, i: nat)
    requires Sorted(sorted, Less) && i < |sorted|
    requires forall f :: f in sorted ==> Summable(Projected(f, t))
    ensures Total(Elements(sorted[..i + 1]), t) <= Total(Elements(sorted), t)
    ensures Total(Elements(sorted[..i + 1]), t) ==
            Total(Elements(sorted[..i]), t) + if i > 0 && sorted[i - 1] == sorted[i] then 0 else IntegerAt(sorted[i], t)
  {
    FactsOrder();
    ElementsGrow(sorted, i);
    FirstMeeting(sorted, Less, i);
    TotalMonotone(Elements(sorted[..i + 1]), Elements(sorted), t);
    if i > 0 && sorted[i - 1] == sorted[i] {
      assert Elements(sorted[..i + 1]) == Elements(sorted[..i]);
    } else {
      TotalAdds(Elements(sorted[..i + 1]), t, sorted[i]);
      assert Elements(sorted[..i + 1]) - {sorted[i]} == Elements(sorted[..i]);
    }
  }

  /** The sum over the distinct facts of a list, refused once it passes the bound. */
  method EvaluateSum(matches: seq<Fact>, t: nat) returns (out: AggOutcome)
    requires forall f :: f in matches ==> Summable(Projected(f, t))
    ensures out == if Total(Elements(matches), t) <= MAX_INT then Yields(Integer(Total(Elements(matches), t))) else Rejected
  {
    hide TotalOrder, Sorted, Less;
    FactsOrder();
    var sorted := SortAll(matches, Less);
    SameElements(sorted, matches);
    forall f | f in sorted ensures Summable(Projected(f, t)) {
      assert f in Elements(sorted);
    }
    var accumulated := 0;
    assert Elements(sorted[..0]) == {};
    for i := 0 to |sorted|
      invariant accumulated == Total(Elements(sorted[..i]), t) <= MAX_INT
    {
      SumStep(sorted, t, i);
      if i > 0 && sorted[i - 1] == sorted[i] { continue; }
      var addend := IntegerAt(sorted[i], t);
      if accumulated > MAX_INT - addend {
        return Rejected;
      }
      accumulated := accumulated + addend;
    }
    assert sorted[..|sorted|] == sorted;
    out := Yields(Integer(accumulated));
  }

  /** Non-negative addends make the refusal independent of the order of summation. */
  lemma {:induction false} TotalMonotone(a: set<Fact>, b: set<Fact>, t: nat)
    requires a <= b && forall f :: f in b ==> Summable(Projected(f, t))
    ensures 0 <= Total(a, t) <= Total(b, t)
    decreases |b|
  {
    if b != {} {
      if a == b {
        var f :| f in a;
        TotalAdds(a, t, f);
        TotalMonotone(a - {f}, b - {f}, t);
      } else {
        var f :| f in b && f !in a;
        TotalAdds(b, t, f);
        TotalMonotone(a, b - {f}, t);
      }
    }
  }

  /** A fact whose value is the least, or the greatest. */
  ghost predicate Extreme(least: bool, facts: set<Fact>, t: nat, g: Fact)
    requires forall f :: f in facts ==> t < |f.values|
  {
    && g in facts && g.values[t].Integer?
    && forall f :: f in facts ==>
         f.values[t].Integer? && if least then g.values[t].i <= f.values[t].i else f.values[t].i <= g.values[t].i
  }

  /** A way of filling the source atom that keeps to the bindings on its named variables, the
      projected one excepted. */
  ghost predicate Fills(l: Literal, s: Bindings, t: Bindings)
    requires l.Aggregate?
  {
    && TermsBound(l.atom.terms, t)
    && forall v :: v in TermsVars(l.atom.terms) && v < 26 && v != l.projection ==> v in s && t[v] == s[v]
  }

  /** An aggregate ranges over exactly the facts that fill its source atom, and takes from each
      the value of the projected variable. */
  lemma RangesOver(l: Literal, s: Bindings, f: Fact)
    requires l.Aggregate? && GroupKeys(l) <= s.Keys
    ensures MatchesPattern(l, s, f) <==> exists t :: Fills(l, s, t) && Ground(l.atom, t) == f
    ensures forall t :: Fills(l, s, t) && Ground(l.atom, t) == f && l.projection in TermsVars(l.atom.terms) ==>
              Projected(f, ProjectedTerm(l.atom.terms, l.projection)) == t[l.projection]
  {
    if MatchesPattern(l, s, f) { MatchFills(l, s, f); }
    forall t | Fills(l, s, t) && Ground(l.atom, t) == f
      ensures MatchesPattern(l, s, f)
      ensures l.projection in TermsVars(l.atom.terms) ==>
                Projected(f, ProjectedTerm(l.atom.terms, l.projection)) == t[l.projection]
    {
      FillsMatch(l, s, t);
      if l.projection in TermsVars(l.atom.terms) { ProjectedAt(l.atom.terms, l.projection); }
    }
  }

  lemma MatchFills(l: Literal, s: Bindings, f: Fact)
    requires l.Aggregate? && GroupKeys(l) <= s.Keys && MatchesPattern(l, s, f)
    ensures exists t :: Fills(l, s, t) && Ground(l.atom, t) == f
  {
    hide Fills, Ground;
    MatchTermsSound(map[], Pattern(l, s).terms, f.values);
    var t := Filling(l, s, MatchTerms(map[], Pattern(l, s).terms, f.values).value);
    FillingFills(l, s, MatchTerms(map[], Pattern(l, s).terms, f.values).value, f);
    assert Fills(l, s, t) && Ground(l.atom, t) == f;
  }

  /** The bindings on the group keys, and what a match found elsewhere. */
  ghost function Filling(l: Literal, s: Bindings, b: Bindings): Bindings
    requires l.Aggregate? && GroupKeys(l) <= s.Keys
  {
    map v | v in TermsVars(l.atom.terms) && (v in GroupKeys(l) || v in b) :: if v in GroupKeys(l) then s[v] else b[v]
  }

  lemma FillingFills(l: Literal, s: Bindings, b: Bindings, f: Fact)
    requires l.Aggregate? && GroupKeys(l) <= s.Keys && f.pred == l.atom.pred && |f.values| == |l.atom.terms|
    requires TermsBound(Pattern(l, s).terms, b)
    requires forall i :: 0 <= i < |f.values| ==> Instantiate(Pattern(l, s).terms[i], b) == f.values[i]
    ensures Fills(l, s, Filling(l, s, b)) && Ground(l.atom, Filling(l, s, b)) == f
  {
    var ts, t := l.atom.terms, Filling(l, s, b);
    forall i | 0 <= i < |ts|
      ensures (ts[i].Const? || ts[i].v in t) && Instantiate(ts[i], t) == f.values[i]
    {
      assert Pattern(l, s).terms[i] == PatternTerm(l, s, i);
      assert ts[i].Var? ==> ts[i].v in TermsVars(ts);
    }
    assert Ground(l.atom, t).values == f.values;
  }

  lemma FillsMatch(l: Literal, s: Bindings, t: Bindings)
    requires l.Aggregate? && GroupKeys(l) <= s.Keys && Fills(l, s, t)
    ensures MatchesPattern(l, s, Ground(l.atom, t))
  {
    var p := Pattern(l, s);
    assert Ground(p, t).values == Ground(l.atom, t).values;
    MatchFactExact(map[], p, Ground(l.atom, t), t);
  }

  lemma {:induction false} ProjectedAt(ts: seq<Term>, v: nat)
    requires v in TermsVars(ts)
    ensures ProjectedTerm(ts, v) < |ts| && ts[ProjectedTerm(ts, v)] == Var(v)
  {
    if ts[0] != Var(v) {
      assert v in TermsVars(ts[1..]) by {
        var i :| 0 <= i < |ts| && ts[i] == Var(v);
        assert ts[1..][i - 1] == Var(v);
      }
      ProjectedAt(ts[1..], v);
    }
  }

  /** What an outcome says, in numbers. A count is of distinct values. The others are rejected
      exactly if some value is no integer from 0 to 2147483647, or a sum passes that bound. */
  lemma OutcomeInNumbers(kind: AggKind, facts: set<Fact>, t: nat, out: AggOutcome)
    requires AggregateIs(kind, facts, t, out) && forall f :: f in facts ==> t < |f.values|
    ensures kind.Count? ==> out == Yields(Integer(|set f | f in facts :: f.values[t]|))
    ensures !kind.Count? ==>
              (out.Rejected? <==>
                 (exists f :: f in facts && !(f.values[t].Integer? && 0 <= f.values[t].i <= 2147483647))
                 || (kind.Sum? && Total(facts, t) > 2147483647))
    ensures kind.Sum? && !out.Rejected? ==> out == Yields(Integer(Total(facts, t)))
    ensures (kind.Min? || kind.Max?) && !out.Rejected? ==>
              if facts == {} then out == NoValue
              else out.Yields? && exists g :: Extreme(kind.Min?, facts, t, g) && g.values[t] == out.value
  {
    if kind.Count? {
      assert (set f | f in facts :: f.values[t]) == (set f | f in facts :: Projected(f, t));
    }
    if (kind.Min? || kind.Max?) && !out.Rejected? && facts != {} {
      var g :| g in facts && IntegerAt(g, t) == out.value.i;
      assert Summable(Projected(g, t));
      forall f | f in facts ensures f.values[t].Integer? { assert Summable(Projected(f, t)); }
      assert Extreme(kind.Min?, facts, t, g);
    }
  }

  /** A total is the sum of the values, fact by fact. */
  lemma TotalInNumbers(facts: set<Fact>, t: nat, g: Fact)
    requires g in facts && t < |g.values| && g.values[t].Integer?
    ensures Total({}, t) == 0 && Total(facts, t) == g.values[t].i + Total(facts - {g}, t)
  {
    TotalAdds(facts, t, g);
  }

  method EvaluateAggregate(facts: seq<Fact>, l: Literal, b: Bindings) returns (out: AggOutcome)
    requires l.Aggregate? && GroupKeys(l) <= b.Keys && l.projection in TermsVars(l.atom.terms)
    ensures AggregateIs(l.kind, Matching(facts, l, b), ProjectedTerm(l.atom.terms, l.projection), out)
  {
    if l.kind.Count? {
      out := EvaluateCount(facts, l, b);
    } else {
      out := EvaluateNumeric(facts, l, b);
    }
  }
}
