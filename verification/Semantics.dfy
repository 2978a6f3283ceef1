/**
 What a stratified policy means. A rule is read over two interpretations, one for its
 positive atoms and one for its negated atoms and aggregates. The perfect model is built
 stratum by stratum, each as the limit of its rounds. It is shown to be the one and only
 stable model of the policy, a notion that does not speak of strata at all.
 */
module Semantics {
  import opened Datalog
  import opened Strata

  type Interp = iset<Fact>

  /* ---------- aggregates ---------- */

  datatype AggOutcome = Yields(value: Value) | NoValue | Rejected

  /** The source atom with its group keys replaced by their values. */
  function Pattern(l: Literal, s: Bindings): Atom
    requires l.Aggregate? && GroupKeys(l) <= s.Keys
  {
    Atom(l.atom.pred, seq(|l.atom.terms|, i requires 0 <= i < |l.atom.terms| => PatternTerm(l, s, i)))
  }

  function PatternTerm(l: Literal, s: Bindings, i: nat): Term
    requires l.Aggregate? && GroupKeys(l) <= s.Keys && i < |l.atom.terms|
  {
    var t := l.atom.terms[i];
    if t.Var? && t.v < NAMED_VARIABLE_COUNT && t.v != l.projection then
      assert t.v in TermsVars(l.atom.terms);
      Const(s[t.v])
    else t
  }

  predicate MatchesPattern(l: Literal, s: Bindings, f: Fact)
    requires l.Aggregate? && GroupKeys(l) <= s.Keys
  {
    MatchFact(map[], Pattern(l, s), f).Some?
  }

  /** The term of the source atom that is projected: the first occurrence of the variable. */
  function ProjectedTerm(ts: seq<Term>, projection: nat): nat
    ensures ProjectedTerm(ts, projection) <= |ts|
  {
    if ts == [] || ts[0] == Var(projection) then 0 else 1 + ProjectedTerm(ts[1..], projection)
  }

  function Projected(f: Fact, t: nat): Value {
    if t < |f.values| then f.values[t] else Boolean(false)
  }

  predicate Summable(v: Value) {
    v.Integer? && 0 <= v.i <= MAX_INT
  }

  function IntegerAt(f: Fact, t: nat): int {
    if t < |f.values| && f.values[t].Integer? then f.values[t].i else 0
  }

  ghost function Total(facts: set<Fact>, t: nat): int {
    if facts == {} then 0
    else var f :| f in facts; IntegerAt(f, t) + Total(facts - {f}, t)
  }

  /** A total does not depend on the order of summation. */
  lemma {:induction false} TotalAdds(facts: set<Fact>, t: nat, g: Fact)
    requires g in facts
    ensures Total(facts, t) == IntegerAt(g, t) + Total(facts - {g}, t)
    decreases |facts|
  {
    var f :| f in facts && Total(facts, t) == IntegerAt(f, t) + Total(facts - {f}, t);
    if f != g {
      TotalAdds(facts - {f}, t, g);
      TotalAdds(facts - {g}, t, f);
      assert facts - {f} - {g} == facts - {g} - {f};
    }
  }

  /** The value of an aggregate over the set of facts that match its source atom: a count
      is of distinct projected values, a sum is over distinct facts, and an extremum of
      nothing has no value. */
  ghost predicate AggregateIs(kind: AggKind, facts: set<Fact>, t: nat, out: AggOutcome) {
    if kind.Count? then
      out == Yields(Integer(|set f | f in facts :: Projected(f, t)|))
    else if exists f :: f in facts && !Summable(Projected(f, t)) then
      out == Rejected
    else if kind.Sum? then
      out == if Total(facts, t) <= MAX_INT then Yields(Integer(Total(facts, t))) else Rejected
    else if facts == {} then
      out == NoValue
    else
      && out.Yields? && out.value.Integer?
      && (exists f :: f in facts && IntegerAt(f, t) == out.value.i)
      && (forall f :: f in facts ==>
            if kind.Min? then out.value.i <= IntegerAt(f, t) else IntegerAt(f, t) <= out.value.i)
  }

  /** The facts of an interpretation that match the source atom. */
  ghost predicate MatchSet(l: Literal, s: Bindings, neg: Interp, facts: set<Fact>)
    requires l.Aggregate? && GroupKeys(l) <= s.Keys
  {
    forall f :: f in facts <==> f in neg && MatchesPattern(l, s, f)
  }

  ghost predicate AggregateHolds(l: Literal, s: Bindings, neg: Interp)
    requires l.Aggregate?
  {
    && GroupKeys(l) <= s.Keys && l.output in s
    && exists facts: set<Fact> ::
         MatchSet(l, s, neg, facts) &&
         AggregateIs(l.kind, facts, ProjectedTerm(l.atom.terms, l.projection), Yields(s[l.output]))
  }

  /* ---------- rules ---------- */

  ghost predicate LiteralHolds(l: Literal, s: Bindings, pos: Interp, neg: Interp) {
    match l
    case Positive(a) => TermsBound(a.terms, s) && Ground(a, s) in pos
    case Negated(a) => TermsBound(a.terms, s) && Ground(a, s) !in neg
    case Comparison(_, _, _) => EvalComparison(l, s) == Yes
    case Arithmetic(_, _, _) => EvalComparison(l, s) == Yes
    case Aggregate(_, _, _, _) => AggregateHolds(l, s, neg)
  }

  ghost predicate BodyHolds(body: seq<Literal>, s: Bindings, pos: Interp, neg: Interp) {
    forall i :: 0 <= i < |body| ==> LiteralHolds(body[i], s, pos, neg)
  }

  /** An instance of the rule gives the fact. */
  ghost predicate Instance(rule: Rule, s: Bindings, pos: Interp, neg: Interp, f: Fact) {
    && s.Keys == BodyVars(rule.body)
    && BodyHolds(rule.body, s, pos, neg)
    && TermsBound(rule.head.terms, s) && Ground(rule.head, s) == f
  }

  ghost predicate Derives(rule: Rule, pos: Interp, neg: Interp, f: Fact) {
    exists s :: Instance(rule, s, pos, neg, f)
  }

  /** Two interpretations agree on the predicates below a stratum. */
  ghost predicate AgreeBelow(strata: nat -> nat, n: nat, x: Interp, y: Interp) {
    forall f: Fact :: strata(f.pred) < n ==> (f in x <==> f in y)
  }

  /** A rule only looks at its own stratum and below, and through negation and aggregates
      strictly below. */
  lemma DerivesTransfers(p: Program, strata: nat -> nat, r: nat, pos: Interp, neg: Interp, f: Fact, pos': Interp, neg': Interp)
    requires Stratifies(p, strata) && r < |p.rules| && Derives(p.rules[r], pos, neg, f)
    requires forall g :: g in pos && strata(g.pred) <= strata(f.pred) ==> g in pos'
    requires AgreeBelow(strata, strata(f.pred), neg, neg')
    ensures Derives(p.rules[r], pos', neg', f)
  {
    var rule := p.rules[r];
    var s :| Instance(rule, s, pos, neg, f);
    forall i | 0 <= i < |rule.body|
      ensures LiteralHolds(rule.body[i], s, pos', neg')
    {
      var l := rule.body[i];
      assert LiteralHolds(l, s, pos, neg);
      if Depends(l) {
        assert RuleEdge(rule, i, f.pred, l.atom.pred, Weight(l));
        assert Edge(p, f.pred, l.atom.pred, Weight(l));
        if l.Aggregate? {
          AggregateTransfers(l, s, neg, neg', strata, strata(f.pred));
        }
      }
    }
    assert Instance(rule, s, pos', neg', f);
  }

  lemma AggregateTransfers(l: Literal, s: Bindings, neg: Interp, neg': Interp, strata: nat -> nat, n: nat)
    requires l.Aggregate? && AggregateHolds(l, s, neg)
    requires AgreeBelow(strata, n, neg, neg') && strata(l.atom.pred) < n
    ensures AggregateHolds(l, s, neg')
  {
    var facts: set<Fact> :| MatchSet(l, s, neg, facts) &&
      AggregateIs(l.kind, facts, ProjectedTerm(l.atom.terms, l.projection), Yields(s[l.output]));
    assert forall f :: MatchesPattern(l, s, f) ==> f.pred == l.atom.pred;
    assert MatchSet(l, s, neg', facts);
  }

  /* ---------- the perfect model ---------- */

  ghost predicate DerivedAt(p: Program, strata: nat -> nat, n: nat, pos: Interp, neg: Interp, f: Fact) {
    exists r :: 0 <= r < |p.rules| && strata(p.rules[r].head.pred) == n && Derives(p.rules[r], pos, neg, f)
  }

  ghost function Consequences(p: Program, strata: nat -> nat, n: nat, pos: Interp, neg: Interp): Interp {
    iset f | DerivedAt(p, strata, n, pos, neg, f)
  }

  /** What the rules of a stratum derive in at most k + 1 rounds over the strata below. */
  ghost function Round(p: Program, strata: nat -> nat, n: nat, low: Interp, k: nat): Interp {
    if k == 0 then Consequences(p, strata, n, low, low)
    else Round(p, strata, n, low, k - 1) +
         Consequences(p, strata, n, low + Round(p, strata, n, low, k - 1), low)
  }

  ghost predicate EventuallyDerived(p: Program, strata: nat -> nat, n: nat, low: Interp, f: Fact) {
    exists k: nat :: f in Round(p, strata, n, low, k)
  }

  ghost function Limit(p: Program, strata: nat -> nat, n: nat, low: Interp): Interp {
    iset f | EventuallyDerived(p, strata, n, low, f)
  }

  /** The model of the strata below n. */
  ghost function Stage(p: Program, strata: nat -> nat, base: Interp, n: nat): Interp {
    if n == 0 then base
    else Stage(p, strata, base, n - 1) + Limit(p, strata, n - 1, Stage(p, strata, base, n - 1))
  }

  lemma {:induction false} RoundGrows(p: Program, strata: nat -> nat, n: nat, low: Interp, j: nat, k: nat)
    requires j <= k
    ensures Round(p, strata, n, low, j) <= Round(p, strata, n, low, k)
  {
    hide Consequences;
    if j < k { RoundGrows(p, strata, n, low, j, k - 1); }
  }

  lemma ConsequenceStratum(p: Program, strata: nat -> nat, n: nat, pos: Interp, neg: Interp, f: Fact)
    requires f in Consequences(p, strata, n, pos, neg)
    ensures strata(f.pred) == n
  {
    hide Derives;
    var r :| 0 <= r < |p.rules| && strata(p.rules[r].head.pred) == n && Derives(p.rules[r], pos, neg, f);
    DerivesHead(p.rules[r], pos, neg, f);
  }

  lemma {:induction false} RoundStratum(p: Program, strata: nat -> nat, n: nat, low: Interp, k: nat, f: Fact)
    requires f in Round(p, strata, n, low, k)
    ensures strata(f.pred) == n
  {
    hide Consequences;
    if k == 0 {
      ConsequenceStratum(p, strata, n, low, low, f);
    } else if f in Round(p, strata, n, low, k - 1) {
      RoundStratum(p, strata, n, low, k - 1, f);
    } else {
      ConsequenceStratum(p, strata, n, low + Round(p, strata, n, low, k - 1), low, f);
    }
  }

  lemma LimitStratum(p: Program, strata: nat -> nat, n: nat, low: Interp, f: Fact)
    requires f in Limit(p, strata, n, low)
    ensures strata(f.pred) == n
  {
    var k: nat :| f in Round(p, strata, n, low, k);
    RoundStratum(p, strata, n, low, k, f);
  }

  /** Finitely many facts of the limit already occur together in one round. */
  lemma {:induction false} PrefixInRound(p: Program, strata: nat -> nat, n: nat, low: Interp, body: seq<Literal>, s: Bindings)
    returns (k: nat)
    requires BodyHolds(body, s, low + Limit(p, strata, n, low), low)
    ensures BodyHolds(body, s, low + Round(p, strata, n, low, k), low)
    decreases |body|
  {
    if body == [] { return 0; }
    var front, l := body[..|body| - 1], body[|body| - 1];
    assert forall i :: 0 <= i < |front| ==> front[i] == body[i];
    k := PrefixInRound(p, strata, n, low, front, s);
    assert LiteralHolds(l, s, low + Limit(p, strata, n, low), low);
    if l.Positive? && Ground(l.atom, s) !in low {
      var j: nat :| Ground(l.atom, s) in Round(p, strata, n, low, j);
      var m := if j < k then k else j;
      RoundGrows(p, strata, n, low, j, m);
      RoundGrows(p, strata, n, low, k, m);
      k := m;
    }
    forall i | 0 <= i < |body|
      ensures LiteralHolds(body[i], s, low + Round(p, strata, n, low, k), low)
    {
      if i < |front| { assert LiteralHolds(front[i], s, low + Limit(p, strata, n, low), low); }
    }
  }

  /** The limit of a stratum is closed under its rules. */
  lemma LimitClosed(p: Program, strata: nat -> nat, n: nat, low: Interp, r: nat, f: Fact)
    requires r < |p.rules| && strata(p.rules[r].head.pred) == n
    requires Derives(p.rules[r], low + Limit(p, strata, n, low), low, f)
    ensures f in Limit(p, strata, n, low)
  {
    hide Edge, LiteralHolds;
    var s :| Instance(p.rules[r], s, low + Limit(p, strata, n, low), low, f);
    var k := PrefixInRound(p, strata, n, low, p.rules[r].body, s);
    assert Instance(p.rules[r], s, low + Round(p, strata, n, low, k), low, f);
    assert f in Round(p, strata, n, low, k + 1);
  }

  /** Later strata leave the facts of earlier ones alone. */
  lemma {:induction false} StageFrozen(p: Program, strata: nat -> nat, base: Interp, m: nat, n: nat)
    requires m <= n
    ensures Stage(p, strata, base, m) <= Stage(p, strata, base, n)
    ensures AgreeBelow(strata, m, Stage(p, strata, base, m), Stage(p, strata, base, n))
    decreases n
  {
    hide Round, EventuallyDerived;
    if m < n {
      StageFrozen(p, strata, base, m, n - 1);
      forall f: Fact | strata(f.pred) < m && f in Stage(p, strata, base, n)
        ensures f in Stage(p, strata, base, n - 1)
      {
        if f !in Stage(p, strata, base, n - 1) {
          LimitStratum(p, strata, n - 1, Stage(p, strata, base, n - 1), f);
        }
      }
    }
  }

  /* ---------- stable models ---------- */

  /** Closed under the rules, with negation and aggregates read in neg. */
  ghost predicate Closed(p: Program, x: Interp, neg: Interp) {
    forall r, f :: 0 <= r < |p.rules| && Derives(p.rules[r], x, neg, f) ==> f in x
  }

  /** m is the least interpretation over the base that is closed under the rules when
      negation and aggregates are read in m itself. */
  ghost predicate Stable(p: Program, base: Interp, m: Interp) {
    && base <= m && Closed(p, m, m)
    && forall x: Interp :: base <= x && Closed(p, x, m) ==> m <= x
  }

  /** What a rule derives it also derives from more. */
  lemma DerivesMore(rule: Rule, x: Interp, y: Interp, neg: Interp, f: Fact)
    requires x <= y && Derives(rule, x, neg, f)
    ensures Derives(rule, y, neg, f)
  {
    var s :| Instance(rule, s, x, neg, f);
    assert BodyHolds(rule.body, s, y, neg) by {
      hide AggregateHolds;
      forall i | 0 <= i < |rule.body| ensures LiteralHolds(rule.body[i], s, y, neg) {
        assert LiteralHolds(rule.body[i], s, x, neg);
      }
    }
    assert Instance(rule, s, y, neg, f);
  }

  lemma UnsupportedMayGo(p: Program, m: Interp, f: Fact)
    requires Closed(p, m, m) && forall r :: 0 <= r < |p.rules| ==> !Derives(p.rules[r], m, m, f)
    ensures Closed(p, m - iset{f}, m)
  {
    hide Derives;
    var x := m - iset{f};
    forall r, g | 0 <= r < |p.rules| && Derives(p.rules[r], x, m, g) ensures g in x {
      DerivesMore(p.rules[r], x, m, m, g);
    }
  }

  /** Every fact of a stable model is given or follows by some rule from the model itself. */
  lemma StableIsSupported(p: Program, base: Interp, m: Interp, f: Fact)
    requires Stable(p, base, m) && f in m && f !in base
    ensures exists r :: 0 <= r < |p.rules| && Derives(p.rules[r], m, m, f)
  {
    hide Derives;
    if forall r :: 0 <= r < |p.rules| ==> !Derives(p.rules[r], m, m, f) {
      UnsupportedMayGo(p, m, f);
    }
  }

  ghost predicate HeadsBelow(p: Program, strata: nat -> nat, n: nat) {
    forall r :: 0 <= r < |p.rules| ==> strata(p.rules[r].head.pred) < n
  }

  lemma DerivesHead(rule: Rule, pos: Interp, neg: Interp, f: Fact)
    requires Derives(rule, pos, neg, f)
    ensures f.pred == rule.head.pred
  {
  }

  /** What a rule of a lower stratum derives in a model that continues the perfect one,
      the perfect model has. */
  lemma DerivedIsInStage(p: Program, strata: nat -> nat, base: Interp, n: nat, pos: Interp, neg: Interp, r: nat, f: Fact)
    requires Stratifies(p, strata) && r < |p.rules| && Derives(p.rules[r], pos, neg, f)
    requires strata(f.pred) < n
    requires forall g :: g in pos && strata(g.pred) < n ==> g in Stage(p, strata, base, n)
    requires AgreeBelow(strata, strata(f.pred), Stage(p, strata, base, strata(f.pred)), neg)
    ensures f in Stage(p, strata, base, n)
  {
    hide Derives, Round, EventuallyDerived, Edge;
    var t := strata(f.pred);
    var low := Stage(p, strata, base, t);
    StageFrozen(p, strata, base, t + 1, n);
    assert Derives(p.rules[r], low + Limit(p, strata, t, low), low, f) by {
      DerivesTransfers(p, strata, r, pos, neg, f, low + Limit(p, strata, t, low), low);
    }
    assert f in Limit(p, strata, t, low) by {
      DerivesHead(p.rules[r], pos, neg, f);
      LimitClosed(p, strata, t, low, r, f);
    }
  }

  lemma PerfectClosed(p: Program, strata: nat -> nat, base: Interp, n: nat)
    requires Stratifies(p, strata) && HeadsBelow(p, strata, n)
    ensures Closed(p, Stage(p, strata, base, n), Stage(p, strata, base, n))
  {
    hide Derives, Edge, Limit, Stage;
    var m := Stage(p, strata, base, n);
    forall r, f | 0 <= r < |p.rules| && Derives(p.rules[r], m, m, f)
      ensures f in m
    {
      DerivesHead(p.rules[r], m, m, f);
      StageFrozen(p, strata, base, strata(f.pred), n);
      DerivedIsInStage(p, strata, base, n, m, m, r, f);
    }
  }

  lemma {:induction false} RoundInClosed(p: Program, strata: nat -> nat, base: Interp, n: nat, k: nat, x: Interp, neg: Interp)
    requires Stratifies(p, strata) && Closed(p, x, neg)
    requires Stage(p, strata, base, n) <= x
    requires AgreeBelow(strata, n, Stage(p, strata, base, n), neg)
    ensures Round(p, strata, n, Stage(p, strata, base, n), k) <= x
  {
    hide Derives, Edge, Stage;
    var low := Stage(p, strata, base, n);
    if k > 0 { RoundInClosed(p, strata, base, n, k - 1, x, neg); }
    var pos := if k == 0 then low else low + Round(p, strata, n, low, k - 1);
    forall f | f in Consequences(p, strata, n, pos, low)
      ensures f in x
    {
      var r :| 0 <= r < |p.rules| && strata(p.rules[r].head.pred) == n && Derives(p.rules[r], pos, low, f);
      DerivesHead(p.rules[r], pos, low, f);
      DerivesTransfers(p, strata, r, pos, low, f, x, neg);
    }
  }

  /** neg reads every stratum below n as the perfect model does. */
  ghost predicate AgreesUpTo(p: Program, strata: nat -> nat, base: Interp, n: nat, neg: Interp) {
    forall t: nat :: t < n ==> AgreeBelow(strata, t, Stage(p, strata, base, t), neg)
  }

  lemma LimitInClosed(p: Program, strata: nat -> nat, base: Interp, n: nat, x: Interp, neg: Interp)
    requires Stratifies(p, strata) && Closed(p, x, neg)
    requires Stage(p, strata, base, n) <= x
    requires AgreeBelow(strata, n, Stage(p, strata, base, n), neg)
    ensures Limit(p, strata, n, Stage(p, strata, base, n)) <= x
  {
    hide Derives, Edge, Stage, Round;
    forall f | f in Limit(p, strata, n, Stage(p, strata, base, n))
      ensures f in x
    {
      var k: nat :| f in Round(p, strata, n, Stage(p, strata, base, n), k);
      RoundInClosed(p, strata, base, n, k, x, neg);
    }
  }

  /** Every closed interpretation contains the perfect model, as far as it reads negation
      the way the perfect model does. */
  lemma {:induction false} StageInClosed(p: Program, strata: nat -> nat, base: Interp, n: nat, x: Interp, neg: Interp)
    requires Stratifies(p, strata) && base <= x && Closed(p, x, neg)
    requires AgreesUpTo(p, strata, base, n, neg)
    ensures Stage(p, strata, base, n) <= x
  {
    hide Derives, Edge, Round, EventuallyDerived;
    if n > 0 {
      StageInClosed(p, strata, base, n - 1, x, neg);
      LimitInClosed(p, strata, base, n - 1, x, neg);
    }
  }

  /** The perfect model is stable. */
  lemma PerfectIsStable(p: Program, strata: nat -> nat, base: Interp, n: nat)
    requires Stratifies(p, strata) && HeadsBelow(p, strata, n)
    ensures Stable(p, base, Stage(p, strata, base, n))
  {
    hide Derives, Edge, Limit;
    var m := Stage(p, strata, base, n);
    PerfectClosed(p, strata, base, n);
    StageFrozen(p, strata, base, 0, n);
    forall t: nat | t < n
      ensures AgreeBelow(strata, t, Stage(p, strata, base, t), m)
    {
      StageFrozen(p, strata, base, t, n);
    }
    forall x: Interp | base <= x && Closed(p, x, m)
      ensures m <= x
    {
      StageInClosed(p, strata, base, n, x, m);
    }
  }

  /** The part of m at or above stratum n, on top of the perfect model below it. */
  ghost function Grafted(p: Program, strata: nat -> nat, base: Interp, n: nat, m: Interp): Interp {
    iset f | f in m && (strata(f.pred) < n ==> f in Stage(p, strata, base, n))
  }

  lemma GraftedClosed(p: Program, strata: nat -> nat, base: Interp, m: Interp, n: nat)
    requires Stratifies(p, strata) && Stable(p, base, m) && AgreesUpTo(p, strata, base, n, m)
    ensures Closed(p, Grafted(p, strata, base, n, m), m)
  {
    hide Derives, Edge, Limit, Stage;
    var x := Grafted(p, strata, base, n, m);
    forall r, f | 0 <= r < |p.rules| && Derives(p.rules[r], x, m, f)
      ensures f in x
    {
      DerivesTransfers(p, strata, r, x, m, f, m, m);
      if strata(f.pred) < n {
        DerivedIsInStage(p, strata, base, n, x, m, r, f);
      }
    }
  }

  lemma StableAgreesBelow(p: Program, strata: nat -> nat, base: Interp, m: Interp, n: nat)
    requires Stratifies(p, strata) && Stable(p, base, m) && AgreesUpTo(p, strata, base, n, m)
    ensures AgreeBelow(strata, n, Stage(p, strata, base, n), m)
  {
    hide Derives, Edge, Limit;
    var x := Grafted(p, strata, base, n, m);
    StageInClosed(p, strata, base, n, m, m);
    assert m <= x by {
      GraftedClosed(p, strata, base, m, n);
      StageFrozen(p, strata, base, 0, n);
      assert base <= x;
    }
  }

  /** Below every stratum, a stable model is the perfect one. */
  lemma {:induction false} StableAgrees(p: Program, strata: nat -> nat, base: Interp, m: Interp, n: nat)
    requires Stratifies(p, strata) && Stable(p, base, m)
    ensures AgreesUpTo(p, strata, base, n, m)
  {
    hide Derives, Edge, Limit, Stable;
    if n > 0 {
      StableAgrees(p, strata, base, m, n - 1);
      StableAgreesBelow(p, strata, base, m, n - 1);
    }
  }

  /** A stratified policy has exactly one stable model, the perfect one, whatever
      stratification is used to build it. */
  lemma StableIsPerfect(p: Program, strata: nat -> nat, base: Interp, m: Interp, n: nat)
    requires Stratifies(p, strata) && HeadsBelow(p, strata, n) && Stable(p, base, m)
    ensures m == Stage(p, strata, base, n)
  {
    hide Derives, Edge, Limit;
    var perfect := Stage(p, strata, base, n);
    StableAgrees(p, strata, base, m, n + 1);
    StageInClosed(p, strata, base, n, m, m);
    StageFrozen(p, strata, base, 0, n);
    forall r, f | 0 <= r < |p.rules| && Derives(p.rules[r], perfect, m, f)
      ensures f in perfect
    {
      DerivesHead(p.rules[r], perfect, m, f);
      DerivedIsInStage(p, strata, base, n, perfect, m, r, f);
    }
    assert Closed(p, perfect, m);
  }
}
