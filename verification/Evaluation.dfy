/**
 One application of a rule: what the solver looks at while it joins the body of a rule in
 some order, and which bindings it reaches. Every safe order reaches exactly the bindings
 that satisfy the body, with the delta literal restricted to the newest facts.
 */
module Evaluation {
  import opened Datalog
  import opened FactOrder
  import opened Strata
  import opened Safety
  import opened Semantics

  datatype Range = Range(begin: nat, count: nat)

  /** What a rule application reads: the inputs with their per-predicate ranges, the accepted
      derived facts, the window of the newest of them, and the strata with the boundaries
      of the finished ones. */
  datatype View = View(
    p: Program, edb: seq<Fact>, ranges: seq<Range>, idb: seq<Fact>, deltaBegin: nat, deltaEnd: nat,
    stratified: bool, strata: seq<nat>, active: nat, ends: seq<nat>)

  /* ---------- well-formed programs and views ---------- */

  predicate HasKind(p: Program, pred: nat, k: Kind) {
    pred < |p.kinds| && p.kinds[pred] == k
  }

  /** Heads are derived predicates, policy facts belong to policy predicates, and every
      predicate that is read is registered. */
  ghost predicate WellFormed(p: Program) {
    && |p.kinds| <= MAX_PREDICATES
    && (forall r :: 0 <= r < |p.rules| ==> WellFormedRule(p, p.rules[r]))
    && (forall i :: 0 <= i < |p.facts| ==> HasKind(p, p.facts[i].pred, Policy))
  }

  ghost predicate WellFormedRule(p: Program, rule: Rule) {
    && HasKind(p, rule.head.pred, Idb) && SafeRule(rule)
    && forall i :: 0 <= i < |rule.body| && Depends(rule.body[i]) ==> rule.body[i].atom.pred < |p.kinds|
  }

  /** The slice of every predicate holds exactly the inputs of that predicate. */
  ghost predicate RangesOk(edb: seq<Fact>, ranges: seq<Range>) {
    && |ranges| == MAX_PREDICATES
    && (forall q :: 0 <= q < MAX_PREDICATES ==> ranges[q].begin + ranges[q].count <= |edb|)
    && (forall q, i :: 0 <= q < MAX_PREDICATES && 0 <= i < |edb| ==>
          (edb[i].pred == q <==> ranges[q].begin <= i < ranges[q].begin + ranges[q].count))
  }

  ghost predicate InputsOk(p: Program, edb: seq<Fact>) {
    Ascending(edb) && forall i :: 0 <= i < |edb| ==> HasKind(p, edb[i].pred, Edb)
  }

  /** The boundaries cut the derived facts into strata, the finished ones sorted. */
  ghost predicate Partitioned(v: View) {
    && |v.strata| == MAX_PREDICATES && |v.ends| == MAX_STRATA + 1 && v.active < MAX_STRATA
    && v.ends[0] == 0
    && (forall t :: 0 <= t < v.active ==> v.ends[t] <= v.ends[t + 1])
    && (forall t :: 0 <= t <= v.active ==> v.ends[t] <= |v.idb|)
    && (forall t, i :: 0 <= t < v.active && v.ends[t] <= i < v.ends[t + 1] ==>
          StratumOf(v.strata, v.idb[i].pred) == t)
    && (forall i :: v.ends[v.active] <= i < |v.idb| ==> StratumOf(v.strata, v.idb[i].pred) == v.active)
    && (forall t :: 0 <= t < v.active ==> Ascending(v.idb[v.ends[t]..v.ends[t + 1]]))
  }

  ghost function Levels(v: View): nat -> nat {
    LevelsOf(v.strata)
  }

  ghost predicate ViewOk(v: View) {
    && WellFormed(v.p) && InputsOk(v.p, v.edb) && RangesOk(v.edb, v.ranges)
    && (forall i :: 0 <= i < |v.idb| ==> HasKind(v.p, v.idb[i].pred, Idb))
    && v.deltaBegin <= v.deltaEnd <= |v.idb|
    && Partitioned(v) && Stratifies(v.p, Levels(v))
    && (!v.stratified ==> v.active == 0 && (forall q :: 0 <= q < MAX_PREDICATES ==> v.strata[q] == 0) && !NeedsStrata(v.p))
  }

  /* ---------- interpretations of a view ---------- */

  predicate InBase(p: Program, edb: seq<Fact>, f: Fact) {
    f in p.facts || f in edb
  }

  ghost function Base(p: Program, edb: seq<Fact>): Interp {
    iset f | InBase(p, edb, f)
  }

  /** Everything known so far. */
  ghost function Known(v: View): Interp {
    iset f | InBase(v.p, v.edb, f) || f in v.idb
  }

  /** The inputs and the finished strata. */
  ghost function Low(v: View): Interp {
    iset f | InBase(v.p, v.edb, f) ||
             (v.active < |v.ends| && v.ends[v.active] <= |v.idb| && f in v.idb[..v.ends[v.active]])
  }

  /** The newest facts. */
  ghost function Delta(v: View): Interp {
    iset f | v.deltaBegin <= v.deltaEnd <= |v.idb| && f in v.idb[v.deltaBegin..v.deltaEnd]
  }

  /* ---------- where literals look ---------- */

  function EdbSlice(v: View, q: nat): seq<Fact> {
    if q < |v.ranges| && v.ranges[q].begin + v.ranges[q].count <= |v.edb|
    then v.edb[v.ranges[q].begin..v.ranges[q].begin + v.ranges[q].count] else []
  }

  /** The derived facts a positive literal scans: everything in a plain solve, otherwise the
      stratum of its predicate. */
  function IdbWindow(v: View, q: nat): Option<seq<Fact>> {
    if !v.stratified then Some(v.idb)
    else if q >= |v.strata| || v.strata[q] > v.active || v.strata[q] + 1 >= |v.ends| then None
    else if v.strata[q] < v.active then Finished(v, v.strata[q])
    else if v.ends[v.active] > |v.idb| then None
    else Some(v.idb[v.ends[v.active]..])
  }

  /** A finished stratum. */
  function Finished(v: View, t: nat): Option<seq<Fact>> {
    if t + 1 < |v.ends| && v.ends[t] <= v.ends[t + 1] <= |v.idb|
    then Some(v.idb[v.ends[t]..v.ends[t + 1]]) else None
  }

  function Source(v: View, q: nat, isDelta: bool): Option<seq<Fact>> {
    if isDelta then
      (if v.deltaBegin <= v.deltaEnd <= |v.idb| then Some(v.idb[v.deltaBegin..v.deltaEnd]) else None)
    else if HasKind(v.p, q, Policy) then Some(v.p.facts)
    else if HasKind(v.p, q, Edb) then Some(EdbSlice(v, q))
    else if HasKind(v.p, q, Idb) then IdbWindow(v, q)
    else Some([])
  }

  /** The store in which a negated atom or an aggregate looks; derived predicates only once
      their stratum is finished. */
  function Frozen(v: View, q: nat): Option<seq<Fact>> {
    if HasKind(v.p, q, Edb) then Some(EdbSlice(v, q))
    else if HasKind(v.p, q, Policy) then Some(v.p.facts)
    else if HasKind(v.p, q, Idb) && v.stratified && q < |v.strata| && v.strata[q] < v.active then Finished(v, v.strata[q])
    else None
  }

  lemma SliceExact(v: View, q: nat, f: Fact)
    requires RangesOk(v.edb, v.ranges) && f.pred == q < MAX_PREDICATES
    ensures f in EdbSlice(v, q) <==> f in v.edb
  {
    if f in v.edb {
      var i :| 0 <= i < |v.edb| && v.edb[i] == f;
      assert f == EdbSlice(v, q)[i - v.ranges[q].begin];
    }
  }

  lemma {:induction false} StratumIndex(v: View, i: nat, t: nat)
    requires Partitioned(v) && t <= v.active && i < v.ends[t]
    ensures StratumOf(v.strata, v.idb[i].pred) < t
  {
    if t > 0 && i < v.ends[t - 1] { StratumIndex(v, i, t - 1); }
  }

  lemma {:induction false} EndsGrow(v: View, t: nat, u: nat)
    requires Partitioned(v) && t <= u <= v.active
    ensures v.ends[t] <= v.ends[u]
  {
    if t < u { EndsGrow(v, t, u - 1); }
  }

  lemma FinishedExact(v: View, f: Fact)
    requires Partitioned(v) && StratumOf(v.strata, f.pred) < v.active
    ensures Finished(v, StratumOf(v.strata, f.pred)).Some?
    ensures f in Finished(v, StratumOf(v.strata, f.pred)).value <==> f in v.idb
    ensures f in v.idb <==> f in v.idb[..v.ends[v.active]]
  {
    var t := StratumOf(v.strata, f.pred);
    var slice := v.idb[v.ends[t]..v.ends[t + 1]];
    EndsGrow(v, t + 1, v.active);
    if f in v.idb {
      var i :| 0 <= i < |v.idb| && v.idb[i] == f;
      if i < v.ends[t] { StratumIndex(v, i, t); }
      if i >= v.ends[t + 1] { LaterStratum(v, i, t + 1); }
      assert slice[i - v.ends[t]] == f;
      assert v.idb[..v.ends[v.active]][i] == f;
    }
  }

  lemma {:induction false} LaterStratum(v: View, i: nat, t: nat)
    requires Partitioned(v) && t <= v.active && v.ends[t] <= i < |v.idb|
    ensures StratumOf(v.strata, v.idb[i].pred) >= t
    decreases v.active - t
  {
    if t < v.active && i >= v.ends[t + 1] { LaterStratum(v, i, t + 1); }
  }

  /** A positive literal scans exactly the known facts of its predicate. */
  lemma SourceExact(v: View, f: Fact)
    requires ViewOk(v) && f.pred < |v.p.kinds| && StratumOf(v.strata, f.pred) <= v.active
    ensures Source(v, f.pred, false).Some?
    ensures f in Source(v, f.pred, false).value <==> f in Known(v)
  {
    var q := f.pred;
    KindsSeparate(v, f);
    if HasKind(v.p, q, Edb) {
      SliceExact(v, q, f);
    } else if HasKind(v.p, q, Idb) && v.stratified {
      if v.strata[q] < v.active {
        FinishedExact(v, f);
      } else if f in v.idb {
        var i :| 0 <= i < |v.idb| && v.idb[i] == f;
        if i < v.ends[v.active] { StratumIndex(v, i, v.active); }
        assert v.idb[v.ends[v.active]..][i - v.ends[v.active]] == f;
      }
    }
  }

  lemma KindsSeparate(v: View, f: Fact)
    requires ViewOk(v)
    ensures f in v.p.facts ==> HasKind(v.p, f.pred, Policy)
    ensures f in v.edb ==> HasKind(v.p, f.pred, Edb)
    ensures f in v.idb ==> HasKind(v.p, f.pred, Idb)
  {
  }

  /** Negation and aggregates look exactly at the inputs and the finished strata. */
  lemma FrozenExact(v: View, f: Fact)
    requires ViewOk(v) && v.stratified && f.pred < |v.p.kinds| && StratumOf(v.strata, f.pred) < v.active
    ensures Frozen(v, f.pred).Some?
    ensures f in Frozen(v, f.pred).value <==> f in Low(v)
  {
    KindsSeparate(v, f);
    if HasKind(v.p, f.pred, Edb) { SliceExact(v, f.pred, f); }
    FinishedExact(v, f);
  }

  /** A negated atom searches the whole sorted input set. */
  function NegStore(v: View, q: nat): Option<seq<Fact>> {
    if HasKind(v.p, q, Edb) then Some(v.edb) else Frozen(v, q)
  }

  predicate AbsentFrom(v: View, a: Atom, b: Bindings) {
    && TermsBound(a.terms, b)
    && NegStore(v, a.pred).Some? && Ground(a, b) !in NegStore(v, a.pred).value
  }

  /** The facts an aggregate ranges over. */
  function AggregateFacts(v: View, l: Literal, b: Bindings): set<Fact>
    requires l.Aggregate? && GroupKeys(l) <= b.Keys
  {
    if Frozen(v, l.atom.pred).None? then {}
    else set f | f in Frozen(v, l.atom.pred).value && MatchesPattern(l, b, f)
  }

  ghost predicate AggregateYields(v: View, l: Literal, b: Bindings, out: AggOutcome)
    requires l.Aggregate?
  {
    && GroupKeys(l) <= b.Keys && Frozen(v, l.atom.pred).Some?
    && AggregateIs(l.kind, AggregateFacts(v, l, b), ProjectedTerm(l.atom.terms, l.projection), out)
  }

  /* ---------- reachable bindings ---------- */

  /** The candidate c moves the join over literal i from b to b'. */
  predicate Step(v: View, body: seq<Literal>, i: nat, delta: Option<nat>, b: Bindings, c: Fact, b': Bindings)
    requires i < |body| && body[i].Positive?
  {
    && Source(v, body[i].atom.pred, delta == Some(i)).Some?
    && c in Source(v, body[i].atom.pred, delta == Some(i)).value
    && MatchFact(b, body[i].atom, c) == Some(b')
  }

  /** Joining the body in the given order from position pos and bindings b reaches s. */
  ghost predicate Reach(v: View, body: seq<Literal>, order: seq<nat>, pos: nat, b: Bindings, delta: Option<nat>, s: Bindings)
    requires InBody(body, order) && pos <= |order|
    decreases |order| - pos
  {
    if pos == |order| then s == b
    else
      var l := body[order[pos]];
      match l
      case Positive(_) =>
        exists c, b' :: Step(v, body, order[pos], delta, b, c, b') && Reach(v, body, order, pos + 1, b', delta, s)
      case Negated(a) =>
        AbsentFrom(v, a, b) && Reach(v, body, order, pos + 1, b, delta, s)
      case Comparison(_, _, _) =>
        EvalComparison(l, b) == Yes && Reach(v, body, order, pos + 1, b, delta, s)
      case Arithmetic(_, _, _) =>
        EvalComparison(l, b) == Yes && Reach(v, body, order, pos + 1, b, delta, s)
      case Aggregate(_, _, _, o) =>
        exists x :: AggregateYields(v, l, b, Yields(x)) && BindOrMatch(b, Var(o), x).Some? &&
                    Reach(v, body, order, pos + 1, BindOrMatch(b, Var(o), x).value, delta, s)
  }

  /** Literal i of the body holds under s, in the newest facts if it is the delta literal. */
  ghost predicate Satisfied(v: View, body: seq<Literal>, i: nat, delta: Option<nat>, s: Bindings)
    requires ViewOk(v) && i < |body|
  {
    && LiteralHolds(body[i], s, Known(v), Low(v))
    && (delta == Some(i) && body[i].Positive? ==> Ground(body[i].atom, s) in Delta(v))
  }

  /** A body of a rule of the active stratum, as far as the view is concerned. */
  ghost predicate Readable(v: View, body: seq<Literal>) {
    && (forall i :: 0 <= i < |body| && Depends(body[i]) ==> body[i].atom.pred < |v.p.kinds|)
    && (forall i :: 0 <= i < |body| && body[i].Positive? ==> StratumOf(v.strata, body[i].atom.pred) <= v.active)
    && (forall i :: 0 <= i < |body| && (body[i].Negated? || body[i].Aggregate?) ==>
          v.stratified && StratumOf(v.strata, body[i].atom.pred) < v.active)
  }

  lemma RuleReadable(v: View, r: nat)
    requires ViewOk(v) && r < |v.p.rules| && StratumOf(v.strata, v.p.rules[r].head.pred) == v.active
    ensures Readable(v, v.p.rules[r].body)
  {
    var rule := v.p.rules[r];
    assert WellFormedRule(v.p, rule);
    forall i | 0 <= i < |rule.body| && Depends(rule.body[i])
      ensures StratumOf(v.strata, rule.body[i].atom.pred) + Weight(rule.body[i]) <= v.active
    {
      assert RuleEdge(rule, i, rule.head.pred, rule.body[i].atom.pred, Weight(rule.body[i]));
      assert Edge(v.p, rule.head.pred, rule.body[i].atom.pred, Weight(rule.body[i]));
      assert Levels(v)(rule.head.pred) == v.active;
    }
  }

  lemma PositiveStep(v: View, body: seq<Literal>, i: nat, delta: Option<nat>, b: Bindings, s: Bindings)
    requires ViewOk(v) && Readable(v, body) && i < |body| && body[i].Positive?
    requires Extends(b, s) && TermsBound(body[i].atom.terms, s)
    ensures (exists c, b' :: Step(v, body, i, delta, b, c, b') && Extends(b', s)) <==> Satisfied(v, body, i, delta, s)
  {
    var a := body[i].atom;
    var g := Ground(a, s);
    SourceExact(v, g);
    MatchFactExact(b, a, g, s);
    if c, b' :| Step(v, body, i, delta, b, c, b') && Extends(b', s) {
      MatchFactExact(b, a, c, s);
      assert g == c;
      if delta == Some(i) { KindsSeparate(v, c); assert c in v.idb; }
    }
    if Satisfied(v, body, i, delta, s) {
      assert Step(v, body, i, delta, b, g, MatchFact(b, a, g).value);
    }
  }

  lemma NegatedStep(v: View, body: seq<Literal>, i: nat, delta: Option<nat>, b: Bindings, s: Bindings)
    requires ViewOk(v) && Readable(v, body) && i < |body| && body[i].Negated?
    requires Extends(b, s) && Needs(body[i]) <= b.Keys
    ensures AbsentFrom(v, body[i].atom, b) <==> Satisfied(v, body, i, delta, s)
  {
    var a := body[i].atom;
    BoundByKeys(a.terms, b);
    GroundExtends(a, b, s);
    var g := Ground(a, s);
    FrozenExact(v, g);
    KindsSeparate(v, g);
  }

  lemma PatternExtends(l: Literal, b: Bindings, s: Bindings)
    requires l.Aggregate? && Extends(b, s) && GroupKeys(l) <= b.Keys
    ensures GroupKeys(l) <= s.Keys && Pattern(l, b) == Pattern(l, s)
  {
    forall i | 0 <= i < |l.atom.terms|
      ensures PatternTerm(l, b, i) == PatternTerm(l, s, i)
    {
      var t := l.atom.terms[i];
      if t.Var? { assert t.v in TermsVars(l.atom.terms); }
    }
  }

  lemma AggregateMatchSet(v: View, l: Literal, b: Bindings, s: Bindings)
    requires ViewOk(v) && l.Aggregate? && l.atom.pred < |v.p.kinds|
    requires v.stratified && StratumOf(v.strata, l.atom.pred) < v.active
    requires Extends(b, s) && GroupKeys(l) <= b.Keys
    ensures GroupKeys(l) <= s.Keys && Frozen(v, l.atom.pred).Some?
    ensures MatchSet(l, s, Low(v), AggregateFacts(v, l, b))
  {
    PatternExtends(l, b, s);
    FrozenExact(v, Fact(l.atom.pred, []));
    forall f
      ensures f in AggregateFacts(v, l, b) <==> f in Low(v) && MatchesPattern(l, s, f)
    {
      if MatchesPattern(l, s, f) {
        assert f.pred == l.atom.pred;
        FrozenExact(v, f);
      }
    }
  }

  lemma AggregateStep(v: View, body: seq<Literal>, i: nat, delta: Option<nat>, b: Bindings, s: Bindings)
    requires ViewOk(v) && Readable(v, body) && i < |body| && body[i].Aggregate?
    requires Extends(b, s) && Needs(body[i]) <= b.Keys && body[i].output in s
    ensures AggregateYields(v, body[i], b, Yields(s[body[i].output])) <==> Satisfied(v, body, i, delta, s)
  {
    var l := body[i];
    AggregateMatchSet(v, l, b, s);
    if AggregateHolds(l, s, Low(v)) {
      var facts: set<Fact> :| MatchSet(l, s, Low(v), facts) &&
        AggregateIs(l.kind, facts, ProjectedTerm(l.atom.terms, l.projection), Yields(s[l.output]));
      assert facts == AggregateFacts(v, l, b);
    }
  }

  /** The literals of the order from pos on are satisfied. */
  ghost predicate SatisfiedFrom(v: View, body: seq<Literal>, order: seq<nat>, pos: nat, delta: Option<nat>, s: Bindings)
    requires ViewOk(v) && InBody(body, order)
  {
    forall j :: pos <= j < |order| ==> Satisfied(v, body, order[j], delta, s)
  }

  lemma SatisfiedFromSplits(v: View, body: seq<Literal>, order: seq<nat>, pos: nat, delta: Option<nat>, s: Bindings)
    requires ViewOk(v) && InBody(body, order) && pos < |order|
    ensures SatisfiedFrom(v, body, order, pos, delta, s) <==>
            Satisfied(v, body, order[pos], delta, s) && SatisfiedFrom(v, body, order, pos + 1, delta, s)
  {
    hide Satisfied;
  }

  lemma {:induction false} BoundByGrows(body: seq<Literal>, order: seq<nat>, m: nat, n: nat)
    requires InBody(body, order) && m <= n <= |order|
    ensures BoundBy(body, order, m) <= BoundBy(body, order, n)
  {
    if m < n { BoundByGrows(body, order, m, n - 1); }
  }

  /** From any point of a safe order, the join reaches exactly the extensions of its bindings
      that satisfy the remaining literals. */
  lemma {:induction false} ReachFrom(v: View, body: seq<Literal>, order: seq<nat>, pos: nat, b: Bindings, delta: Option<nat>, s: Bindings)
    requires ViewOk(v) && Readable(v, body) && SafePrefix(body, order, delta) && pos <= |order|
    requires b.Keys == BoundBy(body, order, pos)
    ensures Reach(v, body, order, pos, b, delta, s) <==>
            Extends(b, s) && s.Keys == BoundBy(body, order, |order|) && SatisfiedFrom(v, body, order, pos, delta, s)
    decreases |order| - pos, 2
  {
    hide Satisfied, ViewOk, Readable;
    if pos == |order| {
      if Extends(b, s) && s.Keys == b.Keys { assert s == b; }
    } else {
      assert SafeAt(body, order, pos);
      BoundByGrows(body, order, pos + 1, |order|);
      SatisfiedFromSplits(v, body, order, pos, delta, s);
      var l := body[order[pos]];
      match l {
        case Positive(_) => ReachPositive(v, body, order, pos, b, delta, s);
        case Aggregate(_, _, _, _) => ReachAggregate(v, body, order, pos, b, delta, s);
        case Negated(_) =>
          ReachFrom(v, body, order, pos + 1, b, delta, s);
          if Extends(b, s) { NegatedStep(v, body, order[pos], delta, b, s); }
        case Comparison(_, _, _) =>
          ReachFrom(v, body, order, pos + 1, b, delta, s);
          if Extends(b, s) { ComparisonStep(v, body, order[pos], delta, b, s); }
        case Arithmetic(_, _, _) =>
          ReachFrom(v, body, order, pos + 1, b, delta, s);
          if Extends(b, s) { ComparisonStep(v, body, order[pos], delta, b, s); }
      }
    }
  }

  lemma ComparisonStep(v: View, body: seq<Literal>, i: nat, delta: Option<nat>, b: Bindings, s: Bindings)
    requires ViewOk(v) && i < |body| && (body[i].Comparison? || body[i].Arithmetic?)
    requires Extends(b, s) && Needs(body[i]) <= b.Keys
    ensures EvalComparison(body[i], b) == Yes <==> Satisfied(v, body, i, delta, s)
  {
    EvalComparisonExtends(body[i], b, s);
  }

  lemma StepBinds(v: View, body: seq<Literal>, i: nat, delta: Option<nat>, b: Bindings, c: Fact, b': Bindings)
    requires i < |body| && body[i].Positive? && Step(v, body, i, delta, b, c, b')
    ensures Extends(b, b') && b'.Keys == b.Keys + Binds(body[i])
  {
    MatchFactSound(b, body[i].atom, c);
  }

  lemma ExtendsTransitive(a: Bindings, b: Bindings, c: Bindings)
    requires Extends(a, b) && Extends(b, c)
    ensures Extends(a, c)
  {
  }

  lemma {:induction false} ReachPositive(v: View, body: seq<Literal>, order: seq<nat>, pos: nat, b: Bindings, delta: Option<nat>, s: Bindings)
    requires ViewOk(v) && Readable(v, body) && SafePrefix(body, order, delta) && pos < |order|
    requires b.Keys == BoundBy(body, order, pos) && body[order[pos]].Positive?
    ensures Reach(v, body, order, pos, b, delta, s) <==>
            Extends(b, s) && s.Keys == BoundBy(body, order, |order|) &&
            Satisfied(v, body, order[pos], delta, s) && SatisfiedFrom(v, body, order, pos + 1, delta, s)
    decreases |order| - pos, 0
  {
    hide Satisfied, ViewOk, Step, Extends, Readable;
    var i := order[pos];
    if Reach(v, body, order, pos, b, delta, s) {
      var c, b' :| Step(v, body, i, delta, b, c, b') && Reach(v, body, order, pos + 1, b', delta, s);
      StepBinds(v, body, i, delta, b, c, b');
      ReachFrom(v, body, order, pos + 1, b', delta, s);
      ExtendsTransitive(b, b', s);
      PositiveAt(v, body, order, pos, delta, b, s);
    }
    if Extends(b, s) && s.Keys == BoundBy(body, order, |order|) &&
       Satisfied(v, body, i, delta, s) && SatisfiedFrom(v, body, order, pos + 1, delta, s) {
      PositiveAt(v, body, order, pos, delta, b, s);
      var c, b' :| Step(v, body, i, delta, b, c, b') && Extends(b', s);
      StepBinds(v, body, i, delta, b, c, b');
      ReachFrom(v, body, order, pos + 1, b', delta, s);
    }
  }

  lemma PositiveAt(v: View, body: seq<Literal>, order: seq<nat>, pos: nat, delta: Option<nat>, b: Bindings, s: Bindings)
    requires ViewOk(v) && Readable(v, body) && InBody(body, order) && pos < |order| && body[order[pos]].Positive?
    requires Extends(b, s) && s.Keys == BoundBy(body, order, |order|)
    ensures (exists c, b' :: Step(v, body, order[pos], delta, b, c, b') && Extends(b', s)) <==>
            Satisfied(v, body, order[pos], delta, s)
  {
    hide Satisfied, ViewOk, Step, Extends, Readable;
    BoundByGrows(body, order, pos + 1, |order|);
    BoundByKeys(body[order[pos]].atom.terms, s);
    PositiveStep(v, body, order[pos], delta, b, s);
  }

  lemma {:induction false} ReachAggregate(v: View, body: seq<Literal>, order: seq<nat>, pos: nat, b: Bindings, delta: Option<nat>, s: Bindings)
    requires ViewOk(v) && Readable(v, body) && SafePrefix(body, order, delta) && pos < |order|
    requires b.Keys == BoundBy(body, order, pos) && body[order[pos]].Aggregate?
    ensures Reach(v, body, order, pos, b, delta, s) <==>
            Extends(b, s) && s.Keys == BoundBy(body, order, |order|) &&
            Satisfied(v, body, order[pos], delta, s) && SatisfiedFrom(v, body, order, pos + 1, delta, s)
    decreases |order| - pos, 1
  {
    hide Satisfied, ViewOk, SatisfiedFrom, Readable, Reach, BoundBy;
    if Reach(v, body, order, pos, b, delta, s) {
      AggregateReached(v, body, order, pos, b, delta, s);
    }
    if Extends(b, s) && s.Keys == BoundBy(body, order, |order|) &&
       Satisfied(v, body, order[pos], delta, s) && SatisfiedFrom(v, body, order, pos + 1, delta, s) {
      AggregateReaches(v, body, order, pos, b, delta, s);
    }
  }

  lemma {:induction false} AggregateReached(v: View, body: seq<Literal>, order: seq<nat>, pos: nat, b: Bindings, delta: Option<nat>, s: Bindings)
    requires ViewOk(v) && Readable(v, body) && SafePrefix(body, order, delta) && pos < |order|
    requires b.Keys == BoundBy(body, order, pos) && body[order[pos]].Aggregate?
    requires Reach(v, body, order, pos, b, delta, s)
    ensures Extends(b, s) && s.Keys == BoundBy(body, order, |order|)
    ensures Satisfied(v, body, order[pos], delta, s) && SatisfiedFrom(v, body, order, pos + 1, delta, s)
    decreases |order| - pos, 0
  {
    hide Satisfied, ViewOk, AggregateYields, SatisfiedFrom, Readable;
    var l := body[order[pos]];
    assert SafeAt(body, order, pos);
    BoundByGrows(body, order, pos + 1, |order|);
    var x :| AggregateYields(v, l, b, Yields(x)) && BindOrMatch(b, Var(l.output), x).Some? &&
             Reach(v, body, order, pos + 1, BindOrMatch(b, Var(l.output), x).value, delta, s);
    ReachFrom(v, body, order, pos + 1, BindOrMatch(b, Var(l.output), x).value, delta, s);
    assert s[l.output] == x;
    AggregateStep(v, body, order[pos], delta, b, s);
  }

  lemma {:induction false} AggregateReaches(v: View, body: seq<Literal>, order: seq<nat>, pos: nat, b: Bindings, delta: Option<nat>, s: Bindings)
    requires ViewOk(v) && Readable(v, body) && SafePrefix(body, order, delta) && pos < |order|
    requires b.Keys == BoundBy(body, order, pos) && body[order[pos]].Aggregate?
    requires Extends(b, s) && s.Keys == BoundBy(body, order, |order|)
    requires Satisfied(v, body, order[pos], delta, s) && SatisfiedFrom(v, body, order, pos + 1, delta, s)
    ensures Reach(v, body, order, pos, b, delta, s)
    decreases |order| - pos, 0
  {
    hide Satisfied, ViewOk, AggregateYields, SatisfiedFrom, Readable;
    var l := body[order[pos]];
    assert SafeAt(body, order, pos);
    BoundByGrows(body, order, pos + 1, |order|);
    AggregateStep(v, body, order[pos], delta, b, s);
    var x := s[l.output];
    assert BindOrMatch(b, Var(l.output), x).Some?;
    ReachFrom(v, body, order, pos + 1, BindOrMatch(b, Var(l.output), x).value, delta, s);
  }

  /** What joining a part of a safe order reaches satisfies that part. */
  lemma PartReached(v: View, body: seq<Literal>, order: seq<nat>, q: nat, delta: Option<nat>, s: Bindings)
    requires ViewOk(v) && Readable(v, body) && SafeOrder(body, order, delta) && q <= |order|
    requires Reach(v, body, order[..q], 0, map[], delta, s)
    ensures s.Keys == BoundBy(body, order[..q], q)
    ensures forall j :: 0 <= j < q ==> Satisfied(v, body, order[j], delta, s)
  {
    hide Satisfied, ViewOk, Reach, Readable;
    var part := order[..q];
    SafePrefixCut(body, order, delta, q);
    ReachFrom(v, body, part, 0, map[], delta, s);
    forall j | 0 <= j < q ensures Satisfied(v, body, order[j], delta, s) {
      assert part[j] == order[j];
      assert Satisfied(v, body, part[j], delta, s);
    }
  }

  lemma OrderBindsBody(body: seq<Literal>, order: seq<nat>, delta: Option<nat>)
    requires SafeOrder(body, order, delta)
    ensures BoundBy(body, order, |order|) == BodyVars(body)
  {
    OrderCovers(order, |body|);
    forall v
      ensures v in BoundBy(body, order, |order|) <==> v in BodyVars(body)
    {
      BoundByMember(body, order, |order|, v);
      BodyVarsMember(body, v);
      if i :| 0 <= i < |body| && v in Binds(body[i]) {
        assert i in order;
      }
    }
  }

  /** Whatever safe order is used, joining a body reaches exactly the bindings of its
      variables under which every literal holds, the delta literal in the newest facts. */
  lemma ReachExact(v: View, body: seq<Literal>, order: seq<nat>, delta: Option<nat>, s: Bindings)
    requires ViewOk(v) && Readable(v, body) && SafeOrder(body, order, delta)
    ensures Reach(v, body, order, 0, map[], delta, s) <==>
            s.Keys == BodyVars(body) && forall i :: 0 <= i < |body| ==> Satisfied(v, body, i, delta, s)
  {
    hide Satisfied, ViewOk, Reach;
    ReachFrom(v, body, order, 0, map[], delta, s);
    OrderBindsBody(body, order, delta);
    OrderCovers(order, |body|);
    if SatisfiedFrom(v, body, order, 0, delta, s) {
      forall i | 0 <= i < |body|
        ensures Satisfied(v, body, i, delta, s)
      {
        assert i in order;
        var j :| 0 <= j < |order| && order[j] == i;
      }
    }
  }
}
