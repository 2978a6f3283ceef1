/**
 The bounded solver. It fills one array of derived facts, window by window: a full pass per
 stratum, then delta passes until nothing new appears, then the stratum is sorted and
 frozen. It answers with the perfect model, or refuses for one of its bounds, or reports a
 literal that could not be evaluated.
 */
module Solver {
  import opened Datalog
  import opened FactOrder
  import opened Strata
  import opened Safety
  import opened Semantics
  import opened Evaluation
  import opened SemiNaive
  import opened Aggregates

  const MAX_DEPTH: nat := 10

  datatype Failure =
    | NoFailure
    | Overflow(fact: Fact)
    | Undecidable(rule: nat, literal: nat, bindings: Bindings)

  /* ---------- emission, one literal at a time ---------- */

  lemma {:induction false} AggregateUnique(kind: AggKind, facts: set<Fact>, t: nat, x: AggOutcome, y: AggOutcome)
    requires AggregateIs(kind, facts, t, x) && AggregateIs(kind, facts, t, y)
    ensures x == y
  {
    if !kind.Count? && !kind.Sum? && facts != {} && forall f :: f in facts ==> Summable(Projected(f, t)) {
      var f :| f in facts && IntegerAt(f, t) == x.value.i;
      var g :| g in facts && IntegerAt(g, t) == y.value.i;
    }
  }

  lemma EmitsEnd(v: View, rule: Rule, order: seq<nat>, b: Bindings, delta: Option<nat>, f: Fact)
    requires InBody(rule.body, order)
    ensures Emits(v, rule, order, |order|, b, delta, f) <==> TermsBound(rule.head.terms, b) && Ground(rule.head, b) == f
  {
    if TermsBound(rule.head.terms, b) && Ground(rule.head, b) == f {
      assert Reach(v, rule.body, order, |order|, b, delta, b);
    }
  }

  lemma EmitsPositive(v: View, rule: Rule, order: seq<nat>, pos: nat, b: Bindings, delta: Option<nat>, f: Fact)
    requires InBody(rule.body, order) && pos < |order| && rule.body[order[pos]].Positive?
    ensures Emits(v, rule, order, pos, b, delta, f) <==>
            exists c, b' :: Step(v, rule.body, order[pos], delta, b, c, b') && Emits(v, rule, order, pos + 1, b', delta, f)
  {
    hide Step;
    if Emits(v, rule, order, pos, b, delta, f) {
      var s :| Reach(v, rule.body, order, pos, b, delta, s) && TermsBound(rule.head.terms, s) && Ground(rule.head, s) == f;
      var c, b' :| Step(v, rule.body, order[pos], delta, b, c, b') && Reach(v, rule.body, order, pos + 1, b', delta, s);
      assert Emits(v, rule, order, pos + 1, b', delta, f);
    }
    if c, b' :| Step(v, rule.body, order[pos], delta, b, c, b') && Emits(v, rule, order, pos + 1, b', delta, f) {
      var s :| Reach(v, rule.body, order, pos + 1, b', delta, s) && TermsBound(rule.head.terms, s) && Ground(rule.head, s) == f;
      assert Reach(v, rule.body, order, pos, b, delta, s);
    }
  }

  /** Whether a literal that binds nothing lets the join pass. */
  ghost predicate Passes(v: View, l: Literal, b: Bindings)
    requires l.Negated? || l.Comparison? || l.Arithmetic?
  {
    if l.Negated? then AbsentFrom(v, l.atom, b) else EvalComparison(l, b) == Yes
  }

  lemma EmitsGuard(v: View, rule: Rule, order: seq<nat>, pos: nat, b: Bindings, delta: Option<nat>, f: Fact)
    requires InBody(rule.body, order) && pos < |order|
    requires var l := rule.body[order[pos]]; l.Negated? || l.Comparison? || l.Arithmetic?
    ensures Emits(v, rule, order, pos, b, delta, f) <==>
            Passes(v, rule.body[order[pos]], b) && Emits(v, rule, order, pos + 1, b, delta, f)
  {
    hide AbsentFrom, EvalComparison;
    if Emits(v, rule, order, pos, b, delta, f) {
      var s :| Reach(v, rule.body, order, pos, b, delta, s) && TermsBound(rule.head.terms, s) && Ground(rule.head, s) == f;
      assert Reach(v, rule.body, order, pos + 1, b, delta, s);
    }
    if Passes(v, rule.body[order[pos]], b) && Emits(v, rule, order, pos + 1, b, delta, f) {
      var s :| Reach(v, rule.body, order, pos + 1, b, delta, s) && TermsBound(rule.head.terms, s) && Ground(rule.head, s) == f;
      assert Reach(v, rule.body, order, pos, b, delta, s);
    }
  }

  lemma EmitsAggregate(v: View, rule: Rule, order: seq<nat>, pos: nat, b: Bindings, delta: Option<nat>, out: AggOutcome, f: Fact)
    requires InBody(rule.body, order) && pos < |order| && rule.body[order[pos]].Aggregate?
    requires AggregateYields(v, rule.body[order[pos]], b, out)
    ensures Emits(v, rule, order, pos, b, delta, f) <==>
            && out.Yields? && BindOrMatch(b, Var(rule.body[order[pos]].output), out.value).Some?
            && Emits(v, rule, order, pos + 1, BindOrMatch(b, Var(rule.body[order[pos]].output), out.value).value, delta, f)
  {
    var l := rule.body[order[pos]];
    if Emits(v, rule, order, pos, b, delta, f) {
      var s :| Reach(v, rule.body, order, pos, b, delta, s) && TermsBound(rule.head.terms, s) && Ground(rule.head, s) == f;
      var x :| AggregateYields(v, l, b, Yields(x)) && BindOrMatch(b, Var(l.output), x).Some? &&
               Reach(v, rule.body, order, pos + 1, BindOrMatch(b, Var(l.output), x).value, delta, s);
      AggregateUnique(l.kind, AggregateFacts(v, l, b), ProjectedTerm(l.atom.terms, l.projection), out, Yields(x));
    }
    if out.Yields? && BindOrMatch(b, Var(l.output), out.value).Some? &&
       Emits(v, rule, order, pos + 1, BindOrMatch(b, Var(l.output), out.value).value, delta, f) {
      var b' := BindOrMatch(b, Var(l.output), out.value).value;
      var s :| Reach(v, rule.body, order, pos + 1, b', delta, s) && TermsBound(rule.head.terms, s) && Ground(rule.head, s) == f;
      assert Reach(v, rule.body, order, pos, b, delta, s);
    }
  }

  /* ---------- input ranges ---------- */

  /** Cuts the sorted inputs into one range per predicate. */
  method BuildRanges(edb: seq<Fact>) returns (ok: bool, ranges: seq<Range>)
    ensures ok ==> RangesOk(edb, ranges)
    ensures Ascending(edb) && (forall i :: 0 <= i < |edb| ==> edb[i].pred < MAX_PREDICATES) ==> ok
  {
    ok, ranges := false, seq(MAX_PREDICATES, _ => Range(0, 0));
    var i: nat, previous: nat, havePrevious := 0, 0, false;
    while i < |edb|
      invariant i <= |edb| && |ranges| == MAX_PREDICATES
      invariant havePrevious <==> i > 0
      invariant havePrevious ==> previous < MAX_PREDICATES && edb[i - 1].pred == previous
      invariant forall j :: 0 <= j < i ==> edb[j].pred <= previous
      invariant i < |edb| && havePrevious ==> edb[i].pred != previous
      invariant forall q :: 0 <= q < MAX_PREDICATES ==> ranges[q].begin + ranges[q].count <= i
      invariant forall q :: previous < q < MAX_PREDICATES ==> ranges[q] == Range(0, 0)
      invariant forall q, j :: 0 <= q < MAX_PREDICATES && 0 <= j < i ==>
                  (edb[j].pred == q <==> ranges[q].begin <= j < ranges[q].begin + ranges[q].count)
      decreases |edb| - i
    {
      var pid := edb[i].pred;
      if pid >= MAX_PREDICATES { return; }
      if havePrevious && pid < previous { return; }
      var begin := i;
      while i < |edb| && edb[i].pred == pid
        invariant begin <= i <= |edb|
        invariant forall j :: begin <= j < i ==> edb[j].pred == pid
      {
        i := i + 1;
      }
      assert !havePrevious ==> begin == 0;
      ranges := ranges[pid := Range(begin, i - begin)];
      previous, havePrevious := pid, true;
    }
    ok := true;
  }

  /* ---------- reading the stores ---------- */

  /** Where the store of a predicate in a finished stratum lies. */
  lemma FrozenShape(v: View, q: nat)
    requires ViewOk(v) && v.stratified && q < |v.p.kinds| && StratumOf(v.strata, q) < v.active
    ensures q < |v.strata| && q < |v.ranges| && Ascending(v.edb)
    ensures v.ranges[q].begin + v.ranges[q].count <= |v.edb|
    ensures var t := v.strata[q];
            && t + 1 < |v.ends| && v.ends[t] <= v.ends[t + 1] <= |v.idb|
            && Ascending(v.idb[v.ends[t]..v.ends[t + 1]])
    ensures var t := v.strata[q];
            Frozen(v, q) == Some(if HasKind(v.p, q, Edb) then v.edb[v.ranges[q].begin..v.ranges[q].begin + v.ranges[q].count]
                                 else if HasKind(v.p, q, Policy) then v.p.facts
                                 else v.idb[v.ends[t]..v.ends[t + 1]])
  {
    FrozenExact(v, Fact(q, []));
    FinishedExact(v, Fact(q, []));
  }

  /** Where the candidates of a predicate lie. */
  lemma SourceShape(v: View, q: nat)
    requires ViewOk(v) && q < |v.p.kinds| && StratumOf(v.strata, q) <= v.active
    ensures q < |v.strata| && q < |v.ranges| && v.ranges[q].begin + v.ranges[q].count <= |v.edb|
    ensures v.deltaBegin <= v.deltaEnd <= |v.idb| && Source(v, q, true) == Some(v.idb[v.deltaBegin..v.deltaEnd])
    ensures var t := v.strata[q];
            && t + 1 < |v.ends| && v.ends[t] <= |v.idb|
            && (t < v.active ==> v.ends[t] <= v.ends[t + 1] <= |v.idb|)
    ensures var t := v.strata[q];
            Source(v, q, false) == Some(if HasKind(v.p, q, Policy) then v.p.facts
                                        else if HasKind(v.p, q, Edb) then v.edb[v.ranges[q].begin..v.ranges[q].begin + v.ranges[q].count]
                                        else if !v.stratified then v.idb
                                        else if t < v.active then v.idb[v.ends[t]..v.ends[t + 1]]
                                        else v.idb[v.ends[v.active]..])
  {
    SourceExact(v, Fact(q, []));
  }

  /** Literal i of rule r cannot be decided under bindings for all it reads. */
  ghost predicate UndecidableAt(v: View, r: nat, i: nat, s: Bindings) {
    && r < |v.p.rules| && i < |v.p.rules[r].body| && Needs(v.p.rules[r].body[i]) <= s.Keys
    && var l := v.p.rules[r].body[i];
       if l.Aggregate? then AggregateYields(v, l, s, Rejected)
       else (l.Comparison? || l.Arithmetic?) && EvalComparison(l, s) == Fatal
  }

  lemma RuleIsSafe(v: View, r: nat)
    requires ViewOk(v) && r < |v.p.rules|
    ensures SafeRule(v.p.rules[r]) && HasKind(v.p, v.p.rules[r].head.pred, Idb)
    ensures forall i :: 0 <= i < |v.p.rules[r].body| && v.p.rules[r].body[i].Aggregate? ==>
              v.p.rules[r].body[i].projection in TermsVars(v.p.rules[r].body[i].atom.terms)
  {
    assert WellFormedRule(v.p, v.p.rules[r]);
    forall i | 0 <= i < |v.p.rules[r].body| && v.p.rules[r].body[i].Aggregate?
      ensures v.p.rules[r].body[i].projection in TermsVars(v.p.rules[r].body[i].atom.terms)
    {
      assert SafeLiteral(v.p.rules[r], v.p.rules[r].body[i]);
    }
  }

  /** At the end of a safe order every variable of the head is bound. */
  lemma HeadBound(rule: Rule, order: seq<nat>, b: Bindings, delta: Option<nat>)
    requires SafeRule(rule) && SafeOrder(rule.body, order, delta) && b.Keys == BoundBy(rule.body, order, |order|)
    ensures TermsBound(rule.head.terms, b)
  {
    OrderBindsBody(rule.body, order, delta);
    BoundByKeys(rule.head.terms, b);
  }

  /** Looks a negated atom up in the store of its predicate. */
  method IsAbsent(v: View, r: nat, i: nat, b: Bindings) returns (absent: bool)
    requires ViewOk(v) && InActive(v, r) && i < |v.p.rules[r].body| && v.p.rules[r].body[i].Negated?
    requires Needs(v.p.rules[r].body[i]) <= b.Keys
    ensures absent <==> AbsentFrom(v, v.p.rules[r].body[i].atom, b)
  {
    hide ViewOk, Stratifies;
    var a := v.p.rules[r].body[i].atom;
    BoundByKeys(a.terms, b);
    var query := Ground(a, b);
    RuleReadable(v, r);
    FrozenShape(v, a.pred);
    if HasKind(v.p, a.pred, Edb) {
      var found := Contains(v.edb, query);
      return !found;
    } else if HasKind(v.p, a.pred, Policy) {
      return query !in v.p.facts;
    } else {
      var t := v.strata[a.pred];
      var found := Contains(v.idb[v.ends[t]..v.ends[t + 1]], query);
      return !found;
    }
  }

  /** The frozen store of a predicate of a finished stratum. */
  method FrozenStore(v: View, q: nat) returns (facts: seq<Fact>)
    requires ViewOk(v) && v.stratified && q < |v.p.kinds| && StratumOf(v.strata, q) < v.active
    ensures Frozen(v, q) == Some(facts)
  {
    hide ViewOk;
    FrozenShape(v, q);
    if HasKind(v.p, q, Edb) {
      facts := v.edb[v.ranges[q].begin..v.ranges[q].begin + v.ranges[q].count];
    } else if HasKind(v.p, q, Policy) {
      facts := v.p.facts;
    } else {
      facts := v.idb[v.ends[v.strata[q]]..v.ends[v.strata[q] + 1]];
    }
  }

  /** Evaluates an aggregate over the frozen store of its source predicate. */
  method AggregateValue(v: View, r: nat, i: nat, b: Bindings) returns (out: AggOutcome)
    requires ViewOk(v) && InActive(v, r) && i < |v.p.rules[r].body| && v.p.rules[r].body[i].Aggregate?
    requires Needs(v.p.rules[r].body[i]) <= b.Keys
    ensures AggregateYields(v, v.p.rules[r].body[i], b, out)
  {
    hide ViewOk, AggregateIs, SafeRule, Frozen;
    var l := v.p.rules[r].body[i];
    RuleIsSafe(v, r);
    RuleReadable(v, r);
    var facts := FrozenStore(v, l.atom.pred);
    assert AggregateFacts(v, l, b) == Matching(facts, l, b);
    out := EvaluateAggregate(facts, l, b);
  }

  /** The facts a positive literal scans. */
  method Candidates(v: View, r: nat, i: nat, isDelta: bool) returns (facts: seq<Fact>)
    requires ViewOk(v) && InActive(v, r) && i < |v.p.rules[r].body| && v.p.rules[r].body[i].Positive?
    ensures Source(v, v.p.rules[r].body[i].atom.pred, isDelta) == Some(facts)
  {
    hide ViewOk, Stratifies;
    var q := v.p.rules[r].body[i].atom.pred;
    RuleReadable(v, r);
    SourceShape(v, q);
    if isDelta {
      facts := v.idb[v.deltaBegin..v.deltaEnd];
    } else if HasKind(v.p, q, Policy) {
      facts := v.p.facts;
    } else if HasKind(v.p, q, Edb) {
      var range := v.ranges[q];
      facts := v.edb[range.begin..range.begin + range.count];
    } else if !v.stratified {
      facts := v.idb;
    } else {
      var t := v.strata[q];
      if t < v.active {
        facts := v.idb[v.ends[t]..v.ends[t + 1]];
      } else {
        facts := v.idb[v.ends[v.active]..];
      }
    }
  }

  /* ---------- what an application achieves ---------- */

  datatype Bounds = Bounds(capacity: nat, perPredicate: nat)

  /** A bound forbids another fact of this predicate. */
  ghost predicate Full(bounds: Bounds, idb: seq<Fact>, f: Fact) {
    |idb| >= bounds.capacity || CountOf(idb, f.pred) >= bounds.perPredicate
  }

  ghost predicate Applicable(v: View, r: nat, order: seq<nat>, pos: nat, b: Bindings, delta: Option<nat>) {
    && ViewOk(v) && InActive(v, r) && SafeOrder(v.p.rules[r].body, order, delta) && pos <= |order|
    && b.Keys == BoundBy(v.p.rules[r].body, order, pos)
  }

  /** The failure of an application of rule r is genuine: either the overflowing fact is
      emitted and no longer fits, or a literal cannot be decided although every variable
      it reads is bound. */
  ghost predicate FailureOk(v: View, bounds: Bounds, r: nat, order: seq<nat>, pos: nat, b: Bindings, delta: Option<nat>,
                            idb: seq<Fact>, failure: Failure)
    requires Applicable(v, r, order, pos, b, delta)
  {
    match failure
    case NoFailure => false
    case Overflow(f) => Emits(v, v.p.rules[r], order, pos, b, delta, f) && f !in idb && Full(bounds, idb, f)
    case Undecidable(x, i, s) => x == r && UndecidableAt(v, r, i, s) && Stopped(v, v.p.rules[r].body, order, pos, b, delta, i, s)
  }

  /** From pos on, the join has reached s when it comes to literal i. */
  ghost predicate Stopped(v: View, body: seq<Literal>, order: seq<nat>, pos: nat, b: Bindings, delta: Option<nat>, i: nat, s: Bindings) {
    InBody(body, order) && exists q :: pos <= q < |order| && StoppedAt(v, body, order, pos, b, delta, i, s, q)
  }

  ghost predicate StoppedAt(v: View, body: seq<Literal>, order: seq<nat>, pos: nat, b: Bindings, delta: Option<nat>, i: nat, s: Bindings, q: nat)
    requires InBody(body, order) && pos <= q < |order|
  {
    order[q] == i && Reach(v, body, order[..q], pos, b, delta, s)
  }

  lemma StoppedHere(v: View, body: seq<Literal>, order: seq<nat>, pos: nat, b: Bindings, delta: Option<nat>)
    requires InBody(body, order) && pos < |order|
    ensures Stopped(v, body, order, pos, b, delta, order[pos], b)
  {
    assert StoppedAt(v, body, order, pos, b, delta, order[pos], b, pos);
  }

  /** A join that stops later on has passed the literal at pos. */
  lemma StoppedGuard(v: View, body: seq<Literal>, order: seq<nat>, pos: nat, b: Bindings, delta: Option<nat>, i: nat, s: Bindings)
    requires pos < |order| && Stopped(v, body, order, pos + 1, b, delta, i, s)
    requires var l := body[order[pos]]; (l.Negated? || l.Comparison? || l.Arithmetic?) && Passes(v, l, b)
    ensures Stopped(v, body, order, pos, b, delta, i, s)
  {
    var q :| pos + 1 <= q < |order| && StoppedAt(v, body, order, pos + 1, b, delta, i, s, q);
    assert order[..q][pos] == order[pos];
    assert StoppedAt(v, body, order, pos, b, delta, i, s, q);
  }

  lemma StoppedAggregate(v: View, body: seq<Literal>, order: seq<nat>, pos: nat, b: Bindings, delta: Option<nat>, i: nat, s: Bindings, x: Value)
    requires InBody(body, order) && pos < |order| && body[order[pos]].Aggregate? && AggregateYields(v, body[order[pos]], b, Yields(x))
    requires BindOrMatch(b, Var(body[order[pos]].output), x).Some?
    requires Stopped(v, body, order, pos + 1, BindOrMatch(b, Var(body[order[pos]].output), x).value, delta, i, s)
    ensures Stopped(v, body, order, pos, b, delta, i, s)
  {
    hide AggregateYields;
    var b' := BindOrMatch(b, Var(body[order[pos]].output), x).value;
    var q :| pos + 1 <= q < |order| && StoppedAt(v, body, order, pos + 1, b', delta, i, s, q);
    assert order[..q][pos] == order[pos];
    assert StoppedAt(v, body, order, pos, b, delta, i, s, q);
  }

  lemma StoppedPositive(v: View, body: seq<Literal>, order: seq<nat>, pos: nat, b: Bindings, delta: Option<nat>, i: nat, s: Bindings, c: Fact, b': Bindings)
    requires InBody(body, order) && pos < |order| && body[order[pos]].Positive? && Step(v, body, order[pos], delta, b, c, b')
    requires Stopped(v, body, order, pos + 1, b', delta, i, s)
    ensures Stopped(v, body, order, pos, b, delta, i, s)
  {
    hide Step;
    var q :| pos + 1 <= q < |order| && StoppedAt(v, body, order, pos + 1, b', delta, i, s, q);
    assert order[..q][pos] == order[pos];
    assert StoppedAt(v, body, order, pos, b, delta, i, s, q);
  }

  /** From pos on, the join comes to a literal that cannot be decided. */
  ghost predicate Stuck(v: View, r: nat, order: seq<nat>, pos: nat, b: Bindings, delta: Option<nat>) {
    exists i: nat, s: Bindings :: StuckAt(v, r, order, pos, b, delta, i, s)
  }

  ghost predicate StuckAt(v: View, r: nat, order: seq<nat>, pos: nat, b: Bindings, delta: Option<nat>, i: nat, s: Bindings) {
    UndecidableAt(v, r, i, s) && Stopped(v, v.p.rules[r].body, order, pos, b, delta, i, s)
  }

  lemma StoppedNow(v: View, body: seq<Literal>, order: seq<nat>, pos: nat, b: Bindings, delta: Option<nat>, i: nat, s: Bindings, q: nat)
    requires InBody(body, order) && pos <= q < |order| && StoppedAt(v, body, order, pos, b, delta, i, s, q)
    ensures q == pos ==> i == order[pos] && s == b
    ensures q > pos ==> order[..q][pos] == order[pos] && Reach(v, body, order[..q], pos, b, delta, s)
  {
  }

  /** A guard that passes is not what a join gets stuck at. */
  lemma GuardUnstuck(v: View, r: nat, order: seq<nat>, pos: nat, b: Bindings, delta: Option<nat>)
    requires r < |v.p.rules| && InBody(v.p.rules[r].body, order) && pos < |order|
    requires var l := v.p.rules[r].body[order[pos]]; (l.Negated? || l.Comparison? || l.Arithmetic?) && Passes(v, l, b)
    ensures Stuck(v, r, order, pos, b, delta) ==> Stuck(v, r, order, pos + 1, b, delta)
  {
    var body := v.p.rules[r].body;
    if i, s :| StuckAt(v, r, order, pos, b, delta, i, s) {
      var q :| pos <= q < |order| && StoppedAt(v, body, order, pos, b, delta, i, s, q);
      StoppedNow(v, body, order, pos, b, delta, i, s, q);
      if q > pos {
        assert StoppedAt(v, body, order, pos + 1, b, delta, i, s, q);
        assert StuckAt(v, r, order, pos + 1, b, delta, i, s);
      }
    }
  }

  /** A guard that is false ends the join there. */
  lemma BlockUnstuck(v: View, r: nat, order: seq<nat>, pos: nat, b: Bindings, delta: Option<nat>)
    requires r < |v.p.rules| && InBody(v.p.rules[r].body, order) && pos < |order|
    requires var l := v.p.rules[r].body[order[pos]]; (l.Negated? || l.Comparison? || l.Arithmetic?) && !Passes(v, l, b)
    requires !UndecidableAt(v, r, order[pos], b)
    ensures !Stuck(v, r, order, pos, b, delta)
  {
    hide UndecidableAt;
    var body := v.p.rules[r].body;
    if i, s :| StuckAt(v, r, order, pos, b, delta, i, s) {
      var q :| pos <= q < |order| && StoppedAt(v, body, order, pos, b, delta, i, s, q);
      StoppedNow(v, body, order, pos, b, delta, i, s, q);
    }
  }

  lemma AggregateUnstuck(v: View, r: nat, order: seq<nat>, pos: nat, b: Bindings, delta: Option<nat>, out: AggOutcome)
    requires r < |v.p.rules| && InBody(v.p.rules[r].body, order) && pos < |order| && v.p.rules[r].body[order[pos]].Aggregate?
    requires AggregateYields(v, v.p.rules[r].body[order[pos]], b, out) && !out.Rejected?
    ensures var o := v.p.rules[r].body[order[pos]].output;
            Stuck(v, r, order, pos, b, delta) ==>
              && out.Yields? && BindOrMatch(b, Var(o), out.value).Some?
              && Stuck(v, r, order, pos + 1, BindOrMatch(b, Var(o), out.value).value, delta)
  {
    hide AggregateIs;
    var body := v.p.rules[r].body;
    var l := body[order[pos]];
    if i, s :| StuckAt(v, r, order, pos, b, delta, i, s) {
      var q :| pos <= q < |order| && StoppedAt(v, body, order, pos, b, delta, i, s, q);
      StoppedNow(v, body, order, pos, b, delta, i, s, q);
      if q == pos {
        AggregateUnique(l.kind, AggregateFacts(v, l, b), ProjectedTerm(l.atom.terms, l.projection), out, Rejected);
      } else {
        var x :| AggregateYields(v, l, b, Yields(x)) && BindOrMatch(b, Var(l.output), x).Some? &&
                 Reach(v, body, order[..q], pos + 1, BindOrMatch(b, Var(l.output), x).value, delta, s);
        AggregateUnique(l.kind, AggregateFacts(v, l, b), ProjectedTerm(l.atom.terms, l.projection), out, Yields(x));
        var b' := BindOrMatch(b, Var(l.output), x).value;
        assert StoppedAt(v, body, order, pos + 1, b', delta, i, s, q);
        assert StuckAt(v, r, order, pos + 1, b', delta, i, s);
      }
    }
  }

  /** A scan gets stuck only through one of its candidates. */
  lemma ScanUnstuck(v: View, r: nat, order: seq<nat>, pos: nat, b: Bindings, delta: Option<nat>)
    requires r < |v.p.rules| && InBody(v.p.rules[r].body, order) && pos < |order| && v.p.rules[r].body[order[pos]].Positive?
    ensures Stuck(v, r, order, pos, b, delta) ==>
              exists c, b' :: Step(v, v.p.rules[r].body, order[pos], delta, b, c, b') && Stuck(v, r, order, pos + 1, b', delta)
  {
    hide Step;
    var body := v.p.rules[r].body;
    if i, s :| StuckAt(v, r, order, pos, b, delta, i, s) {
      var q :| pos <= q < |order| && StoppedAt(v, body, order, pos, b, delta, i, s, q);
      StoppedNow(v, body, order, pos, b, delta, i, s, q);
      if q > pos {
        var c, b' :| Step(v, body, order[pos], delta, b, c, b') && Reach(v, body, order[..q], pos + 1, b', delta, s);
        assert StoppedAt(v, body, order, pos + 1, b', delta, i, s, q);
        assert StuckAt(v, r, order, pos + 1, b', delta, i, s);
      }
    }
  }

  /** Joining from pos appends only emitted facts; if it ends well, all of them are there, and it
      has come to no literal that cannot be decided. */
  ghost predicate Progress(v: View, bounds: Bounds, r: nat, order: seq<nat>, pos: nat, b: Bindings, delta: Option<nat>,
                           before: seq<Fact>, after: seq<Fact>, ok: bool, failure: Failure)
    requires Applicable(v, r, order, pos, b, delta)
  {
    && before <= after
    && (forall i :: |before| <= i < |after| ==> Emits(v, v.p.rules[r], order, pos, b, delta, after[i]))
    && (ok ==> forall f :: Emits(v, v.p.rules[r], order, pos, b, delta, f) ==> f in after)
    && (ok ==> !Stuck(v, r, order, pos, b, delta))
    && (!ok ==> FailureOk(v, bounds, r, order, pos, b, delta, after, failure))
  }

  lemma GuardProgress(v: View, bounds: Bounds, r: nat, order: seq<nat>, pos: nat, b: Bindings, delta: Option<nat>,
                      before: seq<Fact>, after: seq<Fact>, ok: bool, failure: Failure)
    requires Applicable(v, r, order, pos, b, delta) && pos < |order|
    requires var l := v.p.rules[r].body[order[pos]]; l.Negated? || l.Comparison? || l.Arithmetic?
    requires Passes(v, v.p.rules[r].body[order[pos]], b)
    ensures Applicable(v, r, order, pos + 1, b, delta)
    ensures Progress(v, bounds, r, order, pos + 1, b, delta, before, after, ok, failure) ==>
            Progress(v, bounds, r, order, pos, b, delta, before, after, ok, failure)
  {
    hide ViewOk, Emits, Passes, UndecidableAt, Stopped, Stuck;
    GuardUnstuck(v, r, order, pos, b, delta);
    forall f ensures Emits(v, v.p.rules[r], order, pos, b, delta, f) <==> Emits(v, v.p.rules[r], order, pos + 1, b, delta, f) {
      EmitsGuard(v, v.p.rules[r], order, pos, b, delta, f);
    }
    if failure.Undecidable? && Stopped(v, v.p.rules[r].body, order, pos + 1, b, delta, failure.literal, failure.bindings) {
      StoppedGuard(v, v.p.rules[r].body, order, pos, b, delta, failure.literal, failure.bindings);
    }
  }

  lemma GuardBlocks(v: View, bounds: Bounds, r: nat, order: seq<nat>, pos: nat, b: Bindings, delta: Option<nat>,
                    before: seq<Fact>, failure: Failure)
    requires Applicable(v, r, order, pos, b, delta) && pos < |order|
    requires var l := v.p.rules[r].body[order[pos]]; l.Negated? || l.Comparison? || l.Arithmetic?
    requires !Passes(v, v.p.rules[r].body[order[pos]], b) && !UndecidableAt(v, r, order[pos], b)
    ensures Progress(v, bounds, r, order, pos, b, delta, before, before, true, failure)
  {
    hide ViewOk, Emits, Passes, UndecidableAt, Stuck;
    BlockUnstuck(v, r, order, pos, b, delta);
    forall f ensures !Emits(v, v.p.rules[r], order, pos, b, delta, f) {
      EmitsGuard(v, v.p.rules[r], order, pos, b, delta, f);
    }
  }

  lemma AggregateProgress(v: View, bounds: Bounds, r: nat, order: seq<nat>, pos: nat, b: Bindings, delta: Option<nat>,
                          out: AggOutcome, before: seq<Fact>, after: seq<Fact>, ok: bool, failure: Failure)
    requires Applicable(v, r, order, pos, b, delta) && pos < |order| && v.p.rules[r].body[order[pos]].Aggregate?
    requires AggregateYields(v, v.p.rules[r].body[order[pos]], b, out)
    requires out.Yields? && BindOrMatch(b, Var(v.p.rules[r].body[order[pos]].output), out.value).Some?
    ensures var b' := BindOrMatch(b, Var(v.p.rules[r].body[order[pos]].output), out.value).value;
            && Applicable(v, r, order, pos + 1, b', delta)
            && (Progress(v, bounds, r, order, pos + 1, b', delta, before, after, ok, failure) ==>
                Progress(v, bounds, r, order, pos, b, delta, before, after, ok, failure))
  {
    hide ViewOk, Emits, AggregateYields, UndecidableAt, Stopped, Stuck;
    var b' := BindOrMatch(b, Var(v.p.rules[r].body[order[pos]].output), out.value).value;
    forall f ensures Emits(v, v.p.rules[r], order, pos, b, delta, f) <==> Emits(v, v.p.rules[r], order, pos + 1, b', delta, f) {
      EmitsAggregate(v, v.p.rules[r], order, pos, b, delta, out, f);
    }
    if failure.Undecidable? && Stopped(v, v.p.rules[r].body, order, pos + 1, b', delta, failure.literal, failure.bindings) {
      StoppedAggregate(v, v.p.rules[r].body, order, pos, b, delta, failure.literal, failure.bindings, out.value);
    }
    AggregateUnstuck(v, r, order, pos, b, delta, out);
  }

  lemma AggregateBlocks(v: View, bounds: Bounds, r: nat, order: seq<nat>, pos: nat, b: Bindings, delta: Option<nat>,
                        out: AggOutcome, before: seq<Fact>, failure: Failure)
    requires Applicable(v, r, order, pos, b, delta) && pos < |order| && v.p.rules[r].body[order[pos]].Aggregate?
    requires AggregateYields(v, v.p.rules[r].body[order[pos]], b, out)
    requires !(out.Yields? && BindOrMatch(b, Var(v.p.rules[r].body[order[pos]].output), out.value).Some?) && !out.Rejected?
    ensures Progress(v, bounds, r, order, pos, b, delta, before, before, true, failure)
  {
    hide ViewOk, Emits, AggregateYields, UndecidableAt, Stuck;
    AggregateUnstuck(v, r, order, pos, b, delta, out);
    forall f ensures !Emits(v, v.p.rules[r], order, pos, b, delta, f) {
      EmitsAggregate(v, v.p.rules[r], order, pos, b, delta, out, f);
    }
  }

  /** An undecidable literal stops the application. */
  lemma UndecidableProgress(v: View, bounds: Bounds, r: nat, order: seq<nat>, pos: nat, b: Bindings, delta: Option<nat>, before: seq<Fact>)
    requires Applicable(v, r, order, pos, b, delta) && pos < |order|
    requires var l := v.p.rules[r].body[order[pos]];
             if l.Aggregate? then AggregateYields(v, l, b, Rejected)
             else (l.Comparison? || l.Arithmetic?) && EvalComparison(l, b) == Fatal
    ensures Progress(v, bounds, r, order, pos, b, delta, before, before, false, Undecidable(r, order[pos], b))
  {
    hide ViewOk, Emits, AggregateYields, Stopped, Stuck;
    assert SafeAt(v.p.rules[r].body, order, pos);
    StoppedHere(v, v.p.rules[r].body, order, pos, b, delta);
  }

  /** Everything emitted through candidate c is there, and no join through it is stuck. */
  ghost predicate CandidateDone(v: View, r: nat, order: seq<nat>, pos: nat, b: Bindings, delta: Option<nat>, c: Fact, after: seq<Fact>)
    requires Applicable(v, r, order, pos, b, delta) && pos < |order| && v.p.rules[r].body[order[pos]].Positive?
  {
    && (forall b', f | Step(v, v.p.rules[r].body, order[pos], delta, b, c, b') && Emits(v, v.p.rules[r], order, pos + 1, b', delta, f) ::
          f in after)
    && (forall b' | Step(v, v.p.rules[r].body, order[pos], delta, b, c, b') :: !Stuck(v, r, order, pos + 1, b', delta))
  }

  /** A scan that has dealt with the first k candidates. */
  ghost predicate ScanProgress(v: View, r: nat, order: seq<nat>, pos: nat, b: Bindings, delta: Option<nat>,
                               facts: seq<Fact>, k: nat, before: seq<Fact>, after: seq<Fact>)
    requires Applicable(v, r, order, pos, b, delta) && pos < |order| && v.p.rules[r].body[order[pos]].Positive?
  {
    && before <= after && k <= |facts|
    && (forall i :: |before| <= i < |after| ==> Emits(v, v.p.rules[r], order, pos, b, delta, after[i]))
    && (forall j :: 0 <= j < k ==> CandidateDone(v, r, order, pos, b, delta, facts[j], after))
  }

  lemma ScanSkips(v: View, r: nat, order: seq<nat>, pos: nat, b: Bindings, delta: Option<nat>,
                  facts: seq<Fact>, k: nat, before: seq<Fact>, after: seq<Fact>)
    requires Applicable(v, r, order, pos, b, delta) && pos < |order| && v.p.rules[r].body[order[pos]].Positive?
    requires ScanProgress(v, r, order, pos, b, delta, facts, k, before, after) && k < |facts|
    requires MatchFact(b, v.p.rules[r].body[order[pos]].atom, facts[k]).None?
    ensures ScanProgress(v, r, order, pos, b, delta, facts, k + 1, before, after)
  {
    hide ViewOk, Emits, MatchFact, Stuck;
  }

  lemma CandidateApplicable(v: View, r: nat, order: seq<nat>, pos: nat, b: Bindings, delta: Option<nat>, c: Fact, b': Bindings)
    requires Applicable(v, r, order, pos, b, delta) && pos < |order| && v.p.rules[r].body[order[pos]].Positive?
    requires Step(v, v.p.rules[r].body, order[pos], delta, b, c, b')
    ensures Applicable(v, r, order, pos + 1, b', delta)
  {
    hide ViewOk, Step;
    StepBinds(v, v.p.rules[r].body, order[pos], delta, b, c, b');
  }

  lemma ScanAdvances(v: View, bounds: Bounds, r: nat, order: seq<nat>, pos: nat, b: Bindings, delta: Option<nat>,
                     facts: seq<Fact>, k: nat, before: seq<Fact>, middle: seq<Fact>, after: seq<Fact>,
                     b': Bindings, ok: bool, failure: Failure)
    requires Applicable(v, r, order, pos, b, delta) && pos < |order| && v.p.rules[r].body[order[pos]].Positive?
    requires ScanProgress(v, r, order, pos, b, delta, facts, k, before, middle) && k < |facts|
    requires Step(v, v.p.rules[r].body, order[pos], delta, b, facts[k], b') && Applicable(v, r, order, pos + 1, b', delta)
    requires Progress(v, bounds, r, order, pos + 1, b', delta, middle, after, ok, failure)
    ensures ok ==> ScanProgress(v, r, order, pos, b, delta, facts, k + 1, before, after)
    ensures !ok ==> Progress(v, bounds, r, order, pos, b, delta, before, after, false, failure)
  {
    hide ViewOk, Emits, UndecidableAt, Full, SafeOrder, Stopped, Stuck;
    OrderInBody(v.p.rules[r].body, order, delta);
    forall f | Emits(v, v.p.rules[r], order, pos + 1, b', delta, f)
      ensures Emits(v, v.p.rules[r], order, pos, b, delta, f)
    {
      EmitsPositive(v, v.p.rules[r], order, pos, b, delta, f);
    }
    if failure.Undecidable? && Stopped(v, v.p.rules[r].body, order, pos + 1, b', delta, failure.literal, failure.bindings) {
      StoppedPositive(v, v.p.rules[r].body, order, pos, b, delta, failure.literal, failure.bindings, facts[k], b');
    }
    assert forall f :: f in middle ==> f in after;
    forall j | 0 <= j < k + 1 && ok
      ensures CandidateDone(v, r, order, pos, b, delta, facts[j], after)
    {
      if j < k { assert CandidateDone(v, r, order, pos, b, delta, facts[j], middle); }
    }
  }

  lemma ScanEnds(v: View, bounds: Bounds, r: nat, order: seq<nat>, pos: nat, b: Bindings, delta: Option<nat>,
                 facts: seq<Fact>, before: seq<Fact>, after: seq<Fact>, failure: Failure)
    requires Applicable(v, r, order, pos, b, delta) && pos < |order| && v.p.rules[r].body[order[pos]].Positive?
    requires Source(v, v.p.rules[r].body[order[pos]].atom.pred, delta == Some(order[pos])) == Some(facts)
    requires ScanProgress(v, r, order, pos, b, delta, facts, |facts|, before, after)
    ensures Progress(v, bounds, r, order, pos, b, delta, before, after, true, failure)
  {
    hide ViewOk, Emits, UndecidableAt, Full, SafeOrder, Stuck;
    OrderInBody(v.p.rules[r].body, order, delta);
    forall c, b' | Step(v, v.p.rules[r].body, order[pos], delta, b, c, b') ensures !Stuck(v, r, order, pos + 1, b', delta) {
      var j :| 0 <= j < |facts| && facts[j] == c;
      assert CandidateDone(v, r, order, pos, b, delta, facts[j], after);
    }
    ScanUnstuck(v, r, order, pos, b, delta);
    forall f | Emits(v, v.p.rules[r], order, pos, b, delta, f)
      ensures f in after
    {
      EmitsPositive(v, v.p.rules[r], order, pos, b, delta, f);
      var c, b' :| Step(v, v.p.rules[r].body, order[pos], delta, b, c, b') && Emits(v, v.p.rules[r], order, pos + 1, b', delta, f);
      var j :| 0 <= j < |facts| && facts[j] == c;
      assert CandidateDone(v, r, order, pos, b, delta, facts[j], after);
    }
  }

  lemma HeadProgress(v: View, bounds: Bounds, r: nat, order: seq<nat>, b: Bindings, delta: Option<nat>,
                     before: seq<Fact>, after: seq<Fact>, ok: bool, failure: Failure)
    requires Applicable(v, r, order, |order|, b, delta)
    ensures TermsBound(v.p.rules[r].head.terms, b)
    ensures var f := Ground(v.p.rules[r].head, b);
            && HasKind(v.p, f.pred, Idb)
            && ((ok ==> f in after && (after == before || after == before + [f])) &&
                (!ok ==> after == before && failure == Overflow(f) && f !in before && Full(bounds, before, f)) ==>
                Progress(v, bounds, r, order, |order|, b, delta, before, after, ok, failure))
  {
    hide ViewOk, Emits, UndecidableAt, Full, SafeOrder, SafeRule;
    OrderInBody(v.p.rules[r].body, order, delta);
    var rule := v.p.rules[r];
    RuleIsSafe(v, r);
    HeadBound(rule, order, b, delta);
    var f := Ground(rule.head, b);
    forall g ensures Emits(v, rule, order, |order|, b, delta, g) <==> g == f {
      EmitsEnd(v, rule, order, b, delta, g);
    }
  }

  /* ---------- windows and strata ---------- */

  /** The view after a pass: the merge window is accepted and becomes the newest facts. */
  function AcceptedView(v: View, idb: seq<Fact>, deltaBegin: nat): View {
    v.(idb := idb, deltaBegin := deltaBegin, deltaEnd := |idb|)
  }

  /** The facts after the accepted ones are derived facts of the active stratum. */
  ghost predicate TailOk(v: View, idb: seq<Fact>) {
    && v.idb <= idb
    && forall i :: |v.idb| <= i < |idb| ==> HasKind(v.p, idb[i].pred, Idb) && StratumOf(v.strata, idb[i].pred) == v.active
  }

  lemma AcceptedOk(v: View, idb: seq<Fact>, deltaBegin: nat)
    requires ViewOk(v) && TailOk(v, idb) && deltaBegin <= |idb|
    ensures ViewOk(AcceptedView(v, idb, deltaBegin))
    ensures Low(AcceptedView(v, idb, deltaBegin)) == Low(v) && Levels(AcceptedView(v, idb, deltaBegin)) == Levels(v)
    ensures forall f :: f in Known(AcceptedView(v, idb, deltaBegin)) <==> f in Known(v) || f in idb[|v.idb|..]
  {
    hide WellFormed, Stratifies, RangesOk, InputsOk;
    var w := AcceptedView(v, idb, deltaBegin);
    assert idb == v.idb + idb[|v.idb|..];
    assert Partitioned(w) by { AcceptedPartition(v, idb, deltaBegin); }
    assert w.idb[..w.ends[w.active]] == v.idb[..v.ends[v.active]];
    forall i | 0 <= i < |idb| ensures HasKind(v.p, idb[i].pred, Idb) {
      if i < |v.idb| { assert idb[i] == v.idb[i]; }
    }
  }

  lemma AcceptedPartition(v: View, idb: seq<Fact>, deltaBegin: nat)
    requires Partitioned(v) && TailOk(v, idb)
    ensures Partitioned(AcceptedView(v, idb, deltaBegin))
  {
    var w := AcceptedView(v, idb, deltaBegin);
    forall t, i | 0 <= t < v.active && v.ends[t] <= i < v.ends[t + 1]
      ensures StratumOf(w.strata, w.idb[i].pred) == t
    {
      assert w.idb[i] == v.idb[i];
    }
    forall i | v.ends[v.active] <= i < |idb|
      ensures StratumOf(w.strata, w.idb[i].pred) == v.active
    {
      if i < |v.idb| { assert w.idb[i] == v.idb[i]; }
    }
    forall t | 0 <= t < v.active
      ensures Ascending(w.idb[w.ends[t]..w.ends[t + 1]])
    {
      assert w.idb[w.ends[t]..w.ends[t + 1]] == v.idb[v.ends[t]..v.ends[t + 1]];
    }
  }

  lemma EndsBelow(v: View)
    requires ViewOk(v)
    ensures v.active < |v.ends|
    ensures v.ends[v.active] <= |v.idb|
  {
  }

  function FillEnds(ends: seq<nat>, from: nat, x: nat): seq<nat> {
    seq(|ends|, i requires 0 <= i < |ends| => if i < from then ends[i] else x)
  }

  /** The view at the beginning of the next stratum. */
  function NextStratum(v: View, idb: seq<Fact>): View {
    v.(idb := idb, deltaBegin := |idb|, deltaEnd := |idb|, active := v.active + 1,
       ends := FillEnds(v.ends, v.active + 1, |idb|))
  }

  /** The finished stratum, sorted. */
  ghost predicate SortedTail(v: View, idb: seq<Fact>) {
    && v.active < |v.ends| && v.ends[v.active] <= |v.idb| == |idb|
    && idb[..v.ends[v.active]] == v.idb[..v.ends[v.active]]
    && Ascending(idb[v.ends[v.active]..])
    && FactSet(idb[v.ends[v.active]..]) == FactSet(v.idb[v.ends[v.active]..])
  }

  lemma SortedTailSame(v: View, idb: seq<Fact>)
    requires SortedTail(v, idb)
    ensures FactSet(idb) == FactSet(v.idb)
  {
    var e := v.ends[v.active];
    assert idb == idb[..e] + idb[e..] && v.idb == v.idb[..e] + v.idb[e..];
    assert FactSet(idb) == FactSet(idb[..e]) + FactSet(idb[e..]);
    assert FactSet(v.idb) == FactSet(v.idb[..e]) + FactSet(v.idb[e..]);
  }

  lemma NextStratumOf(v: View, idb: seq<Fact>, t: nat, i: nat)
    requires Partitioned(v) && SortedTail(v, idb) && t <= v.active
    requires v.ends[t] <= i < if t < v.active then v.ends[t + 1] else |idb|
    ensures StratumOf(v.strata, idb[i].pred) == t
  {
    hide Ascending, StratumOf;
    var e := v.ends[v.active];
    if t < v.active {
      EndsGrow(v, t + 1, v.active);
      assert idb[..e][i] == v.idb[..e][i];
    } else {
      SuffixAt(idb, e, i - e);
      assert idb[e..][i - e] in FactSet(v.idb[e..]);
      var j :| 0 <= j < |v.idb[e..]| && v.idb[e..][j] == idb[i];
      SuffixAt(v.idb, e, j);
    }
  }

  lemma SuffixAt(s: seq<Fact>, e: nat, j: nat)
    requires e + j < |s|
    ensures s[e..][j] == s[e + j] && s[e..][j] in FactSet(s[e..])
  {
  }

  lemma NextAscending(v: View, idb: seq<Fact>, t: nat)
    requires Partitioned(v) && SortedTail(v, idb) && t < v.active
    ensures v.ends[t] <= v.ends[t + 1] <= |idb| && Ascending(idb[v.ends[t]..v.ends[t + 1]])
  {
    hide Ascending;
    var e := v.ends[v.active];
    EndsGrow(v, t + 1, v.active);
    SliceOfPrefix(idb, e, v.ends[t], v.ends[t + 1]);
    SliceOfPrefix(v.idb, e, v.ends[t], v.ends[t + 1]);
  }

  lemma SliceOfPrefix(s: seq<Fact>, e: nat, i: nat, j: nat)
    requires i <= j <= e <= |s|
    ensures s[i..j] == s[..e][i..j]
  {
  }

  lemma NextPartition(v: View, idb: seq<Fact>)
    requires Partitioned(v) && v.active + 1 < MAX_STRATA && SortedTail(v, idb)
    ensures Partitioned(NextStratum(v, idb))
  {
    hide Ascending, StratumOf, FactSet;
    var w := NextStratum(v, idb);
    var e := v.ends[v.active];
    forall t, i | 0 <= t < w.active && w.ends[t] <= i < w.ends[t + 1]
      ensures StratumOf(w.strata, w.idb[i].pred) == t
    {
      NextStratumOf(v, idb, t, i);
    }
    forall t | 0 <= t < w.active
      ensures Ascending(w.idb[w.ends[t]..w.ends[t + 1]])
    {
      if t < v.active {
        NextAscending(v, idb, t);
      } else {
        assert w.idb[w.ends[t]..w.ends[t + 1]] == idb[e..];
      }
    }
  }

  /** What was known becomes the frozen part of the next stratum. */
  lemma NextStratumOk(v: View, idb: seq<Fact>)
    requires ViewOk(v) && v.stratified && v.active + 1 < MAX_STRATA && SortedTail(v, idb)
    ensures ViewOk(NextStratum(v, idb)) && Low(NextStratum(v, idb)) == Known(v)
    ensures Levels(NextStratum(v, idb)) == Levels(v)
  {
    hide WellFormed, Stratifies, RangesOk, InputsOk;
    var w := NextStratum(v, idb);
    NextPartition(v, idb);
    SortedTailSame(v, idb);
    assert forall f :: f in idb <==> f in FactSet(idb);
    assert forall f :: f in v.idb <==> f in FactSet(v.idb);
    assert w.idb[..w.ends[w.active]] == idb;
    forall i | 0 <= i < |idb| ensures HasKind(v.p, idb[i].pred, Idb) {
      assert idb[i] in v.idb;
    }
  }

  method SortStratum(idb: seq<Fact>, begin: nat) returns (r: seq<Fact>)
    requires begin <= |idb| && DistinctFacts(idb)
    ensures |r| == |idb| && r[..begin] == idb[..begin]
    ensures Ascending(r[begin..]) && FactSet(r[begin..]) == FactSet(idb[begin..])
    ensures DistinctFacts(r)
  {
    assert DistinctFacts(idb[begin..]);
    var sorted := SortFacts(idb[begin..]);
    r := idb[..begin] + sorted;
    assert r[begin..] == sorted;
    AscendingDistinct(sorted);
    forall i, j | 0 <= i < j < |r| ensures r[i] != r[j] {
      if i < begin <= j {
        assert r[j] == sorted[j - begin];
        assert r[j] in FactSet(sorted);
        var k :| 0 <= k < |idb[begin..]| && idb[begin..][k] == r[j];
        assert idb[begin + k] == r[j] && r[i] == idb[i];
      } else if begin <= i {
        assert r[i] == sorted[i - begin] && r[j] == sorted[j - begin];
      } else {
        assert r[i] == idb[i] && r[j] == idb[j];
      }
    }
  }

  lemma SamePredCounts(s: seq<Fact>, t: seq<Fact>)
    requires DistinctFacts(s) && DistinctFacts(t) && FactSet(s) == FactSet(t)
    ensures forall q :: CountOf(s, q) == CountOf(t, q)
  {
    forall q: nat ensures CountOf(s, q) == CountOf(t, q) {
      CountIsSize(s, q);
      CountIsSize(t, q);
    }
  }

  /** The working state of one solve. */
  class Workspace {
    const p: Program
    const edb: seq<Fact>
    const ranges: seq<Range>
    const stratified: bool
    const strata: seq<nat>
    const bounds: Bounds

    /** The derived facts: accepted up to currentEnd, then the merge window of this pass. */
    var idb: seq<Fact>
    var currentEnd: nat
    var deltaBegin: nat
    var deltaEnd: nat
    var active: nat
    var ends: seq<nat>
    var factsPerPred: seq<nat>
    var headMayBeInBase: bool
    var failure: Failure

    constructor (p: Program, edb: seq<Fact>, ranges: seq<Range>, stratified: bool, strata: seq<nat>, bounds: Bounds)
      ensures this.p == p && this.edb == edb && this.ranges == ranges && this.stratified == stratified
      ensures this.strata == strata && this.bounds == bounds
      ensures idb == [] && currentEnd == deltaBegin == deltaEnd == active == 0
      ensures ends == seq(MAX_STRATA + 1, _ => 0) && factsPerPred == seq(MAX_PREDICATES, _ => 0)
      ensures failure == NoFailure
    {
      this.p, this.edb, this.ranges, this.stratified := p, edb, ranges, stratified;
      this.strata, this.bounds := strata, bounds;
      idb, currentEnd, deltaBegin, deltaEnd, active := [], 0, 0, 0, 0;
      ends, factsPerPred := seq(MAX_STRATA + 1, _ => 0), seq(MAX_PREDICATES, _ => 0);
      headMayBeInBase, failure := false, NoFailure;
    }

    /** What the rule applications of the current pass read. */
    function V(): View
      reads this`idb, this`currentEnd, this`deltaBegin, this`deltaEnd, this`active, this`ends
    {
      View(p, edb, ranges, if currentEnd <= |idb| then idb[..currentEnd] else idb, deltaBegin, deltaEnd,
           stratified, strata, active, ends)
    }

    ghost predicate Counted()
      reads this`idb, this`factsPerPred
    {
      |factsPerPred| == MAX_PREDICATES &&
      forall q :: 0 <= q < MAX_PREDICATES ==> factsPerPred[q] == CountOf(idb, q) <= bounds.perPredicate
    }

    ghost predicate MergeOk()
      reads this`idb, this`currentEnd, this`active
    {
      forall i :: currentEnd <= i < |idb| ==> HasKind(p, idb[i].pred, Idb) && StratumOf(strata, idb[i].pred) == active
    }

    ghost predicate Inv()
      reads this`idb, this`currentEnd, this`deltaBegin, this`deltaEnd, this`active, this`ends, this`factsPerPred
    {
      currentEnd <= |idb| <= bounds.capacity && ViewOk(V()) && DistinctFacts(idb) && MergeOk() && Counted()
    }

    /** Some input or policy fact has this predicate. */
    predicate PredicateInBase(q: nat) {
      (exists i :: 0 <= i < |edb| && edb[i].pred == q) || (exists i :: 0 <= i < |p.facts| && p.facts[i].pred == q)
    }

    /** No input and no policy fact of a validated program has a derived predicate, so the
        lookup of a derived fact among them is always skipped. */
    lemma BaseHasOtherKinds(q: nat)
      requires ViewOk(V()) && HasKind(p, q, Idb)
      ensures !PredicateInBase(q)
    {
    }

    /** A derived fact of the active stratum. */
    ghost predicate Derivable(f: Fact)
      reads this`active
    {
      HasKind(p, f.pred, Idb) && StratumOf(strata, f.pred) == active
    }

    /** Extends the merge window. */
    method Push(f: Fact)
      requires Inv() && Derivable(f) && f !in idb && f.pred < MAX_PREDICATES
      requires |idb| < bounds.capacity && factsPerPred[f.pred] < bounds.perPredicate
      modifies this`idb, this`factsPerPred
      ensures Inv() && V() == old(V()) && idb == old(idb) + [f]
    {
      hide ViewOk, DistinctFacts;
      ghost var before := idb;
      DistinctGrows(idb, f);
      forall q ensures CountOf(idb + [f], q) == CountOf(idb, q) + (if f.pred == q then 1 else 0) {
        CountGrows(idb, f, q);
      }
      idb := idb + [f];
      factsPerPred := factsPerPred[f.pred := factsPerPred[f.pred] + 1];
      assert idb[..currentEnd] == before[..currentEnd];
    }

    lemma InvFacts(f: Fact)
      requires Inv() && Derivable(f)
      ensures currentEnd <= |idb| && f.pred < MAX_PREDICATES == |factsPerPred|
      ensures factsPerPred[f.pred] == CountOf(idb, f.pred)
      ensures !PredicateInBase(f.pred)
    {
      KindsBounded(V(), f.pred);
      BaseHasOtherKinds(f.pred);
    }

    /** Adds a derived fact to the merge window unless it is already there. */
    method Append(f: Fact) returns (ok: bool)
      requires Inv() && Derivable(f)
      requires headMayBeInBase <==> PredicateInBase(f.pred)
      modifies this`idb, this`factsPerPred, this`failure
      ensures Inv() && V() == old(V())
      ensures ok ==> f in idb && (idb == old(idb) || idb == old(idb) + [f])
      ensures !ok ==> idb == old(idb) && failure == Overflow(f) && f !in idb && Full(bounds, idb, f)
    {
      hide Inv, Derivable, PredicateInBase;
      InvFacts(f);
      assert !headMayBeInBase;
      if f in idb[..currentEnd] { return true; }
      if f in idb[currentEnd..] { return true; }
      assert f !in idb by { assert idb == idb[..currentEnd] + idb[currentEnd..]; }
      if |idb| >= bounds.capacity || factsPerPred[f.pred] >= bounds.perPredicate {
        failure := Overflow(f);
        return false;
      }
      Push(f);
      return true;
    }

    /** Accepts the merge window; the facts from the given position are now the newest. */
    method Accept(from: nat)
      requires Inv() && from <= |idb|
      modifies this`currentEnd, this`deltaBegin, this`deltaEnd
      ensures Inv() && V() == AcceptedView(old(V()), idb, from) && currentEnd == |idb|
    {
      hide ViewOk, DistinctFacts, CountOf;
      assert TailOk(V(), idb) by { assert idb[..currentEnd] <= idb; }
      AcceptedOk(V(), idb, from);
      currentEnd, deltaBegin, deltaEnd := |idb|, from, |idb|;
      assert idb[..|idb|] == idb;
    }

    /** Sorts the finished stratum and opens the next one. Removing duplicates from the
        sorted stratum has no effect, as the window never holds any. */
    method FreezeAndAdvance()
      requires Inv() && currentEnd == |idb| && stratified && active + 1 < MAX_STRATA
      modifies this`idb, this`deltaBegin, this`deltaEnd, this`active, this`ends
      ensures Inv() && currentEnd == |idb|
      ensures SortedTail(old(V()), idb) && V() == NextStratum(old(V()), idb)
    {
      hide ViewOk, CountOf, DistinctFacts, Ascending, Partitioned, FactSet, StratumOf;
      ghost var v := V();
      ghost var before := idb;
      assert idb[..|idb|] == idb;
      EndsBelow(v);
      var begin := ends[active];
      var sorted := SortStratum(idb, begin);
      idb := sorted;
      NextStratumOk(v, idb);
      SortedTailSame(v, idb);
      SamePredCounts(before, idb);
      deltaBegin, deltaEnd := |idb|, |idb|;
      active := active + 1;
      ends := FillEnds(ends, active, |idb|);
      assert idb[..|idb|] == idb;
    }

    ghost predicate HeadFlag(r: nat)
      reads this`headMayBeInBase
    {
      r < |p.rules| && (headMayBeInBase <==> PredicateInBase(p.rules[r].head.pred))
    }

    /** Joins the body of a rule from position pos of the order and appends the heads. */
    method Derive(r: nat, order: seq<nat>, pos: nat, b: Bindings, delta: Option<nat>) returns (ok: bool)
      requires Inv() && HeadFlag(r) && Applicable(V(), r, order, pos, b, delta)
      modifies this`idb, this`factsPerPred, this`failure
      ensures Inv() && V() == old(V())
      ensures Progress(V(), bounds, r, order, pos, b, delta, old(idb), idb, ok, failure)
      decreases |order| - pos, 1
    {
      hide Inv, Progress, ViewOk, SafeOrder;
      if pos == |order| {
        ok := DeriveHead(r, order, b, delta);
        return;
      }
      assert InBody(p.rules[r].body, order) by { OrderInBody(p.rules[r].body, order, delta); }
      match p.rules[r].body[order[pos]] {
        case Positive(_) => ok := Scan(r, order, pos, b, delta);
        case Aggregate(_, _, _, _) => ok := DeriveAggregate(r, order, pos, b, delta);
        case Negated(_) => ok := DeriveGuard(r, order, pos, b, delta);
        case Comparison(_, _, _) => ok := DeriveGuard(r, order, pos, b, delta);
        case Arithmetic(_, _, _) => ok := DeriveGuard(r, order, pos, b, delta);
      }
    }

    method DeriveHead(r: nat, order: seq<nat>, b: Bindings, delta: Option<nat>) returns (ok: bool)
      requires Inv() && HeadFlag(r) && Applicable(V(), r, order, |order|, b, delta)
      modifies this`idb, this`factsPerPred, this`failure
      ensures Inv() && V() == old(V())
      ensures Progress(V(), bounds, r, order, |order|, b, delta, old(idb), idb, ok, failure)
    {
      hide Inv, Progress, ViewOk, SafeOrder;
      HeadProgress(V(), bounds, r, order, b, delta, idb, idb, true, failure);
      var f := Ground(p.rules[r].head, b);
      ghost var before := idb;
      ok := Append(f);
      HeadProgress(V(), bounds, r, order, b, delta, before, idb, ok, failure);
    }

    method DeriveGuard(r: nat, order: seq<nat>, pos: nat, b: Bindings, delta: Option<nat>) returns (ok: bool)
      requires Inv() && HeadFlag(r) && Applicable(V(), r, order, pos, b, delta) && pos < |order|
      requires var l := p.rules[r].body[order[pos]]; l.Negated? || l.Comparison? || l.Arithmetic?
      modifies this`idb, this`factsPerPred, this`failure
      ensures Inv() && V() == old(V())
      ensures Progress(V(), bounds, r, order, pos, b, delta, old(idb), idb, ok, failure)
      decreases |order| - pos, 0
    {
      hide Inv, Progress, ViewOk, AbsentFrom, EvalComparison;
      var l := p.rules[r].body[order[pos]];
      assert SafeAt(p.rules[r].body, order, pos);
      if l.Negated? {
        var absent := IsAbsent(V(), r, order[pos], b);
        if !absent {
          GuardBlocks(V(), bounds, r, order, pos, b, delta, idb, failure);
          return true;
        }
      } else {
        var verdict := EvalComparison(l, b);
        if verdict.Fatal? {
          UndecidableProgress(V(), bounds, r, order, pos, b, delta, idb);
          failure := Undecidable(r, order[pos], b);
          return false;
        }
        if verdict.No? {
          GuardBlocks(V(), bounds, r, order, pos, b, delta, idb, failure);
          return true;
        }
      }
      ghost var before := idb;
      GuardProgress(V(), bounds, r, order, pos, b, delta, before, idb, true, failure);
      ok := Derive(r, order, pos + 1, b, delta);
      GuardProgress(V(), bounds, r, order, pos, b, delta, before, idb, ok, failure);
    }

    method DeriveAggregate(r: nat, order: seq<nat>, pos: nat, b: Bindings, delta: Option<nat>) returns (ok: bool)
      requires Inv() && HeadFlag(r) && Applicable(V(), r, order, pos, b, delta) && pos < |order|
      requires p.rules[r].body[order[pos]].Aggregate?
      modifies this`idb, this`factsPerPred, this`failure
      ensures Inv() && V() == old(V())
      ensures Progress(V(), bounds, r, order, pos, b, delta, old(idb), idb, ok, failure)
      decreases |order| - pos, 0
    {
      hide Inv, Progress, ViewOk, AggregateYields;
      var l := p.rules[r].body[order[pos]];
      assert SafeAt(p.rules[r].body, order, pos);
      var out := AggregateValue(V(), r, order[pos], b);
      if out.Rejected? {
        UndecidableProgress(V(), bounds, r, order, pos, b, delta, idb);
        failure := Undecidable(r, order[pos], b);
        return false;
      }
      if out.NoValue? || BindOrMatch(b, Var(l.output), out.value).None? {
        AggregateBlocks(V(), bounds, r, order, pos, b, delta, out, idb, failure);
        return true;
      }
      ghost var before := idb;
      AggregateProgress(V(), bounds, r, order, pos, b, delta, out, before, idb, true, failure);
      ok := Derive(r, order, pos + 1, BindOrMatch(b, Var(l.output), out.value).value, delta);
      AggregateProgress(V(), bounds, r, order, pos, b, delta, out, before, idb, ok, failure);
    }

    /** Scans the candidates of a positive literal, delta or not. */
    method Scan(r: nat, order: seq<nat>, pos: nat, b: Bindings, delta: Option<nat>) returns (ok: bool)
      requires Inv() && HeadFlag(r) && Applicable(V(), r, order, pos, b, delta) && pos < |order|
      requires p.rules[r].body[order[pos]].Positive?
      modifies this`idb, this`factsPerPred, this`failure
      ensures Inv() && V() == old(V())
      ensures Progress(V(), bounds, r, order, pos, b, delta, old(idb), idb, ok, failure)
      decreases |order| - pos, 0
    {
      hide Inv, Progress, ViewOk, MatchFact, CandidateDone, Emits;
      var a := p.rules[r].body[order[pos]].atom;
      ghost var v := V();
      var facts := Candidates(V(), r, order[pos], delta == Some(order[pos]));
      for k := 0 to |facts|
        invariant Inv() && V() == v && HeadFlag(r)
        invariant ScanProgress(v, r, order, pos, b, delta, facts, k, old(idb), idb)
      {
        var m := MatchFact(b, a, facts[k]);
        if m.None? {
          ScanSkips(v, r, order, pos, b, delta, facts, k, old(idb), idb);
          continue;
        }
        assert Step(v, p.rules[r].body, order[pos], delta, b, facts[k], m.value);
        CandidateApplicable(v, r, order, pos, b, delta, facts[k], m.value);
        ghost var middle := idb;
        ok := Derive(r, order, pos + 1, m.value, delta);
        ScanAdvances(v, bounds, r, order, pos, b, delta, facts, k, old(idb), middle, idb, m.value, ok, failure);
        if !ok { return; }
      }
      ok := true;
      ScanEnds(v, bounds, r, order, pos, b, delta, facts, old(idb), idb, failure);
    }
  }

  lemma KindsBounded(v: View, q: nat)
    requires ViewOk(v) && q < |v.p.kinds|
    ensures q < MAX_PREDICATES
  {
  }

  lemma DistinctGrows(s: seq<Fact>, f: Fact)
    requires DistinctFacts(s) && f !in s
    ensures DistinctFacts(s + [f])
  {
  }

  lemma OrderInBody(body: seq<Literal>, order: seq<nat>, delta: Option<nat>)
    requires SafeOrder(body, order, delta)
    ensures InBody(body, order) && |order| == |body|
  {
  }
}
