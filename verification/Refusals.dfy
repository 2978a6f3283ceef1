/**
 Literals that cannot be decided, and why a solve cannot get past them. Where all other literals of
 a body hold and one is fatal, every order of the join comes to it, and some pass runs that join.
 */
module Refusals {
  import opened Datalog
  import opened Strata
  import opened Safety
  import opened Semantics
  import opened Evaluation
  import opened SemiNaive
  import opened Solver

  /* ---------- in one application of a rule ---------- */

  ghost predicate Target(v: View, r: nat, delta: Option<nat>) {
    && ViewOk(v) && InActive(v, r)
    && (delta.Some? ==> delta.value < |v.p.rules[r].body| && Eligible(v, v.p.rules[r].body[delta.value]))
  }

  /** Literal i cannot be decided while all others are satisfied. */
  ghost predicate Blocked(v: View, r: nat, delta: Option<nat>, i: nat, s: Bindings)
    requires ViewOk(v) && r < |v.p.rules|
  {
    UndecidableAt(v, r, i, s) && forall k: nat :: k < |v.p.rules[r].body| && k != i ==> Satisfied(v, v.p.rules[r].body, k, delta, s)
  }

  /** What a literal says depends on its own variables only. */
  lemma SatisfiedPart(v: View, body: seq<Literal>, k: nat, delta: Option<nat>, part: Bindings, s: Bindings)
    requires ViewOk(v) && Readable(v, body) && k < |body| && Extends(part, s)
    requires Needs(body[k]) <= part.Keys && Binds(body[k]) <= part.Keys && Satisfied(v, body, k, delta, s)
    ensures Satisfied(v, body, k, delta, part)
  {
    hide ViewOk, Readable, AggregateHolds;
    var l := body[k];
    match l {
      case Positive(a) => TermsHeld(a, part); GroundExtends(a, part, s);
      case Negated(a) => TermsHeld(a, part); GroundExtends(a, part, s);
      case Comparison(_, _, _) => EvalComparisonExtends(l, part, s);
      case Arithmetic(_, _, _) => EvalComparisonExtends(l, part, s);
      case Aggregate(_, _, _, o) => AggregatePart(v, body, k, delta, part, s);
    }
  }

  lemma TermsHeld(a: Atom, s: Bindings)
    requires TermsVars(a.terms) <= s.Keys
    ensures TermsBound(a.terms, s)
  {
  }

  lemma AggregatePart(v: View, body: seq<Literal>, k: nat, delta: Option<nat>, part: Bindings, s: Bindings)
    requires ViewOk(v) && Readable(v, body) && k < |body| && body[k].Aggregate? && Extends(part, s)
    requires Needs(body[k]) <= part.Keys && body[k].output in part && Satisfied(v, body, k, delta, s)
    ensures Satisfied(v, body, k, delta, part)
  {
    hide ViewOk, Readable, Satisfied, AggregateYields;
    AggregateStep(v, body, k, delta, part, s);
    AggregateStep(v, body, k, delta, part, part);
  }

  lemma UndecidablePart(v: View, r: nat, i: nat, part: Bindings, s: Bindings)
    requires UndecidableAt(v, r, i, s) && Extends(part, s) && Needs(v.p.rules[r].body[i]) <= part.Keys
    ensures UndecidableAt(v, r, i, part)
  {
    var l := v.p.rules[r].body[i];
    if l.Aggregate? {
      PatternExtends(l, part, s);
      assert AggregateFacts(v, l, part) == AggregateFacts(v, l, s);
    } else {
      EvalComparisonExtends(l, part, s);
    }
  }

  lemma SatisfiedBinds(v: View, body: seq<Literal>, k: nat, delta: Option<nat>, s: Bindings)
    requires ViewOk(v) && k < |body| && Satisfied(v, body, k, delta, s)
    ensures Binds(body[k]) <= s.Keys
  {
    hide ViewOk;
    if body[k].Positive? {
      forall x | x in TermsVars(body[k].atom.terms) ensures x in s.Keys { HeldTerm(body[k].atom, s, x); }
    }
  }

  lemma HeldTerm(a: Atom, s: Bindings, x: nat)
    requires TermsBound(a.terms, s) && x in TermsVars(a.terms)
    ensures x in s.Keys
  {
    var i :| 0 <= i < |a.terms| && a.terms[i] == Var(x);
  }

  /** Every safe order comes to a literal that blocks. */
  lemma BlockedIsStuck(v: View, r: nat, order: seq<nat>, delta: Option<nat>, i: nat, s: Bindings)
    requires ViewOk(v) && InActive(v, r) && SafeOrder(v.p.rules[r].body, order, delta) && Blocked(v, r, delta, i, s)
    ensures Stuck(v, r, order, 0, map[], delta)
  {
    hide ViewOk, Readable, Satisfied, UndecidableAt, Reach;
    var body := v.p.rules[r].body;
    RuleReadable(v, r);
    assert i < |body| by { InItsRule(v, r, i, s); }
    OrderCovers(order, |body|);
    assert i in order;
    var q :| 0 <= q < |order| && order[q] == i;
    var before := order[..q];
    SafePrefixCut(body, order, delta, q);
    var keys := BoundBy(body, before, q);
    forall x | x in keys ensures x in s.Keys {
      BoundByMember(body, before, q, x);
      var j :| 0 <= j < q && x in Binds(body[before[j]]);
      SatisfiedBinds(v, body, order[j], delta, s);
    }
    var part: Bindings := map x | x in s && x in keys :: s[x];
    assert part.Keys == keys;
    forall j | 0 <= j < q ensures Satisfied(v, body, before[j], delta, part) {
      EarlierBound(body, before, delta, j);
      SatisfiedPart(v, body, order[j], delta, part, s);
    }
    ReachFrom(v, body, before, 0, map[], delta, part);
    NeedsBefore(body, order, delta, q);
    UndecidablePart(v, r, i, part, s);
    assert StoppedAt(v, body, order, 0, map[], delta, i, part, q);
    assert StuckAt(v, r, order, 0, map[], delta, i, part);
  }

  lemma NothingBlocks(v: View, r: nat, order: seq<nat>, delta: Option<nat>)
    requires ViewOk(v) && InActive(v, r) && SafeOrder(v.p.rules[r].body, order, delta) && !Stuck(v, r, order, 0, map[], delta)
    ensures forall i: nat, s: Bindings :: !Blocked(v, r, delta, i, s)
  {
    hide ViewOk, Blocked, Stuck, SafeOrder;
    forall i: nat, s: Bindings ensures !Blocked(v, r, delta, i, s) {
      if Blocked(v, r, delta, i, s) { BlockedIsStuck(v, r, order, delta, i, s); }
    }
  }

  lemma InItsRule(v: View, r: nat, i: nat, s: Bindings)
    requires UndecidableAt(v, r, i, s)
    ensures r < |v.p.rules| && i < |v.p.rules[r].body|
  {
  }

  lemma EarlierBound(body: seq<Literal>, order: seq<nat>, delta: Option<nat>, j: nat)
    requires SafePrefix(body, order, delta) && j < |order|
    ensures Needs(body[order[j]]) <= BoundBy(body, order, |order|) && Binds(body[order[j]]) <= BoundBy(body, order, |order|)
  {
    assert SafeAt(body, order, j);
    BoundByGrows(body, order, j, |order|);
    forall x | x in Binds(body[order[j]]) ensures x in BoundBy(body, order, |order|) { BoundByMember(body, order, |order|, x); }
  }

  lemma NeedsBefore(body: seq<Literal>, order: seq<nat>, delta: Option<nat>, q: nat)
    requires SafePrefix(body, order, delta) && q < |order|
    ensures Needs(body[order[q]]) <= BoundBy(body, order[..q], q)
  {
    assert SafeAt(body, order, q);
    forall x | x in BoundBy(body, order, q) ensures x in BoundBy(body, order[..q], q) {
      BoundByMember(body, order, q, x);
      var j :| 0 <= j < q && x in Binds(body[order[j]]);
      assert order[..q][j] == order[j];
      BoundByMember(body, order[..q], q, x);
    }
  }

  /* ---------- in an interpretation ---------- */

  /** The literal has no verdict under s. */
  ghost predicate Undecided(l: Literal, s: Bindings, neg: Interp)
    requires Needs(l) <= s.Keys
  {
    if l.Aggregate? then
      exists facts: set<Fact> ::
        MatchSet(l, s, neg, facts) && AggregateIs(l.kind, facts, ProjectedTerm(l.atom.terms, l.projection), Rejected)
    else (l.Comparison? || l.Arithmetic?) && EvalComparison(l, s) == Fatal
  }

  /** Under s all literals of the body hold but one, and that one has no verdict. */
  ghost predicate Deadlock(p: Program, r: nat, i: nat, s: Bindings, pos: Interp, neg: Interp) {
    && r < |p.rules| && i < |p.rules[r].body| && Needs(p.rules[r].body[i]) <= s.Keys
    && (forall k: nat :: k < |p.rules[r].body| && k != i ==> LiteralHolds(p.rules[r].body[k], s, pos, neg))
    && Undecided(p.rules[r].body[i], s, neg)
  }

  /** No rule of the stratum is in such a state. */
  ghost predicate AllClear(p: Program, strata: nat -> nat, n: nat, pos: Interp, neg: Interp) {
    forall r: nat, i: nat, s: Bindings ::
      r < |p.rules| && strata(p.rules[r].head.pred) == n ==> !Deadlock(p, r, i, s, pos, neg)
  }

  lemma UndecidedAtView(v: View, r: nat, i: nat, s: Bindings)
    requires ViewOk(v) && InActive(v, r) && i < |v.p.rules[r].body| && Needs(v.p.rules[r].body[i]) <= s.Keys
    requires Undecided(v.p.rules[r].body[i], s, Low(v))
    ensures UndecidableAt(v, r, i, s)
  {
    hide ViewOk, AggregateIs, Low;
    var l := v.p.rules[r].body[i];
    if l.Aggregate? {
      RuleReadable(v, r);
      AggregateMatchSet(v, l, s, s);
      var facts: set<Fact> :|
        MatchSet(l, s, Low(v), facts) && AggregateIs(l.kind, facts, ProjectedTerm(l.atom.terms, l.projection), Rejected);
      assert facts == AggregateFacts(v, l, s);
    }
  }

  lemma DeadlockIsBlocked(v: View, r: nat, delta: Option<nat>, i: nat, s: Bindings)
    requires ViewOk(v) && InActive(v, r) && Deadlock(v.p, r, i, s, Known(v), Low(v))
    requires delta.Some? ==>
               var d := delta.value;
               d < |v.p.rules[r].body| && d != i && v.p.rules[r].body[d].Positive? &&
               TermsBound(v.p.rules[r].body[d].atom.terms, s) && Ground(v.p.rules[r].body[d].atom, s) in Delta(v)
    ensures Blocked(v, r, delta, i, s)
  {
    hide ViewOk, Undecided, UndecidableAt, LiteralHolds, Low, Known, Delta;
    UndecidedAtView(v, r, i, s);
  }

  /** A pass in which no application was blocked. */
  ghost predicate Unblocked(v: View, full: bool) {
    forall r: nat, d: Option<nat>, i: nat, s: Bindings :: Target(v, r, d) && d.Some? != full ==> !Blocked(v, r, d, i, s)
  }

  lemma FullPassClears(v: View)
    requires ViewOk(v) && Unblocked(v, true)
    ensures AllClear(v.p, Levels(v), v.active, Known(v), Low(v))
  {
    hide ViewOk, Deadlock, Blocked, Known, Low;
    forall r: nat, i: nat, s: Bindings | r < |v.p.rules| && Levels(v)(v.p.rules[r].head.pred) == v.active
      ensures !Deadlock(v.p, r, i, s, Known(v), Low(v))
    {
      if Deadlock(v.p, r, i, s, Known(v), Low(v)) {
        assert Target(v, r, None);
        DeadlockIsBlocked(v, r, None, i, s);
      }
    }
  }

  /** A deadlock that is new has one of the newest facts in it. */
  lemma NewDeadlockUsesDelta(v: View, r: nat, i: nat, s: Bindings, older: Interp) returns (d: nat)
    requires ViewOk(v) && Deadlock(v.p, r, i, s, Known(v), Low(v)) && !Deadlock(v.p, r, i, s, older, Low(v))
    requires forall g :: g in Known(v) ==> g in older || g in Delta(v)
    ensures d < |v.p.rules[r].body| && d != i && v.p.rules[r].body[d].Positive?
    ensures TermsBound(v.p.rules[r].body[d].atom.terms, s) && Ground(v.p.rules[r].body[d].atom, s) in Delta(v)
  {
    hide ViewOk, Undecided, Known, Low, Delta;
    var body := v.p.rules[r].body;
    d :| d < |body| && d != i && !LiteralHolds(body[d], s, older, Low(v));
    assert LiteralHolds(body[d], s, Known(v), Low(v));
  }

  lemma DeltaPassClears(v: View, k: nat)
    requires AfterRound(v, k) && Unblocked(v, false)
    requires AllClear(v.p, Levels(v), v.active, Low(v) + Before(v.p, Levels(v), v.active, Low(v), k), Low(v))
    ensures AllClear(v.p, Levels(v), v.active, Known(v), Low(v))
  {
    hide ViewOk, Deadlock, Blocked, Round;
    var older := Low(v) + Before(v.p, Levels(v), v.active, Low(v), k);
    forall r: nat, i: nat, s: Bindings | r < |v.p.rules| && Levels(v)(v.p.rules[r].head.pred) == v.active
      ensures !Deadlock(v.p, r, i, s, Known(v), Low(v))
    {
      if Deadlock(v.p, r, i, s, Known(v), Low(v)) {
        var d := NewDeadlockUsesDelta(v, r, i, s, older);
        DeltaFactEligible(v, v.p.rules[r].body[d], s);
        assert Target(v, r, Some(d));
        DeadlockIsBlocked(v, r, Some(d), i, s);
      }
    }
  }

  /* ---------- from stratum to model ---------- */

  /** A deadlock in the model is one in the stratum of its rule. */
  lemma DeadlockInStratum(p: Program, strata: nat -> nat, base: Interp, n: nat, r: nat, i: nat, s: Bindings)
    requires Stratifies(p, strata) && r < |p.rules| && strata(p.rules[r].head.pred) < n
    requires var m := Stage(p, strata, base, n); Deadlock(p, r, i, s, m, m)
    ensures var t := strata(p.rules[r].head.pred);
            Deadlock(p, r, i, s, Stage(p, strata, base, t + 1), Stage(p, strata, base, t))
  {
    hide Stage, LiteralHolds, Undecided, Stratifies;
    var t, m := strata(p.rules[r].head.pred), Stage(p, strata, base, n);
    StageFrozen(p, strata, base, t + 1, n);
    StageFrozen(p, strata, base, t, n);
    var body := p.rules[r].body;
    forall k: nat | k < |body| && k != i ensures LiteralHolds(body[k], s, Stage(p, strata, base, t + 1), Stage(p, strata, base, t)) {
      LiteralInStratum(p, strata, r, k, s, m, Stage(p, strata, base, t + 1), Stage(p, strata, base, t));
    }
    UndecidedInStratum(p, strata, r, i, s, m, Stage(p, strata, base, t));
  }

  lemma Weighs(p: Program, strata: nat -> nat, r: nat, k: nat)
    requires Stratifies(p, strata) && r < |p.rules| && k < |p.rules[r].body| && Depends(p.rules[r].body[k])
    ensures strata(p.rules[r].body[k].atom.pred) + Weight(p.rules[r].body[k]) <= strata(p.rules[r].head.pred)
  {
    var l, h := p.rules[r].body[k], p.rules[r].head.pred;
    assert RuleEdge(p.rules[r], k, h, l.atom.pred, Weight(l));
    assert Edge(p, h, l.atom.pred, Weight(l));
  }

  lemma LiteralInStratum(p: Program, strata: nat -> nat, r: nat, k: nat, s: Bindings, m: Interp, pos: Interp, neg: Interp)
    requires Stratifies(p, strata) && r < |p.rules| && k < |p.rules[r].body| && LiteralHolds(p.rules[r].body[k], s, m, m)
    requires var t := strata(p.rules[r].head.pred); AgreeBelow(strata, t + 1, pos, m) && AgreeBelow(strata, t, neg, m)
    ensures LiteralHolds(p.rules[r].body[k], s, pos, neg)
  {
    hide Stratifies, AggregateHolds;
    var l := p.rules[r].body[k];
    if Depends(l) { Weighs(p, strata, r, k); }
    if l.Aggregate? { AggregateTransfers(l, s, m, neg, strata, strata(p.rules[r].head.pred)); }
  }

  lemma UndecidedInStratum(p: Program, strata: nat -> nat, r: nat, i: nat, s: Bindings, m: Interp, neg: Interp)
    requires Stratifies(p, strata) && r < |p.rules| && i < |p.rules[r].body| && Needs(p.rules[r].body[i]) <= s.Keys
    requires AgreeBelow(strata, strata(p.rules[r].head.pred), neg, m) && Undecided(p.rules[r].body[i], s, m)
    ensures Undecided(p.rules[r].body[i], s, neg)
  {
    hide Stratifies, AggregateIs;
    var l := p.rules[r].body[i];
    if l.Aggregate? {
      Weighs(p, strata, r, i);
      var facts: set<Fact> :|
        MatchSet(l, s, m, facts) && AggregateIs(l.kind, facts, ProjectedTerm(l.atom.terms, l.projection), Rejected);
      assert forall f :: MatchesPattern(l, s, f) ==> f.pred == l.atom.pred;
      assert MatchSet(l, s, neg, facts);
    }
  }
}
