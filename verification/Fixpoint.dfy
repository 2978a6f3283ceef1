/**
 The solve: a full pass and delta passes for every stratum, within the bounds on rounds and
 facts. A solve that succeeds returns the perfect model, hence the only stable model; one
 that is refused for a bound could not have succeeded.
 */
module Fixpoint {
  import opened Datalog
  import opened FactOrder
  import opened Strata
  import opened Safety
  import opened Semantics
  import opened Evaluation
  import opened SemiNaive
  import opened Solver
  import opened Refusals

  /* ---------- one rule ---------- */

  /** What a full or a delta application of rule r is to derive. */
  ghost predicate Yield(v: View, r: nat, delta: Option<nat>, f: Fact)
    requires ViewOk(v) && r < |v.p.rules| && (delta.Some? ==> delta.value < |v.p.rules[r].body|)
  {
    if delta.None? then Derives(v.p.rules[r], Known(v), Low(v), f) else DeltaDerives(v, v.p.rules[r], delta.value, f)
  }

  /** A failure that is not the solver's fault: a fact that is derived and does not fit, or
      a literal that cannot be decided. */
  ghost predicate Genuine(v: View, bounds: Bounds, idb: seq<Fact>, failure: Failure)
    requires ViewOk(v)
  {
    match failure
    case NoFailure => false
    case Overflow(f) => f !in idb && Full(bounds, idb, f) && DerivedAt(v.p, Levels(v), v.active, Known(v), Low(v), f)
    case Undecidable(r, i, s) => InActive(v, r) && UndecidableAt(v, r, i, s) && MatchedBefore(v.p.rules[r].body, i, s, Known(v), Low(v))
  }

  /** Other literals of the body hold under s, and they are what binds its variables. */
  ghost predicate PartialMatch(body: seq<Literal>, done: set<nat>, s: Bindings, pos: Interp, neg: Interp) {
    && (forall k :: k in done ==> k < |body| && LiteralHolds(body[k], s, pos, neg))
    && (forall x :: x in s.Keys <==> exists k :: k in done && k < |body| && x in Binds(body[k]))
  }

  ghost predicate MatchedBefore(body: seq<Literal>, i: nat, s: Bindings, pos: Interp, neg: Interp) {
    exists done: set<nat> :: i !in done && PartialMatch(body, done, s, pos, neg)
  }

  /** Where a join has stopped, the literals before have matched. */
  lemma StoppedMatched(v: View, r: nat, order: seq<nat>, delta: Option<nat>, i: nat, s: Bindings)
    requires ViewOk(v) && InActive(v, r) && SafeOrder(v.p.rules[r].body, order, delta)
    requires Stopped(v, v.p.rules[r].body, order, 0, map[], delta, i, s)
    ensures MatchedBefore(v.p.rules[r].body, i, s, Known(v), Low(v))
  {
    hide ViewOk, Reach, LiteralHolds, SafeAt;
    var body := v.p.rules[r].body;
    var q :| 0 <= q < |order| && StoppedAt(v, body, order, 0, map[], delta, i, s, q);
    RuleReadable(v, r);
    PartReached(v, body, order, q, delta, s);
    var part := order[..q];
    var done: set<nat> := Visited(part);
    forall k | k in done ensures k < |body| && LiteralHolds(body[k], s, Known(v), Low(v)) {
      var j :| 0 <= j < q && part[j] == k;
      assert Satisfied(v, body, order[j], delta, s);
    }
    forall x: nat ensures x in s.Keys <==> exists k :: k in done && k < |body| && x in Binds(body[k]) {
      BoundByMember(body, part, q, x);
      if j :| 0 <= j < q && x in Binds(body[part[j]]) { assert part[j] in done; }
      if k :| k in done && k < |body| && x in Binds(body[k]) {
        var j :| 0 <= j < q && part[j] == k;
      }
    }
    assert forall j :: 0 <= j < q ==> part[j] != order[q];
    assert PartialMatch(body, done, s, Known(v), Low(v));
  }

  ghost predicate RuleProgress(v: View, bounds: Bounds, r: nat, delta: Option<nat>, before: seq<Fact>, after: seq<Fact>, ok: bool, failure: Failure)
    requires Target(v, r, delta)
  {
    && before <= after
    && (forall i :: |before| <= i < |after| ==> Yield(v, r, delta, after[i]))
    && (ok ==> forall f :: Yield(v, r, delta, f) ==> f in after)
    && (ok ==> forall i: nat, s: Bindings :: !Blocked(v, r, delta, i, s))
    && (!ok ==> Genuine(v, bounds, after, failure))
  }

  lemma YieldDerived(v: View, r: nat, delta: Option<nat>, f: Fact)
    requires Target(v, r, delta) && Yield(v, r, delta, f)
    ensures DerivedAt(v.p, Levels(v), v.active, Known(v), Low(v), f)
    ensures Derives(v.p.rules[r], Known(v), Low(v), f)
  {
    hide ViewOk, Derives;
    if delta.Some? { DeltaDerivesDerives(v, v.p.rules[r], delta.value, f); }
  }

  lemma ApplicationProgress(v: View, bounds: Bounds, r: nat, order: seq<nat>, delta: Option<nat>,
                            before: seq<Fact>, after: seq<Fact>, ok: bool, failure: Failure)
    requires Target(v, r, delta) && Applicable(v, r, order, 0, map[], delta)
    requires Progress(v, bounds, r, order, 0, map[], delta, before, after, ok, failure)
    ensures RuleProgress(v, bounds, r, delta, before, after, ok, failure)
  {
    hide ViewOk, Emits, DeltaDerives, Derives, UndecidableAt, Full, DerivedAt, Stopped, MatchedBefore, Stuck, Blocked;
    if ok { NothingBlocks(v, r, order, delta); }
    if !ok && failure.Undecidable? {
      StoppedMatched(v, r, order, delta, failure.literal, failure.bindings);
    }
    OrderInBody(v.p.rules[r].body, order, delta);
    forall f ensures Emits(v, v.p.rules[r], order, 0, map[], delta, f) <==> Yield(v, r, delta, f) {
      if delta.None? {
        FullEmits(v, r, order, f);
      } else {
        DeltaEmits(v, r, order, delta.value, f);
      }
    }
    if !ok && failure.Overflow? {
      YieldDerived(v, r, delta, failure.fact);
    }
  }

  /** One application of a rule: plan the join, then run it. */
  method ApplyRule(w: Workspace, r: nat, delta: Option<nat>) returns (ok: bool)
    requires w.Inv() && Target(w.V(), r, delta)
    modifies w`idb, w`factsPerPred, w`failure, w`headMayBeInBase
    ensures w.Inv() && w.V() == old(w.V())
    ensures RuleProgress(w.V(), w.bounds, r, delta, old(w.idb), w.idb, ok, w.failure)
  {
    hide w.Inv, ViewOk, Progress, RuleProgress, SafeOrder, SafeRule;
    RuleIsSafe(w.V(), r);
    var order := PlanJoin(w.p.kinds, w.p.rules[r], delta);
    w.headMayBeInBase := w.PredicateInBase(w.p.rules[r].head.pred);
    assert BoundBy(w.p.rules[r].body, order.value, 0) == {} by { OrderInBody(w.p.rules[r].body, order.value, delta); }
    ok := w.Derive(r, order.value, 0, map[], delta);
    ApplicationProgress(w.V(), w.bounds, r, order.value, delta, old(w.idb), w.idb, ok, w.failure);
  }

  /* ---------- one pass ---------- */

  /** The applications of a pass: every rule of the stratum in full, or once per eligible
      literal with the newest facts. */
  ghost predicate InPass(v: View, full: bool, r: nat, delta: Option<nat>) {
    Target(v, r, delta) && delta.Some? != full
  }

  /** A pass whose applications before rule n, and of rule n before literal i, are done. */
  ghost predicate PassProgress(v: View, full: bool, n: nat, i: nat, before: seq<Fact>, after: seq<Fact>)
    requires ViewOk(v)
  {
    && before <= after
    && (forall j :: |before| <= j < |after| ==> PassDerived(v, full, after[j]))
    && (forall r: nat, d: Option<nat>, f ::
          InPass(v, full, r, d) && (r < n || (r == n && d.Some? && d.value < i)) && Yield(v, r, d, f) ==> f in after)
    && (forall r: nat, d: Option<nat>, j: nat, s: Bindings ::
          InPass(v, full, r, d) && (r < n || (r == n && d.Some? && d.value < i)) ==> !Blocked(v, r, d, j, s))
  }

  ghost predicate PassDerived(v: View, full: bool, f: Fact)
    requires ViewOk(v)
  {
    exists r: nat, d: Option<nat> :: InPass(v, full, r, d) && Yield(v, r, d, f)
  }

  lemma PassAdvances(v: View, bounds: Bounds, full: bool, r: nat, d: Option<nat>, n: nat, i: nat,
                     before: seq<Fact>, middle: seq<Fact>, after: seq<Fact>, failure: Failure)
    requires ViewOk(v) && InPass(v, full, r, d) && PassProgress(v, full, r, if d.Some? then d.value else 0, before, middle)
    requires RuleProgress(v, bounds, r, d, middle, after, true, failure)
    requires (n, i) == if d.Some? then (r, d.value + 1) else (r + 1, 0)
    ensures PassProgress(v, full, n, i, before, after)
  {
    hide ViewOk, Yield, Blocked;
    assert forall f :: f in middle ==> f in after;
    forall j | |before| <= j < |after|
      ensures PassDerived(v, full, after[j])
    {
      if j < |middle| { assert after[j] == middle[j]; } else { assert Yield(v, r, d, after[j]); }
    }
  }

  /** Nothing is done for a rule of another stratum or a literal that is not eligible. */
  lemma PassSkips(v: View, full: bool, n: nat, i: nat, n': nat, i': nat, before: seq<Fact>, after: seq<Fact>)
    requires ViewOk(v) && PassProgress(v, full, n, i, before, after)
    requires (n' == n && i' == i + 1 && !InPass(v, full, n, Some(i))) ||
             (n' == n + 1 && i' == 0 && (if full then !InPass(v, full, n, None) else n < |v.p.rules| && (InActive(v, n) ==> i >= |v.p.rules[n].body|)))
    ensures PassProgress(v, full, n', i', before, after)
  {
    hide ViewOk, Yield, Blocked;
  }

  lemma PassBegins(v: View, full: bool, before: seq<Fact>)
    requires ViewOk(v)
    ensures PassProgress(v, full, 0, 0, before, before)
  {
    hide ViewOk, Yield, Blocked;
  }

  /** Applies every rule of the active stratum in full. */
  method FullPass(w: Workspace) returns (ok: bool)
    requires w.Inv()
    modifies w`idb, w`factsPerPred, w`failure, w`headMayBeInBase
    ensures w.Inv() && w.V() == old(w.V()) && ViewOk(w.V())
    ensures ok ==> PassProgress(w.V(), true, |w.p.rules|, 0, old(w.idb), w.idb)
    ensures !ok ==> old(w.idb) <= w.idb && Genuine(w.V(), w.bounds, w.idb, w.failure)
    ensures !ok ==> forall j :: |old(w.idb)| <= j < |w.idb| ==> PassDerived(w.V(), true, w.idb[j])
  {
    hide w.Inv, ViewOk, PassProgress, RuleProgress, Genuine, PassDerived, StratumOf;
    ghost var v := w.V();
    InvView(w);
    PassBegins(v, true, w.idb);
    for r := 0 to |w.p.rules|
      invariant w.Inv() && w.V() == v && PassProgress(v, true, r, 0, old(w.idb), w.idb)
    {
      if StratumOf(w.strata, w.p.rules[r].head.pred) != w.active {
        PassSkips(v, true, r, 0, r + 1, 0, old(w.idb), w.idb);
        continue;
      }
      ghost var middle := w.idb;
      ok := ApplyRule(w, r, None);
      if !ok {
        PassFails(v, w.bounds, true, r, None, 0, old(w.idb), middle, w.idb, w.failure);
        return;
      }
      PassAdvances(v, w.bounds, true, r, None, r + 1, 0, old(w.idb), middle, w.idb, w.failure);
    }
    ok := true;
  }

  lemma PassFails(v: View, bounds: Bounds, full: bool, r: nat, d: Option<nat>, i: nat,
                  before: seq<Fact>, middle: seq<Fact>, after: seq<Fact>, failure: Failure)
    requires ViewOk(v) && InPass(v, full, r, d) && PassProgress(v, full, r, i, before, middle)
    requires RuleProgress(v, bounds, r, d, middle, after, false, failure)
    ensures before <= after && Genuine(v, bounds, after, failure)
    ensures forall j :: |before| <= j < |after| ==> PassDerived(v, full, after[j])
  {
    hide ViewOk, Yield, Genuine;
    forall j | |before| <= j < |after|
      ensures PassDerived(v, full, after[j])
    {
      if j < |middle| { assert after[j] == middle[j]; } else { assert Yield(v, r, d, after[j]); }
    }
  }

  /** Applies every rule of the active stratum once per eligible literal. */
  method DeltaPass(w: Workspace) returns (ok: bool)
    requires w.Inv()
    modifies w`idb, w`factsPerPred, w`failure, w`headMayBeInBase
    ensures w.Inv() && w.V() == old(w.V()) && ViewOk(w.V())
    ensures ok ==> PassProgress(w.V(), false, |w.p.rules|, 0, old(w.idb), w.idb)
    ensures !ok ==> old(w.idb) <= w.idb && Genuine(w.V(), w.bounds, w.idb, w.failure)
    ensures !ok ==> forall j :: |old(w.idb)| <= j < |w.idb| ==> PassDerived(w.V(), false, w.idb[j])
  {
    hide w.Inv, ViewOk, PassProgress, RuleProgress, Genuine, PassDerived, StratumOf;
    ghost var v := w.V();
    InvView(w);
    PassBegins(v, false, w.idb);
    for r := 0 to |w.p.rules|
      invariant w.Inv() && w.V() == v && PassProgress(v, false, r, 0, old(w.idb), w.idb)
    {
      var rule := w.p.rules[r];
      if StratumOf(w.strata, rule.head.pred) != w.active {
        PassSkips(v, false, r, 0, r + 1, 0, old(w.idb), w.idb);
        continue;
      }
      for i := 0 to |rule.body|
        invariant w.Inv() && w.V() == v && PassProgress(v, false, r, i, old(w.idb), w.idb)
      {
        if !Eligible(w.V(), rule.body[i]) {
          PassSkips(v, false, r, i, r, i + 1, old(w.idb), w.idb);
          continue;
        }
        ghost var middle := w.idb;
        ok := ApplyRule(w, r, Some(i));
        if !ok {
          PassFails(v, w.bounds, false, r, Some(i), i, old(w.idb), middle, w.idb, w.failure);
          return;
        }
        PassAdvances(v, w.bounds, false, r, Some(i), r, i + 1, old(w.idb), middle, w.idb, w.failure);
      }
      PassSkips(v, false, r, |rule.body|, r + 1, 0, old(w.idb), w.idb);
    }
    ok := true;
  }

  /* ---------- from pass to round ---------- */

  lemma PassDerivedExact(v: View, full: bool, f: Fact)
    requires ViewOk(v)
    ensures full ==> (PassDerived(v, full, f) <==> DerivedAt(v.p, Levels(v), v.active, Known(v), Low(v), f))
    ensures !full ==> (PassDerived(v, full, f) <==> DeltaStep(v, f))
  {
    hide ViewOk, Derives, DeltaDerives;
    if PassDerived(v, full, f) {
      var r: nat, d: Option<nat> :| InPass(v, full, r, d) && Yield(v, r, d, f);
      if full { YieldDerived(v, r, d, f); }
    }
    if full && DerivedAt(v.p, Levels(v), v.active, Known(v), Low(v), f) {
      var r :| 0 <= r < |v.p.rules| && Levels(v)(v.p.rules[r].head.pred) == v.active && Derives(v.p.rules[r], Known(v), Low(v), f);
      assert InPass(v, full, r, None) && Yield(v, r, None, f);
    }
    if !full && DeltaStep(v, f) {
      var r: nat, i: nat :| InActive(v, r) && i < |v.p.rules[r].body| && Eligible(v, v.p.rules[r].body[i]) &&
                            DeltaDerives(v, v.p.rules[r], i, f);
      assert InPass(v, full, r, Some(i)) && Yield(v, r, Some(i), f);
    }
  }

  lemma PassUnblocked(v: View, full: bool, before: seq<Fact>, after: seq<Fact>)
    requires ViewOk(v) && PassProgress(v, full, |v.p.rules|, 0, before, after)
    ensures Unblocked(v, full)
  {
    hide ViewOk, Yield, Blocked;
    forall r: nat, d: Option<nat>, i: nat, s: Bindings | Target(v, r, d) && d.Some? != full ensures !Blocked(v, r, d, i, s) {
      assert InPass(v, full, r, d);
    }
  }

  /** After a complete pass the facts are the old ones and exactly what the pass derives. */
  lemma PassExact(v: View, full: bool, before: seq<Fact>, after: seq<Fact>, f: Fact)
    requires ViewOk(v) && PassProgress(v, full, |v.p.rules|, 0, before, after)
    ensures f in after <==> f in before || PassDerived(v, full, f)
  {
    hide ViewOk, Yield, Blocked;
    if f in after {
      var j :| 0 <= j < |after| && after[j] == f;
      if j < |before| { assert before[j] == f; }
    }
    if f in before {
      var j :| 0 <= j < |before| && before[j] == f;
      assert after[j] == f;
    }
    if PassDerived(v, full, f) {
      var r: nat, d: Option<nat> :| InPass(v, full, r, d) && Yield(v, r, d, f);
    }
  }

  /** At the beginning of a stratum nothing of it is known. */
  ghost predicate StratumBegins(v: View) {
    ViewOk(v) && v.ends[v.active] == |v.idb|
  }

  lemma BeginsKnown(v: View)
    requires StratumBegins(v)
    ensures Known(v) == Low(v)
  {
    assert v.idb[..|v.idb|] == v.idb;
  }

  lemma FirstRound(v: View, idb: seq<Fact>)
    requires StratumBegins(v) && TailOk(v, idb) && DistinctFacts(idb)
    requires PassProgress(v, true, |v.p.rules|, 0, v.idb, idb)
    ensures AfterRound(AcceptedView(v, idb, |v.idb|), 0)
  {
    hide ViewOk, PassProgress, DerivedAt;
    var w := AcceptedView(v, idb, |v.idb|);
    AcceptedOk(v, idb, |v.idb|);
    BeginsKnown(v);
    var round := Round(v.p, Levels(v), v.active, Low(v), 0);
    forall f
      ensures f in idb[|v.idb|..] <==> f in round
    {
      PassExact(v, true, v.idb, idb, f);
      PassDerivedExact(v, true, f);
      TailExact(v.idb, idb, f);
      if f in round { RoundStratum(v.p, Levels(v), v.active, Low(v), 0, f); NotYetKnown(v, f); }
    }
    assert w.idb[w.deltaBegin..w.deltaEnd] == idb[|v.idb|..];
    assert Known(w) == Low(w) + round;
    assert Delta(w) == round - iset{};
  }

  lemma TailExact(before: seq<Fact>, after: seq<Fact>, f: Fact)
    requires before <= after && DistinctFacts(after)
    ensures f in after[|before|..] <==> f in after && f !in before
  {
    assert after == before + after[|before|..];
    if f in before {
      var i :| 0 <= i < |before| && before[i] == f;
      assert after[i] == f;
      assert forall j :: |before| <= j < |after| ==> after[j] != after[i];
      assert forall j :: 0 <= j < |after[|before|..]| ==> after[|before|..][j] == after[|before| + j];
    }
  }

  lemma NotYetKnown(v: View, f: Fact)
    requires StratumBegins(v) && StratumOf(v.strata, f.pred) == v.active
    ensures f !in v.idb
  {
    if f in v.idb {
      var i :| 0 <= i < |v.idb| && v.idb[i] == f;
      StratumIndex(v, i, v.active);
    }
  }

  lemma TailIsNew(v: View, k: nat, idb: seq<Fact>, f: Fact)
    requires AfterRound(v, k) && TailOk(v, idb) && DistinctFacts(idb)
    requires PassProgress(v, false, |v.p.rules|, 0, v.idb, idb)
    ensures f in idb[|v.idb|..] <==>
            f in Round(v.p, Levels(v), v.active, Low(v), k + 1) && f !in Round(v.p, Levels(v), v.active, Low(v), k)
  {
    hide PassProgress, Round, DeltaStep, ViewOk, DistinctFacts;
    PassExact(v, false, v.idb, idb, f);
    PassDerivedExact(v, false, f);
    TailExact(v.idb, idb, f);
    NextRound(v, k, f);
    if f in Round(v.p, Levels(v), v.active, Low(v), k) { RoundFactKnown(v, k, f); }
    if f in Round(v.p, Levels(v), v.active, Low(v), k + 1) {
      RoundStratum(v.p, Levels(v), v.active, Low(v), k + 1, f);
      if f in v.idb { KnownFactInRound(v, k, f); }
    }
  }

  lemma LaterRound(v: View, k: nat, idb: seq<Fact>)
    requires AfterRound(v, k) && TailOk(v, idb) && DistinctFacts(idb)
    requires PassProgress(v, false, |v.p.rules|, 0, v.idb, idb)
    ensures AfterRound(AcceptedView(v, idb, |v.idb|), k + 1)
  {
    hide ViewOk, PassProgress, Round, DistinctFacts;
    var p, lv, n, low := v.p, Levels(v), v.active, Low(v);
    var w := AcceptedView(v, idb, |v.idb|);
    var round, next := Round(p, lv, n, low, k), Round(p, lv, n, low, k + 1);
    forall f ensures f in idb[|v.idb|..] <==> f in next && f !in round { TailIsNew(v, k, idb, f); }
    AcceptedOk(v, idb, |v.idb|);
    RoundGrows(p, lv, n, low, k, k + 1);
    assert w.idb[w.deltaBegin..w.deltaEnd] == idb[|v.idb|..];
    assert Known(w) == Low(w) + next;
    assert Delta(w) == next - round;
    EndsBelow(v);
  }

  lemma RoundFactKnown(v: View, k: nat, f: Fact)
    requires AfterRound(v, k) && f in Round(v.p, Levels(v), v.active, Low(v), k)
    ensures f in v.idb
  {
    hide Round;
    assert f in Known(v);
    RoundStratum(v.p, Levels(v), v.active, Low(v), k, f);
    var g := f;
    RoundHead(v.p, Levels(v), v.active, Low(v), k, f);
    KindsSeparate(v, f);
  }

  lemma {:induction false} RoundHead(p: Program, strata: nat -> nat, n: nat, low: Interp, k: nat, f: Fact)
    requires WellFormed(p) && f in Round(p, strata, n, low, k)
    ensures HasKind(p, f.pred, Idb)
  {
    hide Derives;
    if k > 0 && f in Round(p, strata, n, low, k - 1) {
      RoundHead(p, strata, n, low, k - 1, f);
    } else {
      var pos := if k == 0 then low else low + Round(p, strata, n, low, k - 1);
      var r :| 0 <= r < |p.rules| && strata(p.rules[r].head.pred) == n && Derives(p.rules[r], pos, low, f);
      DerivesHead(p.rules[r], pos, low, f);
      assert WellFormedRule(p, p.rules[r]);
    }
  }

  lemma KnownFactInRound(v: View, k: nat, f: Fact)
    requires AfterRound(v, k) && f in v.idb && StratumOf(v.strata, f.pred) == v.active
    ensures f in Round(v.p, Levels(v), v.active, Low(v), k)
  {
    hide Round;
    KindsSeparate(v, f);
    assert f in Known(v);
    if f in Low(v) {
      var i :| 0 <= i < v.ends[v.active] && v.idb[i] == f;
      StratumIndex(v, i, v.active);
    }
  }

  /* ---------- the bounds ---------- */

  /** The derived facts of a model respect both bounds on facts. */
  ghost predicate Fits(p: Program, m: Interp, bounds: Bounds) {
    forall s: set<Fact> | DerivedIn(p, m, s) ::
      && |s| <= bounds.capacity
      && forall q :: |OfPredicate(s, q)| <= bounds.perPredicate
  }

  ghost predicate DerivedIn(p: Program, m: Interp, s: set<Fact>) {
    forall f :: f in s ==> f in m && HasKind(p, f.pred, Idb)
  }

  /** A derived fact that does not fit beside derived facts already held refutes the bounds. */
  lemma OverflowRefutes(p: Program, m: Interp, bounds: Bounds, idb: seq<Fact>, f: Fact)
    requires DistinctFacts(idb) && f !in idb && Full(bounds, idb, f)
    requires DerivedIn(p, m, FactSet(idb) + {f})
    ensures !Fits(p, m, bounds)
  {
    var s := FactSet(idb) + {f};
    DistinctSize(idb);
    CountIsSize(idb, f.pred);
    assert OfPredicate(s, f.pred) == OfPredicate(FactSet(idb), f.pred) + {f};
  }

  /** A model whose derived facts are held within the bounds fits. */
  lemma HeldFits(p: Program, m: Interp, bounds: Bounds, idb: seq<Fact>)
    requires DistinctFacts(idb) && |idb| <= bounds.capacity
    requires forall q :: CountOf(idb, q) <= bounds.perPredicate
    requires forall f :: f in m && HasKind(p, f.pred, Idb) ==> f in idb
    ensures Fits(p, m, bounds)
  {
    DistinctSize(idb);
    forall s: set<Fact> | DerivedIn(p, m, s)
      ensures |s| <= bounds.capacity && forall q :: |OfPredicate(s, q)| <= bounds.perPredicate
    {
      assert s <= FactSet(idb);
      SubsetCount(s, FactSet(idb));
      forall q: nat ensures |OfPredicate(s, q)| <= bounds.perPredicate {
        CountIsSize(idb, q);
        SubsetCount(OfPredicate(s, q), OfPredicate(FactSet(idb), q));
      }
    }
  }

  /** A stratum that needs no new fact in round d. */
  ghost predicate SettlesBy(p: Program, strata: nat -> nat, n: nat, low: Interp, d: nat) {
    Round(p, strata, n, low, d) == Before(p, strata, n, low, d)
  }

  lemma SettlesLater(p: Program, strata: nat -> nat, n: nat, low: Interp, k: nat, d: nat)
    requires SettlesBy(p, strata, n, low, k) && k <= d
    ensures SettlesBy(p, strata, n, low, d)
  {
    hide Round;
    SettledForever(p, strata, n, low, k, d);
    if k < d { SettledForever(p, strata, n, low, k, d - 1); }
  }

  /* ---------- one stratum ---------- */

  /** The inputs and finished strata are the perfect model so far. */
  ghost predicate OnTrack(v: View) {
    ViewOk(v) && Low(v) == Stage(v.p, Levels(v), Base(v.p, v.edb), v.active)
  }

  /** A failure that refutes the bounds, or names an undecidable literal of the model. */
  ghost predicate Excused(p: Program, strata: nat -> nat, base: Interp, n: nat, bounds: Bounds, failure: Failure) {
    match failure
    case NoFailure => false
    case Overflow(_) => !Fits(p, Stage(p, strata, base, n), bounds)
    case Undecidable(r, i, s) => UndecidableIn(p, r, i, s, Stage(p, strata, base, n))
  }

  /** Literal i of rule r cannot be decided in the model, under bindings that other literals
      of the body give while they hold. */
  ghost predicate UndecidableIn(p: Program, r: nat, i: nat, s: Bindings, m: Interp) {
    && r < |p.rules| && i < |p.rules[r].body| && Needs(p.rules[r].body[i]) <= s.Keys
    && MatchedBefore(p.rules[r].body, i, s, m, m)
    && var l := p.rules[r].body[i];
       if l.Aggregate? then
         exists facts: set<Fact> ::
           MatchSet(l, s, m, facts) && AggregateIs(l.kind, facts, ProjectedTerm(l.atom.terms, l.projection), Rejected)
       else (l.Comparison? || l.Arithmetic?) && EvalComparison(l, s) == Fatal
  }

  /** A literal that holds where a view stands holds in the model. */
  lemma LiteralInModel(v: View, r: nat, k: nat, s: Bindings, n: nat)
    requires OnTrack(v) && WithinModel(v) && InActive(v, r) && v.active < n && k < |v.p.rules[r].body|
    requires LiteralHolds(v.p.rules[r].body[k], s, Known(v), Low(v))
    ensures var m := Stage(v.p, Levels(v), Base(v.p, v.edb), n); LiteralHolds(v.p.rules[r].body[k], s, m, m)
  {
    hide ViewOk, Stage, AggregateHolds;
    var l, lv, base := v.p.rules[r].body[k], Levels(v), Base(v.p, v.edb);
    RuleReadable(v, r);
    StageFrozen(v.p, lv, base, v.active + 1, n);
    StageFrozen(v.p, lv, base, v.active, n);
    if l.Aggregate? { AggregateTransfers(l, s, Low(v), Stage(v.p, lv, base, n), lv, v.active); }
  }

  lemma MatchedInModel(v: View, r: nat, i: nat, s: Bindings, n: nat)
    requires OnTrack(v) && WithinModel(v) && InActive(v, r) && v.active < n
    requires MatchedBefore(v.p.rules[r].body, i, s, Known(v), Low(v))
    ensures var m := Stage(v.p, Levels(v), Base(v.p, v.edb), n); MatchedBefore(v.p.rules[r].body, i, s, m, m)
  {
    hide OnTrack, WithinModel, Stage, LiteralHolds;
    var m := Stage(v.p, Levels(v), Base(v.p, v.edb), n);
    var body := v.p.rules[r].body;
    var done: set<nat> :| i !in done && PartialMatch(body, done, s, Known(v), Low(v));
    forall k | k in done ensures k < |body| && LiteralHolds(body[k], s, m, m) { LiteralInModel(v, r, k, s, n); }
    assert PartialMatch(body, done, s, m, m);
  }

  lemma UndecidableInModel(v: View, r: nat, i: nat, s: Bindings, n: nat)
    requires OnTrack(v) && WithinModel(v) && UndecidableAt(v, r, i, s) && InActive(v, r) && v.active < n
    requires MatchedBefore(v.p.rules[r].body, i, s, Known(v), Low(v))
    ensures UndecidableIn(v.p, r, i, s, Stage(v.p, Levels(v), Base(v.p, v.edb), n))
  {
    hide ViewOk, AggregateIs, Stage, MatchedBefore, WithinModel;
    MatchedInModel(v, r, i, s, n);
    var l := v.p.rules[r].body[i];
    if l.Aggregate? {
      var m := Stage(v.p, Levels(v), Base(v.p, v.edb), n);
      RuleReadable(v, r);
      AggregateMatchSet(v, l, s, s);
      StageFrozen(v.p, Levels(v), Base(v.p, v.edb), v.active, n);
      var facts := AggregateFacts(v, l, s);
      assert forall f :: MatchesPattern(l, s, f) ==> f.pred == l.atom.pred;
      assert Levels(v)(l.atom.pred) < v.active;
      assert MatchSet(l, s, m, facts);
    }
  }

  /** Everything derived from what is known belongs to the perfect model. */
  lemma DerivedInModel(v: View, pos: Interp, n: nat, f: Fact)
    requires OnTrack(v) && v.active < n
    requires forall g :: g in pos ==> g in Stage(v.p, Levels(v), Base(v.p, v.edb), v.active + 1)
    requires DerivedAt(v.p, Levels(v), v.active, pos, Low(v), f)
    ensures f in Stage(v.p, Levels(v), Base(v.p, v.edb), n) && HasKind(v.p, f.pred, Idb)
  {
    hide Derives, Stage, Stratifies;
    var p, lv, base, t := v.p, Levels(v), Base(v.p, v.edb), v.active;
    var r :| 0 <= r < |p.rules| && lv(p.rules[r].head.pred) == t && Derives(p.rules[r], pos, Low(v), f);
    DerivesHead(p.rules[r], pos, Low(v), f);
    DerivedIsInStage(p, lv, base, t + 1, pos, Low(v), r, f);
    StageFrozen(p, lv, base, t + 1, n);
    assert WellFormedRule(p, p.rules[r]);
  }

  /** All that is known belongs to the perfect model of this stratum. */
  ghost predicate WithinModel(v: View) {
    forall g :: g in Known(v) ==> g in Stage(v.p, Levels(v), Base(v.p, v.edb), v.active + 1)
  }

  lemma BeginsWithinModel(v: View)
    requires OnTrack(v) && StratumBegins(v)
    ensures WithinModel(v)
  {
    hide ViewOk, Limit;
    BeginsKnown(v);
  }

  lemma RoundWithinModel(v: View, k: nat)
    requires OnTrack(v) && AfterRound(v, k)
    ensures WithinModel(v)
  {
    hide ViewOk, Round;
    var low := Low(v);
    forall g | g in Known(v)
      ensures g in Stage(v.p, Levels(v), Base(v.p, v.edb), v.active + 1)
    {
      if g !in low { assert EventuallyDerived(v.p, Levels(v), v.active, low, g); }
    }
  }

  lemma PassDerivedDerived(v: View, full: bool, f: Fact)
    requires ViewOk(v) && PassDerived(v, full, f)
    ensures DerivedAt(v.p, Levels(v), v.active, Known(v), Low(v), f)
  {
    hide ViewOk, DerivedAt, Yield;
    var r: nat, d: Option<nat> :| InPass(v, full, r, d) && Yield(v, r, d, f);
    YieldDerived(v, r, d, f);
  }

  /** A failure during a pass is excused by the model. */
  lemma PassExcused(v: View, bounds: Bounds, full: bool, idb: seq<Fact>, failure: Failure, total: nat)
    requires OnTrack(v) && WithinModel(v) && v.active < total && v.idb <= idb && DistinctFacts(idb)
    requires forall j :: |v.idb| <= j < |idb| ==> PassDerived(v, full, idb[j])
    requires Genuine(v, bounds, idb, failure)
    ensures Excused(v.p, Levels(v), Base(v.p, v.edb), total, bounds, failure)
  {
    hide ViewOk, DerivedAt, PassDerived, Full, UndecidableAt, Stage, UndecidableIn, Fits, DistinctFacts, MatchedBefore;
    match failure {
      case Undecidable(r, i, s) => UndecidableInModel(v, r, i, s, total);
      case Overflow(f) =>
        var m := Stage(v.p, Levels(v), Base(v.p, v.edb), total);
        DerivedInModel(v, Known(v), total, f);
        StageFrozen(v.p, Levels(v), Base(v.p, v.edb), v.active + 1, total);
        forall g | g in FactSet(idb)
          ensures g in m && HasKind(v.p, g.pred, Idb)
        {
          var j :| 0 <= j < |idb| && idb[j] == g;
          if j < |v.idb| {
            assert v.idb[j] == g;
            KindsSeparate(v, g);
            assert g in Known(v);
          } else {
            PassDerivedDerived(v, full, g);
            DerivedInModel(v, Known(v), total, g);
          }
        }
        OverflowRefutes(v.p, m, bounds, idb, f);
    }
  }

  datatype Status = Converged | TooManyRounds | Failed

  /** The number of rounds a stratum may take. The plain path must see an empty round within
      its iterations, the stratified path also accepts one after the last. */
  function RoundLimit(plain: bool): nat {
    if plain then MAX_DEPTH - 1 else MAX_DEPTH
  }

  ghost predicate SameStratum(v: View, v': View) {
    v' == v.(idb := v'.idb, deltaBegin := v'.deltaBegin, deltaEnd := v'.deltaEnd)
  }

  lemma InvView(w: Workspace)
    requires w.Inv()
    ensures ViewOk(w.V()) && DistinctFacts(w.idb) && w.currentEnd <= |w.idb| && TailOk(w.V(), w.idb)
    ensures w.V().idb == w.idb[..w.currentEnd]
  {
    hide ViewOk, DistinctFacts;
  }

  lemma OnTrackSame(v: View, v': View)
    requires OnTrack(v) && ViewOk(v') && SameStratum(v, v') && Low(v') == Low(v)
    ensures OnTrack(v')
  {
    hide ViewOk, Stage;
    assert Levels(v') == Levels(v);
  }

  /** The settled state of a stratum after a run. */
  ghost predicate SettledView(v: View, k: nat) {
    AfterRound(v, k) && OnTrack(v) && SettlesBy(v.p, Levels(v), v.active, Low(v), k)
  }

  /** No rule of the stratum is blocked by what was known before the newest facts. */
  ghost predicate Cleared(v: View, k: nat) {
    ViewOk(v) && AllClear(v.p, Levels(v), v.active, Low(v) + Before(v.p, Levels(v), v.active, Low(v), k), Low(v))
  }

  lemma FirstCleared(v: View, v': View)
    requires StratumBegins(v) && Unblocked(v, true) && ViewOk(v') && SameStratum(v, v') && Low(v') == Low(v)
    ensures Cleared(v', 0)
  {
    hide ViewOk, AllClear, Unblocked;
    BeginsKnown(v);
    FullPassClears(v);
    assert Levels(v') == Levels(v);
    assert Low(v) + Before(v.p, Levels(v), v.active, Low(v), 0) == Low(v);
  }

  lemma NextCleared(v: View, k: nat, v': View)
    requires AfterRound(v, k) && Cleared(v, k) && Unblocked(v, false) && ViewOk(v') && SameStratum(v, v') && Low(v') == Low(v)
    ensures Cleared(v', k + 1)
  {
    hide ViewOk, AllClear, Unblocked, Round;
    DeltaPassClears(v, k);
    assert Levels(v') == Levels(v);
  }

  /** Once the stratum has settled, nothing blocks it at all. */
  lemma SettledClear(v: View, k: nat)
    requires AfterRound(v, k) && Cleared(v, k) && SettlesBy(v.p, Levels(v), v.active, Low(v), k)
    ensures AllClear(v.p, Levels(v), v.active, Known(v), Low(v))
  {
    hide ViewOk, AllClear, Round;
  }

  /** Runs the full pass of a stratum and accepts its result. */
  method FirstPass(w: Workspace, ghost total: nat) returns (ok: bool)
    requires w.Inv() && w.currentEnd == |w.idb| && StratumBegins(w.V()) && OnTrack(w.V()) && w.active < total
    modifies w`idb, w`factsPerPred, w`failure, w`headMayBeInBase, w`currentEnd, w`deltaBegin, w`deltaEnd
    ensures ok ==> w.Inv() && w.currentEnd == |w.idb| && AfterRound(w.V(), 0) && OnTrack(w.V()) && Cleared(w.V(), 0)
    ensures ok ==> SameStratum(old(w.V()), w.V()) && Low(w.V()) == old(Low(w.V()))
    ensures !ok ==> Excused(w.p, Levels(old(w.V())), Base(w.p, w.edb), total, w.bounds, w.failure)
  {
    hide w.Inv, ViewOk, PassProgress, Genuine, Excused, PassDerived, AfterRound, OnTrack, StratumBegins, DistinctFacts, Unblocked, Cleared;
    ghost var v := w.V();
    InvView(w);
    assert v.idb == w.idb;
    ok := FullPass(w);
    InvView(w);
    if !ok {
      BeginsWithinModel(v);
      PassExcused(v, w.bounds, true, w.idb, w.failure, total);
      return;
    }
    PassUnblocked(v, true, v.idb, w.idb);
    FirstRound(v, w.idb);
    AcceptedOk(v, w.idb, |v.idb|);
    BeginsBoundary(v);
    w.Accept(w.ends[w.active]);
    OnTrackSame(v, w.V());
    FirstCleared(v, w.V());
  }

  lemma BeginsBoundary(v: View)
    requires StratumBegins(v)
    ensures v.active < |v.ends| && v.ends[v.active] == |v.idb|
  {
  }

  /** Runs one delta pass and accepts its result. */
  method NextPass(w: Workspace, ghost k: nat, ghost total: nat) returns (ok: bool)
    requires w.Inv() && w.currentEnd == |w.idb| && AfterRound(w.V(), k) && OnTrack(w.V()) && Cleared(w.V(), k) && w.active < total
    modifies w`idb, w`factsPerPred, w`failure, w`headMayBeInBase, w`currentEnd, w`deltaBegin, w`deltaEnd
    ensures ok ==> w.Inv() && w.currentEnd == |w.idb| && AfterRound(w.V(), k + 1) && OnTrack(w.V()) && Cleared(w.V(), k + 1)
    ensures ok ==> SameStratum(old(w.V()), w.V()) && Low(w.V()) == old(Low(w.V()))
    ensures !ok ==> Excused(w.p, Levels(old(w.V())), Base(w.p, w.edb), total, w.bounds, w.failure)
  {
    hide w.Inv, ViewOk, PassProgress, Genuine, Excused, PassDerived, AfterRound, OnTrack, DistinctFacts, Unblocked, Cleared;
    ghost var v := w.V();
    InvView(w);
    assert v.idb == w.idb;
    var mergeBegin := w.currentEnd;
    ok := DeltaPass(w);
    InvView(w);
    if !ok {
      RoundWithinModel(v, k);
      PassExcused(v, w.bounds, false, w.idb, w.failure, total);
      return;
    }
    PassUnblocked(v, false, v.idb, w.idb);
    LaterRound(v, k, w.idb);
    AcceptedOk(v, w.idb, |v.idb|);
    w.Accept(mergeBegin);
    OnTrackSame(v, w.V());
    NextCleared(v, k, w.V());
  }

  /** The newest facts are none exactly when the stratum has settled. */
  lemma EmptyDelta(v: View, k: nat)
    requires AfterRound(v, k)
    ensures v.deltaBegin == v.deltaEnd <==> SettlesBy(v.p, Levels(v), v.active, Low(v), k)
  {
    hide Round;
    var p, lv, n, low := v.p, Levels(v), v.active, Low(v);
    BeforeGrows(p, lv, n, low, k);
    if v.deltaBegin < v.deltaEnd {
      var f := v.idb[v.deltaBegin];
      assert f == v.idb[v.deltaBegin..v.deltaEnd][0];
      assert f in Delta(v);
    } else {
      assert v.idb[v.deltaBegin..v.deltaEnd] == [];
      forall f | f in Round(p, lv, n, low, k)
        ensures f in Before(p, lv, n, low, k)
      {
        assert f !in Delta(v);
      }
      assert Round(p, lv, n, low, k) == Before(p, lv, n, low, k);
    }
  }

  lemma BeforeGrows(p: Program, strata: nat -> nat, n: nat, low: Interp, k: nat)
    ensures Before(p, strata, n, low, k) <= Round(p, strata, n, low, k)
  {
    hide Round;
    if k > 0 { RoundGrows(p, strata, n, low, k - 1, k); }
  }

  /** Runs a stratum to its end: the full pass, then delta passes while there are new facts. */
  method RunStratum(w: Workspace, plain: bool, ghost total: nat) returns (st: Status, ghost k: nat)
    requires w.Inv() && w.currentEnd == |w.idb| && StratumBegins(w.V()) && OnTrack(w.V()) && w.active < total
    modifies w`idb, w`factsPerPred, w`failure, w`headMayBeInBase, w`currentEnd, w`deltaBegin, w`deltaEnd
    ensures st.Converged? ==> w.Inv() && w.currentEnd == |w.idb| && SettledView(w.V(), k)
    ensures st.Converged? ==> SameStratum(old(w.V()), w.V()) && Low(w.V()) == old(Low(w.V()))
    ensures st.Converged? ==> AllClear(w.p, Levels(w.V()), w.active, Known(w.V()), Low(w.V()))
    ensures st.Converged? ==> SettlesBy(w.p, Levels(old(w.V())), old(w.active), old(Low(w.V())), RoundLimit(plain))
    ensures st.TooManyRounds? ==> !SettlesBy(w.p, Levels(old(w.V())), old(w.active), old(Low(w.V())), RoundLimit(plain))
    ensures st.Failed? ==> Excused(w.p, Levels(old(w.V())), Base(w.p, w.edb), total, w.bounds, w.failure)
  {
    hide w.Inv, ViewOk, AfterRound, OnTrack, StratumBegins, Excused, SettlesBy, Low, Cleared, AllClear, Known;
    ghost var v, low := w.V(), Low(w.V());
    k := 0;
    var ok := FirstPass(w, total);
    if !ok { return Failed, k; }
    for depth := 1 to MAX_DEPTH + 1
      invariant k == depth - 1
      invariant w.Inv() && w.currentEnd == |w.idb| && AfterRound(w.V(), k) && OnTrack(w.V()) && Cleared(w.V(), k)
      invariant SameStratum(v, w.V()) && Low(w.V()) == low
      invariant k > 0 ==> !SettlesBy(w.p, Levels(v), v.active, low, k - 1)
    {
      EmptyDelta(w.V(), k);
      if w.deltaBegin == w.deltaEnd {
        SettlesLater(w.p, Levels(v), v.active, low, k, RoundLimit(plain));
        SettledClear(w.V(), k);
        return Converged, k;
      }
      ok := NextPass(w, k, total);
      if !ok { return Failed, k; }
      k := k + 1;
    }
    EmptyDelta(w.V(), k);
    if !plain && w.deltaBegin == w.deltaEnd {
      SettledClear(w.V(), k);
      return Converged, k;
    }
    return TooManyRounds, k;
  }

  /* ---------- the solve ---------- */

  datatype Outcome =
    | Solved(facts: seq<Fact>)
    | DepthExceeded(stratum: nat)
    | Refused(failure: Failure)
    | Unloadable

  /** The inputs together with the derived facts of an answer. */
  ghost function Answer(p: Program, edb: seq<Fact>, facts: seq<Fact>): Interp {
    iset f | InBase(p, edb, f) || f in facts
  }

  ghost predicate AllDerived(p: Program, facts: seq<Fact>) {
    forall i :: 0 <= i < |facts| ==> HasKind(p, facts[i].pred, Idb)
  }

  /** The answer a solve owes: the perfect model below stratum n, or a reason why there is
      none within the bounds. */
  ghost predicate Correct(p: Program, edb: seq<Fact>, strata: nat -> nat, n: nat, bounds: Bounds, depth: nat, out: Outcome) {
    var base := Base(p, edb);
    match out
    case Solved(facts) =>
      && Ascending(facts) && AllDerived(p, facts)
      && Answer(p, edb, facts) == Stage(p, strata, base, n)
      && Fits(p, Stage(p, strata, base, n), bounds)
      && (forall t: nat :: t < n ==> SettlesBy(p, strata, t, Stage(p, strata, base, t), depth))
      && ClearBelow(p, strata, base, n)
    case DepthExceeded(t) => t < n && !SettlesBy(p, strata, t, Stage(p, strata, base, t), depth)
    case Refused(failure) => Excused(p, strata, base, n, bounds, failure)
    case Unloadable => false
  }

  lemma EmptyWorkspace(w: Workspace)
    requires WellFormed(w.p) && InputsOk(w.p, w.edb) && RangesOk(w.edb, w.ranges)
    requires w.idb == [] && w.currentEnd == w.deltaBegin == w.deltaEnd == w.active == 0
    requires w.ends == seq(MAX_STRATA + 1, _ => 0) && w.factsPerPred == seq(MAX_PREDICATES, _ => 0)
    requires |w.strata| == MAX_PREDICATES && Stratifies(w.p, LevelsOf(w.strata))
    requires !w.stratified ==> (forall q :: 0 <= q < MAX_PREDICATES ==> w.strata[q] == 0) && !NeedsStrata(w.p)
    ensures w.Inv() && StratumBegins(w.V()) && OnTrack(w.V())
  {
    hide Stratifies, WellFormed, InputsOk, RangesOk;
    var v := w.V();
    assert v.idb == [];
    assert Low(v) == Base(w.p, w.edb);
  }

  /** A settled stratum completes the perfect model up to it. */
  lemma SettledStage(v: View, k: nat)
    requires SettledView(v, k)
    ensures Known(v) == Stage(v.p, Levels(v), Base(v.p, v.edb), v.active + 1)
  {
    hide ViewOk, Round;
    SettledIsLimit(v.p, Levels(v), v.active, Low(v), k);
  }

  /** The end of a solve: all derived facts, sorted. */
  method Finish(w: Workspace, ghost k: nat) returns (out: Outcome)
    requires w.Inv() && w.currentEnd == |w.idb| && SettledView(w.V(), k)
    ensures out.Solved? && Ascending(out.facts) && AllDerived(w.p, out.facts)
    ensures Answer(w.p, w.edb, out.facts) == Stage(w.p, Levels(w.V()), Base(w.p, w.edb), w.active + 1)
    ensures Fits(w.p, Stage(w.p, Levels(w.V()), Base(w.p, w.edb), w.active + 1), w.bounds)
  {
    ghost var v := w.V();
    assert v.idb == w.idb && v.p == w.p && v.edb == w.edb && DistinctFacts(w.idb) && ViewOk(v);
    HeldWithin(w);
    hide w.Inv, Stage, CountOf, Fits, SettledView, Ascending, DistinctFacts;
    SettledStage(v, k);
    var sorted := SortFacts(w.idb);
    SameAnswer(v, sorted);
    hide ViewOk;
    out := Solved(sorted);
  }

  lemma SameAnswer(v: View, sorted: seq<Fact>)
    requires ViewOk(v) && FactSet(sorted) == FactSet(v.idb)
    ensures Answer(v.p, v.edb, sorted) == Known(v) && AllDerived(v.p, sorted)
  {
    assert forall f :: f in sorted <==> f in FactSet(sorted);
    assert forall f :: f in v.idb <==> f in FactSet(v.idb);
    forall i | 0 <= i < |sorted| ensures HasKind(v.p, sorted[i].pred, Idb) {
      assert sorted[i] in FactSet(v.idb);
    }
  }

  /** What a workspace holds is within its bounds. */
  lemma HeldWithin(w: Workspace)
    requires w.Inv() && w.currentEnd == |w.idb|
    ensures Fits(w.p, Known(w.V()), w.bounds)
  {
    hide ViewOk, CountOf, Fits;
    var v := w.V();
    assert v.idb == w.idb;
    forall f | f in Known(v) && HasKind(w.p, f.pred, Idb) ensures f in w.idb { KindsSeparate(v, f); }
    forall q: nat ensures CountOf(w.idb, q) <= w.bounds.perPredicate {
      if q >= MAX_PREDICATES { NoFactBeyond(w, q); }
    }
    HeldFits(w.p, Known(v), w.bounds, w.idb);
  }

  lemma NoFactBeyond(w: Workspace, q: nat)
    requires w.Inv() && w.currentEnd == |w.idb| && q >= MAX_PREDICATES
    ensures CountOf(w.idb, q) == 0
  {
    assert w.idb[..|w.idb|] == w.idb;
    forall i | 0 <= i < |w.idb| ensures w.idb[i].pred != q {
      assert HasKind(w.p, w.V().idb[i].pred, Idb);
    }
    NoneCounted(w.idb, q);
  }

  /** Sets up an empty workspace. */
  method Prepare(p: Program, edb: seq<Fact>, stratified: bool, strata: seq<nat>, bounds: Bounds) returns (w: Workspace)
    requires WellFormed(p) && InputsOk(p, edb)
    requires |strata| == MAX_PREDICATES && Stratifies(p, LevelsOf(strata))
    requires !stratified ==> (forall q :: 0 <= q < MAX_PREDICATES ==> strata[q] == 0) && !NeedsStrata(p)
    ensures fresh(w) && w.p == p && w.edb == edb && w.bounds == bounds && w.strata == strata && w.stratified == stratified
    ensures w.Inv() && w.currentEnd == |w.idb| && StratumBegins(w.V()) && OnTrack(w.V()) && w.active == 0
  {
    var ok, ranges := BuildRanges(edb);
    assert ok by { InputsInRange(p, edb); }
    w := new Workspace(p, edb, ranges, stratified, strata, bounds);
    EmptyWorkspace(w);
  }

  /** No rule below stratum s is blocked in the model. */
  ghost predicate ClearBelow(p: Program, strata: nat -> nat, base: Interp, s: nat) {
    forall t: nat :: t < s ==> AllClear(p, strata, t, Stage(p, strata, base, t + 1), Stage(p, strata, base, t))
  }

  lemma ClearExtends(p: Program, strata: nat -> nat, base: Interp, s: nat)
    requires ClearBelow(p, strata, base, s) && AllClear(p, strata, s, Stage(p, strata, base, s + 1), Stage(p, strata, base, s))
    ensures ClearBelow(p, strata, base, s + 1)
  {
    hide AllClear, Stage;
  }

  /** A settled stratum is clear in terms of the model. */
  lemma SettledClearStage(v: View, k: nat)
    requires SettledView(v, k) && AllClear(v.p, Levels(v), v.active, Known(v), Low(v))
    ensures AllClear(v.p, Levels(v), v.active, Stage(v.p, Levels(v), Base(v.p, v.edb), v.active + 1), Stage(v.p, Levels(v), Base(v.p, v.edb), v.active))
  {
    hide ViewOk, AllClear, Stage;
    SettledStage(v, k);
  }

  /** Every stratum below s settles within the limit. */
  ghost predicate AllSettle(p: Program, strata: nat -> nat, base: Interp, s: nat, depth: nat) {
    forall t: nat :: t < s ==> SettlesBy(p, strata, t, Stage(p, strata, base, t), depth)
  }

  /** Runs a stratum below the highest and opens the next. */
  method SolveLower(w: Workspace, s: nat, ghost total: nat) returns (st: Status)
    requires w.Inv() && w.currentEnd == |w.idb| && StratumBegins(w.V()) && OnTrack(w.V()) && w.stratified
    requires w.active == s && s + 1 < total <= MAX_STRATA
    modifies w
    ensures st.Converged? ==> w.Inv() && w.currentEnd == |w.idb| && StratumBegins(w.V()) && OnTrack(w.V()) && w.active == s + 1
    ensures !st.Failed? ==>
              (st.Converged? <==> SettlesBy(w.p, LevelsOf(w.strata), s, Stage(w.p, LevelsOf(w.strata), Base(w.p, w.edb), s), RoundLimit(false)))
    ensures st.Converged? ==>
              var lv, base := LevelsOf(w.strata), Base(w.p, w.edb); AllClear(w.p, lv, s, Stage(w.p, lv, base, s + 1), Stage(w.p, lv, base, s))
    ensures st.Failed? ==> Excused(w.p, LevelsOf(w.strata), Base(w.p, w.edb), total, w.bounds, w.failure)
  {
    hide w.Inv, ViewOk, StratumBegins, OnTrack, SettlesBy, Excused, Stage, Low, Known, SettledView, AllClear;
    OnTrackLow(w.V());
    ghost var k;
    st, k := RunStratum(w, false, total);
    if st.Converged? {
      ghost var v := w.V();
      SettledClearStage(v, k);
      w.FreezeAndAdvance();
      AdvanceOnTrack(v, w.idb, k);
    }
  }

  /** Runs the highest stratum and delivers the model. */
  method SolveHighest(w: Workspace, plain: bool) returns (out: Outcome)
    requires w.Inv() && w.currentEnd == |w.idb| && StratumBegins(w.V()) && OnTrack(w.V())
    requires AllSettle(w.p, LevelsOf(w.strata), Base(w.p, w.edb), w.active, RoundLimit(plain))
    requires ClearBelow(w.p, LevelsOf(w.strata), Base(w.p, w.edb), w.active)
    modifies w
    ensures Correct(w.p, w.edb, LevelsOf(w.strata), old(w.active) + 1, w.bounds, RoundLimit(plain), out)
  {
    hide w.Inv, ViewOk, StratumBegins, OnTrack, SettlesBy, Excused, Stage, Low, Known, SettledView, Fits, Ascending, AllClear, ClearBelow;
    OnTrackLow(w.V());
    var s := w.active;
    var st, k := RunStratum(w, plain, s + 1);
    if st.Failed? { return Refused(w.failure); }
    if st.TooManyRounds? { return DepthExceeded(s); }
    SettledClearStage(w.V(), k);
    ClearExtends(w.p, LevelsOf(w.strata), Base(w.p, w.edb), s);
    out := Finish(w, k);
  }

  /** The stratified path. */
  method SolveStratified(p: Program, edb: seq<Fact>, strata: seq<nat>, highest: nat, bounds: Bounds) returns (out: Outcome)
    requires WellFormed(p) && InputsOk(p, edb)
    requires |strata| == MAX_PREDICATES && Stratifies(p, LevelsOf(strata)) && highest < MAX_STRATA
    ensures Correct(p, edb, LevelsOf(strata), highest + 1, bounds, RoundLimit(false), out)
  {
    hide StratumBegins, OnTrack, SettlesBy, Excused, Stage, Correct, AllSettle, Base, LevelsOf, WellFormed, InputsOk, Stratifies,
         Workspace.Inv, Workspace.V, AllClear, ClearBelow;
    var w := Prepare(p, edb, true, strata, bounds);
    AllSettleBegins(p, LevelsOf(strata), Base(p, edb), RoundLimit(false));
    var s: nat := 0;
    while s < highest
      invariant 0 <= s <= highest && w.active == s && w.p == p && w.edb == edb && w.strata == strata && w.stratified
      invariant w.bounds == bounds && fresh(w)
      invariant w.Inv() && w.currentEnd == |w.idb| && StratumBegins(w.V()) && OnTrack(w.V())
      invariant AllSettle(p, LevelsOf(strata), Base(p, edb), s, RoundLimit(false)) && ClearBelow(p, LevelsOf(strata), Base(p, edb), s)
    {
      var st := SolveLower(w, s, highest + 1);
      if !st.Converged? {
        out := if st.Failed? then Refused(w.failure) else DepthExceeded(s);
        CorrectRefusal(p, edb, LevelsOf(strata), highest + 1, bounds, RoundLimit(false), out);
        return;
      }
      AllSettleExtends(p, LevelsOf(strata), Base(p, edb), s, RoundLimit(false));
      ClearExtends(p, LevelsOf(strata), Base(p, edb), s);
      s := s + 1;
    }
    out := SolveHighest(w, false);
  }

  lemma AllSettleBegins(p: Program, strata: nat -> nat, base: Interp, depth: nat)
    ensures AllSettle(p, strata, base, 0, depth) && ClearBelow(p, strata, base, 0)
  {
  }

  lemma AllSettleExtends(p: Program, strata: nat -> nat, base: Interp, s: nat, depth: nat)
    requires AllSettle(p, strata, base, s, depth) && SettlesBy(p, strata, s, Stage(p, strata, base, s), depth)
    ensures AllSettle(p, strata, base, s + 1, depth)
  {
    hide SettlesBy, Stage;
  }

  lemma CorrectRefusal(p: Program, edb: seq<Fact>, strata: nat -> nat, n: nat, bounds: Bounds, depth: nat, out: Outcome)
    requires (out.Refused? && Excused(p, strata, Base(p, edb), n, bounds, out.failure)) ||
             (out.DepthExceeded? && out.stratum < n &&
              !SettlesBy(p, strata, out.stratum, Stage(p, strata, Base(p, edb), out.stratum), depth))
    ensures Correct(p, edb, strata, n, bounds, depth, out)
  {
    hide SettlesBy, Stage, Excused;
  }

  /** The plain path, for programs without negation and aggregates. */
  method SolvePlain(p: Program, edb: seq<Fact>, bounds: Bounds) returns (out: Outcome)
    requires WellFormed(p) && InputsOk(p, edb) && !NeedsStrata(p)
    ensures Correct(p, edb, LevelsOf(ZERO_STRATA), 1, bounds, RoundLimit(true), out)
  {
    PositiveStratifies(p);
    var w := Prepare(p, edb, false, ZERO_STRATA, bounds);
    out := SolveHighest(w, true);
  }

  const ZERO_STRATA: seq<nat> := seq(MAX_PREDICATES, _ => 0)

  lemma PositiveStratifies(p: Program)
    requires !NeedsStrata(p)
    ensures Stratifies(p, LevelsOf(ZERO_STRATA))
  {
    forall h, b, w | Edge(p, h, b, w)
      ensures LevelsOf(ZERO_STRATA)(b) + w <= LevelsOf(ZERO_STRATA)(h)
    {
      var r, i :| 0 <= r < |p.rules| && RuleEdge(p.rules[r], i, h, b, w);
    }
  }

  /** The strata a solve uses: the least stratification, or one stratum where none is needed. */
  ghost predicate OwnStrata(p: Program, strata: seq<nat>) {
    && |strata| == MAX_PREDICATES && Stratifies(p, LevelsOf(strata))
    && (NeedsStrata(p) ==> Below(p, strata))
    && (!NeedsStrata(p) ==> forall v :: 0 <= v < |strata| ==> strata[v] == 0)
  }

  /** There is only one choice. */
  lemma OwnStrataUnique(p: Program, s: seq<nat>, t: seq<nat>)
    requires OwnStrata(p, s) && OwnStrata(p, t)
    ensures s == t
  {
    hide Stratifies;
    if NeedsStrata(p) {
      forall v | 0 <= v < MAX_PREDICATES ensures s[v] == t[v] {
        assert s[v] <= LevelsOf(t)(v) && t[v] <= LevelsOf(s)(v);
      }
    }
  }

  /** The stratum is final after the rounds a solve gives it. */
  ghost predicate InTime(p: Program, edb: seq<Fact>, strata: seq<nat>, stratum: nat) {
    SettlesBy(p, LevelsOf(strata), stratum, Stage(p, LevelsOf(strata), Base(p, edb), stratum), RoundLimit(!NeedsStrata(p)))
  }

  /** Every stratification needs more levels than there may be. */
  ghost predicate TooDeepForAll(p: Program) {
    forall s: nat -> nat :: Stratifies(p, s) ==> NeedsLevel(s, MAX_STRATA + 1)
  }

  /** In the model no rule has a literal without a verdict while all its others hold. */
  ghost predicate Decided(p: Program, m: Interp) {
    forall r: nat, i: nat, s: Bindings :: !Deadlock(p, r, i, s, m, m)
  }

  lemma ClearIsDecided(p: Program, strata: nat -> nat, base: Interp, n: nat)
    requires Stratifies(p, strata) && HeadsBelow(p, strata, n) && ClearBelow(p, strata, base, n)
    ensures Decided(p, Stage(p, strata, base, n))
  {
    hide Stratifies, Stage, Deadlock;
    var m := Stage(p, strata, base, n);
    forall r: nat, i: nat, s: Bindings ensures !Deadlock(p, r, i, s, m, m) {
      if Deadlock(p, r, i, s, m, m) {
        OfSomeRule(p, r, i, s, m);
        DeadlockInStratum(p, strata, base, n, r, i, s);
      }
    }
  }

  lemma OfSomeRule(p: Program, r: nat, i: nat, s: Bindings, m: Interp)
    requires Deadlock(p, r, i, s, m, m)
    ensures r < |p.rules|
  {
  }

  /** The facts are exactly the derived part of the one stable model, which fits and in which
      everything is decided, and all strata of the solve are final in time. */
  ghost predicate TheModel(p: Program, edb: seq<Fact>, bounds: Bounds, facts: seq<Fact>) {
    && Ascending(facts) && AllDerived(p, facts) && Stable(p, Base(p, edb), Answer(p, edb, facts))
    && (forall m: Interp :: Stable(p, Base(p, edb), m) ==> m == Answer(p, edb, facts))
    && Fits(p, Answer(p, edb, facts), bounds) && Decided(p, Answer(p, edb, facts))
    && (exists strata: seq<nat> :: OwnStrata(p, strata) && forall q :: 0 <= q < |strata| ==> InTime(p, edb, strata, strata[q]))
  }

  ghost predicate TooLate(p: Program, edb: seq<Fact>, stratum: nat) {
    exists strata: seq<nat> :: OwnStrata(p, strata) && !InTime(p, edb, strata, stratum)
  }

  /** A failure that every stable model shows. */
  ghost predicate Inevitable(p: Program, edb: seq<Fact>, bounds: Bounds, failure: Failure) {
    && !failure.NoFailure?
    && (failure.Overflow? ==> forall m: Interp :: Stable(p, Base(p, edb), m) ==> !Fits(p, m, bounds))
    && (failure.Undecidable? ==>
          forall m: Interp :: Stable(p, Base(p, edb), m) ==>
            UndecidableIn(p, failure.rule, failure.literal, failure.bindings, m))
  }

  /** What an outcome says, in terms of stable models and of the solve's own strata. */
  ghost predicate Deserved(p: Program, edb: seq<Fact>, bounds: Bounds, out: Outcome) {
    match out
    case Solved(facts) => TheModel(p, edb, bounds, facts)
    case DepthExceeded(stratum) => TooLate(p, edb, stratum)
    case Refused(failure) => Inevitable(p, edb, bounds, failure)
    case Unloadable => TooDeepForAll(p)
  }

  /** A solve as the engine runs it: strata first, then the path they call for. A success is
      the one stable model of the program over its inputs; every refusal is deserved. */
  method Solve(p: Program, edb: seq<Fact>, bounds: Bounds) returns (out: Outcome)
    requires WellFormed(p) && InputsOk(p, edb)
    ensures Deserved(p, edb, bounds, out)
    ensures out.Unloadable? <==> TooDeepForAll(p)
  {
    hide Deserved, Correct, Stratifies, OnBadCycle, Below, NeedsLevel, WellFormed, InputsOk, TooDeepForAll, OwnStrata;
    var levels := AssignStrata(p);
    match levels {
      case NotNeeded =>
        out := SolvePlain(p, edb, bounds);
        PositiveStratifies(p);
        OwnIsOwn(p, ZERO_STRATA, 0);
        DeservedOutcome(p, edb, ZERO_STRATA, 0, bounds, out);
      case Assigned(strata, highest) =>
        out := SolveStratified(p, edb, strata, highest, bounds);
        OwnIsOwn(p, strata, highest);
        DeservedOutcome(p, edb, strata, highest, bounds, out);
      case Cycle(_) =>
        out := Unloadable;
        DeeperThanDeep(p, MAX_STRATA + 1);
        UnloadableDeserved(p, edb, bounds);
      case TooDeep(required) =>
        out := Unloadable;
        DeeperThanDeep(p, required);
        UnloadableDeserved(p, edb, bounds);
      case InvalidPredicate =>
        WellFormedInRange(p);
        out := Unloadable;
    }
  }

  lemma OwnIsOwn(p: Program, strata: seq<nat>, highest: nat)
    requires |strata| == MAX_PREDICATES && Stratifies(p, LevelsOf(strata)) && highest < MAX_STRATA
    requires NeedsStrata(p) ==> Below(p, strata)
    requires !NeedsStrata(p) ==> forall v :: 0 <= v < |strata| ==> strata[v] == 0
    requires forall v :: 0 <= v < MAX_PREDICATES ==> strata[v] <= highest
    ensures OwnStrata(p, strata) && !TooDeepForAll(p)
  {
    hide Stratifies, Below;
    assert !NeedsLevel(LevelsOf(strata), MAX_STRATA + 1);
  }

  lemma DeeperThanDeep(p: Program, levels: nat)
    requires levels > MAX_STRATA && forall s: nat -> nat :: Stratifies(p, s) ==> NeedsLevel(s, levels)
    ensures TooDeepForAll(p)
  {
    hide Stratifies;
  }

  lemma UnloadableDeserved(p: Program, edb: seq<Fact>, bounds: Bounds)
    requires TooDeepForAll(p)
    ensures Deserved(p, edb, bounds, Unloadable)
  {
  }

  /** A correct outcome on a solve's own strata is deserved. */
  lemma DeservedOutcome(p: Program, edb: seq<Fact>, strata: seq<nat>, highest: nat, bounds: Bounds, out: Outcome)
    requires OwnStrata(p, strata) && forall v :: 0 <= v < MAX_PREDICATES ==> strata[v] <= highest
    requires Correct(p, edb, LevelsOf(strata), highest + 1, bounds, RoundLimit(!NeedsStrata(p)), out)
    ensures Deserved(p, edb, bounds, out) && !out.Unloadable?
  {
    hide Stable, Stage, Fits, UndecidableIn, SettlesBy, Stratifies, Below, Ascending, Base, Answer, ClearBelow, Decided;
    HeadsWithin(p, strata, highest);
    ModelOfOutcome(p, edb, LevelsOf(strata), highest + 1, bounds, RoundLimit(!NeedsStrata(p)), out);
    if out.Solved? {
      assert forall q :: 0 <= q < |strata| ==> InTime(p, edb, strata, strata[q]);
    }
    if out.DepthExceeded? {
      assert !InTime(p, edb, strata, out.stratum);
    }
  }

  /** When nothing stands in the way, a solve succeeds. */
  lemma MustSolve(p: Program, edb: seq<Fact>, bounds: Bounds, out: Outcome, m: Interp)
    requires Deserved(p, edb, bounds, out) && !TooDeepForAll(p) && Stable(p, Base(p, edb), m) && Fits(p, m, bounds)
    requires forall r: nat, i: nat, s: Bindings :: !UndecidableIn(p, r, i, s, m)
    requires forall strata: seq<nat>, t: nat :: OwnStrata(p, strata) ==> InTime(p, edb, strata, t)
    ensures out.Solved?
  {
    hide TooDeepForAll, Stable, Fits, UndecidableIn, OwnStrata, InTime;
  }

  /** And where a rule of the model has a literal without a verdict while all its others hold, it
      does not. */
  lemma MustRefuse(p: Program, edb: seq<Fact>, bounds: Bounds, out: Outcome, m: Interp, r: nat, i: nat, s: Bindings)
    requires Deserved(p, edb, bounds, out) && Stable(p, Base(p, edb), m) && Deadlock(p, r, i, s, m, m)
    ensures !out.Solved?
  {
    hide TooDeepForAll, Stable, Fits, Deadlock, OwnStrata, InTime;
  }

  lemma WellFormedInRange(p: Program)
    requires WellFormed(p)
    ensures InRange(p)
  {
    forall r | 0 <= r < |p.rules| ensures RuleInRange(p.rules[r]) { assert WellFormedRule(p, p.rules[r]); }
  }

  lemma HeadsWithin(p: Program, strata: seq<nat>, highest: nat)
    requires |strata| == MAX_PREDICATES && forall v :: 0 <= v < MAX_PREDICATES ==> strata[v] <= highest
    ensures HeadsBelow(p, LevelsOf(strata), highest + 1)
  {
  }

  /** A correct outcome, in terms of stable models. */
  lemma ModelOfOutcome(p: Program, edb: seq<Fact>, strata: nat -> nat, n: nat, bounds: Bounds, depth: nat, out: Outcome)
    requires Stratifies(p, strata) && HeadsBelow(p, strata, n) && Correct(p, edb, strata, n, bounds, depth, out)
    ensures !out.Unloadable?
    ensures out.Solved? ==> Ascending(out.facts) && AllDerived(p, out.facts)
    ensures out.Solved? ==> Stable(p, Base(p, edb), Answer(p, edb, out.facts))
    ensures out.Solved? ==> forall m: Interp :: Stable(p, Base(p, edb), m) ==> m == Answer(p, edb, out.facts)
    ensures out.Solved? ==> Fits(p, Answer(p, edb, out.facts), bounds) && Decided(p, Answer(p, edb, out.facts))
    ensures out.Refused? && out.failure.Overflow? ==> forall m: Interp :: Stable(p, Base(p, edb), m) ==> !Fits(p, m, bounds)
    ensures out.Refused? && out.failure.Undecidable? ==>
              forall m: Interp :: Stable(p, Base(p, edb), m) ==>
                UndecidableIn(p, out.failure.rule, out.failure.literal, out.failure.bindings, m)
    ensures out.Refused? ==> !out.failure.NoFailure?
  {
    hide Stable, Stage, Fits, UndecidableIn, SettlesBy, Stratifies, ClearBelow, Decided;
    PerfectIsStable(p, strata, Base(p, edb), n);
    if out.Solved? { ClearIsDecided(p, strata, Base(p, edb), n); }
    forall m: Interp | Stable(p, Base(p, edb), m)
      ensures m == Stage(p, strata, Base(p, edb), n)
    {
      StableIsPerfect(p, strata, Base(p, edb), m, n);
    }
  }

  lemma InputsInRange(p: Program, edb: seq<Fact>)
    requires WellFormed(p) && InputsOk(p, edb)
    ensures Ascending(edb) && forall i :: 0 <= i < |edb| ==> edb[i].pred < MAX_PREDICATES
  {
  }

  lemma OnTrackLow(v: View)
    requires OnTrack(v)
    ensures Low(v) == Stage(v.p, Levels(v), Base(v.p, v.edb), v.active)
  {
  }

  lemma AdvanceOnTrack(v: View, idb: seq<Fact>, k: nat)
    requires SettledView(v, k) && v.stratified && v.active + 1 < MAX_STRATA && SortedTail(v, idb)
    ensures StratumBegins(NextStratum(v, idb)) && OnTrack(NextStratum(v, idb))
    ensures Levels(NextStratum(v, idb)) == Levels(v)
  {
    hide ViewOk, Stage, Low, Known;
    assert ViewOk(v) && v.active + 1 < |v.ends| by { SettledOk(v, k); }
    NextStratumOk(v, idb);
    SettledStage(v, k);
  }

  lemma SettledOk(v: View, k: nat)
    requires SettledView(v, k)
    ensures ViewOk(v) && |v.ends| == MAX_STRATA + 1
  {
  }
}
