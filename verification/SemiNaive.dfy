/**
 Semi-naive evaluation: a round only has to look at rule instances that use one of the
 newest facts, because every other instance was seen in an earlier round.
 */
module SemiNaive {
  import opened Datalog
  import opened Strata
  import opened Safety
  import opened Semantics
  import opened Evaluation

  /** Joining the body from position pos and bindings b emits the fact f. */
  ghost predicate Emits(v: View, rule: Rule, order: seq<nat>, pos: nat, b: Bindings, delta: Option<nat>, f: Fact)
    requires InBody(rule.body, order) && pos <= |order|
  {
    exists s :: Reach(v, rule.body, order, pos, b, delta, s) && TermsBound(rule.head.terms, s) && Ground(rule.head, s) == f
  }

  /** An instance of the rule that uses one of the newest facts for literal i. */
  ghost predicate DeltaInstance(v: View, rule: Rule, i: nat, s: Bindings, f: Fact)
    requires ViewOk(v) && i < |rule.body|
  {
    Instance(rule, s, Known(v), Low(v), f) && rule.body[i].Positive? && Ground(rule.body[i].atom, s) in Delta(v)
  }

  ghost predicate DeltaDerives(v: View, rule: Rule, i: nat, f: Fact)
    requires ViewOk(v) && i < |rule.body|
  {
    exists s :: DeltaInstance(v, rule, i, s, f)
  }

  predicate InActive(v: View, r: nat) {
    r < |v.p.rules| && StratumOf(v.strata, v.p.rules[r].head.pred) == v.active
  }

  /** A literal that can match one of the newest facts. */
  predicate Eligible(v: View, l: Literal) {
    l.Positive? && HasKind(v.p, l.atom.pred, Idb) && StratumOf(v.strata, l.atom.pred) == v.active
  }

  /** A full application emits what the rule derives. */
  lemma FullEmits(v: View, r: nat, order: seq<nat>, f: Fact)
    requires ViewOk(v) && InActive(v, r) && SafeOrder(v.p.rules[r].body, order, None)
    ensures Emits(v, v.p.rules[r], order, 0, map[], None, f) <==> Derives(v.p.rules[r], Known(v), Low(v), f)
  {
    hide Reach, ViewOk, LiteralHolds;
    var rule := v.p.rules[r];
    RuleReadable(v, r);
    forall s
      ensures Reach(v, rule.body, order, 0, map[], None, s) <==>
              s.Keys == BodyVars(rule.body) && BodyHolds(rule.body, s, Known(v), Low(v))
    {
      ReachExact(v, rule.body, order, None, s);
      assert forall i :: 0 <= i < |rule.body| ==>
          (Satisfied(v, rule.body, i, None, s) <==> LiteralHolds(rule.body[i], s, Known(v), Low(v)));
    }
    if Emits(v, rule, order, 0, map[], None, f) {
      var s :| Reach(v, rule.body, order, 0, map[], None, s) && TermsBound(rule.head.terms, s) && Ground(rule.head, s) == f;
      assert Instance(rule, s, Known(v), Low(v), f);
    }
    if Derives(rule, Known(v), Low(v), f) {
      var s :| Instance(rule, s, Known(v), Low(v), f);
      assert Reach(v, rule.body, order, 0, map[], None, s);
    }
  }

  /** A delta application emits what the rule derives with the help of one of the newest
      facts for that literal. */
  lemma DeltaEmits(v: View, r: nat, order: seq<nat>, i: nat, f: Fact)
    requires ViewOk(v) && InActive(v, r) && i < |v.p.rules[r].body| && v.p.rules[r].body[i].Positive?
    requires SafeOrder(v.p.rules[r].body, order, Some(i))
    ensures Emits(v, v.p.rules[r], order, 0, map[], Some(i), f) <==> DeltaDerives(v, v.p.rules[r], i, f)
  {
    hide Reach, ViewOk, LiteralHolds;
    var rule := v.p.rules[r];
    RuleReadable(v, r);
    if Emits(v, rule, order, 0, map[], Some(i), f) {
      var s :| Reach(v, rule.body, order, 0, map[], Some(i), s) && TermsBound(rule.head.terms, s) && Ground(rule.head, s) == f;
      ReachExact(v, rule.body, order, Some(i), s);
      assert Satisfied(v, rule.body, i, Some(i), s);
      assert BodyHolds(rule.body, s, Known(v), Low(v)) by {
        forall j | 0 <= j < |rule.body| ensures LiteralHolds(rule.body[j], s, Known(v), Low(v)) {
          assert Satisfied(v, rule.body, j, Some(i), s);
        }
      }
      assert DeltaInstance(v, rule, i, s, f);
    }
    if DeltaDerives(v, rule, i, f) {
      var s :| DeltaInstance(v, rule, i, s, f);
      ReachExact(v, rule.body, order, Some(i), s);
      forall j | 0 <= j < |rule.body| ensures Satisfied(v, rule.body, j, Some(i), s) {
        assert LiteralHolds(rule.body[j], s, Known(v), Low(v));
      }
      assert Reach(v, rule.body, order, 0, map[], Some(i), s);
    }
  }

  /** An instance that is new uses one of the newest facts. */
  lemma NewInstanceUsesDelta(v: View, rule: Rule, s: Bindings, f: Fact, older: Interp) returns (i: nat)
    requires ViewOk(v) && Instance(rule, s, Known(v), Low(v), f) && !Derives(rule, older, Low(v), f)
    requires forall g :: g in Known(v) ==> g in older || g in Delta(v)
    ensures i < |rule.body| && DeltaInstance(v, rule, i, s, f)
  {
    hide ViewOk;
    assert !Instance(rule, s, older, Low(v), f);
    assert !BodyHolds(rule.body, s, older, Low(v));
    i :| 0 <= i < |rule.body| && !LiteralHolds(rule.body[i], s, older, Low(v));
    assert LiteralHolds(rule.body[i], s, Known(v), Low(v));
  }

  /** What was derived before the newest round. */
  ghost function Before(p: Program, strata: nat -> nat, n: nat, low: Interp, k: nat): Interp {
    if k == 0 then iset{} else Round(p, strata, n, low, k - 1)
  }

  /** The view after round k of its active stratum: the accepted facts are those of the round,
      the newest are the ones the round before did not have. */
  ghost predicate AfterRound(v: View, k: nat) {
    && ViewOk(v)
    && v.ends[v.active] <= v.deltaBegin
    && Known(v) == Low(v) + Round(v.p, Levels(v), v.active, Low(v), k)
    && Delta(v) == Round(v.p, Levels(v), v.active, Low(v), k) - Before(v.p, Levels(v), v.active, Low(v), k)
  }

  /** f comes out of a delta application of some rule of the active stratum. */
  ghost predicate DeltaStep(v: View, f: Fact)
    requires ViewOk(v)
  {
    exists r: nat, i: nat :: InActive(v, r) && i < |v.p.rules[r].body| && Eligible(v, v.p.rules[r].body[i]) &&
                   DeltaDerives(v, v.p.rules[r], i, f)
  }

  lemma DeltaFactEligible(v: View, l: Literal, s: Bindings)
    requires ViewOk(v) && v.ends[v.active] <= v.deltaBegin
    requires l.Positive? && TermsBound(l.atom.terms, s) && Ground(l.atom, s) in Delta(v)
    ensures Eligible(v, l)
  {
    var g := Ground(l.atom, s);
    var i :| 0 <= i < |v.idb[v.deltaBegin..v.deltaEnd]| && v.idb[v.deltaBegin..v.deltaEnd][i] == g;
    assert v.idb[v.deltaBegin + i] == g;
  }

  /** The next round adds exactly what the delta applications emit. */
  lemma NextRound(v: View, k: nat, f: Fact)
    requires AfterRound(v, k)
    ensures f in Round(v.p, Levels(v), v.active, Low(v), k + 1) <==>
            f in Round(v.p, Levels(v), v.active, Low(v), k) || DeltaStep(v, f)
  {
    hide ViewOk, Derives;
    var p, lv, n, low := v.p, Levels(v), v.active, Low(v);
    if f in Round(p, lv, n, low, k + 1) && f !in Round(p, lv, n, low, k) {
      NewFactIsDeltaStep(v, k, f);
    }
    if DeltaStep(v, f) {
      var r: nat, i: nat :| InActive(v, r) && i < |p.rules[r].body| && Eligible(v, p.rules[r].body[i]) &&
                  DeltaDerives(v, p.rules[r], i, f);
      DeltaDerivesDerives(v, p.rules[r], i, f);
      assert DerivedAt(p, lv, n, low + Round(p, lv, n, low, k), low, f);
    }
  }

  lemma DeltaDerivesDerives(v: View, rule: Rule, i: nat, f: Fact)
    requires ViewOk(v) && i < |rule.body| && DeltaDerives(v, rule, i, f)
    ensures Derives(rule, Known(v), Low(v), f)
  {
  }

  lemma OlderDerives(p: Program, strata: nat -> nat, n: nat, low: Interp, k: nat, r: nat, f: Fact)
    requires r < |p.rules| && strata(p.rules[r].head.pred) == n
    requires Derives(p.rules[r], low + Before(p, strata, n, low, k), low, f)
    ensures f in Round(p, strata, n, low, k)
  {
    hide Derives;
    if k == 0 { assert low + Before(p, strata, n, low, k) == low; }
    assert DerivedAt(p, strata, n, low + Before(p, strata, n, low, k), low, f);
  }

  lemma NewFactIsDeltaStep(v: View, k: nat, f: Fact)
    requires AfterRound(v, k)
    requires f in Round(v.p, Levels(v), v.active, Low(v), k + 1)
    requires f !in Round(v.p, Levels(v), v.active, Low(v), k)
    ensures DeltaStep(v, f)
  {
    hide ViewOk, LiteralHolds;
    var p, lv, n, low := v.p, Levels(v), v.active, Low(v);
    var older := low + Before(p, lv, n, low, k);
    var r :| 0 <= r < |p.rules| && lv(p.rules[r].head.pred) == n && Derives(p.rules[r], Known(v), low, f);
    assert !Derives(p.rules[r], older, low, f) by {
      if Derives(p.rules[r], older, low, f) { OlderDerives(p, lv, n, low, k, r, f); }
    }
    var s :| Instance(p.rules[r], s, Known(v), low, f);
    var i := NewInstanceUsesDelta(v, p.rules[r], s, f, older);
    assert LiteralHolds(p.rules[r].body[i], s, Known(v), low);
    DeltaInstanceEligible(v, p.rules[r], i, s, f);
    assert DeltaDerives(v, p.rules[r], i, f);
  }

  lemma DeltaInstanceEligible(v: View, rule: Rule, i: nat, s: Bindings, f: Fact)
    requires ViewOk(v) && v.ends[v.active] <= v.deltaBegin && i < |rule.body| && DeltaInstance(v, rule, i, s, f)
    ensures Eligible(v, rule.body[i])
  {
    assert LiteralHolds(rule.body[i], s, Known(v), Low(v));
    DeltaFactEligible(v, rule.body[i], s);
  }

  /* ---------- convergence ---------- */

  lemma {:induction false} SettledForever(p: Program, strata: nat -> nat, n: nat, low: Interp, k: nat, j: nat)
    requires Round(p, strata, n, low, k) == Before(p, strata, n, low, k) && k <= j
    ensures Round(p, strata, n, low, j) == Round(p, strata, n, low, k)
  {
    hide Derives;
    if k < j {
      SettledForever(p, strata, n, low, k, j - 1);
      if k == 0 { assert low + Round(p, strata, n, low, 0) == low; }
      assert Round(p, strata, n, low, k + 1) == Round(p, strata, n, low, k);
    }
  }

  /** A round without a new fact is the last one. */
  lemma SettledIsLimit(p: Program, strata: nat -> nat, n: nat, low: Interp, k: nat)
    requires Round(p, strata, n, low, k) == Before(p, strata, n, low, k)
    ensures Limit(p, strata, n, low) == Round(p, strata, n, low, k)
  {
    hide Round;
    forall f | f in Limit(p, strata, n, low)
      ensures f in Round(p, strata, n, low, k)
    {
      var j: nat :| f in Round(p, strata, n, low, j);
      if j <= k { RoundGrows(p, strata, n, low, j, k); } else { SettledForever(p, strata, n, low, k, j); }
    }
  }
}
