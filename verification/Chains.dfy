/**
 How deep a derivation may go. A chain of rules, each feeding the next, needs as many rounds as
 it is long. The same chain is solved or refused depending on whether some rule elsewhere in the
 policy makes the engine take the stratified path.
 */
module Chains {
  import opened Datalog
  import opened Strata
  import opened Safety
  import opened Semantics
  import opened Evaluation
  import opened SemiNaive
  import opened FactOrder
  import opened Solver
  import opened Fixpoint

  function Link(i: nat): Rule {
    Rule(Atom(i + 1, []), [Positive(Atom(i, []))])
  }

  /** A rule that reads the first predicate under negation. */
  function Guard(len: nat): Rule {
    Rule(Atom(len + 1, []), [Negated(Atom(0, []))])
  }

  /** An input and len derived predicates in a chain, perhaps with a guard beside them. */
  function Chain(len: nat, guarded: bool): Program {
    Program([Edb] + seq(len + 1, _ => Idb), seq(len, i requires 0 <= i < len => Link(i)) + (if guarded then [Guard(len)] else []), [])
  }

  const INPUTS: seq<Fact> := [Fact(0, [])]

  /* ---------- what the rules derive ---------- */

  lemma NoTerms(s: Bindings)
    ensures TermsBound([], s) && forall q :: Ground(Atom(q, []), s) == Fact(q, [])
    ensures TermsVars([]) == {}
  {
  }

  lemma LinkDerives(i: nat, pos: Interp, neg: Interp, f: Fact)
    ensures Derives(Link(i), pos, neg, f) <==> f == Fact(i + 1, []) && Fact(i, []) in pos
  {
    hide TermsBound, Ground, TermsVars;
    var rule := Link(i);
    assert rule.body[..0] == [] && BodyVars(rule.body) == {} by { NoTerms(map[]); }
    if Derives(rule, pos, neg, f) {
      var s :| Instance(rule, s, pos, neg, f);
      assert LiteralHolds(rule.body[0], s, pos, neg);
      NoTerms(s);
    }
    if f == Fact(i + 1, []) && Fact(i, []) in pos {
      NoTerms(map[]);
      assert Instance(rule, map[], pos, neg, f);
    }
  }

  lemma GuardDerives(len: nat, pos: Interp, neg: Interp, f: Fact)
    requires Derives(Guard(len), pos, neg, f)
    ensures f == Fact(len + 1, []) && Fact(0, []) !in neg
  {
    hide TermsBound, Ground, TermsVars;
    var rule := Guard(len);
    var s :| Instance(rule, s, pos, neg, f);
    assert LiteralHolds(rule.body[0], s, pos, neg);
    NoTerms(s);
  }

  lemma RuleAt(len: nat, guarded: bool, r: nat)
    requires r < |Chain(len, guarded).rules|
    ensures Chain(len, guarded).rules[r] == if r < len then Link(r) else Guard(len)
    ensures r < len || (guarded && r == len)
  {
  }

  lemma ChainLoads(len: nat, guarded: bool)
    requires len + 2 <= MAX_PREDICATES
    ensures WellFormed(Chain(len, guarded)) && InputsOk(Chain(len, guarded), INPUTS)
  {
    var p := Chain(len, guarded);
    NoTerms(map[]);
    forall r | 0 <= r < |p.rules| ensures WellFormedRule(p, p.rules[r]) { RuleAt(len, guarded, r); }
  }

  /* ---------- strata ---------- */

  /** The chain lies on one level, the guard above it. */
  ghost predicate Level(lv: nat -> nat, len: nat, guarded: bool) {
    (forall q: nat :: q <= len ==> lv(q) == 0) && (guarded ==> lv(len + 1) == 1)
  }

  function Flat(len: nat): nat -> nat {
    q => if q == len + 1 then 1 else 0
  }

  lemma FlatStratifies(len: nat, guarded: bool)
    ensures Stratifies(Chain(len, guarded), Flat(len))
  {
    var p := Chain(len, guarded);
    forall h, b, w | Edge(p, h, b, w) ensures Flat(len)(b) + w <= Flat(len)(h) {
      var r, i :| 0 <= r < |p.rules| && RuleEdge(p.rules[r], i, h, b, w);
      RuleAt(len, guarded, r);
    }
  }

  lemma OwnIsLevel(len: nat, guarded: bool, strata: seq<nat>)
    requires len + 2 <= MAX_PREDICATES && OwnStrata(Chain(len, guarded), strata)
    ensures Level(LevelsOf(strata), len, guarded)
  {
    hide Stratifies;
    var p := Chain(len, guarded);
    var lv := LevelsOf(strata);
    FlatStratifies(len, guarded);
    if NeedsStrata(p) {
      forall q: nat | q < MAX_PREDICATES ensures strata[q] <= Flat(len)(q) {}
    }
    if guarded { GuardIsAbove(len, lv); }
  }

  lemma GuardIsAbove(len: nat, lv: nat -> nat)
    requires Stratifies(Chain(len, true), lv)
    ensures NeedsStrata(Chain(len, true)) && lv(0) + 1 <= lv(len + 1)
  {
    var p := Chain(len, true);
    assert p.rules[len] == Guard(len) && p.rules[len].body[0].Negated?;
    assert RuleEdge(p.rules[len], 0, len + 1, 0, 1);
    assert Edge(p, len + 1, 0, 1);
  }

  lemma Unguarded(len: nat)
    ensures !NeedsStrata(Chain(len, false))
  {
  }

  /* ---------- rounds ---------- */

  /** The first n facts of the chain. */
  ghost function Facts(n: nat): Interp {
    iset f: Fact | 1 <= f.pred <= n && f.values == []
  }

  lemma ChainStep(len: nat, guarded: bool, lv: nat -> nat, low: Interp, n: nat)
    requires Level(lv, len, guarded) && Fact(0, []) in low && forall j: nat :: j > 0 ==> Fact(j, []) !in low
    ensures Consequences(Chain(len, guarded), lv, 0, low + Facts(n), low) == Facts(if n < len then n + 1 else len)
  {
    hide Derives;
    var p := Chain(len, guarded);
    var pos := low + Facts(n);
    var m := if n < len then n + 1 else len;
    forall f ensures DerivedAt(p, lv, 0, pos, low, f) <==> f in Facts(m) {
      if DerivedAt(p, lv, 0, pos, low, f) {
        var r :| 0 <= r < |p.rules| && lv(p.rules[r].head.pred) == 0 && Derives(p.rules[r], pos, low, f);
        RuleAt(len, guarded, r);
        LinkDerives(r, pos, low, f);
      }
      if f in Facts(m) {
        var j := f.pred;
        RuleAt(len, guarded, j - 1);
        LinkDerives(j - 1, pos, low, f);
        assert Fact(j - 1, []) in pos;
      }
    }
  }

  /** Every round adds one link. */
  lemma {:induction false} ChainRound(len: nat, guarded: bool, lv: nat -> nat, low: Interp, k: nat)
    requires Level(lv, len, guarded) && Fact(0, []) in low && forall j: nat :: j > 0 ==> Fact(j, []) !in low
    ensures Round(Chain(len, guarded), lv, 0, low, k) == Facts(if k < len then k + 1 else len)
  {
    hide Consequences, Level;
    if k == 0 {
      ChainStep(len, guarded, lv, low, 0);
      assert low + Facts(0) == low;
    } else {
      ChainRound(len, guarded, lv, low, k - 1);
      ChainStep(len, guarded, lv, low, if k - 1 < len then k else len);
    }
  }

  lemma FactsDiffer(m: nat, n: nat)
    ensures Facts(m) == Facts(n) <==> m == n
  {
    assert m > n ==> Fact(m, []) in Facts(m) && Fact(m, []) !in Facts(n);
    assert n > m ==> Fact(n, []) in Facts(n) && Fact(n, []) !in Facts(m);
  }

  lemma ChainSettles(len: nat, guarded: bool, lv: nat -> nat, low: Interp, d: nat)
    requires Level(lv, len, guarded) && Fact(0, []) in low && forall j: nat :: j > 0 ==> Fact(j, []) !in low
    ensures SettlesBy(Chain(len, guarded), lv, 0, low, d) <==> len <= d
  {
    hide Round, Level;
    ChainRound(len, guarded, lv, low, d);
    FactsDiffer(if d < len then d + 1 else len, 0);
    if d > 0 {
      ChainRound(len, guarded, lv, low, d - 1);
      FactsDiffer(if d < len then d + 1 else len, if d - 1 < len then d else len);
    } else {
      assert Facts(0) == iset{};
    }
  }

  /** Above the chain nothing is ever derived. */
  lemma {:induction false} AboveIsEmpty(len: nat, guarded: bool, lv: nat -> nat, t: nat, low: Interp, k: nat)
    requires Level(lv, len, guarded) && t > 0 && Fact(0, []) in low
    ensures Round(Chain(len, guarded), lv, t, low, k) == iset{}
  {
    hide Derives;
    var p := Chain(len, guarded);
    if k > 0 { AboveIsEmpty(len, guarded, lv, t, low, k - 1); }
    var pos := if k == 0 then low else low + Round(p, lv, t, low, k - 1);
    forall f ensures !DerivedAt(p, lv, t, pos, low, f) {
      if r :| 0 <= r < |p.rules| && lv(p.rules[r].head.pred) == t && Derives(p.rules[r], pos, low, f) {
        RuleAt(len, guarded, r);
        GuardDerives(len, pos, low, f);
      }
    }
  }

  lemma {:induction false} InputStays(p: Program, lv: nat -> nat, t: nat)
    ensures Fact(0, []) in Stage(p, lv, Base(p, INPUTS), t)
  {
    hide Limit;
    if t > 0 { InputStays(p, lv, t - 1); }
  }

  /** The strata are final in time if and only if the chain is no longer than the rounds given. */
  lemma InTimeExactly(len: nat, guarded: bool, strata: seq<nat>, t: nat)
    requires len + 2 <= MAX_PREDICATES && OwnStrata(Chain(len, guarded), strata)
    ensures InTime(Chain(len, guarded), INPUTS, strata, t) <==> t > 0 || len <= RoundLimit(!guarded)
  {
    hide Round, Level, OwnStrata, RoundLimit;
    var p := Chain(len, guarded);
    var lv := LevelsOf(strata);
    OwnIsLevel(len, guarded, strata);
    if guarded { FlatStratifies(len, true); GuardIsAbove(len, Flat(len)); } else { Unguarded(len); }
    var low, d := Stage(p, lv, Base(p, INPUTS), t), RoundLimit(!guarded);
    InputStays(p, lv, t);
    if t == 0 {
      assert low == Base(p, INPUTS);
      ChainSettles(len, guarded, lv, low, d);
    } else {
      AboveIsEmpty(len, guarded, lv, t, low, d);
      if d > 0 { AboveIsEmpty(len, guarded, lv, t, low, d - 1); }
    }
  }

  /* ---------- the outcome ---------- */

  lemma ModelFits(len: nat, guarded: bool, m: Interp, bounds: Bounds)
    requires Stable(Chain(len, guarded), Base(Chain(len, guarded), INPUTS), m)
    requires bounds.capacity > len && bounds.perPredicate > 0
    ensures Fits(Chain(len, guarded), m, bounds)
  {
    hide Stable, Derives;
    var p := Chain(len, guarded);
    forall s: set<Fact> | DerivedIn(p, m, s)
      ensures |s| <= bounds.capacity && forall q :: |OfPredicate(s, q)| <= bounds.perPredicate
    {
      var all := set j | 1 <= j <= len + 1 :: Fact(j, []);
      forall f | f in s ensures f in all {
        assert f !in INPUTS;
        StableIsSupported(p, Base(p, INPUTS), m, f);
        var r :| 0 <= r < |p.rules| && Derives(p.rules[r], m, m, f);
        RuleAt(len, guarded, r);
        if r < len { LinkDerives(r, m, m, f); } else { GuardDerives(len, m, m, f); }
      }
      CountTo(len + 1);
      SubsetCount(s, all);
      forall q: nat ensures |OfPredicate(s, q)| <= 1 { SubsetCount(OfPredicate(s, q), {Fact(q, [])}); }
    }
  }

  lemma {:induction false} CountTo(n: nat)
    ensures |set j | 1 <= j <= n :: Fact(j, [])| <= n
  {
    var all := set j | 1 <= j <= n :: Fact(j, []);
    if n > 0 {
      CountTo(n - 1);
      assert all == (set j | 1 <= j <= n - 1 :: Fact(j, [])) + {Fact(n, [])};
    } else {
      assert all == {};
    }
  }

  lemma NothingUndecidable(len: nat, guarded: bool, r: nat, i: nat, s: Bindings, m: Interp)
    ensures !UndecidableIn(Chain(len, guarded), r, i, s, m)
  {
    hide MatchedBefore;
    if r < |Chain(len, guarded).rules| { RuleAt(len, guarded, r); }
  }

  /** A chain is solved if and only if it has at most nine links, or ten when a guard beside it,
      which derives nothing, makes the engine take the stratified path. */
  method ChainOutcome(len: nat, guarded: bool, bounds: Bounds) returns (out: Outcome)
    requires len + 2 <= MAX_PREDICATES && bounds.capacity > len && bounds.perPredicate > 0
    ensures out.Solved? <==> len <= if guarded then 10 else 9
    ensures !out.Solved? ==> out == DepthExceeded(0)
  {
    hide WellFormed, InputsOk, Stratifies, OwnStrata, InTime, Stable, Fits, UndecidableIn, Deserved, Stage;
    var p := Chain(len, guarded);
    ChainLoads(len, guarded);
    out := Solve(p, INPUTS, bounds);
    OutcomeIs(len, guarded, bounds, out);
  }

  lemma OutcomeIs(len: nat, guarded: bool, bounds: Bounds, out: Outcome)
    requires len + 2 <= MAX_PREDICATES && bounds.capacity > len && bounds.perPredicate > 0
    requires Deserved(Chain(len, guarded), INPUTS, bounds, out)
    ensures out.Solved? <==> len <= RoundLimit(!guarded)
    ensures !out.Solved? ==> out == DepthExceeded(0)
  {
    hide Stratifies, OwnStrata, InTime, Stable, Fits, UndecidableIn, Stage;
    var p := Chain(len, guarded);
    forall strata: seq<nat>, t: nat | OwnStrata(p, strata)
      ensures InTime(p, INPUTS, strata, t) <==> t > 0 || len <= RoundLimit(!guarded)
    {
      InTimeExactly(len, guarded, strata, t);
    }
    FlatStratifies(len, guarded);
    HeadsAreLow(len, guarded);
    var m := Stage(p, Flat(len), Base(p, INPUTS), 2);
    PerfectIsStable(p, Flat(len), Base(p, INPUTS), 2);
    ModelFits(len, guarded, m, bounds);
    forall r: nat, i: nat, s: Bindings ensures !UndecidableIn(p, r, i, s, m) { NothingUndecidable(len, guarded, r, i, s, m); }
    assert !TooDeepForAll(p) by { assert !NeedsLevel(Flat(len), MAX_STRATA + 1); }
    if out.Solved? {
      var strata: seq<nat> :| OwnStrata(p, strata) && forall q :: 0 <= q < |strata| ==> InTime(p, INPUTS, strata, strata[q]);
      OwnIsLevel(len, guarded, strata);
      OwnLength(p, strata);
      assert strata[0] == 0;
    } else if len <= RoundLimit(!guarded) {
      MustSolve(p, INPUTS, bounds, out, m);
    }
  }

  lemma OwnLength(p: Program, strata: seq<nat>)
    requires OwnStrata(p, strata)
    ensures |strata| == MAX_PREDICATES && LevelsOf(strata)(0) == strata[0]
  {
  }

  lemma HeadsAreLow(len: nat, guarded: bool)
    ensures HeadsBelow(Chain(len, guarded), Flat(len), 2)
  {
  }
}
