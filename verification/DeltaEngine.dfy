/**
 The provider against the native engine: from the same inputs and under the same limits both
 succeed or neither does, and they derive the same facts in the same order.
 */
module DeltaEngine {
  import opened Datalog
  import opened Strata
  import opened Safety
  import opened Semantics
  import opened Evaluation
  import opened FactOrder
  import opened Solver
  import opened Fixpoint
  import opened DeltaStage
  import opened DeltaBackend
  import opened DeltaProjection
  import opened Registry

  /** A policy that both have loaded: accepted by the provider, well formed for the engine, over
      one registry. */
  ghost predicate Loaded(host: Host, defs: seq<Entry>, p: Program) {
    && NamesDiffer(defs) && Serves(host, defs) && IsProjection(p, host.name) && WellFormed(p)
    && |p.kinds| == |defs| && (forall q :: 0 <= q < |defs| ==> p.kinds[q] == KindOf(defs[q].flags))
    && forall r :: 0 <= r < |p.rules| ==> RuleHasShape(defs, p.rules[r])
  }

  /** Inputs as a session holds them: in canonical order, of input predicates, at their arity. */
  ghost predicate Held(defs: seq<Entry>, p: Program, inputs: seq<Fact>) {
    && InputsOk(p, inputs)
    && forall i :: 0 <= i < |inputs| ==> inputs[i].pred < |defs| && |inputs[i].values| == defs[inputs[i].pred].arity
  }

  function InputName(host: Host, p: Program): string
    requires |p.rules| == 1 && |p.rules[0].body| == 1 && p.rules[0].body[0].Positive?
  {
    host.name(p.rules[0].body[0].atom.pred)
  }

  function OutputName(host: Host, p: Program): string
    requires |p.rules| == 1
  {
    host.name(p.rules[0].head.pred)
  }

  lemma LoadedTyped(host: Host, defs: seq<Entry>, p: Program, inputs: seq<Fact>)
    requires Loaded(host, defs, p) && Held(defs, p, inputs)
    ensures Typed(p, host.kind, inputs) && HasShape(defs, p, inputs)
  {
    forall r | 0 <= r < |p.rules| ensures host.kind(p.rules[r].head.pred) == Idb { assert WellFormedRule(p, p.rules[r]); }
    forall i | 0 <= i < |p.facts| ensures host.kind(p.facts[i].pred) == Policy { assert HasKind(p, p.facts[i].pred, Policy); }
    forall i | 0 <= i < |inputs| ensures host.kind(inputs[i].pred) == Edb { assert HasKind(p, inputs[i].pred, Edb); }
  }

  /* ---------- the engine on a projection ---------- */

  /** Copying is done after one round, even where the rule reads its own head. */
  lemma CopiesSettle(p: Program, name: nat -> string, strata: nat -> nat, n: nat, low: Interp)
    requires IsProjection(p, name)
    ensures SettlesBy(p, strata, n, low, 1)
  {
    hide Derives;
    var first := Round(p, strata, n, low, 0);
    var rule := p.rules[0];
    forall f | f in Consequences(p, strata, n, low + first, low) ensures f in first {
      RepeatsDerives(rule, low + first, low, f);
      var g := Fact(rule.body[0].atom.pred, f.values);
      if g in low {
        RepeatsDerives(rule, low, low, f);
      } else {
        RepeatsDerives(rule, low, low, g);
      }
    }
    assert Round(p, strata, n, low, 1) == first + Consequences(p, strata, n, low + first, low);
  }

  lemma CopiesInTime(p: Program, name: nat -> string, inputs: seq<Fact>, strata: seq<nat>, t: nat)
    requires IsProjection(p, name)
    ensures InTime(p, inputs, strata, t)
  {
    hide SettlesBy, IsProjection;
    var low := Stage(p, LevelsOf(strata), Base(p, inputs), t);
    CopiesSettle(p, name, LevelsOf(strata), t, low);
    SettlesLater(p, LevelsOf(strata), t, low, 1, RoundLimit(!NeedsStrata(p)));
  }

  lemma CopiesLoad(p: Program, name: nat -> string)
    requires IsProjection(p, name)
    ensures !NeedsStrata(p) && !TooDeepForAll(p) && Stratifies(p, LevelsOf(ZERO_STRATA))
    ensures HeadsBelow(p, LevelsOf(ZERO_STRATA), 1)
  {
    hide TooDeepForAll, Stratifies;
    PositiveStratifies(p);
    OwnIsOwn(p, ZERO_STRATA, 0);
  }

  lemma CopiesDecidable(p: Program, name: nat -> string, r: nat, i: nat, s: Bindings, m: Interp)
    requires IsProjection(p, name)
    ensures !UndecidableIn(p, r, i, s, m)
  {
  }

  /* ---------- one result ---------- */

  lemma DerivedAreHeads(p: Program, name: nat -> string, inputs: seq<Fact>, m: Interp, f: Fact)
    requires IsProjection(p, name) && WellFormed(p) && InputsOk(p, inputs) && Stable(p, Base(p, inputs), m)
    requires m == Completed(p, inputs)
    ensures f in m && HasKind(p, f.pred, Idb) <==> f in HeadFacts(p, m)
  {
    assert WellFormedRule(p, p.rules[0]);
  }

  /** The engine's limits and the provider's admit the same results. */
  lemma SameLimits(host: Host, p: Program, m: Interp, image: set<Fact>)
    requires forall f :: f in image <==> f in m && HasKind(p, f.pred, Idb)
    ensures Fits(p, m, Bounds(host.derivedFacts, host.perPredicate)) <==> OutputFits(host, image)
  {
    if Fits(p, m, Bounds(host.derivedFacts, host.perPredicate)) {
      assert DerivedIn(p, m, image);
    }
    if OutputFits(host, image) {
      forall s: set<Fact> | DerivedIn(p, m, s) ensures OutputFits(host, s) {
        assert s <= image;
        FitsSubset(host, s, image);
      }
    }
  }

  lemma ImageIsDerived(host: Host, defs: seq<Entry>, p: Program, inputs: seq<Fact>, m: Interp)
    requires Loaded(host, defs, p) && Held(defs, p, inputs) && Stable(p, Base(p, inputs), m)
    ensures AllEmittable(host, InputName(host, p), OutputName(host, p), inputs)
    ensures forall f :: f in Image(host, InputName(host, p), OutputName(host, p), inputs) <==> f in m && HasKind(p, f.pred, Idb)
  {
    hide Stable, AllEmittable, Image, HeadFacts, Completed, WellFormed, InputsOk;
    LoadedTyped(host, defs, p, inputs);
    RegistryEmission(host, defs, p, inputs, m);
    ProjectionIsMeaning(p, host.name, host.kind, inputs, m);
    forall f: Fact ensures f in Image(host, InputName(host, p), OutputName(host, p), inputs) <==> f in m && HasKind(p, f.pred, Idb) {
      DerivedAreHeads(p, host.name, inputs, m, f);
    }
  }

  lemma ListedFacts(p: Program, inputs: seq<Fact>, facts: seq<Fact>, image: set<Fact>)
    requires WellFormed(p) && InputsOk(p, inputs) && Ascending(facts) && AllDerived(p, facts)
    requires forall f :: f in image <==> f in Answer(p, inputs, facts) && HasKind(p, f.pred, Idb)
    ensures facts == Listing(image)
  {
    assert FactSet(facts) == image by {
      forall f ensures f in FactSet(facts) <==> f in image {
        if f in facts { var i :| 0 <= i < |facts| && facts[i] == f; }
      }
    }
    AscendingUnique(facts, Listing(image));
  }

  /** Whatever inputs a session holds: the engine, under the provider's limits, solves exactly
      what the provider can emit, and lists exactly the facts that it emits. */
  lemma ProviderMatchesEngine(host: Host, defs: seq<Entry>, p: Program, inputs: seq<Fact>, out: Outcome)
    requires Loaded(host, defs, p) && Held(defs, p, inputs)
    requires Deserved(p, inputs, Bounds(host.derivedFacts, host.perPredicate), out)
    ensures AllEmittable(host, InputName(host, p), OutputName(host, p), inputs)
    ensures out.Solved? <==> OutputFits(host, Image(host, InputName(host, p), OutputName(host, p), inputs))
    ensures out.Solved? ==> out.facts == Listing(Image(host, InputName(host, p), OutputName(host, p), inputs))
  {
    var image := Image(host, InputName(host, p), OutputName(host, p), inputs);
    hide Stable, AllEmittable, Image, IsProjection, Fits, OutputFits, TooDeepForAll, OwnStrata, InTime, UndecidableIn,
         Stage, Stratifies, Ascending, WellFormed, InputsOk, Answer, RuleHasShape, Serves, NamesDiffer;
    var bounds := Bounds(host.derivedFacts, host.perPredicate);
    CopiesLoad(p, host.name);
    PerfectIsStable(p, LevelsOf(ZERO_STRATA), Base(p, inputs), 1);
    var m := Stage(p, LevelsOf(ZERO_STRATA), Base(p, inputs), 1);
    ImageIsDerived(host, defs, p, inputs, m);
    SameLimits(host, p, m, image);
    if Fits(p, m, bounds) {
      forall r: nat, i: nat, s: Bindings ensures !UndecidableIn(p, r, i, s, m) { CopiesDecidable(p, host.name, r, i, s, m); }
      forall strata: seq<nat>, t: nat ensures InTime(p, inputs, strata, t) { CopiesInTime(p, host.name, inputs, strata, t); }
      MustSolve(p, inputs, bounds, out, m);
    }
    if out.Solved? {
      assert m == Answer(p, inputs, out.facts);
      ListedFacts(p, inputs, out.facts, image);
    }
  }
}
