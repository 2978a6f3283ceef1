/**
 What comparisons and arithmetic decide, in the words of arithmetic, and what a guard therefore
 lets through: in the stable model of a guarded rule, and in a solve by the engine.
 */
module Guards {
  import opened Datalog
  import opened Strata
  import opened Safety
  import opened Semantics
  import opened Evaluation
  import opened FactOrder
  import opened SemiNaive
  import opened Solver
  import opened Refusals
  import opened Fixpoint

  /* ---------- expressions ---------- */

  /** Every variable of the expression stands for an integer. */
  ghost predicate Numeric(e: Expr, s: Bindings) {
    forall v :: v in ExprVars(e) ==> v in s && s[v].Integer?
  }

  /** The value of an expression over the unbounded integers. */
  ghost function Exact(e: Expr, s: Bindings): int
    requires Numeric(e, s)
  {
    match e
    case IntLit(n) => n
    case VarRef(v) => assert v in ExprVars(e); s[v].i
    case Add(l, r) => Exact(l, s) + Exact(r, s)
    case Sub(l, r) => Exact(l, s) - Exact(r, s)
    case Mul(l, r) => Exact(l, s) * Exact(r, s)
  }

  /** No intermediate result leaves the 64-bit integers. */
  ghost predicate Within(e: Expr, s: Bindings)
    requires Numeric(e, s)
  {
    match e
    case IntLit(_) => true
    case VarRef(_) => true
    case Add(l, r) => Within(l, s) && Within(r, s) && -9223372036854775808 <= Exact(e, s) <= 9223372036854775807
    case Sub(l, r) => Within(l, s) && Within(r, s) && -9223372036854775808 <= Exact(e, s) <= 9223372036854775807
    case Mul(l, r) => Within(l, s) && Within(r, s) && -9223372036854775808 <= Exact(e, s) <= 9223372036854775807
  }

  /** Arithmetic gives the exact value, or none if something is no integer or overflows. */
  lemma {:induction false} EvaluatesExactly(e: Expr, s: Bindings)
    ensures EvalExpr(e, s) == if Numeric(e, s) && Within(e, s) then Some(Exact(e, s)) else None
  {
    match e {
      case IntLit(_) =>
      case VarRef(v) => assert v in ExprVars(e);
      case Add(l, r) => Both(e, l, r, s); EvaluatesExactly(l, s); EvaluatesExactly(r, s);
      case Sub(l, r) => Both(e, l, r, s); EvaluatesExactly(l, s); EvaluatesExactly(r, s);
      case Mul(l, r) => Both(e, l, r, s); EvaluatesExactly(l, s); EvaluatesExactly(r, s);
    }
  }

  lemma Both(e: Expr, l: Expr, r: Expr, s: Bindings)
    requires ExprVars(e) == ExprVars(l) + ExprVars(r)
    ensures Numeric(e, s) <==> Numeric(l, s) && Numeric(r, s)
  {
  }

  /* ---------- comparisons ---------- */

  predicate Related(op: CmpOp, x: int, y: int) {
    match op
    case Eq => x == y
    case Neq => x != y
    case Lt => x < y
    case Lte => x <= y
    case Gt => x > y
    case Gte => x >= y
  }

  ghost predicate ComparableValues(op: CmpOp, x: Value, y: Value) {
    || (x.Integer? && y.Integer?)
    || (op in {Eq, Neq} && ((x.Symbol? && y.Symbol?) || (x.Boolean? && y.Boolean?)))
  }

  ghost predicate IsGuard(g: Literal) {
    g.Comparison? || g.Arithmetic?
  }

  ghost predicate HasValue(t: Term, s: Bindings) {
    t.Const? || t.v in s
  }

  ghost function ValueOf(t: Term, s: Bindings): Value
    requires HasValue(t, s)
  {
    if t.Const? then t.c else s[t.v]
  }

  /** Whether a guard can be decided at all. */
  ghost predicate Decidable(g: Literal, s: Bindings)
    requires IsGuard(g)
  {
    if g.Comparison? then
      HasValue(g.lhs, s) && HasValue(g.rhs, s) && ComparableValues(g.op, ValueOf(g.lhs, s), ValueOf(g.rhs, s))
    else
      Numeric(g.lexpr, s) && Numeric(g.rexpr, s) && Within(g.lexpr, s) && Within(g.rexpr, s)
  }

  /** Whether it then holds. */
  ghost predicate Holds(g: Literal, s: Bindings)
    requires IsGuard(g) && Decidable(g, s)
  {
    if g.Arithmetic? then Related(g.op, Exact(g.lexpr, s), Exact(g.rexpr, s))
    else
      var x, y := ValueOf(g.lhs, s), ValueOf(g.rhs, s);
      if x.Integer? && y.Integer? then Related(g.op, x.i, y.i) else if g.op == Eq then x == y else x != y
  }

  /** The engine's verdict on a guard is what arithmetic says, and fatal exactly where arithmetic
      says nothing. */
  lemma GuardMeans(g: Literal, s: Bindings)
    requires IsGuard(g)
    ensures EvalComparison(g, s) == if !Decidable(g, s) then Fatal else if Holds(g, s) then Yes else No
  {
    hide EvalExpr, Numeric, Within, Exact;
    if g.Arithmetic? {
      EvaluatesExactly(g.lexpr, s);
      EvaluatesExactly(g.rexpr, s);
    }
  }

  /* ---------- a guarded rule ---------- */

  /** The variables 0 to n - 1. */
  function Variables(n: nat): (r: seq<Term>)
    ensures |r| == n && forall i :: 0 <= i < n ==> r[i] == Var(i)
  {
    seq(n, i requires 0 <= i < n => Var(i))
  }

  function Bind(values: seq<Value>): (s: Bindings)
    ensures forall v: nat :: v in s <==> v < |values|
    ensures forall v: nat :: v in s ==> s[v] == values[v]
  {
    map v: nat | v < |values| :: values[v]
  }

  /** out(X0, X1, ...) if in(X0, X1, ...) and the guard. */
  function Guarded(n: nat, g: Literal): Rule {
    Rule(Atom(1, Variables(n)), [Positive(Atom(0, Variables(n))), g])
  }

  function Policy(n: nat, g: Literal): Program {
    Program([Edb, Idb], [Guarded(n, g)], [])
  }

  ghost predicate Fitting(n: nat, g: Literal) {
    IsGuard(g) && forall v :: v in Needs(g) ==> v < n
  }

  lemma VariablesAre(n: nat, v: nat)
    ensures v in TermsVars(Variables(n)) <==> v < n
  {
    if v < n { assert Variables(n)[v] == Var(v); }
  }

  lemma GuardedVars(n: nat, g: Literal)
    requires IsGuard(g)
    ensures BodyVars(Guarded(n, g).body) == TermsVars(Variables(n))
  {
    var body := Guarded(n, g).body;
    assert body[..1][..0] == [] && body[..1] == [Positive(Atom(0, Variables(n)))];
    assert BodyVars(body[..1]) == BodyVars([]) + Binds(body[0]);
  }

  lemma GroundBound(n: nat, q: nat, s: Bindings)
    requires forall v: nat :: v in s <==> v < n
    ensures TermsBound(Variables(n), s) && Ground(Atom(q, Variables(n)), s) == Fact(q, Ground(Atom(0, Variables(n)), s).values)
    ensures |Ground(Atom(q, Variables(n)), s).values| == n
    ensures s == Bind(Ground(Atom(q, Variables(n)), s).values)
  {
    var f := Ground(Atom(q, Variables(n)), s);
    forall v | v in s ensures Bind(f.values)[v] == s[v] { assert f.values[v] == s[v]; }
  }

  lemma BoundGround(n: nat, q: nat, values: seq<Value>)
    requires |values| == n
    ensures TermsBound(Variables(n), Bind(values)) && Ground(Atom(q, Variables(n)), Bind(values)) == Fact(q, values)
  {
    assert Ground(Atom(q, Variables(n)), Bind(values)).values == values;
  }

  lemma GuardedDerives(n: nat, g: Literal, pos: Interp, neg: Interp, f: Fact)
    requires Fitting(n, g)
    ensures Derives(Guarded(n, g), pos, neg, f) <==>
              f.pred == 1 && |f.values| == n && Fact(0, f.values) in pos && EvalComparison(g, Bind(f.values)) == Yes
  {
    hide TermsBound, Ground, TermsVars, BodyVars, EvalComparison;
    var rule := Guarded(n, g);
    GuardedVars(n, g);
    if Derives(rule, pos, neg, f) {
      var s :| Instance(rule, s, pos, neg, f);
      forall v: nat ensures v in s <==> v < n { VariablesAre(n, v); assert v in s <==> v in s.Keys; }
      GroundBound(n, 1, s);
      assert LiteralHolds(rule.body[0], s, pos, neg) && LiteralHolds(rule.body[1], s, pos, neg);
      assert s == Bind(f.values);
      BoundGround(n, 0, f.values);
    }
    if f.pred == 1 && |f.values| == n && Fact(0, f.values) in pos && EvalComparison(g, Bind(f.values)) == Yes {
      var s := Bind(f.values);
      BoundGround(n, 0, f.values);
      BoundGround(n, 1, f.values);
      assert s.Keys == TermsVars(Variables(n)) by {
        forall v: nat ensures v in s.Keys <==> v in TermsVars(Variables(n)) { VariablesAre(n, v); }
      }
      assert Instance(rule, s, pos, neg, f);
    }
  }

  /** What the guard lets through, in the words of arithmetic. */
  ghost predicate LetThrough(n: nat, g: Literal, edb: seq<Fact>, f: Fact)
    requires IsGuard(g)
  {
    f.pred == 1 && |f.values| == n && Fact(0, f.values) in edb && Decidable(g, Bind(f.values)) && Holds(g, Bind(f.values))
  }

  lemma DerivesLetThrough(n: nat, g: Literal, edb: seq<Fact>, pos: Interp, neg: Interp, f: Fact)
    requires Fitting(n, g) && forall h: Fact :: h.pred == 0 ==> (h in pos <==> h in edb)
    ensures Derives(Guarded(n, g), pos, neg, f) <==> LetThrough(n, g, edb, f)
  {
    hide Derives, EvalComparison, Decidable, Holds;
    GuardedDerives(n, g, pos, neg, f);
    GuardMeans(g, Bind(f.values));
  }

  /** For every guard over any expressions, and all inputs: in the stable model the head predicate
      holds exactly of the inputs for which the guard is true. */
  lemma GuardedModel(n: nat, g: Literal, edb: seq<Fact>, m: Interp)
    requires Fitting(n, g) && InputsOk(Policy(n, g), edb) && Stable(Policy(n, g), Base(Policy(n, g), edb), m)
    ensures forall f :: f in m <==> f in edb || LetThrough(n, g, edb, f)
  {
    hide Derives, LetThrough;
    var p := Policy(n, g);
    var x: Interp := iset f | f in edb || LetThrough(n, g, edb, f);
    LetThroughHeads(n, g, edb);
    InputsAre(n, g, edb);
    assert Closed(p, x, m) by {
      forall r, f | 0 <= r < |p.rules| && Derives(p.rules[r], x, m, f) ensures f in x { DerivesLetThrough(n, g, edb, x, m, f); }
    }
    assert Base(p, edb) <= x && m <= x;
    forall f | f in x ensures f in m {
      if f !in edb {
        DerivesLetThrough(n, g, edb, m, m, f);
        assert Derives(p.rules[0], m, m, f);
      }
    }
  }

  lemma InputsAre(n: nat, g: Literal, edb: seq<Fact>)
    requires InputsOk(Policy(n, g), edb)
    ensures forall f :: f in edb ==> f.pred == 0
  {
    forall f | f in edb ensures f.pred == 0 {
      var i :| 0 <= i < |edb| && edb[i] == f;
      assert HasKind(Policy(n, g), edb[i].pred, Edb);
    }
  }

  lemma LetThroughHeads(n: nat, g: Literal, edb: seq<Fact>)
    requires IsGuard(g)
    ensures forall f :: LetThrough(n, g, edb, f) ==> f.pred == 1
  {
  }

  /* ---------- a solve ---------- */

  lemma PolicyLoads(n: nat, g: Literal)
    requires Fitting(n, g)
    ensures WellFormed(Policy(n, g)) && !NeedsStrata(Policy(n, g)) && !TooDeepForAll(Policy(n, g))
    ensures Stratifies(Policy(n, g), LevelsOf(ZERO_STRATA)) && HeadsBelow(Policy(n, g), LevelsOf(ZERO_STRATA), 1)
  {
    hide TooDeepForAll, Stratifies;
    var p, rule := Policy(n, g), Guarded(n, g);
    GuardedVars(n, g);
    forall v | v in Needs(g) ensures v in BodyVars(rule.body) { VariablesAre(n, v); }
    assert SafeRule(rule);
    assert WellFormedRule(p, p.rules[0]);
    PositiveStratifies(p);
    OwnIsOwn(p, ZERO_STRATA, 0);
  }

  lemma GuardedSettles(n: nat, g: Literal, strata: nat -> nat, t: nat, low: Interp)
    requires Fitting(n, g)
    ensures SettlesBy(Policy(n, g), strata, t, low, 1)
  {
    hide Derives;
    var p := Policy(n, g);
    var first := Round(p, strata, t, low, 0);
    forall f | f in first ensures f.pred == 1 { GuardedDerives(n, g, low, low, f); }
    forall f | f in Consequences(p, strata, t, low + first, low) ensures f in first {
      GuardedDerives(n, g, low + first, low, f);
      GuardedDerives(n, g, low, low, f);
    }
    assert Round(p, strata, t, low, 1) == first + Consequences(p, strata, t, low + first, low);
  }

  lemma GuardedInTime(n: nat, g: Literal, edb: seq<Fact>, strata: seq<nat>, t: nat)
    requires Fitting(n, g)
    ensures InTime(Policy(n, g), edb, strata, t)
  {
    hide SettlesBy;
    var p := Policy(n, g);
    var low := Stage(p, LevelsOf(strata), Base(p, edb), t);
    GuardedSettles(n, g, LevelsOf(strata), t, low);
    SettlesLater(p, LevelsOf(strata), t, low, 1, RoundLimit(!NeedsStrata(p)));
  }

  ghost function Sources(s: set<Fact>): set<Fact> {
    set f | f in s :: Fact(0, f.values)
  }

  lemma {:induction false} SourcesSize(s: set<Fact>)
    requires forall f :: f in s ==> f.pred == 1
    ensures |Sources(s)| == |s|
  {
    if s != {} {
      var f :| f in s;
      SourcesSize(s - {f});
      assert Sources(s) == Sources(s - {f}) + {Fact(0, f.values)};
      assert Fact(0, f.values) !in Sources(s - {f}) by {
        forall h | h in s - {f} ensures h.values != f.values { assert h == Fact(1, h.values) && f == Fact(1, f.values); }
      }
    }
  }

  lemma GuardedFits(n: nat, g: Literal, edb: seq<Fact>, m: Interp, bounds: Bounds)
    requires Fitting(n, g) && InputsOk(Policy(n, g), edb) && |edb| <= bounds.capacity && |edb| <= bounds.perPredicate
    requires forall f :: f in m <==> f in edb || LetThrough(n, g, edb, f)
    ensures Fits(Policy(n, g), m, bounds)
  {
    hide Decidable, Holds;
    InputsAre(n, g, edb);
    forall s: set<Fact> | DerivedIn(Policy(n, g), m, s)
      ensures |s| <= bounds.capacity && forall q :: |OfPredicate(s, q)| <= bounds.perPredicate
    {
      forall f | f in s ensures f.pred == 1 && Fact(0, f.values) in edb { assert HasKind(Policy(n, g), f.pred, Idb); }
      SourcesSize(s);
      SubsetCount(Sources(s), FactSet(edb));
      AtMost(edb);
      forall q: nat ensures |OfPredicate(s, q)| <= bounds.perPredicate { SubsetCount(OfPredicate(s, q), s); }
    }
  }

  lemma {:induction false} AtMost(edb: seq<Fact>)
    ensures |FactSet(edb)| <= |edb|
  {
    if edb != [] {
      AtMost(edb[..|edb| - 1]);
      assert FactSet(edb) == FactSet(edb[..|edb| - 1]) + {edb[|edb| - 1]};
    }
  }

  /** A guard that cannot be decided for some input is a deadlock. */
  lemma UndecidableInput(n: nat, g: Literal, m: Interp, f: Fact)
    requires Fitting(n, g) && f in m && f.pred == 0 && |f.values| == n && !Decidable(g, Bind(f.values))
    ensures Deadlock(Policy(n, g), 0, 1, Bind(f.values), m, m)
  {
    hide Decidable, EvalComparison;
    BoundGround(n, 0, f.values);
    GuardMeans(g, Bind(f.values));
    var body := Guarded(n, g).body;
    assert LiteralHolds(body[0], Bind(f.values), m, m);
  }

  /** The engine only ever comes to the guard with the values of an input, or, where the guard
      reads no variable, with none. */
  lemma GuardReached(n: nat, g: Literal, r: nat, i: nat, s: Bindings, m: Interp)
    requires Fitting(n, g) && UndecidableIn(Policy(n, g), r, i, s, m)
    ensures !Decidable(g, s)
    ensures (Needs(g) == {} && s == map[]) || exists f :: f in m && f.pred == 0 && |f.values| == n && s == Bind(f.values)
  {
    hide Decidable, EvalComparison, TermsBound, Ground, TermsVars;
    var body := Guarded(n, g).body;
    assert r == 0 && i == 1;
    GuardMeans(g, s);
    var done: set<nat> :| 1 !in done && PartialMatch(body, done, s, m, m);
    if 0 in done {
      assert LiteralHolds(body[0], s, m, m);
      forall x: nat ensures x in s <==> x < n {
        VariablesAre(n, x);
        assert x in s.Keys <==> exists k :: k in done && k < |body| && x in Binds(body[k]);
        assert x in Binds(body[0]) <==> x < n;
      }
      GroundBound(n, 0, s);
      var f := Ground(Atom(0, Variables(n)), s);
      assert f in m && f.pred == 0 && |f.values| == n && s == Bind(f.values);
    } else {
      forall k | k in done ensures k >= 2 { assert k != 0 && k != 1; }
      assert s.Keys == {};
    }
  }

  /** The engine on a guarded rule, for every guard and all inputs. It lists exactly what arithmetic
      lets through, and refuses exactly if the guard cannot be decided for some input; a guard
      over constants alone may also be refused before any input is looked at. */
  method SolveGuarded(n: nat, g: Literal, edb: seq<Fact>, bounds: Bounds) returns (out: Outcome)
    requires Fitting(n, g) && InputsOk(Policy(n, g), edb) && forall f :: f in edb ==> |f.values| == n
    requires |edb| <= bounds.capacity && |edb| <= bounds.perPredicate
    ensures out.Solved? ==> Ascending(out.facts) && forall f :: f in out.facts <==> LetThrough(n, g, edb, f)
    ensures out.Solved? ==> forall f :: f in edb ==> Decidable(g, Bind(f.values))
    ensures (forall f :: f in edb ==> Decidable(g, Bind(f.values))) && (Needs(g) == {} ==> Decidable(g, map[])) ==> out.Solved?
  {
    hide Deserved, Decidable, Holds, InputsOk, WellFormed, TooDeepForAll, Stratifies;
    PolicyLoads(n, g);
    out := Solve(Policy(n, g), edb, bounds);
    GuardedOutcome(n, g, edb, bounds, out);
  }

  lemma GuardedOutcome(n: nat, g: Literal, edb: seq<Fact>, bounds: Bounds, out: Outcome)
    requires Fitting(n, g) && InputsOk(Policy(n, g), edb) && forall f :: f in edb ==> |f.values| == n
    requires |edb| <= bounds.capacity && |edb| <= bounds.perPredicate && Deserved(Policy(n, g), edb, bounds, out)
    ensures out.Solved? ==> Ascending(out.facts) && forall f :: f in out.facts <==> LetThrough(n, g, edb, f)
    ensures out.Solved? ==> forall f :: f in edb ==> Decidable(g, Bind(f.values))
    ensures (forall f :: f in edb ==> Decidable(g, Bind(f.values))) && (Needs(g) == {} ==> Decidable(g, map[])) ==> out.Solved?
  {
    hide Stable, Decidable, Holds, Stage, Stratifies, TooDeepForAll, OwnStrata, InTime, UndecidableIn, Deadlock, Fits, LetThrough,
         Ascending, WellFormed, InputsOk, Needs;
    var p := Policy(n, g);
    PolicyLoads(n, g);
    PerfectIsStable(p, LevelsOf(ZERO_STRATA), Base(p, edb), 1);
    var m := Stage(p, LevelsOf(ZERO_STRATA), Base(p, edb), 1);
    GuardedModel(n, g, edb, m);
    InputsAre(n, g, edb);
    if out.Solved? {
      forall f | f in edb ensures Decidable(g, Bind(f.values)) {
        if !Decidable(g, Bind(f.values)) {
          UndecidableInput(n, g, m, f);
          MustRefuse(p, edb, bounds, out, m, 0, 1, Bind(f.values));
        }
      }
      ListsLetThrough(n, g, edb, out.facts, m);
    }
    if (forall f :: f in edb ==> Decidable(g, Bind(f.values))) && (Needs(g) == {} ==> Decidable(g, map[])) {
      GuardedFits(n, g, edb, m, bounds);
      forall r: nat, i: nat, s: Bindings ensures !UndecidableIn(p, r, i, s, m) { NeverUndecidable(n, g, edb, m, r, i, s); }
      forall strata: seq<nat>, t: nat ensures InTime(p, edb, strata, t) { GuardedInTime(n, g, edb, strata, t); }
      MustSolve(p, edb, bounds, out, m);
    }
  }

  lemma NeverUndecidable(n: nat, g: Literal, edb: seq<Fact>, m: Interp, r: nat, i: nat, s: Bindings)
    requires Fitting(n, g) && forall f :: f in m <==> f in edb || LetThrough(n, g, edb, f)
    requires (forall f :: f in edb ==> Decidable(g, Bind(f.values))) && (Needs(g) == {} ==> Decidable(g, map[]))
    ensures !UndecidableIn(Policy(n, g), r, i, s, m)
  {
    hide UndecidableIn, Decidable, Needs, LetThrough;
    if UndecidableIn(Policy(n, g), r, i, s, m) {
      GuardReached(n, g, r, i, s, m);
      LetThroughHeads(n, g, edb);
    }
  }

  lemma ListsLetThrough(n: nat, g: Literal, edb: seq<Fact>, facts: seq<Fact>, m: Interp)
    requires IsGuard(g) && AllDerived(Policy(n, g), facts) && m == Answer(Policy(n, g), edb, facts)
    requires (forall f :: f in edb ==> f.pred == 0) && forall f :: f in m <==> f in edb || LetThrough(n, g, edb, f)
    ensures forall f :: f in facts <==> LetThrough(n, g, edb, f)
  {
    hide LetThrough;
    LetThroughHeads(n, g, edb);
    forall f ensures f in facts <==> LetThrough(n, g, edb, f) {
      if f in facts {
        var i :| 0 <= i < |facts| && facts[i] == f;
        assert HasKind(Policy(n, g), facts[i].pred, Idb);
      }
    }
  }
}
