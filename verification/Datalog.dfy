/**
 The compiled form of a policy: values, terms, atoms, body literals and rules, the
 variable bindings of one rule application, and the evaluation of the literals that
 look at bindings only (comparisons and arithmetic).
 */
module Datalog {

  /** Variables below this index are the ones a policy names; the rest are the
      anonymous variables the parser invents. */
  const NAMED_VARIABLE_COUNT: nat := 26

  /** Largest integer an aggregate may read or produce. */
  const MAX_INT: int := 2147483647

  const MIN_INT64: int := -0x8000_0000_0000_0000
  const MAX_INT64: int := 0x7fff_ffff_ffff_ffff

  datatype Option<+T> = None | Some(value: T)

  datatype Value = Symbol(id: nat) | Integer(i: int) | Boolean(b: bool)

  datatype Term = Var(v: nat) | Const(c: Value)

  datatype Atom = Atom(pred: nat, terms: seq<Term>)

  datatype Fact = Fact(pred: nat, values: seq<Value>)

  datatype CmpOp = Eq | Neq | Lt | Lte | Gt | Gte

  datatype Expr =
    | IntLit(n: int)
    | VarRef(v: nat)
    | Add(left: Expr, right: Expr)
    | Sub(left: Expr, right: Expr)
    | Mul(left: Expr, right: Expr)

  datatype AggKind = Count | Min | Max | Sum

  datatype Literal =
    | Positive(atom: Atom)
    | Negated(atom: Atom)
    | Comparison(op: CmpOp, lhs: Term, rhs: Term)
    | Arithmetic(op: CmpOp, lexpr: Expr, rexpr: Expr)
    | Aggregate(kind: AggKind, projection: nat, atom: Atom, output: nat)

  datatype Rule = Rule(head: Atom, body: seq<Literal>)

  /** The registry gives every predicate exactly one of these roles. */
  datatype Kind = Edb | Idb | Policy

  datatype Program = Program(kinds: seq<Kind>, rules: seq<Rule>, facts: seq<Fact>)

  /* ---------- variables ---------- */

  function TermVars(t: Term): set<nat> {
    match t
    case Var(v) => {v}
    case Const(_) => {}
  }

  function TermsVars(ts: seq<Term>): set<nat> {
    set i | 0 <= i < |ts| && ts[i].Var? :: ts[i].v
  }

  function ExprVars(e: Expr): set<nat> {
    match e
    case IntLit(_) => {}
    case VarRef(v) => {v}
    case Add(l, r) => ExprVars(l) + ExprVars(r)
    case Sub(l, r) => ExprVars(l) + ExprVars(r)
    case Mul(l, r) => ExprVars(l) + ExprVars(r)
  }

  /** The group keys of an aggregate: the named variables of its source atom other
      than the projected one. */
  function GroupKeys(l: Literal): set<nat>
    requires l.Aggregate?
  {
    set v | v in TermsVars(l.atom.terms) && v < NAMED_VARIABLE_COUNT && v != l.projection
  }

  /** Variables that are private to an aggregate: the projected one and the anonymous
      variables of its source atom. */
  function Locals(l: Literal): set<nat>
    requires l.Aggregate?
  {
    (set v | v in TermsVars(l.atom.terms) && v >= NAMED_VARIABLE_COUNT) + {l.projection}
  }

  /** Variables a literal must find bound before it can be evaluated. */
  function Needs(l: Literal): set<nat> {
    match l
    case Positive(_) => {}
    case Negated(a) => TermsVars(a.terms)
    case Comparison(_, x, y) => TermVars(x) + TermVars(y)
    case Arithmetic(_, x, y) => ExprVars(x) + ExprVars(y)
    case Aggregate(_, _, _, _) => GroupKeys(l)
  }

  /** Variables a literal binds. */
  function Binds(l: Literal): set<nat> {
    match l
    case Positive(a) => TermsVars(a.terms)
    case Aggregate(_, _, _, o) => {o}
    case _ => {}
  }

  /** Variables bound by the positive atoms of a body. */
  function PositiveVars(body: seq<Literal>): set<nat> {
    if body == [] then {}
    else PositiveVars(body[..|body| - 1]) +
         (if body[|body| - 1].Positive? then TermsVars(body[|body| - 1].atom.terms) else {})
  }

  /** Variables bound by a whole body, aggregates included. */
  function BodyVars(body: seq<Literal>): set<nat> {
    if body == [] then {} else BodyVars(body[..|body| - 1]) + Binds(body[|body| - 1])
  }

  lemma BodyVarsMember(body: seq<Literal>, v: nat)
    ensures v in BodyVars(body) <==> exists i :: 0 <= i < |body| && v in Binds(body[i])
  {
    if body != [] {
      BodyVarsMember(body[..|body| - 1], v);
      assert forall i :: 0 <= i < |body| - 1 ==> body[..|body| - 1][i] == body[i];
    }
  }

  lemma PositiveVarsMember(body: seq<Literal>, v: nat)
    ensures v in PositiveVars(body) <==>
            exists i :: 0 <= i < |body| && body[i].Positive? && v in Binds(body[i])
  {
    if body != [] {
      PositiveVarsMember(body[..|body| - 1], v);
      assert forall i :: 0 <= i < |body| - 1 ==> body[..|body| - 1][i] == body[i];
    }
  }

  /* ---------- bindings ---------- */

  type Bindings = map<nat, Value>

  ghost predicate Extends(b: Bindings, s: Bindings) {
    forall v :: v in b ==> v in s && s[v] == b[v]
  }

  predicate TermsBound(ts: seq<Term>, s: Bindings) {
    forall i :: 0 <= i < |ts| ==> ts[i].Const? || ts[i].v in s
  }

  function Instantiate(t: Term, s: Bindings): Value
    requires t.Const? || t.v in s
  {
    if t.Const? then t.c else s[t.v]
  }

  function Ground(a: Atom, s: Bindings): Fact
    requires TermsBound(a.terms, s)
  {
    Fact(a.pred, seq(|a.terms|, i requires 0 <= i < |a.terms| => Instantiate(a.terms[i], s)))
  }

  /** Binds a free variable, or checks a constant or an already bound variable. */
  function BindOrMatch(b: Bindings, t: Term, x: Value): Option<Bindings> {
    match t
    case Const(c) => if c == x then Some(b) else None
    case Var(v) => if v !in b then Some(b[v := x]) else if b[v] == x then Some(b) else None
  }

  /** Unifies the terms of an atom with the values of a candidate, left to right. */
  function MatchTerms(b: Bindings, ts: seq<Term>, xs: seq<Value>): Option<Bindings>
    requires |ts| == |xs|
    decreases ts
  {
    if ts == [] then Some(b)
    else
      var b' := BindOrMatch(b, ts[0], xs[0]);
      if b'.None? then None else MatchTerms(b'.value, ts[1..], xs[1..])
  }

  function MatchFact(b: Bindings, a: Atom, f: Fact): Option<Bindings> {
    if f.pred != a.pred || |f.values| != |a.terms| then None
    else MatchTerms(b, a.terms, f.values)
  }

  /** A successful match is the least extension of the bindings that grounds the terms
      to the values. */
  lemma {:induction false} MatchTermsSound(b: Bindings, ts: seq<Term>, xs: seq<Value>)
    requires |ts| == |xs|
    requires MatchTerms(b, ts, xs).Some?
    ensures var b' := MatchTerms(b, ts, xs).value;
            && Extends(b, b')
            && b'.Keys == b.Keys + TermsVars(ts)
            && TermsBound(ts, b')
            && forall i :: 0 <= i < |ts| ==> Instantiate(ts[i], b') == xs[i]
    decreases ts
  {
    if ts != [] {
      var b1 := BindOrMatch(b, ts[0], xs[0]).value;
      MatchTermsSound(b1, ts[1..], xs[1..]);
      var b' := MatchTerms(b, ts, xs).value;
      assert TermsVars(ts) == TermVars(ts[0]) + TermsVars(ts[1..]) by { TermsVarsCons(ts); }
      forall i | 0 <= i < |ts|
        ensures (ts[i].Const? || ts[i].v in b') && Instantiate(ts[i], b') == xs[i]
      {
        if i > 0 {
          assert ts[i] == ts[1..][i - 1] && xs[i] == xs[1..][i - 1];
        }
      }
    }
  }

  lemma TermsVarsCons(ts: seq<Term>)
    requires ts != []
    ensures TermsVars(ts) == TermVars(ts[0]) + TermsVars(ts[1..])
  {
    forall v
      ensures v in TermsVars(ts) <==> v in TermVars(ts[0]) + TermsVars(ts[1..])
    {
      if v in TermsVars(ts) {
        var i :| 0 <= i < |ts| && ts[i].Var? && ts[i].v == v;
        if i > 0 { assert ts[1..][i - 1] == ts[i]; }
      }
      if v in TermsVars(ts[1..]) {
        var i :| 0 <= i < |ts[1..]| && ts[1..][i].Var? && ts[1..][i].v == v;
        assert ts[i + 1] == ts[1..][i];
      }
    }
  }

  /** Every binding that grounds the terms to the values is reached by the match. */
  lemma {:induction false} MatchTermsComplete(b: Bindings, ts: seq<Term>, xs: seq<Value>, s: Bindings)
    requires |ts| == |xs|
    requires Extends(b, s) && TermsBound(ts, s)
    requires forall i :: 0 <= i < |ts| ==> Instantiate(ts[i], s) == xs[i]
    ensures MatchTerms(b, ts, xs).Some? && Extends(MatchTerms(b, ts, xs).value, s)
    decreases ts
  {
    if ts != [] {
      var t := BindOrMatch(b, ts[0], xs[0]);
      assert Instantiate(ts[0], s) == xs[0];
      assert t.Some? && Extends(t.value, s);
      forall i | 0 <= i < |ts[1..]|
        ensures (ts[1..][i].Const? || ts[1..][i].v in s) && Instantiate(ts[1..][i], s) == xs[1..][i]
      {
        assert ts[1..][i] == ts[i + 1] && xs[1..][i] == xs[i + 1];
      }
      MatchTermsComplete(t.value, ts[1..], xs[1..], s);
    }
  }

  /** Matching a candidate against an atom finds exactly the bindings that ground the
      atom to it. */
  lemma MatchFactExact(b: Bindings, a: Atom, f: Fact, s: Bindings)
    requires Extends(b, s)
    requires TermsBound(a.terms, s)
    ensures Ground(a, s) == f ==> MatchFact(b, a, f).Some? && Extends(MatchFact(b, a, f).value, s)
    ensures MatchFact(b, a, f).Some? && Extends(MatchFact(b, a, f).value, s) ==> Ground(a, s) == f
  {
    if Ground(a, s) == f {
      MatchTermsComplete(b, a.terms, f.values, s);
    }
    if MatchFact(b, a, f).Some? && Extends(MatchFact(b, a, f).value, s) {
      MatchTermsSound(b, a.terms, f.values);
      assert Ground(a, s).values == f.values;
    }
  }

  lemma MatchFactSound(b: Bindings, a: Atom, f: Fact)
    requires MatchFact(b, a, f).Some?
    ensures var b' := MatchFact(b, a, f).value;
            && Extends(b, b')
            && b'.Keys == b.Keys + TermsVars(a.terms)
            && TermsBound(a.terms, b')
            && Ground(a, b') == f
  {
    MatchTermsSound(b, a.terms, f.values);
    assert Ground(a, MatchFact(b, a, f).value).values == f.values;
  }

  lemma BoundByKeys(ts: seq<Term>, s: Bindings)
    ensures TermsBound(ts, s) <==> TermsVars(ts) <= s.Keys
  {
    if TermsVars(ts) <= s.Keys {
      forall i | 0 <= i < |ts|
        ensures ts[i].Const? || ts[i].v in s
      {
        if ts[i].Var? { assert ts[i].v in TermsVars(ts); }
      }
    }
  }

  lemma GroundExtends(a: Atom, b: Bindings, s: Bindings)
    requires Extends(b, s) && TermsBound(a.terms, b)
    ensures TermsBound(a.terms, s) && Ground(a, b) == Ground(a, s)
  {
    assert forall i :: 0 <= i < |a.terms| ==> Instantiate(a.terms[i], b) == Instantiate(a.terms[i], s);
  }

  /* ---------- comparisons ---------- */

  /** A comparison that cannot be decided rejects the whole solve. */
  datatype Verdict = Yes | No | Fatal

  predicate SameKind(x: Value, y: Value) {
    (x.Symbol? && y.Symbol?) || (x.Integer? && y.Integer?) || (x.Boolean? && y.Boolean?)
  }

  function Compare(op: CmpOp, x: Value, y: Value): Verdict {
    if !SameKind(x, y) then Fatal
    else if op.Eq? then (if x == y then Yes else No)
    else if op.Neq? then (if x == y then No else Yes)
    else if !x.Integer? then Fatal
    else
      var holds := if op.Lt? then x.i < y.i
                   else if op.Lte? then x.i <= y.i
                   else if op.Gt? then x.i > y.i
                   else x.i >= y.i;
      if holds then Yes else No
  }

  /** Arithmetic is on 64-bit integers; an overflow or a value that is no integer is
      fatal, and so is a variable without a value. */
  function EvalExpr(e: Expr, s: Bindings): Option<int> {
    match e
    case IntLit(n) => Some(n)
    case VarRef(v) => if v in s && s[v].Integer? then Some(s[v].i) else None
    case Add(l, r) => Checked(EvalExpr(l, s), EvalExpr(r, s), (x, y) => x + y)
    case Sub(l, r) => Checked(EvalExpr(l, s), EvalExpr(r, s), (x, y) => x - y)
    case Mul(l, r) => Checked(EvalExpr(l, s), EvalExpr(r, s), (x, y) => x * y)
  }

  function Checked(x: Option<int>, y: Option<int>, f: (int, int) -> int): Option<int> {
    if x.Some? && y.Some? && MIN_INT64 <= f(x.value, y.value) <= MAX_INT64
    then Some(f(x.value, y.value)) else None
  }

  function EvalTerm(t: Term, s: Bindings): Option<Value> {
    match t
    case Const(c) => Some(c)
    case Var(v) => if v in s then Some(s[v]) else None
  }

  /** The outcome of a comparison literal under some bindings. */
  function EvalComparison(l: Literal, s: Bindings): Verdict
    requires l.Comparison? || l.Arithmetic?
  {
    if l.Comparison? then
      var x, y := EvalTerm(l.lhs, s), EvalTerm(l.rhs, s);
      if x.Some? && y.Some? then Compare(l.op, x.value, y.value) else Fatal
    else
      var x, y := EvalExpr(l.lexpr, s), EvalExpr(l.rexpr, s);
      if x.Some? && y.Some? then Compare(l.op, Integer(x.value), Integer(y.value)) else Fatal
  }

  lemma EvalExprExtends(e: Expr, b: Bindings, s: Bindings)
    requires Extends(b, s) && ExprVars(e) <= b.Keys
    ensures EvalExpr(e, b) == EvalExpr(e, s)
  {
  }

  lemma EvalComparisonExtends(l: Literal, b: Bindings, s: Bindings)
    requires l.Comparison? || l.Arithmetic?
    requires Extends(b, s) && Needs(l) <= b.Keys
    ensures EvalComparison(l, b) == EvalComparison(l, s)
  {
    if l.Arithmetic? {
      EvalExprExtends(l.lexpr, b, s);
      EvalExprExtends(l.rexpr, b, s);
    }
  }
}
