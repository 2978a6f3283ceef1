/**
 Which policies the projection provider accepts, and that for those the facts it emits are what
 the policy means.
 */
module DeltaProjection {
  import opened Datalog
  import opened Semantics
  import opened Evaluation
  import opened DeltaStage
  import opened DeltaBackend
  import opened Registry
  import opened Strata

  const VOCAB: string := "vocab"

  /** Character by character, up to the first difference or the end of the first text. */
  method SameText(a: string, b: string) returns (same: bool)
    ensures same <==> a == b
  {
    var i := 0;
    while i < |a| && i < |b| && a[i] == b[i]
      invariant i <= |a| && i <= |b| && a[..i] == b[..i]
    {
      i := i + 1;
    }
    same := i == |a| && i == |b|;
    assert a[..|a|] == a && b[..|b|] == b;
  }

  /** One rule that repeats the three different variables of its one atom. */
  ghost predicate Repeats(rule: Rule) {
    && |rule.body| == 1 && rule.body[0].Positive?
    && |rule.head.terms| == 3 && rule.body[0].atom.terms == rule.head.terms
    && (forall i :: 0 <= i < 3 ==> rule.head.terms[i].Var?)
    && (forall i, j :: 0 <= j < i < 3 ==> rule.head.terms[i] != rule.head.terms[j])
  }

  ghost predicate Vocabulary(f: Fact, name: nat -> string, rule: Rule) {
    && name(f.pred) == VOCAB && |f.values| == 1 && f.values[0].Symbol?
    && |rule.body| == 1 && rule.body[0].Positive?
    && name(rule.body[0].atom.pred) != VOCAB && name(rule.head.pred) != VOCAB
  }

  ghost predicate IsProjection(p: Program, name: nat -> string) {
    && |p.rules| == 1 && Repeats(p.rules[0])
    && forall i :: 0 <= i < |p.facts| ==> Vocabulary(p.facts[i], name, p.rules[0])
  }

  method Prepare(p: Program, name: nat -> string) returns (ok: bool, input: string, output: string)
    ensures ok <==> IsProjection(p, name)
    ensures ok ==> input == name(p.rules[0].body[0].atom.pred) && output == name(p.rules[0].head.pred)
  {
    input, output := "", "";
    if |p.rules| != 1 { return false, input, output; }
    var rule := p.rules[0];
    if |rule.body| != 1 || |rule.head.terms| != 3 || !rule.body[0].Positive? || |rule.body[0].atom.terms| != 3 {
      return false, input, output;
    }
    var head, body := rule.head.terms, rule.body[0].atom.terms;
    for i := 0 to 3
      invariant forall k :: 0 <= k < i ==> head[k].Var? && body[k] == head[k]
    {
      if !head[i].Var? || !body[i].Var? || head[i].v != body[i].v { return false, input, output; }
    }
    assert body == head;
    for i := 0 to 3
      invariant forall k, j :: 0 <= j < k < i ==> head[k] != head[j]
    {
      for j := 0 to i
        invariant forall l :: 0 <= l < j ==> head[i] != head[l]
      {
        if head[i].v == head[j].v { return false, input, output; }
      }
    }
    var bodyIsVocab := SameText(name(rule.body[0].atom.pred), VOCAB);
    var headIsVocab := SameText(name(rule.head.pred), VOCAB);
    for i := 0 to |p.facts|
      invariant forall k :: 0 <= k < i ==> Vocabulary(p.facts[k], name, rule)
    {
      var f := p.facts[i];
      var isVocab := SameText(name(f.pred), VOCAB);
      if !isVocab || |f.values| != 1 || !f.values[0].Symbol? || bodyIsVocab || headIsVocab {
        return false, input, output;
      }
    }
    ok, input, output := true, name(rule.body[0].atom.pred), name(rule.head.pred);
  }

  /* ---------- the meaning ---------- */

  /** A derived predicate heads the rule; inputs and compiled facts belong to other kinds. */
  ghost predicate Typed(p: Program, kind: nat -> Kind, inputs: seq<Fact>) {
    && (forall i :: 0 <= i < |p.rules| ==> kind(p.rules[i].head.pred) == Idb)
    && (forall i :: 0 <= i < |p.facts| ==> kind(p.facts[i].pred) == Policy)
    && (forall i :: 0 <= i < |inputs| ==> kind(inputs[i].pred) == Edb)
  }

  /** The base with every fact of the body predicate copied to the head predicate. */
  ghost function Completed(p: Program, inputs: seq<Fact>): Interp
    requires |p.rules| == 1 && |p.rules[0].body| == 1 && p.rules[0].body[0].Positive?
  {
    iset f | f in Base(p, inputs) || Copied(p, inputs, f)
  }

  ghost predicate Copied(p: Program, inputs: seq<Fact>, f: Fact)
    requires |p.rules| == 1 && |p.rules[0].body| == 1 && p.rules[0].body[0].Positive?
  {
    && f.pred == p.rules[0].head.pred && |f.values| == 3
    && Fact(p.rules[0].body[0].atom.pred, f.values) in Base(p, inputs)
  }

  lemma OneAtomVars(rule: Rule)
    requires Repeats(rule)
    ensures BodyVars(rule.body) == TermsVars(rule.head.terms)
  {
    assert BodyVars(rule.body[..0]) == {};
  }

  lemma DerivesCopies(rule: Rule, pos: Interp, neg: Interp, f: Fact)
    requires Repeats(rule) && Derives(rule, pos, neg, f)
    ensures f.pred == rule.head.pred && |f.values| == 3 && Fact(rule.body[0].atom.pred, f.values) in pos
  {
    var s :| Instance(rule, s, pos, neg, f);
    assert LiteralHolds(rule.body[0], s, pos, neg);
    assert Ground(rule.body[0].atom, s).values == Ground(rule.head, s).values;
  }

  /** The bindings that give three different variables the values of a fact. */
  lemma Bound(terms: seq<Term>, values: seq<Value>) returns (s: Bindings)
    requires |terms| == |values| == 3 && forall i :: 0 <= i < 3 ==> terms[i].Var?
    requires forall i, j :: 0 <= j < i < 3 ==> terms[i] != terms[j]
    ensures s.Keys == TermsVars(terms) && TermsBound(terms, s)
    ensures forall q :: Ground(Atom(q, terms), s) == Fact(q, values)
  {
    var x, y, z := terms[0].v, terms[1].v, terms[2].v;
    assert terms[1] != terms[0] && terms[2] != terms[0] && terms[2] != terms[1];
    s := map[x := values[0], y := values[1], z := values[2]];
    assert s.Keys == {x, y, z} == TermsVars(terms);
    forall q ensures Ground(Atom(q, terms), s) == Fact(q, values) {
      assert Ground(Atom(q, terms), s).values == values;
    }
  }

  lemma CopiesDerive(rule: Rule, pos: Interp, neg: Interp, f: Fact)
    requires Repeats(rule)
    requires f.pred == rule.head.pred && |f.values| == 3 && Fact(rule.body[0].atom.pred, f.values) in pos
    ensures Derives(rule, pos, neg, f)
  {
    hide Ground, TermsBound, TermsVars, BodyVars;
    var s := Bound(rule.head.terms, f.values);
    OneAtomVars(rule);
    var a := rule.body[0].atom;
    assert a == Atom(a.pred, rule.head.terms) && rule.head == Atom(rule.head.pred, rule.head.terms);
    assert Instance(rule, s, pos, neg, f);
  }

  /** The rule derives a copy of every fact of the body predicate that has three values, and
      nothing else. */
  lemma RepeatsDerives(rule: Rule, pos: Interp, neg: Interp, f: Fact)
    requires Repeats(rule)
    ensures Derives(rule, pos, neg, f) <==>
            f.pred == rule.head.pred && |f.values| == 3 && Fact(rule.body[0].atom.pred, f.values) in pos
  {
    hide Derives;
    if Derives(rule, pos, neg, f) { DerivesCopies(rule, pos, neg, f); }
    if f.pred == rule.head.pred && |f.values| == 3 && Fact(rule.body[0].atom.pred, f.values) in pos {
      CopiesDerive(rule, pos, neg, f);
    }
  }

  /** For every policy that is accepted and every input, the head predicate holds in the stable
      model exactly the copies of the input facts of the body predicate. */
  lemma ProjectionIsMeaning(p: Program, name: nat -> string, kind: nat -> Kind, inputs: seq<Fact>, m: Interp)
    requires IsProjection(p, name) && Typed(p, kind, inputs) && Stable(p, Base(p, inputs), m)
    ensures m == Completed(p, inputs)
    ensures forall f: Fact :: f.pred == p.rules[0].head.pred ==>
              (f in m <==> |f.values| == 3 && Fact(p.rules[0].body[0].atom.pred, f.values) in inputs)
  {
    hide Derives;
    var rule := p.rules[0];
    var base, x := Base(p, inputs), Completed(p, inputs);
    assert Closed(p, x, m) by {
      forall r, f | 0 <= r < |p.rules| && Derives(p.rules[r], x, m, f) ensures f in x {
        RepeatsDerives(rule, x, m, f);
      }
    }
    assert m <= x;
    forall f | f in x ensures f in m {
      if f !in base {
        RepeatsDerives(rule, m, m, f);
        assert Derives(p.rules[0], m, m, f);
      }
    }
    forall f: Fact | f.pred == rule.head.pred
      ensures f in m <==> |f.values| == 3 && Fact(rule.body[0].atom.pred, f.values) in inputs
    {
      assert Fact(rule.body[0].atom.pred, f.values) !in p.facts;
    }
  }

  /** The registry finds a predicate by its name and arity. */
  ghost predicate Registered(host: Host, p: Program, inputs: seq<Fact>) {
    && |p.rules| == 1
    && host.find(host.name(p.rules[0].head.pred), |p.rules[0].head.terms|) == Some(p.rules[0].head.pred)
    && (forall i :: 0 <= i < |p.rules[0].body| && p.rules[0].body[i].Positive? ==>
          var a := p.rules[0].body[i].atom; host.find(host.name(a.pred), |a.terms|) == Some(a.pred))
    && (forall i :: 0 <= i < |inputs| ==> host.find(host.name(inputs[i].pred), |inputs[i].values|) == Some(inputs[i].pred))
  }

  /** No input shares the name of the body predicate with another arity. */
  ghost predicate OneArity(host: Host, input: string, inputs: seq<Fact>) {
    forall i :: 0 <= i < |inputs| && host.name(inputs[i].pred) == input ==> |inputs[i].values| == 3
  }

  ghost function HeadFacts(p: Program, m: Interp): Interp
    requires |p.rules| == 1
  {
    iset f | f in m && f.pred == p.rules[0].head.pred
  }

  lemma OneArityEmits(host: Host, p: Program, inputs: seq<Fact>)
    requires IsProjection(p, host.name) && Typed(p, host.kind, inputs) && Registered(host, p, inputs)
    requires OneArity(host, host.name(p.rules[0].body[0].atom.pred), inputs)
    ensures AllEmittable(host, host.name(p.rules[0].body[0].atom.pred), host.name(p.rules[0].head.pred), inputs)
  {
  }

  /** An accepted provider emits everything it selects, and emits the model's facts of the head
      predicate, if and only if no input has the name of the body predicate at another arity: the
      provider looks at names only. */
  lemma EmissionIsMeaning(host: Host, p: Program, inputs: seq<Fact>, m: Interp)
    requires IsProjection(p, host.name) && Typed(p, host.kind, inputs) && Registered(host, p, inputs)
    requires Stable(p, Base(p, inputs), m)
    ensures var input, output := host.name(p.rules[0].body[0].atom.pred), host.name(p.rules[0].head.pred);
            (AllEmittable(host, input, output, inputs)
             && forall f :: f in Image(host, input, output, inputs) <==> f in HeadFacts(p, m)) <==> OneArity(host, input, inputs)
  {
    hide Stable;
    var rule := p.rules[0];
    var body, head := rule.body[0].atom.pred, rule.head.pred;
    var input, output := host.name(body), host.name(head);
    ProjectionIsMeaning(p, host.name, host.kind, inputs, m);
    if OneArity(host, input, inputs) {
      OneArityEmits(host, p, inputs);
      forall f: Fact ensures f in Image(host, input, output, inputs) <==> f in HeadFacts(p, m) {
        if f in Image(host, input, output, inputs) {
          var i :| 0 <= i < |inputs| && Selected(host, input, inputs[i]) && f == Emitted(host, output, inputs[i].values).value;
          assert inputs[i] == Fact(body, f.values);
        }
        if f in HeadFacts(p, m) {
          var g := Fact(body, f.values);
          var i :| 0 <= i < |inputs| && inputs[i] == g;
          assert Selected(host, input, inputs[i]) && Emitted(host, output, inputs[i].values) == Some(f);
        }
      }
    } else if AllEmittable(host, input, output, inputs) {
      var i :| 0 <= i < |inputs| && host.name(inputs[i].pred) == input && |inputs[i].values| != 3;
      var f := Emitted(host, output, inputs[i].values).value;
      assert Selected(host, input, inputs[i]) && f in Image(host, input, output, inputs);
      assert f !in HeadFacts(p, m);
    }
  }

  /* ---------- the registry ---------- */

  /** Atoms and facts have the arity their predicate is registered with. */
  ghost predicate HasShape(defs: seq<Entry>, p: Program, inputs: seq<Fact>) {
    && (forall i :: 0 <= i < |inputs| ==> inputs[i].pred < |defs| && |inputs[i].values| == defs[inputs[i].pred].arity)
    && (forall r :: 0 <= r < |p.rules| ==> RuleHasShape(defs, p.rules[r]))
  }

  ghost predicate RuleHasShape(defs: seq<Entry>, rule: Rule) {
    && rule.head.pred < |defs| && |rule.head.terms| == defs[rule.head.pred].arity
    && forall i :: 0 <= i < |rule.body| && rule.body[i].Positive? ==>
         rule.body[i].atom.pred < |defs| && |rule.body[i].atom.terms| == defs[rule.body[i].atom.pred].arity
  }

  lemma RegistryFinds(host: Host, defs: seq<Entry>, p: Program, inputs: seq<Fact>)
    requires NamesDiffer(defs) && Serves(host, defs) && HasShape(defs, p, inputs) && |p.rules| == 1
    ensures Registered(host, p, inputs)
  {
    assert RuleHasShape(defs, p.rules[0]);
    forall q: nat | q < |defs| ensures host.find(host.name(q), defs[q].arity) == Some(q) {
      LookupExact(defs, defs[q].name, defs[q].arity, q);
    }
  }

  /** With the vocabulary of a registry the condition always holds: what an accepted provider
      emits is what its policy means, on every input. */
  lemma RegistryEmission(host: Host, defs: seq<Entry>, p: Program, inputs: seq<Fact>, m: Interp)
    requires NamesDiffer(defs) && Serves(host, defs) && HasShape(defs, p, inputs)
    requires IsProjection(p, host.name) && Typed(p, host.kind, inputs) && Stable(p, Base(p, inputs), m)
    ensures var input, output := host.name(p.rules[0].body[0].atom.pred), host.name(p.rules[0].head.pred);
            && OneArity(host, input, inputs) && AllEmittable(host, input, output, inputs)
            && forall f :: f in Image(host, input, output, inputs) <==> f in HeadFacts(p, m)
  {
    hide Stable, AllEmittable, Image, HeadFacts;
    RegistryFinds(host, defs, p, inputs);
    assert RuleHasShape(defs, p.rules[0]);
    var body := p.rules[0].body[0].atom.pred;
    forall i | 0 <= i < |inputs| && host.name(inputs[i].pred) == host.name(body) ensures |inputs[i].values| == 3 {
      assert defs[inputs[i].pred].name == defs[body].name;
    }
    EmissionIsMeaning(host, p, inputs, m);
  }

  /** The table that a registry without its test for a second arity would let a policy have. */
  function Doubled(emittable: bool): seq<Entry> {
    [Entry("event", 3, {EdbFlag}), Entry("event", 1, {EdbFlag}), Entry("seen", 3, {IdbFlag})]
    + if emittable then [Entry("seen", 1, {IdbFlag})] else []
  }

  const COPY: Program :=
    Program([Edb, Edb, Idb, Idb], [Rule(Atom(2, [Var(0), Var(1), Var(2)]), [Positive(Atom(0, [Var(0), Var(1), Var(2)]))])], [])

  /** The test is needed. Registry.Table.Add never builds a table with one name at two arities;
      over such a table the provider would fail a solve that has a model, or emit a fact that the
      policy does not mean. */
  lemma SecondArityMisleads(emittable: bool) returns (host: Host, inputs: seq<Fact>, m: Interp)
    ensures !NamesDiffer(Doubled(emittable)) && Serves(host, Doubled(emittable)) && HasShape(Doubled(emittable), COPY, inputs)
    ensures IsProjection(COPY, host.name) && Typed(COPY, host.kind, inputs) && Registered(host, COPY, inputs)
    ensures Stable(COPY, Base(COPY, inputs), m)
    ensures AllEmittable(host, "event", "seen", inputs) <==> emittable
    ensures emittable ==> exists f :: f in Image(host, "event", "seen", inputs) && f !in HeadFacts(COPY, m)
  {
    hide Stable, IsProjection, AllEmittable, Stage;
    var defs := Doubled(emittable);
    host := Host((q: nat) => if q < |defs| then defs[q].name else "", _ => "", (n, a) => Lookup(defs, n, a),
                 (q: nat) => if q < |defs| then KindOf(defs[q].flags) else Idb, 0, 0, 0, 0);
    inputs := [Fact(1, [Integer(0)])];
    m := Stage(COPY, _ => 0, Base(COPY, inputs), 1);
    CopyStratifies();
    PerfectIsStable(COPY, _ => 0, Base(COPY, inputs), 1);
    assert defs[0].name == defs[1].name;
    DoubledFinds(emittable);
    CopyAccepted(host);
    assert Emitted(host, "seen", [Integer(0)]) == if emittable then Some(Fact(3, [Integer(0)])) else None;
    if emittable {
      assert Selected(host, "event", inputs[0]);
      assert Fact(3, [Integer(0)]) in Image(host, "event", "seen", inputs) && Fact(3, [Integer(0)]) !in HeadFacts(COPY, m);
    }
    assert AllEmittable(host, "event", "seen", inputs) <==> emittable by { OneInput(host, inputs[0]); }
  }

  lemma OneInput(host: Host, f: Fact)
    requires Selected(host, "event", f)
    ensures AllEmittable(host, "event", "seen", [f]) <==> Emitted(host, "seen", f.values).Some?
  {
    assert [f][0] == f;
  }

  lemma DoubledFinds(emittable: bool)
    ensures var defs := Doubled(emittable);
            && Lookup(defs, "event", 3) == Some(0) && Lookup(defs, "event", 1) == Some(1) && Lookup(defs, "seen", 3) == Some(2)
            && Lookup(defs, "seen", 1) == if emittable then Some(3) else None
  {
    var defs := Doubled(emittable);
    assert |"event"| != |"seen"|;
    assert LookupFrom(defs, "event", 1, 0) == LookupFrom(defs, "event", 1, 1);
    assert LookupFrom(defs, "seen", 3, 0) == LookupFrom(defs, "seen", 3, 1) == LookupFrom(defs, "seen", 3, 2);
    assert LookupFrom(defs, "seen", 1, 0) == LookupFrom(defs, "seen", 1, 1) == LookupFrom(defs, "seen", 1, 2)
        == LookupFrom(defs, "seen", 1, 3);
    assert LookupFrom(defs, "seen", 1, 3) == if emittable then Some(3) else None;
  }

  lemma CopyStratifies()
    ensures Stratifies(COPY, _ => 0) && HeadsBelow(COPY, _ => 0, 1)
  {
  }

  lemma CopyAccepted(host: Host)
    ensures IsProjection(COPY, host.name)
  {
    assert Repeats(COPY.rules[0]);
  }
}
