/**
 The action quota: a small policy with a count, a comparison and a negation, and the ledger of
 performed actions that is guarded by it.
 */
module Quota {
  import opened Datalog
  import opened Strata
  import opened Safety
  import opened Semantics
  import opened Evaluation
  import opened SemiNaive
  import opened FactOrder
  import opened Solver
  import opened Fixpoint

  const LIMIT: nat := 0
  const COUNTER: nat := 1
  const EVENT: nat := 2
  const HISTORY_MODE: nat := 3
  const PROPOSED: nat := 4
  const USED: nat := 5
  const ALLOW: nat := 6
  const DENY: nat := 7

  /** The variables I, L and N. */
  const I: nat := 8
  const L: nat := 11
  const N: nat := 13

  const ZERO: Term := Const(Integer(0))

  const USED_COUNTER: Rule := Rule(Atom(USED, [Var(N)]), [Positive(Atom(COUNTER, [Var(N)]))])

  const USED_HISTORY: Rule :=
    Rule(Atom(USED, [Var(N)]),
         [Positive(Atom(HISTORY_MODE, [ZERO])), Aggregate(Count, I, Atom(EVENT, [Var(I)]), N)])

  const DENY_RULE: Rule :=
    Rule(Atom(DENY, [ZERO]),
         [Positive(Atom(PROPOSED, [ZERO])), Positive(Atom(USED, [Var(N)])), Positive(Atom(LIMIT, [Var(L)])),
          Comparison(Gte, Var(N), Var(L))])

  const ALLOW_RULE: Rule :=
    Rule(Atom(ALLOW, [ZERO]),
         [Positive(Atom(PROPOSED, [ZERO])), Positive(Atom(USED, [Var(N)])), Negated(Atom(DENY, [ZERO]))])

  const POLICY: Program :=
    Program([Policy, Edb, Edb, Edb, Edb, Idb, Idb, Idb],
            [USED_COUNTER, USED_HISTORY, DENY_RULE, ALLOW_RULE],
            [Fact(LIMIT, [Integer(2)])])

  function One(pred: nat, v: Value): Fact { Fact(pred, [v]) }

  /* ---------- what each rule derives ---------- */

  lemma GroundOne(q: nat, t: Term, s: Bindings)
    ensures TermsBound([t], s) <==> t.Const? || t.v in s
    ensures TermsBound([t], s) ==> Ground(Atom(q, [t]), s) == One(q, Instantiate(t, s))
    ensures TermsVars([t]) == TermVars(t)
  {
    var ts := [t];
    assert ts[0] == t;
    if TermsBound([t], s) { assert Ground(Atom(q, [t]), s).values == [Instantiate(t, s)]; }
  }

  lemma BodyGrows(body: seq<Literal>, l: Literal)
    ensures BodyVars(body + [l]) == BodyVars(body) + Binds(l)
  {
    assert (body + [l])[..|body|] == body;
  }

  /** The variables of a body of up to four literals. */
  lemma BodyOf(a: Literal, b: Literal, c: Literal, d: Literal)
    ensures BodyVars([a]) == Binds(a)
    ensures BodyVars([a, b]) == Binds(a) + Binds(b)
    ensures BodyVars([a, b, c]) == Binds(a) + Binds(b) + Binds(c)
    ensures BodyVars([a, b, c, d]) == Binds(a) + Binds(b) + Binds(c) + Binds(d)
  {
    hide BodyVars;
    NoBody();
    BodyGrows([], a);
    BodyGrows([a], b);
    BodyGrows([a, b], c);
    BodyGrows([a, b, c], d);
    assert [] + [a] == [a] && [a] + [b] == [a, b] && [a, b] + [c] == [a, b, c] && [a, b, c] + [d] == [a, b, c, d];
  }

  lemma NoBody()
    ensures BodyVars([]) == {}
  {
  }

  /** A positive literal over one term. */
  lemma HoldsOne(q: nat, t: Term, s: Bindings, m: Interp)
    ensures LiteralHolds(Positive(Atom(q, [t])), s, m, m) <==> (t.Const? || t.v in s) && One(q, Instantiate(t, s)) in m
    ensures Binds(Positive(Atom(q, [t]))) == TermVars(t)
  {
    hide TermsBound, Ground, TermsVars;
    GroundOne(q, t, s);
  }

  lemma UsedCounterDerives(m: Interp, f: Fact)
    ensures Derives(USED_COUNTER, m, m, f) <==> exists v :: f == One(USED, v) && One(COUNTER, v) in m
  {
    hide TermsBound, Ground, LiteralHolds, BodyVars, Binds;
    var rule := USED_COUNTER;
    var l := rule.body[0];
    BodyOf(l, l, l, l);
    if Derives(rule, m, m, f) {
      var s :| Instance(rule, s, m, m, f);
      assert LiteralHolds(rule.body[0], s, m, m);
      HoldsOne(COUNTER, Var(N), s, m);
      GroundOne(USED, Var(N), s);
    }
    if v :| f == One(USED, v) && One(COUNTER, v) in m {
      var s: Bindings := map[N := v];
      HoldsOne(COUNTER, Var(N), s, m);
      GroundOne(USED, Var(N), s);
      assert Instance(rule, s, m, m, f);
    }
  }

  lemma DenyDerives(m: Interp, f: Fact)
    ensures Derives(DENY_RULE, m, m, f) <==>
            && f == One(DENY, Integer(0)) && One(PROPOSED, Integer(0)) in m
            && exists x, y :: One(USED, x) in m && One(LIMIT, y) in m && Compare(Gte, x, y) == Yes
  {
    hide TermsBound, Ground, LiteralHolds, BodyVars, Binds, Compare;
    var rule := DENY_RULE;
    BodyOf(rule.body[0], rule.body[1], rule.body[2], rule.body[3]);
    if Derives(rule, m, m, f) {
      var s :| Instance(rule, s, m, m, f);
      DenyHolds(s, m);
      GroundOne(DENY, ZERO, s);
      assert LiteralHolds(rule.body[0], s, m, m) && LiteralHolds(rule.body[1], s, m, m);
      assert LiteralHolds(rule.body[2], s, m, m) && LiteralHolds(rule.body[3], s, m, m);
    }
    if f == One(DENY, Integer(0)) && One(PROPOSED, Integer(0)) in m {
      if x, y :| One(USED, x) in m && One(LIMIT, y) in m && Compare(Gte, x, y) == Yes {
        var s: Bindings := map[N := x, L := y];
        DenyHolds(s, m);
        GroundOne(DENY, ZERO, s);
        assert s.Keys == {N, L};
        assert Instance(rule, s, m, m, f);
      }
    }
  }

  lemma DenyHolds(s: Bindings, m: Interp)
    ensures LiteralHolds(DENY_RULE.body[0], s, m, m) <==> One(PROPOSED, Integer(0)) in m
    ensures LiteralHolds(DENY_RULE.body[1], s, m, m) <==> N in s && One(USED, s[N]) in m
    ensures LiteralHolds(DENY_RULE.body[2], s, m, m) <==> L in s && One(LIMIT, s[L]) in m
    ensures N in s && L in s ==> (LiteralHolds(DENY_RULE.body[3], s, m, m) <==> Compare(Gte, s[N], s[L]) == Yes)
    ensures Binds(DENY_RULE.body[0]) == {} && Binds(DENY_RULE.body[1]) == {N} && Binds(DENY_RULE.body[2]) == {L} && Binds(DENY_RULE.body[3]) == {}
  {
    hide TermsBound, Ground, Compare;
    HoldsOne(PROPOSED, ZERO, s, m);
    HoldsOne(USED, Var(N), s, m);
    HoldsOne(LIMIT, Var(L), s, m);
  }

  lemma AllowDerives(m: Interp, f: Fact)
    ensures Derives(ALLOW_RULE, m, m, f) <==>
            && f == One(ALLOW, Integer(0)) && One(PROPOSED, Integer(0)) in m && One(DENY, Integer(0)) !in m
            && exists x :: One(USED, x) in m
  {
    hide TermsBound, Ground, LiteralHolds, BodyVars, Binds;
    var rule := ALLOW_RULE;
    BodyOf(rule.body[0], rule.body[1], rule.body[2], rule.body[2]);
    if Derives(rule, m, m, f) {
      var s :| Instance(rule, s, m, m, f);
      AllowHolds(s, m);
      GroundOne(ALLOW, ZERO, s);
      assert LiteralHolds(rule.body[0], s, m, m) && LiteralHolds(rule.body[1], s, m, m) && LiteralHolds(rule.body[2], s, m, m);
    }
    if f == One(ALLOW, Integer(0)) && One(PROPOSED, Integer(0)) in m && One(DENY, Integer(0)) !in m {
      if x :| One(USED, x) in m {
        var s: Bindings := map[N := x];
        AllowHolds(s, m);
        GroundOne(ALLOW, ZERO, s);
        assert Instance(rule, s, m, m, f);
      }
    }
  }

  lemma AllowHolds(s: Bindings, m: Interp)
    ensures LiteralHolds(ALLOW_RULE.body[0], s, m, m) <==> One(PROPOSED, Integer(0)) in m
    ensures LiteralHolds(ALLOW_RULE.body[1], s, m, m) <==> N in s && One(USED, s[N]) in m
    ensures LiteralHolds(ALLOW_RULE.body[2], s, m, m) <==> One(DENY, Integer(0)) !in m
    ensures Binds(ALLOW_RULE.body[0]) == {} && Binds(ALLOW_RULE.body[1]) == {N} && Binds(ALLOW_RULE.body[2]) == {}
  {
    hide TermsBound, Ground;
    HoldsOne(PROPOSED, ZERO, s, m);
    HoldsOne(USED, Var(N), s, m);
    GroundOne(DENY, ZERO, s);
  }

  /** A finite set is the events of an interpretation. */
  ghost predicate EventsOf(m: Interp, facts: set<Fact>) {
    forall g :: g in facts <==> g in m && g.pred == EVENT && |g.values| == 1
  }

  ghost function Ids(facts: set<Fact>): set<Value> {
    set g | g in facts :: Semantics.Projected(g, 0)
  }

  lemma CountHolds(s: Bindings, m: Interp)
    ensures var l := USED_HISTORY.body[1];
            LiteralHolds(l, s, m, m) <==>
            N in s && exists facts :: EventsOf(m, facts) && s[N] == Integer(|Ids(facts)|)
    ensures Binds(USED_HISTORY.body[1]) == {N}
  {
    var l := USED_HISTORY.body[1];
    assert TermsVars([Var(I)]) == {I} by { GroundOne(EVENT, Var(I), s); }
    assert GroupKeys(l) == {};
    assert Pattern(l, s) == Atom(EVENT, [Var(I)]);
    forall g ensures MatchesPattern(l, s, g) <==> g.pred == EVENT && |g.values| == 1 { MatchesVariable(g); }
    assert ProjectedTerm([Var(I)], I) == 0;
    forall facts ensures MatchSet(l, s, m, facts) <==> EventsOf(m, facts) {}
  }

  lemma MatchesVariable(g: Fact)
    ensures MatchFact(map[], Atom(EVENT, [Var(I)]), g).Some? <==> g.pred == EVENT && |g.values| == 1
  {
    if g.pred == EVENT && |g.values| == 1 {
      var ts: seq<Term> := [Var(I)];
      var b := BindOrMatch(map[], ts[0], g.values[0]);
      assert b.Some? && ts[1..] == [] && g.values[1..] == [];
      assert MatchTerms(b.value, ts[1..], g.values[1..]) == Some(b.value);
      assert MatchTerms(map[], ts, g.values) == Some(b.value);
    }
  }

  lemma UsedHistoryDerives(m: Interp, f: Fact)
    ensures Derives(USED_HISTORY, m, m, f) <==>
            && One(HISTORY_MODE, Integer(0)) in m
            && exists facts :: EventsOf(m, facts) && f == One(USED, Integer(|Ids(facts)|))
  {
    hide TermsBound, Ground, LiteralHolds, BodyVars, Binds, EventsOf, Ids;
    var rule := USED_HISTORY;
    BodyOf(rule.body[0], rule.body[1], rule.body[1], rule.body[1]);
    if Derives(rule, m, m, f) {
      var s :| Instance(rule, s, m, m, f);
      HoldsOne(HISTORY_MODE, ZERO, s, m);
      CountHolds(s, m);
      GroundOne(USED, Var(N), s);
      assert LiteralHolds(rule.body[0], s, m, m) && LiteralHolds(rule.body[1], s, m, m);
    }
    if One(HISTORY_MODE, Integer(0)) in m {
      if facts :| EventsOf(m, facts) && f == One(USED, Integer(|Ids(facts)|)) {
        var s: Bindings := map[N := Integer(|Ids(facts)|)];
        HoldsOne(HISTORY_MODE, ZERO, s, m);
        CountHolds(s, m);
        GroundOne(USED, Var(N), s);
        assert Instance(rule, s, m, m, f);
      }
    }
  }

  /* ---------- what the policy means ---------- */

  /** Inputs and the compiled limit are in a stable model as given. */
  lemma GivenFacts(edb: seq<Fact>, m: Interp, f: Fact)
    requires Stable(POLICY, Base(POLICY, edb), m) && f.pred < USED
    ensures f in m <==> InBase(POLICY, edb, f)
  {
    hide Derives, Stable;
    StableHasBase(POLICY, Base(POLICY, edb), m);
    if f in m && f !in Base(POLICY, edb) {
      StableIsSupported(POLICY, Base(POLICY, edb), m, f);
      var r :| 0 <= r < |POLICY.rules| && Derives(POLICY.rules[r], m, m, f);
      DerivesHead(POLICY.rules[r], m, m, f);
    }
  }

  lemma StableHasBase(p: Program, base: Interp, m: Interp)
    requires Stable(p, base, m)
    ensures base <= m && Closed(p, m, m)
  {
  }

  /** Derived facts are not inputs, so some rule gives them. */
  lemma DerivedFacts(edb: seq<Fact>, m: Interp, f: Fact)
    requires Stable(POLICY, Base(POLICY, edb), m) && InputsOk(POLICY, edb) && f.pred >= USED
    ensures f in m <==>
            || Derives(USED_COUNTER, m, m, f) || Derives(USED_HISTORY, m, m, f)
            || Derives(DENY_RULE, m, m, f) || Derives(ALLOW_RULE, m, m, f)
  {
    hide Derives, Stable;
    StableHasBase(POLICY, Base(POLICY, edb), m);
    assert POLICY.rules[0] == USED_COUNTER && POLICY.rules[1] == USED_HISTORY && POLICY.rules[2] == DENY_RULE && POLICY.rules[3] == ALLOW_RULE;
    if f in m {
      assert f !in edb && f !in POLICY.facts;
      StableIsSupported(POLICY, Base(POLICY, edb), m, f);
    }
  }

  ghost function EventSet(edb: seq<Fact>): set<Fact> {
    set g | g in edb && g.pred == EVENT && |g.values| == 1
  }

  lemma UsedMeaning(edb: seq<Fact>, m: Interp, v: Value)
    requires Stable(POLICY, Base(POLICY, edb), m) && InputsOk(POLICY, edb)
    ensures One(USED, v) in m <==>
            || One(COUNTER, v) in edb
            || (One(HISTORY_MODE, Integer(0)) in edb && v == Integer(|Ids(EventSet(edb))|))
  {
    hide Derives, Stable, InputsOk, Ids;
    var f := One(USED, v);
    DerivedFacts(edb, m, f);
    UsedCounterDerives(m, f);
    UsedHistoryDerives(m, f);
    DenyDerives(m, f);
    AllowDerives(m, f);
    GivenFacts(edb, m, One(COUNTER, v));
    GivenFacts(edb, m, One(HISTORY_MODE, Integer(0)));
    assert EventsOf(m, EventSet(edb)) by {
      forall g: Fact | g.pred == EVENT ensures g in m <==> g in edb { GivenFacts(edb, m, g); }
    }
    assert forall facts :: EventsOf(m, facts) ==> facts == EventSet(edb);
  }

  lemma DenyMeaning(edb: seq<Fact>, m: Interp)
    requires Stable(POLICY, Base(POLICY, edb), m) && InputsOk(POLICY, edb)
    ensures One(DENY, Integer(0)) in m <==>
            One(PROPOSED, Integer(0)) in edb && exists n :: One(USED, Integer(n)) in m && n >= 2
  {
    hide Derives, Stable, InputsOk;
    var f := One(DENY, Integer(0));
    DerivedFacts(edb, m, f);
    UsedCounterDerives(m, f);
    UsedHistoryDerives(m, f);
    DenyDerives(m, f);
    AllowDerives(m, f);
    GivenFacts(edb, m, One(PROPOSED, Integer(0)));
    forall y ensures One(LIMIT, y) in m <==> y == Integer(2) || One(LIMIT, y) in edb { GivenFacts(edb, m, One(LIMIT, y)); }
    NoLimitInput(edb);
    if n :| One(USED, Integer(n)) in m && n >= 2 {
      assert Compare(Gte, Integer(n), Integer(2)) == Yes;
    }
  }

  lemma NoLimitInput(edb: seq<Fact>)
    requires InputsOk(POLICY, edb)
    ensures forall y :: One(LIMIT, y) !in edb
  {
  }

  lemma AllowMeaning(edb: seq<Fact>, m: Interp)
    requires Stable(POLICY, Base(POLICY, edb), m) && InputsOk(POLICY, edb)
    ensures One(ALLOW, Integer(0)) in m <==>
            && One(PROPOSED, Integer(0)) in edb && One(DENY, Integer(0)) !in m
            && exists v :: One(USED, v) in m
  {
    hide Derives, Stable, InputsOk;
    var f := One(ALLOW, Integer(0));
    DerivedFacts(edb, m, f);
    UsedCounterDerives(m, f);
    UsedHistoryDerives(m, f);
    DenyDerives(m, f);
    AllowDerives(m, f);
    GivenFacts(edb, m, One(PROPOSED, Integer(0)));
  }

  /** The inputs report n performed actions, as a counter or as a history of events. */
  ghost predicate Reports(edb: seq<Fact>, n: nat) {
    && (One(COUNTER, Integer(n)) in edb || One(HISTORY_MODE, Integer(0)) in edb)
    && (forall v :: One(COUNTER, v) in edb ==> v == Integer(n))
    && (One(HISTORY_MODE, Integer(0)) in edb ==> |Ids(EventSet(edb))| == n)
  }

  /** A proposal is allowed below the limit and denied from the limit on, never both and never
      neither, whichever way the performed actions are reported. */
  lemma QuotaDecides(edb: seq<Fact>, m: Interp, n: nat)
    requires Stable(POLICY, Base(POLICY, edb), m) && InputsOk(POLICY, edb)
    requires Reports(edb, n) && One(PROPOSED, Integer(0)) in edb
    ensures One(ALLOW, Integer(0)) in m <==> n < 2
    ensures One(DENY, Integer(0)) in m <==> n >= 2
  {
    hide Stable, InputsOk, Ids, EventSet;
    forall v: Value ensures One(USED, v) in m <==> v == Integer(n) { UsedMeaning(edb, m, v); }
    assert One(USED, Integer(n)) in m;
    DenyMeaning(edb, m);
    AllowMeaning(edb, m);
  }

  /* ---------- the policy loads ---------- */

  lemma PositiveIsSafe(rule: Rule, l: Literal)
    requires l.Positive?
    ensures SafeLiteral(rule, l)
  {
  }

  lemma CounterIsSafe()
    ensures SafeRule(USED_COUNTER)
  {
    var l := USED_COUNTER.body[0];
    BodyOf(l, l, l, l);
    PositiveIsSafe(USED_COUNTER, l);
  }

  lemma DenyIsSafe()
    ensures SafeRule(DENY_RULE)
  {
    hide BodyVars, SafeLiteral;
    var rule := DENY_RULE;
    BodyOf(rule.body[0], rule.body[1], rule.body[2], rule.body[3]);
    DenyHolds(map[], iset{});
    PositiveIsSafe(rule, rule.body[0]);
    PositiveIsSafe(rule, rule.body[1]);
    PositiveIsSafe(rule, rule.body[2]);
    assert SafeLiteral(rule, rule.body[3]) by { ComparisonIsSafe(rule, rule.body[3]); }
    assert TermsVars(rule.head.terms) == {} by { GroundOne(DENY, ZERO, map[]); }
  }

  lemma ComparisonIsSafe(rule: Rule, l: Literal)
    requires l == Comparison(Gte, Var(N), Var(L)) && N in BodyVars(rule.body) && L in BodyVars(rule.body)
    ensures SafeLiteral(rule, l)
  {
  }

  lemma AllowIsSafe()
    ensures SafeRule(ALLOW_RULE)
  {
    hide BodyVars, SafeLiteral;
    var rule := ALLOW_RULE;
    BodyOf(rule.body[0], rule.body[1], rule.body[2], rule.body[2]);
    PositiveIsSafe(rule, rule.body[0]);
    PositiveIsSafe(rule, rule.body[1]);
    GroundOne(DENY, ZERO, map[]);
    GroundOne(ALLOW, ZERO, map[]);
    NegationIsSafe(rule, rule.body[2]);
  }

  lemma NegationIsSafe(rule: Rule, l: Literal)
    requires l.Negated? && TermsVars(l.atom.terms) == {}
    ensures SafeLiteral(rule, l)
  {
  }

  lemma HistoryIsSafe()
    ensures SafeRule(USED_HISTORY)
  {
    hide BodyVars, SafeLiteral;
    var rule := USED_HISTORY;
    var a, l := rule.body[0], rule.body[1];
    BodyOf(a, l, l, l);
    CountHolds(map[], iset{});
    GroundOne(USED, Var(N), map[]);
    PositiveIsSafe(rule, a);
    CountIsSafe(rule);
  }

  lemma CountIsSafe(rule: Rule)
    requires rule == USED_HISTORY
    ensures SafeLiteral(rule, rule.body[1])
  {
    var a, l := rule.body[0], rule.body[1];
    GroundOne(EVENT, Var(I), map[]);
    GroundOne(USED, Var(N), map[]);
    GroundOne(HISTORY_MODE, ZERO, map[]);
    assert GroupKeys(l) == {} && Locals(l) == {I};
    assert rule.body[..1] == [a] && [a][..0] == [];
    assert PositiveVars([a]) == {} && PositiveVars(rule.body) == {};
    assert Mentions(a) == {} && Mentions(l) == {N};
    assert MentionedBy([a]) == {};
    assert MentionedBy(rule.body) == MentionedBy(rule.body[..1]) + Mentions(l);
    assert Outside(rule) == {N};
  }

  lemma PolicyLoads()
    ensures WellFormed(POLICY)
  {
    hide SafeRule;
    CounterIsSafe();
    HistoryIsSafe();
    DenyIsSafe();
    AllowIsSafe();
  }

  /* ---------- the engine always decides it ---------- */

  /** The strata the policy needs. */
  function Levels3(q: nat): nat {
    if q == ALLOW then 2 else if q == USED || q == DENY then 1 else 0
  }

  lemma PolicyStratifies()
    ensures Stratifies(POLICY, Levels3) && HeadsBelow(POLICY, Levels3, 3)
  {
    forall h, b, w | Edge(POLICY, h, b, w) ensures Levels3(b) + w <= Levels3(h) {
      var r, i :| 0 <= r < |POLICY.rules| && RuleEdge(POLICY.rules[r], i, h, b, w);
      assert r == 0 || r == 1 || r == 2 || r == 3;
      assert i == 0 || i == 1 || i == 2 || i == 3;
    }
  }

  /** The facts that can be derived when n actions are reported. */
  ghost function Derivable(n: nat): set<Fact> {
    {One(USED, Integer(n)), One(DENY, Integer(0)), One(ALLOW, Integer(0))}
  }

  lemma ModelHolds(edb: seq<Fact>, m: Interp, n: nat, f: Fact)
    requires Stable(POLICY, Base(POLICY, edb), m) && InputsOk(POLICY, edb) && Reports(edb, n) && f in m && f.pred >= USED
    ensures f in Derivable(n)
  {
    hide Stable, InputsOk, Derives, Ids, EventSet;
    DerivedFacts(edb, m, f);
    UsedCounterDerives(m, f);
    UsedHistoryDerives(m, f);
    DenyDerives(m, f);
    AllowDerives(m, f);
    if f.pred == USED {
      assert |f.values| == 1 && f == One(USED, f.values[0]);
      UsedMeaning(edb, m, f.values[0]);
    }
  }

  /** With room for one fact of each kind and two in all, the model fits: never both are derived. */
  lemma ModelFits(edb: seq<Fact>, m: Interp, n: nat, bounds: Bounds)
    requires Stable(POLICY, Base(POLICY, edb), m) && InputsOk(POLICY, edb) && Reports(edb, n) && One(PROPOSED, Integer(0)) in edb
    requires bounds.capacity >= 2 && bounds.perPredicate >= 1
    ensures Fits(POLICY, m, bounds)
  {
    hide Stable, InputsOk, Reports;
    QuotaDecides(edb, m, n);
    var most := if n < 2 then {One(USED, Integer(n)), One(ALLOW, Integer(0))} else {One(USED, Integer(n)), One(DENY, Integer(0))};
    forall s: set<Fact> | DerivedIn(POLICY, m, s)
      ensures |s| <= bounds.capacity && forall q :: |OfPredicate(s, q)| <= bounds.perPredicate
    {
      forall f | f in s ensures f in most { ModelHolds(edb, m, n, f); }
      SubsetCount(s, most);
      forall q: nat ensures |OfPredicate(s, q)| <= 1 {
        OneOfEach(s, n, q);
      }
    }
  }

  lemma OneOfEach(s: set<Fact>, n: nat, q: nat)
    requires s <= Derivable(n)
    ensures |OfPredicate(s, q)| <= 1
  {
    var some := if q == USED then {One(USED, Integer(n))} else if q == DENY then {One(DENY, Integer(0))}
                else if q == ALLOW then {One(ALLOW, Integer(0))} else {};
    SubsetCount(OfPredicate(s, q), some);
  }

  /** The limit test compares integers whenever it is reached. */
  lemma DenyNeverFatal(edb: seq<Fact>, m: Interp, n: nat, s: Bindings)
    requires Stable(POLICY, Base(POLICY, edb), m) && InputsOk(POLICY, edb) && Reports(edb, n)
    requires N in s && L in s && MatchedBefore(DENY_RULE.body, 3, s, m, m)
    ensures EvalComparison(DENY_RULE.body[3], s) != Fatal
  {
    hide Stable, InputsOk, Ids, EventSet, LiteralHolds, Binds;
    var body := DENY_RULE.body;
    DenyHolds(s, m);
    var done: set<nat> :| 3 !in done && PartialMatch(body, done, s, m, m);
    var k :| k in done && k < |body| && N in Binds(body[k]);
    assert k == 1;
    var j :| j in done && j < |body| && L in Binds(body[j]);
    assert j == 2;
    UsedMeaning(edb, m, s[N]);
    GivenFacts(edb, m, One(LIMIT, s[L]));
    NoLimitInput(edb);
    assert s[N] == Integer(n) && s[L] == Integer(2);
  }

  /** No literal of the policy is ever undecidable. */
  lemma AlwaysDecidable(edb: seq<Fact>, m: Interp, n: nat, r: nat, i: nat, s: Bindings)
    requires Stable(POLICY, Base(POLICY, edb), m) && InputsOk(POLICY, edb) && Reports(edb, n)
    ensures !UndecidableIn(POLICY, r, i, s, m)
  {
    hide Stable, InputsOk, Reports;
    if r == 2 && i == 3 && N in s && L in s && MatchedBefore(DENY_RULE.body, 3, s, m, m) {
      DenyNeverFatal(edb, m, n, s);
    }
    hide MatchedBefore, EvalComparison;
    if r < |POLICY.rules| {
      assert r == 0 || r == 1 || r == 2 || r == 3;
    }
  }

  /* ---------- and in few rounds ---------- */

  /** The facts of a round, as a finite set. */
  ghost function Found(strata: nat -> nat, t: nat, low: Interp, k: nat, n: nat): set<Fact> {
    set f | f in Derivable(n) && f in Round(POLICY, strata, t, low, k)
  }

  lemma RoundInModel(edb: seq<Fact>, strata: nat -> nat, t: nat, k: nat, n: nat, f: Fact)
    requires Stratifies(POLICY, strata) && InputsOk(POLICY, edb) && Reports(edb, n)
    requires f in Round(POLICY, strata, t, Stage(POLICY, strata, Base(POLICY, edb), t), k)
    ensures f in Derivable(n)
  {
    hide Stratifies, InputsOk, Reports, Round, Stable, Derivable;
    var base := Base(POLICY, edb);
    var low := Stage(POLICY, strata, base, t);
    var top := t + 1 + strata(USED) + strata(DENY) + strata(ALLOW);
    assert HeadsBelow(POLICY, strata, top);
    var m := Stage(POLICY, strata, base, top);
    PerfectIsStable(POLICY, strata, base, top);
    assert EventuallyDerived(POLICY, strata, t, low, f);
    StageFrozen(POLICY, strata, base, t + 1, top);
    RoundHeads(strata, t, low, k, f);
    ModelHolds(edb, m, n, f);
  }

  lemma {:induction false} RoundHeads(strata: nat -> nat, t: nat, low: Interp, k: nat, f: Fact)
    requires f in Round(POLICY, strata, t, low, k)
    ensures f.pred >= USED
  {
    hide Derives;
    if k > 0 && f in Round(POLICY, strata, t, low, k - 1) {
      RoundHeads(strata, t, low, k - 1, f);
    } else {
      var pos := if k == 0 then low else low + Round(POLICY, strata, t, low, k - 1);
      assert f in Consequences(POLICY, strata, t, pos, low);
      var r :| 0 <= r < |POLICY.rules| && strata(POLICY.rules[r].head.pred) == t && Derives(POLICY.rules[r], pos, low, f);
      DerivesHead(POLICY.rules[r], pos, low, f);
    }
  }

  /** As long as rounds do not settle, each finds another fact. */
  lemma {:induction false} RoundsFind(edb: seq<Fact>, strata: nat -> nat, t: nat, k: nat, n: nat)
    requires Stratifies(POLICY, strata) && InputsOk(POLICY, edb) && Reports(edb, n)
    requires var low := Stage(POLICY, strata, Base(POLICY, edb), t); forall j: nat :: j <= k ==> !SettlesBy(POLICY, strata, t, low, j)
    ensures |Found(strata, t, Stage(POLICY, strata, Base(POLICY, edb), t), k, n)| > k
  {
    hide Stratifies, InputsOk, Reports, Stage, Round, Derivable;
    var low := Stage(POLICY, strata, Base(POLICY, edb), t);
    var now := Round(POLICY, strata, t, low, k);
    var before := SemiNaive.Before(POLICY, strata, t, low, k);
    assert !SettlesBy(POLICY, strata, t, low, k);
    BeforeGrows(POLICY, strata, t, low, k);
    var f :| f in now && f !in before;
    RoundInModel(edb, strata, t, k, n, f);
    var found := Found(strata, t, low, k, n);
    if k > 0 {
      RoundsFind(edb, strata, t, k - 1, n);
      SubsetCount(Found(strata, t, low, k - 1, n) + {f}, found);
    } else {
      SubsetCount({f}, found);
    }
  }

  /** Three facts at most, so every stratum settles long before the limit. */
  lemma SettlesInTime(edb: seq<Fact>, strata: nat -> nat, t: nat, n: nat, plain: bool)
    requires Stratifies(POLICY, strata) && InputsOk(POLICY, edb) && Reports(edb, n)
    ensures SettlesBy(POLICY, strata, t, Stage(POLICY, strata, Base(POLICY, edb), t), RoundLimit(plain))
  {
    hide Stratifies, InputsOk, Reports, Stage, SettlesBy, Round;
    var low := Stage(POLICY, strata, Base(POLICY, edb), t);
    var d := RoundLimit(plain);
    if !SettlesBy(POLICY, strata, t, low, d) {
      forall j: nat | j <= 3 ensures !SettlesBy(POLICY, strata, t, low, j) {
        if SettlesBy(POLICY, strata, t, low, j) { SettlesLater(POLICY, strata, t, low, j, d); }
      }
      RoundsFind(edb, strata, t, 3, n);
      SubsetCount(Found(strata, t, low, 3, n), Derivable(n));
      ThreeAtMost(n);
    }
  }

  lemma ThreeAtMost(n: nat)
    ensures |Derivable(n)| <= 3
  {
  }

  /** No outcome but success is possible. */
  lemma OnlySuccess(edb: seq<Fact>, n: nat, bounds: Bounds, out: Outcome)
    requires InputsOk(POLICY, edb) && Reports(edb, n) && One(PROPOSED, Integer(0)) in edb
    requires bounds.capacity >= 2 && bounds.perPredicate >= 1 && Deserved(POLICY, edb, bounds, out)
    ensures out.Solved?
  {
    hide InputsOk, Reports, Stable, Fits, UndecidableIn, Stratifies, Stage, Deserved, SettlesBy;
    PolicyStratifies();
    var m := Stage(POLICY, Levels3, Base(POLICY, edb), 3);
    PerfectIsStable(POLICY, Levels3, Base(POLICY, edb), 3);
    ModelFits(edb, m, n, bounds);
    forall r: nat, i: nat, s: Bindings ensures !UndecidableIn(POLICY, r, i, s, m) { AlwaysDecidable(edb, m, n, r, i, s); }
    forall strata: seq<nat>, t: nat | OwnStrata(POLICY, strata) ensures InTime(POLICY, edb, strata, t) {
      SettlesInTime(edb, LevelsOf(strata), t, n, !NeedsStrata(POLICY));
    }
    assert !TooDeepForAll(POLICY) by { ThreeLevels(); }
    MustSolve(POLICY, edb, bounds, out, m);
  }

  lemma ThreeLevels()
    ensures !TooDeepForAll(POLICY)
  {
    hide Stratifies;
    PolicyStratifies();
    assert !NeedsLevel(Levels3, MAX_STRATA + 1);
  }

  /* ---------- the ledger ---------- */

  datatype Entry = Entry(id: nat, deadline: nat)

  const UINT64_SIZE: nat := 0x1_0000_0000_0000_0000

  /** The entries that are still to count after a time. */
  function After(es: seq<Entry>, now: nat): seq<Entry> {
    if es == [] then []
    else After(es[..|es| - 1], now) + (if es[|es| - 1].deadline > now then [es[|es| - 1]] else [])
  }

  lemma {:induction false} AfterShorter(es: seq<Entry>, now: nat)
    ensures |After(es, now)| <= |es|
  {
    if es != [] { AfterShorter(es[..|es| - 1], now); }
  }

  lemma AfterNothing(es: seq<Entry>, now: nat)
    requires es == []
    ensures After(es, now) == []
  {
  }

  lemma AfterGrows(es: seq<Entry>, e: Entry, now: nat)
    ensures After(es + [e], now) == After(es, now) + (if e.deadline > now then [e] else [])
  {
    assert (es + [e])[..|es|] == es;
  }

  /** A later look needs only what an earlier look has kept. */
  lemma {:induction false} AfterAgain(es: seq<Entry>, now: nat, later: nat)
    requires now <= later
    ensures After(After(es, now), later) == After(es, later)
  {
    if es != [] {
      var front, e := es[..|es| - 1], es[|es| - 1];
      AfterAgain(front, now, later);
      AfterGrows(After(front, now), e, later);
      if e.deadline <= now { assert After(es, now) == After(front, now); }
      if e.deadline <= later { assert After(es, later) == After(front, later); }
    }
  }

  /** Puts a proposal to the policy, with the number of actions that count. */
  method Decide(n: nat, large: bool) returns (allowed: bool)
    ensures allowed <==> n < 2
  {
    var inputs := [One(COUNTER, Integer(n)), One(PROPOSED, Integer(0))];
    PolicyLoads();
    assert InputsOk(POLICY, inputs) && Reports(inputs, n) by { InputsReport(n); }
    hide Stable, WellFormed, InputsOk, Reports, Fits, UndecidableIn, Stratifies, OwnStrata, InTime, Ascending, AllDerived;
    var out := Solve(POLICY, inputs, Configured(large));
    OnlySuccess(inputs, n, Configured(large), out);
    var facts := out.facts;
    allowed := One(ALLOW, Integer(0)) in facts && One(DENY, Integer(0)) !in facts;
    QuotaDecides(inputs, Answer(POLICY, inputs, facts), n);
  }

  class Ledger {
    const events: array<Entry>
    var count: nat
    var next: nat

    constructor ()
      ensures Valid() && Live() == [] && next == 0 && fresh(events)
    {
      events := new Entry[2](_ => Entry(0, 0));
      count, next := 0, 0;
    }

    ghost predicate Valid()
      reads this
    {
      events.Length == 2 && count <= 2
    }

    ghost function Live(): seq<Entry>
      requires Valid()
      reads this, events
    {
      events[..count]
    }

    /** Drops what has expired and moves the rest together. */
    method Expire(now: nat)
      requires Valid()
      modifies this`count, events
      ensures Valid() && Live() == After(old(Live()), now)
    {
      hide After;
      var n := count;
      ghost var es := events[..n];
      var kept := 0;
      AfterNothing(es[..0], now);
      for i := 0 to n
        invariant kept <= i && events[..kept] == After(es[..i], now)
        invariant forall k :: i <= k < n ==> events[k] == es[k]
      {
        ghost var before := events[..kept];
        assert es[..i + 1] == es[..i] + [es[i]];
        AfterGrows(es[..i], es[i], now);
        if events[i].deadline > now {
          events[kept] := events[i];
          kept := kept + 1;
          assert events[..kept] == before + [es[i]];
        }
      }
      assert es[..n] == es;
      count := kept;
    }

    /** One proposal: refused when the ledger is full, otherwise put to the policy, which always
        decides. An action is recorded only if it was allowed and then performed. */
    method Attempt(succeeds: bool, deadline: nat, large: bool) returns (performed: bool)
      requires Valid()
      modifies this`count, this`next, events
      ensures Valid()
      ensures performed <==> old(count) < 2 && succeeds
      ensures performed ==> Live() == old(Live()) + [Entry(old(next), deadline)] && next == (old(next) + 1) % UINT64_SIZE
      ensures !performed ==> Live() == old(Live()) && next == old(next)
    {
      performed := false;
      if count == 2 { return; }
      var allowed := Decide(count, large);
      if !allowed || !succeeds { return; }
      ghost var es := events[..count];
      events[count] := Entry(next, deadline);
      count, next := count + 1, (next + 1) % UINT64_SIZE;
      assert events[..count] == es + [events[count - 1]];
      performed := true;
    }
  }

  /** The limits a session of the example is configured with, in a small or a large build. */
  function Configured(large: bool): Bounds {
    Bounds(4, if large then 256 else 64)
  }

  lemma InputsReport(n: nat)
    ensures var inputs := [One(COUNTER, Integer(n)), One(PROPOSED, Integer(0))];
            InputsOk(POLICY, inputs) && Reports(inputs, n)
  {
  }

  /* ---------- every interleaving ---------- */

  datatype Call = Expiry(now: nat) | Proposal(succeeds: bool, deadline: nat)

  /** The ledger and, beside it, everything that was ever performed. */
  datatype Book = Book(live: seq<Entry>, history: seq<Entry>, next: nat, clock: nat)

  /** One call as bookkeeping. */
  function Play(b: Book, c: Call): Book {
    match c
    case Expiry(now) => Book(After(b.live, now), b.history, b.next, now)
    case Proposal(succeeds, deadline) =>
      if |b.live| < 2 && succeeds then
        var e := Entry(b.next, deadline);
        Book(b.live + [e], b.history + [e], (b.next + 1) % UINT64_SIZE, b.clock)
      else b
  }

  function PlayAll(calls: seq<Call>): Book {
    if calls == [] then Book([], [], 0, 0) else Play(PlayAll(calls[..|calls| - 1]), calls[|calls| - 1])
  }

  /** Time never runs backwards. */
  ghost predicate Forward(calls: seq<Call>) {
    forall i, j :: 0 <= i < j < |calls| && calls[i].Expiry? && calls[j].Expiry? ==> calls[i].now <= calls[j].now
  }

  /** At most two entries are held, none that has not expired is lost or moved, and ids tell the
      performed actions apart. */
  ghost predicate Kept(b: Book) {
    && |b.live| <= 2
    && After(b.live, b.clock) == After(b.history, b.clock)
    && |After(b.history, b.clock)| <= 2
    && (|b.history| < UINT64_SIZE ==> b.next == |b.history| && forall i :: 0 <= i < |b.history| ==> b.history[i].id == i)
  }

  lemma ClockBehind(calls: seq<Call>)
    requires Forward(calls) && calls != [] && calls[|calls| - 1].Expiry?
    ensures PlayAll(calls[..|calls| - 1]).clock <= calls[|calls| - 1].now
  {
    ClockIsSome(calls[..|calls| - 1]);
  }

  lemma {:induction false} ClockIsSome(calls: seq<Call>)
    ensures PlayAll(calls).clock == 0 || exists i :: 0 <= i < |calls| && calls[i].Expiry? && calls[i].now == PlayAll(calls).clock
  {
    if calls != [] {
      var n := |calls| - 1;
      ClockIsSome(calls[..n]);
      if calls[n].Proposal? && PlayAll(calls).clock != 0 {
        var i :| 0 <= i < n && calls[..n][i].Expiry? && calls[..n][i].now == PlayAll(calls[..n]).clock;
        assert calls[i] == calls[..n][i];
      }
    }
  }

  lemma ExpiryKeeps(b: Book, now: nat)
    requires Kept(b) && b.clock <= now
    ensures Kept(Play(b, Expiry(now)))
  {
    AfterAgain(b.live, b.clock, now);
    AfterAgain(b.history, b.clock, now);
    AfterAgain(b.live, now, now);
    AfterShorter(b.live, now);
    AfterShorter(After(b.live, now), now);
  }

  lemma ProposalKeeps(b: Book, c: Call)
    requires Kept(b) && c.Proposal?
    ensures Kept(Play(b, c))
  {
    var e := Entry(b.next, c.deadline);
    AfterGrows(b.live, e, b.clock);
    AfterGrows(b.history, e, b.clock);
    AfterShorter(b.live, b.clock);
    AfterShorter(b.live + [e], b.clock);
  }

  /** Over every interleaving of expiries and proposals, with whatever outcomes, the quota holds
      and nothing that counts is forgotten. */
  lemma {:induction false} QuotaHolds(calls: seq<Call>)
    requires Forward(calls)
    ensures Kept(PlayAll(calls))
  {
    if calls != [] {
      var n := |calls| - 1;
      assert Forward(calls[..n]) by {
        assert forall i :: 0 <= i < n ==> calls[..n][i] == calls[i];
      }
      QuotaHolds(calls[..n]);
      if calls[n].Expiry? {
        ClockBehind(calls);
        ExpiryKeeps(PlayAll(calls[..n]), calls[n].now);
      } else {
        ProposalKeeps(PlayAll(calls[..n]), calls[n]);
      }
    }
  }

  /** The ledger object does what the bookkeeping says, whatever is called on it: it holds exactly
      the entries of the book, so the quota holds of it and nothing that counts is forgotten. */
  method PlayOn(l: Ledger, calls: seq<Call>, large: bool)
    requires l.Valid() && l.Live() == [] && l.next == 0
    modifies l, l.events
    ensures l.Valid() && l.Live() == PlayAll(calls).live && l.next == PlayAll(calls).next
    ensures Forward(calls) ==> Kept(Book(l.Live(), PlayAll(calls).history, l.next, PlayAll(calls).clock))
  {
    hide Kept, Forward, After;
    for i := 0 to |calls|
      invariant l.Valid() && l.Live() == PlayAll(calls[..i]).live && l.next == PlayAll(calls[..i]).next
    {
      assert calls[..i + 1][..i] == calls[..i];
      match calls[i] {
        case Expiry(now) => l.Expire(now);
        case Proposal(succeeds, deadline) => var _ := l.Attempt(succeeds, deadline, large);
      }
    }
    assert calls[..|calls|] == calls;
    if Forward(calls) { QuotaHolds(calls); }
  }
}
