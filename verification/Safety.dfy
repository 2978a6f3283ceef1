/**
 Rule safety and join planning. Validation makes sure that every variable a rule reads
 is bound by its positive atoms or by an aggregate result; planning then orders the body
 so that each literal is evaluated only once its variables are bound.
 */
module Safety {
  import opened Datalog

  /* ---------- validation ---------- */

  datatype RuleError =
    | Accepted
    | AggregateShape
    | GroupKeyUnbound
    | LocalEscapes
    | ComparisonUnbound
    | NegationUnbound
    | HeadUnbound

  /** Variables a literal mentions outside the private scope of an aggregate. */
  function Mentions(l: Literal): set<nat> {
    if l.Aggregate? then GroupKeys(l) + {l.output} else Needs(l)
  }

  ghost function Outside(rule: Rule): set<nat> {
    TermsVars(rule.head.terms) + PositiveVars(rule.body) + MentionedBy(rule.body)
  }

  function MentionedBy(body: seq<Literal>): set<nat> {
    if body == [] then {} else MentionedBy(body[..|body| - 1]) + Mentions(body[|body| - 1])
  }

  predicate ShapedAggregate(l: Literal)
    requires l.Aggregate?
  {
    && l.projection != l.output
    && l.projection in TermsVars(l.atom.terms)
    && l.output !in TermsVars(l.atom.terms)
  }

  /** A safe literal: what it reads is bound somewhere in the body, and an aggregate keeps
      its private variables to itself. */
  ghost predicate SafeLiteral(rule: Rule, l: Literal) {
    if l.Aggregate? then
      ShapedAggregate(l) && GroupKeys(l) <= PositiveVars(rule.body) && Locals(l) !! Outside(rule)
    else
      Needs(l) <= BodyVars(rule.body)
  }

  ghost predicate SafeRule(rule: Rule) {
    && TermsVars(rule.head.terms) <= BodyVars(rule.body)
    && forall i :: 0 <= i < |rule.body| ==> SafeLiteral(rule, rule.body[i])
  }

  /** First sweep over the aggregates: their shape, their group keys, and the variables
      seen outside of them. */
  method CheckAggregates(rule: Rule, positive: set<nat>) returns (e: RuleError, bound: set<nat>, outside: set<nat>)
    requires positive == PositiveVars(rule.body)
    ensures e in {Accepted, AggregateShape, GroupKeyUnbound}
    ensures e.Accepted? <==>
              forall i :: 0 <= i < |rule.body| && rule.body[i].Aggregate? ==>
                ShapedAggregate(rule.body[i]) && GroupKeys(rule.body[i]) <= positive
    ensures e.Accepted? ==> bound == BodyVars(rule.body) && outside == Outside(rule)
  {
    hide ShapedAggregate, TermsVars;
    e, bound, outside := Accepted, positive, TermsVars(rule.head.terms) + positive;
    for i := 0 to |rule.body|
      invariant e.Accepted?
      invariant forall x :: 0 <= x < i && rule.body[x].Aggregate? ==>
                  ShapedAggregate(rule.body[x]) && GroupKeys(rule.body[x]) <= positive
      invariant bound == positive + BodyVars(rule.body[..i])
      invariant outside == TermsVars(rule.head.terms) + positive + MentionedBy(rule.body[..i])
    {
      var l := rule.body[i];
      assert rule.body[..i + 1][..i] == rule.body[..i];
      if l.Aggregate? {
        if !ShapedAggregate(l) { e := AggregateShape; return; }
        bound := bound + {l.output};
        outside := outside + {l.output} + GroupKeys(l);
        if !(GroupKeys(l) <= positive) { e := GroupKeyUnbound; return; }
      } else {
        outside := outside + Needs(l);
        if l.Positive? {
          forall v | v in Binds(l) ensures v in positive { PositiveVarsMember(rule.body, v); }
        }
      }
    }
    assert rule.body[..|rule.body|] == rule.body;
    forall v | v in positive ensures v in BodyVars(rule.body) {
      PositiveVarsMember(rule.body, v);
      BodyVarsMember(rule.body, v);
    }
  }

  /** The clause-local checks of the validation pass accept exactly the safe rules. */
  method ValidateRule(rule: Rule) returns (e: RuleError)
    ensures e.Accepted? <==> SafeRule(rule)
  {
    var bound, outside;
    e, bound, outside := CheckAggregates(rule, PositiveVars(rule.body));
    if !e.Accepted? { return; }
    for i := 0 to |rule.body|
      invariant forall x :: 0 <= x < i && rule.body[x].Aggregate? ==> Locals(rule.body[x]) !! outside
    {
      if rule.body[i].Aggregate? && !(Locals(rule.body[i]) !! outside) {
        return LocalEscapes;
      }
    }
    for i := 0 to |rule.body|
      invariant forall x :: 0 <= x < i && (rule.body[x].Comparison? || rule.body[x].Arithmetic?) ==>
                  Needs(rule.body[x]) <= bound
    {
      if (rule.body[i].Comparison? || rule.body[i].Arithmetic?) && !(Needs(rule.body[i]) <= bound) {
        return ComparisonUnbound;
      }
    }
    for i := 0 to |rule.body|
      invariant forall x :: 0 <= x < i && rule.body[x].Negated? ==> Needs(rule.body[x]) <= bound
    {
      if rule.body[i].Negated? && !(Needs(rule.body[i]) <= bound) {
        return NegationUnbound;
      }
    }
    if !(TermsVars(rule.head.terms) <= bound) {
      return HeadUnbound;
    }
    return Accepted;
  }

  /* ---------- join orders ---------- */

  /** Variables bound once the first n literals of an order were evaluated. */
  function BoundBy(body: seq<Literal>, order: seq<nat>, n: nat): set<nat>
    requires n <= |order| && forall j :: 0 <= j < |order| ==> order[j] < |body|
  {
    if n == 0 then {} else BoundBy(body, order, n - 1) + Binds(body[order[n - 1]])
  }

  ghost predicate Distinct(order: seq<nat>) {
    forall j, k :: 0 <= j < k < |order| ==> order[j] != order[k]
  }

  ghost predicate InBody(body: seq<Literal>, order: seq<nat>) {
    forall j :: 0 <= j < |order| ==> order[j] < |body|
  }

  ghost predicate SafeAt(body: seq<Literal>, order: seq<nat>, j: nat)
    requires InBody(body, order) && j < |order|
  {
    Needs(body[order[j]]) <= BoundBy(body, order, j)
  }

  /** An order that starts with the delta literal, if there is one, and evaluates every
      literal only after its variables are bound. */
  ghost predicate SafePrefix(body: seq<Literal>, order: seq<nat>, delta: Option<nat>) {
    && Distinct(order)
    && InBody(body, order)
    && (forall j :: 0 <= j < |order| ==> SafeAt(body, order, j))
    && (delta.Some? && order != [] ==> order[0] == delta.value)
  }

  ghost predicate SafeOrder(body: seq<Literal>, order: seq<nat>, delta: Option<nat>) {
    SafePrefix(body, order, delta) && |order| == |body|
  }

  lemma {:induction false} BoundByPrefix(body: seq<Literal>, order: seq<nat>, x: nat, n: nat)
    requires n <= |order| && (forall j :: 0 <= j < |order| ==> order[j] < |body|) && x < |body|
    ensures BoundBy(body, order + [x], n) == BoundBy(body, order, n)
  {
    if n > 0 { BoundByPrefix(body, order, x, n - 1); }
  }

  lemma {:induction false} BoundByCut(body: seq<Literal>, order: seq<nat>, q: nat, n: nat)
    requires InBody(body, order) && n <= q <= |order|
    ensures BoundBy(body, order[..q], n) == BoundBy(body, order, n)
  {
    if n > 0 { BoundByCut(body, order, q, n - 1); }
  }

  /** Any first part of a safe order is safe. */
  lemma SafePrefixCut(body: seq<Literal>, order: seq<nat>, delta: Option<nat>, q: nat)
    requires SafePrefix(body, order, delta) && q <= |order|
    ensures SafePrefix(body, order[..q], delta)
  {
    var part := order[..q];
    forall j | 0 <= j < q ensures SafeAt(body, part, j) {
      assert SafeAt(body, order, j) && part[j] == order[j];
      BoundByCut(body, order, q, j);
    }
  }

  lemma {:induction false} BoundByMember(body: seq<Literal>, order: seq<nat>, n: nat, v: nat)
    requires n <= |order| && forall j :: 0 <= j < |order| ==> order[j] < |body|
    ensures v in BoundBy(body, order, n) <==> exists j :: 0 <= j < n && v in Binds(body[order[j]])
  {
    if n > 0 { BoundByMember(body, order, n - 1, v); }
  }

  function UpTo(n: nat): (r: set<nat>)
    ensures |r| == n && forall j: nat :: j in r <==> j < n
  {
    if n == 0 then {} else UpTo(n - 1) + {n - 1}
  }

  function Visited(order: seq<nat>): set<nat> {
    set x | x in order
  }

  lemma {:induction false} VisitedCount(order: seq<nat>)
    requires Distinct(order)
    ensures |Visited(order)| == |order|
  {
    if order != [] {
      var front, last := order[..|order| - 1], order[|order| - 1];
      VisitedCount(front);
      assert Visited(order) == Visited(front) + {last};
    }
  }

  lemma {:induction false} SubsetCount<T>(a: set<T>, b: set<T>)
    requires a <= b
    ensures |a| <= |b|
    ensures |a| == |b| ==> a == b
  {
    if a != {} {
      var x :| x in a;
      SubsetCount(a - {x}, b - {x});
    }
  }

  /** A short order leaves a literal out, an order of full length none. */
  lemma OrderCovers(order: seq<nat>, n: nat)
    requires Distinct(order) && forall j :: 0 <= j < |order| ==> order[j] < n
    ensures |order| < n ==> exists i: nat :: i < n && i !in order
    ensures |order| == n ==> forall i: nat :: i < n ==> i in order
  {
    VisitedCount(order);
    SubsetCount(Visited(order), UpTo(n));
    forall i: nat | |order| == n && i < n
      ensures i in order
    {
      assert i in Visited(order);
    }
    if |order| < n && forall i: nat :: i < n ==> i in order {
      assert UpTo(n) <= Visited(order);
      SubsetCount(UpTo(n), Visited(order));
    }
  }

  /* ---------- planning ---------- */

  /** The static score: atoms are preferred by their bound and constant terms, stored
      relations before derived ones, every other literal last. */
  function Score(kinds: seq<Kind>, l: Literal, bound: set<nat>): int {
    if !l.Positive? then 0
    else
      100 + TermScores(l.atom.terms, bound) -
      (if l.atom.pred < |kinds| && kinds[l.atom.pred].Idb? then 50 else 0)
  }

  function TermScores(ts: seq<Term>, bound: set<nat>): int {
    if ts == [] then 0
    else
      (match ts[0] case Var(v) => (if v in bound then 20 else 0) case Const(_) => 10) +
      TermScores(ts[1..], bound)
  }

  /** A score, term by term: a hundred for an atom, fifty less if its predicate is derived, twenty
      more for every bound variable and ten for every constant. */
  lemma {:induction false} ScoreGrows(kinds: seq<Kind>, q: nat, ts: seq<Term>, t: Term, bound: set<nat>)
    ensures Score(kinds, Positive(Atom(q, [])), bound) == if q < |kinds| && kinds[q] == Idb then 50 else 100
    ensures Score(kinds, Positive(Atom(q, ts + [t])), bound) == Score(kinds, Positive(Atom(q, ts)), bound) +
              if t.Const? then 10 else if t.v in bound then 20 else 0
    decreases |ts|
  {
    if ts != [] {
      ScoreGrows(kinds, q, ts[1..], t, bound);
      assert (ts + [t])[1..] == ts[1..] + [t];
    } else {
      assert ts + [t] == [t] && [t][1..] == [];
    }
  }

  /** So every atom goes before every guard. */
  lemma {:induction false} AtomsFirst(kinds: seq<Kind>, a: Atom, l: Literal, bound: set<nat>)
    requires !l.Positive?
    ensures Score(kinds, l, bound) == 0 < 50 <= Score(kinds, Positive(a), bound)
    decreases |a.terms|
  {
    if a.terms != [] {
      var n := |a.terms| - 1;
      AtomsFirst(kinds, Atom(a.pred, a.terms[..n]), l, bound);
      ScoreGrows(kinds, a.pred, a.terms[..n], a.terms[n], bound);
      assert a.terms == a.terms[..n] + [a.terms[n]];
    }
  }

  /** A literal that may be evaluated next. */
  ghost predicate Ready(body: seq<Literal>, planned: seq<nat>, bound: set<nat>, i: nat) {
    i < |body| && i !in planned && Needs(body[i]) <= bound
  }

  /** The literal the planner takes next: ready, of the highest score, and of those the
      first in the body. */
  ghost predicate Best(kinds: seq<Kind>, body: seq<Literal>, planned: seq<nat>, bound: set<nat>, i: nat) {
    && Ready(body, planned, bound, i)
    && forall x: nat :: Ready(body, planned, bound, x) ==>
         Score(kinds, body[x], bound) < Score(kinds, body[i], bound) ||
         (Score(kinds, body[x], bound) == Score(kinds, body[i], bound) && i <= x)
  }

  method ChooseLiteral(kinds: seq<Kind>, body: seq<Literal>, planned: seq<nat>, bound: set<nat>)
    returns (best: Option<nat>)
    ensures best.None? ==> forall i: nat :: !Ready(body, planned, bound, i)
    ensures best.Some? ==> Best(kinds, body, planned, bound, best.value)
  {
    best := None;
    var bestScore := 0;
    for i := 0 to |body|
      invariant best.None? ==> forall x: nat :: x < i ==> !Ready(body, planned, bound, x)
      invariant best.Some? ==> best.value < i && bestScore == Score(kinds, body[best.value], bound)
      invariant best.Some? ==> Ready(body, planned, bound, best.value)
      invariant best.Some? ==>
                  forall x: nat :: x < i && Ready(body, planned, bound, x) ==>
                    Score(kinds, body[x], bound) < bestScore ||
                    (Score(kinds, body[x], bound) == bestScore && best.value <= x)
    {
      if i in planned || !(Needs(body[i]) <= bound) { continue; }
      var score := Score(kinds, body[i], bound);
      if best.None? || score > bestScore || (score == bestScore && i < best.value) {
        best, bestScore := Some(i), score;
      }
    }
  }

  lemma PlannedBinds(body: seq<Literal>, order: seq<nat>, i: nat)
    requires (forall j :: 0 <= j < |order| ==> order[j] < |body|) && i in order
    ensures Binds(body[i]) <= BoundBy(body, order, |order|)
  {
    var j :| 0 <= j < |order| && order[j] == i;
    forall v | v in Binds(body[i]) ensures v in BoundBy(body, order, |order|) {
      BoundByMember(body, order, |order|, v);
    }
  }

  /** On a safe rule some literal is always ready. */
  lemma NeverStuck(rule: Rule, order: seq<nat>, delta: Option<nat>) returns (i: nat)
    requires SafeRule(rule) && SafePrefix(rule.body, order, delta) && |order| < |rule.body|
    ensures Ready(rule.body, order, BoundBy(rule.body, order, |order|), i)
  {
    var body, bound := rule.body, BoundBy(rule.body, order, |order|);
    if x: nat :| x < |body| && x !in order && body[x].Positive? {
      return x;
    }
    assert PositiveVars(body) <= bound by {
      forall v | v in PositiveVars(body) ensures v in bound {
        PositiveVarsMember(body, v);
        var x :| 0 <= x < |body| && body[x].Positive? && v in Binds(body[x]);
        PlannedBinds(body, order, x);
      }
    }
    if x: nat :| x < |body| && x !in order && body[x].Aggregate? {
      assert SafeLiteral(rule, body[x]);
      return x;
    }
    assert BodyVars(body) <= bound by {
      forall v | v in BodyVars(body) ensures v in bound {
        BodyVarsMember(body, v);
        var x :| 0 <= x < |body| && v in Binds(body[x]);
        PlannedBinds(body, order, x);
      }
    }
    OrderCovers(order, |body|);
    i :| i < |body| && i !in order;
    assert SafeLiteral(rule, body[i]);
  }

  /** Plans a join. On a safe rule a plan always exists, is safe, starts with the delta
      literal and takes the best ready literal at every later place. */
  method PlanJoin(kinds: seq<Kind>, rule: Rule, delta: Option<nat>) returns (order: Option<seq<nat>>)
    requires delta.Some? ==> delta.value < |rule.body| && rule.body[delta.value].Positive?
    ensures SafeRule(rule) ==> order.Some?
    ensures order.Some? ==> SafeOrder(rule.body, order.value, delta)
    ensures order.Some? ==> Planned(kinds, rule.body, order.value, delta)
  {
    var body := rule.body;
    var planned: seq<nat>, bound := [], {};
    if delta.Some? {
      planned, bound := [delta.value], Binds(body[delta.value]);
      assert BoundBy(body, planned, 1) == BoundBy(body, planned, 0) + bound;
    }
    while |planned| < |body|
      invariant Planned(kinds, body, planned, delta) && bound == BoundBy(body, planned, |planned|)
      invariant delta.Some? ==> planned != []
      invariant |planned| <= |body|
    {
      var best := ChooseLiteral(kinds, body, planned, bound);
      if best.None? {
        if SafeRule(rule) { var i := NeverStuck(rule, planned, delta); }
        return None;
      }
      PlannedGrows(kinds, body, planned, delta, best.value);
      planned, bound := planned + [best.value], bound + Binds(body[best.value]);
    }
    return Some(planned);
  }

  ghost predicate BestAt(kinds: seq<Kind>, body: seq<Literal>, order: seq<nat>, j: nat)
    requires InBody(body, order) && j < |order|
  {
    Best(kinds, body, order[..j], BoundBy(body, order, j), order[j])
  }

  /** What the planner has built so far. */
  ghost predicate Planned(kinds: seq<Kind>, body: seq<Literal>, order: seq<nat>, delta: Option<nat>) {
    && SafePrefix(body, order, delta)
    && forall j :: (if delta.Some? then 1 else 0) <= j < |order| ==> BestAt(kinds, body, order, j)
  }

  lemma SafePrefixGrows(body: seq<Literal>, order: seq<nat>, delta: Option<nat>, x: nat)
    requires SafePrefix(body, order, delta) && (delta.Some? ==> order != [])
    requires Ready(body, order, BoundBy(body, order, |order|), x)
    ensures SafePrefix(body, order + [x], delta)
  {
    var next: seq<nat> := order + [x];
    assert InBody(body, next);
    forall j | 0 <= j < |next|
      ensures SafeAt(body, next, j)
    {
      BoundByPrefix(body, order, x, j);
      if j < |order| {
        assert SafeAt(body, order, j) && next[j] == order[j];
      } else {
        assert next[j] == x;
      }
    }
  }

  lemma BestAtPrefix(kinds: seq<Kind>, body: seq<Literal>, order: seq<nat>, x: nat, j: nat)
    requires InBody(body, order) && InBody(body, order + [x]) && j < |order| && x < |body|
    ensures BestAt(kinds, body, order, j) <==> BestAt(kinds, body, order + [x], j)
  {
    BoundByPrefix(body, order, x, j);
    assert (order + [x])[..j] == order[..j];
  }

  lemma PlannedGrows(kinds: seq<Kind>, body: seq<Literal>, order: seq<nat>, delta: Option<nat>, x: nat)
    requires Planned(kinds, body, order, delta) && (delta.Some? ==> order != [])
    requires Best(kinds, body, order, BoundBy(body, order, |order|), x)
    ensures Planned(kinds, body, order + [x], delta)
    ensures BoundBy(body, order + [x], |order| + 1) == BoundBy(body, order, |order|) + Binds(body[x])
  {
    var next: seq<nat> := order + [x];
    SafePrefixGrows(body, order, delta, x);
    BoundByPrefix(body, order, x, |order|);
    forall j | (if delta.Some? then 1 else 0) <= j < |next|
      ensures BestAt(kinds, body, next, j)
    {
      if j == |order| {
        assert next[..j] == order;
      } else {
        BestAtPrefix(kinds, body, order, x, j);
      }
    }
  }
}
