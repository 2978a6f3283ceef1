/**
 Assignment of strata to predicates: a head lies no lower than the predicates its rule
 uses positively, and strictly above the ones it negates or aggregates. The assignment
 relaxes one rule after another in place until nothing changes, and remembers for every
 predicate the dependency that last raised it, so that a policy without a stratification
 is reported at a predicate of an offending cycle.
 */
module Strata {
  import opened Datalog

  const MAX_PREDICATES: nat := 128
  const MAX_STRATA: nat := 4

  datatype StrataResult =
    | NotNeeded
    | Assigned(strata: seq<nat>, highest: nat)
    | Cycle(pred: nat)
    | TooDeep(required: nat)
    | InvalidPredicate

  /* ---------- the dependency graph ---------- */

  predicate Depends(l: Literal) {
    l.Positive? || l.Negated? || l.Aggregate?
  }

  function Weight(l: Literal): nat
    requires Depends(l)
  {
    if l.Positive? then 0 else 1
  }

  predicate NeedsStrata(p: Program) {
    exists r, i :: 0 <= r < |p.rules| && 0 <= i < |p.rules[r].body| &&
                   (p.rules[r].body[i].Negated? || p.rules[r].body[i].Aggregate?)
  }

  predicate RuleInRange(rule: Rule) {
    rule.head.pred < MAX_PREDICATES &&
    forall i :: 0 <= i < |rule.body| && Depends(rule.body[i]) ==> rule.body[i].atom.pred < MAX_PREDICATES
  }

  predicate InRange(p: Program) {
    forall r :: 0 <= r < |p.rules| ==> RuleInRange(p.rules[r])
  }

  predicate RuleEdge(rule: Rule, i: nat, h: nat, b: nat, w: nat) {
    i < |rule.body| && Depends(rule.body[i]) &&
    h == rule.head.pred && b == rule.body[i].atom.pred && w == Weight(rule.body[i])
  }

  /** Some rule for h uses b; w is 1 when it does so under negation or in an aggregate. */
  ghost predicate Edge(p: Program, h: nat, b: nat, w: nat) {
    exists r, i :: 0 <= r < |p.rules| && RuleEdge(p.rules[r], i, h, b, w)
  }

  /** s is a stratification: no dependency points upwards, none under negation or in an
      aggregate stays level. */
  ghost predicate Stratifies(p: Program, s: nat -> nat) {
    forall h, b, w :: Edge(p, h, b, w) ==> s(b) + w <= s(h)
  }

  /** The predicates path[0], path[1], ... each depend on the next, and the dependencies
      among them through negation or aggregates number total. */
  ghost predicate Walk(p: Program, path: seq<nat>, total: nat) {
    |path| >= 1 &&
    if |path| == 1 then total == 0
    else exists w: nat :: w <= total && Edge(p, path[0], path[1], w) && Walk(p, path[1..], total - w)
  }

  /** Recursion through negation or an aggregate, seen from v. */
  ghost predicate OnBadCycle(p: Program, v: nat) {
    exists path, total :: total > 0 && |path| > 1 && path[0] == v && path[|path| - 1] == v && Walk(p, path, total)
  }

  lemma {:induction false} WalkDescends(p: Program, s: nat -> nat, path: seq<nat>, total: nat)
    requires Stratifies(p, s) && Walk(p, path, total)
    ensures s(path[|path| - 1]) + total <= s(path[0])
    decreases |path|
  {
    if |path| > 1 {
      var w: nat :| w <= total && Edge(p, path[0], path[1], w) && Walk(p, path[1..], total - w);
      WalkDescends(p, s, path[1..], total - w);
    }
  }

  /** A policy with recursion through negation or an aggregate has no stratification. */
  lemma BadCycleRefutes(p: Program, v: nat)
    requires OnBadCycle(p, v)
    ensures !exists s: nat -> nat :: Stratifies(p, s)
  {
    var path, total :| total > 0 && |path| > 1 && path[0] == v && path[|path| - 1] == v && Walk(p, path, total);
    forall s: nat -> nat | Stratifies(p, s)
      ensures false
    {
      WalkDescends(p, s, path, total);
    }
  }

  /* ---------- the record of updates ---------- */

  /** For every predicate: its stratum so far, the dependency that last raised it with
      that dependency's weight, the pass of that update and its place in time. */
  datatype Trace = Trace(strata: seq<nat>, from: seq<nat>, weight: seq<nat>, pass: seq<nat>, time: seq<nat>, now: nat)

  ghost predicate Shaped(t: Trace) {
    && |t.strata| == MAX_PREDICATES && |t.from| == MAX_PREDICATES && |t.weight| == MAX_PREDICATES
    && |t.pass| == MAX_PREDICATES && |t.time| == MAX_PREDICATES
    && (forall v :: 0 <= v < MAX_PREDICATES ==> t.from[v] < MAX_PREDICATES)
  }

  /** u outranks v: strictly higher, or level with v and raised before it. */
  predicate Outranks(t: Trace, u: nat, v: nat)
    requires u < |t.strata| && v < |t.strata| && u < |t.time| && v < |t.time|
  {
    t.strata[v] < t.strata[u] || (t.strata[v] == t.strata[u] && t.time[u] < t.time[v])
  }

  ghost predicate Supported(p: Program, t: Trace, v: nat)
    requires Shaped(t) && v < MAX_PREDICATES
  {
    && t.time[v] <= t.now && t.strata[v] <= t.now
    && (t.strata[v] == 0 <==> t.pass[v] == 0)
    && (t.strata[v] > 0 ==>
          && Edge(p, v, t.from[v], t.weight[v])
          && t.strata[v] <= t.strata[t.from[v]] + t.weight[v]
          && (t.weight[v] == 0 ==> Outranks(t, t.from[v], v)))
    && (t.pass[v] >= 2 ==> t.pass[t.from[v]] + 1 >= t.pass[v])
  }

  ghost predicate Recorded(p: Program, t: Trace) {
    Shaped(t) && forall v :: 0 <= v < MAX_PREDICATES ==> Supported(p, t, v)
  }

  /** In pass k, with the first j rules done: a dependency whose source was not raised since
      its rule was last relaxed is satisfied. */
  ghost predicate Settled(p: Program, t: Trace, k: nat, j: nat)
    requires Shaped(t) && InRange(p)
  {
    forall q, i :: 0 <= q < |p.rules| && 0 <= i < |p.rules[q].body| && Depends(p.rules[q].body[i]) ==>
      SettledAt(t, p.rules[q], i, if q < j then k else k - 1)
  }

  ghost predicate SettledAt(t: Trace, rule: Rule, i: nat, since: int)
    requires Shaped(t) && RuleInRange(rule) && i < |rule.body| && Depends(rule.body[i])
  {
    t.pass[rule.body[i].atom.pred] < since ==>
      t.strata[rule.body[i].atom.pred] + Weight(rule.body[i]) <= t.strata[rule.head.pred]
  }

  ghost function Raise(t: Trace, h: nat, s: nat, u: nat, w: nat, k: nat): Trace
    requires Shaped(t) && h < MAX_PREDICATES
  {
    Trace(t.strata[h := s], t.from[h := u], t.weight[h := w], t.pass[h := k], t.time[h := t.now + 1], t.now + 1)
  }

  lemma RaiseKeepsRecord(p: Program, t: Trace, j: nat, i: nat, k: nat)
    requires InRange(p) && Recorded(p, t) && Settled(p, t, k, j)
    requires j < |p.rules| && i < |p.rules[j].body| && Depends(p.rules[j].body[i]) && k >= 1
    requires forall v :: 0 <= v < MAX_PREDICATES ==> t.pass[v] <= k
    requires var rule := p.rules[j];
             t.strata[rule.head.pred] < t.strata[rule.body[i].atom.pred] + Weight(rule.body[i])
    ensures var rule := p.rules[j];
            var u, w := rule.body[i].atom.pred, Weight(rule.body[i]);
            Recorded(p, Raise(t, rule.head.pred, t.strata[u] + w, u, w, k))
  {
    var rule := p.rules[j];
    var h, u, w := rule.head.pred, rule.body[i].atom.pred, Weight(rule.body[i]);
    var t' := Raise(t, h, t.strata[u] + w, u, w, k);
    assert RuleInRange(rule);
    assert RuleEdge(rule, i, h, u, w);
    assert Edge(p, h, u, w);
    assert SettledAt(t, rule, i, k - 1);
    assert Supported(p, t, u) && Supported(p, t, h);
    hide Edge, RuleEdge, Settled, InRange;
    forall v | 0 <= v < MAX_PREDICATES
      ensures Supported(p, t', v)
    {
      assert Supported(p, t, v);
      assert Supported(p, t, t.from[v]);
    }
  }

  lemma RaiseKeepsSettled(p: Program, t: Trace, j: nat, s: nat, u: nat, w: nat, k: nat)
    requires InRange(p) && Shaped(t) && Settled(p, t, k, j) && k >= 1
    requires j < |p.rules| && u < MAX_PREDICATES
    requires t.strata[p.rules[j].head.pred] <= s
    requires forall i :: 0 <= i < |p.rules[j].body| && Depends(p.rules[j].body[i]) ==>
               t.strata[p.rules[j].body[i].atom.pred] + Weight(p.rules[j].body[i]) <= s
    ensures Settled(p, Raise(t, p.rules[j].head.pred, s, u, w, k), k, j + 1)
  {
    var t' := Raise(t, p.rules[j].head.pred, s, u, w, k);
    forall q, i | 0 <= q < |p.rules| && 0 <= i < |p.rules[q].body| && Depends(p.rules[q].body[i])
      ensures SettledAt(t', p.rules[q], i, if q < j + 1 then k else k - 1)
    {
      assert RuleInRange(p.rules[q]);
      assert SettledAt(t, p.rules[q], i, if q < j then k else k - 1);
    }
  }

  lemma UnchangedKeepsSettled(p: Program, t: Trace, j: nat, k: nat)
    requires InRange(p) && Shaped(t) && Settled(p, t, k, j)
    requires j < |p.rules|
    requires forall i :: 0 <= i < |p.rules[j].body| && Depends(p.rules[j].body[i]) ==>
               t.strata[p.rules[j].body[i].atom.pred] + Weight(p.rules[j].body[i]) <= t.strata[p.rules[j].head.pred]
    ensures Settled(p, t, k, j + 1)
  {
    forall q, i | 0 <= q < |p.rules| && 0 <= i < |p.rules[q].body| && Depends(p.rules[q].body[i])
      ensures SettledAt(t, p.rules[q], i, if q < j + 1 then k else k - 1)
    {
      assert SettledAt(t, p.rules[q], i, if q < j then k else k - 1);
    }
  }

  /* ---------- following the record back ---------- */

  function Back(from: seq<nat>, v: nat, n: nat): nat
    requires v < |from| && forall x :: 0 <= x < |from| ==> from[x] < |from|
    ensures Back(from, v, n) < |from|
  {
    if n == 0 then v else from[Back(from, v, n - 1)]
  }

  lemma {:induction false} BackAdds(from: seq<nat>, v: nat, m: nat, n: nat)
    requires v < |from| && forall x :: 0 <= x < |from| ==> from[x] < |from|
    ensures Back(from, Back(from, v, m), n) == Back(from, v, m + n)
  {
    if n > 0 { BackAdds(from, v, m, n - 1); }
  }

  /** Each step back loses at most one pass. */
  lemma {:induction false} BackIsRecent(p: Program, t: Trace, v: nat, n: nat)
    requires Recorded(p, t) && v < MAX_PREDICATES && n < t.pass[v]
    ensures t.pass[Back(t.from, v, n)] + n >= t.pass[v]
  {
    if n > 0 {
      BackIsRecent(p, t, v, n - 1);
      assert Supported(p, t, Back(t.from, v, n - 1));
    }
  }

  /** Among more visits than there are places, two coincide. */
  lemma {:induction false} Pigeonhole(f: seq<nat>, n: nat)
    requires |f| > n >= 1 && forall i :: 0 <= i < |f| ==> f[i] < n
    ensures exists i, j :: 0 <= i < j < |f| && f[i] == f[j]
  {
    if n == 1 {
      assert f[0] == f[1];
    } else {
      if i :| 0 <= i < |f| && f[i] == n - 1 {
        if j :| 0 <= j < |f| && j != i && f[j] == n - 1 {
          if i < j { assert f[i] == f[j]; } else { assert f[j] == f[i]; }
        } else {
          var g := f[..i] + f[i + 1..];
          Pigeonhole(g, n - 1);
          var a, b :| 0 <= a < b < |g| && g[a] == g[b];
          var a', b' := if a < i then a else a + 1, if b < i then b else b + 1;
          assert f[a'] == f[b'];
        }
      } else {
        Pigeonhole(f, n - 1);
      }
    }
  }

  /** The dependencies recorded on the way back from v form a walk. */
  lemma {:induction false} BackWalk(p: Program, t: Trace, v: nat, n: nat) returns (path: seq<nat>, total: nat)
    requires Recorded(p, t) && v < MAX_PREDICATES
    requires forall i :: 0 <= i < n ==> t.strata[Back(t.from, v, i)] > 0
    ensures Walk(p, path, total) && |path| == n + 1
    ensures path[0] == v && path[n] == Back(t.from, v, n)
    ensures total == 0 && n > 0 ==> Outranks(t, path[n], v)
    decreases n
  {
    if n == 0 {
      return [v], 0;
    }
    var u := t.from[v];
    assert Back(t.from, v, 0) == v && t.strata[v] > 0;
    assert Supported(p, t, v);
    assert u == Back(t.from, v, 1);
    forall i | 0 <= i < n - 1
      ensures Back(t.from, u, i) == Back(t.from, v, i + 1) && t.strata[Back(t.from, u, i)] > 0
    {
      BackAdds(t.from, v, 1, i);
    }
    BackAdds(t.from, v, 1, n - 1);
    var rest, sum := BackWalk(p, t, u, n - 1);
    path, total := [v] + rest, t.weight[v] + sum;
    assert path[1..] == rest;
    assert Edge(p, path[0], path[1], t.weight[v]) && Walk(p, path[1..], total - t.weight[v]);
  }

  /** After one pass more than there are predicates, going back that many dependencies from
      the predicate raised last ends on a cycle through negation or an aggregate. */
  lemma LastRaisedLeadsToCycle(p: Program, t: Trace, v: nat)
    requires Recorded(p, t) && v < MAX_PREDICATES && t.pass[v] == MAX_PREDICATES + 1
    ensures OnBadCycle(p, Back(t.from, v, MAX_PREDICATES))
  {
    hide Edge;
    var n := MAX_PREDICATES;
    var f := seq(n + 1, i requires 0 <= i <= n => Back(t.from, v, i));
    Pigeonhole(f, n);
    var i, j :| 0 <= i < j < |f| && f[i] == f[j];
    forall m | 0 <= m <= n
      ensures t.strata[Back(t.from, v, m)] > 0
    {
      BackIsRecent(p, t, v, m);
      assert Supported(p, t, Back(t.from, v, m));
    }
    var d := j - i;
    var end := Back(t.from, v, n);
    CycleRepeats(t.from, v, i, d, n - i);
    forall m | 0 <= m < d
      ensures t.strata[Back(t.from, end, m)] > 0
    {
      BackStaysOnCycle(t, v, i, d, n - i + m);
      BackAdds(t.from, v, n, m);
    }
    var path, total := BackWalk(p, t, end, d);
    BackAdds(t.from, v, n, d);
    assert path[|path| - 1] == end;
    assert total > 0;
  }

  lemma {:induction false} CycleRepeats(from: seq<nat>, v: nat, i: nat, d: nat, m: nat)
    requires v < |from| && forall x :: 0 <= x < |from| ==> from[x] < |from|
    requires Back(from, v, i) == Back(from, v, i + d)
    ensures Back(from, v, i + m) == Back(from, v, i + m + d)
  {
    if m > 0 { CycleRepeats(from, v, i, d, m - 1); }
  }

  lemma {:induction false} BackStaysOnCycle(t: Trace, v: nat, i: nat, d: nat, m: nat)
    requires Shaped(t) && v < MAX_PREDICATES && d > 0
    requires Back(t.from, v, i) == Back(t.from, v, i + d)
    requires forall x :: 0 <= x <= i + d ==> t.strata[Back(t.from, v, x)] > 0
    ensures t.strata[Back(t.from, v, i + m)] > 0
    decreases m
  {
    if m > d {
      CycleRepeats(t.from, v, i, d, m - d);
      BackStaysOnCycle(t, v, i, d, m - d);
    }
  }

  /* ---------- the assignment ---------- */

  /** Relaxes one rule: the stratum its head needs now, and the dependency that asks for it. */
  method Relax(rule: Rule, strata: array<nat>) returns (valid: bool, s: nat, u: nat, ghost at: nat)
    requires strata.Length == MAX_PREDICATES
    ensures valid <==> RuleInRange(rule)
    ensures valid ==>
              && strata[rule.head.pred] <= s && u < MAX_PREDICATES
              && (forall i :: 0 <= i < |rule.body| && Depends(rule.body[i]) ==>
                    strata[rule.body[i].atom.pred] + Weight(rule.body[i]) <= s)
              && (s > strata[rule.head.pred] ==>
                    at < |rule.body| && Depends(rule.body[at]) && u == rule.body[at].atom.pred &&
                    s == strata[u] + Weight(rule.body[at]))
  {
    valid, s, u, at := false, 0, 0, 0;
    var h := rule.head.pred;
    if h >= MAX_PREDICATES { return; }
    s := strata[h];
    for i := 0 to |rule.body|
      invariant strata[h] <= s && u < MAX_PREDICATES
      invariant forall x :: 0 <= x < i && Depends(rule.body[x]) ==>
                  rule.body[x].atom.pred < MAX_PREDICATES &&
                  strata[rule.body[x].atom.pred] + Weight(rule.body[x]) <= s
      invariant s > strata[h] ==>
                  at < |rule.body| && Depends(rule.body[at]) && u == rule.body[at].atom.pred &&
                  s == strata[u] + Weight(rule.body[at])
    {
      var l := rule.body[i];
      if Depends(l) {
        var b := l.atom.pred;
        if b >= MAX_PREDICATES { return; }
        var ns := strata[b] + Weight(l);
        if ns > s {
          s, u, at := ns, b, i;
        }
      }
    }
    valid := true;
  }

  /** strata never exceeds a stratification. */
  ghost predicate Below(p: Program, strata: seq<nat>) {
    forall s: nat -> nat, v: nat :: Stratifies(p, s) && v < |strata| ==> strata[v] <= s(v)
  }

  lemma RaiseStaysBelow(p: Program, strata: seq<nat>, j: nat, i: nat)
    requires Below(p, strata) && |strata| == MAX_PREDICATES
    requires j < |p.rules| && RuleInRange(p.rules[j]) && i < |p.rules[j].body| && Depends(p.rules[j].body[i])
    ensures var l := p.rules[j].body[i];
            Below(p, strata[p.rules[j].head.pred := strata[l.atom.pred] + Weight(l)])
  {
    var l := p.rules[j].body[i];
    var h, u, w := p.rules[j].head.pred, l.atom.pred, Weight(l);
    assert RuleEdge(p.rules[j], i, h, u, w);
    assert Edge(p, h, u, w);
    forall s: nat -> nat, v: nat | Stratifies(p, s) && v < MAX_PREDICATES
      ensures strata[h := strata[u] + w][v] <= s(v)
    {
      assert strata[u] <= s(u) && s(u) + w <= s(h);
    }
  }

  /** The strata found, as a function on predicates. */
  function StratumOf(strata: seq<nat>, v: nat): nat {
    if v < |strata| then strata[v] else 0
  }

  function LevelsOf(strata: seq<nat>): nat -> nat {
    (v: nat) => StratumOf(strata, v)
  }

  lemma QuietPassStratifies(p: Program, t: Trace, k: nat)
    requires InRange(p) && Shaped(t) && Settled(p, t, k, |p.rules|)
    requires forall v :: 0 <= v < MAX_PREDICATES ==> t.pass[v] < k
    ensures Stratifies(p, LevelsOf(t.strata))
  {
    forall h, b, w | Edge(p, h, b, w)
      ensures StratumOf(t.strata, b) + w <= StratumOf(t.strata, h)
    {
      var r, i :| 0 <= r < |p.rules| && RuleEdge(p.rules[r], i, h, b, w);
      assert RuleInRange(p.rules[r]);
      assert SettledAt(t, p.rules[r], i, k);
    }
  }

  /** One pass over the rules, in place. */
  method Pass(p: Program, strata: array<nat>, predecessor: array<nat>, last: nat, ghost t0: Trace, ghost k: nat)
    returns (valid: bool, changed: bool, updated: nat, ghost t: Trace)
    requires strata.Length == MAX_PREDICATES && predecessor.Length == MAX_PREDICATES && strata != predecessor
    requires Recorded(p, t0) && t0.strata == strata[..] && t0.from == predecessor[..] && Below(p, t0.strata)
    requires k >= 1 && (forall v :: 0 <= v < MAX_PREDICATES ==> t0.pass[v] < k)
    requires k > 1 ==> InRange(p)
    requires InRange(p) ==> Settled(p, t0, k, 0)
    requires last < MAX_PREDICATES
    modifies strata, predecessor
    ensures valid <==> InRange(p)
    ensures valid ==>
              && Recorded(p, t) && t.strata == strata[..] && t.from == predecessor[..] && Below(p, t.strata)
              && (forall v :: 0 <= v < MAX_PREDICATES ==> t.pass[v] <= k)
              && Settled(p, t, k, |p.rules|)
              && t0.now <= t.now <= t0.now + |p.rules|
              && updated < MAX_PREDICATES && (changed ==> t.pass[updated] == k)
              && (!changed ==> t == t0)
  {
    valid, changed, updated, t := false, false, last, t0;
    for j := 0 to |p.rules|
      invariant forall r :: 0 <= r < j ==> RuleInRange(p.rules[r])
      invariant Shaped(t) && t.strata == strata[..] && t.from == predecessor[..] && Below(p, t.strata)
      invariant forall v :: 0 <= v < MAX_PREDICATES ==> t.pass[v] <= k
      invariant InRange(p) ==> Recorded(p, t) && Settled(p, t, k, j)
      invariant t0.now <= t.now <= t0.now + j
      invariant updated < MAX_PREDICATES && (changed ==> t.pass[updated] == k)
      invariant !changed ==> t == t0
    {
      var ok, s, u, at := Relax(p.rules[j], strata);
      if !ok { return; }
      var h := p.rules[j].head.pred;
      if s > strata[h] {
        ghost var t' := Raise(t, h, s, u, Weight(p.rules[j].body[at]), k);
        RaiseStaysBelow(p, t.strata, j, at);
        if InRange(p) {
          RaiseKeepsRecord(p, t, j, at, k);
          RaiseKeepsSettled(p, t, j, s, u, Weight(p.rules[j].body[at]), k);
        }
        strata[h], predecessor[h], updated, changed := s, u, h, true;
        t := t';
      } else if InRange(p) {
        UnchangedKeepsSettled(p, t, j, k);
      }
    }
    valid := true;
  }

  /** Passes until nothing changes, or one more than there are predicates. */
  method Saturate(p: Program, strata: array<nat>, predecessor: array<nat>)
    returns (valid: bool, changed: bool, updated: nat, ghost t: Trace)
    requires strata.Length == MAX_PREDICATES && predecessor.Length == MAX_PREDICATES && strata != predecessor
    requires forall v :: 0 <= v < MAX_PREDICATES ==> strata[v] == 0 && predecessor[v] == 0
    modifies strata, predecessor
    ensures valid <==> InRange(p)
    ensures valid ==>
              && Recorded(p, t) && t.strata == strata[..] && t.from == predecessor[..] && Below(p, t.strata)
              && updated < MAX_PREDICATES
              && (changed ==> t.pass[updated] == MAX_PREDICATES + 1)
              && (!changed ==> Stratifies(p, LevelsOf(t.strata)))
              && t.now <= Relaxations(MAX_PREDICATES + 1, |p.rules|)
  {
    var iters: nat := 0;
    valid, updated, changed := true, 0, true;
    ghost var zeros: seq<nat> := seq(MAX_PREDICATES, _ => 0);
    t := Trace(zeros, zeros, zeros, zeros, zeros, 0);
    assert strata[..] == zeros && predecessor[..] == zeros;
    while changed && iters <= MAX_PREDICATES
      invariant iters <= MAX_PREDICATES + 1 && updated < MAX_PREDICATES
      invariant valid && (iters > 0 ==> InRange(p)) && (!changed ==> iters > 0)
      invariant Recorded(p, t) && t.strata == strata[..] && t.from == predecessor[..] && Below(p, t.strata)
      invariant forall v :: 0 <= v < MAX_PREDICATES ==> t.pass[v] < iters + 1
      invariant InRange(p) ==> Settled(p, t, iters + 1, 0)
      invariant t.now <= Relaxations(iters, |p.rules|)
      invariant iters > 0 && changed ==> t.pass[updated] == iters
      invariant !changed ==> Stratifies(p, LevelsOf(t.strata))
      decreases MAX_PREDICATES + 1 - iters, changed
    {
      ghost var k := iters + 1;
      valid, changed, updated, t := Pass(p, strata, predecessor, updated, t, k);
      if !valid { return; }
      if !changed { QuietPassStratifies(p, t, k); }
      SettledNextPass(p, t, k);
      iters := iters + 1;
    }
    RelaxationsGrow(iters, MAX_PREDICATES + 1, |p.rules|);
  }

  /** A stratum grows by one with a relaxed rule at most, so it stays far below 32 bits. */
  ghost function Relaxations(passes: nat, rules: nat): nat {
    if passes == 0 then 0 else Relaxations(passes - 1, rules) + rules
  }

  lemma {:induction false} RelaxationsGrow(passes: nat, more: nat, rules: nat)
    requires passes <= more
    ensures Relaxations(passes, rules) <= Relaxations(more, rules)
  {
    if passes < more { RelaxationsGrow(passes, more - 1, rules); }
  }

  /** Follows the recorded dependencies back from the predicate raised last. */
  method FollowBack(predecessor: array<nat>, last: nat) returns (v: nat)
    requires predecessor.Length == MAX_PREDICATES && last < MAX_PREDICATES
    requires forall x :: 0 <= x < MAX_PREDICATES ==> predecessor[x] < MAX_PREDICATES
    ensures v == Back(predecessor[..], last, MAX_PREDICATES)
  {
    v := last;
    for i := 0 to MAX_PREDICATES
      invariant v == Back(predecessor[..], last, i)
    {
      v := predecessor[v];
    }
  }

  method Highest(strata: array<nat>) returns (highest: nat, ghost top: nat)
    requires strata.Length == MAX_PREDICATES
    ensures top < MAX_PREDICATES && strata[top] == highest
    ensures forall v :: 0 <= v < MAX_PREDICATES ==> strata[v] <= highest
  {
    highest, top := 0, 0;
    for i := 0 to MAX_PREDICATES
      invariant top < MAX_PREDICATES && (highest == 0 || highest == strata[top])
      invariant forall v :: 0 <= v < i ==> strata[v] <= highest
    {
      if strata[i] > highest { highest, top := strata[i], i; }
    }
  }

  /** Assigns strata. An assigned policy gets its least stratification; a policy is refused
      for a cycle exactly when it has no stratification, at a predicate of such a cycle; and
      for its depth exactly when every stratification needs too many strata. */
  method AssignStrata(p: Program) returns (r: StrataResult)
    ensures r.NotNeeded? <==> !NeedsStrata(p)
    ensures r.InvalidPredicate? <==> NeedsStrata(p) && !InRange(p)
    ensures r.Assigned? ==>
              && |r.strata| == MAX_PREDICATES
              && Stratifies(p, LevelsOf(r.strata))
              && Below(p, r.strata)
              && (forall v :: 0 <= v < MAX_PREDICATES ==> r.strata[v] <= r.highest)
              && r.highest in r.strata && r.highest < MAX_STRATA
    ensures r.TooDeep? ==>
              && (exists s: nat -> nat :: Stratifies(p, s))
              && r.required > MAX_STRATA
              && (forall s: nat -> nat :: Stratifies(p, s) ==> NeedsLevel(s, r.required))
    ensures r.Cycle? ==> OnBadCycle(p, r.pred) && !exists s: nat -> nat :: Stratifies(p, s)
    ensures r.Cycle? <==> NeedsStrata(p) && InRange(p) && exists v :: OnBadCycle(p, v)
  {
    if !NeedsStrata(p) { return NotNeeded; }
    var strata, predecessor := new nat[MAX_PREDICATES](_ => 0), new nat[MAX_PREDICATES](_ => 0);
    var valid, changed, updated, t := Saturate(p, strata, predecessor);
    if !valid { return InvalidPredicate; }
    if changed {
      var v := FollowBack(predecessor, updated);
      LastRaisedLeadsToCycle(p, t, updated);
      BadCycleRefutes(p, v);
      return Cycle(v);
    }
    if v :| OnBadCycle(p, v) { BadCycleRefutes(p, v); }
    var highest, top := Highest(strata);
    if highest >= MAX_STRATA {
      forall s: nat -> nat | Stratifies(p, s)
        ensures NeedsLevel(s, highest + 1)
      {
        assert t.strata[top] <= s(top);
      }
      return TooDeep(highest + 1);
    }
    assert t.strata[top] in strata[..];
    return Assigned(strata[..], highest);
  }

  /** s uses at least the given number of levels. */
  ghost predicate NeedsLevel(s: nat -> nat, levels: nat) {
    exists v: nat :: v < MAX_PREDICATES && s(v) + 1 >= levels
  }

  lemma SettledNextPass(p: Program, t: Trace, k: nat)
    requires InRange(p) && Shaped(t) && Settled(p, t, k, |p.rules|)
    ensures Settled(p, t, k + 1, 0)
  {
    forall q, i | 0 <= q < |p.rules| && 0 <= i < |p.rules[q].body| && Depends(p.rules[q].body[i])
      ensures SettledAt(t, p.rules[q], i, k + 1 - 1)
    {
      assert SettledAt(t, p.rules[q], i, k);
    }
  }
}
