/**
 The caller of a bank. It keeps positions that each hold a key, counts how often every key occurs,
 and turns a batch of moves into a change.
 */
module DeltaTrace {
  import opened Arithmetic
  import opened Datalog
  import opened FactOrder
  import opened Safety
  import opened DeltaStage
  import opened DeltaBackend
  import opened DeltaBank

  /* ---------- the logical trace ---------- */

  /** A case: how many positions, whether neighbours share a key at first, how many positions a
      step moves, and how a key is written as a fact. */
  datatype Case = Case(n: nat, window: bool, batch: nat, event: nat, symbols: bool, atoms: seq<nat>)

  predicate Proper(c: Case) {
    0 < c.n && |c.atoms| == 5
  }

  function FactOf(c: Case, key: nat): Fact
    requires Proper(c)
  {
    Fact(c.event, [Integer(key),
                   if c.symbols then Symbol(c.atoms[key % 5]) else Integer(key % 7),
                   Boolean(key % 2 == 1)])
  }

  /** The terms of two facts agree exactly if their keys are the same, agree modulo five (symbols)
      or seven, and are both odd or both even. */
  lemma TermsAgree(c: Case, j: nat, k: nat)
    requires Proper(c) && forall x, y :: 0 <= x < y < 5 ==> c.atoms[x] != c.atoms[y]
    ensures var f, g := FactOf(c, j).values, FactOf(c, k).values;
            && (f[0] == g[0] <==> j == k) && (f[2] == g[2] <==> (j - k) % 2 == 0)
            && (f[1] == g[1] <==> if c.symbols then (j - k) % 5 == 0 else (j - k) % 7 == 0)
    ensures FactOf(c, 0).values[2] == Boolean(false)
  {
    ModuloTwo(j, k);
    if c.symbols { ModuloFive(j, k); } else { ModuloSeven(j, k); }
  }

  lemma ModuloTwo(j: nat, k: nat)
    ensures (j - k) % 2 == 0 <==> (j % 2 == 1 <==> k % 2 == 1)
  {
    assert j - k == 2 * (j / 2 - k / 2) + (j % 2 - k % 2);
  }

  lemma ModuloFive(j: nat, k: nat)
    ensures (j - k) % 5 == 0 <==> j % 5 == k % 5
  {
    assert j - k == 5 * (j / 5 - k / 5) + (j % 5 - k % 5);
  }

  lemma ModuloSeven(j: nat, k: nat)
    ensures (j - k) % 7 == 0 <==> j % 7 == k % 7
  {
    assert j - k == 7 * (j / 7 - k / 7) + (j % 7 - k % 7);
  }

  function Flip(c: Case, key: nat): nat {
    if key < c.n then key + c.n else key - c.n
  }

  function Spot(c: Case, from: nat, i: nat): (r: nat)
    requires Proper(c)
    ensures r < c.n
  {
    (from + i) % c.n
  }

  /** The positions after i moves of a batch. */
  function Touched(c: Case, ps: seq<nat>, from: nat, i: nat): (r: seq<nat>)
    requires Proper(c) && |ps| == c.n
    ensures |r| == c.n
  {
    if i == 0 then ps
    else
      var before := Touched(c, ps, from, i - 1);
      before[Spot(c, from, i - 1) := Flip(c, before[Spot(c, from, i - 1)])]
  }

  function Start(c: Case): (r: seq<nat>)
    requires Proper(c)
    ensures |r| == c.n && forall i :: 0 <= i < c.n ==> r[i] == if c.window then i / 2 else i
  {
    seq(c.n, i requires 0 <= i < c.n => if c.window then i / 2 else i)
  }

  /** The positions at a logical step. */
  function Positions(c: Case, t: nat): (r: seq<nat>)
    requires Proper(c)
    ensures |r| == c.n
  {
    if t == 0 then Start(c) else Touched(c, Positions(c, t - 1), (t - 1) * c.batch, c.batch)
  }

  ghost predicate Keys(c: Case, ps: seq<nat>) {
    forall i :: 0 <= i < |ps| ==> ps[i] < 2 * c.n
  }

  lemma {:induction false} TouchedKeys(c: Case, ps: seq<nat>, from: nat, i: nat)
    requires Proper(c) && |ps| == c.n && Keys(c, ps)
    ensures Keys(c, Touched(c, ps, from, i))
  {
    if i > 0 { TouchedKeys(c, ps, from, i - 1); }
  }

  /** How many of the first i moves of a batch go to a position. */
  function Visits(c: Case, from: nat, i: nat, pos: nat): nat
    requires Proper(c)
  {
    if i == 0 then 0 else Visits(c, from, i - 1, pos) + if Spot(c, from, i - 1) == pos then 1 else 0
  }

  /** Every second visit takes a position back to its first key, the others to the key as far
      into the other half. */
  lemma {:induction false} TouchedAt(c: Case, ps: seq<nat>, from: nat, i: nat, pos: nat)
    requires Proper(c) && |ps| == c.n && pos < c.n && ps[pos] < 2 * c.n
    ensures Touched(c, ps, from, i)[pos] ==
            if Visits(c, from, i, pos) % 2 == 0 then ps[pos] else if ps[pos] < c.n then ps[pos] + c.n else ps[pos] - c.n
  {
    hide Spot;
    if i > 0 { TouchedAt(c, ps, from, i - 1, pos); }
  }

  /** The moves go round: once in every lap, and once more where the last lap has come past. */
  lemma {:induction false} VisitsAre(c: Case, m: nat, pos: nat)
    requires Proper(c) && pos < c.n
    ensures Visits(c, 0, m, pos) == m / c.n + if pos < m % c.n then 1 else 0
  {
    if m == 0 {
      Quotient(0, 0, c.n);
    } else {
      VisitsAre(c, m - 1, pos);
      var q, r := (m - 1) / c.n, (m - 1) % c.n;
      Parts(m - 1, c.n);
      Scaled(q, q, c.n);
      if r == c.n - 1 { Quotient(m, q + 1, c.n); } else { Quotient(m, q, c.n); }
    }
  }

  lemma {:induction false} VisitsAdd(c: Case, from: nat, i: nat, pos: nat)
    requires Proper(c)
    ensures Visits(c, 0, from + i, pos) == Visits(c, 0, from, pos) + Visits(c, from, i, pos)
  {
    if i > 0 {
      VisitsAdd(c, from, i - 1, pos);
      assert Spot(c, 0, from + i - 1) == Spot(c, from, i - 1);
    }
  }

  /** The key of a position at a logical step: its first one, or that key of the other half,
      depending on how often all the moves so far have come past it. */
  lemma {:induction false} PositionsAre(c: Case, t: nat, pos: nat)
    requires Proper(c) && pos < c.n
    ensures var m := t * c.batch;
            var first := if c.window then pos / 2 else pos;
            Positions(c, t)[pos] == if (m / c.n + if pos < m % c.n then 1 else 0) % 2 == 0 then first else first + c.n
  {
    hide Visits, Touched, Spot;
    VisitsAre(c, t * c.batch, pos);
    PositionsFlip(c, t, pos);
  }

  lemma {:induction false} PositionsFlip(c: Case, t: nat, pos: nat)
    requires Proper(c) && pos < c.n
    ensures var first := if c.window then pos / 2 else pos;
            Positions(c, t)[pos] == if Visits(c, 0, t * c.batch, pos) % 2 == 0 then first else first + c.n
  {
    hide Touched, Spot, Visits;
    if t > 0 {
      PositionsFlip(c, t - 1, pos);
      var from := (t - 1) * c.batch;
      TouchedAt(c, Positions(c, t - 1), from, c.batch, pos);
      VisitsAdd(c, from, c.batch, pos);
      assert t * c.batch == from + c.batch;
      TwoFlips(if c.window then pos / 2 else pos, c.n, Visits(c, 0, from, pos), Visits(c, from, c.batch, pos));
    } else {
      assert 0 * c.batch == 0;
      assert Visits(c, 0, 0, pos) == 0 by { NoVisits(c, pos); }
    }
  }

  lemma TwoFlips(first: nat, n: nat, x: nat, y: nat)
    requires first < n
    ensures var k := if x % 2 == 0 then first else first + n;
            (if (x + y) % 2 == 0 then first else first + n) ==
              if y % 2 == 0 then k else if k < n then k + n else k - n
  {
  }

  lemma NoVisits(c: Case, pos: nat)
    requires Proper(c)
    ensures Visits(c, 0, 0, pos) == 0
  {
  }

  /** Some move among the first i of a batch goes to this position. */
  ghost predicate Visited(c: Case, from: nat, i: nat, pos: nat)
    requires Proper(c)
  {
    exists j: nat :: j < i && Spot(c, from, j) == pos
  }

  lemma {:induction false} TouchedElsewhere(c: Case, ps: seq<nat>, from: nat, i: nat, pos: nat)
    requires Proper(c) && |ps| == c.n && pos < c.n && !Visited(c, from, i, pos)
    ensures Touched(c, ps, from, i)[pos] == ps[pos]
  {
    hide Spot, Flip;
    if i > 0 {
      assert Spot(c, from, i - 1) != pos;
      TouchedElsewhere(c, ps, from, i - 1, pos);
    }
  }

  method NextPositions(c: Case, ps: seq<nat>, from: nat) returns (next: seq<nat>)
    requires Proper(c) && |ps| == c.n
    ensures next == Touched(c, ps, from, c.batch)
  {
    hide Spot, Flip;
    next := ps;
    for i := 0 to c.batch
      invariant next == Touched(c, ps, from, i)
    {
      var pos := Spot(c, from, i);
      next := next[pos := Flip(c, next[pos])];
    }
  }

  method BuildTrace(c: Case, steps: nat) returns (trace: seq<seq<nat>>)
    requires Proper(c)
    ensures |trace| == steps + 1 && forall t :: 0 <= t <= steps ==> trace[t] == Positions(c, t)
  {
    hide Touched;
    trace := [Start(c)];
    for t := 0 to steps
      invariant |trace| == t + 1
      invariant forall u :: 0 <= u <= t ==> trace[u] == Positions(c, u)
    {
      var next := NextPositions(c, trace[t], t * c.batch);
      trace := trace + [next];
    }
  }

  /* ---------- occurrences and changes ---------- */

  ghost function KeySet(ps: seq<nat>): set<nat> {
    set k | k in ps
  }

  ghost function FactsOf(c: Case, keys: set<nat>): set<Fact>
    requires Proper(c)
  {
    set k | k in keys :: FactOf(c, k)
  }

  /** The facts that are live at a logical step. */
  ghost function Live(c: Case, t: nat): set<Fact>
    requires Proper(c)
  {
    FactsOf(c, KeySet(Positions(c, t)))
  }

  lemma FactOfInjective(c: Case, a: nat, b: nat)
    requires Proper(c) && FactOf(c, a) == FactOf(c, b)
    ensures a == b
  {
    assert FactOf(c, a).values[0] == Integer(a) && FactOf(c, b).values[0] == Integer(b);
  }

  lemma FactsOfMember(c: Case, keys: set<nat>, k: nat)
    requires Proper(c)
    ensures FactOf(c, k) in FactsOf(c, keys) <==> k in keys
  {
    hide FactOf;
    if FactOf(c, k) in FactsOf(c, keys) {
      var j :| j in keys && FactOf(c, j) == FactOf(c, k);
      FactOfInjective(c, j, k);
    }
  }

  /** A change over keys, before it is written as facts. */
  datatype KeyChange = KeyChange(add: seq<nat>, remove: seq<nat>)

  function Written(c: Case, keys: seq<nat>): seq<Record>
    requires Proper(c)
  {
    seq(|keys|, i requires 0 <= i < |keys| => Denotes(FactOf(c, keys[i])))
  }

  lemma WrittenDenotes(c: Case, keys: seq<nat>)
    requires Proper(c)
    ensures Denoted(Written(c, keys)) == FactsOf(c, KeySet(keys))
  {
    hide FactOf;
    var w := Written(c, keys);
    forall f ensures f in Denoted(w) <==> f in FactsOf(c, KeySet(keys)) {
      if f in FactsOf(c, KeySet(keys)) {
        var k :| k in keys && f == FactOf(c, k);
        var i :| 0 <= i < |keys| && keys[i] == k;
        assert w[i] == Denotes(f) && w[i] in w;
      }
      if f in Denoted(w) {
        var r :| r in w && r.Denotes? && r.fact == f;
        var i :| 0 <= i < |w| && w[i] == r;
        assert keys[i] in KeySet(keys);
      }
    }
  }

  /** One move as the caller accounts for it: what the counts of both keys say becomes part of
      the change. */
  function Noted(ch: KeyChange, was: nat, held: nat, gone: nat, added: nat): KeyChange {
    KeyChange(if held == 0 then ch.add + [added] else ch.add, if was == 1 then ch.remove + [gone] else ch.remove)
  }

  /** What holds of a change while a batch is under way: applied to the keys the batch began
      with, it gives the keys now live, and besides at most keys it has added itself. */
  ghost predicate Covers(ch: KeyChange, before: set<nat>, now: set<nat>) {
    before - KeySet(ch.remove) + KeySet(ch.add) == now + KeySet(ch.add)
  }

  lemma NotedCovers(ch: KeyChange, before: set<nat>, ps: seq<nat>, pos: nat, added: nat)
    requires pos < |ps| && Covers(ch, before, KeySet(ps))
    ensures var gone := ps[pos];
            var held := (multiset(ps) - multiset{gone})[added];
            Covers(Noted(ch, multiset(ps)[gone], held, gone, added), before, KeySet(ps[pos := added]))
  {
    var gone: nat := ps[pos];
    var held := (multiset(ps) - multiset{gone})[added];
    var ch' := Noted(ch, multiset(ps)[gone], held, gone, added);
    var next: seq<nat> := ps[pos := added];
    assert forall k :: k in KeySet(next) <==> multiset(next)[k] > 0;
    assert forall k :: k in KeySet(ps) <==> multiset(ps)[k] > 0;
    assert multiset(next) == multiset(ps) - multiset{gone} + multiset{added};
    forall k: nat
      ensures k in before - KeySet(ch'.remove) + KeySet(ch'.add) <==> k in KeySet(next) + KeySet(ch'.add)
    {
      assert k in KeySet(ch'.add) <==> k in KeySet(ch.add) || (k == added && held == 0);
      assert k in KeySet(ch'.remove) <==> k in KeySet(ch.remove) || (k == gone && multiset(ps)[gone] == 1);
      assert k in KeySet(next) <==> k == added || (multiset(ps) - multiset{gone})[k] > 0;
      assert k in before - KeySet(ch.remove) + KeySet(ch.add) <==> k in KeySet(ps) + KeySet(ch.add);
    }
  }

  /** The caller's positions after i moves. A move goes straight to the key that the position
      has at the end of the batch, however often the batch comes back to it. */
  ghost function Midway(c: Case, ps: seq<nat>, next: seq<nat>, from: nat, i: nat): (r: seq<nat>)
    requires Proper(c) && |ps| == |next| == c.n
    ensures |r| == c.n
  {
    if i == 0 then ps
    else var pos := Spot(c, from, i - 1); Midway(c, ps, next, from, i - 1)[pos := next[pos]]
  }

  ghost function ChangeOf(c: Case, ps: seq<nat>, next: seq<nat>, from: nat, i: nat): KeyChange
    requires Proper(c) && |ps| == |next| == c.n
  {
    if i == 0 then KeyChange([], [])
    else
      var now, pos := Midway(c, ps, next, from, i - 1), Spot(c, from, i - 1);
      Noted(ChangeOf(c, ps, next, from, i - 1), multiset(now)[now[pos]],
            (multiset(now) - multiset{now[pos]})[next[pos]], now[pos], next[pos])
  }

  lemma {:induction false} MidwayAt(c: Case, ps: seq<nat>, next: seq<nat>, from: nat, i: nat, pos: nat)
    requires Proper(c) && |ps| == |next| == c.n && pos < c.n
    ensures Midway(c, ps, next, from, i)[pos] == if Visited(c, from, i, pos) then next[pos] else ps[pos]
  {
    hide Spot;
    if i > 0 {
      MidwayAt(c, ps, next, from, i - 1, pos);
      assert Visited(c, from, i, pos) <==> Visited(c, from, i - 1, pos) || Spot(c, from, i - 1) == pos;
    }
  }

  lemma MidwayArrives(c: Case, ps: seq<nat>, from: nat, count: nat)
    requires Proper(c) && |ps| == c.n
    ensures var next := Touched(c, ps, from, count); Midway(c, ps, next, from, count) == next
  {
    hide Touched, Midway, Visited;
    var next := Touched(c, ps, from, count);
    var m := Midway(c, ps, next, from, count);
    forall pos | 0 <= pos < c.n ensures m[pos] == next[pos] {
      MidwayAt(c, ps, next, from, count, pos);
      if !Visited(c, from, count, pos) { TouchedElsewhere(c, ps, from, count, pos); }
    }
  }

  lemma {:induction false} ChangeCovers(c: Case, ps: seq<nat>, next: seq<nat>, from: nat, i: nat)
    requires Proper(c) && |ps| == |next| == c.n
    ensures var ch := ChangeOf(c, ps, next, from, i);
            && Covers(ch, KeySet(ps), KeySet(Midway(c, ps, next, from, i)))
            && KeySet(ch.add) <= KeySet(next) && |ch.add| <= i && |ch.remove| <= i
  {
    hide Spot, Covers, Noted, Proper;
    if i > 0 {
      var now, pos := Midway(c, ps, next, from, i - 1), Spot(c, from, i - 1);
      var ch := ChangeOf(c, ps, next, from, i - 1);
      ChangeCovers(c, ps, next, from, i - 1);
      NotedCovers(ch, KeySet(ps), now, pos, next[pos]);
      NotedGrows(ch, multiset(now)[now[pos]], (multiset(now) - multiset{now[pos]})[next[pos]], now[pos], next[pos]);
      assert next[pos] in KeySet(next);
    } else {
      assert KeySet([]) == {};
      NothingNoted(KeySet(ps));
    }
  }

  lemma NothingNoted(keys: set<nat>)
    ensures Covers(KeyChange([], []), keys, keys)
  {
  }

  /** The change of a batch leads from the keys live before it to the keys live after it. This
      holds for a batch of any size, also one that comes back to positions it has moved, and
      from any positions, also ones that share keys. */
  lemma BatchExact(c: Case, ps: seq<nat>, from: nat, count: nat)
    requires Proper(c) && |ps| == c.n
    ensures var next := Touched(c, ps, from, count);
            var ch := ChangeOf(c, ps, next, from, count);
            && KeySet(ps) - KeySet(ch.remove) + KeySet(ch.add) == KeySet(next)
            && |ch.add| <= count && |ch.remove| <= count
  {
    hide Touched, Midway, ChangeOf, Proper;
    ChangeCovers(c, ps, Touched(c, ps, from, count), from, count);
    MidwayArrives(c, ps, from, count);
  }

  /** counts[k] is the number of positions that hold k. */
  ghost predicate Tally(counts: seq<nat>, ps: seq<nat>) {
    forall k :: 0 <= k < |counts| ==> counts[k] == multiset(ps)[k]
  }

  lemma TallyOne(counts: seq<nat>, ps: seq<nat>, key: nat)
    requires Tally(counts, ps) && key < |counts|
    ensures Tally(counts[key := counts[key] + 1], ps + [key])
  {
  }

  lemma TallyMove(counts: seq<nat>, ps: seq<nat>, pos: nat, added: nat)
    requires Tally(counts, ps) && pos < |ps| && ps[pos] < |counts| && added < |counts|
    ensures counts[ps[pos]] > 0
    ensures var gone := ps[pos];
            var less := counts[gone := counts[gone] - 1];
            && less[added] == (multiset(ps) - multiset{gone})[added]
            && Tally(less[added := less[added] + 1], ps[pos := added])
  {
    var gone: nat := ps[pos];
    var next: seq<nat> := ps[pos := added];
    assert multiset(ps)[gone] > 0;
    assert multiset(next) == multiset(ps) - multiset{gone} + multiset{added};
  }

  /** The caller: which key every position holds, and how many positions hold every key. */
  class Caller {
    const c: Case
    const supports: array<nat>
    const positions: array<nat>

    ghost predicate Counted()
      reads supports, positions
    {
      && Proper(c) && supports != positions && supports.Length == 2 * c.n && positions.Length == c.n
      && Keys(c, positions[..]) && Tally(supports[..], positions[..])
    }

    constructor (c: Case)
      requires Proper(c)
      ensures this.c == c && Counted() && positions[..] == Start(c) && fresh(supports) && fresh(positions)
    {
      hide Tally, Start;
      this.c := c;
      supports := new nat[2 * c.n](_ => 0);
      positions := new nat[c.n](_ => 0);
      new;
      ghost var start: seq<nat> := Start(c);
      NoTally(supports[..], start[..0]);
      for i := 0 to c.n
        invariant positions[..i] == start[..i]
        invariant Tally(supports[..], start[..i])
      {
        assert start[..i + 1] == start[..i] + [start[i]];
        ghost var counts := supports[..];
        TallyOne(counts, start[..i], start[i]);
        var key := if c.window then i / 2 else i;
        positions[i] := key;
        assert supports[..] == counts;
        supports[key] := supports[key] + 1;
        assert supports[..] == counts[key := counts[key] + 1];
        assert positions[..i + 1] == start[..i] + [key];
      }
      assert start[..c.n] == start && positions[..c.n] == positions[..];
    }

    /** One move. The position's old key has support, so the check before counting down never
        fires. */
    method Update(ch: KeyChange, pos: nat, added: nat, delta: bool) returns (ch': KeyChange)
      requires Counted() && pos < c.n && added < 2 * c.n
      modifies supports, positions
      ensures Counted() && positions[..] == old(positions[..])[pos := added]
      ensures ch' == if !delta then ch else
                var ps, gone := old(positions[..]), old(positions[pos]);
                Noted(ch, multiset(ps)[gone], (multiset(ps) - multiset{gone})[added], gone, added)
    {
      ghost var ps: seq<nat>, counts: seq<nat> := positions[..], supports[..];
      var gone: nat := positions[pos];
      TallyMove(counts, ps, pos, added);
      assert supports[gone] == counts[gone] == multiset(ps)[gone];
      hide Tally, Proper;
      assert supports[gone] > 0;
      ch' := ch;
      supports[gone] := supports[gone] - 1;
      ghost var less := counts[gone := counts[gone] - 1];
      assert supports[..] == less;
      if supports[gone] == 0 && delta { ch' := ch'.(remove := ch'.remove + [gone]); }
      if supports[added] == 0 && delta { ch' := ch'.(add := ch'.add + [added]); }
      supports[added] := supports[added] + 1;
      assert supports[..] == less[added := less[added] + 1];
      positions[pos] := added;
      assert positions[..] == ps[pos := added] && supports[..] == less[added := less[added] + 1];
    }

    /** A batch of moves. The change it notes turns the keys that were live into those that are
        live now. */
    method Turn(from: nat, next: seq<nat>, delta: bool) returns (ch: KeyChange)
      requires Counted() && next == Touched(c, positions[..], from, c.batch)
      modifies supports, positions
      ensures Counted() && positions[..] == next
      ensures |ch.add| <= c.batch && |ch.remove| <= c.batch
      ensures delta ==> ch == ChangeOf(c, old(positions[..]), next, from, c.batch)
      ensures delta ==> old(KeySet(positions[..])) - KeySet(ch.remove) + KeySet(ch.add) == KeySet(next)
    {
      hide Tally, Spot, Flip, Touched, Noted, KeySet;
      ghost var ps: seq<nat> := positions[..];
      ch := KeyChange([], []);
      TouchedKeys(c, ps, from, c.batch);
      for i := 0 to c.batch
        invariant Counted() && positions[..] == Midway(c, ps, next, from, i)
        invariant ch == if delta then ChangeOf(c, ps, next, from, i) else KeyChange([], [])
      {
        var pos := Spot(c, from, i);
        ch := Update(ch, pos, next[pos], delta);
      }
      MidwayArrives(c, ps, from, c.batch);
      BatchExact(c, ps, from, c.batch);
    }

    /** The complete list of live keys, in either direction: each once, and no more of them than
        there are positions. */
    method Snapshot(reverse: bool) returns (keys: seq<nat>)
      requires Counted()
      ensures KeySet(keys) == KeySet(positions[..]) && |keys| <= c.n
      ensures forall i, j :: 0 <= i < j < |keys| ==> if reverse then keys[i] > keys[j] else keys[i] < keys[j]
    {
      keys := [];
      var m := 2 * c.n;
      ghost var ps := positions[..];
      for i := 0 to m
        invariant forall a, b :: 0 <= a < b < |keys| ==> if reverse then keys[a] > keys[b] else keys[a] < keys[b]
        invariant forall k :: k in keys <==> k in ps && 0 <= k < m && if reverse then m - i <= k else k < i
      {
        var k := if reverse then m - 1 - i else i;
        assert supports[k] == supports[..][k] == multiset(ps)[k];
        assert forall a :: 0 <= a < |keys| ==> keys[a] in keys;
        if supports[k] > 0 { keys := keys + [k]; }
      }
      assert forall k :: k in ps ==> k < m;
      NoRepeats(keys);
      KeySetSize(ps);
    }
  }

  lemma {:induction false} KeySetSize(ps: seq<nat>)
    ensures |KeySet(ps)| <= |ps|
  {
    if ps != [] {
      KeySetSize(ps[..|ps| - 1]);
      assert KeySet(ps) == KeySet(ps[..|ps| - 1]) + {ps[|ps| - 1]};
    }
  }

  lemma {:induction false} NoRepeats(keys: seq<nat>)
    requires forall i, j :: 0 <= i < j < |keys| ==> keys[i] != keys[j]
    ensures |KeySet(keys)| == |keys|
  {
    if keys != [] {
      NoRepeats(keys[..|keys| - 1]);
      assert KeySet(keys) == KeySet(keys[..|keys| - 1]) + {keys[|keys| - 1]};
    }
  }

  lemma NotedGrows(ch: KeyChange, was: nat, held: nat, gone: nat, added: nat)
    ensures var ch' := Noted(ch, was, held, gone, added);
            |ch'.add| <= |ch.add| + 1 && |ch'.remove| <= |ch.remove| + 1 && KeySet(ch'.add) <= KeySet(ch.add) + {added}
  {
  }

  lemma NoTally(counts: seq<nat>, ps: seq<nat>)
    requires ps == [] && forall k :: 0 <= k < |counts| ==> counts[k] == 0
    ensures Tally(counts, ps)
  {
  }
}
