/**
 Traces of any length through two banks: what is fed to a bank from the journal is exactly what
 it has not applied yet, every transaction succeeds, and at every step the bank stands every
 comparison with an independent session on the native engine. The delta path and the snapshot
 path cannot be told apart by the hashes the provider commits.
 */
module DeltaDriver {
  import opened Datalog
  import opened FactOrder
  import opened Safety
  import opened DeltaStage
  import opened DeltaBackend
  import opened DeltaBank
  import opened DeltaTrace
  import opened DeltaEngine
  import opened Registry
  import Evaluation
  import Fixpoint
  import Solver
  import Strata

  /** The limits and the vocabulary leave room for a case. */
  ghost predicate Roomy(c: Case, host: Host, poolLength: nat, input: string, output: string) {
    && Proper(c) && c.n <= Limit(poolLength) && c.n <= CAP <= host.inputFacts && c.batch <= CAP
    && c.n <= host.perPredicate && c.n <= host.derivedFacts && c.event < Strata.MAX_PREDICATES
    && (host.name(c.event) == input ==>
          host.find(output, 3).Some? && host.kind(host.find(output, 3).value) == Idb)
  }

  lemma {:induction false} FactsOfSize(c: Case, keys: set<nat>)
    requires Proper(c)
    ensures |FactsOf(c, keys)| <= |keys|
  {
    hide FactOf;
    if keys != {} {
      var k :| k in keys;
      FactsOfSize(c, keys - {k});
      assert FactsOf(c, keys) == FactsOf(c, keys - {k}) + {FactOf(c, k)};
    }
  }

  lemma LiveSize(c: Case, t: nat)
    requires Proper(c)
    ensures |Live(c, t)| <= c.n
  {
    hide FactsOf;
    KeySetSize(Positions(c, t));
    FactsOfSize(c, KeySet(Positions(c, t)));
  }

  /** A change that leads from one logical step to the next. */
  ghost predicate Good(c: Case, t: nat, ch: Change)
    requires Proper(c)
  {
    Submittable(ch) && Effect(Live(c, t), ch) == Live(c, t + 1)
  }

  lemma {:induction false} ImageSize(host: Host, input: string, output: string, facts: seq<Fact>)
    ensures |Image(host, input, output, facts)| <= |facts|
  {
    if facts != [] {
      var n := |facts| - 1;
      ImageSize(host, input, output, facts[..n]);
      ImageGrows(host, input, output, facts, n);
      assert facts[..n + 1] == facts;
    }
  }

  /** Few enough event facts can be counted, solved and emitted. */
  lemma EventsSolvable(c: Case, host: Host, poolLength: nat, input: string, output: string, s: set<Fact>)
    requires Roomy(c, host, poolLength, input, output) && |s| <= c.n
    requires forall f :: f in s ==> f.pred == c.event && |f.values| == 3
    ensures Countable(s, host.perPredicate) && Solvable(host, input, output, Listing(s), 0)
  {
    hide Ascending, Image;
    forall q: nat ensures |OfPredicate(s, q)| <= host.perPredicate { SubsetCount(OfPredicate(s, q), s); }
    var l := Listing(s);
    PoolSize(l);
    assert forall i :: 0 <= i < |l| ==> l[i] in FactSet(l);
    var out := Image(host, input, output, l);
    ImageSize(host, input, output, l);
    forall q: nat ensures |OfPredicate(out, q)| <= host.perPredicate { SubsetCount(OfPredicate(out, q), out); }
  }

  lemma LiveFacts(c: Case, t: nat)
    requires Proper(c)
    ensures forall f :: f in Live(c, t) ==> f.pred == c.event && |f.values| == 3
  {
  }

  /** One or two good changes in a row are feasible and lead where they should. */
  lemma CatchUp(c: Case, host: Host, poolLength: nat, input: string, output: string, k: nat, changes: seq<Change>)
    requires Roomy(c, host, poolLength, input, output) && 1 <= |changes| <= 2
    requires forall i :: 0 <= i < |changes| ==> Good(c, k + i, changes[i])
    ensures Effects(Live(c, k), changes) == Live(c, k + |changes|)
    ensures Feasible(host, poolLength, input, output, 0, Live(c, k), Deltas(changes))
  {
    hide Countable, Solvable, Live, Effect, Submittable, Listing;
    var s := Live(c, k);
    assert Effects(s, changes[..0]) == s;
    assert changes[..1][..0] == changes[..0];
    assert Effects(s, changes[..1]) == Effect(s, changes[0]) == Live(c, k + 1) by { assert Good(c, k + 0, changes[0]); }
    LiveSize(c, k + 1);
    if |changes| == 2 {
      assert Effects(s, changes) == Effect(Effects(s, changes[..1]), changes[1]) == Live(c, k + 2) by { assert Good(c, k + 1, changes[1]); }
      LiveSize(c, k + 2);
      assert changes[..2] == changes;
    } else {
      assert changes[..1] == changes;
    }
    assert EffectsFit(s, changes, Limit(poolLength)) by {
      forall j | 0 < j <= |changes| ensures |Effects(s, changes[..j])| <= Limit(poolLength) {
        assert j == 1 || j == 2;
      }
    }
    LiveFacts(c, k + |changes|);
    EventsSolvable(c, host, poolLength, input, output, Live(c, k + |changes|));
  }

  lemma SnapshotFeasible(c: Case, host: Host, poolLength: nat, input: string, output: string, s: set<Fact>, t: nat, records: seq<Record>, moves: nat)
    requires Roomy(c, host, poolLength, input, output) && |records| <= c.n
    requires (forall i :: 0 <= i < |records| ==> records[i].Denotes?) && Denoted(records) == Live(c, t)
    ensures Feasible(host, poolLength, input, output, 0, s, Snapshot(records, moves))
  {
    hide Countable, Solvable, Live, Denoted, Listing;
    LiveSize(c, t);
    LiveFacts(c, t);
    EventsSolvable(c, host, poolLength, input, output, Live(c, t));
  }

  /** The change a batch notes, written as facts, is good. */
  lemma TurnIsGood(c: Case, t: nat, ch: KeyChange)
    requires Proper(c) && |ch.add| <= CAP && |ch.remove| <= CAP
    requires KeySet(Positions(c, t)) - KeySet(ch.remove) + KeySet(ch.add) == KeySet(Positions(c, t + 1))
    ensures Good(c, t, Change(Written(c, ch.add), Written(c, ch.remove)))
  {
    hide FactOf, Positions, KeySet;
    WrittenDenotes(c, ch.add);
    WrittenDenotes(c, ch.remove);
    var now, next := KeySet(Positions(c, t)), KeySet(Positions(c, t + 1));
    var r, a := KeySet(ch.remove), KeySet(ch.add);
    assert FactsOf(c, now) - FactsOf(c, r) + FactsOf(c, a) == FactsOf(c, next) by {
      forall f ensures f in FactsOf(c, now) - FactsOf(c, r) + FactsOf(c, a) <==> f in FactsOf(c, next) {
        if f in FactsOf(c, now) + FactsOf(c, a) + FactsOf(c, next) {
          var k :| (k in now || k in a || k in next) && f == FactOf(c, k);
          FactsOfMember(c, now, k);
          FactsOfMember(c, r, k);
          FactsOfMember(c, a, k);
          FactsOfMember(c, next, k);
        }
      }
    }
  }

  /* ---------- one transaction ---------- */

  ghost function Footprint(b: Bank): set<object> {
    {b, b.pool, b.kept, b.backend}
  }

  /** Between transactions of the driver. */
  ghost predicate Ready(b: Bank)
    reads b, b.kept, b.backend
  {
    b.Valid() && !b.pending && !b.active && Sound(b.Look()) && b.backend.fail == 0
  }

  ghost predicate Suits(c: Case, b: Bank) {
    Proper(c) && Roomy(c, b.host, b.pool.Length, b.backend.input, b.backend.output)
  }

  /** The policy of the case, and an event predicate it takes as input. */
  ghost predicate Speaks(c: Case, b: Bank, defs: seq<Entry>, p: Program) {
    && Loaded(b.host, defs, p) && b.backend.input == InputName(b.host, p) && b.backend.output == OutputName(b.host, p)
    && c.event < |defs| && KindOf(defs[c.event].flags) == Edb && defs[c.event].arity == 3
  }

  /** What a bank holds after the transaction of a step: the live facts in the session and in the
      provider's record, and what follows from them as the result. */
  ghost predicate Shows(c: Case, b: Bank, t: nat)
    requires Proper(c)
    reads b, b.pool, b.backend
  {
    var live := Listing(Live(c, t));
    && b.staged <= b.pool.Length && b.pool[..b.staged] == live && b.backend.recorded == live
    && b.derived == Listing(Image(b.host, b.backend.input, b.backend.output, live))
  }

  lemma LiveHeld(c: Case, b: Bank, defs: seq<Entry>, p: Program, t: nat)
    requires Proper(c) && Speaks(c, b, defs, p)
    ensures Held(defs, p, Listing(Live(c, t)))
  {
    hide Live, Loaded, Ascending;
    LiveFacts(c, t);
    var l := Listing(Live(c, t));
    EventIsInput(c, b, defs, p);
    forall i | 0 <= i < |l| ensures l[i].pred == c.event && |l[i].values| == 3 { assert l[i] in FactSet(l); }
  }

  lemma EventIsInput(c: Case, b: Bank, defs: seq<Entry>, p: Program)
    requires Speaks(c, b, defs, p)
    ensures Evaluation.HasKind(p, c.event, Edb) && Evaluation.WellFormed(p)
  {
  }

  /** The raw occurrences of the trace, duplicates and all, as a session puts them in order. */
  method OracleFacts(c: Case, host: Host, ps: seq<nat>, reverse: bool) returns (rc: Status, first: Option<Fact>, facts: seq<Fact>)
    requires Proper(c) && |ps| <= host.inputFacts
    ensures rc == Ok && facts == Listing(FactsOf(c, KeySet(ps)))
    ensures first.None? <==> ps == []
    ensures first.Some? ==> first.value in FactsOf(c, KeySet(ps))
  {
    hide FactOf, Ascending;
    var keys: seq<nat> := if reverse then seq(|ps|, i requires 0 <= i < |ps| => ps[|ps| - 1 - i]) else ps;
    if reverse { ReversedKeys(ps, keys); }
    WrittenDenotes(c, keys);
    rc, facts := Convert(Written(c, keys), true, host.inputFacts);
    AscendingUnique(facts, Listing(FactsOf(c, KeySet(ps))));
    first := None;
    if |keys| > 0 {
      FactsOfMember(c, KeySet(ps), keys[0]);
      first := Some(FactOf(c, keys[0]));
    }
  }

  method ListHash(host: Host, facts: seq<Fact>) returns (h: bv64)
    ensures h == HashOf(host, facts)
  {
    hide HashFact;
    h := Seed(|facts|);
    for i := 0 to |facts|
      invariant h == HashFrom(host, Seed(|facts|), facts[..i])
    {
      HashGrows(host, Seed(|facts|), facts, i);
      h := FactHash(host, h, facts[i]);
    }
    assert facts[..|facts|] == facts;
  }

  /** The facts of one predicate, in the order of the list. */
  method Enumerate(facts: seq<Fact>, q: Option<nat>) returns (r: seq<Fact>)
    ensures r == Filtered(facts, q)
  {
    r := [];
    for i := 0 to |facts|
      invariant r == Filtered(facts[..i], q)
    {
      assert facts[..i + 1][..i] == facts[..i];
      if q == Some(facts[i].pred) { r := r + [facts[i]]; }
    }
    assert facts[..|facts|] == facts;
  }

  ghost function Filtered(facts: seq<Fact>, q: Option<nat>): seq<Fact> {
    if facts == [] then []
    else Filtered(facts[..|facts| - 1], q) + if q == Some(facts[|facts| - 1].pred) then [facts[|facts| - 1]] else []
  }

  /** Item by item, as the driver compares two lists. */
  method SameFacts(a: seq<Fact>, b: seq<Fact>) returns (same: bool)
    ensures same <==> a == b
  {
    if |a| != |b| { return false; }
    for i := 0 to |a|
      invariant a[..i] == b[..i]
    {
      if a[i] != b[i] { return false; }
      assert a[..i + 1] == a[..i] + [a[i]] && b[..i + 1] == b[..i] + [b[i]];
    }
    assert a[..|a|] == a && b[..|b|] == b;
    same := true;
  }

  /** The comparison of a bank with a session on the native engine that is given the trace's raw
      occurrences: the hash, the facts the session and the provider hold, the derived facts that
      are enumerated, and the answer to a query. All of it holds. */
  method OracleCheck(c: Case, p: Program, ps: seq<nat>, reverse: bool, b: Bank, committed: bv64, ghost defs: seq<Entry>, ghost t: nat)
    returns (ok: bool)
    requires Suits(c, b) && Speaks(c, b, defs, p) && ps == Positions(c, t) && Shows(c, b, t)
    requires committed == HashOf(b.host, Listing(Live(c, t)))
    ensures ok
  {
    hide HashOf, Loaded, Held, Image, Filtered, Ascending, FactsOf, KeySet, Fixpoint.Deserved, Solvable, Countable;
    ok := false;
    var rc, first, facts := OracleFacts(c, b.host, ps, reverse);
    if rc != Ok { return; }
    LiveHeld(c, b, defs, p, t);
    HeldLoads(b.host, defs, p, facts);
    var reference := Fixpoint.Solve(p, facts, Solver.Bounds(b.host.derivedFacts, b.host.perPredicate));
    ProviderMatchesEngine(b.host, defs, p, facts, reference);
    LiveFits(c, b, t);
    if !reference.Solved? { return; }
    var hash := ListHash(b.host, facts);
    if committed != hash || |b.backend.recorded| != |facts| || b.staged != |facts| { return; }
    var heldSame := SameFacts(b.pool[..b.staged], facts);
    var recordedSame := SameFacts(b.backend.recorded, facts);
    if !heldSame || !recordedSame { return; }
    var theirs := Enumerate(reference.facts, b.host.find(b.backend.output, 3));
    var ours := Enumerate(b.derived, b.host.find(b.backend.output, 3));
    var derivedSame := SameFacts(theirs, ours);
    if !derivedSame { return; }
    if first.Some? {
      var present := Contains(b.pool[..b.staged], first.value);
      assert first.value in FactSet(facts);
      if !present { return; }
    }
    ok := true;
  }

  lemma HeldLoads(host: Host, defs: seq<Entry>, p: Program, facts: seq<Fact>)
    requires Loaded(host, defs, p) && Held(defs, p, facts)
    ensures Evaluation.WellFormed(p) && Evaluation.InputsOk(p, facts)
  {
  }

  lemma LiveFits(c: Case, b: Bank, t: nat)
    requires Suits(c, b)
    ensures OutputFits(b.host, Image(b.host, b.backend.input, b.backend.output, Listing(Live(c, t))))
  {
    hide Live, OutputFits, Image, Countable, Ascending;
    LiveSize(c, t);
    LiveFacts(c, t);
    EventsSolvable(c, b.host, b.pool.Length, b.backend.input, b.backend.output, Live(c, t));
  }

  lemma ReversedKeys(ps: seq<nat>, keys: seq<nat>)
    requires |keys| == |ps| && forall i :: 0 <= i < |keys| ==> keys[i] == ps[|ps| - 1 - i]
    ensures KeySet(keys) == KeySet(ps)
  {
    forall k: nat | k in ps ensures k in keys {
      var i :| 0 <= i < |ps| && ps[i] == k;
      assert keys[|ps| - 1 - i] == ps[i];
    }
    forall k: nat | k in keys ensures k in ps {
      var i :| 0 <= i < |keys| && keys[i] == k;
    }
  }

  /** One transaction that the limits allow: it succeeds, leaves the bank at the next logical
      step, and commits the hash of the live facts. */
  method Advance(c: Case, b: Bank, t: nat, inputs: Inputs) returns (hash: bv64)
    requires Suits(c, b) && Ready(b) && 0 < b.generation < UINT64_MAX && t + 1 <= UINT64_MAX
    requires Moves(inputs) <= 2 && b.logical + Moves(inputs) == t + 1
    requires Proposed(FactSet(b.Facts()), inputs) == Live(c, t + 1)
    requires Feasible(b.host, b.pool.Length, b.backend.input, b.backend.output, 0, FactSet(b.Facts()), inputs)
    modifies b, b.pool, b.kept, b.backend`recorded, b.backend`ledger
    ensures Ready(b) && b.generation == old(b.generation) + 1 && b.logical == t + 1
    ensures b.Facts() == if inputs.Deltas? then Listing(Live(c, t + 1)) else old(b.Facts())
    ensures hash == HashOf(b.host, Listing(Live(c, t + 1))) && Shows(c, b, t + 1)
  {
    hide Feasible, HashOf, Proposed, Live, Listing, Ascending, Image;
    var rc, published := b.Execute(Request(inputs, true, b.generation, t + 1, false));
    assert rc == Ok;
    hash := b.backend.ledger.committedHash;
    var freed := b.Free();
    assert freed == Ok;
  }

  /* ---------- whole traces ---------- */

  /** A bank that stands at a logical step; on the delta path it holds the live facts. */
  ghost predicate At(c: Case, b: Bank, delta: bool, k: nat)
    requires Proper(c)
    reads b, b.kept, b.backend
  {
    Ready(b) && b.logical == k && 0 < b.generation <= k + 1 && (delta ==> FactSet(b.Facts()) == Live(c, k))
  }

  /** The journal still holds the changes of steps from up to t, each where its number puts it. */
  ghost predicate Journaled(c: Case, journal: seq<Change>, from: nat, t: nat)
    requires Proper(c)
  {
    |journal| == 2 && forall k :: from <= k < t ==> Good(c, k, journal[k % 2])
  }

  /** Brings a bank from where it stands to step t + 1: with the journal entries it has not
      seen, or with a complete snapshot. */
  method Feed(c: Case, b: Bank, delta: bool, t: nat, journal: seq<Change>, keys: seq<nat>) returns (hash: bv64)
    requires Suits(c, b) && At(c, b, delta, b.logical) && b.logical <= t <= b.logical + 1 && t + 2 < UINT64_MAX
    requires delta ==> Journaled(c, journal, b.logical, t + 1)
    requires !delta ==> KeySet(keys) == KeySet(Positions(c, t + 1)) && |keys| <= c.n
    modifies b, b.pool, b.kept, b.backend`recorded, b.backend`ledger
    ensures At(c, b, delta, t + 1)
    ensures hash == HashOf(b.host, Listing(Live(c, t + 1))) && Shows(c, b, t + 1)
  {
    hide Good, Feasible, HashOf, Listing, Ascending, Roomy, Effects, KeySet, Shows;
    var from := b.logical;
    var count := t + 1 - from;
    assert 1 <= count <= 2;
    if delta {
      var changes := [];
      for j := 0 to count
        invariant |changes| == j
        invariant forall i :: 0 <= i < j ==> Good(c, from + i, changes[i])
      {
        assert Good(c, from + j, journal[(from + j) % 2]);
        changes := changes + [journal[(from + j) % 2]];
      }
      CatchUp(c, b.host, b.pool.Length, b.backend.input, b.backend.output, from, changes);
      hash := Advance(c, b, t, Deltas(changes));
    } else {
      WrittenDenotes(c, keys);
      SnapshotFeasible(c, b.host, b.pool.Length, b.backend.input, b.backend.output, FactSet(b.Facts()), t + 1, Written(c, keys), count);
      hash := Advance(c, b, t, Snapshot(Written(c, keys), count));
    }
  }

  /** What a run of a case leaves in its digest: the hashes of the live facts, step by step.
      Neither the path nor the number of banks has any part in it. */
  ghost function DigestAt(c: Case, host: Host, t: nat): bv64
    requires Proper(c)
  {
    if t == 0 then 0 else Mix(DigestAt(c, host, t - 1), HashOf(host, Listing(Live(c, t))))
  }

  /** Where the two banks stand before step t: with two banks in use one of them lags. */
  ghost predicate Standing(c: Case, delta: bool, t: nat, b0: Bank, b1: Bank)
    requires Proper(c)
    reads b0, b0.kept, b0.backend, b1, b1.kept, b1.backend
  {
    if !c.window then At(c, b0, delta, t)
    else if t % 2 == 0 then At(c, b0, delta, Lag(t)) && At(c, b1, delta, t)
    else At(c, b1, delta, Lag(t)) && At(c, b0, delta, t)
  }

  method SeedBank(c: Case, b: Bank, delta: bool, keys: seq<nat>)
    requires Suits(c, b) && Ready(b) && b.generation == 0 && b.Facts() == []
    requires KeySet(keys) == KeySet(Positions(c, 0)) && |keys| <= c.n
    modifies b, b.pool, b.kept, b.backend`recorded, b.backend`ledger
    ensures At(c, b, delta, 0)
  {
    hide Feasible, HashOf, Listing, Ascending, Roomy, KeySet;
    WrittenDenotes(c, keys);
    SnapshotFeasible(c, b.host, b.pool.Length, b.backend.input, b.backend.output, FactSet(b.Facts()), 0, Written(c, keys), 0);
    var rc := b.Seed(Written(c, keys));
    assert rc == Ok;
  }

  /** The caller's part of step t: the moves, and what they put into the journal. */
  method Note(c: Case, caller: Caller, delta: bool, t: nat, next: seq<nat>, journal: seq<Change>) returns (j: seq<Change>, keys: seq<nat>)
    requires caller.c == c && caller.Counted() && caller.positions[..] == Positions(c, t) && next == Positions(c, t + 1)
    requires c.batch <= CAP && |journal| == 2 && (delta ==> Journaled(c, journal, Lag(t), t))
    modifies caller.supports, caller.positions
    ensures caller.Counted() && caller.positions[..] == next
    ensures |j| == 2 && (delta ==> Journaled(c, j, Lag(t), t + 1))
    ensures !delta ==> KeySet(keys) == KeySet(next) && |keys| <= c.n
  {
    hide Good, Live, Tally, Touched, KeySet, Positions, ChangeOf, Journaled, Keys;
    NextStep(c, t);
    var ch := caller.Turn(t * c.batch, next, delta);
    j := journal[t % 2 := Change(Written(c, ch.add), Written(c, ch.remove))];
    if delta {
      TurnIsGood(c, t, ch);
      Journals(c, journal, t, j[t % 2]);
    }
    keys := [];
    if !delta { keys := caller.Snapshot(t % 2 == 1); }
  }

  lemma NextStep(c: Case, t: nat)
    requires Proper(c)
    ensures Positions(c, t + 1) == Touched(c, Positions(c, t), t * c.batch, c.batch)
  {
    hide Touched;
  }

  lemma Journals(c: Case, journal: seq<Change>, t: nat, entry: Change)
    requires Proper(c) && Journaled(c, journal, Lag(t), t) && Good(c, t, entry)
    ensures Journaled(c, journal[t % 2 := entry], Lag(t), t + 1)
  {
    hide Good;
  }

  function Lag(t: nat): nat {
    if t == 0 then 0 else t - 1
  }

  /** The bank that serves step t. */
  function Serving(c: Case, t: nat, b0: Bank, b1: Bank): Bank {
    if c.window && t % 2 == 1 then b1 else b0
  }

  /** The engine's part of step t: the bank whose turn it is catches up. */
  method FeedNext(c: Case, delta: bool, t: nat, b0: Bank, b1: Bank, journal: seq<Change>, keys: seq<nat>) returns (hash: bv64)
    requires Suits(c, b0) && Suits(c, b1) && b0.host == b1.host && Footprint(b0) !! Footprint(b1)
    requires Standing(c, delta, t, b0, b1) && t + 2 < UINT64_MAX
    requires delta ==> Journaled(c, journal, Lag(t), t + 1)
    requires !delta ==> KeySet(keys) == KeySet(Positions(c, t + 1)) && |keys| <= c.n
    modifies Footprint(b0), Footprint(b1)
    ensures Standing(c, delta, t + 1, b0, b1)
    ensures hash == HashOf(b0.host, Listing(Live(c, t + 1))) && Shows(c, Serving(c, t, b0, b1), t + 1)
  {
    hide Ready, Good, Live, HashOf, Listing, Roomy, KeySet, Shows, Journaled, Positions;
    if delta { JournalMoves(c, journal, t); }
    if c.window && t % 2 == 1 {
      hash := Feed(c, b1, delta, t, journal, keys);
    } else {
      hash := Feed(c, b0, delta, t, journal, keys);
    }
  }

  ghost predicate Apart(caller: Caller, b0: Bank, b1: Bank) {
    && Footprint(b0) !! Footprint(b1)
    && caller.supports !in Footprint(b0) + Footprint(b1) && caller.positions !in Footprint(b0) + Footprint(b1)
  }

  /** The caller's books are in order for step t. */
  ghost predicate Booked(c: Case, caller: Caller, t: nat)
    reads caller.supports, caller.positions
  {
    caller.c == c && caller.Counted() && caller.positions[..] == Positions(c, t)
  }

  method Step(c: Case, caller: Caller, delta: bool, t: nat, next: seq<nat>, journal: seq<Change>, b0: Bank, b1: Bank)
    returns (j: seq<Change>, hash: bv64)
    requires Suits(c, b0) && Suits(c, b1) && b0.host == b1.host && Apart(caller, b0, b1)
    requires Booked(c, caller, t) && next == Positions(c, t + 1) && t + 2 < UINT64_MAX && c.batch <= CAP
    requires Standing(c, delta, t, b0, b1) && |journal| == 2 && (delta ==> Journaled(c, journal, Lag(t), t))
    modifies caller.supports, caller.positions, Footprint(b0), Footprint(b1)
    ensures Booked(c, caller, t + 1) && Standing(c, delta, t + 1, b0, b1)
    ensures |j| == 2 && (delta ==> Journaled(c, j, Lag(t + 1), t + 1))
    ensures hash == HashOf(b0.host, Listing(Live(c, t + 1))) && Shows(c, Serving(c, t, b0, b1), t + 1)
  {
    hide Ready, Standing, Shows, Journaled, HashOf, Listing, Live, Roomy, Positions, KeySet, Tally, Keys;
    var keys;
    j, keys := Note(c, caller, delta, t, next, journal);
    if delta { JournalMoves(c, j, t); }
    assert Booked(c, caller, t + 1);
    hash := FeedNext(c, delta, t, b0, b1, j, keys);
  }

  method Prepare(c: Case, delta: bool, b0: Bank, b1: Bank) returns (caller: Caller)
    requires Suits(c, b0) && Suits(c, b1) && b0.host == b1.host && Footprint(b0) !! Footprint(b1)
    requires Ready(b0) && b0.generation == 0 && b0.Facts() == []
    requires Ready(b1) && b1.generation == 0 && b1.Facts() == []
    modifies Footprint(b0), Footprint(b1)
    ensures fresh(caller.supports) && fresh(caller.positions) && Apart(caller, b0, b1)
    ensures Booked(c, caller, 0) && Standing(c, delta, 0, b0, b1)
  {
    hide Ready, Tally, Touched, KeySet, FactsOf, Roomy;
    caller := new Caller(c);
    var keys := caller.Snapshot(false);
    SeedBank(c, b0, delta, keys);
    SeedBank(c, b1, delta, keys);
  }

  /** A case of any length, on either path, with one or two banks. Every comparison with the
      native engine holds at every step. */
  method RunCase(c: Case, p: Program, delta: bool, steps: nat, b0: Bank, b1: Bank, ghost defs: seq<Entry>)
    returns (ok: bool, digest: bv64)
    requires Suits(c, b0) && Suits(c, b1) && b0.host == b1.host && Footprint(b0) !! Footprint(b1)
    requires Speaks(c, b0, defs, p) && Speaks(c, b1, defs, p)
    requires Ready(b0) && b0.generation == 0 && b0.Facts() == []
    requires Ready(b1) && b1.generation == 0 && b1.Facts() == []
    requires steps + 2 < UINT64_MAX
    modifies Footprint(b0), Footprint(b1)
    ensures ok && digest == DigestAt(c, b0.host, steps)
    ensures Standing(c, delta, steps, b0, b1)
    ensures steps > 0 ==> Shows(c, Serving(c, steps - 1, b0, b1), steps)
  {
    hide Ready, Standing, Booked, HashOf, Listing, Mix, KeySet, Journaled, FactsOf, Positions, Shows, Speaks;
    var trace := BuildTrace(c, steps);
    var caller := Prepare(c, delta, b0, b1);
    var journal := [Change([], []), Change([], [])];
    NothingJournaled(c, journal);
    ok, digest := true, 0;
    for t := 0 to steps
      invariant Booked(c, caller, t) && Standing(c, delta, t, b0, b1)
      invariant |journal| == 2 && (delta ==> Journaled(c, journal, Lag(t), t))
      invariant ok && digest == DigestAt(c, b0.host, t)
      invariant t > 0 ==> Shows(c, Serving(c, t - 1, b0, b1), t)
    {
      var hash;
      journal, hash := Step(c, caller, delta, t, trace[t + 1], journal, b0, b1);
      ok := OracleCheck(c, p, trace[t + 1], t % 2 == 1, Serving(c, t, b0, b1), hash, defs, t + 1);
      if !ok { return; }
      digest := Mix(digest, hash);
    }
  }

  lemma NothingJournaled(c: Case, journal: seq<Change>)
    requires Proper(c) && |journal| == 2
    ensures Journaled(c, journal, 0, 0)
  {
  }

  /** A journal that reaches back a step serves a bank that does not lag. */
  lemma JournalMoves(c: Case, journal: seq<Change>, t: nat)
    requires Proper(c) && Journaled(c, journal, Lag(t), t + 1)
    ensures Journaled(c, journal, Lag(t + 1), t + 1)
  {
    hide Good;
  }
}
