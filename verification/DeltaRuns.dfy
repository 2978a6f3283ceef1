/**
 Whole runs of a bank: any sequence of transactions, rejected early, late or not at all, under
 any faults of the provider, and of results given back.
 */
module DeltaRuns {
  import opened Datalog
  import opened FactOrder
  import opened DeltaStage
  import opened DeltaBackend
  import opened DeltaBank
  import opened DeltaProjection
  import opened Registry

  datatype Setting = Setting(host: Host, poolLength: nat, input: string, output: string)

  /** One call on a bank and how it ended. The fault mode is whatever it was at the time. */
  datatype Event = Tried(request: Request, fail: int, rc: Status) | Freed(rc: Status)

  ghost predicate Follows(c: Setting, v: View, e: Event, w: View) {
    match e
    case Tried(r, fail, rc) => Executes(c.host, c.poolLength, c.input, c.output, fail, v, r, rc, w)
    case Freed(rc) =>
      if v.active then rc == Ok && w == v.(active := false, ledger := Released(v.ledger))
      else rc == InvalidState && w == v
  }

  ghost predicate Run(c: Setting, views: seq<View>, events: seq<Event>) {
    |views| == |events| + 1 && forall i :: 0 <= i < |events| ==> Follows(c, views[i], events[i], views[i + 1])
  }

  predicate Succeeded(e: Event) {
    e.Tried? && e.rc == Ok
  }

  /** The requests of a run that succeeded, in order. */
  function Successes(events: seq<Event>): seq<Request> {
    if events == [] then []
    else Successes(events[..|events| - 1]) +
         (if Succeeded(events[|events| - 1]) then [events[|events| - 1].request] else [])
  }

  /** The facts a sequence of delta requests leads to. */
  ghost function Replay(s: set<Fact>, requests: seq<Request>): set<Fact> {
    if requests == [] then s
    else
      var r := requests[|requests| - 1];
      var before := Replay(s, requests[..|requests| - 1]);
      if r.inputs.Deltas? then Proposed(before, r.inputs) else before
  }

  function Positions(requests: seq<Request>): nat {
    if requests == [] then 0 else Positions(requests[..|requests| - 1]) + Moves(requests[|requests| - 1].inputs)
  }

  lemma RunPrefix(c: Setting, views: seq<View>, events: seq<Event>)
    requires Run(c, views, events) && events != []
    ensures Run(c, views[..|events|], events[..|events| - 1])
    ensures Follows(c, views[|events| - 1], events[|events| - 1], views[|events|])
  {
    hide Follows;
    forall i | 0 <= i < |events| - 1 ensures Follows(c, views[..|events|][i], events[..|events| - 1][i], views[..|events|][i + 1]) {
      assert Follows(c, views[i], events[i], views[i + 1]);
    }
  }

  lemma SuccessGrows(s: set<Fact>, requests: seq<Request>, r: Request)
    ensures Replay(s, requests + [r]) == if r.inputs.Deltas? then Proposed(Replay(s, requests), r.inputs) else Replay(s, requests)
    ensures Positions(requests + [r]) == Positions(requests) + Moves(r.inputs)
  {
    assert (requests + [r])[..|requests|] == requests;
  }

  /* ---------- failures leave no trace ---------- */

  /** Two states that differ in the provider's count of aborts at most. */
  ghost predicate Alike(v: View, w: View) {
    w == v.(ledger := v.ledger.(aborts := w.ledger.aborts))
  }

  /** A call that did something: a transaction that succeeded, or a result given back. */
  predicate Effective(e: Event) {
    e.rc == Ok
  }

  function Calls(events: seq<Event>): seq<Event> {
    if events == [] then []
    else Calls(events[..|events| - 1]) + (if Effective(events[|events| - 1]) then [events[|events| - 1]] else [])
  }

  /** A failed call changes nothing but the count of aborts. */
  lemma FailureIsInvisible(c: Setting, v: View, e: Event, w: View)
    requires Follows(c, v, e, w) && !Effective(e) && Sound(v)
    ensures Alike(v, w)
  {
    hide Feasible, HashOf, Listing, Stageable;
  }

  lemma SoundStays(c: Setting, v: View, e: Event, w: View)
    requires Follows(c, v, e, w) && Sound(v)
    ensures Sound(w)
  {
    hide Feasible, HashOf, Listing, Stageable;
  }

  /** No call can tell two states apart that are alike: it may end in both in the same way. */
  lemma NoCallTells(c: Setting, v: View, e: Event, w: View, v': View) returns (w': View)
    requires Follows(c, v, e, w) && Alike(v, v')
    ensures Follows(c, v', e, w') && Alike(w, w')
  {
    hide Feasible, HashOf, Listing, Stageable;
    match e
    case Tried(r, fail, rc) =>
      w' := if rc == Ok then w.(ledger := w.ledger.(aborts := v'.ledger.aborts))
            else if Admissible(v, r) && Stageable(c.host, c.poolLength, FactSet(v.facts), r.inputs) then v'.(ledger := Released(v'.ledger))
            else v';
    case Freed(rc) =>
      w' := if v.active then v'.(active := false, ledger := Released(v'.ledger)) else v';
  }

  lemma RunGrows(c: Setting, views: seq<View>, events: seq<Event>, e: Event, w: View)
    requires Run(c, views, events) && Follows(c, views[|events|], e, w)
    ensures Run(c, views + [w], events + [e])
  {
    hide Follows;
  }

  /** Every run is, but for the count of aborts, the run of its effective calls alone: faults,
      refusals and late rejections can be struck out without any later call ending differently. */
  lemma {:induction false} FailuresErase(c: Setting, views: seq<View>, events: seq<Event>) returns (shorter: seq<View>)
    requires Run(c, views, events) && Sound(views[0])
    ensures Run(c, shorter, Calls(events)) && shorter[0] == views[0]
    ensures Alike(views[|events|], shorter[|Calls(events)|]) && Sound(views[|events|])
    decreases |events|
  {
    hide Follows, Sound;
    if events == [] { return views; }
    var n := |events| - 1;
    RunPrefix(c, views, events);
    shorter := FailuresErase(c, views[..n + 1], events[..n]);
    var kept := Calls(events[..n]);
    SoundStays(c, views[n], events[n], views[n + 1]);
    if Effective(events[n]) {
      var w := NoCallTells(c, views[n], events[n], views[n + 1], shorter[|kept|]);
      RunGrows(c, shorter, kept, events[n], w);
      shorter := shorter + [w];
    } else {
      FailureIsInvisible(c, views[n], events[n], views[n + 1]);
      assert Calls(events) == kept;
    }
  }

  /* ---------- every run is accounted for ---------- */

  /** What holds of the last state of a run, in terms of the requests that succeeded only. */
  ghost predicate Accounted(v: View, w: View, done: seq<Request>) {
    && Sound(w)
    && FactSet(w.facts) == Replay(FactSet(v.facts), done)
    && w.generation == v.generation + |done| <= UINT64_MAX
    && w.logical == Wrap64(v.logical + Positions(done))
    && w.ledger.commits == Count32(v.ledger.commits + |done|)
    && Balanced(w)
  }

  /** Every commit but that of a leased result has been released. */
  ghost predicate Balanced(v: View) {
    v.ledger.commits == Count32(v.ledger.releases + if v.active then 1 else 0)
  }

  ghost predicate Ranged(v: View) {
    v.generation <= UINT64_MAX && v.logical == Wrap64(v.logical) && v.ledger.commits == Count32(v.ledger.commits)
  }

  lemma SuccessAccounts(c: Setting, v: View, u: View, e: Event, w: View, done: seq<Request>)
    requires Accounted(v, u, done) && Follows(c, u, e, w) && Succeeded(e)
    ensures Accounted(v, w, done + [e.request])
  {
    hide Feasible, HashOf, Replay, Positions, Proposed, FactSet, Count32, Wrap64, Listing;
    ListingOf(Proposed(FactSet(u.facts), e.request.inputs));
    SuccessGrows(FactSet(v.facts), done, e.request);
    CountsOn(v.ledger.commits + |done|, 1);
    CountsOn(u.ledger.releases, 1);
    WrapsOn(v.logical + Positions(done), Moves(e.request.inputs));
  }

  lemma OtherAccounts(c: Setting, v: View, u: View, e: Event, w: View, done: seq<Request>)
    requires Accounted(v, u, done) && Follows(c, u, e, w) && !Succeeded(e)
    ensures Accounted(v, w, done)
  {
    hide Feasible, HashOf, Replay, Positions, Proposed, FactSet, Count32, Wrap64, Listing;
    CountsOn(u.ledger.releases, 1);
    CountsOn(u.ledger.releases + 1, 0);
  }

  lemma ListingOf(s: set<Fact>)
    ensures FactSet(Listing(s)) == s
  {
  }

  /** Every run is accounted for by its successes: failures, faults and late rejections leave no
      trace, each success counts once, and every commit is released at most once. */
  lemma {:induction false} RunsAreAtomic(c: Setting, views: seq<View>, events: seq<Event>)
    requires Run(c, views, events) && Sound(views[0]) && Ranged(views[0]) && Balanced(views[0])
    ensures Accounted(views[0], views[|events|], Successes(events))
    decreases |events|
  {
    hide Accounted, Follows;
    if events == [] {
      StartAccounts(views[0]);
    } else {
      var n := |events| - 1;
      RunPrefix(c, views, events);
      RunsAreAtomic(c, views[..n + 1], events[..n]);
      if Succeeded(events[n]) {
        SuccessAccounts(c, views[0], views[n], events[n], views[n + 1], Successes(events[..n]));
      } else {
        OtherAccounts(c, views[0], views[n], events[n], views[n + 1], Successes(events[..n]));
        assert Successes(events) == Successes(events[..n]);
      }
    }
  }

  lemma StartAccounts(v: View)
    requires Sound(v) && Ranged(v) && Balanced(v)
    ensures Accounted(v, v, [])
  {
  }

  /** The positions a request moves on: its changes, or what a snapshot says it replays. */
  function Advance(inputs: Inputs): nat {
    if inputs.Deltas? then |inputs.changes| else inputs.replayed
  }

  lemma {:induction false} RunUpTo(c: Setting, views: seq<View>, events: seq<Event>, i: nat)
    requires Run(c, views, events) && i <= |events|
    ensures Run(c, views[..i + 1], events[..i])
  {
    hide Follows;
    forall k | 0 <= k < i ensures Follows(c, views[..i + 1][k], events[..i][k], views[..i + 1][k + 1]) {
      assert Follows(c, views[k], events[k], views[k + 1]);
    }
  }

  /** Which transactions of a run succeed. A request must be for this bank and carry the
      generation that the successes before it have led to, and the position that its own moves
      lead to; nothing may be leased, and it may make up for two steps at most. */
  lemma SucceedsExactly(c: Setting, views: seq<View>, events: seq<Event>, i: nat)
    requires Run(c, views, events) && Sound(views[0]) && Ranged(views[0]) && Balanced(views[0])
    requires i < |events| && events[i].Tried?
    ensures var r, done := events[i].request, Successes(events[..i]);
            events[i].rc == Ok <==>
              && r.ours && 0 < r.generation < 0xFFFF_FFFF_FFFF_FFFF && r.generation == views[0].generation + |done|
              && !views[i].active && Advance(r.inputs) <= 2
              && r.logical == (views[0].logical + Positions(done) + Advance(r.inputs)) % 0x1_0000_0000_0000_0000
              && !r.rejectLate
              && Feasible(c.host, c.poolLength, c.input, c.output, events[i].fail, Replay(FactSet(views[0].facts), done), r.inputs)
  {
    hide Feasible, HashOf, Listing, Stageable, Proposed, FactSet, Replay;
    RunUpTo(c, views, events, i);
    RunsAreAtomic(c, views[..i + 1], events[..i]);
    assert Follows(c, views[i], events[i], views[i + 1]);
    WrapsOn(views[0].logical + Positions(Successes(events[..i])), Advance(events[i].request.inputs));
  }

  /** A transaction that got as far as the provider and failed. */
  ghost predicate Aborted(c: Setting, v: View, e: Event) {
    && e.Tried? && e.rc != Ok && e.request.ours && e.request.generation !in {0, 0xFFFF_FFFF_FFFF_FFFF}
    && e.request.generation == v.generation && !v.active && Advance(e.request.inputs) <= 2
    && e.request.logical == (v.logical + Advance(e.request.inputs)) % 0x1_0000_0000_0000_0000
    && Stageable(c.host, c.poolLength, FactSet(v.facts), e.request.inputs)
  }

  ghost function Aborts(c: Setting, views: seq<View>, events: seq<Event>): nat
    requires |views| == |events| + 1
  {
    if events == [] then 0
    else
      var n := |events| - 1;
      Aborts(c, views[..n + 1], events[..n]) + if Aborted(c, views[n], events[n]) then 1 else 0
  }

  /** Over every run the provider counts exactly these as aborted. */
  lemma {:induction false} AbortsAreCounted(c: Setting, views: seq<View>, events: seq<Event>)
    requires Run(c, views, events) && Sound(views[0]) && views[0].ledger.aborts < 4294967296
    ensures views[|events|].ledger.aborts == (views[0].ledger.aborts + Aborts(c, views, events)) % 4294967296
    ensures Sound(views[|events|])
    decreases |events|
  {
    hide Follows, Aborted, Sound;
    if events != [] {
      var n := |events| - 1;
      RunPrefix(c, views, events);
      AbortsAreCounted(c, views[..n + 1], events[..n]);
      OneAbort(c, views[n], events[n], views[n + 1]);
      CountsOn(views[0].ledger.aborts + Aborts(c, views[..n + 1], events[..n]), 1);
    }
  }

  lemma OneAbort(c: Setting, v: View, e: Event, w: View)
    requires Follows(c, v, e, w) && Sound(v) && v.ledger.aborts == Count32(v.ledger.aborts)
    ensures w.ledger.aborts == Count32(v.ledger.aborts + if Aborted(c, v, e) then 1 else 0) && Sound(w)
  {
    hide Feasible, HashOf, Listing, Stageable, Proposed, FactSet;
  }

  lemma {:induction false} SuccessesGrow(events: seq<Event>, i: nat, j: nat)
    requires i <= j <= |events|
    ensures |Successes(events[..i])| <= |Successes(events[..j])|
    ensures i < j && Succeeded(events[i]) ==> |Successes(events[..i])| < |Successes(events[..j])|
    decreases j
  {
    if i < j {
      assert events[..j][..j - 1] == events[..j - 1];
      SuccessesGrow(events, i, j - 1);
    }
  }

  /** So no generation is used twice: what one request was prepared for, a later success has
      left behind, and a stale request never succeeds. */
  lemma GenerationsDiffer(c: Setting, views: seq<View>, events: seq<Event>, i: nat, j: nat)
    requires Run(c, views, events) && Sound(views[0]) && Ranged(views[0]) && Balanced(views[0])
    requires i < j < |events| && Succeeded(events[i]) && Succeeded(events[j])
    ensures events[i].request.generation < events[j].request.generation
  {
    hide Run, Feasible;
    SucceedsExactly(c, views, events, i);
    SucceedsExactly(c, views, events, j);
    SuccessesGrow(events, i, j);
  }

  /* ---------- the provider's hash ---------- */

  /** The provider's committed hash is the hash of the facts the bank retains. */
  ghost predicate InStep(host: Host, v: View) {
    v.ledger.committedHash == HashOf(host, v.facts)
  }

  /** The facts the provider solved last: those of the last success, or what it began with. */
  ghost function LastSolved(facts: seq<Fact>, done: seq<Request>): seq<Fact> {
    if done == [] then facts
    else Listing(Proposed(Replay(FactSet(facts), done[..|done| - 1]), done[|done| - 1].inputs))
  }

  /** What a caller can tell before the last success: it is a delta transaction, or it submits
      the very facts that the successes before it have left. */
  ghost predicate Retains(facts: seq<Fact>, done: seq<Request>) {
    done == [] ||
    var inputs := done[|done| - 1].inputs;
    inputs.Deltas? || Denoted(inputs.records) == Replay(FactSet(facts), done[..|done| - 1])
  }

  /** What every run keeps, whatever mix of snapshots and deltas it tries. */
  ghost predicate Followed(host: Host, v: View, w: View, done: seq<Request>) {
    && w.ledger.committedHash == HashOf(host, LastSolved(v.facts, done))
    && FactSet(w.facts) == Replay(FactSet(v.facts), done)
    && (done == [] || done[|done| - 1].inputs.Deltas? ==> w.facts == LastSolved(v.facts, done))
    && (Ascending(v.facts) ==> Ascending(w.facts))
  }

  lemma SuccessFollowed(c: Setting, v: View, u: View, e: Event, w: View, done: seq<Request>)
    requires Followed(c.host, v, u, done) && Follows(c, u, e, w) && Succeeded(e)
    ensures Followed(c.host, v, w, done + [e.request])
  {
    hide Feasible, HashOf, Replay, Proposed, FactSet, Ascending, Listing;
    ListingOf(Proposed(FactSet(u.facts), e.request.inputs));
    SuccessGrows(FactSet(v.facts), done, e.request);
    assert (done + [e.request])[..|done|] == done;
  }

  lemma {:induction false} RunsAreFollowed(c: Setting, views: seq<View>, events: seq<Event>)
    requires Run(c, views, events) && InStep(c.host, views[0])
    ensures Followed(c.host, views[0], views[|events|], Successes(events))
    decreases |events|
  {
    hide HashOf, Feasible, Proposed;
    if events != [] {
      var n := |events| - 1;
      RunPrefix(c, views, events);
      RunsAreFollowed(c, views[..n + 1], events[..n]);
      if Succeeded(events[n]) {
        SuccessFollowed(c, views[0], views[n], events[n], views[n + 1], Successes(events[..n]));
      } else {
        assert Successes(events) == Successes(events[..n]);
      }
    }
  }

  /** Over every run, the provider's hash is that of the facts solved last. The bank retains those
      very facts if and only if the last success does so; all that came before, snapshots out of
      step included, has no part in it. Then the provider's hash is the hash of the retained facts. */
  lemma LastSuccessDecides(c: Setting, views: seq<View>, events: seq<Event>)
    requires Run(c, views, events) && InStep(c.host, views[0]) && Ascending(views[0].facts)
    ensures views[|events|].ledger.committedHash == HashOf(c.host, LastSolved(views[0].facts, Successes(events)))
    ensures views[|events|].facts == LastSolved(views[0].facts, Successes(events)) <==> Retains(views[0].facts, Successes(events))
    ensures Retains(views[0].facts, Successes(events)) ==> InStep(c.host, views[|events|])
  {
    hide Follows, HashOf, Listing, Ascending, Denoted, Effects;
    RunsAreFollowed(c, views, events);
    var done, facts, last := Successes(events), views[0].facts, views[|events|];
    if done != [] && done[|done| - 1].inputs.Snapshot? {
      var front, r := done[..|done| - 1], done[|done| - 1];
      assert done == front + [r];
      SuccessGrows(FactSet(facts), front, r);
      ListingOf(Denoted(r.inputs.records));
      if Retains(facts, done) { AscendingUnique(last.facts, LastSolved(facts, done)); }
    }
  }

  lemma {:induction false} SuccessIsThere(events: seq<Event>)
    ensures Successes(events) != [] ==>
              exists i :: 0 <= i < |events| && Succeeded(events[i]) && events[i].request == Successes(events)[|Successes(events)| - 1]
  {
    if events != [] && !Succeeded(events[|events| - 1]) {
      SuccessIsThere(events[..|events| - 1]);
      assert forall i :: 0 <= i < |events| - 1 ==> events[..|events| - 1][i] == events[i];
    }
  }

  /** In particular, runs in which only delta transactions succeed stay in step throughout. */
  lemma DeltaRunsStayInStep(c: Setting, views: seq<View>, events: seq<Event>)
    requires Run(c, views, events) && InStep(c.host, views[0])
    requires forall i :: 0 <= i < |events| && Succeeded(events[i]) ==> events[i].request.inputs.Deltas?
    ensures InStep(c.host, views[|events|])
  {
    hide Follows, HashOf, Listing, Replay;
    RunsAreFollowed(c, views, events);
    SuccessIsThere(events);
  }

  /* ---------- out of step ---------- */

  /** A registry with an input and a derived predicate, and the policy that copies one to the other. */
  const DEFS: seq<Entry> := [Entry("event", 3, {EdbFlag}), Entry("seen", 3, {IdbFlag})]

  const POLICY: Program :=
    Program([Edb, Idb], [Rule(Atom(1, [Var(0), Var(1), Var(2)]), [Positive(Atom(0, [Var(0), Var(1), Var(2)]))])], [])

  const EVENT: Fact := Fact(0, [Integer(0), Integer(0), Boolean(false)])

  /** A successful snapshot transaction can leave the two apart: a bank seeded with no facts keeps
      none while the provider commits one. The provider has accepted the policy, and the names and
      limits are those of a session. */
  lemma SnapshotFallsOutOfStep() returns (c: Setting, views: seq<View>, events: seq<Event>)
    ensures NamesDiffer(DEFS) && Serves(c.host, DEFS) && IsProjection(POLICY, c.host.name)
    ensures forall i :: 0 <= i < |DEFS| ==> Declarable(DEFS[i].name, DEFS[i].arity, DEFS[i].flags)
    ensures c.input == c.host.name(POLICY.rules[0].body[0].atom.pred) && c.output == c.host.name(POLICY.rules[0].head.pred)
    ensures c.host.inputFacts == c.host.derivedFacts == 1024 && c.host.perPredicate == 64 && c.poolLength == 512
    ensures Run(c, views, events) && |events| == 1 && Succeeded(events[0])
    ensures events[0].request.inputs == Snapshot([Denotes(EVENT)], 1)
    ensures var l := Ledger(0, 0, 0, 0, 0, false, false);
            views[0] == View([], 1, 0, Released(Committed(l.(pendingHash := HashOf(c.host, []), live := true))), false)
    ensures Sound(views[0]) && InStep(c.host, views[0]) && !InStep(c.host, views[1])
  {
    hide HashOf, Feasible, Denoted, FactSet, Listing, Lookup, IsProjection;
    var host := Host((q: nat) => if q < |DEFS| then DEFS[q].name else "", _ => "", (n, a) => Lookup(DEFS, n, a),
                     (q: nat) => if q < |DEFS| then KindOf(DEFS[q].flags) else Idb, 1024, 1024, 64, 0);
    c := Setting(host, 512, "event", "seen");
    var l := Ledger(0, 0, 0, 0, 0, false, false);
    var v := View([], 1, 0, Released(Committed(l.(pendingHash := HashOf(host, []), live := true))), false);
    var r := Request(Snapshot([Denotes(EVENT)], 1), true, 1, 1, false);
    OneListed(EVENT);
    var w := View([], 2, 1, Committed(v.ledger.(pendingHash := HashOf(host, [EVENT]), live := true)), true);
    NamesServe();
    PolicyAccepted(host.name);
    OneIsFeasible(host, r.inputs);
    OneHashDiffers(host);
    views, events := [v, w], [Tried(r, 0, Ok)];
    assert Follows(c, v, events[0], w);
  }

  lemma OneListed(f: Fact)
    ensures Listing(Denoted([Denotes(f)])) == [f]
    ensures FactSet([]) == {}
  {
    assert Denoted([Denotes(f)]) == {f} == FactSet([f]);
    AscendingUnique([f], Listing({f}));
  }

  lemma NamesServe()
    ensures NamesDiffer(DEFS) && Lookup(DEFS, "seen", 3) == Some(1)
    ensures forall i :: 0 <= i < |DEFS| ==> Declarable(DEFS[i].name, DEFS[i].arity, DEFS[i].flags)
  {
    assert |"event"| != |"seen"|;
    assert DEFS[0].flags - {QueryFlag} == {EdbFlag} && DEFS[1].flags - {QueryFlag} == {IdbFlag};
    LookupExact(DEFS, "seen", 3, 1);
  }

  lemma PolicyAccepted(name: nat -> string)
    ensures IsProjection(POLICY, name)
  {
    assert Repeats(POLICY.rules[0]);
  }

  lemma OneIsFeasible(host: Host, inputs: Inputs)
    requires inputs == Snapshot([Denotes(EVENT)], 1) && host.name(0) == "event"
    requires host.find("seen", 3) == Some(1) && host.kind(1) == Idb
    requires host.inputFacts == 1024 && host.derivedFacts == 1024 && host.perPredicate == 64
    ensures Feasible(host, 512, "event", "seen", 0, {}, inputs)
  {
    hide Listing;
    OneListed(EVENT);
    assert Denoted([Denotes(EVENT)]) == {EVENT};
    OneFits({EVENT}, EVENT);
    var g := Fact(1, EVENT.values);
    assert [EVENT][0] == EVENT && Emitted(host, "seen", EVENT.values) == Some(g);
    assert Image(host, "event", "seen", [EVENT]) == {g};
    OneFits({g}, g);
  }

  lemma OneFits(s: set<Fact>, f: Fact)
    requires s == {f}
    ensures |s| == 1 && forall q :: |OfPredicate(s, q)| <= 1
  {
    forall q: nat ensures |OfPredicate(s, q)| <= 1 {
      assert OfPredicate(s, q) == if q == f.pred then {f} else {};
    }
  }

  lemma LetterE()
    ensures Byte('e') == 101
  {
  }

  lemma LetterV()
    ensures Byte('v') == 118
  {
  }

  lemma LetterN()
    ensures Byte('n') == 110
  {
  }

  lemma LetterT()
    ensures Byte('t') == 116
  {
  }

  lemma Words()
    ensures Word(0) == 0 && Word(1) == 1 && Word(3) == 3
  {
  }

  lemma Seeds()
    ensures Seed(0) == 14695981039346656037 && Seed(1) == 14695981039346656036
  {
    Words();
  }

  lemma EventText(h: bv64)
    ensures HashText(h, "event") == Mix(Mix(Mix(Mix(Mix(Mix(h, 101), 118), 101), 110), 116), 0)
  {
    hide Mix, Byte;
    LetterE();
    LetterV();
    LetterN();
    LetterT();
    assert "event"[1..] == "vent" && "vent"[1..] == "ent" && "ent"[1..] == "nt" && "nt"[1..] == "t" && "t"[1..] == "";
    assert HashText(Mix(Mix(Mix(h, 101), 118), 101), "nt") == Mix(Mix(Mix(Mix(Mix(Mix(h, 101), 118), 101), 110), 116), 0);
  }

  /** A symbol is hashed by its text, under a mark of its own. */
  lemma SymbolHash(host: Host, h: bv64, id: nat)
    requires host.text(id) == "event"
    ensures HashValue(host, h, Symbol(id)) == Mix(Mix(Mix(Mix(Mix(Mix(Mix(h, 1), 101), 118), 101), 110), 116), 0)
  {
    hide Mix, HashText;
    EventText(Mix(h, 1));
  }

  lemma EventValues(host: Host, h: bv64)
    ensures HashValues(host, h, EVENT.values) == Mix(Mix(Mix(Mix(Mix(Mix(h, 2), 0), 2), 0), 3), 0)
  {
    hide Mix, Word;
    Words();
    var vs := EVENT.values;
    assert vs[..2][..1] == vs[..1] && vs[..1][..0] == [] && |vs| == 3;
    assert HashValues(host, h, vs[..1]) == Mix(Mix(h, 2), 0);
    assert HashValues(host, h, vs[..2]) == Mix(Mix(Mix(Mix(h, 2), 0), 2), 0);
  }

  lemma EventMixes()
    ensures Mix(Mix(Mix(Mix(Mix(Mix(14695981039346656036, 101), 118), 101), 110), 116), 0) == 220206893177062868
    ensures Mix(Mix(Mix(Mix(Mix(Mix(Mix(220206893177062868, 3), 2), 0), 2), 0), 3), 0) == 4226736019833688934
  {
  }

  lemma OneHashDiffers(host: Host)
    requires host.name(0) == "event"
    ensures HashOf(host, [EVENT]) != HashOf(host, [])
  {
    hide Mix, Word, Seed, HashText, HashValues;
    Seeds();
    Words();
    EventText(Seed(1));
    EventMixes();
    EventValues(host, Mix(220206893177062868, 3));
    assert [EVENT][..0] == [];
    assert HashFrom(host, Seed(1), [EVENT]) == HashFact(host, Seed(1), EVENT);
  }
}
