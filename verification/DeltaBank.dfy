/**
 A bank: one session with a provider, and beside it the retained inputs with their generation
 and logical position. A transaction stages changes against the retained inputs (or takes a
 complete snapshot), lets the provider solve, and then commits or rejects both together.
 */
module DeltaBank {
  import opened Datalog
  import opened FactOrder
  import opened DeltaStage
  import opened DeltaBackend

  datatype Inputs = Deltas(changes: seq<Change>) | Snapshot(records: seq<Record>, replayed: nat)

  /** The number of logical positions a transaction moves on. */
  function Moves(inputs: Inputs): nat {
    match inputs
    case Deltas(changes) => |changes|
    case Snapshot(_, n) => n
  }

  datatype Request = Request(inputs: Inputs, ours: bool, generation: nat, logical: nat, rejectLate: bool)

  /** What an observer sees of a bank between two calls. */
  datatype View = View(facts: seq<Fact>, generation: nat, logical: nat, ledger: Ledger, active: bool)

  function Limit(poolLength: nat): nat {
    if poolLength < CAP then poolLength else CAP
  }

  /** The set of inputs a transaction proposes. */
  ghost function Proposed(s: set<Fact>, inputs: Inputs): set<Fact> {
    match inputs
    case Deltas(changes) => Effects(s, changes)
    case Snapshot(records, _) => Denoted(records)
  }

  ghost predicate Stageable(host: Host, poolLength: nat, s: set<Fact>, inputs: Inputs) {
    && (match inputs
        case Deltas(changes) =>
          && (forall i :: 0 <= i < |changes| ==> Submittable(changes[i]))
          && EffectsFit(s, changes, Limit(poolLength))
        case Snapshot(records, _) =>
          Convertible(records, true, host.inputFacts) && |Denoted(records)| <= poolLength)
    && Countable(Proposed(s, inputs), host.perPredicate)
  }

  predicate Submittable(c: Change) {
    Convertible(c.remove, false, CAP) && Convertible(c.add, true, CAP)
  }

  /** When a request gets past the checks that come before any work. */
  predicate Admissible(v: View, r: Request) {
    && r.ours && v.generation != 0 && r.generation == v.generation && r.generation != UINT64_MAX
    && !v.active && Moves(r.inputs) <= 2
    && Wrap64(v.logical + Moves(r.inputs)) == r.logical
  }

  class Bank {
    const host: Host
    const backend: Backend
    const pool: array<Fact>
    const kept: array<Fact>
    var staged: nat
    var count: nat
    var generation: nat
    var logical: nat
    var active: bool
    var pending: bool
    var derived: seq<Fact>

    constructor (host: Host, backend: Backend, pool: array<Fact>)
      requires backend.ledger == Ledger(0, 0, 0, 0, 0, false, false)
      ensures this.host == host && this.backend == backend && this.pool == pool && fresh(kept)
      ensures Valid() && !pending && Look() == View([], 0, 0, backend.ledger, false)
    {
      this.host, this.backend, this.pool := host, backend, pool;
      kept := new Fact[CAP](_ => Fact(0, []));
      staged, count, generation, logical, active, pending, derived := 0, 0, 0, 0, false, false, [];
    }

    ghost predicate Valid()
      reads this`staged, this`count, this`generation, this`logical, kept
    {
      && kept != pool && kept.Length == CAP && count <= CAP && count <= pool.Length && staged <= pool.Length
      && Ascending(kept[..count]) && generation <= UINT64_MAX && logical <= UINT64_MAX
    }

    ghost function Facts(): seq<Fact>
      requires Valid()
      reads this`staged, this`count, this`generation, this`logical, kept
    {
      kept[..count]
    }

    ghost function Look(): View
      requires Valid()
      reads this, kept, backend
    {
      View(kept[..count], generation, logical, backend.ledger, active)
    }

    /** All submitted entries are converted before the pool is written. */
    method ConvertAll(changes: seq<Change>) returns (rc: Status, steps: seq<Step>)
      ensures rc == Ok <==> forall i :: 0 <= i < |changes| ==> Submittable(changes[i])
      ensures rc == Ok ==> Represents(steps, changes)
    {
      hide Denoted, Ascending, Convertible;
      steps := [];
      for k := 0 to |changes|
        invariant |steps| == k
        invariant forall i :: 0 <= i < k ==> Submittable(changes[i])
        invariant Represents(steps, changes[..k])
      {
        var removed, added;
        rc, removed := Convert(changes[k].remove, false, CAP);
        if rc == Ok { rc, added := Convert(changes[k].add, true, CAP); }
        if rc != Ok { return; }
        steps := steps + [Step(added, removed)];
      }
      rc := Ok;
      assert changes[..|changes|] == changes;
    }

    method Stage(changes: seq<Change>) returns (rc: Status)
      requires Valid()
      modifies pool, this`staged
      ensures Valid()
      ensures rc == Ok <==> Stageable(host, pool.Length, FactSet(Facts()), Deltas(changes))
      ensures rc == Ok ==> Ascending(pool[..staged]) && FactSet(pool[..staged]) == Effects(FactSet(Facts()), changes)
    {
      hide Ascending, Countable, Submittable, AllFit, EffectsFit, Represents, Effects, AfterAll;
      var steps;
      rc, steps := ConvertAll(changes);
      if rc != Ok { return; }
      var n := count;
      ghost var facts := kept[..n];
      forall i | 0 <= i < n { pool[i] := kept[i]; }
      assert pool[..n] == facts;
      ghost var s := FactSet(facts);
      SameFit(s, steps, changes, Limit(pool.Length));
      SameEffects(s, steps, changes);
      var ok;
      ok, n := Merge(pool, n, steps, Limit(pool.Length));
      assert kept[..count] == facts;
      if !ok { return PayloadTooLarge; }
      staged := n;
      rc := CheckCounts(pool, n, host.perPredicate);
    }

    method Materialize(records: seq<Record>) returns (rc: Status)
      requires Valid()
      modifies pool, this`staged
      ensures Valid()
      ensures rc == Ok <==> Stageable(host, pool.Length, FactSet(Facts()), Snapshot(records, 0))
      ensures rc == Ok ==> Ascending(pool[..staged]) && FactSet(pool[..staged]) == Denoted(records)
    {
      hide Ascending, Countable, Denoted, Convertible;
      var facts;
      rc, facts := Convert(records, true, host.inputFacts);
      if rc != Ok { return; }
      PoolSize(facts);
      if |facts| > pool.Length { return PayloadTooLarge; }
      staged := |facts|;
      ghost var before := kept[..count];
      forall i | 0 <= i < |facts| { pool[i] := facts[i]; }
      assert pool[..staged] == facts && kept[..count] == before;
      rc := CheckCounts(pool, staged, host.perPredicate);
    }
  
    /** Stages the inputs and lets the provider solve them. Unless the caller has announced
        that it will decide later, the result is committed at once. */
    method Solve(inputs: Inputs) returns (rc: Status)
      requires Valid() && !active && Quiet(backend.ledger)
      modifies pool, this`staged, this`active, this`derived, backend`recorded, backend`ledger
      ensures Valid()
      ensures rc == Ok <==> Feasible(host, pool.Length, backend.input, backend.output, backend.fail, FactSet(Facts()), inputs)
      ensures rc == Ok ==>
                && active && pool[..staged] == Listing(Proposed(FactSet(Facts()), inputs)) && staged <= CAP
                && derived == Listing(Image(host, backend.input, backend.output, pool[..staged]))
                && backend.recorded == pool[..staged]
                && backend.ledger == (var l := old(backend.ledger).(pendingHash := HashOf(host, pool[..staged]), live := true);
                                      if pending then l else Committed(l))
      ensures rc != Ok ==>
                && !active
                && backend.ledger == if Stageable(host, pool.Length, FactSet(Facts()), inputs) then Released(old(backend.ledger)) else old(backend.ledger)
    {
      hide Ascending, Stageable, Solvable, HashOf, OutputFits, Effects, Denoted;
      match inputs {
        case Deltas(changes) => rc := Stage(changes);
        case Snapshot(records, k) =>
          rc := Materialize(records);
          SameSnapshot(host, pool.Length, FactSet(Facts()), records, k);
      }
      if rc != Ok { return; }
      var facts := pool[..staged];
      assert facts == Listing(Proposed(FactSet(Facts()), inputs)) by {
        AscendingUnique(facts, Listing(Proposed(FactSet(Facts()), inputs)));
      }
      var out := new Output();
      FitsEmpty(host, out.derived);
      rc := backend.Solve(host, facts, out);
      if out.error != Ok { rc := out.error; }
      if rc != Ok {
        backend.Release();
        return;
      }
      AtMostCap(host, backend.input, backend.output, facts, backend.fail);
      derived := Canonical(out.derived);
      AscendingUnique(derived, Listing(Image(host, backend.input, backend.output, facts)));
      active := true;
      if !pending { backend.Commit(); }
    }

    method Candidate(inputs: Inputs) returns (rc: Status)
      requires Valid() && !active && !pending && Quiet(backend.ledger)
      modifies pool, this`staged, this`active, this`pending, this`derived, backend`recorded, backend`ledger
      ensures Valid()
      ensures rc == Ok <==> Feasible(host, pool.Length, backend.input, backend.output, backend.fail, FactSet(Facts()), inputs)
      ensures rc == Ok ==>
                && active && pending && pool[..staged] == Listing(Proposed(FactSet(Facts()), inputs)) && staged <= CAP
                && derived == Listing(Image(host, backend.input, backend.output, pool[..staged]))
                && backend.recorded == pool[..staged]
                && backend.ledger == old(backend.ledger).(pendingHash := HashOf(host, pool[..staged]), live := true)
      ensures rc != Ok ==>
                && !active && !pending
                && backend.ledger == if Stageable(host, pool.Length, FactSet(Facts()), inputs) then Released(old(backend.ledger)) else old(backend.ledger)
    {
      hide Feasible, Ascending, HashOf;
      pending := true;
      rc := Solve(inputs);
      if rc != Ok { pending := false; }
    }

    /** Gives the result back: an abort if it was never committed. */
    method Free() returns (rc: Status)
      requires Valid()
      modifies this`active, this`pending, backend`ledger
      ensures Valid()
      ensures rc == if old(active) then Ok else InvalidState
      ensures if old(active) then !active && !pending && backend.ledger == Released(old(backend.ledger))
              else active == old(active) && pending == old(pending) && backend.ledger == old(backend.ledger)
    {
      hide Ascending;
      if !active { return InvalidState; }
      backend.Release();
      active, pending := false, false;
      rc := Ok;
    }

    method CommitResult()
      requires Valid()
      modifies this`pending, backend`ledger
      ensures Valid() && !pending
      ensures backend.ledger == if old(pending) then Committed(old(backend.ledger)) else old(backend.ledger)
    {
      hide Ascending;
      if !pending { return; }
      pending := false;
      backend.Commit();
    }

    /** Retains the staged facts of a delta transaction and moves generation and position on. */
    method Accept(position: nat, delta: bool)
      requires Valid() && generation < UINT64_MAX && position <= UINT64_MAX
      requires delta ==> staged <= CAP && Ascending(pool[..staged])
      modifies kept, this`count, this`generation, this`logical
      ensures Valid() && generation == old(generation) + 1 && logical == position
      ensures Facts() == if delta then pool[..staged] else old(Facts())
      ensures pool[..] == old(pool[..])
    {
      hide Ascending;
      if delta {
        var n := staged;
        ghost var s := pool[..n];
        forall i | 0 <= i < n { kept[i] := pool[i]; }
        count := n;
        assert kept[..count] == s;
        assert pool[..n] == s;
      }
      generation := generation + 1;
      logical := position;
    }

    /** The first contents of a bank: an ordinary solve, retained at once and given back. */
    method Seed(records: seq<Record>) returns (rc: Status)
      requires Valid() && !pending && !active && Quiet(backend.ledger) && generation == 0
      modifies this, pool, kept, backend`recorded, backend`ledger
      ensures Valid() && !pending && Sound(Look())
      ensures rc == Ok <==> Feasible(host, pool.Length, backend.input, backend.output, backend.fail, old(FactSet(Facts())), Snapshot(records, 0))
      ensures rc == Ok ==>
                var facts := Listing(Denoted(records));
                Look() == View(facts, 1, 0, Released(Committed(old(backend.ledger).(pendingHash := HashOf(host, facts), live := true))), false)
      ensures rc != Ok ==> Look() in {old(Look()), old(Look()).(ledger := Released(old(backend.ledger)))}
    {
      hide Ascending, Feasible, HashOf, Image, Denoted;
      rc := Solve(Snapshot(records, 0));
      if rc != Ok { return; }
      Accept(0, true);
      var _ := Free();
    }

    method Execute(r: Request) returns (rc: Status, published: bool)
      requires Valid() && !pending && Sound(Look())
      modifies this, pool, kept, backend`recorded, backend`ledger
      ensures Valid() && !pending && Sound(Look())
      ensures Executes(host, pool.Length, backend.input, backend.output, backend.fail, old(Look()), r, rc, Look())
      ensures published <==> rc == Ok
      ensures rc == Ok ==>
                && pool[..staged] == Listing(Proposed(old(FactSet(Facts())), r.inputs)) && backend.recorded == pool[..staged]
                && derived == Listing(Image(host, backend.input, backend.output, pool[..staged]))
    {
      hide Ascending, HashOf, Image, Proposed, Stageable, Solvable;
      published := false;
      var moves := Moves(r.inputs);
      if !r.ours || generation == 0 || r.generation != generation || r.generation == UINT64_MAX || active || moves > 2 {
        return InvalidState, published;
      }
      if Wrap64(logical + moves) != r.logical { return InvalidState, published; }
      rc := Candidate(r.inputs);
      if rc != Ok { return; }
      if r.rejectLate {
        var _ := Free();
        return InvalidState, published;
      }
      Accept(r.logical, r.inputs.Deltas?);
      CommitResult();
      published := true;
    }
  }

  /** In every state between calls a leased result is one the provider has committed, and
      without one the provider holds nothing. */
  ghost predicate Sound(v: View) {
    if v.active then v.ledger.live && v.ledger.accepted && v.ledger.pendingHash == v.ledger.committedHash else Quiet(v.ledger)
  }

  /** What a transaction does to a bank, whatever happens inside. */
  ghost predicate Executes(host: Host, poolLength: nat, input: string, output: string, fail: int,
                           v: View, r: Request, rc: Status, w: View) {
    var inputs := Listing(Proposed(FactSet(v.facts), r.inputs));
    && (rc == Ok <==>
          Admissible(v, r) && !r.rejectLate && Feasible(host, poolLength, input, output, fail, FactSet(v.facts), r.inputs))
    && (rc == Ok ==>
          w == View(if r.inputs.Deltas? then inputs else v.facts, v.generation + 1, r.logical,
                    Committed(v.ledger.(pendingHash := HashOf(host, inputs), live := true)), true))
    && (!Admissible(v, r) ==> rc == InvalidState)
    && (Admissible(v, r) && Feasible(host, poolLength, input, output, fail, FactSet(v.facts), r.inputs) && r.rejectLate ==> rc == InvalidState)
    && (rc != Ok ==>
          w == if Admissible(v, r) && Stageable(host, poolLength, FactSet(v.facts), r.inputs) then v.(ledger := Released(v.ledger)) else v)
  }

  ghost predicate Quiet(l: Ledger) {
    !l.live && !l.accepted && l.pendingHash == 0
  }

  /** When the inputs can be staged and solved. */
  ghost predicate Feasible(host: Host, poolLength: nat, input: string, output: string, fail: int, s: set<Fact>, inputs: Inputs) {
    Stageable(host, poolLength, s, inputs) && Solvable(host, input, output, Listing(Proposed(s, inputs)), fail)
  }

  lemma SameSnapshot(host: Host, poolLength: nat, s: set<Fact>, records: seq<Record>, k: nat)
    ensures Stageable(host, poolLength, s, Snapshot(records, 0)) <==> Stageable(host, poolLength, s, Snapshot(records, k))
  {
  }

  lemma FitsEmpty(host: Host, facts: seq<Fact>)
    requires facts == []
    ensures OutputFits(host, FactSet(facts))
  {
    assert forall q :: OfPredicate(FactSet(facts), q) == {};
  }

  lemma AtMostCap(host: Host, input: string, output: string, facts: seq<Fact>, fail: int)
    requires Solvable(host, input, output, facts, fail)
    ensures |facts| <= CAP
  {
  }
}
