/**
 The recorder of request observations and the workload that drives it. For every number of
 samples and warmups the workload fills the stores exactly. Its export is refused only for what
 the garbage collector did, and what it exports is accepted.
 */
module Telemetry {

  const EVERY: nat := 32
  const BUDGET: nat := 20_000

  datatype Loop = Cold | Warmup | Total | Phases

  /** The counters of the thread at one moment. */
  datatype Probe = Probe(thread: int, cpu: int, counters: seq<int>)

  datatype Row = Row(start: int, end: int, before: Probe, after: Probe)

  datatype Calibration = Calibration(start: int, end: int, loop: Loop, next: nat, iterations: int)

  datatype Collection = Collection(start: int, end: int, generation: int, collected: int, uncollectable: int)

  /** What the collector reports: that a collection begins, or that it has ended and how. */
  datatype Phase = Begin | End(generation: int, collected: int, uncollectable: int)

  /** Whether a collection is under way, and since when. */
  datatype Running = Idle | Since(start: int)

  /** Multiples of the calibration distance below n. */
  function Marks(n: nat): seq<nat> {
    if n == 0 then [] else Marks(n - 1) + (if (n - 1) % EVERY == 0 then [n - 1] else [])
  }

  lemma {:induction false} MarkCount(n: nat)
    ensures |Marks(n)| == (n + EVERY - 1) / EVERY
  {
    if n > 0 { MarkCount(n - 1); }
  }

  /** The marks are the multiples of thirty-two below n, in order. */
  lemma {:induction false} MarksAre(n: nat, i: nat)
    ensures i < |Marks(n)| <==> 32 * i < n
    ensures i < |Marks(n)| ==> Marks(n)[i] == 32 * i
  {
    MarkCount(n);
    assert i < (n + EVERY - 1) / EVERY <==> 32 * i < n;
    if n > 0 {
      MarksAre(n - 1, i);
      MarkCount(n - 1);
      assert (n - 1) % EVERY == 0 ==> (n - 1 + EVERY - 1) / EVERY * 32 == n - 1;
    }
  }

  /** Where a loop is calibrated: at the marks and at its end. */
  function Stops(samples: nat): seq<nat> {
    if samples == 0 then [] else Marks(samples) + [samples]
  }

  function Labelled(loop: Loop, ns: seq<nat>): (r: seq<(Loop, nat)>)
    ensures |r| == |ns|
  {
    seq(|ns|, i requires 0 <= i < |ns| => (loop, ns[i]))
  }

  function UpTo(n: nat): seq<nat> {
    seq(n, i => i)
  }

  /** How many warmups are run. */
  function Warmups(samples: nat, warmup: nat): nat {
    if samples > 0 then warmup else 0
  }

  /** The labels of the requests, in order. */
  function RequestLabels(samples: nat, warmup: nat): seq<(Loop, nat)> {
    Labelled(Cold, UpTo(1)) + Labelled(Warmup, UpTo(Warmups(samples, warmup))) +
    Labelled(Total, UpTo(samples)) + Labelled(Phases, UpTo(samples))
  }

  function CalibrationLabels(samples: nat): seq<(Loop, nat)> {
    Labelled(Total, Stops(samples)) + Labelled(Phases, Stops(samples))
  }

  /** The index of the first request of a measured loop. */
  function First(samples: nat, warmup: nat, loop: Loop): nat {
    1 + Warmups(samples, warmup) + if loop == Phases then samples else 0
  }

  /* ---------- the world ---------- */

  /** What the clock shows at one moment after another, the counters of the thread, how many
      moments each request lasts, and what the collector reports before each reading. The clock
      may stand still from one moment to the next, but not over a whole span of moments, and a
      request lasts at least a span. Counters and thread time do not fall. */
  datatype World = World(clock: nat -> int, probe: nat -> Probe, cpuKnown: bool, span: nat, work: nat -> nat,
                         reports: nat -> seq<Phase>)

  ghost predicate Sane(w: World) {
    && w.clock(0) >= 0 && w.span > 0
    && (forall i: nat :: w.clock(i) <= w.clock(i + 1))
    && (forall i: nat :: w.clock(i) < w.clock(i + w.span))
    && (forall k: nat :: w.work(k) >= w.span)
    && (forall i: nat :: NoLess(w.probe(i), w.probe(i + 1)))
    && (forall i: nat :: !w.cpuKnown ==> w.probe(i).cpu == -1)
  }

  lemma {:induction false} ClockGrows(w: World, i: nat, j: nat)
    requires Sane(w) && i <= j
    ensures 0 <= w.clock(i) <= w.clock(j)
    decreases i, j
  {
    if i < j {
      ClockGrows(w, i, j - 1);
      assert w.clock(j - 1) <= w.clock(j - 1 + 1);
    } else if i > 0 {
      ClockGrows(w, i - 1, i - 1);
      assert w.clock(i - 1) <= w.clock(i - 1 + 1);
    }
  }

  /** A span later the clock shows more. */
  lemma ClockAdvances(w: World, i: nat, j: nat)
    requires Sane(w) && i + w.span <= j
    ensures w.clock(i) < w.clock(j)
  {
    assert w.clock(i) < w.clock(i + w.span);
    ClockGrows(w, i + w.span, j);
  }

  /** So the clock reaches every time. */
  lemma {:induction false} ClockReaches(w: World, i: nat, k: nat)
    requires Sane(w)
    ensures w.clock(i + w.span * k) >= w.clock(i) + k
  {
    hide Sane;
    if k > 0 {
      ClockReaches(w, i, k - 1);
      assert i + w.span * k == i + w.span * (k - 1) + w.span;
      ClockAdvances(w, i + w.span * (k - 1), i + w.span * k);
    }
  }

  predicate NoLess(x: Probe, y: Probe) {
    x.thread <= y.thread && |x.counters| == |y.counters| == 4 && forall k :: 0 <= k < 4 ==> x.counters[k] <= y.counters[k]
  }

  /* ---------- garbage collection ---------- */

  /** Collections one after another, all over by now; one may be under way since the last. */
  ghost predicate InTurn(cs: seq<Collection>, running: Running, now: int) {
    && (forall i :: 0 <= i < |cs| ==> 0 <= cs[i].start <= cs[i].end <= now)
    && (forall i, j :: 0 <= i < j < |cs| ==> cs[i].end <= cs[j].start)
    && (running.Since? ==> 0 <= running.start <= now && forall i :: 0 <= i < |cs| ==> cs[i].end <= running.start)
  }

  /** The store has kept the first collections that ended, and says whether it lost any. */
  ghost predicate Kept(kept: nat, overflow: bool, ended: nat, capacity: nat) {
    kept == (if ended < capacity then ended else capacity) && (overflow <==> ended > capacity)
  }

  lemma InTurnLater(cs: seq<Collection>, running: Running, now: int, later: int)
    requires InTurn(cs, running, now) && now <= later
    ensures InTurn(cs, running, later)
  {
  }

  lemma CollectionBegins(cs: seq<Collection>, running: Running, now: int, later: int)
    requires InTurn(cs, running, now) && 0 <= now <= later
    ensures InTurn(cs, Since(now), later)
  {
  }

  lemma CollectionAdds(cs: seq<Collection>, start: int, c: Collection, later: int)
    requires InTurn(cs, Since(start), c.end) && c.start == start && c.end <= later
    ensures InTurn(cs + [c], Idle, later) && InTurn(cs, Idle, later)
  {
  }

  /* ---------- the recorder ---------- */

  class Recorder {
    const world: World
    const capacity: nat
    const calibrationCapacity: nat
    const gcCapacity: nat
    var ticks: nat
    var pauses: nat
    var probes: nat
    var rows: seq<Row>
    var calibrations: seq<Calibration>
    var collections: seq<Collection>
    var running: Running
    var gcOverflow: bool
    ghost var ended: nat

    constructor (world: World, samples: nat, warmup: nat)
      requires Sane(world)
      ensures this.world == world && rows == [] && calibrations == [] && Collecting() && ended == 0 && running.Idle?
      ensures capacity == 1 + Warmups(samples, warmup) + 2 * samples
      ensures calibrationCapacity == if samples > 0 then 2 * (|Marks(samples)| + 1) else 0
      ensures gcCapacity == if 1024 < 4 * capacity then 4 * capacity else 1024
    {
      this.world := world;
      capacity := 1 + Warmups(samples, warmup) + 2 * samples;
      MarkCount(samples);
      calibrationCapacity := if samples > 0 then 2 * ((samples + EVERY - 1) / EVERY + 1) else 0;
      var room := 4 * (1 + Warmups(samples, warmup) + 2 * samples);
      gcCapacity := if 1024 < room then room else 1024;
      ticks, pauses, probes, rows, calibrations := 0, 0, 0, [], [];
      collections, running, gcOverflow, ended := [], Idle, false, 0;
    }

    /** The account of the collector is in order. */
    ghost predicate Collecting()
      reads this
    {
      && Sane(world) && InTurn(collections, running, world.clock(ticks))
      && Kept(|collections|, gcOverflow, ended, gcCapacity)
    }

    /** The collector's callback. An end that no beginning went before is not counted. */
    method Report(phase: Phase)
      requires Collecting()
      modifies this`ticks, this`collections, this`running, this`gcOverflow, this`ended
      ensures Collecting() && ticks >= old(ticks)
      ensures ended == old(ended) + if phase.End? && old(running).Since? then 1 else 0
      ensures running.Since? <==> phase.Begin?
    {
      hide Sane, InTurn;
      ghost var now, later := world.clock(ticks), world.clock(ticks + 1);
      ClockGrows(world, ticks, ticks + 1);
      match phase {
        case Begin =>
          CollectionBegins(collections, running, now, later);
          running := Since(world.clock(ticks));
          ticks := ticks + 1;
        case End(generation, collected, uncollectable) =>
          if running.Since? {
            var c := Collection(running.start, world.clock(ticks), generation, collected, uncollectable);
            CollectionAdds(collections, running.start, c, later);
            ticks := ticks + 1;
            ended := ended + 1;
            if |collections| == gcCapacity {
              gcOverflow := true;
            } else {
              collections := collections + [c];
            }
            running := Idle;
          }
      }
    }

    /** A reading of the clock, before which the collector may report. */
    method Read() returns (t: int, ghost at: nat)
      requires Collecting()
      modifies this`ticks, this`pauses, this`collections, this`running, this`gcOverflow, this`ended
      ensures Collecting() && old(ticks) <= at < ticks && t == world.clock(at)
    {
      hide Sane, InTurn, Kept;
      var phases := world.reports(pauses);
      pauses := pauses + 1;
      for i := 0 to |phases|
        invariant Collecting() && ticks >= old(ticks)
      {
        Report(phases[i]);
      }
      t, at := world.clock(ticks), ticks;
      Pass(1);
    }

    method Pass(moments: nat)
      requires Collecting()
      modifies this`ticks
      ensures Collecting() && ticks == old(ticks) + moments
    {
      hide Sane;
      ClockGrows(world, ticks, ticks + moments);
      InTurnLater(collections, running, world.clock(ticks), world.clock(ticks + moments));
      ticks := ticks + moments;
    }

    /** One observed request, or a refusal when the store is full. Whatever the collector does
        meanwhile, the request is recorded with the time it took. */
    method Measure() returns (ok: bool, elapsed: int)
      requires Collecting()
      modifies this`ticks, this`pauses, this`probes, this`rows, this`collections, this`running, this`gcOverflow, this`ended
      ensures Collecting() && ticks >= old(ticks)
      ensures ok <==> old(|rows|) < capacity
      ensures !ok ==> rows == old(rows)
      ensures ok ==>
                && |rows| == old(|rows|) + 1 && rows[..|rows| - 1] == old(rows)
                && var r := rows[|rows| - 1];
                   && RowOk(r, world.cpuKnown) && elapsed == r.end - r.start
                   && world.clock(old(ticks)) <= r.start && r.end <= world.clock(ticks)
    {
      hide Sane, InTurn, Kept, NoLess;
      if |rows| >= capacity { return false, 0; }
      ghost var first := ticks;
      var before := world.probe(probes);
      var start, i := Read();
      Pass(world.work(|rows|));
      var end, j := Read();
      var after := world.probe(probes + 1);
      LastsLong(world, i, |rows|, j, probes);
      ClockGrows(world, first, i);
      ClockGrows(world, j, ticks);
      probes := probes + 2;
      rows := rows + [Row(start, end, before, after)];
      return true, end - start;
    }

    /** Counts blocks of work until the budget has passed. */
    method Calibrate(loop: Loop, next: nat) returns (ok: bool)
      requires Collecting()
      modifies this`ticks, this`pauses, this`probes, this`calibrations, this`collections, this`running, this`gcOverflow, this`ended
      ensures Collecting() && ticks >= old(ticks)
      ensures ok <==> old(|calibrations|) < calibrationCapacity
      ensures !ok ==> calibrations == old(calibrations)
      ensures ok ==>
                && |calibrations| == old(|calibrations|) + 1 && calibrations[..|calibrations| - 1] == old(calibrations)
                && var c := calibrations[|calibrations| - 1];
                   && c.loop == loop && c.next == next && c.iterations >= 0 && c.start + BUDGET <= c.end
                   && world.clock(old(ticks)) <= c.start && c.end <= world.clock(ticks)
    {
      hide Sane, InTurn, Kept;
      if |calibrations| >= calibrationCapacity { return false; }
      ghost var first := ticks;
      var start, i := Read();
      ClockGrows(world, first, i);
      var deadline := start + BUDGET;
      ghost var bound := i + world.span * BUDGET;
      ClockReaches(world, i, BUDGET);
      var blocks := 0;
      var now, at := Read();
      while now < deadline
        invariant Collecting() && i <= at < ticks && now == world.clock(at) && blocks >= 0
        invariant calibrations == old(calibrations)
        decreases bound - at
      {
        NotYet(world, at, bound);
        blocks := blocks + 1;
        now, at := Read();
      }
      var end, j := Read();
      ClockGrows(world, at, j);
      ClockGrows(world, j, ticks);
      probes := probes + 2;
      calibrations := calibrations + [Calibration(start, end, loop, next, 32 * blocks)];
      ok := true;
    }
  }

  /** A time before the one at bound is shown before bound. */
  lemma NotYet(w: World, at: nat, bound: nat)
    requires Sane(w) && w.clock(at) < w.clock(bound)
    ensures at < bound
  {
    if at >= bound { ClockGrows(w, bound, at); }
  }

  lemma LastsLong(w: World, i: nat, request: nat, j: nat, p: nat)
    requires Sane(w) && i + w.work(request) <= j
    ensures w.clock(i) < w.clock(j) && 0 <= w.clock(i) && NoLess(w.probe(p), w.probe(p + 1))
    ensures !w.cpuKnown ==> w.probe(p).cpu == w.probe(p + 1).cpu == -1
  {
    hide NoLess;
    assert w.work(request) >= w.span;
    ClockAdvances(w, i, j);
    ClockGrows(w, i, j);
  }

  /* ---------- what is always so of a recording ---------- */

  predicate RowOk(r: Row, cpuKnown: bool) {
    r.start < r.end && NoLess(r.before, r.after) && (!cpuKnown ==> r.before.cpu == -1 && r.after.cpu == -1)
  }

  ghost predicate RowsOk(rows: seq<Row>, now: int, cpuKnown: bool) {
    && (forall k :: 0 <= k < |rows| ==> RowOk(rows[k], cpuKnown) && 0 <= rows[k].start && rows[k].end <= now)
    && (forall k :: 0 < k < |rows| ==> rows[k - 1].end <= rows[k].start)
  }

  /** A calibration lies between the requests it stands between. */
  ghost predicate CalibrationOk(c: Calibration, rows: seq<Row>, samples: nat, warmup: nat) {
    var f := First(samples, warmup, c.loop) + c.next;
    && c.start + BUDGET <= c.end && c.iterations >= 0 && (c.loop == Total || c.loop == Phases)
    && (c.next > 0 ==> f - 1 < |rows| && rows[f - 1].end <= c.start)
    && (f < |rows| ==> c.end <= rows[f].start)
  }

  ghost predicate Recorded(rows: seq<Row>, cs: seq<Calibration>, now: int, samples: nat, warmup: nat, cpuKnown: bool) {
    && RowsOk(rows, now, cpuKnown)
    && forall i :: 0 <= i < |cs| ==> CalibrationOk(cs[i], rows, samples, warmup) && cs[i].end <= now
  }

  lemma RowAdds(rows: seq<Row>, cs: seq<Calibration>, now: int, samples: nat, warmup: nat, cpuKnown: bool, r: Row, later: int)
    requires Recorded(rows, cs, now, samples, warmup, cpuKnown) && 0 <= now <= r.start && RowOk(r, cpuKnown) && r.end <= later
    ensures Recorded(rows + [r], cs, later, samples, warmup, cpuKnown)
  {
    var all := rows + [r];
    forall i | 0 <= i < |cs| ensures CalibrationOk(cs[i], all, samples, warmup) {
      assert CalibrationOk(cs[i], rows, samples, warmup);
    }
  }

  lemma CalibrationAdds(rows: seq<Row>, cs: seq<Calibration>, now: int, samples: nat, warmup: nat, cpuKnown: bool, c: Calibration, later: int)
    requires Recorded(rows, cs, now, samples, warmup, cpuKnown) && now <= c.start && c.start + BUDGET <= c.end <= later && c.iterations >= 0
    requires (c.loop == Total || c.loop == Phases) && First(samples, warmup, c.loop) + c.next == |rows|
    ensures Recorded(rows, cs + [c], later, samples, warmup, cpuKnown)
  {
    assert CalibrationOk(c, rows, samples, warmup);
  }

  /* ---------- the workload ---------- */

  datatype Export = Export(requests: seq<((Loop, nat), Row)>, calibrations: seq<Calibration>, collections: seq<Collection>,
                           cpuKnown: bool, cold: int, totals: seq<int>)

  /** The labels of recorded calibrations. */
  function LabelsOf(cs: seq<Calibration>): (r: seq<(Loop, nat)>)
    ensures |r| == |cs|
  {
    seq(|cs|, i requires 0 <= i < |cs| => (cs[i].loop, cs[i].next))
  }

  lemma LabelAdds(cs: seq<Calibration>, c: Calibration)
    ensures LabelsOf(cs + [c]) == LabelsOf(cs) + [(c.loop, c.next)]
  {
  }

  lemma LabelledAdds(loop: Loop, ns: seq<nat>, n: nat)
    ensures Labelled(loop, ns + [n]) == Labelled(loop, ns) + [(loop, n)]
  {
  }

  class Driver {
    const recorder: Recorder
    const samples: nat
    const warmup: nat

    constructor (recorder: Recorder, samples: nat, warmup: nat)
      ensures this.recorder == recorder && this.samples == samples && this.warmup == warmup
    {
      this.recorder, this.samples, this.warmup := recorder, samples, warmup;
    }

    ghost predicate Good()
      reads recorder
    {
      && recorder.Collecting()
      && recorder.capacity == 1 + Warmups(samples, warmup) + 2 * samples
      && recorder.calibrationCapacity == (if samples > 0 then 2 * (|Marks(samples)| + 1) else 0)
      && Recorded(recorder.rows, recorder.calibrations, recorder.world.clock(recorder.ticks), samples, warmup, recorder.world.cpuKnown)
    }

    /** A request for which there is room. */
    method Request() returns (elapsed: int)
      requires Good() && |recorder.rows| < recorder.capacity
      modifies recorder
      ensures Good() && |recorder.rows| == old(|recorder.rows|) + 1 && recorder.rows[..|recorder.rows| - 1] == old(recorder.rows)
      ensures recorder.calibrations == old(recorder.calibrations)
      ensures elapsed == recorder.rows[|recorder.rows| - 1].end - recorder.rows[|recorder.rows| - 1].start
    {
      hide Recorded, RowOk, Recorder.Collecting;
      ghost var rows, t, w := recorder.rows, recorder.ticks, recorder.world;
      var ok;
      ok, elapsed := recorder.Measure();
      assert recorder.rows == rows + [recorder.rows[|rows|]];
      Started();
      ClockGrows(w, t, t);
      RowAdds(rows, recorder.calibrations, w.clock(t), samples, warmup, w.cpuKnown, recorder.rows[|rows|], w.clock(recorder.ticks));
    }

    lemma Started()
      requires recorder.Collecting()
      ensures Sane(recorder.world)
    {
    }

    method Mark(loop: Loop, next: nat)
      requires Good() && (loop == Total || loop == Phases) && First(samples, warmup, loop) + next == |recorder.rows|
      requires |recorder.calibrations| < recorder.calibrationCapacity
      modifies recorder
      ensures Good() && recorder.rows == old(recorder.rows)
      ensures LabelsOf(recorder.calibrations) == old(LabelsOf(recorder.calibrations)) + [(loop, next)]
    {
      hide Recorded, Recorder.Collecting, LabelsOf, Marks;
      ghost var cs, t, w := recorder.calibrations, recorder.ticks, recorder.world;
      var ok := recorder.Calibrate(loop, next);
      ghost var c := recorder.calibrations[|cs|];
      assert recorder.calibrations == cs + [c];
      LabelAdds(cs, c);
      CalibrationAdds(recorder.rows, cs, w.clock(t), samples, warmup, w.cpuKnown, c, w.clock(recorder.ticks));
    }
  
    /** One sample of a measured loop, with a calibration before it when it is at a mark. */
    method Sample(loop: Loop, index: nat, ghost f: nat, ghost durations: seq<int>, ghost labels: seq<(Loop, nat)>) returns (elapsed: int)
      requires Good() && (loop == Total || loop == Phases) && f == First(samples, warmup, loop) && index < samples
      requires |recorder.rows| == f + index && Timed(recorder.rows[f..], durations)
      requires LabelsOf(recorder.calibrations) == labels + Labelled(loop, Marks(index))
      requires |labels| + |Stops(samples)| <= recorder.calibrationCapacity
      modifies recorder
      ensures Good() && |recorder.rows| == f + index + 1 && recorder.rows[..f] == old(recorder.rows[..f])
      ensures LabelsOf(recorder.calibrations) == labels + Labelled(loop, Marks(index + 1))
      ensures Timed(recorder.rows[f..], durations + [elapsed])
    {
      hide Timed, LabelsOf;
      RoomForRequest(loop, index);
      MarkIfDue(loop, index, labels);
      hide Good, Labelled, Marks, First, Warmups, Stops;
      ghost var before := recorder.rows;
      elapsed := Request();
      TimedAdds(before[f..], durations, recorder.rows[f + index], elapsed);
      assert recorder.rows[f..] == before[f..] + [recorder.rows[f + index]];
      assert recorder.rows[..f] == before[..f];
    }

    method MarkIfDue(loop: Loop, index: nat, ghost labels: seq<(Loop, nat)>)
      requires Good() && (loop == Total || loop == Phases) && index < samples
      requires |recorder.rows| == First(samples, warmup, loop) + index
      requires LabelsOf(recorder.calibrations) == labels + Labelled(loop, Marks(index))
      requires |labels| + |Stops(samples)| <= recorder.calibrationCapacity
      modifies recorder
      ensures Good() && recorder.rows == old(recorder.rows)
      ensures LabelsOf(recorder.calibrations) == labels + Labelled(loop, Marks(index + 1))
    {
      hide Labelled, LabelsOf, Good, First;
      MarksGrow(index, samples);
      assert Marks(index + 1) == if index % EVERY == 0 then Marks(index) + [index] else Marks(index);
      if index % EVERY == 0 {
        LabelledAdds(loop, Marks(index), index);
        Mark(loop, index);
        assert labels + Labelled(loop, Marks(index)) + [(loop, index)] == labels + Labelled(loop, Marks(index + 1));
      }
    }

    lemma RoomForRequest(loop: Loop, index: nat)
      requires Good() && (loop == Total || loop == Phases) && index < samples
      ensures First(samples, warmup, loop) + index < recorder.capacity
    {
    }

    /** One measured loop: a calibration at every mark and at the end, a request per sample. */
    method MeasuredLoop(loop: Loop) returns (durations: seq<int>)
      requires Good() && (loop == Total || loop == Phases) && |recorder.rows| == First(samples, warmup, loop)
      requires |recorder.calibrations| + |Stops(samples)| <= recorder.calibrationCapacity
      modifies recorder
      ensures Good() && |recorder.rows| == First(samples, warmup, loop) + samples
      ensures recorder.rows[..First(samples, warmup, loop)] == old(recorder.rows)
      ensures LabelsOf(recorder.calibrations) == old(LabelsOf(recorder.calibrations)) + Labelled(loop, Stops(samples))
      ensures |durations| == samples && Timed(recorder.rows[First(samples, warmup, loop)..], durations)
    {
      hide Good, Timed, Labelled, LabelsOf, Warmups;
      ghost var f, rows, labels := |recorder.rows|, recorder.rows, LabelsOf(recorder.calibrations);
      durations := [];
      assert labels + Labelled(loop, Marks(0)) == labels;
      NothingTimed(recorder.rows[f..], durations);
      for index := 0 to samples
        invariant Good() && |recorder.rows| == f + index && recorder.rows[..f] == rows
        invariant LabelsOf(recorder.calibrations) == labels + Labelled(loop, Marks(index))
        invariant |durations| == index && Timed(recorder.rows[f..], durations)
      {
        var elapsed := Sample(loop, index, f, durations, labels);
        durations := durations + [elapsed];
      }
      if samples > 0 {
        LabelledAdds(loop, Marks(samples), samples);
        Mark(loop, samples);
      }
    }

    /** The whole workload. The stores for requests and calibrations are filled exactly. It is
        exported unless a collection is still under way or more have ended than there is room
        for; an export holds every collection, in turn, and is accepted. */
    method Run() returns (ok: bool, e: Export)
      requires Good() && recorder.rows == [] && recorder.calibrations == []
      modifies recorder
      ensures |recorder.rows| == recorder.capacity && |recorder.calibrations| == recorder.calibrationCapacity
      ensures ok <==> recorder.running.Idle? && recorder.ended <= recorder.gcCapacity
      ensures ok ==>
                && e.requests == Zip(RequestLabels(samples, warmup), recorder.rows) && e.calibrations == recorder.calibrations
                && |e.collections| == recorder.ended && InTurn(e.collections, Idle, recorder.world.clock(recorder.ticks))
                && Telling(e, samples, warmup)
    {
      hide Good, Telling;
      var n := Warmups(samples, warmup);
      StoresSuffice();
      var cold := Request();
      for i := 0 to n
        invariant Good() && |recorder.rows| == 1 + i && recorder.calibrations == []
        invariant cold == recorder.rows[0].end - recorder.rows[0].start
      {
        var _ := Request();
      }
      assert LabelsOf(recorder.calibrations) == [];
      var totals := MeasuredLoop(Total);
      ghost var first := recorder.rows;
      ghost var half := LabelsOf(recorder.calibrations);
      assert half == Labelled(Total, Stops(samples));
      var _ := MeasuredLoop(Phases);
      assert recorder.rows[0] == recorder.rows[..|first|][0] == first[0];
      assert first[1 + n..] == recorder.rows[..|first|][1 + n..] == recorder.rows[1 + n..1 + n + samples];
      StoresSuffice();
      ok, e := Finish(cold, totals);
    }

    /** The refusals of an export. */
    method Finish(cold: int, totals: seq<int>) returns (ok: bool, e: Export)
      requires Good() && |recorder.rows| == 1 + Warmups(samples, warmup) + 2 * samples && |totals| == samples
      requires LabelsOf(recorder.calibrations) == CalibrationLabels(samples)
      requires cold == recorder.rows[0].end - recorder.rows[0].start
      requires Timed(recorder.rows[First(samples, warmup, Total)..First(samples, warmup, Total) + samples], totals)
      ensures ok <==> recorder.running.Idle? && recorder.ended <= recorder.gcCapacity
      ensures ok ==>
                && e.requests == Zip(RequestLabels(samples, warmup), recorder.rows) && e.calibrations == recorder.calibrations
                && |e.collections| == recorder.ended && InTurn(e.collections, Idle, recorder.world.clock(recorder.ticks))
                && Telling(e, samples, warmup)
    {
      hide Telling, Recorded, LabelsOf, Timed, Sane;
      StoresSuffice();
      ok, e := false, Export([], [], [], false, 0, []);
      if |recorder.rows| != recorder.capacity || recorder.gcOverflow || recorder.running.Since? ||
         |recorder.calibrations| != recorder.calibrationCapacity
      {
        return;
      }
      e := Export(Zip(RequestLabels(samples, warmup), recorder.rows), recorder.calibrations, recorder.collections,
                  recorder.world.cpuKnown, cold, totals);
      Accepted(e, recorder.rows, recorder.world.clock(recorder.ticks));
      PassingTells(e, samples, warmup);
      ok := true;
    }

    lemma StoresSuffice()
      requires Good()
      ensures recorder.capacity == 1 + Warmups(samples, warmup) + 2 * samples
      ensures recorder.calibrationCapacity == 2 * |Stops(samples)| == |CalibrationLabels(samples)|
      ensures Recorded(recorder.rows, recorder.calibrations, recorder.world.clock(recorder.ticks), samples, warmup, recorder.world.cpuKnown)
    {
    }

    lemma Accepted(e: Export, rows: seq<Row>, now: int)
      requires Recorded(rows, e.calibrations, now, samples, warmup, e.cpuKnown) && LabelsOf(e.calibrations) == CalibrationLabels(samples)
      requires |rows| == 1 + Warmups(samples, warmup) + 2 * samples && |e.totals| == samples
      requires e.cold == rows[0].end - rows[0].start
      requires Timed(rows[First(samples, warmup, Total)..First(samples, warmup, Total) + samples], e.totals)
      requires e.requests == Zip(RequestLabels(samples, warmup), rows) && InTurn(e.collections, Idle, now)
      ensures Passes(e, samples, warmup)
    {
      hide RequestLabels, CalibrationLabels, CalibrationOk, RequestOk, MarkOk, First;
      LabelsAre(samples, warmup);
      forall i | 0 <= i < |e.requests| ensures RequestOk(e, i) { RequestAccepted(e, rows, now, samples, warmup, i); }
      forall i | 0 <= i < |e.calibrations| ensures MarkOk(e, e.calibrations[i], samples, warmup) {
        MarkAccepted(e, rows, e.calibrations[i], samples, warmup);
      }
    }
  }

  ghost predicate Timed(rows: seq<Row>, durations: seq<int>) {
    |rows| == |durations| && forall i :: 0 <= i < |rows| ==> durations[i] == rows[i].end - rows[i].start
  }

  lemma NothingTimed(rows: seq<Row>, durations: seq<int>)
    requires rows == [] && durations == []
    ensures Timed(rows, durations)
  {
  }

  lemma TimedAdds(rows: seq<Row>, durations: seq<int>, r: Row, d: int)
    requires Timed(rows, durations) && d == r.end - r.start
    ensures Timed(rows + [r], durations + [d])
  {
  }

  lemma {:induction false} MarksGrow(i: nat, n: nat)
    requires i < n
    ensures |Marks(i)| <= |Marks(n)| && (i % EVERY == 0 ==> |Marks(i)| < |Marks(n)|)
    decreases n
  {
    if i < n - 1 { MarksGrow(i, n - 1); }
  }

  function Zip(labels: seq<(Loop, nat)>, rows: seq<Row>): seq<((Loop, nat), Row)> {
    seq(if |labels| < |rows| then |labels| else |rows|, i requires 0 <= i < |labels| && i < |rows| => (labels[i], rows[i]))
  }

  /* ---------- acceptance ---------- */

  predicate RequestOk(e: Export, i: nat)
    requires i < |e.requests|
  {
    var r, l := e.requests[i].1, e.requests[i].0;
    && (if i == 0 then 0 else e.requests[i - 1].1.end) <= r.start
    && RowOk(r, e.cpuKnown)
    && (l.0 == Cold ==> e.cold == r.end - r.start)
    && (l.0 == Total ==> l.1 < |e.totals| && e.totals[l.1] == r.end - r.start)
  }

  predicate MarkOk(e: Export, c: Calibration, samples: nat, warmup: nat) {
    var f := First(samples, warmup, c.loop);
    && c.end - c.start >= BUDGET && c.iterations >= 0
    && (0 < c.next && f + c.next - 1 < |e.requests| ==> e.requests[f + c.next - 1].1.end <= c.start)
    && (c.next < samples && f + c.next < |e.requests| ==> c.end <= e.requests[f + c.next].1.start)
  }

  /** What the acceptance test looks at: labels, neighbours, and single rows. */
  ghost predicate Passes(e: Export, samples: nat, warmup: nat) {
    && |e.requests| == |RequestLabels(samples, warmup)| && |e.totals| == samples
    && (forall i :: 0 <= i < |e.requests| ==> e.requests[i].0 == RequestLabels(samples, warmup)[i] && RequestOk(e, i))
    && LabelsOf(e.calibrations) == CalibrationLabels(samples)
    && (forall i :: 0 <= i < |e.calibrations| ==> MarkOk(e, e.calibrations[i], samples, warmup))
    && (forall i :: 0 <= i < |e.collections| ==> e.collections[i].start <= e.collections[i].end)
  }

  /** What a recording is to tell. All requests are there, one after another, each with a length
      of its own and counters that do not fall. The cold sample and every total are the length of
      their own request. All calibrations are there, each as long as its budget, after all the
      requests of its loop that it follows and before all the others. */
  ghost predicate Telling(e: Export, samples: nat, warmup: nat) {
    && |e.requests| == 1 + Warmups(samples, warmup) + 2 * samples && |e.totals| == samples
    && (forall i :: 0 <= i < |e.requests| ==>
          e.requests[i].0 == LabelAt(samples, warmup, i) && RowOk(e.requests[i].1, e.cpuKnown) && 0 <= e.requests[i].1.start)
    && (forall i, j :: 0 <= i < j < |e.requests| ==> e.requests[i].1.end <= e.requests[j].1.start)
    && e.cold == Length(e, 0)
    && (forall k :: 0 <= k < samples ==> e.totals[k] == Length(e, First(samples, warmup, Total) + k))
    && LabelsOf(e.calibrations) == CalibrationLabels(samples)
    && (forall i :: 0 <= i < |e.calibrations| ==> Apart(e, e.calibrations[i], samples, warmup))
    && (forall i :: 0 <= i < |e.collections| ==> e.collections[i].start <= e.collections[i].end)
  }

  /** A row that is told has a length, and neither thread time nor any of its four counters falls. */
  lemma RowsRise(e: Export, samples: nat, warmup: nat, i: nat, k: nat)
    requires Telling(e, samples, warmup) && i < |e.requests| && k < 4
    ensures var r := e.requests[i].1;
            && r.start < r.end && r.before.thread <= r.after.thread
            && |r.before.counters| == 4 && |r.after.counters| == 4 && r.before.counters[k] <= r.after.counters[k]
  {
  }

  function Length(e: Export, i: nat): int
    requires i < |e.requests|
  {
    e.requests[i].1.end - e.requests[i].1.start
  }

  /** A calibration that overlaps no request of its loop. */
  ghost predicate Apart(e: Export, c: Calibration, samples: nat, warmup: nat) {
    var f := First(samples, warmup, c.loop);
    && c.start + BUDGET <= c.end && c.iterations >= 0
    && forall k :: 0 <= k < samples ==> Clear(e, c, f, k)
  }

  /** It follows request k of the loop, or comes before it. */
  ghost predicate Clear(e: Export, c: Calibration, f: nat, k: nat) {
    f + k < |e.requests| ==>
      if k < c.next then e.requests[f + k].1.end <= c.start else c.end <= e.requests[f + k].1.start
  }

  function LabelAt(samples: nat, warmup: nat, i: nat): (Loop, nat)
    requires i < 1 + Warmups(samples, warmup) + 2 * samples
  {
    var n := 1 + Warmups(samples, warmup);
    if i == 0 then (Cold, 0) else if i < n then (Warmup, i - 1)
    else if i < n + samples then (Total, i - n) else (Phases, i - n - samples)
  }

  lemma LabelsAre(samples: nat, warmup: nat)
    ensures |RequestLabels(samples, warmup)| == 1 + Warmups(samples, warmup) + 2 * samples
    ensures forall i :: 0 <= i < |RequestLabels(samples, warmup)| ==> RequestLabels(samples, warmup)[i] == LabelAt(samples, warmup, i)
  {
  }

  lemma RequestAccepted(e: Export, rows: seq<Row>, now: int, samples: nat, warmup: nat, i: nat)
    requires RowsOk(rows, now, e.cpuKnown) && i < |rows| == |e.requests| == 1 + Warmups(samples, warmup) + 2 * samples
    requires forall k :: 0 <= k < |rows| ==> e.requests[k] == (LabelAt(samples, warmup, k), rows[k])
    requires e.cold == rows[0].end - rows[0].start && |e.totals| == samples
    requires Timed(rows[First(samples, warmup, Total)..First(samples, warmup, Total) + samples], e.totals)
    ensures RequestOk(e, i)
  {
    var n := 1 + Warmups(samples, warmup);
    if n <= i < n + samples { assert rows[n..n + samples][i - n] == rows[i]; }
  }

  lemma MarkAccepted(e: Export, rows: seq<Row>, c: Calibration, samples: nat, warmup: nat)
    requires CalibrationOk(c, rows, samples, warmup) && |rows| == |e.requests|
    requires forall k :: 0 <= k < |rows| ==> e.requests[k].1 == rows[k]
    ensures MarkOk(e, c, samples, warmup)
  {
  }

  lemma {:induction false} InOrder(e: Export, i: nat, j: nat)
    requires i < j < |e.requests| && forall k :: 0 <= k < |e.requests| ==> RequestOk(e, k)
    ensures e.requests[i].1.end <= e.requests[j].1.start && 0 <= e.requests[i].1.start
    decreases j
  {
    hide NoLess;
    assert RequestOk(e, j) && RequestOk(e, j - 1);
    if i < j - 1 { InOrder(e, i, j - 1); } else { NotNegative(e, i); }
  }

  lemma {:induction false} NotNegative(e: Export, i: nat)
    requires i < |e.requests| && forall k :: 0 <= k < |e.requests| ==> RequestOk(e, k)
    ensures 0 <= e.requests[i].1.start
  {
    hide NoLess;
    assert RequestOk(e, i);
    if i > 0 {
      NotNegative(e, i - 1);
      assert RequestOk(e, i - 1);
    }
  }

  lemma {:induction false} MarkAt(n: nat, i: nat)
    requires i < |Marks(n)|
    ensures Marks(n)[i] < n
  {
    if n > 0 && i < |Marks(n - 1)| { MarkAt(n - 1, i); }
  }

  lemma StopsWithin(samples: nat, i: nat)
    requires i < |CalibrationLabels(samples)|
    ensures var l := CalibrationLabels(samples)[i]; (l.0 == Total || l.0 == Phases) && l.1 <= samples
  {
    var stops := Stops(samples);
    var k := if i < |stops| then i else i - |stops|;
    if k < |Marks(samples)| { MarkAt(samples, k); }
  }

  /** A mark between its neighbours is apart from every request. */
  lemma MarkIsApart(e: Export, c: Calibration, samples: nat, warmup: nat)
    requires |e.requests| == 1 + Warmups(samples, warmup) + 2 * samples && forall k :: 0 <= k < |e.requests| ==> RequestOk(e, k)
    requires (c.loop == Total || c.loop == Phases) && c.next <= samples
    ensures MarkOk(e, c, samples, warmup) <==> Apart(e, c, samples, warmup)
  {
    hide RequestOk, NoLess;
    var f := First(samples, warmup, c.loop);
    if MarkOk(e, c, samples, warmup) {
      forall k | 0 <= k < samples ensures Clear(e, c, f, k) {
        if k < c.next - 1 { InOrder(e, f + k, f + c.next - 1); Positive(e, f + c.next - 1); }
        if k > c.next { InOrder(e, f + c.next, f + k); Positive(e, f + c.next); }
      }
    }
    if Apart(e, c, samples, warmup) {
      assert c.next > 0 ==> Clear(e, c, f, c.next - 1);
      assert c.next < samples ==> Clear(e, c, f, c.next);
    }
  }

  lemma Positive(e: Export, i: nat)
    requires i < |e.requests| && RequestOk(e, i)
    ensures e.requests[i].1.start < e.requests[i].1.end
  {
  }

  lemma MarksApart(e: Export, samples: nat, warmup: nat)
    requires |e.requests| == 1 + Warmups(samples, warmup) + 2 * samples && forall k :: 0 <= k < |e.requests| ==> RequestOk(e, k)
    requires LabelsOf(e.calibrations) == CalibrationLabels(samples)
    ensures (forall i :: 0 <= i < |e.calibrations| ==> MarkOk(e, e.calibrations[i], samples, warmup)) <==>
            (forall i :: 0 <= i < |e.calibrations| ==> Apart(e, e.calibrations[i], samples, warmup))
  {
    hide RequestOk, MarkOk, Apart, CalibrationLabels, Warmups;
    forall i | 0 <= i < |e.calibrations|
      ensures MarkOk(e, e.calibrations[i], samples, warmup) <==> Apart(e, e.calibrations[i], samples, warmup)
    {
      StopsWithin(samples, i);
      assert LabelsOf(e.calibrations)[i] == (e.calibrations[i].loop, e.calibrations[i].next);
      MarkIsApart(e, e.calibrations[i], samples, warmup);
    }
  }

  lemma OwnLength(e: Export, samples: nat, warmup: nat, i: nat)
    requires |e.requests| == 1 + Warmups(samples, warmup) + 2 * samples && |e.totals| == samples
    requires i < |e.requests| && RequestOk(e, i) && e.requests[i].0 == LabelAt(samples, warmup, i)
    ensures RowOk(e.requests[i].1, e.cpuKnown)
    ensures i == 0 ==> e.cold == Length(e, i)
    ensures var f := First(samples, warmup, Total); f <= i < f + samples ==> e.totals[i - f] == Length(e, i)
  {
    hide RowOk;
  }

  lemma PassingTells(e: Export, samples: nat, warmup: nat)
    requires Passes(e, samples, warmup)
    ensures Telling(e, samples, warmup)
  {
    hide MarkOk, Apart, CalibrationLabels, LabelsOf, RowOk, RequestOk, RequestLabels, LabelAt, Length;
    LabelsAre(samples, warmup);
    MarksApart(e, samples, warmup);
    forall i, j | 0 <= i < j < |e.requests| ensures e.requests[i].1.end <= e.requests[j].1.start { InOrder(e, i, j); }
    forall i | 0 <= i < |e.requests| ensures RowOk(e.requests[i].1, e.cpuKnown) && 0 <= e.requests[i].1.start {
      NotNegative(e, i);
      OwnLength(e, samples, warmup, i);
    }
    OwnLength(e, samples, warmup, 0);
    forall k | 0 <= k < samples ensures e.totals[k] == Length(e, First(samples, warmup, Total) + k) {
      OwnLength(e, samples, warmup, First(samples, warmup, Total) + k);
    }
  }

  lemma TellingPasses(e: Export, samples: nat, warmup: nat)
    requires Telling(e, samples, warmup)
    ensures Passes(e, samples, warmup)
  {
    hide MarkOk, Apart, CalibrationLabels, LabelsOf, NoLess, RequestLabels;
    LabelsAre(samples, warmup);
    forall i | 0 <= i < |e.requests| ensures RequestOk(e, i) {
      var n := First(samples, warmup, Total);
      if n <= i < n + samples { assert e.totals[i - n] == Length(e, n + (i - n)); }
    }
    MarksApart(e, samples, warmup);
  }

  /** The acceptance test compares labels and neighbours. It accepts exactly what tells. */
  method Validate(e: Export, samples: nat, warmup: nat) returns (ok: bool)
    ensures ok <==> Telling(e, samples, warmup)
  {
    hide RequestLabels, CalibrationLabels, RequestOk, MarkOk, LabelsOf, Telling;
    if Telling(e, samples, warmup) { TellingPasses(e, samples, warmup); }
    ok := Checks(e, samples, warmup);
    if ok { PassingTells(e, samples, warmup); }
  }

  method Checks(e: Export, samples: nat, warmup: nat) returns (ok: bool)
    ensures ok <==> Passes(e, samples, warmup)
  {
    hide RequestLabels, CalibrationLabels, RequestOk, MarkOk, LabelsOf;
    var labels := RequestLabels(samples, warmup);
    if |e.requests| != |labels| { return false; }
    for i := 0 to |labels|
      invariant forall k :: 0 <= k < i ==> e.requests[k].0 == labels[k]
    {
      if e.requests[i].0 != labels[i] { return false; }
    }
    if |e.totals| != samples { return false; }
    for i := 0 to |e.requests|
      invariant forall k :: 0 <= k < i ==> RequestOk(e, k)
    {
      if !RequestOk(e, i) { return false; }
    }
    if LabelsOf(e.calibrations) != CalibrationLabels(samples) { return false; }
    for i := 0 to |e.calibrations|
      invariant forall k :: 0 <= k < i ==> MarkOk(e, e.calibrations[k], samples, warmup)
    {
      if !MarkOk(e, e.calibrations[i], samples, warmup) { return false; }
    }
    for i := 0 to |e.collections|
      invariant forall k :: 0 <= k < i ==> e.collections[k].start <= e.collections[k].end
    {
      if e.collections[i].start > e.collections[i].end { return false; }
    }
    ok := true;
  }
}
