/**
 Staging of input changes. A change removes facts and then adds facts; a staged pool starts
 from the retained sorted facts and takes up to two changes in place, by binary search and
 shifting, under a capacity.
 */
module DeltaStage {
  import opened Datalog
  import opened FactOrder
  import opened IntroSort
  import opened Safety
  import Aggregates
  import Strata

  /** Entries of one submitted list, and facts retained by a bank. */
  const CAP: nat := 512

  datatype Status = Ok | PayloadTooLarge | InvalidArgument | InvalidField | Forbidden | InvalidState | Unsupported

  /** What validation and symbol lookup make of one submitted record: the fact it denotes, a
      fact over a symbol nobody declared, or an error. */
  datatype Record = Denotes(fact: Fact) | Undeclared | Faulty(status: Error)

  type Error = s: Status | s != Ok witness InvalidField

  datatype Change = Change(add: seq<Record>, remove: seq<Record>)

  /** A change after conversion: two sorted lists without duplicates. */
  datatype Step = Step(added: seq<Fact>, removed: seq<Fact>)

  /* ---------- conversion ---------- */

  ghost function Denoted(records: seq<Record>): set<Fact> {
    set r | r in records && r.Denotes? :: r.fact
  }

  /** The status a record stops the conversion with, or Ok. */
  function Verdict(r: Record, adding: bool): Status {
    match r
    case Denotes(_) => Ok
    case Undeclared => if adding then InvalidField else Ok
    case Faulty(s) => s
  }

  predicate Convertible(records: seq<Record>, adding: bool, cap: nat) {
    |records| <= cap && forall i :: 0 <= i < |records| ==> Verdict(records[i], adding) == Ok
  }

  /** What is accepted denotes a fact, record by record; only a removal may also name something
      that nobody declared. */
  lemma AcceptedRecords(records: seq<Record>, adding: bool, cap: nat)
    ensures Convertible(records, adding, cap) <==>
              |records| <= cap && forall i :: 0 <= i < |records| ==> records[i].Denotes? || (!adding && records[i].Undeclared?)
  {
  }

  /** Squeezes the duplicates out of the first n facts, which are in order. */
  method Dedup(a: array<Fact>, n: nat) returns (out: nat)
    requires n <= a.Length && Ordered(a[..], 0, n, Less)
    modifies a
    ensures out <= n && Ascending(a[..out]) && FactSet(a[..out]) == old(FactSet(a[..n]))
  {
    ghost var s := a[..n];
    if n < 2 { return n; }
    Neighbours(a[..], n);
    hide *;
    OneAscends(a[..1]);
    out := 1;
    assert a[..1] == s[..1];
    for i := 1 to n
      invariant 1 <= out <= i && a[out - 1] == s[i - 1]
      invariant forall k :: i <= k < n ==> a[k] == s[k]
      invariant Ascending(a[..out]) && FactSet(a[..out]) == FactSet(s[..i])
    {
      ghost var before := a[..out];
      Squeeze(before, s, i);
      if a[out - 1] != a[i] {
        if out != i { a[out] := a[i]; }
        assert a[..out] == before && a[out] == s[i];
        out := out + 1;
        assert a[..out] == before + [s[i]];
      }
    }
    assert s[..n] == s;
  }

  lemma Neighbours(s: seq<Fact>, n: nat)
    requires n <= |s| && Ordered(s, 0, n, Less)
    ensures forall i :: 1 <= i < n ==> !Less(s[i], s[i - 1])
  {
    hide Less;
  }

  /** One more fact in order: the last one again, or one above all there are. */
  lemma Squeeze(kept: seq<Fact>, s: seq<Fact>, i: nat)
    requires 1 <= i < |s| && kept != [] && kept[|kept| - 1] == s[i - 1] && !Less(s[i], s[i - 1])
    requires Ascending(kept) && FactSet(kept) == FactSet(s[..i])
    ensures s[i] == s[i - 1] ==> FactSet(kept) == FactSet(s[..i + 1])
    ensures s[i] != s[i - 1] ==> Ascending(kept + [s[i]]) && FactSet(kept + [s[i]]) == FactSet(s[..i + 1])
  {
    hide *;
    OneMore(s, i);
    if s[i] == s[i - 1] {
      AlreadyIn(kept, s[i]);
    } else {
      AppendAscends(kept, s[i]);
    }
  }

  lemma OneMore(s: seq<Fact>, i: nat)
    requires i < |s|
    ensures FactSet(s[..i + 1]) == FactSet(s[..i]) + {s[i]}
  {
    assert s[..i + 1] == s[..i] + [s[i]];
  }

  lemma AlreadyIn(s: seq<Fact>, f: Fact)
    requires f in s
    ensures FactSet(s) + {f} == FactSet(s)
  {
  }

  lemma OneAscends(s: seq<Fact>)
    requires |s| <= 1
    ensures Ascending(s)
  {
  }

  lemma AppendAscends(s: seq<Fact>, f: Fact)
    requires Ascending(s) && s != [] && f != s[|s| - 1] && !Less(f, s[|s| - 1])
    ensures Ascending(s + [f]) && FactSet(s + [f]) == FactSet(s) + {f}
  {
    hide Less;
    Trichotomy(f, s[|s| - 1]);
    forall i | 0 <= i < |s| ensures Less(s[i], f) {
      if i < |s| - 1 { Transitive(s[i], s[|s| - 1], f); }
    }
  }

  /** Inserting a new fact at its position keeps a list ascending. */
  lemma InsertAscends(s: seq<Fact>, k: nat, f: Fact)
    requires Ascending(s) && k <= |s| && f !in s
    requires forall i :: 0 <= i < k ==> Less(s[i], f)
    requires forall i :: k <= i < |s| ==> !Less(s[i], f)
    ensures Ascending(s[..k] + [f] + s[k..]) && FactSet(s[..k] + [f] + s[k..]) == FactSet(s) + {f}
  {
    var r := s[..k] + [f] + s[k..];
    forall i, j | 0 <= i < j < |r|
      ensures Less(r[i], r[j])
    {
      if j > k {
        Trichotomy(s[j - 1], f);
        assert r[j] == s[j - 1];
        if i < k { Transitive(s[i], f, s[j - 1]); }
      }
    }
    assert s == s[..k] + s[k..];
  }

  /** Removing a fact keeps a list ascending. */
  lemma RemoveAscends(s: seq<Fact>, k: nat)
    requires Ascending(s) && k < |s|
    ensures Ascending(s[..k] + s[k + 1..]) && FactSet(s[..k] + s[k + 1..]) == FactSet(s) - {s[k]}
  {
    hide Less;
    var r := s[..k] + s[k + 1..];
    assert forall i :: 0 <= i < |r| ==> r[i] == if i < k then s[i] else s[i + 1];
    assert s[k] !in s[..k] && s[k] !in s[k + 1..] by {
      hide Ascending;
      AscendingDistinct(s);
    }
    assert s == s[..k] + [s[k]] + s[k + 1..];
  }

  /** A fact buffer put in order and freed of duplicates. */
  method Canonical(facts: seq<Fact>) returns (r: seq<Fact>)
    ensures Ascending(r) && FactSet(r) == FactSet(facts) && |r| <= |facts|
  {
    var n := |facts|;
    var buffer := new Fact[n](i requires 0 <= i < n => facts[i]);
    assert buffer[..] == facts;
    assert TotalOrder(Less) by { Aggregates.FactsOrder(); }
    ghost var _ := Sort(buffer, n, Less);
    assert buffer[..n] == buffer[..];
    assert FactSet(buffer[..n]) == FactSet(facts) by {
      assert forall f :: f in buffer[..] <==> f in multiset(buffer[..]);
      assert forall f :: f in facts <==> f in multiset(facts);
    }
    n := Dedup(buffer, n);
    r := buffer[..n];
  }

  /** Converts a submitted list: the first offending record decides the status; otherwise the
      result is the sorted set of the facts denoted, unknown removals being dropped. */
  method Convert(records: seq<Record>, adding: bool, cap: nat) returns (rc: Status, facts: seq<Fact>)
    ensures rc == Ok <==> Convertible(records, adding, cap)
    ensures |records| > cap ==> rc == PayloadTooLarge
    ensures |records| <= cap && rc != Ok ==>
              exists i :: 0 <= i < |records| && Verdict(records[i], adding) == rc &&
                          forall j :: 0 <= j < i ==> Verdict(records[j], adding) == Ok
    ensures rc == Ok ==> Ascending(facts) && FactSet(facts) == Denoted(records) && |facts| <= cap
  {
    facts := [];
    if |records| > cap { return PayloadTooLarge, facts; }
    for i := 0 to |records|
      invariant |facts| <= i
      invariant forall j :: 0 <= j < i ==> Verdict(records[j], adding) == Ok
      invariant FactSet(facts) == Denoted(records[..i])
    {
      assert records[..i + 1] == records[..i] + [records[i]];
      match records[i] {
        case Faulty(s) =>
          if s != Ok {
            assert Verdict(records[i], adding) == s;
            return s, facts;
          }
        case Undeclared =>
          if adding {
            assert Verdict(records[i], adding) == InvalidField;
            return InvalidField, facts;
          }
        case Denotes(f) =>
          assert FactSet(facts + [f]) == FactSet(facts) + {f};
          facts := facts + [f];
      }
    }
    assert records[..|records|] == records;
    facts := Canonical(facts);
    rc := Ok;
  }

  /* ---------- what staging is to achieve ---------- */

  /** A change applied to a set: removals first, so additions win. */
  ghost function After(s: set<Fact>, step: Step): set<Fact> {
    s - FactSet(step.removed) + FactSet(step.added)
  }

  ghost function AfterAll(s: set<Fact>, steps: seq<Step>): set<Fact> {
    if steps == [] then s else After(AfterAll(s, steps[..|steps| - 1]), steps[|steps| - 1])
  }

  /** Every set passed on the way fits. */
  ghost predicate AllFit(s: set<Fact>, steps: seq<Step>, limit: nat) {
    forall k :: 0 < k <= |steps| ==> |AfterAll(s, steps[..k])| <= limit
  }

  /** The same on submitted changes. */
  ghost function Effect(s: set<Fact>, c: Change): set<Fact> {
    s - Denoted(c.remove) + Denoted(c.add)
  }

  /** What a change adds is there afterwards, even if it also removes it; what it only removes is
      not, and nothing else changes. */
  lemma EffectMeans(s: set<Fact>, c: Change, f: Fact)
    ensures f in Effect(s, c) <==> Denotes(f) in c.add || (f in s && Denotes(f) !in c.remove)
  {
    assert f in Denoted(c.add) <==> Denotes(f) in c.add;
    assert f in Denoted(c.remove) <==> Denotes(f) in c.remove;
  }

  /** A change is undone by the reverse change exactly if it removes only what is there, and adds
      only what is not there or what it removes. */
  lemma UndoneByReverse(s: set<Fact>, c: Change)
    ensures Effect(Effect(s, c), Change(c.remove, c.add)) == s <==>
              (forall f :: Denotes(f) in c.remove ==> f in s) && (forall f :: Denotes(f) in c.add && f in s ==> Denotes(f) in c.remove)
  {
    hide Effect;
    var back := Effect(Effect(s, c), Change(c.remove, c.add));
    forall f ensures f in back <==> Denotes(f) in c.remove || (f in s && Denotes(f) !in c.add) {
      EffectMeans(s, c, f);
      EffectMeans(Effect(s, c), Change(c.remove, c.add), f);
    }
    assert back == s <==> forall f :: f in back <==> f in s;
  }

  ghost function Effects(s: set<Fact>, changes: seq<Change>): set<Fact> {
    if changes == [] then s else Effect(Effects(s, changes[..|changes| - 1]), changes[|changes| - 1])
  }

  ghost predicate EffectsFit(s: set<Fact>, changes: seq<Change>, limit: nat) {
    forall k :: 0 < k <= |changes| ==> |Effects(s, changes[..k])| <= limit
  }

  ghost predicate Represents(steps: seq<Step>, changes: seq<Change>) {
    |steps| == |changes| &&
    forall i :: 0 <= i < |steps| ==> FactSet(steps[i].removed) == Denoted(changes[i].remove) && FactSet(steps[i].added) == Denoted(changes[i].add)
  }

  lemma {:induction false} SameEffects(s: set<Fact>, steps: seq<Step>, changes: seq<Change>)
    requires Represents(steps, changes)
    ensures AfterAll(s, steps) == Effects(s, changes)
    decreases |steps|
  {
    hide Denoted;
    if steps != [] {
      SameEffects(s, steps[..|steps| - 1], changes[..|steps| - 1]);
    }
  }

  lemma SameFit(s: set<Fact>, steps: seq<Step>, changes: seq<Change>, limit: nat)
    requires Represents(steps, changes)
    ensures AllFit(s, steps, limit) <==> EffectsFit(s, changes, limit)
  {
    hide Denoted, AfterAll, Effects;
    forall k | 0 < k <= |steps| ensures AfterAll(s, steps[..k]) == Effects(s, changes[..k]) {
      SameEffects(s, steps[..k], changes[..k]);
    }
  }

  /* ---------- the pool ---------- */

  /** The first position of the first n facts whose fact is not below f. */
  method PoolPosition(pool: array<Fact>, n: nat, f: Fact) returns (k: nat)
    requires n <= pool.Length && Ascending(pool[..n])
    ensures k <= n
    ensures forall i :: 0 <= i < k ==> Less(pool[i], f)
    ensures forall i :: k <= i < n ==> !Less(pool[i], f)
    ensures k < n && pool[k] == f <==> f in pool[..n]
  {
    var lo, hi := 0, n;
    ghost var s := pool[..n];
    while lo < hi
      invariant 0 <= lo <= hi <= n
      invariant forall i :: 0 <= i < lo ==> Less(s[i], f)
      invariant forall i :: hi <= i < n ==> !Less(s[i], f)
    {
      var mid := lo + (hi - lo) / 2;
      assert pool[mid] == s[mid];
      Halves(s, mid, f);
      if Less(pool[mid], f) { lo := mid + 1; } else { hi := mid; }
    }
    k := lo;
    FirstNotBelow(s, k, f);
  }

  /** Takes a fact out of the first n, if it is there, by shifting the rest down. */
  method RemoveFact(pool: array<Fact>, n: nat, f: Fact) returns (n': nat)
    requires n <= pool.Length && Ascending(pool[..n])
    modifies pool
    ensures n' <= n && Ascending(pool[..n']) && FactSet(pool[..n']) == old(FactSet(pool[..n])) - {f}
  {
    hide Less, Ascending;
    var pos := PoolPosition(pool, n, f);
    ghost var s := pool[..n];
    if pos < n && pool[pos] == f {
      RemoveAscends(s, pos);
      forall i | pos <= i < n - 1 { pool[i] := pool[i + 1]; }
      n' := n - 1;
      assert pool[..n'] == s[..pos] + s[pos + 1..];
    } else {
      n' := n;
    }
  }

  /** Puts a fact among the first n, unless it is there already, by shifting the rest up. It
      is refused exactly when it is new and the pool is at its limit. */
  method AddFact(pool: array<Fact>, n: nat, limit: nat, f: Fact) returns (ok: bool, n': nat)
    requires n <= limit <= pool.Length && Ascending(pool[..n])
    modifies pool
    ensures ok <==> f in old(pool[..n]) || n < limit
    ensures ok ==> n' <= limit && Ascending(pool[..n']) && FactSet(pool[..n']) == old(FactSet(pool[..n])) + {f}
  {
    hide Less, Ascending;
    var pos := PoolPosition(pool, n, f);
    ghost var s := pool[..n];
    if pos < n && pool[pos] == f {
      assert f in FactSet(s);
      return true, n;
    }
    if n == limit { return false, n; }
    InsertAscends(s, pos, f);
    forall i | pos < i <= n { pool[i] := pool[i - 1]; }
    pool[pos] := f;
    n' := n + 1;
    assert pool[..n'] == s[..pos] + [f] + s[pos..];
    ok := true;
  }

  /* ---------- staging ---------- */

  lemma PoolSize(s: seq<Fact>)
    requires Ascending(s)
    ensures |FactSet(s)| == |s|
  {
    AscendingDistinct(s);
    DistinctSize(s);
  }

  /** A fact that is refused at the limit is refused with reason. */
  lemma TooMany(s: set<Fact>, facts: seq<Fact>, i: nat, limit: nat)
    requires i < |facts| && |s + FactSet(facts[..i])| == limit && facts[i] !in s + FactSet(facts[..i])
    ensures |s + FactSet(facts)| > limit
  {
    var now := s + FactSet(facts[..i]);
    assert |now + {facts[i]}| == limit + 1;
    SubsetCount(now + {facts[i]}, s + FactSet(facts));
  }

  method RemoveAll(pool: array<Fact>, n: nat, facts: seq<Fact>) returns (n': nat)
    requires n <= pool.Length && Ascending(pool[..n])
    modifies pool
    ensures n' <= n && Ascending(pool[..n']) && FactSet(pool[..n']) == old(FactSet(pool[..n])) - FactSet(facts)
  {
    hide Ascending;
    ghost var s := FactSet(pool[..n]);
    n' := n;
    for i := 0 to |facts|
      invariant n' <= n && Ascending(pool[..n'])
      invariant FactSet(pool[..n']) == s - FactSet(facts[..i])
    {
      assert FactSet(facts[..i + 1]) == FactSet(facts[..i]) + {facts[i]};
      n' := RemoveFact(pool, n', facts[i]);
    }
    assert facts[..|facts|] == facts;
  }

  method AddAll(pool: array<Fact>, n: nat, facts: seq<Fact>, limit: nat) returns (ok: bool, n': nat)
    requires n <= limit <= pool.Length && Ascending(pool[..n])
    modifies pool
    ensures ok <==> |old(FactSet(pool[..n])) + FactSet(facts)| <= limit
    ensures ok ==> n' <= limit && Ascending(pool[..n']) && FactSet(pool[..n']) == old(FactSet(pool[..n])) + FactSet(facts)
  {
    hide Ascending, Less, FactSet;
    ghost var s := FactSet(pool[..n]);
    n' := n;
    NoFacts(s, facts);
    for i := 0 to |facts|
      invariant n' <= limit && Ascending(pool[..n'])
      invariant FactSet(pool[..n']) == s + FactSet(facts[..i])
    {
      OneMore(facts, i);
      PoolSize(pool[..n']);
      InSet(pool[..n'], facts[i]);
      ok, n' := AddFact(pool, n', limit, facts[i]);
      if !ok {
        TooMany(s, facts, i, limit);
        return;
      }
    }
    assert facts[..|facts|] == facts;
    PoolSize(pool[..n']);
    ok := true;
  }

  lemma NoFacts(s: set<Fact>, facts: seq<Fact>)
    ensures s + FactSet(facts[..0]) == s
  {
  }

  lemma InSet(s: seq<Fact>, f: Fact)
    ensures f in FactSet(s) <==> f in s
  {
  }

  /** One change applied to the pool. */
  method ApplyStep(pool: array<Fact>, n: nat, step: Step, limit: nat) returns (ok: bool, n': nat)
    requires n <= limit <= pool.Length && Ascending(pool[..n])
    modifies pool
    ensures ok <==> |After(old(FactSet(pool[..n])), step)| <= limit
    ensures ok ==> n' <= limit && Ascending(pool[..n']) && FactSet(pool[..n']) == After(old(FactSet(pool[..n])), step)
  {
    hide Ascending, FactSet;
    n' := RemoveAll(pool, n, step.removed);
    ok, n' := AddAll(pool, n', step.added, limit);
  }

  lemma FitExtends(s: set<Fact>, steps: seq<Step>, k: nat, limit: nat)
    requires k < |steps| && AllFit(s, steps[..k], limit)
    ensures AllFit(s, steps[..k + 1], limit) <==> |AfterAll(s, steps[..k + 1])| <= limit
  {
    hide AfterAll;
    var longer := steps[..k + 1];
    assert longer[..k + 1] == longer;
    if |AfterAll(s, longer)| <= limit {
      forall j | 0 < j <= k + 1 ensures |AfterAll(s, longer[..j])| <= limit {
        if j <= k { assert longer[..j] == steps[..k][..j]; }
      }
    }
  }

  lemma FitPrefix(s: set<Fact>, steps: seq<Step>, k: nat, limit: nat)
    requires k <= |steps| && AllFit(s, steps, limit)
    ensures AllFit(s, steps[..k], limit)
  {
    hide AfterAll;
    assert forall j :: 0 <= j <= k ==> steps[..k][..j] == steps[..j];
  }

  /** All changes of a transaction applied to the pool: the merge succeeds if and only if every
      set passed on the way fits, and then the pool is the strictly ascending list of the last. */
  method Merge(pool: array<Fact>, n: nat, steps: seq<Step>, limit: nat) returns (ok: bool, n': nat)
    requires n <= limit <= pool.Length && Ascending(pool[..n])
    modifies pool
    ensures ok <==> AllFit(old(FactSet(pool[..n])), steps, limit)
    ensures ok ==> n' <= limit && Ascending(pool[..n']) && FactSet(pool[..n']) == AfterAll(old(FactSet(pool[..n])), steps)
  {
    hide Ascending, After, AllFit;
    ghost var s := FactSet(pool[..n]);
    n' := n;
    assert AllFit(s, steps[..0], limit) by { FitNothing(s, steps, limit); }
    for k := 0 to |steps|
      invariant n' <= limit && Ascending(pool[..n'])
      invariant FactSet(pool[..n']) == AfterAll(s, steps[..k])
      invariant AllFit(s, steps[..k], limit)
    {
      ok, n' := ApplyStep(pool, n', steps[k], limit);
      assert steps[..k + 1][..k] == steps[..k];
      FitExtends(s, steps, k, limit);
      if !ok {
        if AllFit(s, steps, limit) { FitPrefix(s, steps, k + 1, limit); }
        return;
      }
    }
    assert steps[..|steps|] == steps;
    ok := true;
  }

  lemma FitNothing(s: set<Fact>, steps: seq<Step>, limit: nat)
    ensures AllFit(s, steps[..0], limit)
  {
  }

  /* ---------- counting the staged facts ---------- */

  /** Every predicate is registered and holds no more facts than it may. */
  ghost predicate Countable(s: set<Fact>, cap: nat) {
    (forall f :: f in s ==> f.pred < Strata.MAX_PREDICATES) && forall q :: |OfPredicate(s, q)| <= cap
  }

  method CheckCounts(facts: array<Fact>, n: nat, cap: nat) returns (rc: Status)
    requires n <= facts.Length && Ascending(facts[..n])
    ensures rc == Ok <==> Countable(FactSet(facts[..n]), cap)
    ensures rc in {Ok, InvalidField, PayloadTooLarge}
  {
    hide *;
    ghost var s := facts[..n];
    AscendingDistinct(s);
    NothingCounted(s);
    var counts := new nat[Strata.MAX_PREDICATES](_ => 0);
    for i := 0 to n
      invariant forall k :: 0 <= k < i ==> s[k].pred < Strata.MAX_PREDICATES
      invariant forall q :: 0 <= q < Strata.MAX_PREDICATES ==> counts[q] == CountOf(s[..i], q) <= cap
    {
      var q := facts[i].pred;
      assert s[i] == facts[i];
      if q >= Strata.MAX_PREDICATES {
        Unregistered(s, i, cap);
        return InvalidField;
      }
      OneCounted(s, i);
      if counts[q] >= cap {
        OverFull(s, i, cap);
        return PayloadTooLarge;
      }
      ghost var before := counts[..];
      counts[q] := counts[q] + 1;
      forall r | 0 <= r < Strata.MAX_PREDICATES ensures counts[r] == CountOf(s[..i + 1], r) <= cap {
        assert counts[r] == before[r] + if r == q then 1 else 0;
      }
    }
    assert s[..n] == s;
    AllCounted(s, cap);
    rc := Ok;
  }

  lemma NothingCounted(s: seq<Fact>)
    ensures forall q :: CountOf(s[..0], q) == 0
  {
  }

  lemma OneCounted(s: seq<Fact>, i: nat)
    requires i < |s|
    ensures forall q :: CountOf(s[..i + 1], q) == CountOf(s[..i], q) + if q == s[i].pred then 1 else 0
  {
    hide CountOf;
    assert s[..i + 1] == s[..i] + [s[i]];
    forall q: nat ensures CountOf(s[..i + 1], q) == CountOf(s[..i], q) + if q == s[i].pred then 1 else 0 {
      CountGrows(s[..i], s[i], q);
    }
  }

  lemma Unregistered(s: seq<Fact>, i: nat, cap: nat)
    requires i < |s| && s[i].pred >= Strata.MAX_PREDICATES
    ensures !Countable(FactSet(s), cap)
  {
    assert s[i] in FactSet(s);
  }

  lemma AllCounted(s: seq<Fact>, cap: nat)
    requires DistinctFacts(s) && forall k :: 0 <= k < |s| ==> s[k].pred < Strata.MAX_PREDICATES
    requires forall q :: 0 <= q < Strata.MAX_PREDICATES ==> CountOf(s, q) <= cap
    ensures Countable(FactSet(s), cap)
  {
    hide CountOf, DistinctFacts;
    forall q: nat ensures |OfPredicate(FactSet(s), q)| <= cap {
      CountIsSize(s, q);
      if q >= Strata.MAX_PREDICATES { NoneCounted(s, q); }
    }
  }

  lemma OverFull(s: seq<Fact>, i: nat, cap: nat)
    requires DistinctFacts(s) && i < |s| && CountOf(s[..i + 1], s[i].pred) > cap
    ensures !Countable(FactSet(s), cap)
  {
    var q := s[i].pred;
    CountIsSize(s[..i + 1], q);
    SubsetCount(OfPredicate(FactSet(s[..i + 1]), q), OfPredicate(FactSet(s), q));
  }

  /* ---------- the listing of a set ---------- */

  lemma {:induction false} ListingExists(s: set<Fact>)
    ensures exists l :: Ascending(l) && FactSet(l) == s
  {
    if s == {} {
      assert Ascending([]) && FactSet([]) == s;
    } else {
      var f :| f in s;
      ListingExists(s - {f});
      var l :| Ascending(l) && FactSet(l) == s - {f};
      var k := InsertionPoint(l, f);
      InsertAscends(l, k, f);
      assert FactSet(l[..k] + [f] + l[k..]) == s;
    }
  }

  lemma {:induction false} InsertionPoint(l: seq<Fact>, f: Fact) returns (k: nat)
    requires Ascending(l)
    ensures k <= |l|
    ensures forall i :: 0 <= i < k ==> Less(l[i], f)
    ensures forall i :: k <= i < |l| ==> !Less(l[i], f)
  {
    k := 0;
    while k < |l| && Less(l[k], f)
      invariant k <= |l| && forall i :: 0 <= i < k ==> Less(l[i], f)
    {
      k := k + 1;
    }
    forall i | k <= i < |l| ensures !Less(l[i], f) {
      if Less(l[i], f) && k < i { Transitive(l[k], l[i], f); }
    }
  }

  /** The ascending list of a set. */
  ghost function Listing(s: set<Fact>): (l: seq<Fact>)
    ensures Ascending(l) && FactSet(l) == s
  {
    ListingExists(s);
    var l :| Ascending(l) && FactSet(l) == s;
    l
  }

  lemma LastIsLargest(s: seq<Fact>, f: Fact)
    requires Ascending(s) && f in s
    ensures f == s[|s| - 1] || Less(f, s[|s| - 1])
  {
    var i :| 0 <= i < |s| && s[i] == f;
  }

  /** A set has only one ascending list. */
  lemma {:induction false} AscendingUnique(a: seq<Fact>, b: seq<Fact>)
    requires Ascending(a) && Ascending(b) && FactSet(a) == FactSet(b)
    ensures a == b
    decreases |a|
  {
    hide Less;
    PoolSize(a);
    PoolSize(b);
    if a != [] {
      var x, y := a[|a| - 1], b[|b| - 1];
      assert x in FactSet(b) && y in FactSet(a);
      Trichotomy(x, y);
      LastIsLargest(a, y);
      LastIsLargest(b, x);
      RemoveAscends(a, |a| - 1);
      RemoveAscends(b, |b| - 1);
      assert a[..|a| - 1] + a[|a|..] == a[..|a| - 1] && b[..|b| - 1] + b[|b|..] == b[..|b| - 1];
      AscendingUnique(a[..|a| - 1], b[..|b| - 1]);
      assert a == a[..|a| - 1] + [x] && b == b[..|b| - 1] + [y];
    }
  }
}
