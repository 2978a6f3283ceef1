/**
 The projection provider and the host side of its output: it records and hashes the complete
 canonical inputs, copies the facts of one predicate to another, and takes part in the
 transaction by a pending and a committed hash.
 */
module DeltaBackend {
  import opened Datalog
  import opened FactOrder
  import opened Safety
  import opened DeltaStage
  import opened Arithmetic

  const UINT64_MAX: nat := 0xFFFF_FFFF_FFFF_FFFF
  const UINT32_SIZE: nat := 0x1_0000_0000

  /** Counters wrap at thirty-two bits, positions at sixty-four. */
  function Count32(n: nat): nat {
    n % UINT32_SIZE
  }

  function Wrap64(n: nat): nat {
    n % (UINT64_MAX + 1)
  }

  lemma CountsOn(n: nat, k: nat)
    ensures Count32(Count32(n) + k) == Count32(n + k)
  {
    RemainderAdds(n, k, UINT32_SIZE);
  }

  lemma WrapsOn(n: nat, k: nat)
    ensures Wrap64(Wrap64(n) + k) == Wrap64(n + k)
  {
    RemainderAdds(n, k, UINT64_MAX + 1);
  }

  /** The vocabulary and the limits of a session. */
  datatype Host = Host(
    name: nat -> string,
    text: nat -> string,
    find: (string, nat) -> Option<nat>,
    kind: nat -> Kind,
    inputFacts: nat,
    derivedFacts: nat,
    perPredicate: nat,
    workLimit: nat)

  /* ---------- the input hash ---------- */

  function Mix(h: bv64, x: bv64): bv64 {
    (h ^ x) * 1099511628211
  }

  function Byte(c: char): bv64 {
    (c as int % 256) as bv64
  }

  function Bits(n: nat): bv64
    requires n <= UINT64_MAX
  {
    n as bv64
  }

  function Word(i: int): bv64 {
    Bits(i % 0x1_0000_0000_0000_0000)
  }

  /** A negative number is hashed as its two's complement. */
  lemma TwosComplement(i: int)
    requires -0x8000_0000_0000_0000 <= i < 0x8000_0000_0000_0000
    ensures Word(i) == Bits(if i < 0 then i + 0x1_0000_0000_0000_0000 else i)
  {
    hide Bits;
    assert i % 0x1_0000_0000_0000_0000 == if i < 0 then i + 0x1_0000_0000_0000_0000 else i;
  }

  /** A text is hashed with its terminator. */
  function HashText(h: bv64, s: string): bv64
    decreases s
  {
    if s == [] then Mix(h, 0) else HashText(Mix(h, Byte(s[0])), s[1..])
  }

  function HashValue(host: Host, h: bv64, v: Value): bv64 {
    match v
    case Symbol(id) => HashText(Mix(h, 1), host.text(id))
    case Integer(i) => Mix(Mix(h, 2), Word(i))
    case Boolean(b) => Mix(Mix(h, 3), if b then 1 else 0)
  }

  function HashValues(host: Host, h: bv64, vs: seq<Value>): bv64 {
    if vs == [] then h else HashValue(host, HashValues(host, h, vs[..|vs| - 1]), vs[|vs| - 1])
  }

  function HashFact(host: Host, h: bv64, f: Fact): bv64 {
    HashValues(host, Mix(HashText(h, host.name(f.pred)), Word(|f.values|)), f.values)
  }

  function HashFrom(host: Host, h: bv64, facts: seq<Fact>): bv64 {
    if facts == [] then h else HashFact(host, HashFrom(host, h, facts[..|facts| - 1]), facts[|facts| - 1])
  }

  /** The hash of a fact list: its length, then its facts in order. */
  function HashOf(host: Host, facts: seq<Fact>): bv64 {
    HashFrom(host, Seed(|facts|), facts)
  }

  function Seed(n: nat): bv64 {
    14695981039346656037 ^ Word(n)
  }

  lemma HashGrows(host: Host, h: bv64, facts: seq<Fact>, i: nat)
    requires i < |facts|
    ensures HashFrom(host, h, facts[..i + 1]) == HashFact(host, HashFrom(host, h, facts[..i]), facts[i])
  {
    hide HashFact;
    assert facts[..i + 1][..i] == facts[..i];
  }

  method TextHash(h: bv64, s: string) returns (r: bv64)
    ensures r == HashText(h, s)
  {
    r := h;
    var i := 0;
    while i < |s|
      invariant i <= |s| && HashText(r, s[i..]) == HashText(h, s)
    {
      assert s[i..][1..] == s[i + 1..];
      r := Mix(r, Byte(s[i]));
      i := i + 1;
    }
    r := Mix(r, 0);
  }

  method FactHash(host: Host, h: bv64, f: Fact) returns (r: bv64)
    ensures r == HashFact(host, h, f)
  {
    hide Mix, Word, HashText;
    r := TextHash(h, host.name(f.pred));
    r := Mix(r, Word(|f.values|));
    ghost var start := r;
    for j := 0 to |f.values|
      invariant r == HashValues(host, start, f.values[..j])
    {
      assert f.values[..j + 1][..j] == f.values[..j];
      match f.values[j] {
        case Symbol(id) => r := TextHash(Mix(r, 1), host.text(id));
        case Integer(i) => r := Mix(Mix(r, 2), Word(i));
        case Boolean(b) => r := Mix(Mix(r, 3), if b then 1 else 0);
      }
    }
    assert f.values[..|f.values|] == f.values;
  }

  /* ---------- emitting derived facts ---------- */

  /** Whether the host takes facts of this name and arity from a provider, and as what. */
  function Emitted(host: Host, name: string, values: seq<Value>): Option<Fact> {
    match host.find(name, |values|)
    case None => None
    case Some(p) => if host.kind(p) == Idb then Some(Fact(p, values)) else None
  }

  ghost predicate OutputFits(host: Host, facts: set<Fact>) {
    |facts| <= host.derivedFacts && forall q :: |OfPredicate(facts, q)| <= host.perPredicate
  }

  /** The collected output of one solve; the first error sticks. */
  class Output {
    var derived: seq<Fact>
    var error: Status

    constructor ()
      ensures derived == [] && error == Ok
    {
      derived, error := [], Ok;
    }

    ghost predicate Valid(host: Host)
      reads this
    {
      DistinctFacts(derived) && (error == Ok ==> OutputFits(host, FactSet(derived)))
    }

    method Emit(host: Host, name: string, values: seq<Value>) returns (rc: Status)
      requires Valid(host)
      modifies this
      ensures Valid(host) && rc == error
      ensures old(error) != Ok ==> derived == old(derived) && error == old(error)
      ensures old(error) == Ok && Emitted(host, name, values).None? ==> rc == InvalidField && derived == old(derived)
      ensures old(error) == Ok && Emitted(host, name, values).Some? ==>
                var s := old(FactSet(derived)) + {Emitted(host, name, values).value};
                && (rc == Ok <==> OutputFits(host, s))
                && (rc == Ok ==> FactSet(derived) == s)
                && (rc != Ok ==> rc == PayloadTooLarge && derived == old(derived))
    {
      if error != Ok { return error; }
      var e := Emitted(host, name, values);
      if e.None? {
        error := InvalidField;
        return error;
      }
      var f := e.value;
      assert FactSet(derived + [f]) == FactSet(derived) + {f};
      if f in derived {
        assert FactSet(derived) + {f} == FactSet(derived);
        return Ok;
      }
      GrowsBy(host, derived, f);
      if |derived| >= host.derivedFacts || CountOf(derived, f.pred) >= host.perPredicate {
        error := PayloadTooLarge;
        return error;
      }
      derived := derived + [f];
      rc := Ok;
    }
  }

  /** The capacity tests of an emission decide exactly whether the grown output fits. */
  lemma GrowsBy(host: Host, derived: seq<Fact>, f: Fact)
    requires DistinctFacts(derived) && f !in derived && OutputFits(host, FactSet(derived))
    ensures DistinctFacts(derived + [f])
    ensures OutputFits(host, FactSet(derived) + {f}) <==>
            |derived| < host.derivedFacts && CountOf(derived, f.pred) < host.perPredicate
  {
    var s, t := FactSet(derived), FactSet(derived) + {f};
    DistinctSize(derived);
    assert |t| == |s| + 1;
    CountIsSize(derived, f.pred);
    assert OfPredicate(t, f.pred) == OfPredicate(s, f.pred) + {f};
    assert forall q :: q != f.pred ==> OfPredicate(t, q) == OfPredicate(s, q);
  }

  /* ---------- the provider ---------- */

  /** Which inputs the projection copies, and to what. */
  ghost predicate Selected(host: Host, input: string, f: Fact) {
    host.name(f.pred) == input
  }

  ghost predicate AllEmittable(host: Host, input: string, output: string, facts: seq<Fact>) {
    forall i :: 0 <= i < |facts| && Selected(host, input, facts[i]) ==> Emitted(host, output, facts[i].values).Some?
  }

  ghost function Image(host: Host, input: string, output: string, facts: seq<Fact>): set<Fact> {
    set i | 0 <= i < |facts| && Selected(host, input, facts[i]) && Emitted(host, output, facts[i].values).Some?
      :: Emitted(host, output, facts[i].values).value
  }

  /** What a solve needs in order to produce a candidate. */
  ghost predicate Solvable(host: Host, input: string, output: string, facts: seq<Fact>, fail: int) {
    && |facts| <= CAP
    && AllEmittable(host, input, output, facts) && OutputFits(host, Image(host, input, output, facts))
    && fail != 1 && (fail == 2 ==> host.workLimit >= UINT64_MAX)
  }

  /** The transactional part of the provider's state. */
  datatype Ledger = Ledger(committedHash: bv64, pendingHash: bv64, commits: nat, aborts: nat, releases: nat,
                           live: bool, accepted: bool)

  class Backend {
    const input: string
    const output: string
    var recorded: seq<Fact>
    var ledger: Ledger
    var fail: int

    constructor (input: string, output: string)
      ensures this.input == input && this.output == output && fail == 0 && recorded == []
      ensures ledger == Ledger(0, 0, 0, 0, 0, false, false)
    {
      this.input, this.output := input, output;
      recorded, ledger, fail := [], Ledger(0, 0, 0, 0, 0, false, false), 0;
    }

    method Solve(host: Host, facts: seq<Fact>, out: Output) returns (rc: Status)
      requires out.Valid(host) && out.derived == [] && out.error == Ok
      modifies this`recorded, this`ledger, out
      ensures out.Valid(host)
      ensures rc == Ok && out.error == Ok <==> Solvable(host, input, output, facts, fail)
      ensures rc == Ok && out.error == Ok ==>
                && recorded == facts && FactSet(out.derived) == Image(host, input, output, facts)
                && ledger == old(ledger).(pendingHash := HashOf(host, facts), live := true, accepted := false)
      ensures ledger == old(ledger) ||
              ledger == old(ledger).(pendingHash := ledger.pendingHash, live := true, accepted := false)
    {
      hide OutputFits, Emitted, HashFact, HashFrom, Seed, Image, AllEmittable;
      if |facts| > CAP { return PayloadTooLarge; }
      recorded := [];
      ledger := ledger.(live := true, accepted := false);
      var h := Seed(|facts|);
      ghost var start := h;
      StartsEmpty(host, input, output, facts, start);
      for i := 0 to |facts|
        invariant recorded == facts[..i] && h == HashFrom(host, start, facts[..i])
        invariant out.Valid(host) && out.error == Ok
        invariant AllEmittable(host, input, output, facts[..i])
        invariant FactSet(out.derived) == Image(host, input, output, facts[..i])
        invariant ledger == old(ledger).(live := true, accepted := false)
      {
        ImageGrows(host, input, output, facts, i);
        HashGrows(host, start, facts, i);
        assert facts[..i + 1] == facts[..i] + [facts[i]];
        recorded := recorded + [facts[i]];
        h := FactHash(host, h, facts[i]);
        if host.name(facts[i].pred) == input {
          rc := out.Emit(host, output, facts[i].values);
          if rc != Ok {
            NotSolvable(host, input, output, facts, i);
            return;
          }
        }
      }
      assert facts[..|facts|] == facts;
      ledger := ledger.(pendingHash := h);
      if fail == 1 { return Unsupported; }
      if fail == 2 && UINT64_MAX > host.workLimit { out.error := PayloadTooLarge; }
      rc := Ok;
    }

    method Commit()
      modifies this`ledger
      ensures ledger == Committed(old(ledger))
    {
      ledger := ledger.(committedHash := ledger.pendingHash, commits := Count32(ledger.commits + 1), accepted := true);
    }

    method Release()
      modifies this`ledger
      ensures ledger == Released(old(ledger))
    {
      if ledger.accepted {
        ledger := ledger.(releases := Count32(ledger.releases + 1));
      } else {
        ledger := ledger.(aborts := Count32(ledger.aborts + 1));
      }
      ledger := ledger.(live := false, pendingHash := 0, accepted := false);
    }
  }

  ghost function Committed(l: Ledger): Ledger {
    l.(committedHash := l.pendingHash, commits := Count32(l.commits + 1), accepted := true)
  }

  ghost function Released(l: Ledger): Ledger {
    Ledger(l.committedHash, 0, l.commits,
           if l.accepted then l.aborts else Count32(l.aborts + 1),
           if l.accepted then Count32(l.releases + 1) else l.releases,
           false, false)
  }

  lemma StartsEmpty(host: Host, input: string, output: string, facts: seq<Fact>, h: bv64)
    ensures FactSet([]) == Image(host, input, output, facts[..0])
    ensures AllEmittable(host, input, output, facts[..0]) && HashFrom(host, h, facts[..0]) == h
  {
  }

  lemma FitsSubset(host: Host, s: set<Fact>, t: set<Fact>)
    requires s <= t && OutputFits(host, t)
    ensures OutputFits(host, s)
  {
    SubsetCount(s, t);
    forall q: nat ensures |OfPredicate(s, q)| <= host.perPredicate {
      SubsetCount(OfPredicate(s, q), OfPredicate(t, q));
    }
  }

  lemma ImageGrows(host: Host, input: string, output: string, facts: seq<Fact>, i: nat)
    requires i < |facts|
    ensures Image(host, input, output, facts[..i + 1]) ==
            Image(host, input, output, facts[..i]) +
            (if Selected(host, input, facts[i]) && Emitted(host, output, facts[i].values).Some?
             then {Emitted(host, output, facts[i].values).value} else {})
    ensures AllEmittable(host, input, output, facts[..i + 1]) <==>
            AllEmittable(host, input, output, facts[..i]) &&
            (Selected(host, input, facts[i]) ==> Emitted(host, output, facts[i].values).Some?)
  {
    hide Emitted;
    var now, next := facts[..i], facts[..i + 1];
    assert forall k :: 0 <= k < i ==> now[k] == next[k];
    assert next[i] == facts[i];
  }

  lemma ImagePrefix(host: Host, input: string, output: string, facts: seq<Fact>, i: nat)
    requires i <= |facts|
    ensures Image(host, input, output, facts[..i]) <= Image(host, input, output, facts)
  {
    assert forall k :: 0 <= k < i ==> facts[..i][k] == facts[k];
  }

  /** An emission that the host refuses shows that the solve cannot succeed. */
  lemma NotSolvable(host: Host, input: string, output: string, facts: seq<Fact>, i: nat)
    requires i < |facts| && Selected(host, input, facts[i])
    requires Emitted(host, output, facts[i].values).Some? ==> !OutputFits(host, Image(host, input, output, facts[..i + 1]))
    ensures !(AllEmittable(host, input, output, facts) && OutputFits(host, Image(host, input, output, facts)))
  {
    hide OutputFits, Emitted;
    if AllEmittable(host, input, output, facts) && OutputFits(host, Image(host, input, output, facts)) {
      ImagePrefix(host, input, output, facts, i + 1);
      FitsSubset(host, Image(host, input, output, facts[..i + 1]), Image(host, input, output, facts));
    }
  }
}
