/**
 The predicate registry of a policy: names are registered at one arity only, so that a name alone
 decides which predicate is meant.
 */
module Registry {
  import opened Datalog
  import opened DeltaStage
  import opened DeltaBackend
  import Strata

  const MAX_ARITY: nat := 4
  const NAME_SIZE: nat := 64

  datatype Flag = EdbFlag | PolicyFlag | IdbFlag | QueryFlag

  datatype Entry = Entry(name: string, arity: nat, flags: set<Flag>)

  /** One of the three kinds, which may also be marked for queries. */
  predicate ValidFlags(flags: set<Flag>) {
    flags - {QueryFlag} in {{EdbFlag}, {PolicyFlag}, {IdbFlag}}
  }

  function KindOf(flags: set<Flag>): Kind {
    if EdbFlag in flags then Edb else if PolicyFlag in flags then Policy else Idb
  }

  predicate Declarable(name: string, arity: nat, flags: set<Flag>) {
    name != "" && arity <= MAX_ARITY && ValidFlags(flags)
  }

  /** A predicate has a name, at most four arguments and exactly one of three roles, queried or
      not, and the role is its kind. */
  lemma RolesAre(name: string, arity: nat, flags: set<Flag>)
    ensures var e, y, i := EdbFlag in flags, PolicyFlag in flags, IdbFlag in flags;
            && (Declarable(name, arity, flags) <==>
                  0 < |name| && arity < 5 && ((e && !y && !i) || (!e && y && !i) || (!e && !y && i)))
            && (Declarable(name, arity, flags) ==> KindOf(flags) == if e then Edb else if y then Policy else Idb)
  {
    var kinds := flags - {QueryFlag};
    var roles := (if EdbFlag in flags then {EdbFlag} else {}) + (if PolicyFlag in flags then {PolicyFlag} else {})
                 + (if IdbFlag in flags then {IdbFlag} else {});
    forall x: Flag ensures x in kinds <==> x in roles {
      match x
      case EdbFlag =>
      case PolicyFlag =>
      case IdbFlag =>
      case QueryFlag =>
    }
    assert kinds == roles;
    assert (kinds == {EdbFlag} <==> EdbFlag in roles && PolicyFlag !in roles && IdbFlag !in roles);
    assert (kinds == {PolicyFlag} <==> EdbFlag !in roles && PolicyFlag in roles && IdbFlag !in roles);
    assert (kinds == {IdbFlag} <==> EdbFlag !in roles && PolicyFlag !in roles && IdbFlag in roles);
  }

  predicate NamesDiffer(defs: seq<Entry>) {
    forall i, j :: 0 <= i < j < |defs| ==> defs[i].name != defs[j].name
  }

  /** What is registered under the name already covers the declaration. */
  ghost predicate Covers(defs: seq<Entry>, name: string, arity: nat, flags: set<Flag>) {
    exists i :: 0 <= i < |defs| && defs[i].name == name && defs[i].arity == arity && flags <= defs[i].flags
  }

  ghost predicate Unknown(defs: seq<Entry>, name: string) {
    forall i :: 0 <= i < |defs| ==> defs[i].name != name
  }

  ghost predicate Accepts(defs: seq<Entry>, frozen: bool, name: string, arity: nat, flags: set<Flag>) {
    && Declarable(name, arity, flags) && !frozen
    && (Covers(defs, name, arity, flags) ||
        (Unknown(defs, name) && |defs| < Strata.MAX_PREDICATES && |name| < NAME_SIZE))
  }

  /** The first predicate with this name and this arity. */
  function Lookup(defs: seq<Entry>, name: string, arity: nat): Option<nat> {
    LookupFrom(defs, name, arity, 0)
  }

  function LookupFrom(defs: seq<Entry>, name: string, arity: nat, i: nat): (r: Option<nat>)
    requires i <= |defs|
    ensures r.Some? ==> i <= r.value < |defs| && defs[r.value].name == name && defs[r.value].arity == arity
    ensures r.None? ==> forall k :: i <= k < |defs| ==> defs[k].name != name || defs[k].arity != arity
    decreases |defs| - i
  {
    if i == |defs| then None
    else if defs[i].arity == arity && defs[i].name == name then Some(i)
    else LookupFrom(defs, name, arity, i + 1)
  }

  class Table {
    var defs: seq<Entry>
    var frozen: bool

    constructor ()
      ensures Valid() && defs == [] && !frozen
    {
      defs, frozen := [], false;
    }

    ghost predicate Valid()
      reads this
    {
      && NamesDiffer(defs) && |defs| <= Strata.MAX_PREDICATES
      && forall i :: 0 <= i < |defs| ==>
           Declarable(defs[i].name, defs[i].arity, defs[i].flags) && |defs[i].name| < NAME_SIZE
    }

    /** A declaration is taken if and only if it is well made and neither a second arity nor a new
        role for a name in use. What is registered stays registered, under its number. */
    method Add(name: string, arity: nat, flags: set<Flag>) returns (rc: Status)
      requires Valid()
      modifies this`defs
      ensures Valid()
      ensures rc == Ok <==> Accepts(old(defs), frozen, name, arity, flags)
      ensures rc == Ok ==> Covers(defs, name, arity, flags)
      ensures defs == if rc == Ok && Unknown(old(defs), name) then old(defs) + [Entry(name, arity, flags)] else old(defs)
    {
      hide ValidFlags;
      if !Declarable(name, arity, flags) { return InvalidArgument; }
      if frozen { return InvalidState; }
      for i := 0 to |defs|
        invariant Unknown(defs[..i], name)
      {
        if defs[i].name == name {
          rc := if defs[i].arity == arity && flags <= defs[i].flags then Ok else InvalidField;
          OnlyOne(defs, i);
          return;
        }
        assert defs[..i + 1] == defs[..i] + [defs[i]];
      }
      assert defs[..|defs|] == defs;
      if |defs| >= Strata.MAX_PREDICATES { return PayloadTooLarge; }
      if |name| >= NAME_SIZE { return InvalidField; }
      defs := defs + [Entry(name, arity, flags)];
      assert defs[|defs| - 1].name == name;
      rc := Ok;
    }

    method Freeze()
      modifies this`frozen
      ensures frozen
    {
      frozen := true;
    }

    method Find(name: string, arity: nat) returns (r: Option<nat>)
      ensures r == Lookup(defs, name, arity)
    {
      for i := 0 to |defs|
        invariant Lookup(defs, name, arity) == LookupFrom(defs, name, arity, i)
      {
        if defs[i].arity == arity && defs[i].name == name { return Some(i); }
      }
      r := None;
    }
  }

  lemma OnlyOne(defs: seq<Entry>, i: nat)
    requires NamesDiffer(defs) && i < |defs|
    ensures forall k :: 0 <= k < |defs| && defs[k].name == defs[i].name ==> k == i
    ensures !Unknown(defs, defs[i].name)
  {
  }

  /** In a registry a predicate is found by its name and its own arity, and by nothing else. */
  lemma LookupExact(defs: seq<Entry>, name: string, arity: nat, q: nat)
    requires NamesDiffer(defs)
    ensures Lookup(defs, name, arity) == Some(q) <==> q < |defs| && defs[q].name == name && defs[q].arity == arity
  {
  }

  /* ---------- whole lives of a table ---------- */

  datatype Call = Declare(name: string, arity: nat, flags: set<Flag>) | Close

  datatype State = State(defs: seq<Entry>, frozen: bool)

  ghost function AfterCall(s: State, c: Call): State {
    match c
    case Close => s.(frozen := true)
    case Declare(name, arity, flags) =>
      if Accepts(s.defs, s.frozen, name, arity, flags) && Unknown(s.defs, name)
      then s.(defs := s.defs + [Entry(name, arity, flags)]) else s
  }

  ghost function AfterCalls(s: State, calls: seq<Call>): State {
    if calls == [] then s else AfterCall(AfterCalls(s, calls[..|calls| - 1]), calls[|calls| - 1])
  }

  method PerformOne(t: Table, c: Call) returns (rc: Status)
    requires t.Valid()
    modifies t
    ensures t.Valid() && State(t.defs, t.frozen) == AfterCall(old(State(t.defs, t.frozen)), c)
    ensures rc == Ok <==> Taken(old(State(t.defs, t.frozen)), c)
  {
    hide Covers, Unknown, Declarable, NamesDiffer;
    rc := Ok;
    match c {
      case Close => t.Freeze();
      case Declare(name, arity, flags) => rc := t.Add(name, arity, flags);
    }
  }

  /** Any calls on a table, and how each of them ends. */
  method Perform(t: Table, calls: seq<Call>) returns (rcs: seq<Status>)
    requires t.Valid()
    modifies t
    ensures t.Valid() && State(t.defs, t.frozen) == AfterCalls(old(State(t.defs, t.frozen)), calls)
    ensures |rcs| == |calls|
    ensures forall i :: 0 <= i < |calls| ==> (rcs[i] == Ok <==> Taken(AfterCalls(old(State(t.defs, t.frozen)), calls[..i]), calls[i]))
  {
    hide AfterCall, Taken, Table.Valid;
    ghost var s := State(t.defs, t.frozen);
    rcs := [];
    for i := 0 to |calls|
      invariant t.Valid() && State(t.defs, t.frozen) == AfterCalls(s, calls[..i]) && |rcs| == i
      invariant forall k :: 0 <= k < i ==> (rcs[k] == Ok <==> Taken(AfterCalls(s, calls[..k]), calls[k]))
    {
      assert calls[..i + 1][..i] == calls[..i];
      var rc := PerformOne(t, calls[i]);
      rcs := rcs + [rc];
    }
    assert calls[..|calls|] == calls;
  }

  ghost predicate Taken(s: State, c: Call) {
    c.Declare? ==> Accepts(s.defs, s.frozen, c.name, c.arity, c.flags)
  }

  /** Calls only ever append to a table, and names stay different. */
  lemma {:induction false} TableGrows(s: State, calls: seq<Call>)
    requires NamesDiffer(s.defs)
    ensures var t := AfterCalls(s, calls); s.defs <= t.defs && NamesDiffer(t.defs) && (s.frozen ==> t == s)
  {
    if calls != [] {
      TableGrows(s, calls[..|calls| - 1]);
    }
  }

  /** So a predicate, once found, is found under the same number ever after. */
  lemma FoundStays(s: State, calls: seq<Call>, name: string, arity: nat)
    requires NamesDiffer(s.defs) && Lookup(s.defs, name, arity).Some?
    ensures Lookup(AfterCalls(s, calls).defs, name, arity) == Lookup(s.defs, name, arity)
  {
    hide AfterCalls, Lookup;
    var q := Lookup(s.defs, name, arity).value;
    TableGrows(s, calls);
    LookupExact(s.defs, name, arity, q);
    LookupExact(AfterCalls(s, calls).defs, name, arity, q);
  }

  lemma {:induction false} InTwoParts(s: State, a: seq<Call>, b: seq<Call>)
    ensures AfterCalls(s, a + b) == AfterCalls(AfterCalls(s, a), b)
  {
    hide AfterCall;
    if b == [] {
      assert a + b == a;
    } else {
      InTwoParts(s, a, b[..|b| - 1]);
      assert (a + b)[..|a + b| - 1] == a + b[..|b| - 1];
    }
  }

  /** Whatever is called after a table has been closed: nothing changes it any more, and every
      declaration is refused, even of what it already holds. */
  lemma FrozenForGood(s: State, a: seq<Call>, b: seq<Call>, c: Call)
    requires NamesDiffer(s.defs)
    ensures AfterCalls(s, a + [Close] + b) == State(AfterCalls(s, a).defs, true)
    ensures c.Declare? ==> !Taken(AfterCalls(s, a + [Close] + b), c)
  {
    hide Accepts;
    TableGrows(s, a);
    InTwoParts(s, a + [Close], b);
    assert (a + [Close])[..|a|] == a;
    TableGrows(AfterCalls(s, a + [Close]), b);
    if c.Declare? { NothingTaken(AfterCalls(s, a + [Close] + b), c); }
  }

  lemma NothingTaken(s: State, c: Call)
    requires s.frozen && c.Declare?
    ensures !Taken(s, c)
  {
  }

  /** The host answers from this table. */
  ghost predicate Serves(host: Host, defs: seq<Entry>) {
    && (forall q :: 0 <= q < |defs| ==> host.name(q) == defs[q].name && host.kind(q) == KindOf(defs[q].flags))
    && (forall name, arity :: host.find(name, arity) == Lookup(defs, name, arity))
  }

  /** Over a registry exactly the facts of a registered name and arity in the derived role can be
      emitted, and they are facts of that entry. */
  lemma EmitsExactly(host: Host, defs: seq<Entry>, name: string, values: seq<Value>, q: nat)
    requires NamesDiffer(defs) && Serves(host, defs)
    requires forall i :: 0 <= i < |defs| ==> Declarable(defs[i].name, defs[i].arity, defs[i].flags)
    ensures Emitted(host, name, values) == Some(Fact(q, values)) <==>
              q < |defs| && defs[q].name == name && defs[q].arity == |values| && IdbFlag in defs[q].flags
    ensures Emitted(host, name, values).Some? ==> exists q :: Emitted(host, name, values) == Some(Fact(q, values))
  {
    LookupExact(defs, name, |values|, q);
    if q < |defs| { RolesAre(defs[q].name, defs[q].arity, defs[q].flags); }
  }
}
