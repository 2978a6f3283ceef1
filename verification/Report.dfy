/**
 Reading a cost profile: every cost line is charged to the function it stands under, except the
 one after a call, which repeats what the callee was charged. The books must balance before a
 profile is accepted, and split into host, provider and a rest.
 */
module Report {
  import opened Datalog

  /** Three counters. */
  datatype Cost = Cost(ir: int, dr: int, dw: int)

  const NOTHING: Cost := Cost(0, 0, 0)

  function Plus(x: Cost, y: Cost): Cost {
    Cost(x.ir + y.ir, x.dr + y.dr, x.dw + y.dw)
  }

  predicate AtMost(x: Cost, y: Cost) {
    x.ir <= y.ir && x.dr <= y.dr && x.dw <= y.dw
  }

  /** One cost is at most another exactly if something can be added to it to make up the other. */
  lemma AtMostLeaves(x: Cost, y: Cost)
    ensures AtMost(x, y) <==> exists d: Cost :: 0 <= d.ir && 0 <= d.dr && 0 <= d.dw && Plus(x, d) == y
  {
    if AtMost(x, y) {
      assert Plus(x, Cost(y.ir - x.ir, y.dr - x.dr, y.dw - x.dw)) == y;
    }
  }

  /** A function name: written out, written out under a number, or by number only. */
  datatype Named = Plain(text: string) | Numbered(key: nat, text: string) | Again(key: nat)

  datatype Line =
    | Trigger(region: string)
    | Events(expected: bool)
    | Summary(cost: Cost)
    | Totals(cost: Cost)
    | Function(name: Named)
    | Callee(name: Named)
    | Calls
    | Charge(cost: Cost)
    | Other

  type Charges = map<string, Cost>

  /* ---------- what the charges should be ---------- */

  /** A cost line that repeats a callee's cost: the first one after a call. */
  ghost predicate Inclusive(lines: seq<Line>, i: nat)
    requires i <= |lines|
  {
    exists j :: 0 <= j < i && lines[j].Calls? && forall k :: j < k < i ==> !lines[k].Charge?
  }

  /** The sum of the cost lines that are not repeats. */
  ghost function Exclusive(lines: seq<Line>, n: nat): Cost
    requires n <= |lines|
  {
    if n == 0 then NOTHING
    else if lines[n - 1].Charge? && !Inclusive(lines, n - 1) then Plus(Exclusive(lines, n - 1), lines[n - 1].cost)
    else Exclusive(lines, n - 1)
  }

  /** The names that numbers stand for after n lines. */
  ghost function NamesAt(lines: seq<Line>, n: nat): map<nat, string>
    requires n <= |lines|
  {
    if n == 0 then map[]
    else
      var before, l := NamesAt(lines, n - 1), lines[n - 1];
      if (l.Function? || l.Callee?) && l.name.Numbered? then before[l.name.key := l.name.text] else before
  }

  ghost function Resolved(names: map<nat, string>, name: Named): Option<string> {
    match name
    case Plain(text) => Some(text)
    case Numbered(_, text) => Some(text)
    case Again(key) => if key in names then Some(names[key]) else None
  }

  /** The function that lines from n on stand under. */
  ghost function OwnerAt(lines: seq<Line>, n: nat): Option<string>
    requires n <= |lines|
  {
    if n == 0 then None
    else if lines[n - 1].Function? then Resolved(NamesAt(lines, n - 1), lines[n - 1].name)
    else OwnerAt(lines, n - 1)
  }

  /** What is charged to one function. */
  ghost function ChargedTo(lines: seq<Line>, n: nat, k: string): Cost
    requires n <= |lines|
  {
    if n == 0 then NOTHING
    else if lines[n - 1].Charge? && !Inclusive(lines, n - 1) && OwnerAt(lines, n - 1) == Some(k) then
      Plus(ChargedTo(lines, n - 1, k), lines[n - 1].cost)
    else ChargedTo(lines, n - 1, k)
  }

  ghost predicate EventsSeen(lines: seq<Line>, n: nat)
    requires n <= |lines|
  {
    exists i :: 0 <= i < n && lines[i].Events?
  }

  /** A line that does not stop the reading. */
  ghost predicate LineOk(lines: seq<Line>, i: nat)
    requires i < |lines|
  {
    match lines[i]
    case Events(expected) => expected
    case Function(name) => Resolved(NamesAt(lines, i), name).Some?
    case Callee(name) => Resolved(NamesAt(lines, i), name).Some?
    case Charge(_) => Inclusive(lines, i) || (OwnerAt(lines, i).Some? && EventsSeen(lines, i))
    case _ => true
  }

  ghost predicate Readable(lines: seq<Line>) {
    forall i :: 0 <= i < |lines| ==> LineOk(lines, i)
  }

  /** The last region, summary and totals named. */
  ghost function LastRegion(lines: seq<Line>, n: nat): Option<string>
    requires n <= |lines|
  {
    if n == 0 then None else if lines[n - 1].Trigger? then Some(lines[n - 1].region) else LastRegion(lines, n - 1)
  }

  ghost function LastSummary(lines: seq<Line>, n: nat): Option<Cost>
    requires n <= |lines|
  {
    if n == 0 then None else if lines[n - 1].Summary? then Some(lines[n - 1].cost) else LastSummary(lines, n - 1)
  }

  ghost function LastTotals(lines: seq<Line>, n: nat): Option<Cost>
    requires n <= |lines|
  {
    if n == 0 then None else if lines[n - 1].Totals? then Some(lines[n - 1].cost) else LastTotals(lines, n - 1)
  }

  /** The charges come to the totals and do not exceed the summary. */
  ghost predicate Balanced(lines: seq<Line>) {
    var sum, summary := Exclusive(lines, |lines|), LastSummary(lines, |lines|);
    LastTotals(lines, |lines|) == Some(sum) && summary.Some? && AtMost(sum, summary.value)
  }

  lemma InclusiveGrows(lines: seq<Line>, i: nat)
    requires i < |lines|
    ensures Inclusive(lines, i + 1) <==> lines[i].Calls? || (Inclusive(lines, i) && !lines[i].Charge?)
  {
    if Inclusive(lines, i + 1) {
      var j :| 0 <= j < i + 1 && lines[j].Calls? && forall k :: j < k < i + 1 ==> !lines[k].Charge?;
      if j < i { assert Inclusive(lines, i); }
    }
  }

  /* ---------- sums over functions ---------- */

  ghost function SumOver(keys: set<string>, m: Charges): Cost
    requires keys <= m.Keys
    decreases |keys|
  {
    if keys == {} then NOTHING
    else
      var k :| k in keys;
      Plus(m[k], SumOver(keys - {k}, m))
  }

  ghost function Sum(m: Charges): Cost {
    SumOver(m.Keys, m)
  }

  lemma SumNone(m: Charges)
    ensures SumOver({}, m) == NOTHING
  {
  }

  lemma PlusLaws(x: Cost, y: Cost, z: Cost)
    ensures Plus(NOTHING, x) == x
    ensures Plus(x, Plus(y, z)) == Plus(Plus(x, y), z)
  {
  }

  lemma Swapped(x: Cost, y: Cost, z: Cost)
    ensures Plus(x, Plus(y, z)) == Plus(y, Plus(x, z))
  {
  }

  /** A sum does not depend on the order. */
  lemma {:induction false} SumTakes(keys: set<string>, m: Charges, k: string)
    requires k in keys && keys <= m.Keys
    ensures SumOver(keys, m) == Plus(m[k], SumOver(keys - {k}, m))
    decreases |keys|
  {
    hide Plus;
    var j :| j in keys && SumOver(keys, m) == Plus(m[j], SumOver(keys - {j}, m));
    if j != k {
      SumTakes(keys - {j}, m, k);
      SumTakes(keys - {k}, m, j);
      assert keys - {j} - {k} == keys - {k} - {j};
      Swapped(m[j], m[k], SumOver(keys - {j} - {k}, m));
    }
  }

  /** Only the charges of the keys summed over matter. */
  lemma {:induction false} SumAgrees(keys: set<string>, m: Charges, n: Charges)
    requires keys <= m.Keys && keys <= n.Keys && forall k :: k in keys ==> m[k] == n[k]
    ensures SumOver(keys, m) == SumOver(keys, n)
    decreases |keys|
  {
    hide Plus;
    if keys != {} {
      var k :| k in keys;
      SumAgrees(keys - {k}, m, n);
      SumTakes(keys, m, k);
      SumTakes(keys, n, k);
    }
  }

  lemma Charged(m: Charges, k: string, c: Cost)
    requires k in m
    ensures Sum(m[k := Plus(m[k], c)]) == Plus(Sum(m), c)
  {
    hide Plus;
    var next := m[k := Plus(m[k], c)];
    assert next.Keys == m.Keys;
    SumTakes(m.Keys, m, k);
    SumTakes(m.Keys, next, k);
    SumAgrees(m.Keys - {k}, m, next);
    Regrouped(m[k], SumOver(m.Keys - {k}, m), c);
  }

  lemma NoCharges(m: Charges)
    requires m == map[]
    ensures Sum(m) == NOTHING
  {
  }

  lemma Regrouped(x: Cost, y: Cost, c: Cost)
    ensures Plus(Plus(x, c), y) == Plus(Plus(x, y), c)
  {
  }

  lemma Opened(m: Charges, k: string)
    requires k !in m
    ensures Sum(m[k := NOTHING]) == Sum(m)
  {
    hide SumOver, Plus;
    var next := m[k := NOTHING];
    SumTakes(next.Keys, next, k);
    assert next.Keys - {k} == m.Keys;
    SumAgrees(m.Keys, m, next);
    PlusLaws(SumOver(m.Keys, next), NOTHING, NOTHING);
  }

  function Nonzero(m: Charges): (r: Charges)
    ensures r.Keys <= m.Keys && forall k :: k in r ==> r[k] == m[k]
    ensures forall k :: k in m && k !in r ==> m[k] == NOTHING
    ensures forall k :: k in r ==> r[k] != NOTHING
  {
    map k | k in m && m[k] != NOTHING :: m[k]
  }

  lemma {:induction false} SumSkips(keys: set<string>, kept: set<string>, m: Charges)
    requires kept <= keys <= m.Keys && forall k :: k in keys - kept ==> m[k] == NOTHING
    ensures SumOver(keys, m) == SumOver(kept, m)
    decreases |keys|
  {
    if k :| k in keys - kept {
      SumTakes(keys, m, k);
      SumSkips(keys - {k}, kept, m);
    } else {
      assert keys == kept;
    }
  }

  /** Dropping functions without cost loses nothing. */
  lemma ZerosDoNotCount(m: Charges)
    ensures Sum(Nonzero(m)) == Sum(m)
  {
    var kept := Nonzero(m);
    SumSkips(m.Keys, kept.Keys, m);
    SumAgrees(kept.Keys, m, kept);
  }

  predicate IsProvider(name: string) {
    "delta_backend_" <= name
  }

  /** The functions of the provider are those whose names begin in a certain way. */
  lemma ProviderNames(name: string)
    ensures IsProvider(name) <==> exists rest: string :: name == "delta_backend_" + rest
  {
    if IsProvider(name) {
      assert name == "delta_backend_" + name[14..];
    }
  }

  /** The functions of one side. */
  function Side(m: Charges, provider: bool): (r: Charges)
    ensures r.Keys <= m.Keys && forall k :: k in r ==> r[k] == m[k]
    ensures forall k :: k in r <==> k in m && IsProvider(k) == provider
  {
    map k | k in m && IsProvider(k) == provider :: m[k]
  }

  lemma {:induction false} SumSplits(x: set<string>, y: set<string>, m: Charges)
    requires x !! y && x <= m.Keys && y <= m.Keys
    ensures SumOver(x + y, m) == Plus(SumOver(x, m), SumOver(y, m))
    decreases |x|
  {
    hide SumOver, Plus;
    if x == {} {
      assert x + y == y;
      SumNone(m);
      PlusLaws(SumOver(y, m), NOTHING, NOTHING);
    } else {
      var k :| k in x;
      SumSplits(x - {k}, y, m);
      SumTakes(x, m, k);
      SumTakes(x + y, m, k);
      assert x + y - {k} == x - {k} + y;
      PlusLaws(m[k], SumOver(x - {k}, m), SumOver(y, m));
    }
  }

  /** Host and provider make up the whole. */
  lemma SidesAddUp(m: Charges)
    ensures Plus(Sum(Side(m, false)), Sum(Side(m, true))) == Sum(m)
  {
    hide IsProvider;
    var host, provider := Side(m, false), Side(m, true);
    assert m.Keys == host.Keys + provider.Keys;
    SumSplits(host.Keys, provider.Keys, m);
    SumAgrees(host.Keys, m, host);
    SumAgrees(provider.Keys, m, provider);
  }

  /* ---------- reading ---------- */

  datatype Outcome = Unlabelled | Invalid | Accepted(region: string, total: Cost, functions: Charges, residual: Cost)

  /** The state of the reader after n lines. */
  ghost predicate ReadUpTo(lines: seq<Line>, n: nat, names: map<nat, string>, functions: Charges, current: Option<string>,
                           region: Option<string>, summary: Option<Cost>, totals: Option<Cost>, skip: bool, events: bool)
    requires n <= |lines|
  {
    && (skip <==> Inclusive(lines, n)) && (events <==> EventsSeen(lines, n))
    && names == NamesAt(lines, n) && current == OwnerAt(lines, n)
    && region == LastRegion(lines, n) && summary == LastSummary(lines, n) && totals == LastTotals(lines, n)
    && (current.Some? ==> current.value in functions)
    && Sum(functions) == Exclusive(lines, n)
    && (forall k :: ChargedTo(lines, n, k) == if k in functions then functions[k] else NOTHING)
    && (forall i :: 0 <= i < n ==> LineOk(lines, i))
  }

  lemma EventsGrow(lines: seq<Line>, i: nat)
    requires i < |lines|
    ensures EventsSeen(lines, i + 1) <==> EventsSeen(lines, i) || lines[i].Events?
  {
  }

  /** The cost a profile's functions come to, or the reason why it is refused: a line that
      cannot be read, no region, or books that do not balance. */
  method Counts(lines: seq<Line>) returns (out: Outcome)
    ensures out.Unlabelled? <==> Readable(lines) && LastRegion(lines, |lines|).None?
    ensures out.Accepted? <==> Readable(lines) && LastRegion(lines, |lines|).Some? && Balanced(lines)
    ensures out.Accepted? ==>
              && LastRegion(lines, |lines|) == Some(out.region) && LastSummary(lines, |lines|) == Some(out.total)
              && (forall k :: ChargedTo(lines, |lines|, k) == if k in out.functions then out.functions[k] else NOTHING)
              && Sum(out.functions) == Exclusive(lines, |lines|)
              && (forall k :: k in out.functions ==> out.functions[k] != NOTHING)
              && Plus(Plus(Sum(Side(out.functions, false)), Sum(Side(out.functions, true))), out.residual) == out.total
              && 0 <= out.residual.ir && 0 <= out.residual.dr && 0 <= out.residual.dw
  {
    hide IsProvider, Plus, Sum;
    var names: map<nat, string>, functions: Charges := map[], map[];
    var current: Option<string>, region: Option<string> := None, None;
    var summary: Option<Cost>, totals: Option<Cost> := None, None;
    var skip, events := false, false;
    NoCharges(functions);
    for i := 0 to |lines|
      invariant ReadUpTo(lines, i, names, functions, current, region, summary, totals, skip, events)
    {
      InclusiveGrows(lines, i);
      EventsGrow(lines, i);
      match lines[i] {
        case Trigger(text) => region := Some(text);
        case Events(expected) =>
          if !expected {
            assert !LineOk(lines, i);
            return Invalid;
          }
          events := true;
        case Summary(c) => summary := Some(c);
        case Totals(c) => totals := Some(c);
        case Function(name) =>
          if name.Again? && name.key !in names {
            assert !LineOk(lines, i);
            return Invalid;
          }
          if name.Numbered? { names := names[name.key := name.text]; }
          var text := if name.Plain? then name.text else names[name.key];
          if text !in functions {
            Opened(functions, text);
            functions := functions[text := NOTHING];
          }
          current := Some(text);
        case Callee(name) =>
          if name.Again? && name.key !in names {
            assert !LineOk(lines, i);
            return Invalid;
          }
          if name.Numbered? { names := names[name.key := name.text]; }
        case Calls => skip := true;
        case Charge(c) =>
          if skip {
            skip := false;
          } else {
            if current.None? || !events {
              assert !LineOk(lines, i);
              return Invalid;
            }
            Charged(functions, current.value, c);
            functions := functions[current.value := Plus(functions[current.value], c)];
          }
        case Other =>
      }
    }
    if region.None? { return Unlabelled; }
    var kept := Nonzero(functions);
    ZerosDoNotCount(functions);
    var accounted := Total(kept);
    if totals.None? || accounted != totals.value || summary.None? || !AtMost(accounted, summary.value) { return Invalid; }
    SidesAddUp(kept);
    var s := summary.value;
    RestAddsUp(accounted, s);
    out := Accepted(region.value, s, kept, Cost(s.ir - accounted.ir, s.dr - accounted.dr, s.dw - accounted.dw));
  }

  lemma RestAddsUp(x: Cost, s: Cost)
    ensures Plus(x, Cost(s.ir - x.ir, s.dr - x.dr, s.dw - x.dw)) == s
  {
  }

  /** The sum of all charges. */
  method Total(m: Charges) returns (c: Cost)
    ensures c == Sum(m)
  {
    c := NOTHING;
    var rest := m.Keys;
    while rest != {}
      invariant rest <= m.Keys && Plus(c, SumOver(rest, m)) == Sum(m)
      decreases |rest|
    {
      var k :| k in rest;
      SumTakes(rest, m, k);
      c := Plus(c, m[k]);
      rest := rest - {k};
    }
  }
}
