/**
 The structural check of one ABNF production: an automaton with a stack of open brackets and a
 note of what came last. It is compared with the elements grammar of section 4 of RFC 5234.
 */
module Abnf {
  import opened Datalog
  import Decimal

  /* ---------- tokens ---------- */

  datatype Bracket = Round | Square

  datatype Token =
    | Open(bracket: Bracket)
    | Close(bracket: Bracket)
    | Slash
    | Repeat(value: string)
    | Name(value: string)
    | Literal(value: string)
    | Numeric(value: string)

  predicate IsDigit(c: char) { '0' <= c <= '9' }

  /** The position of the first star, or the length. */
  function Star(s: string): (k: nat)
    ensures k <= |s| && (k < |s| ==> s[k] == '*') && forall i :: 0 <= i < k ==> s[i] != '*'
  {
    if s == [] || s[0] == '*' then 0 else 1 + Star(s[1..])
  }

  /** A repetition prefix: a count, or two optional bounds around a star, of which the lower
      must not exceed the upper. */
  predicate Prefix(s: string) {
    var k := Star(s);
    if k == |s| then s != [] && Decimal.IsDecimal(s)
    else
      && Decimal.IsDecimal(s[..k]) && Decimal.IsDecimal(s[k + 1..])
      && (s[k + 1..] != [] ==> Decimal.Read(s[..k]) <= Decimal.Read(s[k + 1..]))
  }

  lemma StarAt(a: string, b: string)
    requires Decimal.IsDecimal(a)
    ensures Star(a + "*" + b) == |a| && Star(a) == |a|
    ensures (a + "*" + b)[..|a|] == a && (a + "*" + b)[|a| + 1..] == b
  {
    var s := a + "*" + b;
    assert s[|a|] == '*' && forall i :: 0 <= i < |a| ==> s[i] == a[i];
  }

  lemma BoundsPass(a: string, b: string)
    requires Decimal.IsDecimal(a) && Decimal.IsDecimal(b)
    ensures Prefix(a) <==> a != ""
    ensures Prefix(a + "*" + b) <==> b == "" || Decimal.Read(a) <= Decimal.Read(b)
  {
    hide Star, Decimal.Read;
    StarAt(a, b);
  }

  /** Which repetitions pass, for any two numbers: a count, either bound alone, none, and both
      exactly if the first is at most the second. */
  lemma RepetitionsThatPass(lo: nat, hi: nat)
    ensures var a, b := Decimal.Digits(lo), Decimal.Digits(hi);
            && Prefix(a) && Prefix(a + "*") && Prefix("*" + b) && Prefix("*")
            && (Prefix(a + "*" + b) <==> lo <= hi)
  {
    var a, b := Decimal.Digits(lo), Decimal.Digits(hi);
    hide Prefix, Decimal.Digits, Decimal.Read;
    Decimal.DigitsReadBack(lo);
    Decimal.DigitsReadBack(hi);
    BoundsPass(a, b);
    BoundsPass(a, "");
    BoundsPass("", b);
    BoundsPass("", "");
    ReadNothing();
    assert a + "*" + "" == a + "*" && "" + "*" + b == "*" + b && "" + "*" + "" == "*";
  }

  lemma ReadNothing()
    ensures Decimal.IsDecimal("") && Decimal.Read("") == 0
  {
  }

  /** And what passes is digits, with at most one star. */
  lemma RepetitionCharacters(s: string)
    requires Prefix(s)
    ensures s != "" && (forall i :: 0 <= i < |s| ==> s[i] in "0123456789*")
    ensures forall i, j :: 0 <= i < j < |s| ==> s[i] != '*' || s[j] != '*'
  {
    var k := Star(s);
    forall i | 0 <= i < |s| ensures i != k ==> '0' <= s[i] <= '9' {
      if i < k { assert s[i] == s[..k][i]; }
      if i > k { assert s[i] == s[k + 1..][i - k - 1]; }
    }
    assert forall c: char :: '0' <= c <= '9' ==> c in "0123456789*" by { DigitsListed(); }
  }

  lemma DigitsListed()
    ensures forall c: char :: '0' <= c <= '9' ==> c in "0123456789*"
  {
    forall c: char | '0' <= c <= '9' ensures c in "0123456789*" {
      assert "0123456789*"[(c - '0') as int] == c;
    }
  }

  /* ---------- the automaton ---------- */

  datatype Last = Start | Opened | Alternative | Repeated | Item

  datatype State = State(stack: seq<Bracket>, last: Last)

  predicate StartsElement(t: Token) {
    t.Open? || t.Name? || t.Literal? || t.Numeric?
  }

  /** The effect of one token. A repetition prefix also looks at the token after it. */
  function Step(s: State, ts: seq<Token>, i: nat): Option<State>
    requires i < |ts|
  {
    match ts[i]
    case Open(b) => Some(State(s.stack + [b], Opened))
    case Close(b) =>
      if s.stack == [] || s.stack[|s.stack| - 1] != b || s.last != Item then None
      else Some(State(s.stack[..|s.stack| - 1], Item))
    case Slash => if s.last != Item then None else Some(State(s.stack, Alternative))
    case Repeat(v) =>
      if s.last == Repeated || !Prefix(v) || i + 1 >= |ts| || !StartsElement(ts[i + 1]) then None
      else Some(State(s.stack, Repeated))
    case _ => Some(State(s.stack, Item))
  }

  function Run(ts: seq<Token>, i: nat): Option<State>
    requires i <= |ts|
  {
    if i == 0 then Some(State([], Start))
    else
      var s := Run(ts, i - 1);
      if s.None? then None else Step(s.value, ts, i - 1)
  }

  /** Accepted: all tokens taken, no bracket open, nothing left hanging. */
  predicate Accepts(ts: seq<Token>) {
    var s := Run(ts, |ts|);
    s.Some? && s.value.stack == [] && s.value.last in {Start, Item}
  }

  function Lower(s: string): string {
    seq(|s|, i requires 0 <= i < |s| => if 'A' <= s[i] <= 'Z' then s[i] + (32 as char) else s[i])
  }

  /** The rule names a production refers to. */
  function References(ts: seq<Token>): set<string> {
    set i | 0 <= i < |ts| && ts[i].Name? :: Lower(ts[i].value)
  }

  lemma {:induction false} RejectedStays(ts: seq<Token>, i: nat, j: nat)
    requires i <= j <= |ts| && Run(ts, i).None?
    ensures Run(ts, j).None?
    decreases j
  {
    if i < j { RejectedStays(ts, i, j - 1); }
  }

  method ValidateTokens(ts: seq<Token>) returns (ok: bool, references: set<string>)
    ensures ok <==> Accepts(ts)
    ensures ok ==> references == References(ts)
  {
    hide Prefix, Lower;
    var stack: seq<Bracket>, last := [], Start;
    references := {};
    for i := 0 to |ts|
      invariant Run(ts, i) == Some(State(stack, last))
      invariant references == set k | 0 <= k < i && ts[k].Name? :: Lower(ts[k].value)
    {
      if Run(ts, i + 1).None? { RejectedStays(ts, i + 1, |ts|); }
      match ts[i] {
        case Open(b) =>
          stack, last := stack + [b], Opened;
        case Close(b) =>
          if stack == [] || stack[|stack| - 1] != b { return false, references; }
          if last in {Start, Opened, Alternative, Repeated} { return false, references; }
          stack, last := stack[..|stack| - 1], Item;
        case Slash =>
          if last != Item { return false, references; }
          last := Alternative;
        case Repeat(v) =>
          if last == Repeated { return false, references; }
          if !Prefix(v) { return false, references; }
          if i + 1 >= |ts| || !StartsElement(ts[i + 1]) { return false, references; }
          last := Repeated;
        case Name(v) =>
          references := references + {Lower(v)};
          last := Item;
        case Literal(_) => last := Item;
        case Numeric(_) => last := Item;
      }
    }
    if stack != [] { return false, references; }
    ok := last !in {Alternative, Repeated, Opened};
  }

  /* ---------- the grammar ---------- */

  /** alternation = concatenation *("/" concatenation) */
  datatype Alternation = OneOf(c: Concatenation) | Or(front: Alternation, c: Concatenation)

  /** concatenation = repetition *(repetition) */
  datatype Concatenation = Only(r: Repetition) | Then(front: Concatenation, r: Repetition)

  /** repetition = [repeat] element */
  datatype Repetition = Once(e: Element) | Times(prefix: string, e: Element)

  /** element = rulename / group / option / char-val / num-val */
  datatype Element = Leaf(t: Token) | Nested(bracket: Bracket, body: Alternation)

  function AltText(a: Alternation): seq<Token> {
    match a
    case OneOf(c) => CatText(c)
    case Or(front, c) => AltText(front) + [Slash] + CatText(c)
  }

  function CatText(c: Concatenation): seq<Token> {
    match c
    case Only(r) => RepText(r)
    case Then(front, r) => CatText(front) + RepText(r)
  }

  function RepText(r: Repetition): seq<Token> {
    match r
    case Once(e) => ElemText(e)
    case Times(p, e) => [Repeat(p)] + ElemText(e)
  }

  function ElemText(e: Element): seq<Token> {
    match e
    case Leaf(t) => [t]
    case Nested(b, body) => [Open(b)] + AltText(body) + [Close(b)]
  }

  /** Leaves are names and values, and prefixes are in order. */
  predicate AltOk(a: Alternation) {
    match a
    case OneOf(c) => CatOk(c)
    case Or(front, c) => AltOk(front) && CatOk(c)
  }

  predicate CatOk(c: Concatenation) {
    match c
    case Only(r) => RepOk(r)
    case Then(front, r) => CatOk(front) && RepOk(r)
  }

  predicate RepOk(r: Repetition) {
    match r
    case Once(e) => ElemOk(e)
    case Times(p, e) => Prefix(p) && ElemOk(e)
  }

  predicate ElemOk(e: Element) {
    match e
    case Leaf(t) => t.Name? || t.Literal? || t.Numeric?
    case Nested(_, body) => AltOk(body)
  }

  /** The tokens are those of a derivation. */
  ghost predicate Derivation(ts: seq<Token>, a: Alternation) {
    AltOk(a) && AltText(a) == ts
  }

  /* ---------- the parser behind the automaton ---------- */

  /** What has been read at one bracket level: the branches before the last slash, the
      concatenation since, and a prefix waiting for its element. */
  datatype Frame = Frame(done: Option<Alternation>, cat: Option<Concatenation>, pending: Option<string>)

  const EMPTY: Frame := Frame(None, None, None)

  datatype Config = Config(outer: seq<(Frame, Bracket)>, frame: Frame)

  function Whole(f: Frame): Alternation
    requires f.cat.Some?
  {
    if f.done.None? then OneOf(f.cat.value) else Or(f.done.value, f.cat.value)
  }

  function Extend(f: Frame, e: Element): Frame {
    var r := Prefixed(f, e);
    Frame(f.done, Some(if f.cat.Some? then Then(f.cat.value, r) else Only(r)), None)
  }

  function Shift(c: Config, ts: seq<Token>, i: nat): Option<Config>
    requires i < |ts|
  {
    var f := c.frame;
    var n := |c.outer|;
    match ts[i]
    case Open(b) => Some(Config(c.outer + [(f, b)], EMPTY))
    case Close(b) =>
      if n == 0 || c.outer[n - 1].1 != b || f.cat.None? || f.pending.Some? then None
      else Some(Config(c.outer[..n - 1], Extend(c.outer[n - 1].0, Nested(b, Whole(f)))))
    case Slash =>
      if f.cat.None? || f.pending.Some? then None else Some(Config(c.outer, Frame(Some(Whole(f)), None, None)))
    case Repeat(v) =>
      if f.pending.Some? || !Prefix(v) || i + 1 >= |ts| || !StartsElement(ts[i + 1]) then None
      else Some(Config(c.outer, f.(pending := Some(v))))
    case _ => Some(Config(c.outer, Extend(f, Leaf(ts[i]))))
  }

  function Parse(c: Config, ts: seq<Token>, i: nat, j: nat): Option<Config>
    requires i <= j <= |ts|
    decreases j - i
  {
    if i == j then Some(c)
    else
      var next := Shift(c, ts, i);
      if next.None? then None else Parse(next.value, ts, i + 1, j)
  }

  /* ---------- the automaton is the parser, seen from outside ---------- */

  function Brackets(outer: seq<(Frame, Bracket)>): seq<Bracket> {
    seq(|outer|, i requires 0 <= i < |outer| => outer[i].1)
  }

  function Seen(c: Config): State {
    State(Brackets(c.outer),
          if c.frame.pending.Some? then Repeated
          else if c.frame.cat.Some? then Item
          else if c.frame.done.Some? then Alternative
          else if c.outer == [] then Start else Opened)
  }

  function SeenOption(c: Option<Config>): Option<State> {
    if c.None? then None else Some(Seen(c.value))
  }

  lemma StepIsShift(c: Config, ts: seq<Token>, i: nat)
    requires i < |ts|
    ensures Step(Seen(c), ts, i) == SeenOption(Shift(c, ts, i))
  {
    hide Prefix;
    var n := |c.outer|;
    match ts[i]
    case Open(b) => assert Brackets(c.outer + [(c.frame, b)]) == Brackets(c.outer) + [b];
    case Close(b) => assert n > 0 ==> Brackets(c.outer[..n - 1]) == Brackets(c.outer)[..n - 1];
    case _ =>
  }

  lemma {:induction false} ParseSplits(c: Config, ts: seq<Token>, i: nat, j: nat, k: nat)
    requires i <= j <= k <= |ts|
    ensures Parse(c, ts, i, k) == (var d := Parse(c, ts, i, j); if d.None? then None else Parse(d.value, ts, j, k))
    decreases j - i
  {
    hide Shift;
    if i < j {
      var next := Shift(c, ts, i);
      if next.Some? { ParseSplits(next.value, ts, i + 1, j, k); }
    }
  }

  const FRESH: Config := Config([], EMPTY)

  lemma {:induction false} RunIsParse(ts: seq<Token>, i: nat)
    requires i <= |ts|
    ensures Run(ts, i) == SeenOption(Parse(FRESH, ts, 0, i))
  {
    hide Shift, Step;
    if i == 0 {
      assert Brackets([]) == [];
    } else {
      RunIsParse(ts, i - 1);
      ParseSplits(FRESH, ts, 0, i - 1, i);
      var d := Parse(FRESH, ts, 0, i - 1);
      if d.Some? {
        StepIsShift(d.value, ts, i - 1);
        assert Parse(d.value, ts, i - 1, i) == Shift(d.value, ts, i - 1) by { OneShift(d.value, ts, i - 1); }
      }
    }
  }

  lemma OneShift(c: Config, ts: seq<Token>, i: nat)
    requires i < |ts|
    ensures Parse(c, ts, i, i + 1) == Shift(c, ts, i)
  {
    hide Shift;
    var next := Shift(c, ts, i);
    assert next.Some? ==> Parse(next.value, ts, i + 1, i + 1) == next;
  }

  /* ---------- what has been parsed is what has been read ---------- */

  function FrameText(f: Frame): seq<Token> {
    (if f.done.Some? then AltText(f.done.value) + [Slash] else []) +
    (if f.cat.Some? then CatText(f.cat.value) else []) +
    (if f.pending.Some? then [Repeat(f.pending.value)] else [])
  }

  predicate FrameOk(f: Frame) {
    && (f.done.Some? ==> AltOk(f.done.value)) && (f.cat.Some? ==> CatOk(f.cat.value))
    && (f.pending.Some? ==> Prefix(f.pending.value))
  }

  function OuterText(outer: seq<(Frame, Bracket)>): seq<Token> {
    if outer == [] then []
    else OuterText(outer[..|outer| - 1]) + FrameText(outer[|outer| - 1].0) + [Open(outer[|outer| - 1].1)]
  }

  function Text(c: Config): seq<Token> {
    OuterText(c.outer) + FrameText(c.frame)
  }

  ghost predicate ConfigOk(c: Config) {
    FrameOk(c.frame) && forall i :: 0 <= i < |c.outer| ==> FrameOk(c.outer[i].0)
  }

  lemma WholeText(f: Frame)
    requires f.cat.Some? && f.pending.None?
    ensures AltText(Whole(f)) == FrameText(f) && (FrameOk(f) ==> AltOk(Whole(f)))
  {
  }

  function Prefixed(f: Frame, e: Element): Repetition {
    if f.pending.Some? then Times(f.pending.value, e) else Once(e)
  }

  lemma ExtendOk(f: Frame, e: Element)
    requires FrameOk(f) && ElemOk(e)
    ensures FrameOk(Extend(f, e))
  {
    hide Prefix;
    var r := Prefixed(f, e);
    assert RepOk(r);
    assert CatOk(if f.cat.Some? then Then(f.cat.value, r) else Only(r));
  }

  lemma Regrouped(a: seq<Token>, b: seq<Token>, c: seq<Token>, d: seq<Token>)
    ensures a + (b + (c + d)) == a + b + c + d
  {
  }

  lemma CatTextGrows(cat: Option<Concatenation>, r: Repetition)
    ensures CatText(if cat.Some? then Then(cat.value, r) else Only(r)) ==
            (if cat.Some? then CatText(cat.value) else []) + RepText(r)
  {
  }

  lemma RepTextGrows(f: Frame, e: Element)
    ensures RepText(Prefixed(f, e)) == (if f.pending.Some? then [Repeat(f.pending.value)] else []) + ElemText(e)
  {
  }

  lemma ExtendText(f: Frame, e: Element)
    ensures FrameText(Extend(f, e)) == FrameText(f) + ElemText(e)
  {
    hide CatText, RepText, ElemText, AltText;
    var d := if f.done.Some? then AltText(f.done.value) + [Slash] else [];
    var k := if f.cat.Some? then CatText(f.cat.value) else [];
    var q := if f.pending.Some? then [Repeat(f.pending.value)] else [];
    RepTextGrows(f, e);
    CatTextGrows(f.cat, Prefixed(f, e));
    Regrouped(d, k, q, ElemText(e));
  }

  lemma ShiftReads(c: Config, ts: seq<Token>, i: nat)
    requires i < |ts| && ConfigOk(c) && Shift(c, ts, i).Some?
    ensures var d := Shift(c, ts, i).value; ConfigOk(d) && Text(d) == Text(c) + [ts[i]]
  {
    hide Prefix, FrameText, AltText, FrameOk, AltOk;
    var f, n, d := c.frame, |c.outer|, Shift(c, ts, i).value;
    match ts[i]
    case Open(b) =>
      assert (c.outer + [(f, b)])[..n] == c.outer;
      EmptyText();
    case Close(b) =>
      CloseReads(c, ts, i);
    case Slash =>
      WholeText(f);
      SlashText(Whole(f));
    case Repeat(v) =>
      PendingText(f, v);
    case _ =>
      ExtendText(f, Leaf(ts[i]));
      ExtendOk(f, Leaf(ts[i]));
  }

  lemma CloseReads(c: Config, ts: seq<Token>, i: nat)
    requires i < |ts| && ts[i].Close? && ConfigOk(c) && Shift(c, ts, i).Some?
    ensures var d := Shift(c, ts, i).value; ConfigOk(d) && Text(d) == Text(c) + [ts[i]]
  {
    hide Prefix, FrameText, AltText, FrameOk, AltOk;
    var f, n, b := c.frame, |c.outer|, ts[i].bracket;
    var g := c.outer[n - 1].0;
    WholeText(f);
    ExtendText(g, Nested(b, Whole(f)));
    ExtendOk(g, Nested(b, Whole(f)));
    var outer := OuterText(c.outer[..n - 1]);
    assert Text(c) == outer + FrameText(g) + [Open(b)] + FrameText(f);
    assert ElemText(Nested(b, Whole(f))) == [Open(b)] + FrameText(f) + [Close(b)];
    assert outer + (FrameText(g) + ([Open(b)] + FrameText(f) + [Close(b)])) ==
           outer + FrameText(g) + [Open(b)] + FrameText(f) + [Close(b)];
  }

  lemma EmptyText()
    ensures FrameText(EMPTY) == [] && FrameOk(EMPTY)
  {
  }

  lemma SlashText(a: Alternation)
    ensures FrameText(Frame(Some(a), None, None)) == AltText(a) + [Slash]
    ensures AltOk(a) ==> FrameOk(Frame(Some(a), None, None))
  {
  }

  lemma PendingText(f: Frame, v: string)
    requires f.pending.None?
    ensures FrameText(f.(pending := Some(v))) == FrameText(f) + [Repeat(v)]
    ensures FrameOk(f) && Prefix(v) ==> FrameOk(f.(pending := Some(v)))
  {
  }

  lemma {:induction false} ParseReads(ts: seq<Token>, i: nat)
    requires i <= |ts| && Parse(FRESH, ts, 0, i).Some?
    ensures var d := Parse(FRESH, ts, 0, i).value; ConfigOk(d) && Text(d) == ts[..i]
  {
    hide Shift, Text, ConfigOk;
    if i == 0 {
      FreshText();
    } else {
      ParseSplits(FRESH, ts, 0, i - 1, i);
      ParseReads(ts, i - 1);
      var d := Parse(FRESH, ts, 0, i - 1).value;
      OneShift(d, ts, i - 1);
      ShiftReads(d, ts, i - 1);
      assert ts[..i] == ts[..i - 1] + [ts[i - 1]];
    }
  }

  lemma FreshText()
    ensures ConfigOk(FRESH) && Text(FRESH) == []
  {
  }

  /* ---------- every derivation is parsed back ---------- */

  /** ts holds this text from i on. */
  ghost predicate Holds(ts: seq<Token>, i: nat, text: seq<Token>) {
    i + |text| <= |ts| && ts[i..i + |text|] == text
  }

  lemma HoldsParts(ts: seq<Token>, i: nat, a: seq<Token>, b: seq<Token>)
    requires Holds(ts, i, a + b)
    ensures Holds(ts, i, a) && Holds(ts, i + |a|, b)
  {
    var text := ts[i..i + |a + b|];
    assert ts[i..i + |a|] == text[..|a|] && ts[i + |a|..i + |a| + |b|] == text[|a|..];
  }

  lemma ElemStarts(e: Element)
    requires ElemOk(e)
    ensures |ElemText(e)| > 0 && StartsElement(ElemText(e)[0])
  {
  }

  lemma {:induction false} ElemParses(c: Config, ts: seq<Token>, i: nat, e: Element)
    requires ElemOk(e) && Holds(ts, i, ElemText(e))
    ensures Parse(c, ts, i, i + |ElemText(e)|) == Some(Config(c.outer, Extend(c.frame, e)))
    decreases e
  {
    hide Prefix, Holds;
    var n := i + |ElemText(e)|;
    match e
    case Leaf(t) =>
      HoldsOne(ts, i, t);
      OneShift(c, ts, i);
    case Nested(b, body) =>
      var inner := AltText(body);
      HoldsParts(ts, i, [Open(b)] + inner, [Close(b)]);
      HoldsParts(ts, i, [Open(b)], inner);
      HoldsOne(ts, i, Open(b));
      HoldsOne(ts, n - 1, Close(b));
      var c1 := Config(c.outer + [(c.frame, b)], EMPTY);
      OneShift(c, ts, i);
      var f := AltParses(c1, ts, i + 1, body);
      var c2 := Config(c1.outer, f);
      OneShift(c2, ts, n - 1);
      assert c1.outer[..|c.outer|] == c.outer;
      ParseSplits(c, ts, i, i + 1, n);
      ParseSplits(c1, ts, i + 1, n - 1, n);
  }

  lemma HoldsOne(ts: seq<Token>, i: nat, t: Token)
    requires Holds(ts, i, [t])
    ensures i < |ts| && ts[i] == t
  {
  }

  lemma {:induction false} RepParses(c: Config, ts: seq<Token>, i: nat, r: Repetition)
    requires RepOk(r) && Holds(ts, i, RepText(r)) && c.frame.pending.None?
    ensures Parse(c, ts, i, i + |RepText(r)|) ==
            Some(Config(c.outer, Frame(c.frame.done, Some(if c.frame.cat.Some? then Then(c.frame.cat.value, r) else Only(r)), None)))
    decreases r
  {
    hide Prefix, Holds;
    match r
    case Once(e) => ElemParses(c, ts, i, e);
    case Times(p, e) =>
      HoldsParts(ts, i, [Repeat(p)], ElemText(e));
      HoldsOne(ts, i, Repeat(p));
      ElemStarts(e);
      assert ElemText(e) == [ElemText(e)[0]] + ElemText(e)[1..];
      HoldsParts(ts, i + 1, [ElemText(e)[0]], ElemText(e)[1..]);
      HoldsOne(ts, i + 1, ElemText(e)[0]);
      var c1 := Config(c.outer, c.frame.(pending := Some(p)));
      OneShift(c, ts, i);
      ElemParses(c1, ts, i + 1, e);
      ParseSplits(c, ts, i, i + 1, i + |RepText(r)|);
  }

  lemma {:induction false} CatParses(c: Config, ts: seq<Token>, i: nat, k: Concatenation)
    requires CatOk(k) && Holds(ts, i, CatText(k)) && c.frame.cat.None? && c.frame.pending.None?
    ensures Parse(c, ts, i, i + |CatText(k)|) == Some(Config(c.outer, Frame(c.frame.done, Some(k), None)))
    decreases k
  {
    hide Holds, Shift;
    match k
    case Only(r) => RepParses(c, ts, i, r);
    case Then(front, r) =>
      HoldsParts(ts, i, CatText(front), RepText(r));
      CatParses(c, ts, i, front);
      var c1 := Config(c.outer, Frame(c.frame.done, Some(front), None));
      RepParses(c1, ts, i + |CatText(front)|, r);
      ParseSplits(c, ts, i, i + |CatText(front)|, i + |CatText(k)|);
  }

  lemma {:induction false} AltParses(c: Config, ts: seq<Token>, i: nat, a: Alternation) returns (f: Frame)
    requires AltOk(a) && Holds(ts, i, AltText(a)) && c.frame == EMPTY
    ensures Parse(c, ts, i, i + |AltText(a)|) == Some(Config(c.outer, f))
    ensures f.cat.Some? && f.pending.None? && Whole(f) == a
    decreases a
  {
    hide Holds;
    match a
    case OneOf(k) =>
      CatParses(c, ts, i, k);
      f := Frame(None, Some(k), None);
    case Or(front, k) =>
      var n := |AltText(front)|;
      HoldsParts(ts, i, AltText(front) + [Slash], CatText(k));
      HoldsParts(ts, i, AltText(front), [Slash]);
      HoldsOne(ts, i + n, Slash);
      var g := AltParses(c, ts, i, front);
      var c1 := Config(c.outer, g);
      var c2 := Config(c.outer, Frame(Some(front), None, None));
      OneShift(c1, ts, i + n);
      CatParses(c2, ts, i + n + 1, k);
      f := Frame(Some(front), Some(k), None);
      ParseSplits(c, ts, i, i + n, i + |AltText(a)|);
      ParseSplits(c1, ts, i + n, i + n + 1, i + |AltText(a)|);
  }

  /* ---------- the two agree ---------- */

  /** The automaton accepts a nonempty production if and only if it has a derivation. */
  lemma AcceptsExactlyTheGrammar(ts: seq<Token>)
    requires ts != []
    ensures Accepts(ts) <==> exists a :: Derivation(ts, a)
  {
    hide Parse, Run, AltText, AltOk;
    RunIsParse(ts, |ts|);
    if Accepts(ts) {
      ParseReads(ts, |ts|);
      var d := Parse(FRESH, ts, 0, |ts|).value;
      assert d.outer == [] && ts[..|ts|] == ts;
      if d.frame == EMPTY { FreshText(); }
      WholeText(d.frame);
      assert Derivation(ts, Whole(d.frame));
    }
    if exists a :: Derivation(ts, a) {
      var a :| Derivation(ts, a);
      assert Holds(ts, 0, AltText(a));
      var f := AltParses(FRESH, ts, 0, a);
    }
  }

  /** A production has at most one derivation. */
  lemma DerivationIsUnique(ts: seq<Token>, a: Alternation, b: Alternation)
    requires Derivation(ts, a) && Derivation(ts, b)
    ensures a == b
  {
    hide Parse, AltText, AltOk;
    assert Holds(ts, 0, AltText(a)) && Holds(ts, 0, AltText(b));
    var f := AltParses(FRESH, ts, 0, a);
    var g := AltParses(FRESH, ts, 0, b);
  }

  /** The rule names at the leaves of a derivation. */
  function AltNames(a: Alternation): set<string> {
    match a
    case OneOf(c) => CatNames(c)
    case Or(front, c) => AltNames(front) + CatNames(c)
  }

  function CatNames(c: Concatenation): set<string> {
    match c
    case Only(r) => ElemNames(r.e)
    case Then(front, r) => CatNames(front) + ElemNames(r.e)
  }

  function ElemNames(e: Element): set<string> {
    match e
    case Leaf(t) => if t.Name? then {Lower(t.value)} else {}
    case Nested(_, body) => AltNames(body)
  }

  lemma ReferencesJoin(s: seq<Token>, t: seq<Token>)
    ensures References(s + t) == References(s) + References(t)
  {
    hide Lower;
    forall x ensures x in References(s + t) <==> x in References(s) + References(t) {
      if x in References(s) {
        var i :| 0 <= i < |s| && s[i].Name? && Lower(s[i].value) == x;
        assert (s + t)[i] == s[i];
      }
      if x in References(t) {
        var i :| 0 <= i < |t| && t[i].Name? && Lower(t[i].value) == x;
        assert (s + t)[|s| + i] == t[i];
      }
      if x in References(s + t) {
        var i :| 0 <= i < |s + t| && (s + t)[i].Name? && Lower((s + t)[i].value) == x;
        if i < |s| { assert s[i] == (s + t)[i]; } else { assert t[i - |s|] == (s + t)[i]; }
      }
    }
  }

  lemma {:induction false} AltReferences(a: Alternation)
    ensures References(AltText(a)) == AltNames(a)
  {
    hide References;
    match a
    case OneOf(c) => CatReferences(c);
    case Or(front, c) =>
      AltReferences(front);
      CatReferences(c);
      NoReference(Slash);
      ReferencesJoin(AltText(front), [Slash]);
      ReferencesJoin(AltText(front) + [Slash], CatText(c));
  }

  lemma {:induction false} CatReferences(c: Concatenation)
    ensures References(CatText(c)) == CatNames(c)
  {
    hide References;
    match c
    case Only(r) => RepReferences(r);
    case Then(front, r) =>
      CatReferences(front);
      RepReferences(r);
      ReferencesJoin(CatText(front), RepText(r));
  }

  lemma {:induction false} RepReferences(r: Repetition)
    ensures References(RepText(r)) == ElemNames(r.e)
  {
    hide References;
    ElemReferences(r.e);
    if r.Times? {
      NoReference(Repeat(r.prefix));
      ReferencesJoin([Repeat(r.prefix)], ElemText(r.e));
    }
  }

  lemma {:induction false} ElemReferences(e: Element)
    ensures References(ElemText(e)) == ElemNames(e)
  {
    match e
    case Leaf(t) => assert [t][0] == t;
    case Nested(b, body) =>
      hide References;
      AltReferences(body);
      NoReference(Open(b));
      NoReference(Close(b));
      ReferencesJoin([Open(b)], AltText(body));
      ReferencesJoin([Open(b)] + AltText(body), [Close(b)]);
  }

  lemma NoReference(t: Token)
    ensures !t.Name? ==> References([t]) == {}
  {
  }

  /** The names returned for an accepted production are those at the leaves of its derivation. */
  lemma ReferencesAreTheLeaves(ts: seq<Token>, a: Alternation)
    requires Derivation(ts, a)
    ensures References(ts) == AltNames(a)
  {
    AltReferences(a);
  }
}
