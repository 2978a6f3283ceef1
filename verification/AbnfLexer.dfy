/**
 The lexer of ABNF productions. Its tokens tile the text with nothing but blanks in between, and
 writing them one blank apart and reading them again gives the same tokens.
 */
module AbnfLexer {
  import opened Datalog
  import opened Abnf

  datatype Lexeme = Lexeme(token: Token, column: nat)

  predicate IsBlank(c: char) { c == ' ' || c == '\t' }

  predicate IsLetter(c: char) { 'a' <= c <= 'z' || 'A' <= c <= 'Z' }

  predicate IsHex(c: char) { IsDigit(c) || 'a' <= c <= 'f' || 'A' <= c <= 'F' }

  predicate IsNameChar(c: char) { IsLetter(c) || IsDigit(c) || c == '-' }

  predicate IsNotQuote(c: char) { c != '"' }

  /** The text of a token. */
  function TextOf(t: Token): string {
    match t
    case Open(b) => if b == Round then "(" else "["
    case Close(b) => if b == Round then ")" else "]"
    case Slash => "/"
    case Repeat(v) => v
    case Name(v) => v
    case Literal(v) => v
    case Numeric(v) => v
  }

  /* ---------- longest matches ---------- */

  /** Where the longest run of a class of characters from i on ends. */
  function Span(s: string, i: nat, among: char -> bool): (e: nat)
    requires i <= |s|
    ensures i <= e <= |s| && (forall k :: i <= k < e ==> among(s[k])) && (e < |s| ==> !among(s[e]))
    decreases |s| - i
  {
    if i < |s| && among(s[i]) then Span(s, i + 1, among) else i
  }

  /** A repetition prefix at the start: digits, and perhaps a star and digits. */
  function RepeatEnd(s: string): (e: nat)
    ensures e <= |s|
  {
    var d := Span(s, 0, IsDigit);
    if d < |s| && s[d] == '*' then Span(s, d + 1, IsDigit) else d
  }

  /** Further groups of hexadecimal digits after a separator. */
  function NumericTail(s: string, h: nat): (e: nat)
    requires h <= |s|
    ensures h <= e <= |s|
    decreases |s| - h
  {
    if h < |s| && (s[h] == '-' || s[h] == '.') && Span(s, h + 1, IsHex) > h + 1 then NumericTail(s, Span(s, h + 1, IsHex)) else h
  }

  /** A numeric value at the start, or zero. */
  function NumericEnd(s: string): (e: nat)
    ensures e <= |s|
  {
    if |s| < 2 || s[0] != '%' || (s[1] != 'x' && s[1] != 'X') then 0
    else
      var h := Span(s, 2, IsHex);
      if h == 2 then 0 else NumericTail(s, h)
  }

  function NameEnd(s: string): (e: nat)
    ensures e <= |s|
  {
    if s != [] && IsLetter(s[0]) then Span(s, 1, IsNameChar) else 0
  }

  predicate StartsLiteral(s: string) {
    |s| >= 2 && s[0] == '%' && (s[1] == 's' || s[1] == 'S')
  }

  function Mark(c: char): Option<Token> {
    if c == '/' then Some(Slash)
    else if c == '(' then Some(Open(Round))
    else if c == ')' then Some(Close(Round))
    else if c == '[' then Some(Open(Square))
    else if c == ']' then Some(Close(Square))
    else None
  }

  /** The token at the start of a text that starts with no blank, and its length. */
  function LexOne(s: string): (r: Option<(Token, nat)>)
    requires s != []
    ensures r.Some? ==> 0 < r.value.1 <= |s| && TextOf(r.value.0) == s[..r.value.1]
  {
    if Mark(s[0]).Some? then Some((Mark(s[0]).value, 1))
    else if RepeatEnd(s) > 0 then Some((Repeat(s[..RepeatEnd(s)]), RepeatEnd(s)))
    else if StartsLiteral(s) then
      if |s| < 3 || s[2] != '"' then None
      else
        var q := Span(s, 3, IsNotQuote);
        if q == |s| then None else Some((Literal(s[..q + 1]), q + 1))
    else if NumericEnd(s) > 0 then Some((Numeric(s[..NumericEnd(s)]), NumericEnd(s)))
    else if NameEnd(s) > 0 then Some((Name(s[..NameEnd(s)]), NameEnd(s)))
    else None
  }

  function LexAll(s: string, column: nat): Option<seq<Lexeme>>
    decreases s
  {
    if s == [] then Some([])
    else if IsBlank(s[0]) then LexAll(s[1..], column + 1)
    else
      var r := LexOne(s);
      if r.None? then None
      else
        var rest := LexAll(s[r.value.1..], column + r.value.1);
        if rest.None? then None else Some([Lexeme(r.value.0, column)] + rest.value)
  }

  function After(ls: seq<Lexeme>, rest: Option<seq<Lexeme>>): Option<seq<Lexeme>> {
    if rest.None? then None else Some(ls + rest.value)
  }

  lemma AfterNothing(rest: Option<seq<Lexeme>>)
    ensures After([], rest) == rest
  {
    if rest.Some? { assert [] + rest.value == rest.value; }
  }

  lemma AfterMoves(ls: seq<Lexeme>, l: Lexeme, rest: Option<seq<Lexeme>>)
    ensures After(ls, After([l], rest)) == After(ls + [l], rest)
  {
    if rest.Some? { assert ls + ([l] + rest.value) == ls + [l] + rest.value; }
  }

  /** One forward pass; a production without any token is refused. */
  method Tokenize(s: string) returns (ok: bool, ls: seq<Lexeme>)
    ensures ok <==> LexAll(s, 1).Some? && LexAll(s, 1).value != []
    ensures ok ==> ls == LexAll(s, 1).value
  {
    hide LexOne, IsBlank;
    ls := [];
    var pos := 0;
    assert s[0..] == s;
    AfterNothing(LexAll(s, 1));
    while pos < |s|
      invariant pos <= |s|
      invariant LexAll(s, 1) == After(ls, LexAll(s[pos..], pos + 1))
    {
      var rest := s[pos..];
      if IsBlank(s[pos]) {
        assert rest[1..] == s[pos + 1..];
        pos := pos + 1;
      } else {
        var r := LexOne(rest);
        if r.None? { return false, ls; }
        assert rest[r.value.1..] == s[pos + r.value.1..];
        AfterMoves(ls, Lexeme(r.value.0, pos + 1), LexAll(s[pos + r.value.1..], pos + 1 + r.value.1));
        ls := ls + [Lexeme(r.value.0, pos + 1)];
        pos := pos + r.value.1;
      }
    }
    ok := ls != [];
  }

  /* ---------- tiling ---------- */

  predicate Blank(s: string) { forall i :: 0 <= i < |s| ==> IsBlank(s[i]) }

  /** From position i on the text is the given tokens at their columns, and blanks. */
  ghost predicate Tiles(s: string, i: nat, ls: seq<Lexeme>)
    requires i <= |s|
    decreases |ls|
  {
    if ls == [] then Blank(s[i..])
    else
      var k, v := ls[0].column - 1, TextOf(ls[0].token);
      && i <= k && v != [] && k + |v| <= |s| && Blank(s[i..k]) && s[k..k + |v|] == v
      && Tiles(s, k + |v|, ls[1..])
  }

  lemma TilesBlank(s: string, i: nat, ls: seq<Lexeme>)
    requires i < |s| && IsBlank(s[i]) && Tiles(s, i + 1, ls)
    ensures Tiles(s, i, ls)
  {
    hide IsBlank;
    if ls == [] {
      assert s[i..] == [s[i]] + s[i + 1..];
    } else {
      var k := ls[0].column - 1;
      assert s[i..k] == [s[i]] + s[i + 1..k];
    }
  }

  lemma TilesToken(s: string, i: nat, t: Token, ls: seq<Lexeme>)
    requires TextOf(t) != [] && i + |TextOf(t)| <= |s| && s[i..i + |TextOf(t)|] == TextOf(t)
    requires Tiles(s, i + |TextOf(t)|, ls)
    ensures Tiles(s, i, [Lexeme(t, i + 1)] + ls)
  {
    hide TextOf, IsBlank;
    assert ([Lexeme(t, i + 1)] + ls)[1..] == ls;
  }

  /** The tokens of a text tile it. */
  lemma {:induction false} TokensTile(s: string, i: nat)
    requires i <= |s| && LexAll(s[i..], i + 1).Some?
    ensures Tiles(s, i, LexAll(s[i..], i + 1).value)
    decreases |s| - i
  {
    hide IsBlank, LexOne, TextOf;
    var rest := s[i..];
    if rest == [] {
    } else if IsBlank(rest[0]) {
      assert rest[1..] == s[i + 1..];
      TokensTile(s, i + 1);
      TilesBlank(s, i, LexAll(rest, i + 1).value);
    } else {
      var n := LexOne(rest).value.1;
      assert rest[n..] == s[i + n..] && rest[..n] == s[i..i + n];
      TokensTile(s, i + n);
      TilesToken(s, i, LexOne(rest).value.0, LexAll(s[i + n..], i + n + 1).value);
    }
  }

  /* ---------- reading tokens back ---------- */

  /** What may follow a token without changing it: the end, or a blank. */
  predicate Stops(r: string) {
    r == [] || r[0] == ' '
  }

  lemma {:induction false} SpanIs(s: string, i: nat, e: nat, among: char -> bool)
    requires i <= e <= |s| && (forall k :: i <= k < e ==> among(s[k])) && (e < |s| ==> !among(s[e]))
    ensures Span(s, i, among) == e
  {
  }

  /** A run inside the part that is kept ends where it ended. */
  lemma SpanCut(s: string, i: nat, n: nat, r: string, among: char -> bool)
    requires i <= n <= |s| && Span(s, i, among) <= n && Stops(r) && !among(' ')
    ensures Span(s[..n] + r, i, among) == Span(s, i, among)
  {
    var t, e := s[..n] + r, Span(s, i, among);
    assert forall k :: 0 <= k < n ==> t[k] == s[k];
    SpanIs(t, i, e, among);
  }

  lemma RepeatCut(s: string, r: string)
    requires Stops(r)
    ensures var n := RepeatEnd(s); RepeatEnd(s[..n] + r) == n
  {
    hide Span;
    var n, d := RepeatEnd(s), Span(s, 0, IsDigit);
    var t := s[..n] + r;
    SpanCut(s, 0, n, r, IsDigit);
    if d < |s| && s[d] == '*' {
      assert t[d] == '*';
      SpanCut(s, d + 1, n, r, IsDigit);
    } else {
      assert d < |t| ==> t[d] == ' ';
    }
  }

  lemma {:induction false} TailCut(s: string, h: nat, r: string)
    requires h <= |s| && Stops(r)
    ensures var n := NumericTail(s, h); NumericTail(s[..n] + r, h) == n
    decreases |s| - h
  {
    hide Span;
    var n := NumericTail(s, h);
    var t := s[..n] + r;
    if h < |s| && (s[h] == '-' || s[h] == '.') && Span(s, h + 1, IsHex) > h + 1 {
      assert t[h] == s[h];
      SpanCut(s, h + 1, n, r, IsHex);
      TailCut(s, Span(s, h + 1, IsHex), r);
    } else {
      assert h < |t| ==> t[h] == ' ';
    }
  }

  lemma NumericCut(s: string, r: string)
    requires Stops(r) && NumericEnd(s) > 0
    ensures var n := NumericEnd(s); NumericEnd(s[..n] + r) == n
  {
    hide Span;
    var n, h := NumericEnd(s), Span(s, 2, IsHex);
    var t := s[..n] + r;
    assert t[0] == s[0] && t[1] == s[1];
    SpanCut(s, 2, n, r, IsHex);
    TailCut(s, h, r);
  }

  lemma NameCut(s: string, r: string)
    requires Stops(r) && NameEnd(s) > 0
    ensures var n := NameEnd(s); NameEnd(s[..n] + r) == n
  {
    hide Span;
    SpanCut(s, 1, NameEnd(s), r, IsNameChar);
  }

  lemma LiteralCut(s: string, n: nat, r: string)
    requires StartsLiteral(s) && |s| >= 3 && n == Span(s, 3, IsNotQuote) + 1 <= |s|
    ensures Span(s[..n] + r, 3, IsNotQuote) == n - 1
  {
    var t := s[..n] + r;
    assert forall k :: 0 <= k < n ==> t[k] == s[k];
    SpanIs(t, 3, n - 1, IsNotQuote);
  }

  /** No digit and no star means no repetition prefix. */
  lemma NoRepeat(s: string)
    requires s != []
    ensures RepeatEnd(s) > 0 <==> IsDigit(s[0]) || s[0] == '*'
  {
  }

  /** A token that is cut out and followed by a blank or the end is read as the same token. */
  lemma LexCut(s: string, r: string)
    requires s != [] && LexOne(s).Some? && Stops(r)
    ensures var n := LexOne(s).value.1; LexOne(s[..n] + r) == LexOne(s)
  {
    hide Span, RepeatEnd, NumericEnd, NameEnd;
    var n := LexOne(s).value.1;
    var t := s[..n] + r;
    assert t[0] == s[0] && t[..n] == s[..n];
    NoRepeat(s);
    NoRepeat(t);
    if Mark(s[0]).Some? {
    } else if RepeatEnd(s) > 0 {
      RepeatCut(s, r);
    } else if StartsLiteral(s) {
      LiteralCut(s, n, r);
    } else if NumericEnd(s) > 0 {
      NumericCut(s, r);
      NumericStart(s);
      assert t[1] == s[1];
    } else {
      NameCut(s, r);
      NameStart(s);
      NameStart(t);
    }
  }

  lemma NumericStart(s: string)
    requires NumericEnd(s) > 0
    ensures NumericEnd(s) > 1 && s[0] == '%' && s[1] in {'x', 'X'}
  {
  }

  lemma NameStart(s: string)
    requires s != []
    ensures NameEnd(s) > 0 <==> IsLetter(s[0])
    ensures IsLetter(s[0]) ==> NumericEnd(s) == 0
  {
  }

  function Tokens(ls: seq<Lexeme>): seq<Token> {
    seq(|ls|, i requires 0 <= i < |ls| => ls[i].token)
  }

  /** The values of tokens, one blank apart. */
  function Joined(ts: seq<Token>): string {
    if ts == [] then "" else if |ts| == 1 then TextOf(ts[0]) else TextOf(ts[0]) + " " + Joined(ts[1..])
  }

  /** A token that is read from its own value. */
  ghost predicate Readable(t: Token) {
    TextOf(t) != [] && !IsBlank(TextOf(t)[0]) && forall r :: Stops(r) ==> LexOne(TextOf(t) + r) == Some((t, |TextOf(t)|))
  }

  lemma {:induction false} LexedAreReadable(s: string, column: nat)
    requires LexAll(s, column).Some?
    ensures forall l :: l in LexAll(s, column).value ==> Readable(l.token)
    decreases s
  {
    hide LexOne;
    if s == [] {
    } else if IsBlank(s[0]) {
      LexedAreReadable(s[1..], column + 1);
    } else {
      var t, n := LexOne(s).value.0, LexOne(s).value.1;
      forall r | Stops(r) ensures LexOne(TextOf(t) + r) == Some((t, n)) { LexCut(s, r); }
      assert Readable(t);
      LexedAreReadable(s[n..], column + n);
    }
  }

  /** Readable tokens, written one blank apart, are read back. */
  lemma {:induction false} JoinedReadsBack(ts: seq<Token>, column: nat)
    requires forall t :: t in ts ==> Readable(t)
    ensures LexAll(Joined(ts), column).Some? && Tokens(LexAll(Joined(ts), column).value) == ts
    decreases |ts|
  {
    hide LexOne, TextOf, Readable, LexAll, Tokens, Joined;
    JoinedIs(ts);
    LexNothing(column);
    if ts != [] {
      var t, rest := ts[0], ts[1..];
      var v := TextOf(t);
      assert Readable(t);
      if rest == [] {
        LexNothing(column + |v|);
        ReadableReads(t, "", column);
      } else {
        JoinedReadsBack(rest, column + |v| + 1);
        LexBlank(Joined(rest), column + |v|);
        ReadableReads(t, " " + Joined(rest), column);
      }
      assert ts == [t] + rest;
    }
  }

  lemma JoinedIs(ts: seq<Token>)
    ensures ts == [] ==> Joined(ts) == ""
    ensures ts != [] ==> Joined(ts) == TextOf(ts[0]) + (if ts[1..] == [] then "" else " " + Joined(ts[1..]))
  {
    hide TextOf;
    if |ts| == 1 { assert TextOf(ts[0]) + "" == TextOf(ts[0]); }
  }

  lemma LexNothing(column: nat)
    ensures LexAll("", column) == Some([]) && Tokens([]) == []
  {
  }

  lemma LexBlank(s: string, column: nat)
    ensures LexAll(" " + s, column) == LexAll(s, column + 1)
  {
    hide LexOne;
    assert (" " + s)[1..] == s;
  }

  /** A readable token is the first of any text that starts with its value and then stops. */
  lemma ReadableReads(t: Token, tail: string, column: nat)
    requires Readable(t) && Stops(tail) && LexAll(tail, column + |TextOf(t)|).Some?
    ensures LexAll(TextOf(t) + tail, column) == Some([Lexeme(t, column)] + LexAll(tail, column + |TextOf(t)|).value)
    ensures Tokens(LexAll(TextOf(t) + tail, column).value) == [t] + Tokens(LexAll(tail, column + |TextOf(t)|).value)
  {
    hide LexOne, TextOf;
    var v := TextOf(t);
    assert (v + tail)[|v|..] == tail && (v + tail)[0] == v[0];
    assert LexOne(v + tail) == Some((t, |v|));
  }

  /** Lexing is a round trip up to blanks. */
  lemma LexingRoundTrip(s: string)
    requires LexAll(s, 1).Some?
    ensures var ts := Tokens(LexAll(s, 1).value);
            LexAll(Joined(ts), 1).Some? && Tokens(LexAll(Joined(ts), 1).value) == ts
  {
    var ls := LexAll(s, 1).value;
    LexedAreReadable(s, 1);
    forall t | t in Tokens(ls) ensures Readable(t) {
      var i :| 0 <= i < |ls| && ls[i].token == t;
      assert ls[i] in ls;
    }
    JoinedReadsBack(Tokens(ls), 1);
  }
}
