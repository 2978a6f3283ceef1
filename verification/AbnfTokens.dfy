/**
 The tokens of ABNF productions, written out character by character, and that the lexer takes the
 longest of them wherever it stands.
 */
module AbnfTokens {
  import opened Datalog
  import opened Abnf
  import opened AbnfLexer

  const DIGITS: string := "0123456789"
  const HEX: string := "0123456789abcdefABCDEF"
  const LOWER: string := "abcdefghijklmnopqrstuvwxyz"
  const UPPER: string := "ABCDEFGHIJKLMNOPQRSTUVWXYZ"

  ghost predicate RepeatForm(v: string) {
    && v != "" && (forall i :: 0 <= i < |v| ==> v[i] in DIGITS || v[i] == '*')
    && forall i, j :: 0 <= i < j < |v| ==> v[i] != '*' || v[j] != '*'
  }

  ghost predicate NameForm(v: string) {
    && v != "" && (v[0] in LOWER || v[0] in UPPER)
    && forall i :: 0 <= i < |v| ==> v[i] in LOWER || v[i] in UPPER || v[i] in DIGITS || v[i] == '-'
  }

  ghost predicate LiteralForm(v: string) {
    && |v| >= 4 && v[0] == '%' && v[1] in "sS" && v[2] == '"' && v[|v| - 1] == '"'
    && forall i :: 3 <= i < |v| - 1 ==> v[i] != '"'
  }

  /** Groups of hexadecimal digits from position 2 on, none of them empty. */
  ghost predicate NumericForm(v: string) {
    && |v| >= 3 && v[0] == '%' && v[1] in "xX" && v[2] in HEX && v[|v| - 1] in HEX
    && (forall i :: 2 <= i < |v| ==> v[i] in HEX || v[i] == '-' || v[i] == '.')
    && forall i :: 2 <= i < |v| - 1 ==> v[i] in HEX || v[i + 1] in HEX
  }

  ghost predicate Form(t: Token) {
    match t
    case Repeat(v) => RepeatForm(v)
    case Name(v) => NameForm(v)
    case Literal(v) => LiteralForm(v)
    case Numeric(v) => NumericForm(v)
    case _ => true
  }

  /* ---------- the characters ---------- */

  lemma DigitsAre(c: char)
    ensures IsDigit(c) <==> c in DIGITS
  {
    if IsDigit(c) { assert DIGITS[(c - '0') as int] == c; }
  }

  lemma HexAre(c: char)
    ensures IsHex(c) <==> c in HEX
  {
    if '0' <= c <= '9' { assert HEX[(c - '0') as int] == c; }
    if 'a' <= c <= 'f' { assert HEX[10 + (c - 'a') as int] == c; }
    if 'A' <= c <= 'F' { assert HEX[16 + (c - 'A') as int] == c; }
  }

  lemma LowerAre(c: char)
    ensures 'a' <= c <= 'z' <==> c in LOWER
  {
    if 'a' <= c <= 'z' { assert LOWER[(c - 'a') as int] == c; }
  }

  lemma UpperAre(c: char)
    ensures 'A' <= c <= 'Z' <==> c in UPPER
  {
    if 'A' <= c <= 'Z' { assert UPPER[(c - 'A') as int] == c; }
  }

  lemma CharactersAre(c: char)
    ensures IsDigit(c) <==> c in DIGITS
    ensures IsHex(c) <==> c in HEX
    ensures IsLetter(c) <==> c in LOWER || c in UPPER
    ensures IsNameChar(c) <==> c in LOWER || c in UPPER || c in DIGITS || c == '-'
  {
    DigitsAre(c);
    HexAre(c);
    LowerAre(c);
    UpperAre(c);
  }

  /** References are compared without regard to case: capitals become the small letter of the same
      place in the alphabet, and nothing else changes. */
  lemma LowerFolds(s: string, i: nat)
    requires i < |s|
    ensures |Lower(s)| == |s|
    ensures s[i] !in UPPER ==> Lower(s)[i] == s[i]
    ensures forall k :: 0 <= k < 26 && s[i] == UPPER[k] ==> Lower(s)[i] == LOWER[k]
  {
    UpperAre(s[i]);
    forall k | 0 <= k < 26 && s[i] == UPPER[k] ensures Lower(s)[i] == LOWER[k] { SameLetter(k); }
  }

  lemma SameLetter(k: nat)
    requires k < 26
    ensures UPPER[k] as int == 'A' as int + k && LOWER[k] as int == 'a' as int + k
  {
  }

  /* ---------- what is taken has a form ---------- */

  lemma RepeatTaken(s: string)
    requires RepeatEnd(s) > 0
    ensures RepeatForm(s[..RepeatEnd(s)])
  {
    hide IsDigit, Span;
    var d, n := Span(s, 0, IsDigit), RepeatEnd(s);
    forall i | 0 <= i < n ensures i != d ==> s[i] in DIGITS { CharactersAre(s[i]); }
    assert forall i :: 0 <= i < n && i != d ==> s[i] != '*' by { NoStar(); }
  }

  lemma NoStar()
    ensures '*' !in DIGITS
  {
  }

  lemma NameTaken(s: string)
    requires NameEnd(s) > 0
    ensures NameForm(s[..NameEnd(s)])
  {
    hide IsLetter, IsNameChar, Span;
    CharactersAre(s[0]);
    forall i | 1 <= i < NameEnd(s) ensures IsNameChar(s[i]) && (s[i] in LOWER || s[i] in UPPER || s[i] in DIGITS || s[i] == '-') {
      CharactersAre(s[i]);
    }
  }

  /** Up to h the text is a number, and the digits end there. */
  lemma {:induction false} TailTaken(s: string, h: nat)
    requires h <= |s| && NumericForm(s[..h])
    ensures NumericForm(s[..NumericTail(s, h)])
    decreases |s| - h
  {
    hide IsHex, Span;
    if h < |s| && (s[h] == '-' || s[h] == '.') && Span(s, h + 1, IsHex) > h + 1 {
      var e := Span(s, h + 1, IsHex);
      GroupAdds(s, h, e);
      TailTaken(s, e);
    }
  }

  lemma GroupAdds(s: string, h: nat, e: nat)
    requires h + 1 < e <= |s| && NumericForm(s[..h]) && (s[h] == '-' || s[h] == '.')
    requires forall k :: h + 1 <= k < e ==> IsHex(s[k])
    ensures NumericForm(s[..e])
  {
    hide IsHex;
    var v, w := s[..h], s[..e];
    forall i | h + 1 <= i < e ensures w[i] in HEX { CharactersAre(s[i]); }
    assert forall i :: 0 <= i < h ==> w[i] == v[i];
    assert w[h] == s[h] && v[h - 1] in HEX;
  }

  lemma NumericTaken(s: string)
    requires NumericEnd(s) > 0
    ensures NumericForm(s[..NumericEnd(s)])
  {
    hide IsHex, Span;
    var h := Span(s, 2, IsHex);
    forall i | 2 <= i < h ensures s[i] in HEX { CharactersAre(s[i]); }
    assert NumericForm(s[..h]);
    TailTaken(s, h);
  }

  lemma LiteralTaken(s: string)
    requires StartsLiteral(s) && |s| >= 3 && s[2] == '"' && Span(s, 3, IsNotQuote) < |s|
    ensures LiteralForm(s[..Span(s, 3, IsNotQuote) + 1])
  {
    hide Span;
  }

  /** Whatever the lexer takes is a token of its form. */
  lemma TakenHasForm(s: string)
    requires s != [] && LexOne(s).Some?
    ensures Form(LexOne(s).value.0)
  {
    hide RepeatForm, NameForm, LiteralForm, NumericForm, RepeatEnd, NumericEnd, NameEnd, Span;
    if Mark(s[0]).Some? {
    } else if RepeatEnd(s) > 0 {
      RepeatTaken(s);
    } else if StartsLiteral(s) {
      LiteralTaken(s);
    } else if NumericEnd(s) > 0 {
      NumericTaken(s);
    } else {
      NameTaken(s);
    }
  }

  /* ---------- nothing longer has a form ---------- */

  /** A run is at least as long as any row of its characters. */
  lemma SpanReaches(s: string, i: nat, n: nat, among: char -> bool)
    requires i <= n <= |s| && forall k :: i <= k < n ==> among(s[k])
    ensures Span(s, i, among) >= n
  {
    hide Span;
  }

  lemma RepeatReaches(s: string, v: string)
    requires v <= s && RepeatForm(v)
    ensures RepeatEnd(s) >= |v| && Mark(s[0]).None?
  {
    hide IsDigit, Span;
    forall i | 0 <= i < |v| ensures v[i] == s[i] && (v[i] != '*' ==> IsDigit(s[i])) { CharactersAre(s[i]); }
    CharactersAre('*');
    NoStar();
    if k :| 0 <= k < |v| && v[k] == '*' {
      SpanReaches(s, 0, k, IsDigit);
      assert Span(s, 0, IsDigit) == k;
      SpanReaches(s, k + 1, |v|, IsDigit);
    } else {
      SpanReaches(s, 0, |v|, IsDigit);
    }
    NoMark(s[0]);
  }

  lemma NoMark(c: char)
    requires IsDigit(c) || c == '*' || IsLetter(c)
    ensures Mark(c).None?
  {
  }

  lemma NameReaches(s: string, v: string)
    requires v <= s && NameForm(v)
    ensures NameEnd(s) >= |v| && Mark(s[0]).None? && RepeatEnd(s) == 0 && !StartsLiteral(s) && NumericEnd(s) == 0
  {
    hide IsNameChar, Span, RepeatEnd, NumericEnd;
    CharactersAre(s[0]);
    forall i | 0 <= i < |v| ensures v[i] == s[i] && IsNameChar(s[i]) { CharactersAre(s[i]); }
    SpanReaches(s, 1, |v|, IsNameChar);
    NoMark(s[0]);
    NoRepeat(s);
    NameStart(s);
  }

  lemma LiteralReaches(s: string, v: string)
    requires v <= s && LiteralForm(v)
    ensures StartsLiteral(s) && s[2] == '"' && Span(s, 3, IsNotQuote) == |v| - 1 && Mark(s[0]).None? && RepeatEnd(s) == 0
  {
    hide Span, RepeatEnd;
    assert forall i :: 0 <= i < |v| ==> v[i] == s[i];
    SpanIs(s, 3, |v| - 1, IsNotQuote);
    NoRepeat(s);
  }

  lemma {:induction false} TailReaches(s: string, h: nat, v: string)
    requires v <= s && NumericForm(v) && 2 < h <= |s| && (h < |s| ==> !IsHex(s[h]))
    ensures NumericTail(s, h) >= |v|
    decreases |s| - h
  {
    hide IsHex, Span;
    if h < |v| {
      assert forall i :: 0 <= i < |v| ==> v[i] == s[i];
      CharactersAre(s[h]);
      assert v[h] !in HEX;
      assert h < |v| - 1 && v[h + 1] in HEX;
      CharactersAre(s[h + 1]);
      SpanReaches(s, h + 1, h + 2, IsHex);
      TailReaches(s, Span(s, h + 1, IsHex), v);
    }
  }

  lemma NumericReaches(s: string, v: string)
    requires v <= s && NumericForm(v)
    ensures NumericEnd(s) >= |v| && Mark(s[0]).None? && RepeatEnd(s) == 0 && !StartsLiteral(s)
  {
    hide IsHex, Span, RepeatEnd;
    assert forall i :: 0 <= i < |v| ==> v[i] == s[i];
    NoRepeat(s);
    CharactersAre(s[2]);
    SpanReaches(s, 2, 3, IsHex);
    TailReaches(s, Span(s, 2, IsHex), v);
  }

  /** Wherever some token begins, the lexer takes one, and none that begins there is longer. */
  lemma TakesTheLongest(s: string, u: Token)
    requires s != [] && Form(u) && TextOf(u) <= s
    ensures TextOf(u) != [] && LexOne(s).Some? && |TextOf(u)| <= LexOne(s).value.1
  {
    hide RepeatForm, NameForm, LiteralForm, NumericForm, RepeatEnd, NumericEnd, NameEnd, Span;
    FormIsText(u);
    assert TextOf(u)[0] == s[0];
    match u {
      case Repeat(v) => RepeatReaches(s, v);
      case Name(v) => NameReaches(s, v);
      case Literal(v) => LiteralReaches(s, v);
      case Numeric(v) => NumericReaches(s, v);
      case _ =>
    }
  }

  lemma FormIsText(u: Token)
    requires Form(u)
    ensures TextOf(u) != [] && TextOf(u)[0] != ' ' && TextOf(u)[0] != '\t'
  {
    hide IsDigit, IsLetter;
    match u {
      case Repeat(v) => CharactersAre(v[0]); Printable(v[0]);
      case Name(v) => CharactersAre(v[0]); Printable(v[0]);
      case _ =>
    }
  }

  lemma Printable(c: char)
    requires IsDigit(c) || IsLetter(c) || c == '*'
    ensures c != ' ' && c != '\t'
  {
  }

  /** A text is of one kind at most. */
  lemma OneKind(t: Token, u: Token)
    requires Form(t) && Form(u) && TextOf(t) == TextOf(u)
    ensures t == u
  {
    hide RepeatForm, NameForm, LiteralForm, NumericForm, RepeatEnd, NumericEnd, NameEnd, Span;
    var s := TextOf(t);
    FormIsText(t);
    ReadsItself(t);
    ReadsItself(u);
  }

  lemma ReadsItself(t: Token)
    requires Form(t) && TextOf(t) != []
    ensures LexOne(TextOf(t)) == Some((t, |TextOf(t)|))
  {
    hide RepeatForm, NameForm, LiteralForm, NumericForm, RepeatEnd, NumericEnd, NameEnd, Span;
    var s := TextOf(t);
    assert s[..|s|] == s;
    match t {
      case Repeat(v) => RepeatReaches(s, v);
      case Name(v) => NameReaches(s, v);
      case Literal(v) => LiteralReaches(s, v);
      case Numeric(v) => NumericReaches(s, v);
      case _ =>
    }
  }

  /** A text that a blank or the end follows is read as one token of a kind if and only if it is
      of that form. */
  lemma ReadAsOne(t: Token, r: string)
    requires TextOf(t) != [] && Stops(r)
    ensures LexOne(TextOf(t) + r) == Some((t, |TextOf(t)|)) <==> Form(t)
  {
    hide LexOne, Form;
    var v := TextOf(t);
    if LexOne(v + r) == Some((t, |v|)) { TakenHasForm(v + r); }
    if Form(t) {
      ReadsItself(t);
      LexCut(v, r);
      assert v[..|v|] == v;
    }
  }

  /* ---------- whole texts ---------- */

  /** At position i begins the token, and none that begins there is longer. */
  ghost predicate Longest(s: string, i: nat, t: Token)
    requires i <= |s|
  {
    Form(t) && TextOf(t) <= s[i..] && forall u :: Form(u) && TextOf(u) <= s[i..] ==> |TextOf(u)| <= |TextOf(t)|
  }

  ghost predicate Gap(s: string, i: nat, k: nat) {
    i <= k <= |s| && forall j :: i <= j < k ==> s[j] == ' ' || s[j] == '\t'
  }

  /** From position i on the text is the given tokens, each where its column says and as long as
      it can be, with nothing but blanks and tabs between. */
  ghost predicate Munches(s: string, i: nat, ls: seq<Lexeme>)
    requires i <= |s|
    decreases |ls|
  {
    if ls == [] then Gap(s, i, |s|)
    else
      var k, v := ls[0].column - 1, TextOf(ls[0].token);
      k >= 0 && Gap(s, i, k) && Longest(s, k, ls[0].token) && Munches(s, k + |v|, ls[1..])
  }

  lemma LongestIsLexed(s: string, i: nat, t: Token)
    requires i < |s|
    ensures LexOne(s[i..]) == Some((t, |TextOf(t)|)) <==> Longest(s, i, t)
  {
    hide LexOne, Form;
    var rest := s[i..];
    if LexOne(rest) == Some((t, |TextOf(t)|)) {
      TakenHasForm(rest);
      forall u | Form(u) && TextOf(u) <= rest ensures |TextOf(u)| <= |TextOf(t)| { TakesTheLongest(rest, u); }
    }
    if Longest(s, i, t) {
      TakesTheLongest(rest, t);
      var u, n := LexOne(rest).value.0, LexOne(rest).value.1;
      TakenHasForm(rest);
      assert TextOf(u) == rest[..n] && |TextOf(u)| <= |TextOf(t)|;
      assert TextOf(t) == rest[..n];
      OneKind(t, u);
    }
  }

  lemma MunchesBlank(s: string, i: nat, ls: seq<Lexeme>)
    requires i < |s| && (s[i] == ' ' || s[i] == '\t')
    ensures Munches(s, i, ls) <==> Munches(s, i + 1, ls)
  {
    hide Form, TextOf, Longest;
    if ls != [] { BlankIsNoToken(s, i, ls[0].token); }
  }

  lemma BlankIsNoToken(s: string, i: nat, t: Token)
    requires i < |s| && (s[i] == ' ' || s[i] == '\t')
    ensures !Longest(s, i, t)
  {
    hide Form, TextOf;
    if Form(t) { FormIsText(t); }
  }

  lemma LexStep(s: string, i: nat)
    requires i < |s|
    ensures var rest := s[i..];
            && (IsBlank(s[i]) ==> LexAll(rest, i + 1) == LexAll(s[i + 1..], i + 2))
            && (!IsBlank(s[i]) && LexOne(rest).None? ==> LexAll(rest, i + 1) == None)
            && (!IsBlank(s[i]) && LexOne(rest).Some? ==>
                  var n := LexOne(rest).value.1;
                  i + n <= |s| && LexAll(rest, i + 1) == After([Lexeme(LexOne(rest).value.0, i + 1)], LexAll(s[i + n..], i + n + 1)))
  {
    hide LexOne, IsBlank;
    var rest := s[i..];
    assert rest[1..] == s[i + 1..];
    if LexOne(rest).Some? { assert rest[LexOne(rest).value.1..] == s[i + LexOne(rest).value.1..]; }
  }

  /** The lexer gives exactly the one way to read a text as tokens of their forms, each as long
      as it can be, and fails exactly if there is none. */
  lemma {:induction false} LexesExactly(s: string, i: nat, ls: seq<Lexeme>)
    requires i <= |s|
    ensures LexAll(s[i..], i + 1) == Some(ls) <==> Munches(s, i, ls)
    decreases |s| - i
  {
    hide LexOne, Form, LexAll, TextOf, Longest;
    if i == |s| {
      NothingLeft(s, ls);
    } else if s[i] == ' ' || s[i] == '\t' {
      LexStep(s, i);
      MunchesBlank(s, i, ls);
      LexesExactly(s, i + 1, ls);
    } else {
      LexStep(s, i);
      if ls != [] { LongestIsLexed(s, i, ls[0].token); }
      if ls != [] && ls[0].column == i + 1 && LexOne(s[i..]) == Some((ls[0].token, |TextOf(ls[0].token)|)) {
        LexesExactly(s, i + |TextOf(ls[0].token)|, ls[1..]);
        assert ls == [ls[0]] + ls[1..];
      }
    }
  }

  lemma NothingLeft(s: string, ls: seq<Lexeme>)
    ensures LexAll(s[|s|..], |s| + 1) == Some(ls) <==> Munches(s, |s|, ls)
  {
    if ls != [] && ls[0].column - 1 == |s| && Longest(s, |s|, ls[0].token) { FormIsText(ls[0].token); }
  }
}
