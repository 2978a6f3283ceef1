/**
 Recognition of UTF-8 by the ranges of its bytes, against the encoding of Unicode scalar values
 of sections 3 and 4 of RFC 3629, and the test for text built on it.
 */
module Utf8 {

  type Byte = x: int | 0 <= x < 256

  /* ---------- the encoding ---------- */

  predicate IsScalar(u: int) {
    0 <= u <= 0xD7FF || 0xE000 <= u <= 0x10FFFF
  }

  type Scalar = u: int | 0 <= u <= 0xD7FF || 0xE000 <= u <= 0x10FFFF

  /** A continuation byte with six bits. */
  function Cont(x: int): (r: Byte)
    ensures 0x80 <= r <= 0xBF && r == 0x80 + x % 64
  {
    0x80 + x % 64
  }

  function Lead(mark: Byte, x: int): Byte
    requires 0 <= mark + x < 256
  {
    mark + x
  }

  function Encode(u: Scalar): (r: seq<Byte>)
    ensures 1 <= |r| <= 4
  {
    if u < 0x80 then [Lead(0, u)]
    else if u < 0x800 then [Lead(0xC0, u / 64), Cont(u)]
    else if u < 0x10000 then [Lead(0xE0, u / 4096), Cont(u / 64), Cont(u)]
    else [Lead(0xF0, u / 262144), Cont(u / 4096), Cont(u / 64), Cont(u)]
  }

  function EncodeAll(us: seq<Scalar>): seq<Byte> {
    if us == [] then [] else Encode(us[0]) + EncodeAll(us[1..])
  }

  /* ---------- recognition ---------- */

  /** The two top bits are one and zero. */
  predicate IsContinuation(c: Byte) {
    c / 64 == 2
  }

  /** The length of the well-formed sequence at i, or zero. */
  function SequenceAt(data: seq<Byte>, i: nat): (n: nat)
    requires i < |data|
    ensures i + n <= |data|
  {
    var c, len := data[i], |data|;
    if c <= 0x7f then 1
    else if 0xc2 <= c <= 0xdf then
      if i + 1 >= len || !IsContinuation(data[i + 1]) then 0 else 2
    else if c == 0xe0 then
      if i + 2 >= len || data[i + 1] < 0xa0 || data[i + 1] > 0xbf || !IsContinuation(data[i + 2]) then 0 else 3
    else if 0xe1 <= c <= 0xec || 0xee <= c <= 0xef then
      if i + 2 >= len || !IsContinuation(data[i + 1]) || !IsContinuation(data[i + 2]) then 0 else 3
    else if c == 0xed then
      if i + 2 >= len || data[i + 1] < 0x80 || data[i + 1] > 0x9f || !IsContinuation(data[i + 2]) then 0 else 3
    else if c == 0xf0 then
      if i + 3 >= len || data[i + 1] < 0x90 || data[i + 1] > 0xbf || !IsContinuation(data[i + 2]) || !IsContinuation(data[i + 3]) then 0 else 4
    else if 0xf1 <= c <= 0xf3 then
      if i + 3 >= len || !IsContinuation(data[i + 1]) || !IsContinuation(data[i + 2]) || !IsContinuation(data[i + 3]) then 0 else 4
    else if c == 0xf4 then
      if i + 3 >= len || data[i + 1] < 0x80 || data[i + 1] > 0x8f || !IsContinuation(data[i + 2]) || !IsContinuation(data[i + 3]) then 0 else 4
    else 0
  }

  function Join2(a: int, b: int): int { (a - 0xC0) * 64 + (b - 0x80) }

  function Join3(a: int, b: int, c: int): int { (a - 0xE0) * 4096 + (b - 0x80) * 64 + (c - 0x80) }

  function Join4(a: int, b: int, c: int, d: int): int {
    (a - 0xF0) * 262144 + (b - 0x80) * 4096 + (c - 0x80) * 64 + (d - 0x80)
  }

  /** The scalar a well-formed sequence stands for. */
  function ScalarAt(data: seq<Byte>, i: nat): int
    requires i < |data|
  {
    var n := SequenceAt(data, i);
    if n == 2 then Join2(data[i], data[i + 1])
    else if n == 3 then Join3(data[i], data[i + 1], data[i + 2])
    else if n == 4 then Join4(data[i], data[i + 1], data[i + 2], data[i + 3])
    else data[i]
  }

  lemma Encode2(a: Byte, b: Byte)
    requires 0xc2 <= a <= 0xdf && IsContinuation(b)
    ensures IsScalar(Join2(a, b)) && Encode(Join2(a, b)) == [a, b]
  {
  }

  lemma Encode3(a: Byte, b: Byte, c: Byte)
    requires 0xe0 <= a <= 0xef && IsContinuation(b) && IsContinuation(c)
    requires (a == 0xe0 ==> 0xa0 <= b) && (a == 0xed ==> b <= 0x9f)
    ensures IsScalar(Join3(a, b, c)) && Encode(Join3(a, b, c)) == [a, b, c]
  {
    var u := Join3(a, b, c);
    var x, y, z := a - 0xE0, b - 0x80, c - 0x80;
    assert 0 <= y < 64 && 0 <= z < 64;
    assert u == (x * 64 + y) * 64 + z;
    assert u / 64 == x * 64 + y && u % 64 == z;
    assert u / 64 / 64 == x && u / 64 % 64 == y;
    SixBits(u);
  }

  lemma Encode4(a: Byte, b: Byte, c: Byte, d: Byte)
    requires 0xf0 <= a <= 0xf4 && IsContinuation(b) && IsContinuation(c) && IsContinuation(d)
    requires (a == 0xf0 ==> 0x90 <= b) && (a == 0xf4 ==> b <= 0x8f)
    ensures IsScalar(Join4(a, b, c, d)) && Encode(Join4(a, b, c, d)) == [a, b, c, d]
  {
    var u := Join4(a, b, c, d);
    var x, y, z, w := a - 0xF0, b - 0x80, c - 0x80, d - 0x80;
    assert 0 <= y < 64 && 0 <= z < 64 && 0 <= w < 64;
    assert u == ((x * 64 + y) * 64 + z) * 64 + w;
    assert u / 64 == (x * 64 + y) * 64 + z && u % 64 == w;
    assert u / 64 / 64 == x * 64 + y && u / 64 % 64 == z;
    SixBits(u);
  }

  /** Six bits at a time. */
  lemma SixBits(u: nat)
    ensures u / 4096 == u / 64 / 64 && u / 262144 == u / 64 / 64 / 64
    ensures u == u / 64 * 64 + u % 64
    ensures u / 64 == u / 4096 * 64 + u / 64 % 64
    ensures u / 4096 == u / 262144 * 64 + u / 4096 % 64
  {
  }

  /** What is recognised is an encoding. */
  lemma SequenceIsEncoding(data: seq<Byte>, i: nat)
    requires i < |data| && SequenceAt(data, i) > 0
    ensures IsScalar(ScalarAt(data, i)) && data[i..i + SequenceAt(data, i)] == Encode(ScalarAt(data, i))
  {
    hide Encode, Join2, Join3, Join4;
    var n := SequenceAt(data, i);
    if n == 1 {
      Encode1(data[i]);
    } else if n == 2 {
      Encode2(data[i], data[i + 1]);
    } else if n == 3 {
      Encode3(data[i], data[i + 1], data[i + 2]);
    } else {
      Encode4(data[i], data[i + 1], data[i + 2], data[i + 3]);
    }
  }

  lemma Encode1(a: Byte)
    requires a <= 0x7f
    ensures Encode(a) == [a]
  {
  }

  /** Every encoding is recognised, whatever surrounds it. */
  lemma EncodingIsSequence(data: seq<Byte>, i: nat, u: Scalar)
    requires i + |Encode(u)| <= |data| && data[i..i + |Encode(u)|] == Encode(u)
    ensures i < |data| && SequenceAt(data, i) == |Encode(u)| && ScalarAt(data, i) == u
  {
    var e := Encode(u);
    assert forall k :: 0 <= k < |e| ==> data[i + k] == data[i..i + |e|][k] == e[k];
    SixBits(u);
    assert data[i] == e[0];
    if |e| > 1 { assert data[i + 1] == e[1]; }
    if |e| > 2 { assert data[i + 2] == e[2]; }
    if |e| > 3 { assert data[i + 3] == e[3]; }
  }

  /** From i on the data is a row of well-formed sequences. */
  predicate WellFormed(data: seq<Byte>, i: nat)
    requires i <= |data|
    decreases |data| - i
  {
    i == |data| || (SequenceAt(data, i) > 0 && WellFormed(data, i + SequenceAt(data, i)))
  }

  /** The scalars of well-formed data. */
  function Decode(data: seq<Byte>, i: nat): seq<Scalar>
    requires i <= |data| && WellFormed(data, i)
    decreases |data| - i
  {
    if i == |data| then []
    else
      SequenceIsEncoding(data, i);
      [ScalarAt(data, i)] + Decode(data, i + SequenceAt(data, i))
  }

  lemma EncodeNext(u: Scalar, us: seq<Scalar>)
    ensures EncodeAll([u] + us) == Encode(u) + EncodeAll(us)
  {
    hide Encode;
    assert ([u] + us)[1..] == us;
  }

  lemma {:induction false} DecodeEncodes(data: seq<Byte>, i: nat)
    requires i <= |data| && WellFormed(data, i)
    ensures EncodeAll(Decode(data, i)) == data[i..]
    decreases |data| - i
  {
    hide SequenceAt, Encode, ScalarAt;
    if i < |data| {
      var n := SequenceAt(data, i);
      SequenceIsEncoding(data, i);
      DecodeEncodes(data, i + n);
      EncodeNext(ScalarAt(data, i), Decode(data, i + n));
      assert data[i..] == data[i..i + n] + data[i + n..];
    }
  }

  lemma {:induction false} EncodedDecodes(data: seq<Byte>, i: nat, us: seq<Scalar>)
    requires i <= |data| && data[i..] == EncodeAll(us)
    ensures WellFormed(data, i) && Decode(data, i) == us
    decreases |us|
  {
    hide SequenceAt, Encode, ScalarAt;
    if us != [] {
      var e := Encode(us[0]);
      assert data[i..][..|e|] == e && data[i..][|e|..] == EncodeAll(us[1..]);
      assert data[i..i + |e|] == e && data[i + |e|..] == EncodeAll(us[1..]);
      EncodingIsSequence(data, i, us[0]);
      EncodedDecodes(data, i + |e|, us[1..]);
      assert us == [us[0]] + us[1..];
    }
  }

  /** Data is the encoding of some scalars. */
  ghost predicate IsUtf8(data: seq<Byte>) {
    exists us :: EncodeAll(us) == data
  }

  /** Recognised data is exactly encoded data. */
  lemma WellFormedIsUtf8(data: seq<Byte>)
    ensures WellFormed(data, 0) <==> IsUtf8(data)
  {
    assert data[0..] == data;
    if WellFormed(data, 0) { DecodeEncodes(data, 0); }
    if IsUtf8(data) {
      var us :| EncodeAll(us) == data;
      EncodedDecodes(data, 0, us);
    }
  }

  /** No data encodes two different rows of scalars. */
  lemma EncodingIsUnique(us: seq<Scalar>, vs: seq<Scalar>)
    requires EncodeAll(us) == EncodeAll(vs)
    ensures us == vs
  {
    var data := EncodeAll(us);
    assert data[0..] == data;
    EncodedDecodes(data, 0, us);
    EncodedDecodes(data, 0, vs);
  }

  lemma Regrouped(a: seq<Byte>, b: seq<Byte>, c: seq<Byte>)
    ensures a + (b + c) == a + b + c
  {
  }

  lemma {:induction false} EncodeJoins(us: seq<Scalar>, vs: seq<Scalar>)
    ensures EncodeAll(us + vs) == EncodeAll(us) + EncodeAll(vs)
  {
    hide Encode;
    if us == [] {
      assert us + vs == vs;
    } else {
      EncodeJoins(us[1..], vs);
      var all: seq<Scalar> := us + vs;
      assert all[1..] == us[1..] + vs && all[0] == us[0];
      Regrouped(Encode(us[0]), EncodeAll(us[1..]), EncodeAll(vs));
    }
  }

  /** Text may be put together, and a prefix that is text may be dropped. */
  lemma PrefixClosed(x: seq<Byte>, y: seq<Byte>)
    requires IsUtf8(x)
    ensures IsUtf8(x + y) <==> IsUtf8(y)
  {
    var us :| EncodeAll(us) == x;
    if IsUtf8(y) {
      var vs :| EncodeAll(vs) == y;
      EncodeJoins(us, vs);
    }
    if IsUtf8(x + y) {
      var ws :| EncodeAll(ws) == x + y;
      DropEncoded(us, ws, y);
    }
  }

  lemma {:induction false} DropEncoded(us: seq<Scalar>, ws: seq<Scalar>, y: seq<Byte>)
    requires EncodeAll(ws) == EncodeAll(us) + y
    ensures IsUtf8(y)
    decreases |us|
  {
    hide Encode, SequenceAt, ScalarAt;
    if us == [] {
      assert EncodeAll(us) + y == y;
    } else {
      var data, e := EncodeAll(ws), Encode(us[0]);
      var rest := EncodeAll(us[1..]) + y;
      assert data == e + rest;
      assert data[0..|e|] == e;
      EncodingIsSequence(data, 0, us[0]);
      assert data[0..] == data;
      EncodedDecodes(data, 0, ws);
      assert WellFormed(data, |e|);
      DecodeEncodes(data, |e|);
      assert data[|e|..] == rest;
      DropEncoded(us[1..], Decode(data, |e|), y);
    }
  }

  method Validate(data: seq<Byte>) returns (valid: bool)
    ensures valid <==> IsUtf8(data)
  {
    WellFormedIsUtf8(data);
    var i, len := 0, |data|;
    while i < len
      invariant i <= len && (WellFormed(data, 0) <==> WellFormed(data, i))
    {
      var c := data[i];
      if c <= 0x7f {
        i := i + 1;
        continue;
      }
      if 0xc2 <= c <= 0xdf {
        if i + 1 >= len || !IsContinuation(data[i + 1]) { return false; }
        i := i + 2;
        continue;
      }
      if c == 0xe0 {
        if i + 2 >= len || data[i + 1] < 0xa0 || data[i + 1] > 0xbf || !IsContinuation(data[i + 2]) { return false; }
        i := i + 3;
        continue;
      }
      if 0xe1 <= c <= 0xec || 0xee <= c <= 0xef {
        if i + 2 >= len || !IsContinuation(data[i + 1]) || !IsContinuation(data[i + 2]) { return false; }
        i := i + 3;
        continue;
      }
      if c == 0xed {
        if i + 2 >= len || data[i + 1] < 0x80 || data[i + 1] > 0x9f || !IsContinuation(data[i + 2]) { return false; }
        i := i + 3;
        continue;
      }
      if c == 0xf0 {
        if i + 3 >= len || data[i + 1] < 0x90 || data[i + 1] > 0xbf || !IsContinuation(data[i + 2]) || !IsContinuation(data[i + 3]) { return false; }
        i := i + 4;
        continue;
      }
      if 0xf1 <= c <= 0xf3 {
        if i + 3 >= len || !IsContinuation(data[i + 1]) || !IsContinuation(data[i + 2]) || !IsContinuation(data[i + 3]) { return false; }
        i := i + 4;
        continue;
      }
      if c == 0xf4 {
        if i + 3 >= len || data[i + 1] < 0x80 || data[i + 1] > 0x8f || !IsContinuation(data[i + 2]) || !IsContinuation(data[i + 3]) { return false; }
        i := i + 4;
        continue;
      }
      return false;
    }
    valid := true;
  }

  /* ---------- text ---------- */

  /** A control other than tab, line feed and carriage return. */
  predicate IsControl(c: int) {
    (0 <= c < 0x20 && c != 9 && c != 10 && c != 13) || c == 0x7f
  }

  function Controls(cs: seq<int>): nat {
    if cs == [] then 0 else Controls(cs[..|cs| - 1]) + (if IsControl(cs[|cs| - 1]) then 1 else 0)
  }

  /** The controls are the codes below 32 but for 9, 10 and 13, and 127. */
  lemma {:induction false} ControlsCount(cs: seq<int>)
    ensures Controls(cs) == |set i | 0 <= i < |cs| && ((0 <= cs[i] <= 31 && cs[i] !in {9, 10, 13}) || cs[i] == 127)|
  {
    if cs != [] {
      var front := cs[..|cs| - 1];
      ControlsCount(front);
      var x := set i | 0 <= i < |cs| && ((0 <= cs[i] <= 31 && cs[i] !in {9, 10, 13}) || cs[i] == 127);
      var y := set i | 0 <= i < |front| && ((0 <= front[i] <= 31 && front[i] !in {9, 10, 13}) || front[i] == 127);
      assert x == y + if IsControl(cs[|cs| - 1]) then {|cs| - 1} else {};
    }
  }

  lemma {:induction false} ControlsJoin(x: seq<int>, y: seq<int>)
    ensures Controls(x + y) == Controls(x) + Controls(y)
    decreases |y|
  {
    if y == [] {
      assert x + y == x;
    } else {
      ControlsJoin(x, y[..|y| - 1]);
      assert (x + y)[..|x + y| - 1] == x + y[..|y| - 1];
    }
  }

  lemma EncodedControls(u: Scalar)
    ensures Controls(Encode(u)) == if IsControl(u) then 1 else 0
    ensures 0 in Encode(u) <==> u == 0
  {
    var e := Encode(u);
    if u < 0x80 {
      assert e == [u] && e[..0] == [];
    } else {
      NoControls(e);
    }
  }

  lemma {:induction false} NoControls(cs: seq<int>)
    requires forall i :: 0 <= i < |cs| ==> cs[i] >= 0x80
    ensures Controls(cs) == 0
  {
    if cs != [] { NoControls(cs[..|cs| - 1]); }
  }

  /** Counting control bytes counts control characters, and a zero byte is a zero character. */
  lemma {:induction false} ControlBytesAreCharacters(us: seq<Scalar>)
    ensures Controls(EncodeAll(us)) == Controls(us)
    ensures 0 in EncodeAll(us) <==> 0 in us
  {
    hide Encode, IsControl;
    if us != [] {
      ControlBytesAreCharacters(us[1..]);
      EncodedControls(us[0]);
      ControlsJoin(Encode(us[0]), EncodeAll(us[1..]));
      assert us == [us[0]] + us[1..];
      ControlsJoin([us[0]], us[1..]);
      assert [us[0]][..0] == [];
    }
  }

  ghost predicate IsText(us: seq<Scalar>, bytes: nat) {
    0 !in us && Controls(us) * 100 <= bytes * 5
  }

  /** Text: UTF-8 without a zero character, in which controls make up at most five in a hundred
      of the bytes. */
  method LooksTextual(data: seq<Byte>) returns (textual: bool)
    ensures textual <==> exists us: seq<Scalar> :: EncodeAll(us) == data && IsText(us, |data|)
  {
    hide IsControl, Encode, EncodeAll;
    var valid := Validate(data);
    if !valid { return false; }
    ghost var us: seq<Scalar> :| EncodeAll(us) == data;
    ControlBytesAreCharacters(us);
    assert forall vs: seq<Scalar> :: EncodeAll(vs) == data ==> vs == us by {
      forall vs: seq<Scalar> | EncodeAll(vs) == data ensures vs == us { EncodingIsUnique(vs, us); }
    }
    if |data| == 0 {
      assert IsText(us, |data|);
      return true;
    }
    var controls := 0;
    for i := 0 to |data|
      invariant 0 !in data[..i] && controls == Controls(data[..i])
    {
      assert data[..i + 1] == data[..i] + [data[i]] && data[..i + 1][..i] == data[..i];
      var c := data[i];
      if c == 0 { return false; }
      if IsControl(c) { controls := controls + 1; }
    }
    assert data[..|data|] == data;
    textual := controls * 100 <= |data| * 5;
  }
}
