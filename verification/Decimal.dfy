/**
 Numbers in decimal for a message of bounded size.
 */
module Decimal {
  import opened Arithmetic

  predicate IsDecimal(s: string) {
    forall i :: 0 <= i < |s| ==> '0' <= s[i] <= '9'
  }

  /** What a row of digits stands for. */
  function Read(s: string): nat
    requires IsDecimal(s)
  {
    if s == [] then 0 else 10 * Read(s[..|s| - 1]) + (s[|s| - 1] - '0') as nat
  }

  /** The digits of a number, the highest first. */
  function Digits(n: nat): (s: string)
    ensures IsDecimal(s) && |s| > 0
  {
    (if n < 10 then [] else Digits(n / 10)) + [Figure(n % 10)]
  }

  function Reverse(s: string): (r: string)
    ensures |r| == |s| && forall i :: 0 <= i < |s| ==> r[i] == s[|s| - 1 - i]
  {
    seq(|s|, i requires 0 <= i < |s| => s[|s| - 1 - i])
  }

  function Figure(d: nat): (c: char)
    requires d < 10
    ensures '0' <= c <= '9' && (c - '0') as nat == d
  {
    '0' + d as char
  }

  lemma ReverseNothing()
    ensures Reverse("") == ""
  {
  }

  lemma ReverseGrows(s: string, c: char)
    ensures Reverse(s + [c]) == [c] + Reverse(s)
  {
  }

  lemma DigitMoves(n: nat, done: string)
    requires n >= 10
    ensures Digits(n) + done == Digits(n / 10) + ([Figure(n % 10)] + done)
  {
  }

  lemma LastDigit(n: nat)
    requires n < 10
    ensures Digits(n) == [Figure(n)]
  {
  }

  /** The digits are collected from the lowest on and then turned round. */
  method Print(number: nat) returns (out: string)
    ensures out == Digits(number)
  {
    hide Digits, Reverse, Figure;
    ReverseNothing();
    var reversed: string, rest := "", number;
    ghost var done: string := "";
    assert Digits(number) + done == Digits(number);
    while rest >= 10
      invariant Digits(rest) + done == Digits(number) && done == Reverse(reversed)
      decreases rest
    {
      var d := Figure(rest % 10);
      DigitMoves(rest, done);
      ReverseGrows(reversed, d);
      done := [d] + done;
      reversed := reversed + [d];
      rest := rest / 10;
    }
    ReverseGrows(reversed, Figure(rest));
    reversed := reversed + [Figure(rest)];
    LastDigit(rest);
    out := Reverse(reversed);
  }

  lemma ReadGrows(s: string, c: char)
    requires IsDecimal(s) && '0' <= c <= '9'
    ensures IsDecimal(s + [c]) && Read(s + [c]) == 10 * Read(s) + (c - '0') as nat
  {
    assert (s + [c])[..|s|] == s;
  }

  /** Reading the digits gives the number back. */
  lemma {:induction false} DigitsReadBack(n: nat)
    ensures Read(Digits(n)) == n
  {
    hide Figure;
    var front: string := if n < 10 then [] else Digits(n / 10);
    if n >= 10 { DigitsReadBack(n / 10); }
    ReadGrows(front, Figure(n % 10));
  }

  /** No leading zero, except for zero itself. */
  lemma {:induction false} NoLeadingZero(n: nat)
    ensures n > 0 ==> Digits(n)[0] != '0'
  {
    if n >= 10 {
      NoLeadingZero(n / 10);
      assert Digits(n)[0] == Digits(n / 10)[0];
    }
  }

  lemma {:induction false} DigitsBound(n: nat, k: nat)
    requires n < Power(10, k) && k > 0
    ensures |Digits(n)| <= k
  {
    if n >= 10 {
      assert Power(10, k) == 10 * Power(10, k - 1);
      DigitsBound(n / 10, k - 1);
    }
  }

  lemma {:induction false} PowerBelow(k: nat)
    ensures Power(256, k) <= Power(10, 3 * k)
  {
    if k > 0 {
      PowerBelow(k - 1);
      assert Power(10, 3 * k) == 10 * Power(10, 3 * k - 1) == 100 * Power(10, 3 * k - 2) == 1000 * Power(10, 3 * k - 3);
    }
  }

  /** A number of k bytes has at most three digits for each. */
  lemma ThreeDigitsAByte(n: nat, k: nat)
    requires n < Power(256, k) && k > 0
    ensures |Digits(n)| <= 3 * k
  {
    PowerBelow(k);
    DigitsBound(n, 3 * k);
  }

  function Message(fact: nat, term: nat): string {
    "Fact " + Digits(fact) + ", term " + Digits(term) + ": integer outside INT64_MIN..INT64_MAX."
  }

  /** The message gives the fact, then the term. */
  lemma MessageNames(fact: nat, term: nat)
    ensures var m, a := Message(fact, term), 5 + |Digits(fact)|;
            var b := a + 7 + |Digits(term)|;
            a <= b <= |m| && Read(m[5..a]) == fact && Read(m[a + 7..b]) == term
  {
    hide Digits, Read;
    Cut("Fact ", Digits(fact), ", term ", Digits(term), ": integer outside INT64_MIN..INT64_MAX.");
    DigitsReadBack(fact);
    DigitsReadBack(term);
  }

  lemma Cut(x: string, a: string, y: string, b: string, z: string)
    ensures var m, k := x + a + y + b + z, |x| + |a| + |y|;
            m[|x|..|x| + |a|] == a && m[k..k + |b|] == b
  {
  }

  /** The message and its terminator fit their buffer for words of up to eight bytes. */
  lemma MessageFits(fact: nat, term: nat, k: nat)
    requires 0 < k <= 8 && fact < Power(256, k) && term < Power(256, k)
    ensures |Message(fact, term)| + 1 <= 256
  {
    ThreeDigitsAByte(fact, k);
    ThreeDigitsAByte(term, k);
  }
}
