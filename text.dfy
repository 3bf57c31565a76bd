/** ASCII case mapping, standing in for Python's str.lower where
    create_habit normalises the habit type. */
module AsciiCase {

  function LowerChar(c: char): char {
    if 'A' <= c <= 'Z' then (c as int + 32) as char else c
  }

  function Lower(s: string): (r: string)
    ensures |r| == |s|
    ensures forall i :: 0 <= i < |s| ==> r[i] == LowerChar(s[i])
  {
    if s == [] then [] else [LowerChar(s[0])] + Lower(s[1..])
  }

  predicate IsLowerLetters(w: string) {
    forall i :: 0 <= i < |w| ==> 'a' <= w[i] <= 'z'
  }

  /** s spells the lower-case word w with any mix of upper and lower case:
      an independent description of the strings that lower-case to w. */
  predicate SpellsIgnoringCase(s: string, w: string) {
    && |s| == |w|
    && forall i :: 0 <= i < |s| ==> s[i] == w[i] || s[i] as int == w[i] as int - 32
  }

  /** The two characters that lower-case to a lower-case letter x are x and
      its upper-case form. */
  lemma LowerCharInverse(c: char, x: char)
    requires 'a' <= x <= 'z'
    ensures LowerChar(c) == x <==> c == x || c as int == x as int - 32
  {
  }

  /** Lower(s) == w exactly when s spells w ignoring case. */
  lemma LowerMatchesSpelling(s: string, w: string)
    requires IsLowerLetters(w)
    ensures Lower(s) == w <==> SpellsIgnoringCase(s, w)
  {
    if |s| == |w| {
      forall i | 0 <= i < |s|
        ensures Lower(s)[i] == w[i] <==> s[i] == w[i] || s[i] as int == w[i] as int - 32
      {
        LowerCharInverse(s[i], w[i]);
      }
      if SpellsIgnoringCase(s, w) {
        assert Lower(s) == w;
      }
    }
  }

  /** Lower-casing twice changes nothing more. */
  lemma LowerIdempotent(s: string)
    ensures Lower(Lower(s)) == Lower(s)
  {
    assert forall i :: 0 <= i < |s| ==> LowerChar(LowerChar(s[i])) == LowerChar(s[i]);
  }
}

/** Python's str() of the values that the create operations stringify
    (integers and ObjectIds), with the parsers that invert them. */
module Rendering {

  /** The digit d in base 10 or 16, lower-case as Python and bson print them. */
  function DigitChar(d: nat): char
    requires d < 16
  {
    if d < 10 then ('0' as int + d) as char else ('a' as int + d - 10) as char
  }

  function DigitValue(c: char): nat {
    if '0' <= c <= '9' then c as int - '0' as int
    else if 'a' <= c <= 'f' then c as int - 'a' as int + 10
    else 0
  }

  /** The number that the digit string s denotes in the given base. */
  function ParseDigits(s: string, base: nat): nat {
    if s == [] then 0 else ParseDigits(s[..|s| - 1], base) * base + DigitValue(s[|s| - 1])
  }

  /** str(n) for a natural number n: decimal digits, no leading zeros. */
  function ShowNat(n: nat): (s: string)
    ensures |s| >= 1
    ensures forall i :: 0 <= i < |s| ==> '0' <= s[i] <= '9'
    ensures |s| > 1 ==> s[0] != '0'
  {
    if n < 10 then [DigitChar(n)] else ShowNat(n / 10) + [DigitChar(n % 10)]
  }

  lemma {:induction false} ShowNatRoundTrip(n: nat)
    ensures ParseDigits(ShowNat(n), 10) == n
  {
    if n >= 10 {
      ShowNatRoundTrip(n / 10);
      var s := ShowNat(n);
      assert s[..|s| - 1] == ShowNat(n / 10);
    }
  }

  /** str(i) for a Python int. */
  function ShowInt(i: int): string {
    if i < 0 then "-" + ShowNat(-i) else ShowNat(i)
  }

  /** int(s) on the strings ShowInt produces. */
  function ParseInt(s: string): int {
    if |s| > 0 && s[0] == '-' then 0 - ParseDigits(s[1..], 10) as int else ParseDigits(s, 10)
  }

  lemma ShowIntRoundTrip(i: int)
    ensures ParseInt(ShowInt(i)) == i
  {
    if i < 0 {
      ShowNatRoundTrip(-i);
      assert ShowInt(i)[1..] == ShowNat(-i);
    } else {
      ShowNatRoundTrip(i);
    }
  }

  function Pow16(k: nat): (p: nat)
    ensures p >= 1
  {
    if k == 0 then 1 else 16 * Pow16(k - 1)
  }

  /** 16^24 == 2^96: 24 hex digits hold exactly the twelve bytes of an ObjectId. */
  lemma Pow16Of24()
    ensures Pow16(24) == 0x1_0000_0000_0000_0000_0000_0000
  {
    assert Pow16(1) == 0x10;
    assert Pow16(2) == 0x100;
    assert Pow16(3) == 0x1000;
    assert Pow16(4) == 0x10000;
    assert Pow16(5) == 0x100000;
    assert Pow16(6) == 0x1000000;
    assert Pow16(7) == 0x10000000;
    assert Pow16(8) == 0x100000000;
    assert Pow16(9) == 0x1000000000;
    assert Pow16(10) == 0x10000000000;
    assert Pow16(11) == 0x100000000000;
    assert Pow16(12) == 0x1000000000000;
    assert Pow16(13) == 0x10000000000000;
    assert Pow16(14) == 0x100000000000000;
    assert Pow16(15) == 0x1000000000000000;
    assert Pow16(16) == 0x10000000000000000;
    assert Pow16(17) == 0x100000000000000000;
    assert Pow16(18) == 0x1000000000000000000;
    assert Pow16(19) == 0x10000000000000000000;
    assert Pow16(20) == 0x100000000000000000000;
    assert Pow16(21) == 0x1000000000000000000000;
    assert Pow16(22) == 0x10000000000000000000000;
    assert Pow16(23) == 0x100000000000000000000000;
    assert Pow16(24) == 0x1000000000000000000000000;
  }

  /** The low `width` hexadecimal digits of n, most significant first. */
  function Hex(n: nat, width: nat): (s: string)
    ensures |s| == width
    ensures forall i :: 0 <= i < |s| ==> '0' <= s[i] <= '9' || 'a' <= s[i] <= 'f'
  {
    if width == 0 then [] else Hex(n / 16, width - 1) + [DigitChar(n % 16)]
  }

  lemma {:induction false} HexRoundTrip(n: nat, width: nat)
    requires n < Pow16(width)
    ensures ParseDigits(Hex(n, width), 16) == n
  {
    if width > 0 {
      assert n / 16 < Pow16(width - 1);
      HexRoundTrip(n / 16, width - 1);
      var s := Hex(n, width);
      assert s[..|s| - 1] == Hex(n / 16, width - 1);
    }
  }
}
