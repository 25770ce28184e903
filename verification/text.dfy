/**
 * Decimal rendering of integers, as `Integer.toString`, `Long.toString`
 * and zero-padded date fields produce it, together with the parser that
 * inverts it.
 */
module Text {

  predicate IsDigit(c: char) {
    '0' <= c <= '9'
  }

  function DigitChar(d: nat): (c: char)
    requires d < 10
    ensures IsDigit(c)
  {
    ('0' as int + d) as char
  }

  function DigitValue(c: char): nat {
    if IsDigit(c) then (c as int - '0' as int) as nat else 0
  }

  function Pow10(n: nat): (p: nat)
    ensures p >= 1
  {
    if n == 0 then 1 else 10 * Pow10(n - 1)
  }

  /** Decimal text of a non-negative number, without leading zeros. */
  function NatToString(n: nat): (s: string)
    ensures |s| >= 1
    ensures n < 10 ==> s == [DigitChar(n)]
    ensures forall i :: 0 <= i < |s| ==> IsDigit(s[i])
  {
    if n < 10 then [DigitChar(n)] else NatToString(n / 10) + [DigitChar(n % 10)]
  }

  /** n written with exactly `width` digits, zero-padded on the left. */
  function PadDigits(n: nat, width: nat): (s: string)
    requires n < Pow10(width)
    ensures |s| == width
  {
    if width == 0 then "" else PadDigits(n / 10, width - 1) + [DigitChar(n % 10)]
  }

  /** Reads a string of decimal digits back as a number. */
  function ParseDigits(s: string): nat {
    if s == [] then 0 else 10 * ParseDigits(s[..|s| - 1]) + DigitValue(s[|s| - 1])
  }

  lemma ParseDigitsSnoc(s: string, d: nat)
    requires d < 10
    ensures ParseDigits(s + [DigitChar(d)]) == 10 * ParseDigits(s) + d
  {
    assert (s + [DigitChar(d)])[..|s|] == s;
  }

  lemma {:induction false} ParsePadDigits(n: nat, width: nat)
    requires n < Pow10(width)
    ensures ParseDigits(PadDigits(n, width)) == n
  {
    if width > 0 {
      ParsePadDigits(n / 10, width - 1);
      ParseDigitsSnoc(PadDigits(n / 10, width - 1), n % 10);
    }
  }

  lemma {:induction false} ParseNatToString(n: nat)
    ensures ParseDigits(NatToString(n)) == n
  {
    if n < 10 {
      ParseDigitsSnoc("", n);
      assert [DigitChar(n)] == "" + [DigitChar(n)];
    } else {
      ParseNatToString(n / 10);
      ParseDigitsSnoc(NatToString(n / 10), n % 10);
    }
  }

  /** Distinct numbers have distinct decimal texts. */
  lemma NatToStringInjective(a: nat, b: nat)
    requires NatToString(a) == NatToString(b)
    ensures a == b
  {
    ParseNatToString(a);
    ParseNatToString(b);
  }

  /** Distinct numbers below 10^width have distinct padded texts. */
  lemma PadDigitsInjective(a: nat, b: nat, width: nat)
    requires a < Pow10(width) && b < Pow10(width)
    requires PadDigits(a, width) == PadDigits(b, width)
    ensures a == b
  {
    ParsePadDigits(a, width);
    ParsePadDigits(b, width);
  }

  /** Upper-casing of ASCII letters; other characters are kept. */
  function UpperAscii(s: string): (u: string)
    ensures |u| == |s|
    ensures forall i :: 0 <= i < |s| && !('a' <= s[i] <= 'z') ==> u[i] == s[i]
    ensures forall i :: 0 <= i < |s| && 'a' <= s[i] <= 'z' ==>
      'A' <= u[i] <= 'Z' && u[i] as int - 'A' as int == s[i] as int - 'a' as int
  {
    if s == [] then []
    else
      var c := s[0];
      [if 'a' <= c <= 'z' then (c as int - 32) as char else c] + UpperAscii(s[1..])
  }

  /** The text of `UUID.randomUUID()`: always 36 characters. */
  type Uuid = s: string | |s| == 36 witness "00000000-0000-0000-0000-000000000000"

  /** "<prefix>" followed by the first eight characters of a UUID in upper case, as fine and receipt ids are made. */
  function ShortId(prefix: string, uuid: Uuid): (id: string)
    ensures |id| == |prefix| + 8 && id[..|prefix|] == prefix
    ensures forall i :: 0 <= i < 8 && !('a' <= uuid[i] <= 'z') ==> id[|prefix| + i] == uuid[i]
    ensures forall i :: 0 <= i < 8 && 'a' <= uuid[i] <= 'z' ==>
      'A' <= id[|prefix| + i] <= 'Z' && id[|prefix| + i] as int - 'A' as int == uuid[i] as int - 'a' as int
  {
    prefix + UpperAscii(uuid[..8])
  }
}
