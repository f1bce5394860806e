/**
 * Character and number rendering helpers shared by the ticket sequencer, the draft display
 * and the configuration store: ASCII lower-casing, decimal digits, Python's str(int) and
 * int(str), and zero padding as done by f"{n:02d}" and strftime.
 */
module Text {
  import opened Wrappers

  /** Lower-cases an ASCII capital; every other character is left as it is. */
  function LowerChar(c: char): char {
    if 'A' <= c <= 'Z' then (c as int + 32) as char else c
  }

  /** str.lower(), restricted to ASCII letters. */
  function Lower(s: string): string {
    seq(|s|, i requires 0 <= i < |s| => LowerChar(s[i]))
  }

  predicate IsDigit(c: char) {
    '0' <= c <= '9'
  }

  predicate AllDigits(s: string) {
    forall i :: 0 <= i < |s| ==> IsDigit(s[i])
  }

  function DigitChar(d: nat): char
    requires d < 10
  {
    ('0' as int + d) as char
  }

  function DigitOf(c: char): nat
    requires IsDigit(c)
  {
    c as int - '0' as int
  }

  /** The number a string of decimal digits denotes (leading zeros allowed). */
  function DigitsValue(s: string): nat
    requires AllDigits(s)
  {
    if s == [] then 0 else 10 * DigitsValue(s[..|s| - 1]) + DigitOf(s[|s| - 1])
  }

  /** Python's str(n) for a natural number: shortest decimal rendering, no leading zeros. */
  function NatToString(n: nat): (s: string)
    ensures 1 <= |s| && AllDigits(s)
    ensures n >= 10 <==> |s| >= 2
    ensures |s| >= 2 ==> s[0] != '0'
  {
    if n < 10 then [DigitChar(n)] else NatToString(n / 10) + [DigitChar(n % 10)]
  }

  /** Python's str(i): a minus sign before the digits of a negative number. */
  function IntToString(i: int): string {
    if i < 0 then "-" + NatToString(-i) else NatToString(i)
  }

  /** Reading back what NatToString wrote gives the number. */
  lemma {:induction false} NatToStringValue(n: nat)
    ensures DigitsValue(NatToString(n)) == n
  {
    if n >= 10 {
      NatToStringValue(n / 10);
      var s := NatToString(n);
      assert s[..|s| - 1] == NatToString(n / 10);
    }
  }

  function Zeros(k: nat): (z: string)
    ensures |z| == k && AllDigits(z)
  {
    if k == 0 then [] else Zeros(k - 1) + "0"
  }

  /** Zero padding on the left to the given width, as f"{n:0<width>d}" does for n >= 0. */
  function PadLeft(n: nat, width: nat): (s: string)
    ensures AllDigits(s)
    ensures |s| == if |NatToString(n)| >= width then |NatToString(n)| else width
  {
    var t := NatToString(n);
    if |t| >= width then t else Zeros(width - |t|) + t
  }

  function Pow10(k: nat): (p: nat)
    ensures p >= 1
  {
    if k == 0 then 1 else 10 * Pow10(k - 1)
  }

  /** A number below 10^w needs at most w digits. */
  lemma {:induction false} NatToStringLength(n: nat, w: nat)
    requires 1 <= w && n < Pow10(w)
    ensures |NatToString(n)| <= w
  {
    if n >= 10 {
      assert Pow10(1) == 10;
      assert w >= 2;
      assert n / 10 < Pow10(w - 1);
      NatToStringLength(n / 10, w - 1);
    }
  }

  /** Leading zeros do not change the value of a digit string. */
  lemma {:induction false} LeadingZerosValue(k: nat, t: string)
    requires AllDigits(t)
    ensures AllDigits(Zeros(k) + t) && DigitsValue(Zeros(k) + t) == DigitsValue(t)
    decreases |t|, k
  {
    var s := Zeros(k) + t;
    if t == [] {
      assert s == Zeros(k);
      if k > 0 {
        assert s[..|s| - 1] == Zeros(k - 1) + [];
        LeadingZerosValue(k - 1, []);
      }
    } else {
      assert s[..|s| - 1] == Zeros(k) + t[..|t| - 1];
      LeadingZerosValue(k, t[..|t| - 1]);
    }
  }

  /** A padded rendering keeps its value and, when the number fits, has exactly the width. */
  lemma PadLeftValue(n: nat, width: nat)
    ensures DigitsValue(PadLeft(n, width)) == n
    ensures 1 <= width && n < Pow10(width) ==> |PadLeft(n, width)| == width
  {
    var t := NatToString(n);
    NatToStringValue(n);
    if |t| < width {
      LeadingZerosValue(width - |t|, t);
      assert PadLeft(n, width) == Zeros(width - |t|) + t;
    } else {
      assert PadLeft(n, width) == t;
    }
    if 1 <= width && n < Pow10(width) {
      NatToStringLength(n, width);
    }
  }

  /** Python's int(s) on an optional sign followed by ASCII digits; None where int() raises. */
  function ParseInt(s: string): (r: Option<int>)
    ensures r.Some? <==> (|s| >= 1 && AllDigits(s)) || (|s| >= 2 && (s[0] == '+' || s[0] == '-') && AllDigits(s[1..]))
  {
    if |s| >= 2 && (s[0] == '-' || s[0] == '+') && AllDigits(s[1..]) then
      Some(if s[0] == '-' then 0 - DigitsValue(s[1..]) as int else DigitsValue(s[1..]))
    else if |s| >= 1 && AllDigits(s) then
      Some(DigitsValue(s))
    else
      None
  }

  /** int() on plain digits gives their value. */
  lemma ParseDigits(t: string)
    requires |t| >= 1 && AllDigits(t)
    ensures ParseInt(t) == Some(DigitsValue(t))
  {
    assert IsDigit(t[0]);
  }

  /** int() on a plus sign followed by digits gives their value. */
  lemma ParsePositive(t: string)
    requires |t| >= 1 && AllDigits(t)
    ensures ParseInt("+" + t) == Some(DigitsValue(t))
  {
    var s := "+" + t;
    assert s[0] == '+' && s[1..] == t;
  }

  /** int() on a minus sign followed by digits gives the negated value. */
  lemma ParseNegative(t: string)
    requires |t| >= 1 && AllDigits(t)
    ensures ParseInt("-" + t) == Some(0 - DigitsValue(t) as int)
  {
    var s := "-" + t;
    assert s[0] == '-' && s[1..] == t;
  }

  /** int(str(n)) == n for a natural number. */
  lemma NatRoundTrip(n: nat)
    ensures ParseInt(NatToString(n)) == Some(n)
  {
    NatToStringValue(n);
    ParseDigits(NatToString(n));
  }

  /** int("-" + str(n)) == -n. */
  lemma NegativeRoundTrip(n: nat)
    ensures ParseInt("-" + NatToString(n)) == Some(0 - n)
  {
    NatToStringValue(n);
    ParseNegative(NatToString(n));
  }

  /** int(str(i)) == i: the configuration store can read back any integer it wrote. */
  lemma IntToStringRoundTrip(i: int)
    ensures ParseInt(IntToString(i)) == Some(i)
  {
    if i < 0 {
      NegativeRoundTrip(-i);
    } else {
      NatRoundTrip(i);
    }
  }
}
