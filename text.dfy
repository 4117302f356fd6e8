/**
  The string operations the timesheet generator applies: Python's `str.split()`
  (first word only), `str.lower()`, `str(int)` and the zero-padded decimal
  fields that `strftime` writes.
 */
module Text {
  import opened Wrappers

  /** Python's `str.isspace()` for one character. */
  predicate IsSpace(c: char) {
    || ('\t' <= c <= '\r')
    || ('\U{1c}' <= c <= '\U{1f}')
    || c == ' ' || c == '\U{85}' || c == '\U{a0}' || c == '\U{1680}'
    || ('\U{2000}' <= c <= '\U{200a}')
    || c == '\U{2028}' || c == '\U{2029}' || c == '\U{202f}' || c == '\U{205f}' || c == '\U{3000}'
  }

  predicate AllSpace(s: string) {
    forall i :: 0 <= i < |s| ==> IsSpace(s[i])
  }

  predicate NoSpace(s: string) {
    forall i :: 0 <= i < |s| ==> !IsSpace(s[i])
  }

  /** Length of the whitespace run that starts `s`. */
  function LeadingSpace(s: string): (n: nat)
    ensures n <= |s| && AllSpace(s[..n])
    ensures n == |s| || !IsSpace(s[n])
  {
    if s == [] || !IsSpace(s[0]) then 0 else 1 + LeadingSpace(s[1..])
  }

  /** Length of the non-whitespace run that starts `s`. */
  function WordLength(s: string): (n: nat)
    ensures n <= |s| && NoSpace(s[..n])
    ensures n == |s| || IsSpace(s[n])
  {
    if s == [] || IsSpace(s[0]) then 0 else 1 + WordLength(s[1..])
  }

  /** `s.split()[0]`: the first maximal run of non-whitespace characters, or
      None where `s.split()` is the empty list (and indexing it raises). */
  function FirstWord(s: string): (r: Option<string>)
    ensures r.None? <==> AllSpace(s)
    ensures r.Some? ==>
      var k := LeadingSpace(s);
      var w := r.value;
      && w != [] && NoSpace(w) && AllSpace(s[..k])
      && k + |w| <= |s| && s[k..k + |w|] == w
      && (k + |w| == |s| || IsSpace(s[k + |w|]))
  {
    var k := LeadingSpace(s);
    if k == |s| then
      None
    else
      var n := WordLength(s[k..]);
      assert s[k..][..n] == s[k..k + n];
      Some(s[k..k + n])
  }

  /** The upper-case letters `str.lower()` changes, restricted to ASCII and Latin-1. */
  predicate IsUpper(c: char) {
    ('A' <= c <= 'Z') || ('\U{c0}' <= c <= '\U{de}' && c != '\U{d7}')
  }

  function LowerChar(c: char): (r: char)
    ensures !IsUpper(r)
    ensures IsUpper(c) ==> r as int == c as int + 32
    ensures !IsUpper(c) ==> r == c
    ensures IsSpace(r) <==> IsSpace(c)
  {
    if IsUpper(c) then (c as int + 32) as char else c
  }

  /** `s.lower()`, character by character. */
  function Lower(s: string): (r: string)
    ensures |r| == |s|
    ensures forall i :: 0 <= i < |r| ==> !IsUpper(r[i])
    ensures forall i :: 0 <= i < |s| && !IsUpper(s[i]) ==> r[i] == s[i]
    ensures forall i :: 0 <= i < |s| && IsUpper(s[i]) ==> r[i] as int == s[i] as int + 32
  {
    seq(|s|, i requires 0 <= i < |s| => LowerChar(s[i]))
  }

  /** Lower-casing twice changes nothing further, and it never creates or removes whitespace. */
  lemma LowerIdempotent(s: string)
    ensures Lower(Lower(s)) == Lower(s)
    ensures NoSpace(s) ==> NoSpace(Lower(s))
  {
    assert forall i :: 0 <= i < |s| ==> Lower(s)[i] == LowerChar(s[i]);
  }

  predicate IsDigit(c: char) {
    '0' <= c <= '9'
  }

  predicate AllDigits(s: string) {
    forall i :: 0 <= i < |s| ==> IsDigit(s[i])
  }

  function DigitChar(n: int): (c: char)
    requires 0 <= n <= 9
    ensures IsDigit(c)
  {
    ('0' as int + n) as char
  }

  function DigitValue(c: char): (n: int)
    requires IsDigit(c)
    ensures 0 <= n <= 9
    ensures DigitChar(n) == c
  {
    c as int - '0' as int
  }

  function Pow10(w: nat): (p: nat)
    ensures p >= 1
  {
    if w == 0 then 1 else 10 * Pow10(w - 1)
  }

  lemma {:induction false} Pow10Monotone(a: nat, b: nat)
    requires a <= b
    ensures Pow10(a) <= Pow10(b)
    decreases b - a
  {
    if a < b {
      Pow10Monotone(a, b - 1);
    }
  }

  /** The number a string of decimal digits denotes. */
  function DecimalValue(s: string): nat
    requires AllDigits(s)
  {
    if s == [] then 0 else DecimalValue(s[..|s| - 1]) * 10 + DigitValue(s[|s| - 1])
  }

  /** `n` in exactly `width` decimal digits, zero padded, as `strftime` writes %d, %m and %Y. */
  function ZeroPadded(n: nat, width: nat): (s: string)
    requires n < Pow10(width)
    ensures |s| == width && AllDigits(s)
  {
    if width == 0 then "" else ZeroPadded(n / 10, width - 1) + [DigitChar(n % 10)]
  }

  /** Reading a zero-padded field back gives the number that was written. */
  lemma {:induction false} ZeroPaddedValue(n: nat, width: nat)
    requires n < Pow10(width)
    ensures DecimalValue(ZeroPadded(n, width)) == n
  {
    if width > 0 {
      var s := ZeroPadded(n, width);
      assert s[..|s| - 1] == ZeroPadded(n / 10, width - 1);
      ZeroPaddedValue(n / 10, width - 1);
    }
  }

  /** `str(n)` for a non-negative integer: the shortest decimal, no leading zero. */
  function NatToDecimal(n: nat): (s: string)
    ensures s != [] && AllDigits(s) && NoSpace(s)
    ensures |s| > 1 ==> s[0] != '0'
  {
    if n < 10 then [DigitChar(n)] else NatToDecimal(n / 10) + [DigitChar(n % 10)]
  }

  /** Reading `str(n)` back gives `n`. */
  lemma {:induction false} NatToDecimalValue(n: nat)
    ensures DecimalValue(NatToDecimal(n)) == n
  {
    if n >= 10 {
      var s := NatToDecimal(n);
      assert s[..|s| - 1] == NatToDecimal(n / 10);
      NatToDecimalValue(n / 10);
    } else {
      assert NatToDecimal(n)[..0] == "";
    }
  }

  /** `str(n)` has at most `w` digits exactly when `n` is below `10^w`. */
  lemma {:induction false} NatToDecimalLength(n: nat, w: nat)
    requires w >= 1
    ensures |NatToDecimal(n)| <= w <==> n < Pow10(w)
  {
    if n >= 10 {
      if w == 1 {
        assert Pow10(1) == 10;
      } else {
        NatToDecimalLength(n / 10, w - 1);
      }
    } else {
      Pow10Monotone(1, w);
    }
  }

  /** The most digits Python (3.11 and later, by default) converts between an
      `int` and a string; `str` of a longer number raises ValueError. */
  const MaxStrDigits: nat := 4300

  /** An integer whose absolute value has more than `MaxStrDigits` digits. */
  predicate TooManyDigits(i: int) {
    Pow10(MaxStrDigits) <= (if i < 0 then -i else i)
  }

  /** `TooManyDigits` counts the digits that `str` would write. */
  lemma TooManyDigitsLength(i: int)
    ensures TooManyDigits(i) <==> |NatToDecimal(if i < 0 then -i else i)| > MaxStrDigits
  {
    NatToDecimalLength(if i < 0 then -i else i, MaxStrDigits);
  }

  /** `str(i)` for any integer (the f-string `{year}`), where it does not raise. */
  function IntToDecimal(i: int): (s: string)
    ensures s != [] && NoSpace(s)
    ensures s[0] == '-' <==> i < 0
    ensures i >= 0 ==> AllDigits(s) && DecimalValue(s) == i
    ensures i < 0 ==> AllDigits(s[1..]) && DecimalValue(s[1..]) == -i
    ensures i >= 0 && |s| > 1 ==> s[0] != '0'
    ensures i < 0 && |s| > 2 ==> s[1] != '0'
  {
    if i < 0 then
      NatToDecimalValue(-i);
      assert ("-" + NatToDecimal(-i))[1..] == NatToDecimal(-i);
      "-" + NatToDecimal(-i)
    else
      NatToDecimalValue(i);
      NatToDecimal(i)
  }
}
