/**
 * The string operations the models rely on: Python's `str.strip()` with no
 * arguments, used by the username validator, and the decimal text of an
 * integer, which is how SQLite compares an integer with a text column.
 */
module Text {

  /** The characters for which Python's `str.isspace()` holds. */
  predicate IsSpace(c: char) {
    || ('\U{0009}' <= c <= '\U{000D}')
    || ('\U{001C}' <= c <= '\U{0020}')
    || c == '\U{0085}'
    || c == '\U{00A0}'
    || c == '\U{1680}'
    || ('\U{2000}' <= c <= '\U{200A}')
    || c == '\U{2028}'
    || c == '\U{2029}'
    || c == '\U{202F}'
    || c == '\U{205F}'
    || c == '\U{3000}'
  }

  /** Every character of `s` is whitespace (vacuously so for the empty string). */
  predicate IsBlank(s: string) {
    forall i :: 0 <= i < |s| ==> IsSpace(s[i])
  }

  /** `s` with its leading whitespace removed: a suffix of `s` not starting with a space. */
  function TrimStart(s: string): (r: string)
    ensures |r| <= |s| && r == s[|s| - |r|..]
    ensures forall i :: 0 <= i < |s| - |r| ==> IsSpace(s[i])
    ensures r == [] || !IsSpace(r[0])
    decreases |s|
  {
    if |s| > 0 && IsSpace(s[0]) then TrimStart(s[1..]) else s
  }

  /** `s` with its trailing whitespace removed: a prefix of `s` not ending with a space. */
  function TrimEnd(s: string): (r: string)
    ensures |r| <= |s| && r == s[..|r|]
    ensures forall i :: |r| <= i < |s| ==> IsSpace(s[i])
    ensures r == [] || !IsSpace(r[|r| - 1])
    decreases |s|
  {
    if |s| > 0 && IsSpace(s[|s| - 1]) then TrimEnd(s[..|s| - 1]) else s
  }

  /** A prefix whose every character is whitespace is blank. */
  lemma BlankUpTo(s: string, hi: nat)
    requires hi <= |s|
    requires forall i :: 0 <= i < hi ==> IsSpace(s[i])
    ensures IsBlank(s[..hi])
  {
    assert forall i :: 0 <= i < hi ==> s[..hi][i] == s[i];
  }

  /** A suffix whose every character is whitespace is blank. */
  lemma BlankFrom(s: string, lo: nat)
    requires lo <= |s|
    requires forall i :: lo <= i < |s| ==> IsSpace(s[i])
    ensures IsBlank(s[lo..])
  {
    assert forall i :: 0 <= i < |s| - lo ==> s[lo..][i] == s[lo + i];
  }

  /**
   * `r` is `s` with its leading and trailing whitespace removed: the slice
   * of `s` starting at `a`, with only whitespace before and after it, and
   * neither end of `r` whitespace.
   */
  predicate Stripped(s: string, r: string, a: nat) {
    && a + |r| <= |s| && r == s[a..a + |r|]
    && IsBlank(s[..a]) && IsBlank(s[a + |r|..])
    && (r == [] || (!IsSpace(r[0]) && !IsSpace(r[|r| - 1])))
  }

  /**
   * A prefix `r` of a suffix `t` of `s`, where what `t` drops from `s` and
   * what `r` drops from `t` are whitespace, and where `t` does not start
   * and `r` does not end with whitespace, is `s` stripped.
   */
  lemma SliceBetweenBlanks(s: string, t: string, r: string)
    requires |t| <= |s| && t == s[|s| - |t|..]
    requires forall i :: 0 <= i < |s| - |t| ==> IsSpace(s[i])
    requires |r| <= |t| && r == t[..|r|]
    requires forall i :: |r| <= i < |t| ==> IsSpace(t[i])
    requires t == [] || !IsSpace(t[0])
    requires r == [] || !IsSpace(r[|r| - 1])
    ensures Stripped(s, r, |s| - |t|)
  {
    var a := |s| - |t|;
    BlankUpTo(s, a);
    BlankFrom(t, |r|);
    assert s[a + |r|..] == t[|r|..];
    assert s[a..a + |r|] == r;
  }

  /** Python's `s.strip()`. */
  function Strip(s: string): (r: string)
    ensures |r| <= |s|
    ensures Stripped(s, r, |s| - |TrimStart(s)|)
  {
    var t := TrimStart(s);
    SliceBetweenBlanks(s, t, TrimEnd(t));
    TrimEnd(t)
  }

  /** `s.strip() == ""` holds exactly for the blank strings. */
  lemma StripEmptyIffBlank(s: string)
    ensures Strip(s) == [] <==> IsBlank(s)
  {
    var t := TrimStart(s);
    if Strip(s) == [] {
      assert TrimEnd(t) == [];
      assert t == [];
    }
  }

  // ---------------------------------------------------------------------
  // Decimal text of integers

  /** The decimal digit `d` as a character. */
  function DigitChar(d: nat): char
    requires d < 10
  {
    (48 + d) as char
  }

  /** Every character of `s` is a decimal digit. */
  predicate IsDigits(s: string) {
    forall i :: 0 <= i < |s| ==> '0' <= s[i] <= '9'
  }

  /** The number a string of decimal digits denotes (0 for the empty string). */
  function DigitsValue(s: string): nat
    requires IsDigits(s)
    decreases |s|
  {
    if s == [] then 0 else DigitsValue(s[..|s| - 1]) * 10 + (s[|s| - 1] as int - 48)
  }

  /** `str(n)` for a natural number: decimal digits without a leading zero. */
  function NatToDecimal(n: nat): (r: string)
    ensures r != [] && IsDigits(r)
    ensures r == "0" <==> n == 0
    ensures r[0] == '0' ==> r == "0"
    decreases n
  {
    if n < 10 then [DigitChar(n)] else NatToDecimal(n / 10) + [DigitChar(n % 10)]
  }

  /** Reading back the decimal text of `n` gives `n`. */
  lemma {:induction false} NatToDecimalRoundTrip(n: nat)
    ensures DigitsValue(NatToDecimal(n)) == n
    decreases n
  {
    if n >= 10 {
      var r := NatToDecimal(n / 10);
      NatToDecimalRoundTrip(n / 10);
      assert (r + [DigitChar(n % 10)])[..|r|] == r;
    }
  }

  /** `str(n)` for an integer: a minus sign before the digits of a negative one. */
  function IntToDecimal(n: int): (r: string)
    ensures r != []
    ensures r[0] == '-' <==> n < 0
    ensures n < 0 ==> r[1..] == NatToDecimal(-n)
    ensures n >= 0 ==> r == NatToDecimal(n)
  {
    if n < 0 then "-" + NatToDecimal(-n) else NatToDecimal(n)
  }

  /** Distinct natural numbers have distinct decimal texts. */
  lemma NatToDecimalInjective(m: nat, n: nat)
    requires NatToDecimal(m) == NatToDecimal(n)
    ensures m == n
  {
    NatToDecimalRoundTrip(m);
    NatToDecimalRoundTrip(n);
  }

  /** Distinct integers have distinct decimal texts. */
  lemma IntToDecimalInjective(m: int, n: int)
    ensures IntToDecimal(m) == IntToDecimal(n) <==> m == n
  {
    if IntToDecimal(m) == IntToDecimal(n) {
      if m < 0 {
        assert n < 0;
        assert NatToDecimal(-m) == IntToDecimal(m)[1..] == NatToDecimal(-n);
        NatToDecimalInjective(-m, -n);
      } else {
        assert n >= 0;
        NatToDecimalInjective(m, n);
      }
    }
  }
}
