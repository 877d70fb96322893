/**
 * The pieces of Python's string handling that the Pi's mode and PID files go
 * through: `str.strip()`, `int(text)` and `str(pid)`.
 */
module PyText {
  import opened Wrappers

  /** Python's `str.isspace` on one character. */
  predicate IsSpace(c: char)
  {
    || c == ' ' || c == '\t' || c == '\n' || c == '\r' || c == '\U{0B}' || c == '\U{0C}'
    || ('\U{1C}' <= c <= '\U{1F}')
    || c == '\U{85}' || c == '\U{A0}' || c == '\U{1680}'
    || ('\U{2000}' <= c <= '\U{200A}')
    || c == '\U{2028}' || c == '\U{2029}' || c == '\U{202F}' || c == '\U{205F}' || c == '\U{3000}'
  }

  /** `s` neither begins nor ends with whitespace. */
  predicate Unpadded(s: string)
  {
    s == [] || (!IsSpace(s[0]) && !IsSpace(s[|s| - 1]))
  }

  /** Every character of `s` is whitespace. */
  predicate AllSpace(s: string)
  {
    forall i :: 0 <= i < |s| ==> IsSpace(s[i])
  }

  /** `r` is the slice of `s` that starts at `a`, and every character of `s` around it is whitespace. */
  predicate KeptAmidSpace(s: string, a: int, r: string)
  {
    0 <= a && a + |r| <= |s| && r == s[a..a + |r|] &&
    forall i :: 0 <= i < |s| && (i < a || a + |r| <= i) ==> IsSpace(s[i])
  }

  /** Drops leading whitespace: the result is a suffix of `s`, and only whitespace was dropped. */
  function TrimStart(s: string): (r: string)
    ensures |r| <= |s| && r == s[|s| - |r|..]
    ensures r == [] || !IsSpace(r[0])
    ensures forall i :: 0 <= i < |s| - |r| ==> IsSpace(s[i])
  {
    if |s| > 0 && IsSpace(s[0]) then TrimStart(s[1..]) else s
  }

  /** Drops trailing whitespace: the result is a prefix of `s`, and only whitespace was dropped. */
  function TrimEnd(s: string): (r: string)
    ensures |r| <= |s| && r == s[..|r|]
    ensures r == [] || !IsSpace(r[|r| - 1])
    ensures forall i :: |r| <= i < |s| ==> IsSpace(s[i])
  {
    if |s| > 0 && IsSpace(s[|s| - 1]) then TrimEnd(s[..|s| - 1]) else s
  }

  /** Python's `s.strip()`: `s` with its leading and trailing whitespace removed, and nothing else. */
  function Strip(s: string): (r: string)
    ensures KeptAmidSpace(s, |s| - |TrimStart(s)|, r)
    ensures Unpadded(r)
    ensures r == [] <==> AllSpace(s)
    ensures Unpadded(s) ==> r == s
  {
    StrippedSlice(s);
    StrippedEnds(s);
    StrippedEmpty(s);
    StrippedWhole(s);
    TrimEnd(TrimStart(s))
  }

  /** Trimming both ends keeps one slice of `s`, and everything around that slice is whitespace. */
  lemma StrippedSlice(s: string)
    ensures KeptAmidSpace(s, |s| - |TrimStart(s)|, TrimEnd(TrimStart(s)))
  {
    KeptAfterTrims(s, TrimStart(s), TrimEnd(TrimStart(s)));
  }

  /** A whitespace-only prefix dropped from `s`, then a whitespace-only suffix, leave a slice amid whitespace. */
  lemma KeptAfterTrims(s: string, t: string, r: string)
    requires |t| <= |s| && t == s[|s| - |t|..] && forall i :: 0 <= i < |s| - |t| ==> IsSpace(s[i])
    requires |r| <= |t| && r == t[..|r|] && forall i :: |r| <= i < |t| ==> IsSpace(t[i])
    ensures KeptAmidSpace(s, |s| - |t|, r)
  {
    var a := |s| - |t|;
    SliceOfSuffix(s, t, r);
    forall i | 0 <= i < |s| && (i < a || a + |r| <= i)
      ensures IsSpace(s[i])
    {
      if a + |r| <= i {
        assert s[i] == t[i - a];
      }
    }
  }

  /** A prefix `r` of a suffix `t` of `s` is the slice of `s` after what `t` dropped. */
  lemma SliceOfSuffix<T>(s: seq<T>, t: seq<T>, r: seq<T>)
    requires |t| <= |s| && t == s[|s| - |t|..]
    requires |r| <= |t| && r == t[..|r|]
    ensures r == s[|s| - |t|..|s| - |t| + |r|]
    ensures forall i :: |s| - |t| <= i < |s| ==> s[i] == t[i - (|s| - |t|)]
  {
  }

  /** What trimming both ends keeps begins and ends with a non-space character. */
  lemma StrippedEnds(s: string)
    ensures Unpadded(TrimEnd(TrimStart(s)))
  {
    var t := TrimStart(s);
    var r := TrimEnd(t);
    assert r != [] ==> r[0] == t[0];
  }

  /** Trimming both ends leaves nothing exactly when `s` is all whitespace. */
  lemma StrippedEmpty(s: string)
    ensures TrimEnd(TrimStart(s)) == [] <==> AllSpace(s)
  {
    var t := TrimStart(s);
    var r := TrimEnd(t);
    StrippedSlice(s);
    if r != [] {
      StrippedEnds(s);
      assert s[|s| - |t|] == r[0];
    }
  }

  /** A string that neither begins nor ends with whitespace is left as it is. */
  lemma StrippedWhole(s: string)
    ensures Unpadded(s) ==> TrimEnd(TrimStart(s)) == s
  {
    if Unpadded(s) {
      assert TrimStart(s) == s;
    }
  }

  predicate IsDigit(c: char) { '0' <= c <= '9' }

  lemma DigitIsNotSpace(c: char)
    requires IsDigit(c)
    ensures !IsSpace(c) && c != '-' && c != '+'
  {
  }

  predicate AllDigits(s: string) { forall i :: 0 <= i < |s| ==> IsDigit(s[i]) }

  function DigitChar(d: nat): (c: char)
    requires d < 10
    ensures IsDigit(c) && c as int - '0' as int == d
  {
    ('0' as int + d) as char
  }

  /** The value of a run of decimal digits, most significant first. */
  function DigitsValue(s: string): nat
    requires AllDigits(s)
  {
    if s == [] then 0 else DigitsValue(s[..|s| - 1]) * 10 + (s[|s| - 1] as int - '0' as int)
  }

  /**
   * Python's `int(text)` on an already stripped string: an optional sign followed by
   * one or more ASCII digits; anything else is the ValueError case, None here.
   */
  function ParseInt(s: string): Option<int>
  {
    if |s| > 0 && (s[0] == '-' || s[0] == '+') then
      if |s| > 1 && AllDigits(s[1..]) then
        var magnitude: int := DigitsValue(s[1..]);
        Some(if s[0] == '-' then -magnitude else magnitude)
      else None
    else if |s| > 0 && AllDigits(s) then Some(DigitsValue(s))
    else None
  }

  /** Python's `str(n)` for a non-negative integer. */
  function NatToString(n: nat): (s: string)
    ensures |s| > 0 && AllDigits(s)
  {
    if n < 10 then [DigitChar(n)] else NatToString(n / 10) + [DigitChar(n % 10)]
  }

  /** Reading back what `str(n)` wrote gives `n`. */
  lemma {:induction false} DigitsRoundTrip(n: nat)
    ensures DigitsValue(NatToString(n)) == n
  {
    if n >= 10 {
      var s := NatToString(n / 10);
      DigitsRoundTrip(n / 10);
      assert (s + [DigitChar(n % 10)])[..|s|] == s;
    }
  }

  /** `int(str(n)) == n`, and `str(n)` survives `strip()` unchanged. */
  lemma ParseIntRoundTrip(n: nat)
    ensures Strip(NatToString(n)) == NatToString(n)
    ensures ParseInt(NatToString(n)) == Some(n)
  {
    var s := NatToString(n);
    DigitIsNotSpace(s[0]);
    DigitIsNotSpace(s[|s| - 1]);
    DigitsRoundTrip(n);
  }
}
