/**
 * Python's `int(token)` on a string (base 10) and `str(n)` / f-string
 * formatting of an integer, restricted to ASCII digits.
 */
module PyInt {
  import opened Results
  import opened PyText

  predicate IsDigit(c: char) {
    '0' <= c <= '9'
  }

  /**
   * The digit part of a base-10 integer literal as `int()` accepts it:
   * digits, with single underscores allowed between two digits.
   */
  predicate IsDigitPart(s: string) {
    && s != []
    && IsDigit(s[0])
    && IsDigit(s[|s| - 1])
    && (forall i :: 0 <= i < |s| ==> IsDigit(s[i]) || s[i] == '_')
    && (forall i :: 0 <= i < |s| - 1 ==> !(s[i] == '_' && s[i + 1] == '_'))
  }

  /** The value of a digit string, underscores ignored. */
  function DigitsValue(s: string): nat
  {
    if s == [] then 0
    else if s[|s| - 1] == '_' then DigitsValue(s[..|s| - 1])
    else if IsDigit(s[|s| - 1]) then 10 * DigitsValue(s[..|s| - 1]) + (s[|s| - 1] as int - '0' as int)
    else DigitsValue(s[..|s| - 1])
  }

  /**
   * The whitespace `int()` skips around a literal: ASCII `\t` to `\r` and
   * space, and every non-ASCII character `str.isspace()` accepts. The ASCII
   * separators `\x1c` to `\x1f` count as whitespace for `str.strip()` but not
   * here.
   */
  predicate IsIntSpace(c: char) {
    IsSpace(c) && !('\U{1C}' <= c <= '\U{1F}')
  }

  /** Drops leading `int()` whitespace. */
  function IntTrimLeft(s: string): string
    decreases |s|
  {
    if s != [] && IsIntSpace(s[0]) then IntTrimLeft(s[1..]) else s
  }

  /** Drops trailing `int()` whitespace. */
  function IntTrimRight(s: string): string
    decreases |s|
  {
    if s != [] && IsIntSpace(s[|s| - 1]) then IntTrimRight(s[..|s| - 1]) else s
  }

  /** The literal `int()` reads once its surrounding whitespace is skipped. */
  function IntStrip(s: string): string {
    IntTrimRight(IntTrimLeft(s))
  }

  /**
   * `int(s)`: surrounding whitespace is ignored, then an optional sign, then
   * a digit part; anything else raises `ValueError` (here `None`).
   */
  function ParseInt(s: string): Option<int>
  {
    var t := IntStrip(s);
    if t != [] && (t[0] == '+' || t[0] == '-') then
      if IsDigitPart(t[1..]) then
        var v: int := DigitsValue(t[1..]);
        Some(if t[0] == '-' then -v else v)
      else None
    else if IsDigitPart(t) then Some(DigitsValue(t))
    else None
  }

  /** Skipping leading whitespace keeps a suffix and stops at a character `int()` does not skip. */
  lemma {:induction false} IntTrimLeftSpec(s: string)
    ensures var r := IntTrimLeft(s);
      && |r| <= |s| && r == s[|s| - |r|..]
      && (forall i :: 0 <= i < |s| - |r| ==> IsIntSpace(s[i]))
      && (r == [] || !IsIntSpace(r[0]))
    decreases |s|
  {
    if s != [] && IsIntSpace(s[0]) {
      IntTrimLeftSpec(s[1..]);
      var r := IntTrimLeft(s[1..]);
      assert s[1..][|s| - 1 - |r|..] == s[|s| - |r|..];
      forall i | 1 <= i < |s| - |r|
        ensures IsIntSpace(s[i])
      {
        assert s[i] == s[1..][i - 1];
      }
    }
  }

  /** Skipping trailing whitespace keeps a prefix and stops at a character `int()` does not skip. */
  lemma {:induction false} IntTrimRightSpec(s: string)
    ensures var r := IntTrimRight(s);
      && |r| <= |s| && r == s[..|r|]
      && (forall i :: |r| <= i < |s| ==> IsIntSpace(s[i]))
      && (r == [] || !IsIntSpace(r[|r| - 1]))
    decreases |s|
  {
    if s != [] && IsIntSpace(s[|s| - 1]) {
      IntTrimRightSpec(s[..|s| - 1]);
      var r := IntTrimRight(s[..|s| - 1]);
      assert s[..|s| - 1][..|r|] == s[..|r|];
      forall i | |r| <= i < |s| - 1
        ensures IsIntSpace(s[i])
      {
        assert s[i] == s[..|s| - 1][i];
      }
    }
  }

  /**
   * The literal `int()` reads is a slice of `s` whose ends `int()` does not
   * skip, with only `int()` whitespace around it.
   */
  lemma {:induction false} IntStripSpec(s: string)
    ensures var t, a := IntStrip(s), |s| - |IntTrimLeft(s)|;
      && 0 <= a && a + |t| <= |s| && t == s[a..a + |t|]
      && (forall i :: 0 <= i < a ==> IsIntSpace(s[i]))
      && (forall i :: a + |t| <= i < |s| ==> IsIntSpace(s[i]))
      && (t == [] || (!IsIntSpace(t[0]) && !IsIntSpace(t[|t| - 1])))
  {
    var l := IntTrimLeft(s);
    IntTrimLeftSpec(s);
    IntTrimRightSpec(l);
    IntSliceOfSuffix(s, l, IntTrimRight(l));
  }

  /** `SliceOfSuffix` for the whitespace `int()` skips. */
  lemma IntSliceOfSuffix(s: string, l: string, r: string)
    requires |l| <= |s| && l == s[|s| - |l|..]
    requires |r| <= |l| && r == l[..|r|]
    requires forall i :: |r| <= i < |l| ==> IsIntSpace(l[i])
    ensures var a := |s| - |l|;
      && a + |r| <= |s| && r == s[a..a + |r|]
      && (forall i :: a + |r| <= i < |s| ==> IsIntSpace(s[i]))
      && (r != [] ==> r[0] == l[0])
  {
    var a := |s| - |l|;
    forall i | a + |r| <= i < |s|
      ensures IsIntSpace(s[i])
    {
      assert s[i] == l[i - a];
    }
  }

  /** A string whose ends `int()` does not skip is read as it stands. */
  lemma IntStripKeeps(s: string)
    requires s == [] || (!IsIntSpace(s[0]) && !IsIntSpace(s[|s| - 1]))
    ensures IntStrip(s) == s
  {
    assert IntTrimLeft(s) == s;
  }

  /** The decimal digits of `n`, most significant first, no leading zero. */
  function FormatNat(n: nat): (r: string)
    ensures r != []
    ensures forall i :: 0 <= i < |r| ==> IsDigit(r[i])
    ensures |r| > 1 ==> r[0] != '0'
  {
    if n < 10 then ['0' + n as char]
    else FormatNat(n / 10) + ['0' + (n % 10) as char]
  }

  /** `str(n)` for an integer. */
  function FormatInt(n: int): string
  {
    if n < 0 then "-" + FormatNat(-n) else FormatNat(n)
  }

  lemma {:induction false} DigitsValueFormatNat(n: nat)
    ensures DigitsValue(FormatNat(n)) == n
  {
    var r := FormatNat(n);
    if n >= 10 {
      DigitsValueFormatNat(n / 10);
      assert r[..|r| - 1] == FormatNat(n / 10);
    }
  }

  lemma FormatNatIsDigitPart(n: nat)
    ensures IsDigitPart(FormatNat(n))
  {
  }

  /** `int(str(n)) == n`: formatting an integer and parsing it back is the identity. */
  lemma ParseFormatInt(n: int)
    ensures ParseInt(FormatInt(n)) == Some(n)
  {
    var r := FormatInt(n);
    var d := FormatNat(if n < 0 then -n else n);
    FormatNatIsDigitPart(if n < 0 then -n else n);
    DigitsValueFormatNat(if n < 0 then -n else n);
    IntStripKeeps(r);
    if n < 0 {
      assert r[1..] == d;
    }
  }

  /** An empty or all-whitespace token is not an integer literal. */
  lemma ParseIntBlank(s: string)
    requires Strip(s) == []
    ensures ParseInt(s) == None
  {
    StripSpec(s);
    IntStripSpec(s);
    var t := IntStrip(s);
    if t != [] {
      var a := |s| - |IntTrimLeft(s)|;
      assert t[0] == s[a] && IsSpace(t[0]);
      assert !IsDigitPart(t);
    }
  }

  /**
   * `int()` does not skip the ASCII separators `\x1c` to `\x1f`, although
   * `str.strip()` does: `int("\x1c1")` raises.
   */
  lemma FileSeparatorIsNotIntSpace()
    ensures Strip("\U{1C}1") == "1"
    ensures ParseInt("\U{1C}1") == None
  {
    assert IntStrip("\U{1C}1") == "\U{1C}1";
  }
}
