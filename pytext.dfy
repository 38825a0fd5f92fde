/**
 * The Python string operations the index-file loader relies on:
 * `str.strip()` and `re.split(r",| ", ...)`.
 */
module PyText {

  /** Python's `str.isspace()` for one character (the characters `str.strip()` removes). */
  predicate IsSpace(c: char) {
    || c == ' '
    || ('\t' <= c <= '\r')
    || ('\U{1C}' <= c <= '\U{1F}')
    || c == '\U{85}'
    || c == '\U{A0}'
    || c == '\U{1680}'
    || ('\U{2000}' <= c <= '\U{200A}')
    || c == '\U{2028}'
    || c == '\U{2029}'
    || c == '\U{202F}'
    || c == '\U{205F}'
    || c == '\U{3000}'
  }

  /** Drops leading whitespace. */
  function TrimLeft(s: string): string
    decreases |s|
  {
    if s != [] && IsSpace(s[0]) then TrimLeft(s[1..]) else s
  }

  /** Drops trailing whitespace. */
  function TrimRight(s: string): string
    decreases |s|
  {
    if s != [] && IsSpace(s[|s| - 1]) then TrimRight(s[..|s| - 1]) else s
  }

  /** Python's `str.strip()` with no argument. */
  function Strip(s: string): string {
    TrimRight(TrimLeft(s))
  }

  /** True when `s` neither starts nor ends with whitespace. */
  predicate Stripped(s: string) {
    s == [] || (!IsSpace(s[0]) && !IsSpace(s[|s| - 1]))
  }

  /** `TrimLeft` keeps a suffix, drops only whitespace, and stops at a non-space. */
  lemma {:induction false} TrimLeftSpec(s: string)
    ensures var r := TrimLeft(s);
      && |r| <= |s| && r == s[|s| - |r|..]
      && (forall i :: 0 <= i < |s| - |r| ==> IsSpace(s[i]))
      && (r == [] || !IsSpace(r[0]))
    decreases |s|
  {
    if s != [] && IsSpace(s[0]) {
      TrimLeftSpec(s[1..]);
      var r := TrimLeft(s[1..]);
      assert s[1..][|s| - 1 - |r|..] == s[|s| - |r|..];
      forall i | 1 <= i < |s| - |r|
        ensures IsSpace(s[i])
      {
        assert s[i] == s[1..][i - 1];
      }
    }
  }

  /** `TrimRight` keeps a prefix, drops only whitespace, and stops at a non-space. */
  lemma {:induction false} TrimRightSpec(s: string)
    ensures var r := TrimRight(s);
      && |r| <= |s| && r == s[..|r|]
      && (forall i :: |r| <= i < |s| ==> IsSpace(s[i]))
      && (r == [] || !IsSpace(r[|r| - 1]))
    decreases |s|
  {
    if s != [] && IsSpace(s[|s| - 1]) {
      TrimRightSpec(s[..|s| - 1]);
      var r := TrimRight(s[..|s| - 1]);
      assert s[..|s| - 1][..|r|] == s[..|r|];
      forall i | |r| <= i < |s| - 1
        ensures IsSpace(s[i])
      {
        assert s[i] == s[..|s| - 1][i];
      }
    }
  }

  /** A prefix `r` of a suffix `l` of `s` is a slice of `s`; what follows it in `s` is what followed it in `l`. */
  lemma SliceOfSuffix(s: string, l: string, r: string)
    requires |l| <= |s| && l == s[|s| - |l|..]
    requires |r| <= |l| && r == l[..|r|]
    requires forall i :: |r| <= i < |l| ==> IsSpace(l[i])
    ensures var a := |s| - |l|;
      && a + |r| <= |s| && r == s[a..a + |r|]
      && (forall i :: a + |r| <= i < |s| ==> IsSpace(s[i]))
      && (r != [] ==> r[0] == l[0])
  {
    var a := |s| - |l|;
    forall i | a + |r| <= i < |s|
      ensures IsSpace(s[i])
    {
      assert s[i] == l[i - a];
    }
  }

  /**
   * `Strip(s)` is the slice of `s` left after removing whitespace at both
   * ends, and it has no whitespace at either end.
   */
  lemma {:induction false} StripSpec(s: string)
    ensures Stripped(Strip(s))
    ensures var a := |s| - |TrimLeft(s)|;
      && 0 <= a && a + |Strip(s)| <= |s|
      && Strip(s) == s[a..a + |Strip(s)|]
      && (forall i :: 0 <= i < a ==> IsSpace(s[i]))
      && (forall i :: a + |Strip(s)| <= i < |s| ==> IsSpace(s[i]))
  {
    var l := TrimLeft(s);
    TrimLeftSpec(s);
    TrimRightSpec(l);
    SliceOfSuffix(s, l, TrimRight(l));
  }

  /** A string without whitespace at its ends is left alone by `Strip`. */
  lemma {:induction false} StripStripped(s: string)
    requires Stripped(s)
    ensures Strip(s) == s
  {
    assert TrimLeft(s) == s;
  }

  /** `Strip` is idempotent. */
  lemma StripIdempotent(s: string)
    ensures Strip(Strip(s)) == Strip(s)
  {
    StripSpec(s);
    StripStripped(Strip(s));
  }

  /** The two separators of the pattern `,| `. */
  predicate IsSep(c: char) {
    c == ',' || c == ' '
  }

  /** A token free of separators. */
  predicate NoSep(t: string) {
    forall i :: 0 <= i < |t| ==> !IsSep(t[i])
  }

  /** The separator characters of `s`, in order. */
  function Seps(s: string): (r: seq<char>)
    ensures forall k :: 0 <= k < |r| ==> IsSep(r[k])
    ensures |r| <= |s|
  {
    if s == [] then []
    else (if IsSep(s[0]) then [s[0]] else []) + Seps(s[1..])
  }

  /**
   * `re.split(r",| ", s)`: every single `,` or space is a split point, so a
   * run of separators yields empty tokens and `""` yields `[""]`.
   */
  function Split(s: string): (r: seq<string>)
    ensures |r| == |Seps(s)| + 1
    ensures forall k :: 0 <= k < |r| ==> NoSep(r[k])
  {
    if s == [] then [[]]
    else
      var rest := Split(s[1..]);
      if IsSep(s[0]) then [[]] + rest
      else [[s[0]] + rest[0]] + rest[1..]
  }

  /** Interleaves tokens with separators: `ts[0] + seps[0] + ts[1] + ...`. */
  function Join(ts: seq<string>, seps: seq<char>): string
    requires |ts| == |seps| + 1
  {
    if seps == [] then ts[0]
    else ts[0] + [seps[0]] + Join(ts[1..], seps[1..])
  }

  /** Splitting loses nothing: re-joining with the separators found gives back `s`. */
  lemma {:induction false} JoinSplit(s: string)
    ensures Join(Split(s), Seps(s)) == s
  {
    if s != [] {
      JoinSplit(s[1..]);
      var rest, q := Split(s[1..]), Seps(s[1..]);
      var ts := Split(s);
      if IsSep(s[0]) {
        assert ts[0] == [] && ts[1..] == rest;
        assert Seps(s) == [s[0]] + q;
        assert Join(ts, Seps(s)) == [] + [s[0]] + Join(rest, q);
      } else {
        assert ts[0] == [s[0]] + rest[0] && ts[1..] == rest[1..];
        assert Seps(s) == q;
        if q == [] {
          assert Join(ts, q) == [s[0]] + Join(rest, q);
        } else {
          assert Join(ts, q) == ts[0] + [q[0]] + Join(ts[1..], q[1..]);
          assert Join(rest, q) == rest[0] + [q[0]] + Join(rest[1..], q[1..]);
        }
      }
      assert [s[0]] + s[1..] == s;
    }
  }

  /** Splitting a separator-free prefix glued to `w` extends the first token of `w`. */
  lemma {:induction false} SplitNoSepPrefix(t: string, w: string)
    requires NoSep(t)
    ensures Split(t + w) == [t + Split(w)[0]] + Split(w)[1..]
    ensures Seps(t + w) == Seps(w)
    decreases |t|
  {
    if t == [] {
      assert t + w == w;
      var sw := Split(w);
      assert [] + sw[0] == sw[0];
      assert [sw[0]] + sw[1..] == sw;
    } else {
      assert (t + w)[0] == t[0];
      assert (t + w)[1..] == t[1..] + w;
      SplitNoSepPrefix(t[1..], w);
      assert [t[0]] + (t[1..] + Split(w)[0]) == t + Split(w)[0];
    }
  }

  /**
   * Splitting is the inverse of joining separator-free tokens with
   * separators: the tokens and the separators both come back.
   */
  lemma {:induction false} SplitJoin(ts: seq<string>, seps: seq<char>)
    requires |ts| == |seps| + 1
    requires forall k :: 0 <= k < |ts| ==> NoSep(ts[k])
    requires forall k :: 0 <= k < |seps| ==> IsSep(seps[k])
    ensures Split(Join(ts, seps)) == ts
    ensures Seps(Join(ts, seps)) == seps
    decreases |seps|
  {
    if seps == [] {
      SplitNoSepPrefix(ts[0], []);
      assert ts[0] + [] == ts[0];
    } else {
      var w := Join(ts[1..], seps[1..]);
      SplitJoin(ts[1..], seps[1..]);
      var tail := [seps[0]] + w;
      assert ts[0] + [seps[0]] + w == ts[0] + tail;
      SplitNoSepPrefix(ts[0], tail);
      assert tail[0] == seps[0] && tail[1..] == w;
      assert Split(tail) == [[]] + ts[1..];
      assert ts[0] + [] == ts[0];
      assert [ts[0]] + ts[1..] == ts;
    }
  }

  /** A string with no separator splits into itself alone. */
  lemma SplitNoSep(s: string)
    requires NoSep(s)
    ensures Split(s) == [s]
  {
    SplitNoSepPrefix(s, []);
    assert s + [] == s;
  }
}
