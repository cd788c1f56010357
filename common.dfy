/**
 * Shared vocabulary: optional values, results for the source's exceptions,
 * and the few Python string operations the pipeline relies on
 * (`str.strip()`, `str.split('/')`, `str(int)`).
 */
module Common {

  datatype Option<T> = None | Some(value: T)

  /** A value, or the exception the source raises instead of returning it. */
  datatype Result<T, E> = Ok(value: T) | Err(error: E)

  // ---------------------------------------------------------------------
  // str.strip()
  // ---------------------------------------------------------------------

  /** The characters `str.strip()` removes: those for which `str.isspace()`
      holds (tab to carriage return, the four information separators, space,
      next line, no-break space, and the Unicode space and separator
      characters). */
  predicate IsSpace(c: char) {
    ('\t' <= c <= '\r') || ('\U{1C}' <= c <= ' ') || c == '\U{85}' || c == '\U{A0}' || c == '\U{1680}'
    || ('\U{2000}' <= c <= '\U{200A}') || c == '\U{2028}' || c == '\U{2029}' || c == '\U{202F}'
    || c == '\U{205F}' || c == '\U{3000}'
  }

  /** The first position at or after `i` that does not hold whitespace, or
      `|s|`. */
  function SkipSpace(s: string, i: nat): (j: nat)
    requires i <= |s|
    ensures i <= j <= |s| && (j < |s| ==> !IsSpace(s[j]))
    ensures forall k :: i <= k < j ==> IsSpace(s[k])
    decreases |s| - i
  {
    if i < |s| && IsSpace(s[i]) then SkipSpace(s, i + 1) else i
  }

  /** The end of `s[lo..j]` once its trailing whitespace is cut off. */
  function SkipSpaceBack(s: string, lo: nat, j: nat): (e: nat)
    requires lo <= j <= |s|
    ensures lo <= e <= j && (e > lo ==> !IsSpace(s[e - 1]))
    ensures forall k :: e <= k < j ==> IsSpace(s[k])
  {
    if j > lo && IsSpace(s[j - 1]) then SkipSpaceBack(s, lo, j - 1) else j
  }

  /** `s.strip()`: `s` without its leading and trailing whitespace.  The
      result is the infix of `s` that starts after the leading whitespace and
      is followed by whitespace only, and it neither starts nor ends with
      whitespace; these facts determine it. */
  function Strip(s: string): (r: string)
    ensures var i := SkipSpace(s, 0);
      i + |r| <= |s| && r == s[i..i + |r|]
      && (forall k :: 0 <= k < i ==> IsSpace(s[k]))
      && (forall k :: i + |r| <= k < |s| ==> IsSpace(s[k]))
    ensures r == [] || (!IsSpace(r[0]) && !IsSpace(r[|r| - 1]))
    ensures |r| <= |s|
  {
    var i := SkipSpace(s, 0);
    s[i..SkipSpaceBack(s, i, |s|)]
  }

  /** Stripping a string that has no surrounding whitespace leaves it unchanged. */
  lemma StripOfStripped(s: string)
    requires s == [] || (!IsSpace(s[0]) && !IsSpace(s[|s| - 1]))
    ensures Strip(s) == s
  {
  }

  // ---------------------------------------------------------------------
  // str.split('/')
  // ---------------------------------------------------------------------

  /** `s.split('/')`: the pieces between slashes, always at least one. */
  function SplitSlash(s: string): (r: seq<string>)
    ensures |r| >= 1
  {
    if s == [] then [""]
    else
      var init := SplitSlash(s[..|s| - 1]);
      var c := s[|s| - 1];
      if c == '/' then init + [""]
      else
        assert s[..|s| - 1] + [c] == s;
        init[..|init| - 1] + [init[|init| - 1] + [c]]
  }

  /** No piece of a split contains the separator. */
  lemma {:induction false} SplitSlashPieces(s: string)
    ensures forall k :: 0 <= k < |SplitSlash(s)| ==> '/' !in SplitSlash(s)[k]
  {
    if s != [] {
      SplitSlashPieces(s[..|s| - 1]);
    }
  }

  /** The last piece of `s.split('/')` is the text after the last slash. */
  lemma {:induction false} SplitSlashLast(s: string)
    ensures var r := SplitSlash(s); r[|r| - 1] == LastSegment(s)
  {
    if s == [] {
      SplitSlashLastEmpty(s);
    } else {
      SplitSlashLast(s[..|s| - 1]);
      SplitSlashLastExtend(s);
    }
  }

  lemma SplitSlashLastEmpty(s: string)
    requires s == []
    ensures var r := SplitSlash(s); r[|r| - 1] == LastSegment(s)
  {
    assert SplitSlash(s) == [""];
    assert LastSegment(s) == "";
  }

  lemma SplitSlashLastExtend(s: string)
    requires s != []
    requires var init := SplitSlash(s[..|s| - 1]); init[|init| - 1] == LastSegment(s[..|s| - 1])
    ensures var r := SplitSlash(s); r[|r| - 1] == LastSegment(s)
  {
    var t, ch := s[..|s| - 1], s[|s| - 1];
    SplitSlashStep(t, ch);
    LastSegmentStep(s);
    assert t + [ch] == s;
    var r, init := SplitSlash(s), SplitSlash(t);
    assert r[|r| - 1] == if ch == '/' then "" else init[|init| - 1] + [ch];
    assert LastSegment(s) == if ch == '/' then "" else LastSegment(t) + [ch];
  }

  /** One more character starts a new last piece when it is a slash, and
      otherwise ends the last piece. */
  lemma SplitSlashStep(t: string, ch: char)
    ensures var r, init := SplitSlash(t + [ch]), SplitSlash(t);
      r[|r| - 1] == if ch == '/' then "" else init[|init| - 1] + [ch]
  {
    var s := t + [ch];
    assert s[..|s| - 1] == t;
  }

  /** One more character ends the text after the last slash, or empties it
      when the character is a slash. */
  lemma LastSegmentStep(s: string)
    requires s != []
    ensures LastSegment(s) == if s[|s| - 1] == '/' then "" else LastSegment(s[..|s| - 1]) + [s[|s| - 1]]
  {
    var t, ch := s[..|s| - 1], s[|s| - 1];
    if ch == '/' {
      assert LastIndexOf(s, '/') == |s| - 1;
    } else {
      var i := LastIndexOf(t, '/');
      assert LastIndexOf(s, '/') == i;
      assert s[i + 1..] == t[i + 1..] + [ch];
    }
  }

  /** A text without a slash splits into itself alone. */
  lemma {:induction false} SplitSlashWhole(s: string)
    requires '/' !in s
    ensures SplitSlash(s) == [s]
  {
    if s != [] {
      SplitSlashWhole(s[..|s| - 1]);
      assert s[..|s| - 1] + [s[|s| - 1]] == s;
    }
  }

  /** Index of the last `c` in `s`, or -1. */
  function LastIndexOf(s: string, c: char): (i: int)
    ensures -1 <= i < |s|
    ensures i >= 0 ==> s[i] == c
    ensures forall k :: i < k < |s| ==> s[k] != c
  {
    if s == [] then -1
    else if s[|s| - 1] == c then |s| - 1
    else LastIndexOf(s[..|s| - 1], c)
  }

  /** `s.split('/')[-1]`: the part of `s` after its last slash. */
  function LastSegment(s: string): (r: string)
    ensures '/' !in r
    ensures |r| <= |s| && r == s[|s| - |r|..]
    ensures |r| < |s| ==> s[|s| - |r| - 1] == '/'
  {
    s[LastIndexOf(s, '/') + 1..]
  }

  // ---------------------------------------------------------------------
  // str(int)
  // ---------------------------------------------------------------------

  function Digit(d: nat): (c: char)
    requires d < 10
    ensures '0' <= c <= '9'
  {
    "0123456789"[d]
  }

  /** Decimal text of a natural number, without leading zeros. */
  function NatText(n: nat): (r: string)
    ensures |r| >= 1 && '0' <= r[0] <= '9'
    ensures forall k :: 0 <= k < |r| ==> '0' <= r[k] <= '9'
    ensures (|r| == 1) == (n < 10)
  {
    if n < 10 then [Digit(n)] else NatText(n / 10) + [Digit(n % 10)]
  }

  /** Python's `str(i)` for an integer. */
  function IntText(i: int): (r: string)
    ensures |r| >= 1
    ensures (r[0] == '-') == (i < 0)
  {
    if i < 0 then "-" + NatText(-i) else NatText(i)
  }

  lemma {:induction false} NatTextInjective(m: nat, n: nat)
    requires NatText(m) == NatText(n)
    ensures m == n
  {
    if m >= 10 && n >= 10 {
      var a, b := NatText(m), NatText(n);
      assert a[..|a| - 1] == NatText(m / 10);
      assert b[..|b| - 1] == NatText(n / 10);
      NatTextInjective(m / 10, n / 10);
      assert Digit(m % 10) == a[|a| - 1] == b[|b| - 1] == Digit(n % 10);
    } else if m < 10 && n < 10 {
      assert Digit(m) == Digit(n);
    }
  }

  /** Different integers have different decimal texts. */
  lemma IntTextInjective(i: int, j: int)
    requires IntText(i) == IntText(j)
    ensures i == j
  {
    if i < 0 && j < 0 {
      assert IntText(i)[1..] == NatText(-i);
      assert IntText(j)[1..] == NatText(-j);
      NatTextInjective(-i, -j);
    } else if i >= 0 && j >= 0 {
      NatTextInjective(i, j);
    }
  }
}
