/** The `String` extension: icon URLs, trimming and the UTF-16 length. */
module StringExtensions {
  import opened Wrappers
  import opened Foundation

  /** The placeholder host the icon URLs are built on. */
  const IconHost: string := "YOUR_URL_GOES_HERE"

  function IconSuffix(highlighted: bool): string {
    if highlighted then "-selected.png" else ".png"
  }

  /**
   * `weatherIconURL(highlighted:)`: https, the icon host, and the path
   * "/<key>-selected.png" when highlighted or "/<key>.png" otherwise.
   */
  function WeatherIconURL(key: string, highlighted: bool): (r: Option<Url>)
    ensures r.Some?
    ensures r.value.scheme == "https" && r.value.host == IconHost
    ensures highlighted ==> r.value.path == "/" + key + "-selected.png"
    ensures !highlighted ==> r.value.path == "/" + key + ".png"
  {
    UrlFrom("https", IconHost, "/" + key + IconSuffix(highlighted))
  }

  /** The icon key is recoverable from the path, so distinct keys get distinct URLs. */
  lemma WeatherIconURLInjective(k1: string, k2: string, highlighted: bool)
    requires WeatherIconURL(k1, highlighted) == WeatherIconURL(k2, highlighted)
    ensures k1 == k2
  {
    var sfx := IconSuffix(highlighted);
    var p1 := "/" + k1 + sfx;
    var p2 := "/" + k2 + sfx;
    assert p1 == WeatherIconURL(k1, highlighted).value.path;
    assert p1 == p2;
    assert k1 == p1[1..|p1| - |sfx|];
    assert k2 == p2[1..|p2| - |sfx|];
  }

  /** The highlighted and plain variants of one icon are different URLs. */
  lemma WeatherIconURLVariantsDiffer(key: string)
    ensures WeatherIconURL(key, true) != WeatherIconURL(key, false)
  {
    var p1 := "/" + key + "-selected.png";
    var p2 := "/" + key + ".png";
    assert |p1| != |p2|;
    assert WeatherIconURL(key, true).value.path == p1;
  }

  /** CharacterSet.whitespaces: the tab and the Unicode space separators (category Zs). */
  predicate IsWhitespace(c: char) {
    || c == '\t' || c == ' ' || c == '\U{00A0}' || c == '\U{1680}'
    || ('\U{2000}' <= c <= '\U{200A}')
    || c == '\U{202F}' || c == '\U{205F}' || c == '\U{3000}'
  }

  /** Drops leading whitespace. */
  function TrimStart(s: string): (r: string)
    ensures |r| <= |s| && r == s[|s| - |r|..]
    ensures forall k :: 0 <= k < |s| - |r| ==> IsWhitespace(s[k])
    ensures r != [] ==> !IsWhitespace(r[0])
  {
    if s != [] && IsWhitespace(s[0]) then TrimStart(s[1..]) else s
  }

  /** Drops trailing whitespace. */
  function TrimEnd(s: string): (r: string)
    ensures |r| <= |s| && r == s[..|r|]
    ensures forall k :: |r| <= k < |s| ==> IsWhitespace(s[k])
    ensures r != [] ==> !IsWhitespace(r[|r| - 1])
  {
    if s != [] && IsWhitespace(s[|s| - 1]) then TrimEnd(s[..|s| - 1]) else s
  }

  /**
   * `r` sits in `s` at offset `i`, with only whitespace before and after it.
   */
  ghost predicate WhitespaceFramed(s: string, r: string, i: int) {
    && 0 <= i <= |s| - |r|
    && r == s[i..i + |r|]
    && (forall k :: 0 <= k < i ==> IsWhitespace(s[k]))
    && (forall k :: i + |r| <= k < |s| ==> IsWhitespace(s[k]))
  }

  /**
   * `trimmed()`: the contiguous middle of the string left after removing the
   * whitespace at both ends; it starts and ends with a non-whitespace character.
   */
  function Trimmed(s: string): (r: string)
    ensures |r| <= |s|
    ensures exists i :: WhitespaceFramed(s, r, i)
    ensures r != [] ==> !IsWhitespace(r[0]) && !IsWhitespace(r[|r| - 1])
  {
    TrimsFrame(s);
    TrimEnd(TrimStart(s))
  }

  /** Trimming the start and then the end frames the result in whitespace. */
  lemma TrimsFrame(s: string)
    ensures WhitespaceFramed(s, TrimEnd(TrimStart(s)), |s| - |TrimStart(s)|)
  {
    var front := TrimStart(s);
    var r := TrimEnd(front);
    var i := |s| - |front|;
    SuffixFrame(s, front, r, i);
  }

  /** A prefix `r` of the suffix `front` of `s` at `i` sits in `s` at `i`. */
  lemma SuffixFrame(s: string, front: string, r: string, i: int)
    requires 0 <= i <= |s| && front == s[i..]
    requires |r| <= |front| && r == front[..|r|]
    requires forall k :: 0 <= k < i ==> IsWhitespace(s[k])
    requires forall k :: |r| <= k < |front| ==> IsWhitespace(front[k])
    ensures WhitespaceFramed(s, r, i)
  {
    assert r == s[i..i + |r|];
    forall k | i + |r| <= k < |s|
      ensures IsWhitespace(s[k])
    {
      assert s[k] == front[k - i];
    }
  }

  /** A string without whitespace at its ends is left alone. */
  lemma {:induction false} TrimmedNoop(s: string)
    requires s == [] || (!IsWhitespace(s[0]) && !IsWhitespace(s[|s| - 1]))
    ensures Trimmed(s) == s
  {
  }

  /** Trimming twice is the same as trimming once. */
  lemma TrimmedIdempotent(s: string)
    ensures Trimmed(Trimmed(s)) == Trimmed(s)
  {
    TrimmedNoop(Trimmed(s));
  }

  /** A character outside the Basic Multilingual Plane takes two UTF-16 code units. */
  function Utf16Width(c: char): nat {
    if c as int > 0xFFFF then 2 else 1
  }

  /** `count`: the number of UTF-16 code units of the string. */
  function Utf16Count(s: string): (n: nat)
    ensures |s| <= n <= 2 * |s|
    ensures (forall i :: 0 <= i < |s| ==> s[i] as int <= 0xFFFF) ==> n == |s|
  {
    if s == [] then 0 else Utf16Count(s[..|s| - 1]) + Utf16Width(s[|s| - 1])
  }

  /** The count of a concatenation is the sum of the counts. */
  lemma {:induction false} Utf16CountAppend(a: string, b: string)
    ensures Utf16Count(a + b) == Utf16Count(a) + Utf16Count(b)
  {
    if b != [] {
      assert (a + b)[..|a + b| - 1] == a + b[..|b| - 1];
      Utf16CountAppend(a, b[..|b| - 1]);
    } else {
      assert a + b == a;
    }
  }

  /** Decimal digits are one code unit each. */
  lemma Utf16CountDigits(s: string)
    requires AllDecimalDigits(s)
    ensures Utf16Count(s) == |s|
  {
  }
}
