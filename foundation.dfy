/**
 * The few Foundation and Swift standard-library services that the core calls:
 * `URLComponents.url`, `String.components(separatedBy:)`, `Int(_: String)` and
 * the decimal-digit character class.
 */
module Foundation {
  import opened Wrappers

  /** A URL as the core builds it: scheme, host and path. */
  datatype Url = Url(scheme: string, host: string, path: string)

  /**
   * `URLComponents.url` for components that have a scheme and a host: when an
   * authority is present, the URL exists only if the path is empty or starts with "/".
   */
  function UrlFrom(scheme: string, host: string, path: string): (r: Option<Url>)
    ensures r.Some? <==> (path == [] || path[0] == '/')
    ensures r.Some? ==> r.value.scheme == scheme && r.value.host == host && r.value.path == path
  {
    if path == [] || path[0] == '/' then Some(Url(scheme, host, path)) else None
  }

  /** `String.components(separatedBy:)` for a one-character separator. */
  function Split(s: string, sep: char): (parts: seq<string>)
    ensures |parts| >= 1
    ensures forall i :: 0 <= i < |parts| ==> sep !in parts[i]
  {
    if s == [] then [""]
    else
      var rest := Split(s[1..], sep);
      if s[0] == sep then [""] + rest
      else [[s[0]] + rest[0]] + rest[1..]
  }

  /** The inverse of `Split`: the parts glued back together with the separator. */
  function Join(parts: seq<string>, sep: char): string
    requires |parts| >= 1
  {
    if |parts| == 1 then parts[0] else parts[0] + [sep] + Join(parts[1..], sep)
  }

  /** Number of occurrences of `c` in `s`. */
  function Occurrences(s: string, c: char): nat {
    if s == [] then 0 else (if s[0] == c then 1 else 0) + Occurrences(s[1..], c)
  }

  /** Splitting loses nothing: joining the parts gives back the string. */
  lemma {:induction false} SplitJoin(s: string, sep: char)
    ensures Join(Split(s, sep), sep) == s
  {
    if s != [] {
      var rest := Split(s[1..], sep);
      SplitJoin(s[1..], sep);
      if s[0] != sep && |rest| > 1 {
        assert Split(s, sep)[1..] == rest[1..];
      }
    }
  }

  /** There is one more part than there are separators. */
  lemma {:induction false} SplitCount(s: string, sep: char)
    ensures |Split(s, sep)| == Occurrences(s, sep) + 1
  {
    if s != [] {
      SplitCount(s[1..], sep);
    }
  }

  /** A string without the separator is a single part. */
  lemma {:induction false} SplitNoSeparator(s: string, sep: char)
    requires sep !in s
    ensures Split(s, sep) == [s]
  {
    if s != [] {
      assert s[0] != sep && sep !in s[1..];
      SplitNoSeparator(s[1..], sep);
      assert [s[0]] + s[1..] == s;
    }
  }

  /** Splitting at the first separator: the part before it, then the parts of the rest. */
  lemma {:induction false} SplitAtFirst(s: string, sep: char, k: nat)
    requires k < |s| && s[k] == sep && sep !in s[..k]
    ensures Split(s, sep) == [s[..k]] + Split(s[k + 1..], sep)
  {
    if k > 0 {
      assert s[1..][k - 1] == sep;
      assert s[1..][..k - 1] == s[1..k];
      assert sep !in s[1..k];
      SplitAtFirst(s[1..], sep, k - 1);
      assert s[1..][k..] == s[k + 1..];
      assert [s[0]] + s[1..k] == s[..k];
    }
  }

  /** CharacterSet.decimalDigits, restricted to the ASCII digits. */
  predicate IsDecimalDigit(c: char) {
    '0' <= c <= '9'
  }

  predicate AllDecimalDigits(s: string) {
    forall i :: 0 <= i < |s| ==> IsDecimalDigit(s[i])
  }

  const Int64Min: int := -0x8000_0000_0000_0000
  const Int64Max: int := 0x7FFF_FFFF_FFFF_FFFF

  /** The value of a string of decimal digits. */
  function DigitsValue(s: string): (n: nat)
    requires AllDecimalDigits(s)
  {
    if s == [] then 0 else DigitsValue(s[..|s| - 1]) * 10 + (s[|s| - 1] as int - '0' as int)
  }

  /** The canonical decimal digits of a natural number. */
  function Digits(n: nat): (s: string)
    ensures |s| >= 1 && AllDecimalDigits(s)
  {
    if n < 10 then [(n + '0' as int) as char] else Digits(n / 10) + [(n % 10 + '0' as int) as char]
  }

  /**
   * Swift's `Int(_: String)` on a 64-bit platform: an optional sign followed by
   * at least one decimal digit, nothing else, and a value that fits in 64 bits.
   */
  function ParseInt(s: string): (r: Option<int>)
    ensures r.Some? ==> Int64Min <= r.value <= Int64Max
  {
    if s == [] then None
    else
      var negative := s[0] == '-';
      var body := if s[0] == '-' || s[0] == '+' then s[1..] else s;
      if body == [] || !AllDecimalDigits(body) then None
      else
        var magnitude: int := DigitsValue(body);
        var v := if negative then -magnitude else magnitude;
        if Int64Min <= v <= Int64Max then Some(v) else None
  }

  /** The decimal rendering of an integer. */
  function Decimal(n: int): string {
    if n < 0 then "-" + Digits(-n) else Digits(n)
  }

  lemma {:induction false} DigitsRoundTrip(n: nat)
    ensures DigitsValue(Digits(n)) == n
  {
    if n >= 10 {
      DigitsRoundTrip(n / 10);
      var s := Digits(n);
      assert s[..|s| - 1] == Digits(n / 10);
    }
  }

  /** `Int(_:)` reads back every 64-bit integer from its decimal rendering. */
  lemma ParseIntDecimal(n: int)
    requires Int64Min <= n <= Int64Max
    ensures ParseInt(Decimal(n)) == Some(n)
  {
    if n < 0 {
      ParseNegative(-n);
    } else {
      DigitsRoundTrip(n);
    }
  }

  lemma ParseNegative(m: nat)
    requires 0 < m <= -Int64Min
    ensures ParseInt("-" + Digits(m)) == Some(-(m as int))
  {
    DigitsRoundTrip(m);
    var s := "-" + Digits(m);
    assert s[0] == '-' && s[1..] == Digits(m);
  }

  /** Text that is not a signed run of digits is rejected. */
  lemma ParseIntRejects()
    ensures ParseInt("") == None && ParseInt("-") == None && ParseInt("12a") == None
    ensures ParseInt(" 5") == None && ParseInt("72.5") == None
  {
    assert !IsDecimalDigit("12a"[2]);
    assert !IsDecimalDigit(" 5"[0]);
    assert !IsDecimalDigit("72.5"[2]);
  }
}
