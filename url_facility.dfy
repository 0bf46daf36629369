/** `WeatherURLFacility`: zip-code validation and the forecast request URL. */
module URLFacility {
  import opened Wrappers
  import opened Foundation
  import opened StringExtensions

  datatype WeatherURLFacilityError = BadZipCode | BadURL

  /** `description` of the facility errors. */
  function Description(e: WeatherURLFacilityError): (d: string)
    ensures e == BadZipCode <==> d == "Invalid zip code format."
    ensures e == BadURL <==> d == "Bad URL."
  {
    match e
    case BadZipCode => "Invalid zip code format."
    case BadURL => "Bad URL."
  }

  /** The placeholder API key compiled into the request path. */
  const WeatherAPIKey: string := "YOUR_KEY_GOES_HERE"
  const APIHost: string := "api.wunderground.com"

  /** A facility holds the zip code it was created with. */
  datatype WeatherURLFacility = WeatherURLFacility(zipCode: string)

  /**
   * `validZipCode()`: split on "-"; the first part must be 5 UTF-16 code units
   * long; with one part it must be all digits; with two parts the second must be
   * 4 long and all digits (the first is then not checked for digits); more parts
   * are rejected.
   */
  function ValidZipCode(zipCode: string): (ok: bool)
    ensures ok ==> |Split(zipCode, '-')| <= 2
  {
    var separated := Split(zipCode, '-');
    var componentOne := separated[0];
    if Utf16Count(componentOne) != 5 then false
    else if |separated| == 1 then AllDecimalDigits(componentOne)
    else if |separated| == 2 then
      var componentTwo := separated[1];
      Utf16Count(componentTwo) == 4 && AllDecimalDigits(componentTwo)
    else false
  }

  /**
   * The accepted zip codes, described on the string itself: five digits, or a
   * dash-free first part of five UTF-16 code units, a dash, and four digits.
   */
  lemma {:induction false} ValidZipCodeShape(z: string)
    ensures ValidZipCode(z) <==>
      (|z| == 5 && AllDecimalDigits(z)) ||
      (exists k :: 0 <= k < |z| && z[k] == '-' && DashForm(z, k))
  {
    if '-' !in z {
      SplitNoSeparator(z, '-');
      if ValidZipCode(z) { Utf16CountDigits(z); }
      if |z| == 5 && AllDecimalDigits(z) { Utf16CountDigits(z); }
    } else {
      var k := FirstDash(z);
      SplitAtFirst(z, '-', k);
      var rest := z[k + 1..];
      if ValidZipCode(z) {
        assert Split(z, '-') == [z[..k]] + Split(rest, '-');
        assert |Split(rest, '-')| == 1;
        SplitCount(rest, '-');
        OccurrencesZero(rest, '-');
        SplitNoSeparator(rest, '-');
        Utf16CountDigits(rest);
        assert DashForm(z, k);
      }
      if exists j :: 0 <= j < |z| && z[j] == '-' && DashForm(z, j) {
        var j :| 0 <= j < |z| && z[j] == '-' && DashForm(z, j);
        assert j == k;
        SplitNoSeparator(rest, '-');
        Utf16CountDigits(rest);
      }
      assert !IsDecimalDigit(z[k]);
    }
  }

  /** The dash form with its dash at position `k`. */
  ghost predicate DashForm(z: string, k: int)
    requires 0 <= k < |z|
  {
    '-' !in z[..k] && Utf16Count(z[..k]) == 5 && |z| == k + 5 && AllDecimalDigits(z[k + 1..])
  }

  /** The position of the first dash. */
  function FirstDash(z: string): (k: nat)
    requires '-' in z
    ensures k < |z| && z[k] == '-' && '-' !in z[..k]
  {
    if z[0] == '-' then 0
    else
      var k := FirstDash(z[1..]) + 1;
      assert z[..k] == [z[0]] + z[1..][..k - 1];
      k
  }

  lemma {:induction false} OccurrencesZero(s: string, c: char)
    requires Occurrences(s, c) == 0
    ensures c !in s
  {
    if s != [] {
      OccurrencesZero(s[1..], c);
      assert s == [s[0]] + s[1..];
    }
  }

  /** `init?(zipCode:)`: a facility exactly when the zip code is valid. */
  function Init(zipCode: string): (r: Option<WeatherURLFacility>)
    ensures r.Some? <==> ValidZipCode(zipCode)
    ensures r.Some? ==> r.value.zipCode == zipCode
  {
    if !ValidZipCode(zipCode) then None else Some(WeatherURLFacility(zipCode))
  }

  /** The request path template. */
  function RequestPath(zipCode: string): string {
    "/api/" + WeatherAPIKey + "/conditions/hourly/q/" + zipCode + ".json"
  }

  /**
   * `url`: https on api.wunderground.com with the path
   * "/api/<key>/conditions/hourly/q/<zip>.json"; it always exists, since the path starts with "/".
   */
  function Url(f: WeatherURLFacility): (r: Option<Foundation.Url>)
    ensures r.Some?
    ensures r.value.scheme == "https" && r.value.host == "api.wunderground.com"
    ensures r.value.path == "/api/" + WeatherAPIKey + "/conditions/hourly/q/" + f.zipCode + ".json"
  {
    UrlFrom("https", APIHost, RequestPath(f.zipCode))
  }

  /** Five digits are accepted. */
  lemma ZipCodeFiveDigits()
    ensures ValidZipCode("12345")
  {
    assert '-' !in "12345";
    SplitNoSeparator("12345", '-');
    assert Utf16Count("12345") == 5;
  }

  /**
   * A zip code with exactly one dash is judged on its two parts: five code units before
   * the dash, four digits after it.
   */
  lemma TwoPartRule(first: string, second: string)
    requires '-' !in first && '-' !in second
    ensures ValidZipCode(first + "-" + second) <==>
              Utf16Count(first) == 5 && Utf16Count(second) == 4 && AllDecimalDigits(second)
  {
    var z := first + "-" + second;
    assert z[|first|] == '-';
    assert z[..|first|] == first;
    assert z[|first| + 1..] == second;
    SplitAtFirst(z, '-', |first|);
    SplitNoSeparator(second, '-');
    assert Split(z, '-') == [first, second];
  }

  /** Five digits, a dash and four digits are accepted. */
  lemma ZipCodePlusFour(z: string)
    requires z == "12345-6789"
    ensures ValidZipCode(z)
  {
    assert z == "12345" + "-" + "6789";
    assert '-' !in "12345" && '-' !in "6789";
    TwoPartRule("12345", "6789");
  }

  /** A zip code without a dash must be five digits. */
  lemma OnePartRule(z: string)
    requires '-' !in z
    ensures ValidZipCode(z) <==> Utf16Count(z) == 5 && AllDecimalDigits(z)
  {
    SplitNoSeparator(z, '-');
  }

  /** The empty string, wrong lengths and letters are rejected. */
  lemma ZipCodeRejected(z: string)
    requires z == "" || z == "1234" || z == "123456" || z == "abcde"
    ensures !ValidZipCode(z)
  {
    if z == "" {
      assert Split(z, '-') == [""];
    } else if z == "abcde" {
      assert '-' !in z && !IsDecimalDigit(z[0]);
      OnePartRule(z);
    } else {
      assert '-' !in z && Utf16Count(z) == |z| != 5;
      OnePartRule(z);
    }
  }

  /** A last part shorter than four is rejected. */
  lemma ZipCodeShortLastPart(z: string)
    requires z == "12345-123"
    ensures !ValidZipCode(z)
  {
    assert z == "12345" + "-" + "123";
    assert '-' !in "12345" && '-' !in "123";
    TwoPartRule("12345", "123");
  }

  /** Two dashes or more are rejected, whatever the parts. */
  lemma ManyPartsRule(first: string, second: string, rest: string)
    requires '-' !in first && '-' !in second
    ensures !ValidZipCode(first + "-" + second + "-" + rest)
  {
    var z := first + "-" + second + "-" + rest;
    var tail := second + "-" + rest;
    assert z == first + "-" + tail;
    assert z[|first|] == '-' && z[..|first|] == first && z[|first| + 1..] == tail;
    SplitAtFirst(z, '-', |first|);
    assert tail[|second|] == '-' && tail[..|second|] == second;
    SplitAtFirst(tail, '-', |second|);
  }

  /** Three parts are rejected. */
  lemma ZipCodeThreeParts(z: string)
    requires z == "12345-67-89"
    ensures !ValidZipCode(z)
  {
    assert z == "12345" + "-" + "67" + "-" + "89";
    assert '-' !in "12345" && '-' !in "67";
    ManyPartsRule("12345", "67", "89");
  }

  /** In the dash form only the length of the first part is checked. */
  lemma DashFormSkipsFirstPartDigits(z: string)
    requires z == "abcde-1234"
    ensures ValidZipCode(z)
  {
    assert z == "abcde" + "-" + "1234";
    assert '-' !in "abcde" && '-' !in "1234";
    TwoPartRule("abcde", "1234");
  }
}
