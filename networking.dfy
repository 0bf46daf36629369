/** The completion result type and the networking errors. */
module Networking {
  import opened Wrappers

  /** `Result<T>`: a success payload, or a failure that may or may not carry an error. */
  datatype Result<T, E> = Success(value: T) | Failure(error: Option<E>)

  /** `NetworkError`, each case with an optional reason. */
  datatype NetworkError = Invalid(reason: Option<string>) | CannotParse(reason: Option<string>)

  const InvalidPrefix: string := "Unable to make request: "
  const CannotParsePrefix: string := "Unable to parse response: "

  /** `description`: the case's prefix followed by the reason, or "Unknown" when there is none. */
  function Description(e: NetworkError): (d: string)
    ensures e.Invalid? ==> d == "Unable to make request: " + e.reason.GetOr("Unknown")
    ensures e.CannotParse? ==> d == "Unable to parse response: " + e.reason.GetOr("Unknown")
  {
    match e
    case Invalid(reason) => InvalidPrefix + reason.GetOr("Unknown")
    case CannotParse(reason) => CannotParsePrefix + reason.GetOr("Unknown")
  }

  /**
   * The description tells the case apart and gives back the reason, except
   * that a missing reason reads the same as the reason "Unknown".
   */
  lemma DescriptionDetermines(e1: NetworkError, e2: NetworkError)
    ensures Description(e1) == Description(e2) <==>
      (e1.Invalid? == e2.Invalid? && e1.reason.GetOr("Unknown") == e2.reason.GetOr("Unknown"))
  {
    var d1, d2 := Description(e1), Description(e2);
    var r1, r2 := e1.reason.GetOr("Unknown"), e2.reason.GetOr("Unknown");
    if d1 == d2 {
      assert d1[10] == d2[10];
      assert e1.Invalid? == e2.Invalid?;
      var n := if e1.Invalid? then |InvalidPrefix| else |CannotParsePrefix|;
      assert r1 == d1[n..] && r2 == d2[n..];
    }
  }

  /** Without a reason, a request error reads "Unable to make request: Unknown". */
  lemma DescriptionWithoutReason()
    ensures Description(Invalid(None)) == "Unable to make request: Unknown"
    ensures Description(CannotParse(None)) == "Unable to parse response: Unknown"
  {
  }
}
