/**
 * Application configuration: the review validation bounds and the parser of
 * the `TRUST_PROXY` environment setting.
 */
module Config {
  import opened Wrappers
  import opened Numerals

  /** Review validation rules (`config.review`). */
  const MaxCommentLength: nat := 1000
  const MinRating: int := 1
  const MaxRating: int := 5
  const MaxAuthorNameLength: nat := 100

  /** The rating range is non-empty and both length limits are positive. */
  lemma ReviewBoundsConsistent()
    ensures MinRating <= MaxRating
    ensures MaxCommentLength > 0 && MaxAuthorNameLength > 0
    ensures MinRating == 1 && MaxRating == 5
  {
  }

  /** What Express's `trust proxy` setting may be: a boolean, a hop count or an address list. */
  datatype TrustProxy = Bool(enabled: bool) | Number(hops: nat) | Text(addresses: string)

  /**
   * ASCII lower-casing. JavaScript's `toLowerCase` folds all of Unicode, but no
   * non-ASCII character folds to one of the letters of "true" or "false", so for
   * the two comparisons made here the results agree.
   */
  function LowerChar(c: char): char {
    if 'A' <= c <= 'Z' then ((c as int) + 32) as char else c
  }

  function Lower(s: string): (r: string)
    ensures |r| == |s|
    ensures forall i :: 0 <= i < |s| ==> r[i] == LowerChar(s[i])
  {
    seq(|s|, i requires 0 <= i < |s| => LowerChar(s[i]))
  }

  /** `parseTrustProxy(value)`; `None` is an unset environment variable. */
  function ParseTrustProxy(value: Option<string>): (r: TrustProxy)
    // unset or empty: trust the first hop
    ensures (value == None || value == Some("")) ==> r == Number(1)
    // the boolean words, in any letter case, and nothing else give a boolean
    ensures r == Bool(true) <==> value.Some? && Lower(value.value) == "true"
    ensures r == Bool(false) <==> value.Some? && Lower(value.value) == "false"
    // a non-empty all-digit string gives its base-10 value
    ensures value.Some? && AllDigits(value.value) ==> r == Number(DecimalValue(value.value))
    // any other non-empty string comes back unchanged
    ensures r.Text? <==>
      value.Some? && value.value != "" && !AllDigits(value.value) &&
      Lower(value.value) != "true" && Lower(value.value) != "false"
    ensures r.Text? ==> value == Some(r.addresses)
  {
    match value
    case None => Number(1)
    case Some(v) =>
      if v == "" then Number(1)
      else if Lower(v) == "true" then Bool(true)
      else if Lower(v) == "false" then Bool(false)
      else if AllDigits(v) then Number(DecimalValue(v))
      else Text(v)
  }

  /** Every hop count is read back: the numeral of `n` parses to `Number(n)`. */
  lemma ParseTrustProxyNumber(n: nat)
    ensures ParseTrustProxy(Some(DecimalString(n))) == Number(n)
  {
    var s := DecimalString(n);
    DecimalRoundTrip(n);
    assert Lower(s)[0] == s[0];
    assert IsDigit(s[0]);
  }

  /** Strings that differ only in letter case parse to the same boolean. */
  lemma ParseTrustProxyCaseInsensitive(s: string, t: string)
    requires Lower(s) == Lower(t)
    requires Lower(s) == "true" || Lower(s) == "false"
    ensures ParseTrustProxy(Some(s)) == ParseTrustProxy(Some(t))
    ensures ParseTrustProxy(Some(s)) == Bool(Lower(s) == "true")
  {
  }
}
