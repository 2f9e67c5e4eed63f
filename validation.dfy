/** app/utils/validation.py: validators that either return a normalised value or fail with
    a ValidationError, and price clipping. Failure is an Err value. */
module Validation {
  import opened Wrappers
  import opened Models
  import opened Text

  /** A value handed to a validator: a number (`int` or `float`) or anything else, which
      the numeric validators reject. */
  datatype Value = Number(x: real) | NotANumber

  /** The reasons a validator fails. */
  datatype ValidationError = NotNumeric | OutOfRange | Negative | Empty | TooLong | BadOutcome

  /** `validate_price`. */
  function ValidatePrice(v: Value): (r: Result<real, ValidationError>)
    ensures r.Ok? <==> v.Number? && 0.0 <= v.x <= 1.0
    ensures r.Ok? ==> r.value == v.x
    ensures v.NotANumber? ==> r == Err(NotNumeric)
  {
    match v
    case NotANumber => Err(NotNumeric)
    case Number(x) => if 0.0 <= x <= 1.0 then Ok(x) else Err(OutOfRange)
  }

  /** `validate_size`. */
  function ValidateSize(v: Value): (r: Result<real, ValidationError>)
    ensures r.Ok? <==> v.Number? && v.x >= 0.0
    ensures r.Ok? ==> r.value == v.x
    ensures v.NotANumber? ==> r == Err(NotNumeric)
  {
    match v
    case NotANumber => Err(NotNumeric)
    case Number(x) => if x < 0.0 then Err(Negative) else Ok(x)
  }

  /** `validate_market_id`, for an identifier that is already a string. */
  function ValidateMarketId(id: string): (r: Result<string, ValidationError>)
    ensures r.Ok? <==> Strip(id) != ""
    ensures r.Ok? ==> r.value == Strip(id) && !IsSpace(r.value[0]) && !IsSpace(r.value[|r.value| - 1])
    ensures r.Err? ==> r.error == Empty
  {
    var s := Strip(id);
    if s == "" then Err(Empty) else Ok(s)
  }

  /** `validate_event_name`, for a name that is already a string. */
  function ValidateEventName(event: string): (r: Result<string, ValidationError>)
    ensures r.Ok? <==> Strip(event) != "" && |Strip(event)| <= 500
    ensures r.Ok? ==> r.value == Strip(event) && 0 < |r.value| <= 500
    ensures r.Ok? ==> !IsSpace(r.value[0]) && !IsSpace(r.value[|r.value| - 1])
  {
    var s := Strip(event);
    if s == "" then Err(Empty)
    else if |s| > 500 then Err(TooLong)
    else Ok(s)
  }

  /** `validate_outcome`, for an outcome that is already a string. */
  function ValidateOutcome(outcome: string): (r: Result<string, ValidationError>)
    ensures r.Ok? ==> r.value == "YES" || r.value == "NO"
    ensures r.Ok? <==> Upper(Strip(outcome)) in {"YES", "NO"}
  {
    var s := Upper(Strip(outcome));
    if s == "YES" || s == "NO" then Ok(s) else Err(BadOutcome)
  }

  /** Lower-casing does not change whitespace, so it commutes with stripping. */
  lemma LowerKeepsSpace(c: char)
    ensures IsSpace(LowerChar(c)) == IsSpace(c)
  {
  }

  lemma {:induction false} StripLeftLower(s: string)
    ensures StripLeft(Lower(s)) == Lower(StripLeft(s))
  {
    if s != [] {
      var l := Lower(s);
      assert l[0] == LowerChar(s[0]);
      LowerKeepsSpace(s[0]);
      if IsSpace(s[0]) {
        assert l[1..] == Lower(s[1..]);
        StripLeftLower(s[1..]);
      }
    }
  }

  lemma {:induction false} StripRightLower(s: string)
    ensures StripRight(Lower(s)) == Lower(StripRight(s))
  {
    if s != [] {
      var n := |s| - 1;
      var l := Lower(s);
      assert l[n] == LowerChar(s[n]);
      LowerKeepsSpace(s[n]);
      if IsSpace(s[n]) {
        assert l[..n] == Lower(s[..n]);
        StripRightLower(s[..n]);
      }
    }
  }

  lemma UpperOfLower(s: string)
    ensures Upper(Lower(s)) == Upper(s)
  {
  }

  /** `validate_outcome` ignores case: a lower-cased input gives the same result. */
  lemma ValidateOutcomeIgnoresCase(outcome: string)
    ensures ValidateOutcome(Lower(outcome)) == ValidateOutcome(outcome)
  {
    StripLeftLower(outcome);
    StripRightLower(StripLeft(outcome));
    UpperOfLower(Strip(outcome));
  }

  /** Surrounding whitespace and case are ignored. */
  lemma ValidateOutcomeAcceptsPaddedLowerCase()
    ensures ValidateOutcome(" yes\n") == Ok("YES")
  {
    var s := " yes\n";
    assert s[1..] == "yes\n";
    StripLeftFixes("yes\n");
    assert StripLeft(s) == "yes\n";
    assert "yes\n"[..3] == "yes";
    StripRightFixes("yes");
    assert StripRight("yes\n") == "yes";
    YesNoUpper();
  }

  lemma YesNoUpper()
    ensures Upper("yes") == "YES" && Upper("No") == "NO"
  {
    var u := Upper("yes");
    assert u[0] == 'Y' && u[1] == 'E' && u[2] == 'S';
    var v := Upper("No");
    assert v[0] == 'N' && v[1] == 'O';
  }

  lemma ValidateOutcomeAcceptsMixedCase()
    ensures ValidateOutcome("No") == Ok("NO")
  {
    StripLeftFixes("No");
    StripRightFixes("No");
    YesNoUpper();
  }

  /** Anything other than yes or no fails. */
  lemma ValidateOutcomeRejectsOthers()
    ensures ValidateOutcome("maybe") == Err(BadOutcome)
  {
    StripLeftFixes("maybe");
    StripRightFixes("maybe");
    assert Upper("maybe")[0] == 'M';
  }

  /** `clip_price`: `max(lo, min(hi, price))`. */
  function ClipPrice(price: real, lo: real, hi: real): (r: real)
    ensures r >= lo
    ensures lo <= hi ==> r <= hi
    ensures lo <= price <= hi ==> r == price
  {
    Max(lo, Min(hi, price))
  }

  /** Clipping twice is clipping once. */
  lemma ClipPriceIdempotent(price: real, lo: real, hi: real)
    ensures ClipPrice(ClipPrice(price, lo, hi), lo, hi) == ClipPrice(price, lo, hi)
  {
  }

  /** The defaults clip into [0.01, 0.99]. */
  lemma ClipPriceDefaults(price: real)
    ensures 0.01 <= ClipPrice(price, 0.01, 0.99) <= 0.99
  {
  }
}
