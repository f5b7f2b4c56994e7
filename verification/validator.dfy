/** `validateCreditCard`: the Luhn check first; the issuer is looked up only
    for a number that passes it. */
module Validator {
  import opened Chars
  import opened Luhn
  import opened Issuers

  /** A JavaScript value that may be `null`. */
  datatype Option<T> = None | Some(value: T)

  /** The object `{ valid, issuer }` the source returns; `issuer` is `null`
      for a rejected number. */
  datatype ValidationResult = ValidationResult(valid: bool, issuer: Option<string>)

  /** `validateCreditCard(cardNumber)`. */
  function ValidateCreditCard(s: string): (r: ValidationResult)
    ensures r.valid <==> AllNumeric(s) && Total(IntValues(s)) % 10 == 0
    ensures r.issuer.None? <==> !r.valid
    ensures r.valid ==> r.issuer == Some(GetCardIssuer(s))
    ensures r.issuer.Some? ==> r.issuer.value in AllLabels || r.issuer.value == Unknown
  {
    if LuhnAlgorithm(s) then ValidationResult(true, Some(GetCardIssuer(s)))
    else ValidationResult(false, None)
  }

  /** On a string of digits, validity is the textbook Luhn test. */
  lemma DigitStringValidity(s: string)
    requires AllDigits(s)
    ensures ValidateCreditCard(s).valid <==> Total(IntValues(s)) % 10 == 0
  {
    DigitStringCheck(s);
  }

  /** The labels that can actually be reported: Visa claims every 16-digit
      number, so MasterCard, Discover, HiperCard and Aura never appear. */
  lemma ReportedIssuers(s: string)
    ensures ValidateCreditCard(s).issuer.Some? ==>
      var issuer := ValidateCreditCard(s).issuer.value;
      (issuer in AllLabels || issuer == Unknown)
      && issuer != Label(MasterCard) && issuer != Label(Discover)
      && issuer != Label(HiperCard) && issuer != Label(Aura)
  {
    var r := ValidateCreditCard(s);
    if r.issuer.Some? {
      assert r.issuer.value == GetCardIssuer(s);
      ShadowedIssuersNeverReturned(s);
    }
  }

  /** The empty string passes the Luhn check (its checksum is 0) and matches
      no pattern. */
  lemma EmptyCardNumber()
    ensures ValidateCreditCard("") == ValidationResult(true, Some("Unknown"))
  {
    EmptyPasses();
    OtherShapesAreUnknown("");
  }

  /** A string of white space only (a blank input, say) is reported valid
      with issuer "Unknown": `Number` turns each character into 0. */
  lemma WhiteSpaceOnlyCardNumber(s: string)
    requires |s| > 0 && forall i :: 0 <= i < |s| ==> IsJsWhiteSpace(s[i])
    ensures ValidateCreditCard(s) == ValidationResult(true, Some("Unknown"))
  {
    WhiteSpaceOnlyPasses(s);
    assert !IsDigit(s[0]);
    OtherShapesAreUnknown(s);
  }

  /** The source's usage example is a valid Visa number; with its last digit
      changed to 0 it is rejected and no issuer is reported. */
  lemma ExampleCards(s: string, t: string)
    requires s == "4532633854619837" && t == "4532633854619830"
    ensures ValidateCreditCard(s) == ValidationResult(true, Some("Visa"))
    ensures ValidateCreditCard(t) == ValidationResult(false, None)
  {
    ExampleNumbers(s, t);
    ExampleIsVisa(s);
  }

  /** The source's usage example is 16 digits, so it is labelled "Visa". */
  lemma ExampleIsVisa(s: string)
    requires s == "4532633854619837"
    ensures GetCardIssuer(s) == "Visa"
  {
    assert AllDigits(s);
    SixteenDigitsAreVisa(s);
  }
}
