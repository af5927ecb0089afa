/** Phone-number normalisation (utils/phone_utils.py): the checks and the choice of parse
    region made before handing the number to the `phonenumbers` library. */
module PhoneUtils {
  import opened Base
  import opened Text
  import opened Values

  /** The region used when the caller names none. */
  const DefaultRegion: string := "US"

  /** The region assumed for a number written with a leading national trunk prefix `0`. */
  const GhanaRegion: string := "GH"

  const NumberRequired: string := "Phone number is required"

  /** The three calls made into the `phonenumbers` library, left uninterpreted; `N` is the
      library's parsed-number type. A region of `None` asks `parse` to read the country
      code from the number itself. */
  datatype PhoneLibrary<!N> = PhoneLibrary(
    parse: (string, Option<string>) -> Result<N>,
    isValidNumber: N -> bool,
    formatE164: N -> string)

  /** The region `parse` is given for an already stripped number, chosen by its first
      character: none for `+`, Ghana for `0`, the default region for anything else. */
  function ParseRegion(number: string, defaultRegion: Option<string>): (region: Option<string>)
    ensures number == [] ==> region == defaultRegion
    ensures number != [] && number[0] == '+' ==> region == None
    ensures number != [] && number[0] == '0' ==> region == Some(GhanaRegion)
    ensures number != [] && number[0] != '+' && number[0] != '0' ==> region == defaultRegion
  {
    assert number != [] ==> (StartsWith(number, "+") <==> number[0] == '+');
    assert number != [] ==> (StartsWith(number, "0") <==> number[0] == '0');
    if StartsWith(number, "+") then None
    else if StartsWith(number, "0") then Some(GhanaRegion)
    else defaultRegion
  }

  /** The prefix every failure inside the `try` block carries. */
  function ParsingPrefix(number: string): string {
    "Error parsing phone number '" + number + "': "
  }

  /** The ValueError the `except` clause raises for a failure `cause`. */
  function Wrapped(number: string, cause: Error): Error {
    ValueError(ParsingPrefix(number) + cause.message)
  }

  /** What the `try` block makes of the library's parse of the stripped `number`. */
  function Interpret<N>(lib: PhoneLibrary<N>, number: string, parsed: Result<N>): (r: Result<string>)
    ensures r.Ok? <==> parsed.Ok? && lib.isValidNumber(parsed.value)
    ensures r.Ok? ==> r.value == lib.formatE164(parsed.value)
    // Every failure is re-raised as a ValueError naming the number.
    ensures r.Err? ==> r.error.ValueError? && StartsWith(r.error.message, ParsingPrefix(number))
    ensures parsed.Err? ==> r == Err(Wrapped(number, parsed.error))
  {
    var r := match parsed
      case Err(e) => Err(Wrapped(number, e))
      case Ok(n) =>
        if !lib.isValidNumber(n) then Err(Wrapped(number, ValueError("Invalid phone number: " + number)))
        else Ok(lib.formatE164(n));
    assert r.Err? ==> StartsWith(r.error.message, ParsingPrefix(number)) by {
      if r.Err? {
        var p := ParsingPrefix(number);
        assert r.error.message[..|p|] == p;
      }
    }
    r
  }

  /** `clean_phone_number(raw_number, default_region)`. */
  function CleanPhoneNumber<N>(lib: PhoneLibrary<N>, raw: Option<string>, defaultRegion: Option<string>)
    : (r: Result<string>)
    // Empty or missing input is refused before the `try`, so its message is not wrapped.
    ensures !Filled(raw) ==> r == Err(ValueError(NumberRequired))
    // Every other failure is a ValueError naming the stripped number.
    ensures Filled(raw) && r.Err? ==>
              r.error.ValueError? && StartsWith(r.error.message, ParsingPrefix(Strip(raw.value)))
    // Success means the library parsed the stripped number in the chosen region and judged it
    // valid; the result is its E.164 form.
    ensures r.Ok? <==>
              Filled(raw) &&
              var number := Strip(raw.value);
              var parsed := lib.parse(number, ParseRegion(number, defaultRegion));
              parsed.Ok? && lib.isValidNumber(parsed.value)
    ensures r.Ok? ==>
              var number := Strip(raw.value);
              r.value == lib.formatE164(lib.parse(number, ParseRegion(number, defaultRegion)).value)
  {
    if !Filled(raw) then
      Err(ValueError(NumberRequired))
    else
      var number := Strip(raw.value);
      Interpret(lib, number, lib.parse(number, ParseRegion(number, defaultRegion)))
  }

  /** A number the library parses but judges invalid is refused with the wrapped
      "Invalid phone number" message. */
  lemma InvalidNumberRejected<N>(lib: PhoneLibrary<N>, raw: string, defaultRegion: Option<string>)
    requires raw != []
    requires var number := Strip(raw);
             var parsed := lib.parse(number, ParseRegion(number, defaultRegion));
             parsed.Ok? && !lib.isValidNumber(parsed.value)
    ensures CleanPhoneNumber(lib, Some(raw), defaultRegion)
            == Err(ValueError(ParsingPrefix(Strip(raw)) + "Invalid phone number: " + Strip(raw)))
  {
  }

  /** Whitespace around the input does not change the region, because the strip comes first. */
  lemma PaddingDoesNotChangeRegion<N>(lib: PhoneLibrary<N>, pre: string, number: string, post: string,
                                      defaultRegion: Option<string>)
    requires AllSpace(pre) && AllSpace(post) && number != []
    ensures CleanPhoneNumber(lib, Some(pre + number + post), defaultRegion)
            == CleanPhoneNumber(lib, Some(number), defaultRegion)
  {
    StripIgnoresPadding(pre, number, post);
    assert |pre + number + post| > 0;
  }

  /** A number that is already stripped is parsed, as it stands, in the region its first
      character selects. */
  lemma ParsedAsWritten<N>(lib: PhoneLibrary<N>, number: string, region: Option<string>)
    requires number != [] && !IsSpace(number[0]) && !IsSpace(number[|number| - 1])
    requires ParseRegion(number, Some(DefaultRegion)) == region
    ensures CleanPhoneNumber(lib, Some(number), Some(DefaultRegion))
            == Interpret(lib, number, lib.parse(number, region))
  {
    TrimUnchanged(number, IsSpace);
  }

  /** The three examples of the doc comment, with the region each one is parsed in. */
  lemma DocExamples<N>(lib: PhoneLibrary<N>)
    ensures CleanPhoneNumber(lib, Some("0555123456"), Some(DefaultRegion))
            == Interpret(lib, "0555123456", lib.parse("0555123456", Some(GhanaRegion)))
    ensures CleanPhoneNumber(lib, Some("+1 (628) 555-0100"), Some(DefaultRegion))
            == Interpret(lib, "+1 (628) 555-0100", lib.parse("+1 (628) 555-0100", None))
    ensures CleanPhoneNumber(lib, Some("6285550100"), Some(DefaultRegion))
            == Interpret(lib, "6285550100", lib.parse("6285550100", Some(DefaultRegion)))
  {
    var ghana, plus, local := "0555123456", "+1 (628) 555-0100", "6285550100";
    assert ghana[0] == '0' && ghana[|ghana| - 1] == '6';
    assert plus[0] == '+' && plus[|plus| - 1] == '0';
    assert local[0] == '6' && local[|local| - 1] == '0';
    ParsedAsWritten(lib, ghana, Some(GhanaRegion));
    ParsedAsWritten(lib, plus, None);
    ParsedAsWritten(lib, local, Some(DefaultRegion));
  }
}
