/** The platform-independent part of the phone-number field
    (packages/phone-number-field/common.ts): auto-masking of typed text
    through an as-you-type formatter, validation and formatting through a
    number parser, and the two property-change handlers.

    The phone-number library is not part of this model: `PhoneLib` stands
    for it as a record of two total functions, whose `TypeThrows` and
    `ParseThrows` outcomes stand for its exceptions. The field's state is
    the value `Field`; the class `PhoneNumberFieldCommon` holds the same
    fields and each of its methods is specified by a function on `Field`. */
module PhoneFieldCommon {
  import opened Optional
  import opened Text

  // ---------------------------------------------------------------------
  // The phone-number library, as an oracle

  /** What the field reads from a parsed number: `isValid()`, the
      `'INTERNATIONAL'` and `'NATIONAL'` formats, and `country`. */
  datatype PhoneNumber = PhoneNumber(valid: bool, international: string, national: string, country: Option<string>)

  /** `parsePhoneNumber(text, country)`: a number, no number, or an
      exception carrying a message. */
  datatype ParseOutcome = Parsed(number: PhoneNumber) | NotParsed | ParseThrows(message: string)

  /** One `AsYouType.input` call: the text formatted so far, or an exception. */
  datatype TypeOutcome = Output(text: string) | TypeThrows

  /** `asYouType(country, d)` is what a fresh `new AsYouType(country)`
      returns from `input` after it has been fed the characters of `d` one
      at a time; `parse(text, country)` is `parsePhoneNumber(text, country)`. */
  datatype PhoneLib = PhoneLib(
    asYouType: (string, string) -> TypeOutcome,
    parse: (string, string) -> ParseOutcome)

  /** A formatter that keeps every digit it is fed and adds none: whenever
      it answers, the digits of its answer are exactly the digits fed so far. */
  ghost predicate WellBehaved(lib: PhoneLib) {
    forall country, d :: d != [] && AllDigits(d) && lib.asYouType(country, d).Output? ==>
      Digits(lib.asYouType(country, d).text) == d
  }

  // ---------------------------------------------------------------------
  // Masking

  /** Some call of the formatter, fed `d` one digit at a time, throws. */
  predicate Throws(lib: PhoneLib, country: string, d: string) {
    exists k :: 1 <= k <= |d| && lib.asYouType(country, d[..k]).TypeThrows?
  }

  /** Every call of the formatter, fed `d` one digit at a time, answers ''. */
  predicate AllEmpty(lib: PhoneLib, country: string, d: string) {
    forall k :: 1 <= k <= |d| ==> lib.asYouType(country, d[..k]) == Output([])
  }

  /** `t` is the last non-empty answer of the formatter fed `d` one digit at
      a time: some call answers `t`, and every later call answers ''. */
  predicate LastNonEmpty(lib: PhoneLib, country: string, d: string, t: string) {
    t != [] &&
    exists k :: 1 <= k <= |d| && lib.asYouType(country, d[..k]) == Output(t) &&
      forall m :: k < m <= |d| ==> lib.asYouType(country, d[..m]) == Output([])
  }

  /** The outcome of the masking loop: an exception, or the last non-empty
      answer (`''` when there was none). */
  datatype FeedResult = FeedThrew | Fed(last: string)

  /** The masking loop over `digits` with a fresh formatter. */
  function Feed(lib: PhoneLib, country: string, digits: string): (r: FeedResult)
    ensures r.FeedThrew? <==> Throws(lib, country, digits)
    ensures r == Fed([]) ==> AllEmpty(lib, country, digits)
    ensures r.Fed? && r.last != [] ==> LastNonEmpty(lib, country, digits, r.last)
  {
    if digits == [] then Fed([])
    else
      var p := digits[..|digits| - 1];
      assert forall k :: 0 <= k <= |p| ==> p[..k] == digits[..k];
      assert digits[..|digits|] == digits;
      match Feed(lib, country, p)
      case FeedThrew => FeedThrew
      case Fed(prev) =>
        match lib.asYouType(country, digits)
        case TypeThrows => FeedThrew
        case Output(t) => Fed(if t != [] then t else prev)
  }

  /** `applyMask`: the input itself when masking is off or the input is
      empty; '' when it has no digit; the input when the formatter throws;
      otherwise the last non-empty answer of the formatter fed the digits of
      the input, or those digits when every answer was empty. */
  function Mask(lib: PhoneLib, autoMask: bool, country: string, input: string): (r: string)
    ensures !autoMask || input == [] ==> r == input
    ensures autoMask && input != [] && CountDigits(input) == 0 ==> r == []
    ensures autoMask && input != [] && Throws(lib, country, Digits(input)) ==> r == input
    ensures autoMask && input != [] && !Throws(lib, country, Digits(input)) ==>
              (AllEmpty(lib, country, Digits(input)) ==> r == Digits(input))
    ensures autoMask && input != [] && !Throws(lib, country, Digits(input)) ==>
              (!AllEmpty(lib, country, Digits(input)) ==> LastNonEmpty(lib, country, Digits(input), r))
  {
    if !autoMask || input == [] then input
    else
      var clean := Digits(input);
      if clean == [] then []
      else
        match Feed(lib, country, clean)
        case FeedThrew => input
        case Fed(last) => if last != [] then last else clean
  }

  /** With a well-behaved formatter the last non-empty answer is the answer
      to the whole digit string. */
  lemma LastNonEmptyIsFinal(lib: PhoneLib, country: string, d: string, t: string)
    requires WellBehaved(lib) && AllDigits(d) && !Throws(lib, country, d)
    requires LastNonEmpty(lib, country, d, t)
    ensures Digits(t) == d
  {
    var k :| 1 <= k <= |d| && lib.asYouType(country, d[..k]) == Output(t) &&
      forall m :: k < m <= |d| ==> lib.asYouType(country, d[..m]) == Output([]);
    assert AllDigits(d[..k]);
    assert d[..|d|] == d;
    assert d[..k] == d;
  }

  /** With a well-behaved formatter masking keeps the digits of the input. */
  lemma MaskPreservesDigits(lib: PhoneLib, autoMask: bool, country: string, input: string)
    requires WellBehaved(lib)
    ensures Digits(Mask(lib, autoMask, country, input)) == Digits(input)
  {
    var d := Digits(input);
    var r := Mask(lib, autoMask, country, input);
    if autoMask && input != [] && d != [] && !Throws(lib, country, d) {
      if AllEmpty(lib, country, d) {
        assert r == d;
      } else {
        LastNonEmptyIsFinal(lib, country, d, r);
      }
    }
  }

  /** With a well-behaved formatter masking a masked text changes nothing:
      the write-back `onTextChanged` makes would find nothing more to do. */
  lemma MaskIdempotent(lib: PhoneLib, autoMask: bool, country: string, input: string)
    requires WellBehaved(lib)
    ensures Mask(lib, autoMask, country, Mask(lib, autoMask, country, input))
            == Mask(lib, autoMask, country, input)
  {
    var r := Mask(lib, autoMask, country, input);
    MaskPreservesDigits(lib, autoMask, country, input);
    if autoMask && input != [] && Digits(input) != [] {
      assert r != [];
    }
  }

  // ---------------------------------------------------------------------
  // Validation and formatting

  /** `PhoneNumberValidationResult`; an absent optional member is `None`. */
  datatype ValidationResult = ValidationResult(
    isValid: bool,
    formattedNumber: Option<string>,
    nationalNumber: Option<string>,
    internationalNumber: Option<string>,
    countryCode: Option<string>,
    errorMessage: Option<string>)

  const RequiredMessage: string := "Nomor telepon harus diisi"
  const BadFormatMessage: string := "Format nomor telepon tidak valid"
  const WrongCountryMessage: string := "Nomor telepon tidak valid untuk negara yang dipilih"
  const ErrorPrefix: string := "Error validasi nomor telepon: "

  function Invalid(message: string): (r: ValidationResult)
    ensures !r.isValid && r.errorMessage == Some(message)
    ensures r.formattedNumber.None? && r.nationalNumber.None? && r.internationalNumber.None?
    ensures r.countryCode.None?
  {
    ValidationResult(false, None, None, None, None, Some(message))
  }

  /** `validatePhoneNumber` on the field's text and country. */
  function Validate(lib: PhoneLib, text: string, country: string): (r: ValidationResult)
    ensures IsBlank(text) ==> r == Invalid(RequiredMessage)
    ensures r.isValid <==>
              !IsBlank(text) && lib.parse(text, country).Parsed? && lib.parse(text, country).number.valid
    ensures r.formattedNumber.Some? <==> r.isValid
    ensures r.nationalNumber.Some? <==> r.isValid
    ensures r.internationalNumber.Some? <==> r.isValid
    ensures r.errorMessage.Some? <==> !r.isValid
    ensures r.isValid ==>
              r.formattedNumber == r.internationalNumber == Some(lib.parse(text, country).number.international)
    ensures r.isValid ==> r.nationalNumber == Some(lib.parse(text, country).number.national)
    ensures !IsBlank(text) && lib.parse(text, country).Parsed? ==>
              r.countryCode == lib.parse(text, country).number.country
    ensures !IsBlank(text) && lib.parse(text, country).Parsed? && !r.isValid ==>
              r.errorMessage == Some(WrongCountryMessage)
    ensures !IsBlank(text) && lib.parse(text, country).NotParsed? ==> r == Invalid(BadFormatMessage)
    ensures !IsBlank(text) && lib.parse(text, country).ParseThrows? ==>
              r == Invalid(ErrorPrefix + lib.parse(text, country).message)
  {
    if IsBlank(text) then Invalid(RequiredMessage)
    else
      match lib.parse(text, country)
      case NotParsed => Invalid(BadFormatMessage)
      case ParseThrows(message) => Invalid(ErrorPrefix + message)
      case Parsed(n) =>
        ValidationResult(
          n.valid,
          if n.valid then Some(n.international) else None,
          if n.valid then Some(n.national) else None,
          if n.valid then Some(n.international) else None,
          n.country,
          if n.valid then None else Some(WrongCountryMessage))
  }

  datatype NumberFormat = National | International

  /** `formatPhoneNumber(format)`: '' for empty text, the requested format of
      the parsed number, and the text itself when parsing fails or throws. */
  function Format(lib: PhoneLib, text: string, country: string, format: NumberFormat): (r: string)
    ensures text == [] ==> r == []
    ensures text != [] && !lib.parse(text, country).Parsed? ==> r == text
    ensures text != [] && lib.parse(text, country).Parsed? && format == National ==>
              r == lib.parse(text, country).number.national
    ensures text != [] && lib.parse(text, country).Parsed? && format == International ==>
              r == lib.parse(text, country).number.international
  {
    if text == [] then []
    else
      match lib.parse(text, country)
      case Parsed(n) => if format == National then n.national else n.international
      case _ => text
  }

  /** A valid validation result carries exactly what formatting gives. */
  lemma FormatAgreesWithValidation(lib: PhoneLib, text: string, country: string)
    requires Validate(lib, text, country).isValid
    ensures Validate(lib, text, country).formattedNumber == Some(Format(lib, text, country, International))
    ensures Validate(lib, text, country).nationalNumber == Some(Format(lib, text, country, National))
  {
  }

  /** Text that is only whitespace is "required" to validation but is still
      handed to the parser by formatting. */
  lemma BlankTextDiffers(lib: PhoneLib, country: string)
    requires lib.parse(" ", country).NotParsed?
    ensures Validate(lib, " ", country).errorMessage == Some(RequiredMessage)
    ensures Format(lib, " ", country, International) == " "
  {
  }

  // ---------------------------------------------------------------------
  // The field

  /** The two events the field emits: `validationChange` carrying the
      result, and `countryCodeChanged` carrying the old and new codes. */
  datatype FieldEvent =
    | ValidationChangeEvent(validation: ValidationResult)
    | CountryCodeChangedEvent(oldValue: string, newValue: string)

  datatype Field = Field(
    text: string,
    countryCode: string,
    autoValidate: bool,
    showCountryPicker: bool,
    autoMask: bool,
    events: seq<FieldEvent>)

  /** The property defaults. */
  const FreshField: Field := Field("", "ID", true, true, true, [])

  /** `onTextChanged(_, newValue)`, called once the text property holds
      `newValue`: when masking is on and changes the text, the masked text is
      written back. The write-back's own change handler is not re-entered
      (see `StoredTextIsMasked`). */
  function AfterTextChange(lib: PhoneLib, f: Field, newValue: string): (r: Field)
    ensures r.(text := f.text) == f
    ensures f.autoMask && newValue != [] && Mask(lib, true, f.countryCode, newValue) != newValue ==>
              r.text == Mask(lib, true, f.countryCode, newValue)
    ensures !(f.autoMask && newValue != [] && Mask(lib, true, f.countryCode, newValue) != newValue) ==>
              r == f
  {
    if f.autoMask && newValue != [] then
      var masked := Mask(lib, f.autoMask, f.countryCode, newValue);
      if masked != newValue then f.(text := masked) else f
    else f
  }

  /** The `text` setter: the property system stores the value and calls the
      change handler only when the value differs from the stored one. */
  function TextSet(lib: PhoneLib, f: Field, value: string): (r: Field)
    ensures value == f.text ==> r == f
    ensures value != f.text ==> r.text == Mask(lib, f.autoMask, f.countryCode, value)
    ensures r.(text := f.text) == f
  {
    if value == f.text then f else AfterTextChange(lib, f.(text := value), value)
  }

  /** `onCountryCodeChanged(oldValue, newValue)`, called once the property
      holds the new code: the text is masked again for the new country, then
      `validationChange` is emitted (only with `autoValidate`), then
      `countryCodeChanged` always. */
  function AfterCountryCodeChange(lib: PhoneLib, f: Field, oldValue: string): (r: Field)
    ensures r.text == Mask(lib, f.autoMask, f.countryCode, f.text)
    ensures |r.events| == |f.events| + (if f.autoValidate then 2 else 1)
    ensures r.events[..|f.events|] == f.events
    ensures f.autoValidate ==> r.events[|f.events|] == ValidationChangeEvent(Validate(lib, r.text, f.countryCode))
    ensures r.events[|r.events| - 1] == CountryCodeChangedEvent(oldValue, f.countryCode)
    ensures r.(text := f.text, events := f.events) == f
  {
    var masked := if f.autoMask && f.text != [] then Mask(lib, f.autoMask, f.countryCode, f.text) else f.text;
    var g := f.(text := masked);
    var validation := if g.autoValidate then [ValidationChangeEvent(Validate(lib, g.text, g.countryCode))] else [];
    g.(events := g.events + validation + [CountryCodeChangedEvent(oldValue, g.countryCode)])
  }

  /** The `countryCode` setter: setting the same code does nothing; a new
      code is stored, the text is masked again for it, `validationChange`
      (with `autoValidate` only, validating the re-masked text against the
      new code) comes strictly before `countryCodeChanged`, which is always
      emitted and is last. */
  function CountryCodeSet(lib: PhoneLib, f: Field, value: string): (r: Field)
    ensures value == f.countryCode ==> r == f
    ensures value != f.countryCode ==>
              && r.countryCode == value
              && r.text == Mask(lib, f.autoMask, value, f.text)
              && |r.events| == |f.events| + (if f.autoValidate then 2 else 1)
              && r.events[..|f.events|] == f.events
              && (f.autoValidate ==> r.events[|f.events|] == ValidationChangeEvent(Validate(lib, r.text, value)))
              && r.events[|r.events| - 1] == CountryCodeChangedEvent(f.countryCode, value)
              && r.(text := f.text, countryCode := f.countryCode, events := f.events) == f
  {
    if value == f.countryCode then f
    else AfterCountryCodeChange(lib, f.(countryCode := value), f.countryCode)
  }

  /** Setting the text never emits an event and touches nothing but the text;
      with a well-behaved formatter the stored text keeps the digits typed and
      is already masked, so a re-entered change handler would change nothing. */
  lemma StoredTextIsMasked(lib: PhoneLib, f: Field, value: string)
    requires WellBehaved(lib) && value != f.text
    ensures TextSet(lib, f, value).events == f.events
    ensures Digits(TextSet(lib, f, value).text) == Digits(value)
    ensures Mask(lib, f.autoMask, f.countryCode, TextSet(lib, f, value).text) == TextSet(lib, f, value).text
  {
    MaskPreservesDigits(lib, f.autoMask, f.countryCode, value);
    MaskIdempotent(lib, f.autoMask, f.countryCode, value);
  }

  // ---------------------------------------------------------------------
  // The class

  class PhoneNumberFieldCommon {
    const lib: PhoneLib
    var text: string
    var countryCode: string
    var autoValidate: bool
    var showCountryPicker: bool
    var autoMask: bool
    var events: seq<FieldEvent>

    function View(): Field
      reads this
    {
      Field(text, countryCode, autoValidate, showCountryPicker, autoMask, events)
    }

    constructor (lib: PhoneLib)
      ensures this.lib == lib && View() == FreshField
    {
      this.lib := lib;
      text := "";
      countryCode := "ID";
      autoValidate := true;
      showCountryPicker := true;
      autoMask := true;
      events := [];
    }

    method SetAutoMask(value: bool)
      modifies this
      ensures View() == old(View()).(autoMask := value)
    {
      autoMask := value;
    }

    method SetAutoValidate(value: bool)
      modifies this
      ensures View() == old(View()).(autoValidate := value)
    {
      autoValidate := value;
    }

    method SetShowCountryPicker(value: bool)
      modifies this
      ensures View() == old(View()).(showCountryPicker := value)
    {
      showCountryPicker := value;
    }

    /** `applyMask`: the digits are fed one at a time to a fresh formatter. */
    method ApplyMask(input: string) returns (r: string)
      ensures r == Mask(lib, autoMask, countryCode, input)
    {
      if !autoMask || input == [] {
        return input;
      }
      var cleanInput := Digits(input);
      if cleanInput == [] {
        return [];
      }
      var result := "";
      var i := 0;
      while i < |cleanInput|
        invariant 0 <= i <= |cleanInput|
        invariant Feed(lib, countryCode, cleanInput[..i]) == Fed(result)
      {
        assert cleanInput[..i + 1][..i] == cleanInput[..i];
        var formatted := lib.asYouType(countryCode, cleanInput[..i + 1]);
        if formatted.TypeThrows? {
          FeedThrewIsFinal(lib, countryCode, cleanInput, i + 1);
          return input;
        }
        if formatted.text != [] {
          result := formatted.text;
        }
        i := i + 1;
      }
      assert cleanInput[..i] == cleanInput;
      r := if result != [] then result else cleanInput;
    }

    /** `onTextChanged(oldValue, newValue)`. */
    method OnTextChanged(oldValue: string, newValue: string)
      modifies this
      ensures View() == AfterTextChange(lib, old(View()), newValue)
    {
      if autoMask && newValue != [] {
        var maskedText := ApplyMask(newValue);
        if maskedText != newValue {
          text := maskedText;
          return;
        }
      }
    }

    /** `setText` and the `text` setter. */
    method SetText(value: string)
      modifies this
      ensures View() == TextSet(lib, old(View()), value)
    {
      if value != text {
        var oldValue := text;
        text := value;
        OnTextChanged(oldValue, value);
      }
    }

    /** `onCountryCodeChanged(oldValue, newValue)`. */
    method OnCountryCodeChanged(oldValue: string, newValue: string)
      requires countryCode == newValue
      modifies this
      ensures View() == AfterCountryCodeChange(lib, old(View()), oldValue)
    {
      if autoMask && text != [] {
        var maskedText := ApplyMask(text);
        if maskedText != text {
          text := maskedText;
        }
      }
      if autoValidate {
        var validation := Validate(lib, text, countryCode);
        events := events + [ValidationChangeEvent(validation)];
      }
      events := events + [CountryCodeChangedEvent(oldValue, newValue)];
    }

    /** `setCountryCode` and the `countryCode` setter. */
    method SetCountryCode(value: string)
      modifies this
      ensures View() == CountryCodeSet(lib, old(View()), value)
    {
      if value != countryCode {
        var oldValue := countryCode;
        countryCode := value;
        OnCountryCodeChanged(oldValue, value);
      }
    }
  }

  /** Once a prefix of the digits makes the formatter throw, the whole loop
      throws. */
  lemma FeedThrewIsFinal(lib: PhoneLib, country: string, digits: string, n: nat)
    requires n <= |digits|
    requires Feed(lib, country, digits[..n]).FeedThrew?
    ensures Feed(lib, country, digits).FeedThrew?
  {
    var k :| 1 <= k <= n && lib.asYouType(country, digits[..n][..k]).TypeThrows?;
    assert digits[..n][..k] == digits[..k];
  }
}
