/** The Android phone-number field (packages/phone-number-field/index.android.ts):
    what its text watcher does after each edit (the cursor-at-start fix,
    masking, moving the cursor so that it keeps the same number of digits to
    its left, and writing the text back), the country-button label, and the
    country-picker guard.

    The class `PhoneNumberField` extends the common field in the source; here
    it holds the common field as `base`. The native edit text and button are
    the fields `editText`, `selection` and `buttonLabel`. */
module PhoneFieldAndroid {
  import opened Text
  import opened Optional
  import Countries
  import PFC = PhoneFieldCommon

  // ---------------------------------------------------------------------
  // Cursor mapping, on values

  /** The length of the shortest prefix of `s` holding `d` digits, which is
      the position just after its `d`-th digit; nothing when `d` is 0 or `s`
      has fewer than `d` digits. */
  function DigitEnd(s: string, d: nat): (r: Option<nat>)
    ensures r.Some? ==> 1 <= r.value <= |s| && IsDigit(s[r.value - 1])
    ensures r.Some? ==> CountDigits(s[..r.value]) == d && CountDigits(s[..r.value - 1]) < d
    ensures r.None? <==> d == 0 || CountDigits(s) < d
  {
    if s == [] || CountDigits(s) < d then None
    else
      var p := s[..|s| - 1];
      assert forall k :: 0 <= k <= |p| ==> p[..k] == s[..k];
      assert s[..|s|] == s;
      if CountDigits(p) >= d then DigitEnd(p, d) else Some(|s|)
  }

  /** A longer prefix holds at least as many digits. */
  lemma {:induction false} CountDigitsMonotone(s: string, i: nat, j: nat)
    requires i <= j <= |s|
    ensures CountDigits(s[..i]) <= CountDigits(s[..j])
    decreases j - i
  {
    if i < j {
      CountDigitsMonotone(s, i, j - 1);
      assert s[..j][..j - 1] == s[..j - 1];
    }
  }

  /** The first prefix reaching `d` digits is the one `DigitEnd` finds. */
  lemma DigitEndAt(s: string, d: nat, k: nat)
    requires 1 <= d && 1 <= k <= |s|
    requires CountDigits(s[..k]) == d && CountDigits(s[..k - 1]) < d
    ensures DigitEnd(s, d) == Some(k)
  {
    assert s[..|s|] == s;
    CountDigitsMonotone(s, k, |s|);
    var r := DigitEnd(s, d).value;
    if r < k {
      CountDigitsMonotone(s, r, k - 1);
    } else if r > k {
      CountDigitsMonotone(s, k, r - 1);
    }
  }

  /** Where the text watcher puts the cursor after replacing `newText`, whose
      cursor was at `cursorPos`, by `masked`: just after the digit of
      `masked` that has as many digits up to it as `newText` had left of the
      cursor; at the end of `masked` when the cursor was at the start or
      unknown, when no digit was left of it, or when `masked` has too few
      digits. */
  function CursorAfterMask(newText: string, masked: string, cursorPos: int): (r: nat)
    ensures r <= |masked|
    ensures cursorPos <= 0 ==> r == |masked|
    ensures cursorPos > 0 ==>
              var d := CountDigits(newText[..Min(cursorPos, |newText|)]);
              && (d == 0 || CountDigits(masked) < d ==> r == |masked|)
              && (d > 0 && CountDigits(masked) >= d ==>
                    r >= 1 && IsDigit(masked[r - 1]) && CountDigits(masked[..r]) == d
                    && CountDigits(masked[..r - 1]) < d)
  {
    if cursorPos <= 0 then |masked|
    else
      var d := CountDigits(newText[..Min(cursorPos, |newText|)]);
      match DigitEnd(masked, d)
      case None => |masked|
      case Some(k) => k
  }

  /** The two counting loops of the text watcher. */
  method MapCursor(newText: string, masked: string, cursorPos: int) returns (newCursorPos: nat)
    ensures newCursorPos == CursorAfterMask(newText, masked, cursorPos)
  {
    newCursorPos := |masked|;
    if cursorPos > 0 {
      var digitCount := 0;
      var end := Min(cursorPos, |newText|);
      var i := 0;
      while i < end
        invariant 0 <= i <= end
        invariant digitCount == CountDigits(newText[..i])
      {
        assert newText[..i + 1][..i] == newText[..i];
        if IsDigit(newText[i]) {
          digitCount := digitCount + 1;
        }
        i := i + 1;
      }
      var foundDigits := 0;
      i := 0;
      while i < |masked|
        invariant 0 <= i <= |masked|
        invariant foundDigits == CountDigits(masked[..i])
        invariant digitCount > 0 ==> foundDigits < digitCount
      {
        assert masked[..i + 1][..i] == masked[..i];
        if IsDigit(masked[i]) {
          foundDigits := foundDigits + 1;
          if foundDigits == digitCount {
            DigitEndAt(masked, digitCount, i + 1);
            newCursorPos := i + 1;
            return;
          }
        }
        i := i + 1;
      }
      assert masked[..i] == masked;
    }
  }

  // ---------------------------------------------------------------------
  // The native view

  class PhoneNumberField {
    const base: PFC.PhoneNumberFieldCommon
    /** Whether `createNativeView` has run, i.e. the edit text and the
        country button exist. */
    var created: bool
    var editText: string
    var selection: nat
    var buttonLabel: string

    constructor (lib: PFC.PhoneLib)
      ensures fresh(base) && base.lib == lib && base.View() == PFC.FreshField
      ensures !created && editText == "" && selection == 0 && buttonLabel == ""
    {
      base := new PFC.PhoneNumberFieldCommon(lib);
      created := false;
      editText := "";
      selection := 0;
      buttonLabel := "";
    }

    /** `createNativeView`: an empty edit text and a button labelled with the
        raw code, or 'ID' when there is none. */
    method CreateNativeView()
      modifies this
      ensures created && editText == "" && selection == 0
      ensures buttonLabel == Countries.InitialCode(base.countryCode)
    {
      created := true;
      editText := "";
      selection := 0;
      buttonLabel := Countries.InitialCode(base.countryCode);
    }

    /** `initNativeView`: the edit text takes a non-empty initial text, and the
        button shows the flag and calling code of the current country (by
        default 'ID'), or the code itself when the table does not have it. */
    method InitNativeView()
      modifies this
      ensures base.text != [] ==> editText == base.text
      ensures base.text == [] ==> editText == old(editText)
      ensures buttonLabel == Countries.CountryLabel(Countries.InitialCode(base.countryCode))
      ensures created == old(created) && selection == old(selection)
    {
      if base.text != [] {
        editText := base.text;
      }
      var currentCountryCode := Countries.InitialCode(base.countryCode);
      buttonLabel := Countries.CountryLabel(currentCountryCode);
    }

    /** `countryCodeProperty.setNative`: relabel the button, once it exists. */
    method SetNativeCountryCode(value: string)
      modifies this
      ensures old(created) ==> buttonLabel == Countries.CountryLabel(value)
      ensures !old(created) ==> buttonLabel == old(buttonLabel)
      ensures created == old(created) && editText == old(editText) && selection == old(selection)
    {
      if created {
        buttonLabel := Countries.CountryLabel(value);
      }
    }

    /** `textProperty.setNative`: show the text, once the edit text exists. */
    method SetNativeText(value: string)
      modifies this
      ensures old(created) ==> editText == value
      ensures !old(created) ==> editText == old(editText)
      ensures created == old(created) && selection == old(selection) && buttonLabel == old(buttonLabel)
    {
      if created {
        editText := value;
      }
    }

    /** `afterTextChanged` of the text watcher. The watcher runs on the edit
        text once an edit has left `newText` in it, with its cursor at
        `cursorPos` (-1 when there is none). */
    method AfterTextChanged(newText: string, cursorPos: int)
      requires editText == newText && (cursorPos >= 0 ==> selection == cursorPos)
      modifies this, base
      ensures base.View() == PFC.TextSet(base.lib, old(base.View()),
                                         PFC.Mask(base.lib, old(base.autoMask), old(base.countryCode), newText))
      ensures var masked := PFC.Mask(base.lib, old(base.autoMask), old(base.countryCode), newText);
              && (masked != newText ==>
                    editText == masked && selection == CursorAfterMask(newText, masked, cursorPos)
                    && selection <= |editText|)
              && (masked == newText ==> editText == newText)
              && (masked == newText && cursorPos == 0 && |newText| > 0 ==> selection == |newText|)
              && (masked == newText && !(cursorPos == 0 && |newText| > 0) ==> selection == old(selection))
      ensures created == old(created) && buttonLabel == old(buttonLabel)
    {
      if cursorPos == 0 && |newText| > 0 {
        selection := |newText|;
      }
      if base.autoMask {
        var maskedText := base.ApplyMask(newText);
        if maskedText != newText {
          var newCursorPos := MapCursor(newText, maskedText, cursorPos);
          editText := maskedText;
          selection := Min(newCursorPos, |maskedText|);
          base.SetText(maskedText);
          return;
        }
      }
      base.SetText(newText);
    }

    /** `openCountryPicker`: the dialog opens only when the picker is shown. */
    method OpenCountryPicker() returns (shown: bool)
      ensures shown <==> base.showCountryPicker
    {
      if !base.showCountryPicker {
        return false;
      }
      shown := true;
    }

    /** The dialog's click handler for country `c` of the table: set the
        country code, whose change handler may write a re-masked text back to
        the text property, whose native setter shows it in the edit text; then
        label the button with that country. */
    method OnCountryChosen(c: Countries.CountryInfo)
      requires c in Countries.AvailableCountries
      modifies this, base
      ensures base.View() == PFC.CountryCodeSet(base.lib, old(base.View()), c.code)
      ensures buttonLabel == c.flag + " " + c.dialCode
      ensures buttonLabel == Countries.CountryLabel(c.code)
      ensures old(created) && base.text != old(base.text) ==> editText == base.text
      ensures !(old(created) && base.text != old(base.text)) ==> editText == old(editText)
      ensures created == old(created) && selection == old(selection)
    {
      var oldText := base.text;
      base.SetCountryCode(c.code);
      if base.text != oldText {
        SetNativeText(base.text);
      }
      buttonLabel := c.flag + " " + c.dialCode;
      var i :| 0 <= i < |Countries.AvailableCountries| && Countries.AvailableCountries[i] == c;
      Countries.LabelOfEntry(i);
    }
  }
}
