# Floating tab bar and phone-number field, modelled in Dafny

This project models the logic inside two NativeScript UI plugins.

- **Floating tab bar, common part** (`TabBarCommon`, `tab_bar_common.dfy`).
  A seven-field state record (`isInline`, `selectedTabKey`, `isAnimating`,
  `scrollOffset`, `isExpanded`, `canTransition`, `lastScrollDirection`) is
  driven by `onScrollChanged`, `handleScrollTransition`, the guarded
  `transitionToInline` and `transitionToExpanded`, and `onTabSelected`. Each
  step appends to a log of `stateChanged`, `tabSelected` and `scrollConnection`
  events. The same module has the icon-source classifier, the tab data derived
  from tab items, and the active-tab lookup.
- **Floating tab bar, Android part** (`TabBarAndroid`, `tab_bar_android.dfy`).
  This is the delta-based scroll handler. It has a configurable threshold and
  a direction latch, and it is gated on an attached scroll connection. The
  module also has per-tab selection marking, the tap guard, the title rule,
  and the sizes for inline and expanded mode.
- **Phone-number field, common part** (`PhoneFieldCommon`, `phone_field_common.dfy`).
  - Auto-masking feeds the digits one at a time to an as-you-type formatter.
  - Validation and formatting go through a number parser.
  - The text and country-code change handlers do the write-back and emit events.
- **Country table** (`Countries`, `countries.dfy`). The static list of ISO
  3166-1 alpha-2 region codes, with names, flags and ITU-T E.164 country
  calling codes. The module also has the lookup behind the country-button label.
- **Phone-number field, Android part** (`PhoneFieldAndroid`, `phone_field_android.dfy`).
  - After an edit, the text watcher applies the cursor-at-start fix and masks the text.
  - It then moves the cursor so the same number of digits stays to its left, and writes the text back.
  - The module also has the country-button label and the picker guard.

Each stateful object is a Dafny `class` whose fields the methods update step
by step, as the source does. Each method is proved to follow a function on an
abstract value (`Bar`, `Handler`, `Field`). The properties are proved about
those functions. In the source, an Android class extends its common class.
Here it holds the common object as `const base`. The phone-number library
(`parsePhoneNumber`, `AsYouType`) is an oracle, `PhoneLib`: a record of two
total functions whose `TypeThrows` and `ParseThrows` outcomes stand for its
exceptions. Scroll offsets are `real`. Events are an append-only sequence of
snapshots.

Some consequences of the code as written:

- Nothing clears `isAnimating` once a transition sets it
  (common.ts:456-491), and `canTransition` is only written by the
  constructor (common.ts:237). So `isAnimating` never returns to false, and
  `canTransition` never changes (`AnimatingIsPermanent`,
  `CanTransitionNeverChanges`).
- The code classifies an offset of exactly 0 as 'up' (`ThresholdBoundary`).
- Under 'never', the common handler leaves the mode alone, but the Android
  handler expands the bar (`NeverDiffersBetweenHandlers`).
- The `isInline` setter writes `_state.isInline` but not `_state.isExpanded`
  (`IsInlineSetterBreaksConsistency`).
- The `isInline` getter returns `_isInline`, which transitions never update
  (`GetterLagsTransition`). The Android title, icon-size and height rules read
  that getter.

## Model

| member | source | states |
|---|---|---|
| TabBarCommon.FloatingTabBarCommon.constructor | packages/floating-tab-bar/common.ts:229-239 | a fresh bar: not inline, expanded, not animating, offset 0, `canTransition` true, direction none, selected key '', behaviour 'onScrollDown', no items, no events |
| TabBarCommon.CreateIconImage | packages/floating-tab-bar/common.ts:177-207 | a source with a known prefix (`font://`, `res://`, `sys://`, `http://`, `https://`, `~/`) is kept; any other becomes `font://` + source; the class name is applied iff it is truthy and the source is a font source |
| TabBarCommon.CreateIconImageIdempotent | packages/floating-tab-bar/common.ts:177-207 | classifying an already classified source changes nothing |
| TabBarCommon.GetTabData | packages/floating-tab-bar/common.ts:147-159 | the tab data carries every one of the item's nine properties: key, content, title, icon, icon class, standalone flag, badge, badge colour and enabled flag, each optional field present |
| TabBarCommon.TabsFromItems | packages/floating-tab-bar/common.ts:389-391 | the tab list has one entry per item, the data of that item |
| Search.FindFirst | packages/floating-tab-bar/common.ts:396 | `find`, as an index: the first element satisfying the predicate; none iff no element does |
| TabBarCommon.ActiveTabContent | packages/floating-tab-bar/common.ts:395-398 | the content of the first tab whose key is selected; none when no tab has that key |
| TabBarCommon.FloatingTabBarCommon.GetActiveTabContent | packages/floating-tab-bar/common.ts:395-398 | the same, on the object's own tab list and selected key |
| TabBarCommon.TransitionTo | packages/floating-tab-bar/common.ts:456-491 | a no-op iff already in the target mode or animating; otherwise the target mode, animating, `isExpanded == !isInline`, one `stateChanged` snapshot appended, and no other field changed |
| TabBarCommon.FloatingTabBarCommon.TransitionToInline | packages/floating-tab-bar/common.ts:456-472 | the fields end as `TransitionTo(old, true)` gives |
| TabBarCommon.FloatingTabBarCommon.TransitionToExpanded | packages/floating-tab-bar/common.ts:475-491 | the fields end as `TransitionTo(old, false)` gives |
| TabBarCommon.DirectionOf | packages/floating-tab-bar/common.ts:405 | 'down' iff the offset is strictly positive, otherwise 'up' |
| TabBarCommon.ScrollTransition | packages/floating-tab-bar/common.ts:421-453 | nothing changes when transitions are off or an animation runs; a transition is the only change; going inline needs a down (resp. up) scroll past 50 under 'onScrollDown' (resp. 'onScrollUp'), or 'always'; expanding needs the opposite direction under one of those two |
| TabBarCommon.FloatingTabBarCommon.HandleScrollTransition | packages/floating-tab-bar/common.ts:421-453 | the fields end as `ScrollTransition` gives |
| TabBarCommon.ScrollChanged | packages/floating-tab-bar/common.ts:401-418 | the offset and its direction are always recorded; the log grows with `scrollConnection` last; `canTransition` and the selected key are unchanged; only the state and the log change; with transitions suppressed, only offset, direction and the event change |
| TabBarCommon.FloatingTabBarCommon.OnScrollChanged | packages/floating-tab-bar/common.ts:401-418 | the fields end as `ScrollChanged` gives |
| TabBarCommon.ScrollRules | packages/floating-tab-bar/common.ts:426-452 | for a bar that may transition: under 'onScrollDown' the bar ends inline iff (inline ? offset > 0 : offset > 50); under 'onScrollUp' iff (inline ? offset <= 0 : offset < -50); under 'always' it ends inline |
| TabBarCommon.ThresholdBoundary | packages/floating-tab-bar/common.ts:405-430 | from a fresh bar an offset of 50 leaves it expanded, 51 makes it inline, and 0 reads as 'up' |
| TabBarCommon.TabSelected | packages/floating-tab-bar/common.ts:494-505 | both copies of the selected key become the key and one `tabSelected` event is appended on every call; nothing else changes |
| TabBarCommon.FloatingTabBarCommon.OnTabSelected | packages/floating-tab-bar/common.ts:494-505 | the fields end as `TabSelected` gives |
| TabBarCommon.SelectedTabKeySet | packages/floating-tab-bar/common.ts:349-354 | both copies of the selected key change, no event; every other field of the bar and of its state is unchanged |
| TabBarCommon.FloatingTabBarCommon.SetSelectedTabKey | packages/floating-tab-bar/common.ts:349-354 | the fields end as `SelectedTabKeySet` gives |
| TabBarCommon.IsInlineSet | packages/floating-tab-bar/common.ts:329-334 | `_isInline` and `_state.isInline` take the value; `isExpanded`, `isAnimating`, every other state field and every other field of the bar are untouched; no event |
| TabBarCommon.FloatingTabBarCommon.SetIsInline | packages/floating-tab-bar/common.ts:329-334 | the fields end as `IsInlineSet` gives |
| TabBarCommon.FloatingTabBarCommon.SetScrollBehavior | packages/floating-tab-bar/common.ts:340-343 | only the behaviour string changes |
| TabBarCommon.TabItemAdded | packages/floating-tab-bar/common.ts:383-391 | the item is appended and the tab list is re-derived from all items; the state, the selected key, the mode, the behaviour and the log are unchanged |
| TabBarCommon.FloatingTabBarCommon.AddTabItem | packages/floating-tab-bar/common.ts:383-391 | the fields end as `TabItemAdded` gives |
| TabBarCommon.TabItemAddedAppends | packages/floating-tab-bar/common.ts:383-391 | when the tabs mirror the items, adding an item appends exactly its data |
| TabBarCommon.StepFacts | packages/floating-tab-bar/common.ts:401-505 | one operation: `isAnimating` never goes back, `canTransition` is unchanged, the log only grows, and a `stateChanged` event is added exactly when the operation starts an animation |
| TabBarCommon.AnimatingIsPermanent | packages/floating-tab-bar/common.ts:461 | once animating, any sequence of operations keeps the bar animating and adds no `stateChanged` event |
| TabBarCommon.AtMostOneTransition | packages/floating-tab-bar/common.ts:457-482 | any sequence of operations adds at most one `stateChanged` event, and none to an animating bar |
| TabBarCommon.FreshBarTransitionsAtMostOnce | packages/floating-tab-bar/common.ts:231-239 | a fresh bar emits at most one `stateChanged` event in its whole life |
| TabBarCommon.CanTransitionNeverChanges | packages/floating-tab-bar/common.ts:236 | no sequence of operations changes `canTransition` |
| TabBarCommon.EventsAppendOnly | packages/floating-tab-bar/common.ts:412-504 | the event log of any run extends the initial log |
| TabBarCommon.ConsistencyKept | packages/floating-tab-bar/common.ts:461-482 | without the `isInline` setter, `isExpanded == !isInline` is preserved by every sequence of operations |
| TabBarCommon.IsInlineSetterBreaksConsistency | packages/floating-tab-bar/common.ts:329-334 | the setter leaves a fresh bar inline and expanded at once |
| TabBarCommon.GetterLagsTransition | packages/floating-tab-bar/common.ts:325-327 | after a transition to inline, the state says inline while the `isInline` getter still says not inline |
| TabBarCommon.PassiveBehaviourKeepsMode | packages/floating-tab-bar/common.ts:443-452 | under 'never' or an unrecognised behaviour, no sequence of scrolls changes `isInline` or `isAnimating` |
| Text.Digits | packages/phone-number-field/common.ts:137 | `replace(/\D/g, '')`: only digits, as many as the input has, and a digit-only input is returned unchanged |
| Text.DigitsAppend | packages/phone-number-field/common.ts:137 | the digits of a concatenation are the digits of each part in order; with `DigitsOfChar` (a digit keeps itself, any other character drops) this fixes `Digits` on every string |
| TabBarAndroid.EffectiveThreshold | packages/floating-tab-bar/index.android.ts:361 | the connection's threshold when it is present and non-zero, else 50 |
| TabBarAndroid.BehaviourTarget | packages/floating-tab-bar/index.android.ts:371-392 | 'onScrollDown': inline iff down; 'onScrollUp': inline iff up; 'always': inline; 'never': expanded; no target iff the behaviour is none of these |
| TabBarAndroid.HandleScroll | packages/floating-tab-bar/index.android.ts:356-402 | no connection or not enabled: nothing changes; otherwise `lastScrollY` becomes scrollY; the latch changes iff the delta is strictly past the threshold and its direction differs from the latched one, and then to the delta's direction; without a latch change the bar and callbacks are untouched; with one the bar takes the behaviour's transition and the callback gets scrollY if present |
| TabBarAndroid.FloatingTabBar.HandleScrollEvent | packages/floating-tab-bar/index.android.ts:356-402 | the fields of the bar and of its common part end as `HandleScroll` gives |
| TabBarAndroid.LatchSuppressesRepeat | packages/floating-tab-bar/index.android.ts:364-368 | after a scroll past the threshold, up or down, latches its direction, a further scroll in that direction keeps the latch and neither transitions nor calls back |
| TabBarAndroid.NeverDiffersBetweenHandlers | packages/floating-tab-bar/index.android.ts:389-391 | under 'never' an inline bar stays inline in the common handler but is expanded by the Android one |
| TabBarAndroid.FloatingTabBar.constructor | packages/floating-tab-bar/index.android.ts:12-15 | no connection, `lastScrollY` 0, direction none, and a fresh common bar |
| TabBarAndroid.FloatingTabBar.AttachScrollConnection | packages/floating-tab-bar/index.android.ts:341-349 | only the connection changes |
| TabBarAndroid.FloatingTabBar.DetachScrollConnection | packages/floating-tab-bar/index.android.ts:351-353 | only the connection is removed |
| TabBarAndroid.SelectionMarks | packages/floating-tab-bar/index.android.ts:111-122 | a child with a tab is marked iff its tab's key is the selected key; a child without a tab keeps its mark |
| TabBarAndroid.AtMostOneMarked | packages/floating-tab-bar/index.android.ts:111-122 | with distinct keys, at most one child is marked |
| TabBarAndroid.ShownContent | packages/floating-tab-bar/index.android.ts:281-296 | the content shown is that of the first item with the selected key; none when no item has it |
| TabBarAndroid.FloatingTabBar.UpdateTabSelection | packages/floating-tab-bar/index.android.ts:111-125 | the array of marks ends as `SelectionMarks` gives, the content is refreshed, and the bar is unchanged |
| TabBarAndroid.FloatingTabBar.OnTabClick | packages/floating-tab-bar/index.android.ts:164-172 | a tab not disabled sets the selected key, re-marks the children and shows the content of the first item with its key; a disabled tab changes nothing |
| TabBarAndroid.ShowsTitle | packages/floating-tab-bar/index.android.ts:145 | a title is shown iff the tab is not standalone, has a non-empty title and the bar is not inline |
| TabBarAndroid.TabDataRules | packages/floating-tab-bar/index.android.ts:145-172 | for tabs built from items, a tap selects iff the item is enabled, and the title rule reads the item's own fields |
| TabBarAndroid.SizesFor | packages/floating-tab-bar/index.android.ts:307 | 48 dp high, 18 sp font icon and 20 dp image icon inline; 64 dp, 20 sp and 24 dp expanded |
| Countries.TableWellFormed | packages/phone-number-field/common.ts:201-300 | every code is two upper-case letters and every calling code is '+' and one to three digits |
| Countries.TableCodesDistinct | packages/phone-number-field/common.ts:201-300 | the codes are pairwise distinct |
| Countries.DistinctConcat | packages/phone-number-field/common.ts:201-300 | two parts of the table with distinct codes and no common code join into a table with distinct codes |
| Countries.NorthAmericaSharesPlusOne | packages/phone-number-field/common.ts:265-266 | the United States and Canada both have '+1' |
| Countries.InitialCode | packages/phone-number-field/index.android.ts:120 | an empty code becomes 'ID'; any other is kept |
| Countries.CountryLabel | packages/phone-number-field/index.android.ts:251-260 | the flag, a space and the calling code of the first entry with the code, or the code itself when no entry has it |
| Countries.LabelOfEntry | packages/phone-number-field/index.android.ts:254-256 | every entry's code labels the button with that entry's flag and calling code |
| Countries.LabelOfUnknownCode | packages/phone-number-field/index.android.ts:257-258 | a code outside the table labels the button with itself |
| PhoneFieldCommon.Feed | packages/phone-number-field/common.ts:147-154 | the loop throws iff some call on a digit prefix throws; an empty result means every call answered ''; a non-empty result is the answer of some call after which every call answered '' |
| PhoneFieldCommon.FeedThrewIsFinal | packages/phone-number-field/common.ts:148-157 | an exception on a prefix of the digits makes the whole loop throw |
| PhoneFieldCommon.Mask | packages/phone-number-field/common.ts:132-161 | the input when masking is off or the input is empty; '' without digits; the input when the formatter throws; the digits when every answer is ''; otherwise the last non-empty answer |
| PhoneFieldCommon.PhoneNumberFieldCommon.ApplyMask | packages/phone-number-field/common.ts:132-161 | the loop's result is `Mask` of the input with the field's flag and country |
| PhoneFieldCommon.LastNonEmptyIsFinal | packages/phone-number-field/common.ts:148-154 | with a formatter that keeps exactly the digits fed, the last non-empty answer is the answer to all the digits |
| PhoneFieldCommon.MaskPreservesDigits | packages/phone-number-field/common.ts:132-161 | with such a formatter, masking keeps the digits of the input |
| PhoneFieldCommon.MaskIdempotent | packages/phone-number-field/common.ts:326-332 | with such a formatter, masking a masked text changes nothing, so the write-back would not write again |
| PhoneFieldCommon.Validate | packages/phone-number-field/common.ts:164-198 | blank text gives the 'required' message; valid iff the text parses to a valid number; the three formatted fields are present iff valid and the message iff not; an unparsed text gives the format message; an exception gives the prefixed message; a parsed number's country is reported |
| PhoneFieldCommon.Format | packages/phone-number-field/common.ts:311-320 | '' for empty text; the requested format of a parsed number; the text itself when parsing fails or throws |
| PhoneFieldCommon.FormatAgreesWithValidation | packages/phone-number-field/common.ts:182-191 | a valid result's international and national numbers are what formatting gives |
| PhoneFieldCommon.BlankTextDiffers | packages/phone-number-field/common.ts:166-173 | whitespace-only text is 'required' to validation, but formatting hands it to the parser |
| PhoneFieldCommon.PhoneNumberFieldCommon.constructor | packages/phone-number-field/common.ts:21-58 | text '', country 'ID', auto-validate, picker and auto-mask on, no events |
| PhoneFieldCommon.PhoneNumberFieldCommon.SetAutoMask | packages/phone-number-field/common.ts:120-122 | only the flag changes |
| PhoneFieldCommon.PhoneNumberFieldCommon.SetAutoValidate | packages/phone-number-field/common.ts:106-108 | only the flag changes |
| PhoneFieldCommon.PhoneNumberFieldCommon.SetShowCountryPicker | packages/phone-number-field/common.ts:113-115 | only the flag changes |
| PhoneFieldCommon.AfterTextChange | packages/phone-number-field/common.ts:324-336 | only the text can change, and only when masking is on and the masked text differs from the new value, to the masked text |
| PhoneFieldCommon.PhoneNumberFieldCommon.OnTextChanged | packages/phone-number-field/common.ts:324-336 | the fields end as `AfterTextChange` gives |
| PhoneFieldCommon.TextSet | packages/phone-number-field/common.ts:85-87 | an equal value changes nothing; otherwise the stored text is the mask of the value; nothing but the text changes |
| PhoneFieldCommon.PhoneNumberFieldCommon.SetText | packages/phone-number-field/common.ts:307-309 | the fields end as `TextSet` gives |
| PhoneFieldCommon.StoredTextIsMasked | packages/phone-number-field/common.ts:324-336 | setting the text emits nothing; with a well-behaved formatter it keeps the typed digits and stores a text that masking leaves alone |
| PhoneFieldCommon.AfterCountryCodeChange | packages/phone-number-field/common.ts:338-366 | the text is re-masked for the current country; `validationChange` on the re-masked text is appended only with auto-validate, then `countryCodeChanged(old, new)`, always last; nothing else changes |
| PhoneFieldCommon.CountryCodeSet | packages/phone-number-field/common.ts:303-305 | an equal code changes nothing; a new code is stored, the text is re-masked for it, `validationChange` (only with auto-validate, on the re-masked text and new code) comes before `countryCodeChanged(old, new)`, always last; the other fields are unchanged |
| PhoneFieldCommon.PhoneNumberFieldCommon.OnCountryCodeChanged | packages/phone-number-field/common.ts:338-366 | the fields end as `AfterCountryCodeChange` gives |
| PhoneFieldCommon.PhoneNumberFieldCommon.SetCountryCode | packages/phone-number-field/common.ts:303-305 | the fields end as `CountryCodeSet` gives |
| PhoneFieldAndroid.DigitEnd | packages/phone-number-field/index.android.ts:181-190 | the end of the shortest prefix holding d digits, which ends with a digit; none iff d is 0 or there are fewer than d digits |
| PhoneFieldAndroid.DigitEndAt | packages/phone-number-field/index.android.ts:182-188 | the first prefix that reaches d digits is the one found |
| PhoneFieldAndroid.CursorAfterMask | packages/phone-number-field/index.android.ts:168-190 | never past the masked text; the end when the cursor was at or before 0, when no digit was left of it, or when the masked text has too few digits; otherwise just after a digit, with as many digits to its left as the raw text had left of the cursor |
| PhoneFieldAndroid.MapCursor | packages/phone-number-field/index.android.ts:168-190 | the two counting loops compute `CursorAfterMask` |
| PhoneFieldAndroid.PhoneNumberField.AfterTextChanged | packages/phone-number-field/index.android.ts:139-204 | run on the edit text holding the new text: the text property is set to the mask of the new text; when masking changed it, the edit text shows the masked text with the cursor at `CursorAfterMask`, within the text; otherwise the edit text keeps the new text and a cursor at 0 in non-empty text moves to the end |
| PhoneFieldAndroid.PhoneNumberField.constructor | packages/phone-number-field/index.android.ts:5-20 | a fresh common field and no native view yet |
| PhoneFieldAndroid.PhoneNumberField.CreateNativeView | packages/phone-number-field/index.android.ts:41-42 | the button shows the raw code, or 'ID' when there is none |
| PhoneFieldAndroid.PhoneNumberField.InitNativeView | packages/phone-number-field/index.android.ts:114-127 | a non-empty text is shown; the button shows `CountryLabel` of the code, with 'ID' for none |
| PhoneFieldAndroid.PhoneNumberField.SetNativeCountryCode | packages/phone-number-field/index.android.ts:251-261 | once the button exists, it shows `CountryLabel` of the new code |
| PhoneFieldAndroid.PhoneNumberField.SetNativeText | packages/phone-number-field/index.android.ts:245-249 | once the edit text exists, it shows the value |
| PhoneFieldAndroid.PhoneNumberField.OpenCountryPicker | packages/phone-number-field/index.android.ts:220-221 | the picker opens iff `showCountryPicker` |
| PhoneFieldAndroid.PhoneNumberField.OnCountryChosen | packages/phone-number-field/index.android.ts:231-237 | the country code is set as `CountryCodeSet` gives; once the view exists, a text the re-masking changed is shown in the edit text, otherwise the edit text is untouched; the label equals `CountryLabel` of the chosen code |

## Left out

- Native views are not modelled. This covers layouts, drawables, colours,
  padding, fonts, badges, `ValueAnimator` timing and the `TextWatcher`
  plumbing. Only the numbers and booleans they derive from are kept.
- `dpToPx` and display density are not modelled: sizes are stated in dp and sp.
- `updateState` / `animateToState` are not modelled beyond their target sizes.
  Nothing in the shown code clears `isAnimating` when an animation ends.
- The NativeScript property and observable framework is not modelled.
  - `notify` calls become an appended event log. Events hold snapshots: the
    source passes the live `_state` object, so a listener reading it later
    would see later changes.
  - The `propertyChange` notifications of the `isInline`, `scrollBehavior`
    and `selectedTabKey` setters (`notifyPropertyChange`) are not logged: no
    logic in the model listens to them.
  - The property system is taken to call a change handler only when the value
    differs from the stored one.
- The `updateTabSelection` call inside `onTabSelected` is not part of the
  common model. It is modelled on the Android side, where the click handler
  calls it through the `selectedTabKey` setter.
- The Android bar has no wrappers of its own for the `selectedTabKey` setter
  and `addTabItem`: the selection marks and the shown content are refreshed
  only on the click path (`OnTabClick`), not when the key is set or an item
  is added from code, and the `updateTabs` rebuild is not modelled.
- `TabItem` is modelled as a value. Sharing of one `TabItem` object between
  collections is not modelled. `TabItem.generateUniqueKey` (clock and random)
  is not modelled.
- `_addChildFromBuilder` is not modelled; `AddTabItem` is what it calls.
- Floating-point NaN and infinities are not modelled: offsets are real numbers.
- The phone-number library is an oracle.
  - The `_asYouType` field is not modelled: the formatter is a function of
    the country and the digits fed to a fresh instance.
  - A failing `new AsYouType(...)` is not distinguished from a failing
    `input` call.
  - Exceptions from `isValid()` and `format()` are not modelled.
- PhoneFieldCommon.AfterTextChange: does not re-enter the change handler
  after its own write-back. `MaskIdempotent` and `StoredTextIsMasked` show
  that a re-entered handler would not write again when the formatter keeps
  exactly the digits it is fed.
- PhoneFieldCommon.AfterCountryCodeChange: does not re-enter `onTextChanged`
  after writing the re-masked text back; the same argument as for
  `AfterTextChange` applies: with a formatter that keeps exactly the digits
  it is fed, the re-entered handler would mask to the same text
  (`MaskIdempotent`) and write nothing.
- PhoneFieldCommon.CountryCodeSet: inherits that cut from
  `AfterCountryCodeChange`.
- PhoneFieldAndroid.PhoneNumberField.AfterTextChanged: does not model the
  re-entry caused by the edit text's and the property's own change listeners.
- PhoneFieldAndroid.PhoneNumberField.InitNativeView: the text watcher is
  already attached when the initial text is written into the edit text, and
  its run on that write (cursor fix, masking, write-back) is not modelled;
  the cursor is stated unchanged. Where Android puts the cursor after a
  programmatic `setText` is platform behaviour outside this model. The edit
  text is stated as the whole initial text, without the 20-character cut
  described below.
- PhoneFieldAndroid.PhoneNumberField.SetNativeText: the same watcher run
  after the write is not modelled, and the cursor is stated unchanged. The
  edit text is stated as the whole value, without the 20-character cut.
- PhoneFieldAndroid.PhoneNumberField.OnCountryChosen: writes the re-masked
  text into the edit text through `SetNativeText`, with the same cut: the
  watcher run and the cursor move after that write are not modelled.
- The country picker's `localeCompare` sort and its dialog are not modelled.
  `OnCountryChosen` takes any entry of the table.
- The `placeholder` and `maxLength` properties and the CSS colour properties
  are not modelled: no logic reads them.
- The 20-character `LengthFilter` that `initNativeView` installs on the edit
  text is not modelled. `InitNativeView`, `SetNativeText`, `AfterTextChanged`
  and `OnCountryChosen` state the edit text as the whole text written; on
  the device a text longer than 20 characters is cut to its first 20.
- Countries.TableWellFormed: does not check that each flag emoji spells its
  region code in regional-indicator symbols. That check over the whole table
  is beyond what the verifier handles cheaply.
- `packages/rootbeer`, both iOS files and the demo apps are not part of this model.
