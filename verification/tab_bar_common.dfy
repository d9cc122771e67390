/** The platform-independent core of the floating tab bar
    (packages/floating-tab-bar/common.ts): the seven-field state record, the
    scroll-driven inline/expanded state machine, tab selection, the tab list
    derived from the declared tab items, and the icon-source classifier.

    The abstract value of a bar is the datatype `Bar`; each operation is a
    function on `Bar`, and the class `FloatingTabBarCommon` updates its fields
    step by step as the source does and is proved to follow those functions. */
module TabBarCommon {
  import opened Optional
  import opened Text
  import opened Search

  /** `lastScrollDirection`: 'up' | 'down' | 'none'. */
  datatype Direction = Up | Down | NoDirection

  /** `FloatingTabBarState`, field for field. */
  datatype TabBarState = TabBarState(
    isInline: bool,
    selectedTabKey: string,
    isAnimating: bool,
    scrollOffset: real,
    isExpanded: bool,
    canTransition: bool,
    lastScrollDirection: Direction)

  /** The three events the bar notifies, in the order they are emitted. A
      `stateChanged` event carries a snapshot of the state at emission time. */
  datatype Event =
    | StateChangedEvent(state: TabBarState)
    | TabSelectedEvent(selectedTabKey: string)
    | ScrollConnectionEvent(scrollOffset: real, direction: Direction)

  /** Identity of a content view hosted by a tab. */
  type ViewId = nat

  /** `badge: string | number`. */
  datatype Badge = BadgeText(text: string) | BadgeNumber(number: real)

  /** A declared `TabItem` (its getters' values). */
  datatype TabItem = TabItem(
    key: string,
    title: string,
    icon: string,
    iconClass: string,
    isStandalone: bool,
    badge: Badge,
    badgeColor: string,
    enabled: bool,
    content: Option<ViewId>)

  /** `FloatingTabItem`: every field but `key` is optional. */
  datatype FloatingTabItem = FloatingTabItem(
    key: string,
    title: Option<string>,
    icon: Option<string>,
    iconClass: Option<string>,
    isStandalone: Option<bool>,
    badge: Option<Badge>,
    badgeColor: Option<string>,
    enabled: Option<bool>,
    content: Option<ViewId>)

  /** The image `IconHelper.createIconImage` builds: its `src` and, when one
      was applied, its `className`. */
  datatype IconImage = IconImage(src: string, className: Option<string>)

  /** Scroll threshold of `handleScrollTransition`, in pixels. */
  const ScrollThreshold: real := 50.0

  /** The record the constructor builds. */
  const InitialState: TabBarState := TabBarState(
    isInline := false, selectedTabKey := "", isAnimating := false, scrollOffset := 0.0,
    isExpanded := true, canTransition := true, lastScrollDirection := NoDirection)

  /** Abstract value of a bar: the state record, the `_selectedTabKey`,
      `_isInline` and `_scrollBehavior` fields, the tab items and the tab data
      derived from them, and the log of emitted events. */
  datatype Bar = Bar(
    state: TabBarState,
    selectedTabKey: string,
    isInline: bool,
    scrollBehavior: string,
    tabItems: seq<TabItem>,
    tabs: seq<FloatingTabItem>,
    events: seq<Event>)

  const FreshBar: Bar := Bar(InitialState, "", false, "onScrollDown", [], [], [])

  /** `isExpanded` is the negation of `isInline`. */
  predicate Consistent(s: TabBarState) {
    s.isExpanded == !s.isInline
  }

  // ---------------------------------------------------------------------
  // Pure helpers

  /** `String(iconClass)` is truthy: present and not empty. */
  predicate Truthy(s: Option<string>) {
    s.Some? && s.value != ""
  }

  /** The five prefixes `createIconImage` keeps as they are. */
  predicate HasKnownPrefix(src: string) {
    StartsWith(src, "font://") || StartsWith(src, "res://") || StartsWith(src, "sys://")
    || StartsWith(src, "http://") || StartsWith(src, "https://") || StartsWith(src, "~/")
  }

  /** `IconHelper.createIconImage`: a source with a known prefix is used as it
      is; anything else is taken for a font glyph and gets the `font://`
      prefix. The class name is applied in the two font cases only, and only
      when it is truthy. */
  function CreateIconImage(iconSource: string, iconClass: Option<string>): (r: IconImage)
    ensures HasKnownPrefix(iconSource) ==> r.src == iconSource
    ensures !HasKnownPrefix(iconSource) ==> r.src == "font://" + iconSource
    ensures StartsWith(r.src, "font://") || HasKnownPrefix(iconSource)
    ensures r.className.Some? <==>
              Truthy(iconClass) && (StartsWith(iconSource, "font://") || !HasKnownPrefix(iconSource))
    ensures r.className.Some? ==> r.className == iconClass
  {
    var fontClass := if Truthy(iconClass) then iconClass else None;
    if StartsWith(iconSource, "font://") then IconImage(iconSource, fontClass)
    else if StartsWith(iconSource, "res://") then IconImage(iconSource, None)
    else if StartsWith(iconSource, "sys://") then IconImage(iconSource, None)
    else if StartsWith(iconSource, "http://") || StartsWith(iconSource, "https://") then IconImage(iconSource, None)
    else if StartsWith(iconSource, "~/") then IconImage(iconSource, None)
    else
      var src := "font://" + iconSource;
      assert src[..|"font://"|] == "font://";
      IconImage(src, fontClass)
  }

  /** Feeding an image's source back into `createIconImage` with the same
      class changes nothing: every source it produces is already classified. */
  lemma CreateIconImageIdempotent(iconSource: string, iconClass: Option<string>)
    ensures CreateIconImage(CreateIconImage(iconSource, iconClass).src, iconClass)
            == CreateIconImage(iconSource, iconClass)
  {
    if !HasKnownPrefix(iconSource) {
      var src := "font://" + iconSource;
      assert src[..|"font://"|] == "font://";
    }
  }

  /** `TabItem.getTabData`: the item's properties as a `FloatingTabItem`, with
      every optional field present. */
  function GetTabData(item: TabItem): (r: FloatingTabItem)
    ensures r.key == item.key && r.content == item.content
    ensures r.title.Some? && r.icon.Some? && r.iconClass.Some? && r.isStandalone.Some?
    ensures r.badge.Some? && r.badgeColor.Some? && r.enabled.Some?
    ensures r.enabled == Some(item.enabled) && r.isStandalone == Some(item.isStandalone)
    ensures r.title == Some(item.title)
    ensures r.icon == Some(item.icon) && r.iconClass == Some(item.iconClass)
    ensures r.badge == Some(item.badge) && r.badgeColor == Some(item.badgeColor)
  {
    FloatingTabItem(item.key, Some(item.title), Some(item.icon), Some(item.iconClass),
                    Some(item.isStandalone), Some(item.badge), Some(item.badgeColor),
                    Some(item.enabled), item.content)
  }

  /** `_tabItems.map((item) => item.getTabData())`. */
  function TabsFromItems(items: seq<TabItem>): (r: seq<FloatingTabItem>)
    ensures |r| == |items|
    ensures forall i :: 0 <= i < |items| ==> r[i] == GetTabData(items[i])
  {
    seq(|items|, i requires 0 <= i < |items| => GetTabData(items[i]))
  }

  /** Tab `i` is the first one whose key is `key`. */
  predicate FirstWithKey(tabs: seq<FloatingTabItem>, key: string, i: int) {
    0 <= i < |tabs| && tabs[i].key == key && forall j :: 0 <= j < i ==> tabs[j].key != key
  }

  /** `getActiveTabContent`: the content of the first tab whose key is the
      selected key; nothing when no tab has that key or that tab has no
      content. */
  function ActiveTabContent(tabs: seq<FloatingTabItem>, selectedTabKey: string): (r: Option<ViewId>)
    ensures forall i :: FirstWithKey(tabs, selectedTabKey, i) ==> r == tabs[i].content
    ensures (forall i :: 0 <= i < |tabs| ==> tabs[i].key != selectedTabKey) ==> r.None?
  {
    match FindFirst(tabs, (t: FloatingTabItem) => t.key == selectedTabKey)
    case None => None
    case Some(i) => tabs[i].content
  }

  // ---------------------------------------------------------------------
  // The operations, on the abstract value

  /** `transitionToInline` (toInline = true) and `transitionToExpanded`
      (toInline = false): a no-op when the bar is already in the target mode
      or is animating; otherwise the bar starts animating towards the target
      and emits one `stateChanged` event. */
  function TransitionTo(b: Bar, toInline: bool): (r: Bar)
    ensures r == b <==> b.state.isInline == toInline || b.state.isAnimating
    ensures r != b ==> r.state.isInline == toInline && r.state.isAnimating && Consistent(r.state)
    ensures r != b ==> r.events == b.events + [StateChangedEvent(r.state)]
    ensures r == b.(state := r.state, events := r.events)
    ensures r.state.(isInline := false, isExpanded := false, isAnimating := false)
            == b.state.(isInline := false, isExpanded := false, isAnimating := false)
  {
    if b.state.isInline == toInline || b.state.isAnimating then b
    else
      var s := b.state.(isAnimating := true, isInline := toInline, isExpanded := !toInline);
      b.(state := s, events := b.events + [StateChangedEvent(s)])
  }

  /** The direction `onScrollChanged` derives from an offset: only a strictly
      positive offset is 'down'. */
  function DirectionOf(offset: real): (d: Direction)
    ensures d == Down <==> offset > 0.0
    ensures d != NoDirection
  {
    if offset > 0.0 then Down else Up
  }

  /** `handleScrollTransition`. */
  function ScrollTransition(b: Bar, offset: real, direction: Direction): (r: Bar)
    ensures !b.state.canTransition || b.state.isAnimating ==> r == b
    ensures r == b || r == TransitionTo(b, true) || r == TransitionTo(b, false)
    ensures r.state.isInline && !b.state.isInline ==>
              (b.scrollBehavior == "onScrollDown" && direction == Down && Abs(offset) > ScrollThreshold)
              || (b.scrollBehavior == "onScrollUp" && direction == Up && Abs(offset) > ScrollThreshold)
              || b.scrollBehavior == "always"
    ensures !r.state.isInline && b.state.isInline ==>
              (b.scrollBehavior == "onScrollDown" && direction == Up)
              || (b.scrollBehavior == "onScrollUp" && direction == Down)
  {
    if !b.state.canTransition || b.state.isAnimating then b
    else if b.scrollBehavior == "onScrollDown" then
      if direction == Down && Abs(offset) > ScrollThreshold && !b.state.isInline then TransitionTo(b, true)
      else if direction == Up && b.state.isInline then TransitionTo(b, false)
      else b
    else if b.scrollBehavior == "onScrollUp" then
      if direction == Up && Abs(offset) > ScrollThreshold && !b.state.isInline then TransitionTo(b, true)
      else if direction == Down && b.state.isInline then TransitionTo(b, false)
      else b
    else if b.scrollBehavior == "always" then
      if !b.state.isInline then TransitionTo(b, true) else b
    else
      b
  }

  /** `onScrollChanged`: record the offset and its direction, attempt the
      scroll transition, then emit `scrollConnection`. */
  function ScrollChanged(b: Bar, offset: real): (r: Bar)
    ensures r.state.scrollOffset == offset
    ensures r.state.lastScrollDirection == DirectionOf(offset)
    ensures |b.events| < |r.events| && r.events[..|b.events|] == b.events
    ensures r.events[|r.events| - 1] == ScrollConnectionEvent(offset, DirectionOf(offset))
    ensures r.state.canTransition == b.state.canTransition
    ensures r.state.selectedTabKey == b.state.selectedTabKey
    ensures r == b.(state := r.state, events := r.events)
    ensures !b.state.canTransition || b.state.isAnimating ==>
              r == b.(state := b.state.(scrollOffset := offset, lastScrollDirection := DirectionOf(offset)),
                      events := b.events + [ScrollConnectionEvent(offset, DirectionOf(offset))])
  {
    var direction := DirectionOf(offset);
    var recorded := b.(state := b.state.(scrollOffset := offset, lastScrollDirection := direction));
    var moved := ScrollTransition(recorded, offset, direction);
    moved.(events := moved.events + [ScrollConnectionEvent(offset, direction)])
  }

  /** `onTabSelected`: both copies of the selected key take the new key, and
      one `tabSelected` event is emitted, even when the key was already
      selected. */
  function TabSelected(b: Bar, key: string): (r: Bar)
    ensures r.selectedTabKey == key && r.state.selectedTabKey == key
    ensures r.events == b.events + [TabSelectedEvent(key)]
    ensures r.state.(selectedTabKey := "") == b.state.(selectedTabKey := "")
    ensures r.(selectedTabKey := b.selectedTabKey, state := b.state, events := b.events) == b
  {
    b.(selectedTabKey := key, state := b.state.(selectedTabKey := key),
       events := b.events + [TabSelectedEvent(key)])
  }

  /** The `selectedTabKey` setter: like `onTabSelected`, but no
      `tabSelected` event. */
  function SelectedTabKeySet(b: Bar, key: string): (r: Bar)
    ensures r.selectedTabKey == key && r.state.selectedTabKey == key
    ensures r.events == b.events
    ensures r.state.(selectedTabKey := "") == b.state.(selectedTabKey := "")
    ensures r.(selectedTabKey := b.selectedTabKey, state := b.state) == b
  {
    b.(selectedTabKey := key, state := b.state.(selectedTabKey := key))
  }

  /** The `isInline` setter: writes `_isInline` and `_state.isInline` but
      leaves `_state.isExpanded` as it was. */
  function IsInlineSet(b: Bar, value: bool): (r: Bar)
    ensures r.isInline == value && r.state.isInline == value
    ensures r.state.isExpanded == b.state.isExpanded && r.state.isAnimating == b.state.isAnimating
    ensures r.events == b.events
    ensures r.state.(isInline := false) == b.state.(isInline := false)
    ensures r.(isInline := b.isInline, state := b.state) == b
  {
    b.(isInline := value, state := b.state.(isInline := value))
  }

  /** `addTabItem`: append the item and re-derive the tab data from all items. */
  function TabItemAdded(b: Bar, item: TabItem): (r: Bar)
    ensures r.tabItems == b.tabItems + [item]
    ensures r.tabs == TabsFromItems(r.tabItems)
    ensures r.state == b.state && r.events == b.events
    ensures r.(tabItems := b.tabItems, tabs := b.tabs) == b
  {
    var items := b.tabItems + [item];
    b.(tabItems := items, tabs := TabsFromItems(items))
  }

  /** The tab data always mirrors the tab items, so adding an item appends
      exactly its data. */
  lemma TabItemAddedAppends(b: Bar, item: TabItem)
    requires b.tabs == TabsFromItems(b.tabItems)
    ensures TabItemAdded(b, item).tabs == b.tabs + [GetTabData(item)]
  {
    var r := TabItemAdded(b, item).tabs;
    assert |r| == |b.tabs| + 1;
    forall i | 0 <= i < |r|
      ensures r[i] == (b.tabs + [GetTabData(item)])[i]
    {
    }
  }

  // ---------------------------------------------------------------------
  // Sequences of operations

  /** Every operation a caller or the view layer can apply to the bar. */
  datatype Op =
    | Scroll(offset: real)
    | ToInline
    | ToExpanded
    | SelectTab(key: string)
    | SetSelectedTabKey(key: string)
    | SetIsInline(value: bool)
    | SetScrollBehavior(behavior: string)
    | AddTabItem(item: TabItem)

  function Step(b: Bar, op: Op): Bar {
    match op
    case Scroll(offset) => ScrollChanged(b, offset)
    case ToInline => TransitionTo(b, true)
    case ToExpanded => TransitionTo(b, false)
    case SelectTab(key) => TabSelected(b, key)
    case SetSelectedTabKey(key) => SelectedTabKeySet(b, key)
    case SetIsInline(value) => IsInlineSet(b, value)
    case SetScrollBehavior(behavior) => b.(scrollBehavior := behavior)
    case AddTabItem(item) => TabItemAdded(b, item)
  }

  function Run(b: Bar, ops: seq<Op>): Bar
    decreases |ops|
  {
    if ops == [] then b else Run(Step(b, ops[0]), ops[1..])
  }

  /** Number of `stateChanged` events in a log. */
  function StateChanges(events: seq<Event>): nat {
    if events == [] then 0
    else StateChanges(events[..|events| - 1]) + (if events[|events| - 1].StateChangedEvent? then 1 else 0)
  }

  lemma StateChangesAppendOther(events: seq<Event>, e: Event)
    requires !e.StateChangedEvent?
    ensures StateChanges(events + [e]) == StateChanges(events)
  {
    assert (events + [e])[..|events + [e]| - 1] == events;
  }

  lemma StateChangesAppendState(events: seq<Event>, s: TabBarState)
    ensures StateChanges(events + [StateChangedEvent(s)]) == StateChanges(events) + 1
  {
    assert (events + [StateChangedEvent(s)])[..|events| + 1 - 1] == events;
  }

  /** One operation: `isAnimating` never goes back to false, `canTransition`
      never changes, the log only grows, and a `stateChanged` event is logged
      exactly when the operation starts an animation. */
  lemma StepFacts(b: Bar, op: Op)
    ensures var r := Step(b, op);
      && (b.state.isAnimating ==> r.state.isAnimating)
      && r.state.canTransition == b.state.canTransition
      && |b.events| <= |r.events| && r.events[..|b.events|] == b.events
      && StateChanges(r.events)
         == StateChanges(b.events) + (if !b.state.isAnimating && r.state.isAnimating then 1 else 0)
  {
    var r := Step(b, op);
    match op
    case Scroll(offset) =>
      var direction := DirectionOf(offset);
      var recorded := b.(state := b.state.(scrollOffset := offset, lastScrollDirection := direction));
      var moved := ScrollTransition(recorded, offset, direction);
      if moved != recorded {
        StateChangesAppendState(recorded.events, moved.state);
      }
      StateChangesAppendOther(moved.events, ScrollConnectionEvent(offset, direction));
    case ToInline =>
      if r != b { StateChangesAppendState(b.events, r.state); }
    case ToExpanded =>
      if r != b { StateChangesAppendState(b.events, r.state); }
    case SelectTab(key) =>
      StateChangesAppendOther(b.events, TabSelectedEvent(key));
    case SetSelectedTabKey(_) =>
    case SetIsInline(_) =>
    case SetScrollBehavior(_) =>
    case AddTabItem(_) =>
  }

  /** Nothing ever sets `isAnimating` back to false, so once a bar is
      animating it stays animating and logs no further `stateChanged` event,
      whatever is done to it. */
  lemma {:induction false} AnimatingIsPermanent(b: Bar, ops: seq<Op>)
    requires b.state.isAnimating
    ensures Run(b, ops).state.isAnimating
    ensures StateChanges(Run(b, ops).events) == StateChanges(b.events)
    decreases |ops|
  {
    if ops != [] {
      StepFacts(b, ops[0]);
      AnimatingIsPermanent(Step(b, ops[0]), ops[1..]);
    }
  }

  /** Across any sequence of operations, at most one `stateChanged` event is
      added, and none once the bar is animating. */
  lemma {:induction false} AtMostOneTransition(b: Bar, ops: seq<Op>)
    ensures StateChanges(Run(b, ops).events) <= StateChanges(b.events) + (if b.state.isAnimating then 0 else 1)
    decreases |ops|
  {
    if ops != [] {
      var b' := Step(b, ops[0]);
      StepFacts(b, ops[0]);
      if b'.state.isAnimating {
        AnimatingIsPermanent(b', ops[1..]);
      } else {
        AtMostOneTransition(b', ops[1..]);
      }
    }
  }

  /** A fresh bar makes at most one transition in its whole life. */
  lemma FreshBarTransitionsAtMostOnce(ops: seq<Op>)
    ensures StateChanges(Run(FreshBar, ops).events) <= 1
  {
    AtMostOneTransition(FreshBar, ops);
  }

  /** `canTransition` keeps its initial value: no operation writes it. */
  lemma {:induction false} CanTransitionNeverChanges(b: Bar, ops: seq<Op>)
    ensures Run(b, ops).state.canTransition == b.state.canTransition
    decreases |ops|
  {
    if ops != [] {
      StepFacts(b, ops[0]);
      CanTransitionNeverChanges(Step(b, ops[0]), ops[1..]);
    }
  }

  /** The event log is append-only. */
  lemma {:induction false} EventsAppendOnly(b: Bar, ops: seq<Op>)
    ensures |b.events| <= |Run(b, ops).events|
    ensures Run(b, ops).events[..|b.events|] == b.events
    decreases |ops|
  {
    if ops != [] {
      var b' := Step(b, ops[0]);
      StepFacts(b, ops[0]);
      EventsAppendOnly(b', ops[1..]);
      assert Run(b, ops).events[..|b'.events|][..|b.events|] == b'.events[..|b.events|];
    }
  }

  predicate NoIsInlineSetter(ops: seq<Op>) {
    forall i :: 0 <= i < |ops| ==> !ops[i].SetIsInline?
  }

  /** Every operation except the `isInline` setter keeps `isExpanded` the
      negation of `isInline`. */
  lemma {:induction false} ConsistencyKept(b: Bar, ops: seq<Op>)
    requires Consistent(b.state) && NoIsInlineSetter(ops)
    ensures Consistent(Run(b, ops).state)
    decreases |ops|
  {
    if ops != [] {
      var b' := Step(b, ops[0]);
      if ops[0].Scroll? {
        var offset := ops[0].offset;
        var recorded := b.(state := b.state.(scrollOffset := offset, lastScrollDirection := DirectionOf(offset)));
        assert Consistent(recorded.state);
      }
      assert Consistent(b'.state);
      ConsistencyKept(b', ops[1..]);
    }
  }

  /** The `isInline` setter breaks that agreement on a fresh bar. */
  lemma IsInlineSetterBreaksConsistency()
    ensures !Consistent(Step(FreshBar, SetIsInline(true)).state)
  {
  }

  /** A transition updates the state record but not `_isInline`, which is
      what the `isInline` getter returns. */
  lemma GetterLagsTransition()
    ensures Step(FreshBar, ToInline).state.isInline
    ensures !Step(FreshBar, ToInline).isInline
  {
  }

  predicate AllScrolls(ops: seq<Op>) {
    forall i :: 0 <= i < |ops| ==> ops[i].Scroll?
  }

  /** Under 'never' or any unrecognised behaviour string, no sequence of
      scrolls changes `isInline`. */
  lemma {:induction false} PassiveBehaviourKeepsMode(b: Bar, ops: seq<Op>)
    requires b.scrollBehavior != "onScrollDown" && b.scrollBehavior != "onScrollUp" && b.scrollBehavior != "always"
    requires AllScrolls(ops)
    ensures Run(b, ops).state.isInline == b.state.isInline
    ensures Run(b, ops).state.isAnimating == b.state.isAnimating
    decreases |ops|
  {
    if ops != [] {
      var b' := Step(b, ops[0]);
      assert b'.scrollBehavior == b.scrollBehavior;
      PassiveBehaviourKeepsMode(b', ops[1..]);
    }
  }

  /** The scroll rules for a bar that may transition. Under 'onScrollDown' the
      bar goes inline only past the threshold downwards and expands on any
      offset that is not positive; 'onScrollUp' is the mirror image; under
      'always' one scroll makes it inline. */
  lemma ScrollRules(b: Bar, offset: real)
    requires b.state.canTransition && !b.state.isAnimating
    ensures b.scrollBehavior == "onScrollDown" ==>
              ScrollChanged(b, offset).state.isInline
              == (if b.state.isInline then offset > 0.0 else offset > ScrollThreshold)
    ensures b.scrollBehavior == "onScrollUp" ==>
              ScrollChanged(b, offset).state.isInline
              == (if b.state.isInline then offset <= 0.0 else offset < -ScrollThreshold)
    ensures b.scrollBehavior == "always" ==> ScrollChanged(b, offset).state.isInline
  {
  }

  /** The threshold is strict: from a fresh bar, an offset of 50 does not make
      the bar inline and an offset of 51 does. An offset of 0 reads as 'up'. */
  lemma ThresholdBoundary()
    ensures !ScrollChanged(FreshBar, 50.0).state.isInline
    ensures ScrollChanged(FreshBar, 51.0).state.isInline
    ensures ScrollChanged(FreshBar, 0.0).state.lastScrollDirection == Up
  {
  }

  // ---------------------------------------------------------------------
  // The bar object

  class FloatingTabBarCommon {
    var state: TabBarState
    var selectedTabKey: string
    var isInline: bool
    var scrollBehavior: string
    var tabItems: seq<TabItem>
    var tabs: seq<FloatingTabItem>
    var events: seq<Event>

    function View(): Bar
      reads this
    {
      Bar(state, selectedTabKey, isInline, scrollBehavior, tabItems, tabs, events)
    }

    constructor ()
      ensures View() == FreshBar
    {
      state := InitialState;
      selectedTabKey := "";
      isInline := false;
      scrollBehavior := "onScrollDown";
      tabItems := [];
      tabs := [];
      events := [];
    }

    method SetIsInline(value: bool)
      modifies this
      ensures View() == IsInlineSet(old(View()), value)
    {
      isInline := value;
      state := state.(isInline := value);
    }

    method SetScrollBehavior(value: string)
      modifies this
      ensures View() == old(View()).(scrollBehavior := value)
    {
      scrollBehavior := value;
    }

    method SetSelectedTabKey(value: string)
      modifies this
      ensures View() == SelectedTabKeySet(old(View()), value)
    {
      selectedTabKey := value;
      state := state.(selectedTabKey := value);
    }

    method AddTabItem(item: TabItem)
      modifies this
      ensures View() == TabItemAdded(old(View()), item)
    {
      tabItems := tabItems + [item];
      tabs := TabsFromItems(tabItems);
    }

    function GetActiveTabContent(): (r: Option<ViewId>)
      reads this
      ensures forall i :: FirstWithKey(tabs, selectedTabKey, i) ==> r == tabs[i].content
      ensures (forall i :: 0 <= i < |tabs| ==> tabs[i].key != selectedTabKey) ==> r.None?
    {
      ActiveTabContent(tabs, selectedTabKey)
    }

    method OnScrollChanged(offset: real)
      modifies this
      ensures View() == ScrollChanged(old(View()), offset)
    {
      state := state.(scrollOffset := offset);
      var direction := if offset > 0.0 then Down else Up;
      state := state.(lastScrollDirection := direction);
      HandleScrollTransition(offset, direction);
      events := events + [ScrollConnectionEvent(offset, direction)];
    }

    method HandleScrollTransition(offset: real, direction: Direction)
      modifies this
      ensures View() == ScrollTransition(old(View()), offset, direction)
    {
      if !state.canTransition || state.isAnimating {
        return;
      }
      var threshold := 50.0;
      if scrollBehavior == "onScrollDown" {
        if direction == Down && Abs(offset) > threshold && !state.isInline {
          TransitionToInline();
        } else if direction == Up && state.isInline {
          TransitionToExpanded();
        }
      } else if scrollBehavior == "onScrollUp" {
        if direction == Up && Abs(offset) > threshold && !state.isInline {
          TransitionToInline();
        } else if direction == Down && state.isInline {
          TransitionToExpanded();
        }
      } else if scrollBehavior == "always" {
        if !state.isInline {
          TransitionToInline();
        }
      }
    }

    method TransitionToInline()
      modifies this
      ensures View() == TransitionTo(old(View()), true)
    {
      if state.isInline || state.isAnimating {
        return;
      }
      state := state.(isAnimating := true);
      state := state.(isInline := true);
      state := state.(isExpanded := false);
      events := events + [StateChangedEvent(state)];
    }

    method TransitionToExpanded()
      modifies this
      ensures View() == TransitionTo(old(View()), false)
    {
      if !state.isInline || state.isAnimating {
        return;
      }
      state := state.(isAnimating := true);
      state := state.(isInline := false);
      state := state.(isExpanded := true);
      events := events + [StateChangedEvent(state)];
    }

    method OnTabSelected(tabKey: string)
      modifies this
      ensures View() == TabSelected(old(View()), tabKey)
    {
      selectedTabKey := tabKey;
      state := state.(selectedTabKey := tabKey);
      events := events + [TabSelectedEvent(tabKey)];
    }
  }
}
