/** The Android side of the floating tab bar
    (packages/floating-tab-bar/index.android.ts): the delta-based scroll
    handler with its direction latch, the scroll connection it is gated on,
    per-tab selection marking, the enabled-gated tap, and the sizes that
    depend on the inline mode. Native views, animation timing and density
    scaling are not part of this model; sizes are in dp (sp for text). */
module TabBarAndroid {
  import opened Optional
  import opened Text
  import opened Search
  import TC = TabBarCommon

  /** `ScrollConnection`: whether an `onScrollChanged` callback is present,
      and the two optional settings the handler reads. */
  datatype ScrollConnection = ScrollConnection(
    hasOnScrollChanged: bool,
    scrollThreshold: Option<real>,
    enableScrollConnection: Option<bool>)

  /** Default delta threshold, in pixels. */
  const DefaultThreshold: real := 50.0

  /** `scrollConnection.scrollThreshold || 50`: an absent or zero threshold
      falls back to 50. */
  function EffectiveThreshold(c: ScrollConnection): (t: real)
    ensures (c.scrollThreshold.None? || c.scrollThreshold == Some(0.0)) ==> t == DefaultThreshold
    ensures c.scrollThreshold.Some? && c.scrollThreshold.value != 0.0 ==> t == c.scrollThreshold.value
    ensures t != 0.0
  {
    match c.scrollThreshold
    case None => DefaultThreshold
    case Some(v) => if v != 0.0 then v else DefaultThreshold
  }

  /** A connection is attached and `enableScrollConnection` is truthy. */
  predicate ConnectionEnabled(c: Option<ScrollConnection>) {
    c.Some? && c.value.enableScrollConnection == Some(true)
  }

  /** The mode the Android handler asks for on a latched direction change:
      `Some(true)` inline, `Some(false)` expanded, `None` for an unrecognised
      behaviour string. Unlike the common handler, 'never' forces expanded. */
  function BehaviourTarget(behavior: string, direction: TC.Direction): (t: Option<bool>)
    ensures behavior == "onScrollDown" ==> t == Some(direction == TC.Down)
    ensures behavior == "onScrollUp" ==> t == Some(direction == TC.Up)
    ensures behavior == "always" ==> t == Some(true)
    ensures behavior == "never" ==> t == Some(false)
    ensures t.None? <==> behavior !in {"onScrollDown", "onScrollUp", "always", "never"}
  {
    if behavior == "onScrollDown" then Some(direction == TC.Down)
    else if behavior == "onScrollUp" then Some(direction == TC.Up)
    else if behavior == "always" then Some(true)
    else if behavior == "never" then Some(false)
    else None
  }

  /** Abstract value of the Android bar: the attached connection, the
      handler's two fields, the values passed to the connection's
      `onScrollChanged` callback, and the common bar underneath. */
  datatype Handler = Handler(
    scrollConnection: Option<ScrollConnection>,
    lastScrollY: real,
    scrollDirection: TC.Direction,
    callbacks: seq<real>,
    bar: TC.Bar)

  /** `handleScrollEvent(scrollY)`: when the connection is enabled, the
      delta from the last offset is compared with the threshold; a delta past
      it whose direction differs from the latched one latches the new
      direction, asks for the behaviour's mode and calls back once. */
  function HandleScroll(h: Handler, scrollY: real): (r: Handler)
    ensures !ConnectionEnabled(h.scrollConnection) ==> r == h
    ensures ConnectionEnabled(h.scrollConnection) ==>
              r.lastScrollY == scrollY && r.scrollConnection == h.scrollConnection
    ensures r.scrollDirection != h.scrollDirection <==>
              ConnectionEnabled(h.scrollConnection)
              && Abs(scrollY - h.lastScrollY) > EffectiveThreshold(h.scrollConnection.value)
              && TC.DirectionOf(scrollY - h.lastScrollY) != h.scrollDirection
    ensures r.scrollDirection != h.scrollDirection ==> r.scrollDirection == TC.DirectionOf(scrollY - h.lastScrollY)
    ensures r.scrollDirection == h.scrollDirection ==> r.bar == h.bar && r.callbacks == h.callbacks
    ensures r.scrollDirection != h.scrollDirection ==>
              r.bar == (match BehaviourTarget(h.bar.scrollBehavior, r.scrollDirection)
                        case Some(toInline) => TC.TransitionTo(h.bar, toInline)
                        case None => h.bar)
    ensures r.scrollDirection != h.scrollDirection ==>
              r.callbacks == h.callbacks + (if h.scrollConnection.value.hasOnScrollChanged then [scrollY] else [])
  {
    if !ConnectionEnabled(h.scrollConnection) then h
    else
      var c := h.scrollConnection.value;
      var threshold := EffectiveThreshold(c);
      var deltaY := scrollY - h.lastScrollY;
      if Abs(deltaY) > threshold then
        var direction := TC.DirectionOf(deltaY);
        if direction != h.scrollDirection then
          var bar := match BehaviourTarget(h.bar.scrollBehavior, direction)
                     case Some(toInline) => TC.TransitionTo(h.bar, toInline)
                     case None => h.bar;
          var callbacks := if c.hasOnScrollChanged then h.callbacks + [scrollY] else h.callbacks;
          h.(scrollDirection := direction, bar := bar, callbacks := callbacks, lastScrollY := scrollY)
        else h.(lastScrollY := scrollY)
      else h.(lastScrollY := scrollY)
  }

  /** The latch: once a scroll has latched a direction, a further scroll in
      the same direction, up or down and however far, neither transitions nor
      calls back, and the latch stays. */
  lemma LatchSuppressesRepeat(h: Handler, y1: real, y2: real)
    requires ConnectionEnabled(h.scrollConnection)
    requires Abs(y1 - h.lastScrollY) > EffectiveThreshold(h.scrollConnection.value)
    requires TC.DirectionOf(y2 - y1) == TC.DirectionOf(y1 - h.lastScrollY)
    ensures var h1 := HandleScroll(h, y1);
      && h1.scrollDirection == TC.DirectionOf(y1 - h.lastScrollY)
      && HandleScroll(h1, y2).scrollDirection == h1.scrollDirection
      && HandleScroll(h1, y2).bar == h1.bar && HandleScroll(h1, y2).callbacks == h1.callbacks
  {
  }

  /** The two handlers disagree on 'never': the common one leaves an inline
      bar inline whatever the scroll, the Android one expands it on a latched
      direction change. */
  lemma NeverDiffersBetweenHandlers(b: TC.Bar, c: ScrollConnection)
    requires b.scrollBehavior == "never" && b.state.isInline && !b.state.isAnimating && b.state.canTransition
    requires c.enableScrollConnection == Some(true) && c.scrollThreshold.None?
    ensures TC.ScrollChanged(b, -100.0).state.isInline
    ensures !HandleScroll(Handler(Some(c), 0.0, TC.NoDirection, [], b), -100.0).bar.state.isInline
  {
  }

  /** Whether a tap on the tab selects it: only `enabled === false` refuses. */
  predicate CanSelect(tab: TC.FloatingTabItem) {
    tab.enabled != Some(false)
  }

  /** The title rule of `createTabView`: not standalone, a truthy title, and
      the bar not inline. */
  function ShowsTitle(tab: TC.FloatingTabItem, isInline: bool): (shown: bool)
    ensures shown ==> !isInline
    ensures shown <==> tab.isStandalone != Some(true) && tab.title.Some? && tab.title.value != "" && !isInline
  {
    tab.isStandalone != Some(true) && TC.Truthy(tab.title) && !isInline
  }

  /** For tabs built from tab items, the optional-field defaults never apply:
      a tap selects exactly the enabled items, and a title is shown exactly
      for non-standalone items with a title while expanded. */
  lemma TabDataRules(item: TC.TabItem, isInline: bool)
    ensures CanSelect(TC.GetTabData(item)) <==> item.enabled
    ensures ShowsTitle(TC.GetTabData(item), isInline) <==> !item.isStandalone && item.title != "" && !isInline
  {
  }

  /** The sizes that depend on the mode: the target bar height (48 dp inline,
      64 dp expanded), the font-icon text size (18 sp / 20 sp) and the image
      icon size (20 dp / 24 dp). */
  datatype Sizes = Sizes(barHeightDp: nat, fontIconSp: nat, imageIconDp: nat)

  function SizesFor(isInline: bool): (s: Sizes)
    ensures isInline ==> s == Sizes(48, 18, 20)
    ensures !isInline ==> s == Sizes(64, 20, 24)
  {
    if isInline then Sizes(48, 18, 20) else Sizes(64, 20, 24)
  }

  /** The selection marks `updateTabSelection` leaves on the tab container's
      children: child `i` that has a tab is marked iff that tab's key is the
      selected one; a child without a tab keeps its mark. */
  function SelectionMarks(tabs: seq<TC.FloatingTabItem>, key: string, marks: seq<bool>): (r: seq<bool>)
    ensures |r| == |marks|
    ensures forall i :: 0 <= i < |r| && i < |tabs| ==> (r[i] <==> tabs[i].key == key)
    ensures forall i :: |tabs| <= i < |r| ==> r[i] == marks[i]
  {
    seq(|marks|, i requires 0 <= i < |marks| => if i < |tabs| then tabs[i].key == key else marks[i])
  }

  /** With unique keys and one child per tab, at most one child is marked. */
  lemma AtMostOneMarked(tabs: seq<TC.FloatingTabItem>, key: string, marks: seq<bool>, i: int, j: int)
    requires forall p, q :: 0 <= p < q < |tabs| ==> tabs[p].key != tabs[q].key
    requires |marks| == |tabs|
    requires 0 <= i < |marks| && 0 <= j < |marks|
    requires SelectionMarks(tabs, key, marks)[i] && SelectionMarks(tabs, key, marks)[j]
    ensures i == j
  {
  }

  /** The content `updateTabContent` shows: that of the first tab item whose
      key is the selected key; nothing when no item has the key or that item
      has no content. */
  function ShownContent(items: seq<TC.TabItem>, selectedTabKey: string): (r: Option<TC.ViewId>)
    ensures forall i :: 0 <= i < |items| && items[i].key == selectedTabKey
              && (forall j :: 0 <= j < i ==> items[j].key != selectedTabKey)
              ==> r == items[i].content
    ensures (forall i :: 0 <= i < |items| ==> items[i].key != selectedTabKey) ==> r.None?
  {
    match FindFirst(items, (item: TC.TabItem) => item.key == selectedTabKey)
    case None => None
    case Some(i) => items[i].content
  }

  class FloatingTabBar {
    const base: TC.FloatingTabBarCommon
    var scrollConnection: Option<ScrollConnection>
    var lastScrollY: real
    var scrollDirection: TC.Direction
    /** Every value passed to the connection's `onScrollChanged`, in order. */
    var callbacks: seq<real>
    /** The content view the content container shows. */
    var shownContent: Option<TC.ViewId>

    function View(): Handler
      reads this, base
    {
      Handler(scrollConnection, lastScrollY, scrollDirection, callbacks, base.View())
    }

    constructor ()
      ensures fresh(base)
      ensures View() == Handler(None, 0.0, TC.NoDirection, [], TC.FreshBar)
      ensures shownContent == None
    {
      base := new TC.FloatingTabBarCommon();
      scrollConnection := None;
      lastScrollY := 0.0;
      scrollDirection := TC.NoDirection;
      callbacks := [];
      shownContent := None;
    }

    method AttachScrollConnection(c: ScrollConnection)
      modifies this
      ensures View() == old(View()).(scrollConnection := Some(c))
      ensures shownContent == old(shownContent)
    {
      scrollConnection := Some(c);
    }

    method DetachScrollConnection()
      modifies this
      ensures View() == old(View()).(scrollConnection := None)
      ensures shownContent == old(shownContent)
    {
      scrollConnection := None;
    }

    method HandleScrollEvent(scrollY: real)
      modifies this, base
      ensures View() == HandleScroll(old(View()), scrollY)
      ensures shownContent == old(shownContent)
    {
      if scrollConnection.None? || scrollConnection.value.enableScrollConnection != Some(true) {
        return;
      }
      var threshold := if scrollConnection.value.scrollThreshold.Some? && scrollConnection.value.scrollThreshold.value != 0.0
                       then scrollConnection.value.scrollThreshold.value else 50.0;
      var deltaY := scrollY - lastScrollY;
      if Abs(deltaY) > threshold {
        var direction := if deltaY > 0.0 then TC.Down else TC.Up;
        if direction != scrollDirection {
          scrollDirection := direction;
          var behavior := base.scrollBehavior;
          if behavior == "onScrollDown" {
            if direction == TC.Down { base.TransitionToInline(); } else { base.TransitionToExpanded(); }
          } else if behavior == "onScrollUp" {
            if direction == TC.Up { base.TransitionToInline(); } else { base.TransitionToExpanded(); }
          } else if behavior == "always" {
            base.TransitionToInline();
          } else if behavior == "never" {
            base.TransitionToExpanded();
          }
          if scrollConnection.value.hasOnScrollChanged {
            callbacks := callbacks + [scrollY];
          }
        }
      }
      lastScrollY := scrollY;
    }

    /** `updateTabSelection(tabKey)`: `marks` are the selection marks of the
        tab container's children; then the content container is refreshed.
        The guards that return early while the tab container or the content
        container does not exist yet are left out with the native views:
        the model's containers always exist. */
    method UpdateTabSelection(marks: array<bool>, tabKey: string)
      modifies this, marks
      ensures marks[..] == SelectionMarks(base.tabs, tabKey, old(marks[..]))
      ensures shownContent == ShownContent(base.tabItems, base.selectedTabKey)
      ensures View() == old(View())
    {
      var tabs := base.tabs;
      for i := 0 to marks.Length
        modifies marks
        invariant forall k :: 0 <= k < i ==> marks[k] == (if k < |tabs| then tabs[k].key == tabKey else old(marks[k]))
        invariant forall k :: i <= k < marks.Length ==> marks[k] == old(marks[k])
      {
        if i < |tabs| {
          marks[i] := tabs[i].key == tabKey;
        }
      }
      shownContent := ShownContent(base.tabItems, base.selectedTabKey);
    }

    /** The click listener of a tab view: unless the tab is disabled, set the
        `selectedTabKey` property, whose setter runs `updateTabSelection`. */
    method OnTabClick(tab: TC.FloatingTabItem, marks: array<bool>)
      modifies this, base, marks
      ensures CanSelect(tab) ==> base.View() == TC.SelectedTabKeySet(old(base.View()), tab.key)
      ensures CanSelect(tab) ==> marks[..] == SelectionMarks(base.tabs, tab.key, old(marks[..]))
      ensures CanSelect(tab) ==> shownContent == ShownContent(base.tabItems, tab.key)
      ensures !CanSelect(tab) ==> shownContent == old(shownContent)
      ensures !CanSelect(tab) ==> View() == old(View()) && marks[..] == old(marks[..])
      ensures View().(bar := old(base.View())) == old(View())
    {
      if tab.enabled != Some(false) {
        base.SetSelectedTabKey(tab.key);
        UpdateTabSelection(marks, tab.key);
      }
    }
  }
}
