/**
 * Concrete prop sequences applied to a fresh view, showing what callers can
 * conclude from the operations' contracts alone.
 */
module Scenarios {
  import opened Wrappers
  import opened Dynamic
  import opened ContentDescription
  import opened Views
  import opened BaseViewManager

  /** Clearing the only label leaves the old description in place. */
  method ClearedLabelLeavesStaleDescription() returns (before: Option<string>, after: Option<string>)
    ensures before == Some("Menu") && after == Some("Menu")
  {
    var view := new View(false);
    SetAccessibilityLabel(view, Some("Menu"));
    assert DescriptionPartsOf(view.tags) == ["Menu"];
    before := view.contentDescription;
    SetAccessibilityLabel(view, None);
    assert DescriptionPartsOf(view.tags) == [];
    after := view.contentDescription;
  }

  /**
   * On a focused view, selecting then deselecting: the key `selected` is not
   * a redescribing key, so each application sends a click event, and only the
   * deselection is announced.
   */
  method SelectThenDeselect() returns (log: seq<Effect>)
    ensures log == [ViewClicked, Announcement(UnselectedDescription), ViewClicked]
  {
    var view := new View(true);
    var select: ReadableMap := [(StateSelected, Bool(true))];
    var deselect: ReadableMap := [(StateSelected, Bool(false))];
    assert Get(select, StateSelected) == Some(Bool(true));
    assert FirstRedescribing(select) == None;
    var ok := SetViewState(view, Some(select));
    assert view.log == [ViewClicked];
    assert Get(deselect, StateSelected) == Some(Bool(false));
    assert FirstRedescribing(deselect) == None;
    assert HasKey(deselect, StateSelected) by { assert deselect[0].0 == StateSelected; }
    ok := SetViewState(view, Some(deselect));
    log := view.log;
  }

  /**
   * The scan stops at `busy`: one click event for the key before it, none for
   * the key after it, and the description becomes the busy phrase.
   */
  method ScanStopsAtBusy() returns (log: seq<Effect>, description: Option<string>)
    ensures log == [ViewClicked] && description == Some(BusyDescription)
  {
    var view := new View(true);
    var state: ReadableMap := [("disabled", Bool(true)), (StateBusy, Bool(true)), (StateChecked, Bool(true))];
    BusyScanLog(state);
    BusyScanDescription(state);
    var ok := SetViewState(view, Some(state));
    log, description := view.log, view.contentDescription;
  }

  /** The log `setViewState` writes for the map of `ScanStopsAtBusy` on a fresh, focused view. */
  lemma BusyScanLog(state: ReadableMap)
    requires state == [("disabled", Bool(true)), (StateBusy, Bool(true)), (StateChecked, Bool(true))]
    ensures SelectedReadable(state) && FirstRedescribing(state) == Some(1)
    ensures UnselectAnnouncement(false, true, state) == [] && ScanClicks(state, true) == [ViewClicked]
  {
    assert FirstRedescribing(state) == Some(1);
  }

  /** The description `setViewState` then computes: only the busy phrase. */
  lemma BusyScanDescription(state: ReadableMap)
    requires state == [("disabled", Bool(true)), (StateBusy, Bool(true)), (StateChecked, Bool(true))]
    ensures Refreshed(None, DescriptionPartsOf(map[AccessibilityState := MapTag(state)])) == Some(BusyDescription)
  {
    assert state[1..][1..] == [(StateChecked, Bool(true))];
    assert StatePhrases(state[1..]) == [BusyDescription];
    ghost var tags := map[AccessibilityState := MapTag(state)];
    assert StrTagOf(tags, AccessibilityLabel) == None && StrTagOf(tags, AccessibilityHint) == None;
    assert MapTagOf(tags, AccessibilityState) == Some(state) && MapTagOf(tags, AccessibilityValue) == None;
    assert DescriptionParts(None, Some(state), None, None) == [BusyDescription];
  }

  /** A fresh, unfocused view whose only tag is the label "Menu". */
  method LabelledMenu() returns (view: View)
    ensures fresh(view) && view.Valid() && !view.accessibilityFocused && !view.selected
    ensures view.tags == map[AccessibilityLabel := StrTag("Menu")]
  {
    view := new View(false);
    SetAccessibilityLabel(view, Some("Menu"));
  }

  /** A fresh, unfocused view labelled "Menu" whose state map is `{expanded: true}`. */
  method ExpandedMenu() returns (view: View, expanded: ReadableMap)
    ensures fresh(view) && view.Valid() && !view.accessibilityFocused
    ensures expanded == [(StateExpanded, Bool(true))]
    ensures view.tags == map[AccessibilityLabel := StrTag("Menu"), AccessibilityState := MapTag(expanded)]
    ensures view.contentDescription == Some("Menu, expanded")
  {
    view := LabelledMenu();
    expanded := [(StateExpanded, Bool(true))];
    ExpandedMenuDescription(expanded, view.contentDescription);
    var ok := SetViewState(view, Some(expanded));
  }

  /** What `setViewState` computes for `{expanded: true}` on an unfocused view labelled "Menu". */
  lemma ExpandedMenuDescription(expanded: ReadableMap, previous: Option<string>)
    requires expanded == [(StateExpanded, Bool(true))]
    ensures SelectedReadable(expanded) && FirstRedescribing(expanded) == Some(0)
    ensures UnselectAnnouncement(false, false, expanded) == [] && ScanClicks(expanded, false) == []
    ensures Refreshed(previous, DescriptionPartsOf(map[AccessibilityLabel := StrTag("Menu"),
                                                      AccessibilityState := MapTag(expanded)]))
            == Some("Menu, expanded")
  {
    assert FirstRedescribing(expanded) == Some(0);
    ExpandedExamples();
    ghost var withState := map[AccessibilityLabel := StrTag("Menu"), AccessibilityState := MapTag(expanded)];
    assert DescriptionPartsOf(withState) == DescriptionParts(Some("Menu"), Some(expanded), None, None);
  }

  /**
   * Replacing a state map by one without a redescribing key does not recompute
   * the description: the phrase of the removed `expanded` key stays, although
   * the tags now describe only the label.
   */
  method RemovedStateKeyLeavesStalePhrase() returns (description: Option<string>, parts: seq<string>)
    ensures description == Some("Menu, expanded") && parts == ["Menu"]
  {
    var view, expanded := ExpandedMenu();
    var empty: ReadableMap := [];
    assert FirstRedescribing(empty) == None;
    var ok := SetViewState(view, Some(empty));
    assert view.tags == map[AccessibilityLabel := StrTag("Menu"), AccessibilityState := MapTag(empty)];
    assert DescriptionPartsOf(view.tags) == ["Menu"];
    description, parts := view.contentDescription, DescriptionPartsOf(view.tags);
  }
}
