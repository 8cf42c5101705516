/**
 * The accessibility, tag-store and recycle logic of the base view manager.
 * The manager holds no per-view state: each operation takes the view it
 * applies to and changes only the fields its `modifies` clause names.
 */
module BaseViewManager {
  import opened Wrappers
  import opened Dynamic
  import opened Text
  import opened ContentDescription
  import opened AccessibilityModes
  import opened Views

  // ---------------------------------------------------------------------------
  // Specification of setViewState

  /** `getBoolean("selected")` succeeds: the key is absent or holds a boolean. */
  predicate SelectedReadable(state: ReadableMap)
  {
    Get(state, StateSelected).None? || Get(state, StateSelected).value.Bool?
  }

  /** The `selected` flag after a state map is applied: its `selected` entry, false when absent. */
  function NextSelected(state: ReadableMap): (r: bool)
    ensures r <==> (StateSelected, Bool(true)) in state
  {
    assert (StateSelected, Bool(true)) in state ==> Get(state, StateSelected) == Some(Bool(true)) by {
      if (StateSelected, Bool(true)) in state {
        var i :| 0 <= i < |state| && state[i] == (StateSelected, Bool(true));
        GetAt(state, i);
      }
    }
    var v := Get(state, StateSelected);
    v.Some? && v.value.Bool? && v.value.b
  }

  /** The announcement `setViewState` makes before scanning the keys. */
  function UnselectAnnouncement(prevSelected: bool, focused: bool, state: ReadableMap): (r: seq<Effect>)
    ensures r == [] || r == [Announcement(UnselectedDescription)]
    ensures SelectedReadable(state) ==>
      (r != [] <==> focused && prevSelected && (StateSelected, Bool(false)) in state)
  {
    assert (StateSelected, Bool(false)) in state ==> Get(state, StateSelected) == Some(Bool(false)) by {
      if (StateSelected, Bool(false)) in state {
        var i :| 0 <= i < |state| && state[i] == (StateSelected, Bool(false));
        GetAt(state, i);
      }
    }
    assert HasKey(state, StateSelected) && SelectedReadable(state) && !NextSelected(state) ==>
      (StateSelected, Bool(false)) in state by {
      if HasKey(state, StateSelected) && SelectedReadable(state) && !NextSelected(state) {
        var i :| 0 <= i < |state| && state[i].0 == StateSelected;
        GetAt(state, i);
        assert state[i] == (StateSelected, Bool(false));
      }
    }
    if HasKey(state, StateSelected) && focused && prevSelected && !NextSelected(state)
    then [Announcement(UnselectedDescription)]
    else []
  }

  function Clicks(n: nat): (r: seq<Effect>)
    ensures |r| == n && forall k :: 0 <= k < n ==> r[k] == ViewClicked
  {
    seq(n, _ => ViewClicked)
  }

  /** The number of keys the scan passes over before it stops. */
  function ScannedBeforeStop(state: ReadableMap): nat
  {
    var first := FirstRedescribing(state);
    if first.Some? then first.value else |state|
  }

  /** The click events the key scan sends: one per key before the first redescribing key, when focused. */
  function ScanClicks(state: ReadableMap, focused: bool): (r: seq<Effect>)
    ensures |r| <= |state|
    ensures forall k :: 0 <= k < |r| ==> r[k] == ViewClicked && !Redescribes(state[k].0, state[k].1)
    ensures focused && |r| < |state| ==> Redescribes(state[|r|].0, state[|r|].1)
    ensures !focused ==> r == []
  {
    if focused then Clicks(ScannedBeforeStop(state)) else []
  }

  /** A state map without a `selected` entry deselects the view and announces nothing. */
  lemma AbsentSelectedDeselectsSilently(prevSelected: bool, focused: bool, state: ReadableMap)
    requires forall i :: 0 <= i < |state| ==> state[i].0 != StateSelected
    ensures !NextSelected(state) && UnselectAnnouncement(prevSelected, focused, state) == []
  {
  }

  /**
   * When the scan finds no key to recompute for, the new state map itself
   * would contribute no phrase. The description is still not recomputed, so
   * phrases of a previously stored state map, and any label, hint or value
   * change not yet reflected, stay in it.
   */
  lemma NewStateWithoutTriggerHasNoPhrase(state: ReadableMap)
    requires FirstRedescribing(state).None?
    ensures StatePhrases(state) == []
  {
    NoPhraseWithoutRedescribing(state);
  }

  // ---------------------------------------------------------------------------
  // Content description

  /** Recompute the description from the tag store; leave it as it was when there is nothing to say. */
  method UpdateViewContentDescription(view: View)
    requires view.Valid()
    modifies view`contentDescription
    ensures view.contentDescription == Refreshed(old(view.contentDescription), DescriptionPartsOf(view.tags))
  {
    var parts := DescriptionPartsOf(view.tags);
    if |parts| > 0 {
      view.contentDescription := Some(Join(parts, Separator));
    }
  }

  method SetAccessibilityLabel(view: View, labelText: Option<string>)
    requires view.Valid()
    modifies view`tags, view`contentDescription
    ensures view.Valid()
    ensures view.tags == WithTag(old(view.tags), AccessibilityLabel, if labelText.Some? then Some(StrTag(labelText.value)) else None)
    ensures view.contentDescription == Refreshed(old(view.contentDescription), DescriptionPartsOf(view.tags))
  {
    view.tags := WithTag(view.tags, AccessibilityLabel, if labelText.Some? then Some(StrTag(labelText.value)) else None);
    UpdateViewContentDescription(view);
  }

  method SetAccessibilityHint(view: View, hint: Option<string>)
    requires view.Valid()
    modifies view`tags, view`contentDescription
    ensures view.Valid()
    ensures view.tags == WithTag(old(view.tags), AccessibilityHint, if hint.Some? then Some(StrTag(hint.value)) else None)
    ensures view.contentDescription == Refreshed(old(view.contentDescription), DescriptionPartsOf(view.tags))
  {
    view.tags := WithTag(view.tags, AccessibilityHint, if hint.Some? then Some(StrTag(hint.value)) else None);
    UpdateViewContentDescription(view);
  }

  /** A null value changes nothing; a value with a `text` key also recomputes the description. */
  method SetAccessibilityValue(view: View, value: Option<ReadableMap>)
    requires view.Valid()
    modifies view`tags, view`contentDescription
    ensures view.Valid()
    ensures value.None? ==> view.tags == old(view.tags) && view.contentDescription == old(view.contentDescription)
    ensures value.Some? ==> view.tags == old(view.tags)[AccessibilityValue := MapTag(value.value)]
    ensures value.Some? && HasKey(value.value, ValueText) ==>
      view.contentDescription == Refreshed(old(view.contentDescription), DescriptionPartsOf(view.tags))
    ensures value.Some? && !HasKey(value.value, ValueText) ==> view.contentDescription == old(view.contentDescription)
  {
    if value.None? {
      return;
    }
    view.tags := view.tags[AccessibilityValue := MapTag(value.value)];
    if HasKey(value.value, ValueText) {
      UpdateViewContentDescription(view);
    }
  }

  // ---------------------------------------------------------------------------
  // Accessibility state

  /**
   * Apply an accessibility state map. Returns false when `getBoolean("selected")`
   * throws (a `selected` entry that is not a boolean); the view is then untouched.
   */
  method SetViewState(view: View, state: Option<ReadableMap>) returns (ok: bool)
    requires view.Valid()
    modifies view`selected, view`enabled, view`tags, view`log, view`contentDescription
    ensures view.Valid()
    ensures ok <==> state.None? || SelectedReadable(state.value)
    ensures !ok || state.None? ==>
      && view.selected == old(view.selected) && view.enabled == old(view.enabled)
      && view.tags == old(view.tags) && view.log == old(view.log)
      && view.contentDescription == old(view.contentDescription)
    ensures ok && state.Some? ==>
      && view.selected == NextSelected(state.value)
      && view.enabled
      && view.tags == old(view.tags)[AccessibilityState := MapTag(state.value)]
      && view.log == old(view.log)
                     + UnselectAnnouncement(old(view.selected), view.accessibilityFocused, state.value)
                     + ScanClicks(state.value, view.accessibilityFocused)
      && view.contentDescription ==
           if FirstRedescribing(state.value).Some?
           then Refreshed(old(view.contentDescription), DescriptionPartsOf(view.tags))
           else old(view.contentDescription)
  {
    if state.None? {
      return true;
    }
    var m := state.value;
    if !SelectedReadable(m) {
      return false;
    }
    ApplySelected(view, m);
    view.tags := view.tags[AccessibilityState := MapTag(m)];
    view.enabled := true;
    ScanStateKeys(view, m);
    return true;
  }

  /**
   * The `selected` entry of a state map: the view takes it (false when absent),
   * and a focused view announces a deselection.
   */
  method ApplySelected(view: View, m: ReadableMap)
    requires SelectedReadable(m)
    modifies view`selected, view`log
    ensures view.selected == NextSelected(m)
    ensures view.log == old(view.log) + UnselectAnnouncement(old(view.selected), view.accessibilityFocused, m)
  {
    var selectedEntry := Get(m, StateSelected);
    if selectedEntry.Some? {
      var prevSelected := view.selected;
      var nextSelected := selectedEntry.value.b;
      view.selected := nextSelected;
      if view.accessibilityFocused && prevSelected && !nextSelected {
        view.log := view.log + [Announcement(UnselectedDescription)];
      }
    } else {
      view.selected := false;
    }
  }

  /**
   * The key scan of `setViewState`: stop at the first key that needs the
   * description recomputed and recompute it once; before that, send one click
   * event per key when the view is accessibility-focused.
   */
  method ScanStateKeys(view: View, m: ReadableMap)
    requires view.Valid()
    modifies view`log, view`contentDescription
    ensures view.log == old(view.log) + ScanClicks(m, view.accessibilityFocused)
    ensures view.contentDescription ==
      if FirstRedescribing(m).Some?
      then Refreshed(old(view.contentDescription), DescriptionPartsOf(view.tags))
      else old(view.contentDescription)
  {
    var i := 0;
    while i < |m|
      invariant 0 <= i <= |m|
      invariant forall j :: 0 <= j < i ==> !Redescribes(m[j].0, m[j].1)
      invariant view.log == old(view.log) + (if view.accessibilityFocused then Clicks(i) else [])
      invariant view.contentDescription == old(view.contentDescription)
    {
      var key := m[i].0;
      var checkedEntry := Get(m, StateChecked);
      if key == StateChecked {
        GetAt(m, i);
      }
      if key == StateBusy || key == StateExpanded
         || (key == StateChecked && checkedEntry.Some? && TypeOf(checkedEntry.value) == StringType)
      {
        assert FirstRedescribing(m) == Some(i);
        UpdateViewContentDescription(view);
        break;
      } else if view.accessibilityFocused {
        assert Clicks(i) + [ViewClicked] == Clicks(i + 1);
        view.log := view.log + [ViewClicked];
      }
      i := i + 1;
    }
  }

  // ---------------------------------------------------------------------------
  // Other keyed-store setters

  /** A null role changes nothing; otherwise the resolved role is stored. */
  method SetAccessibilityRole(view: View, role: Option<string>)
    requires view.Valid()
    modifies view`tags
    ensures view.Valid()
    ensures view.tags == if role.None? then old(view.tags)
                         else old(view.tags)[AccessibilityRole := RoleTag(Role(role.value))]
  {
    if role.None? {
      return;
    }
    view.tags := view.tags[AccessibilityRole := RoleTag(Role(role.value))];
  }

  /** A null action list changes nothing. */
  method SetAccessibilityActions(view: View, actions: Option<seq<Dyn>>)
    requires view.Valid()
    modifies view`tags
    ensures view.Valid()
    ensures view.tags == if actions.None? then old(view.tags)
                         else old(view.tags)[AccessibilityActions := ArrayTag(actions.value)]
  {
    if actions.None? {
      return;
    }
    view.tags := view.tags[AccessibilityActions := ArrayTag(actions.value)];
  }

  method SetAccessibilityCollection(view: View, collection: Option<ReadableMap>)
    requires view.Valid()
    modifies view`tags
    ensures view.Valid()
    ensures view.tags == WithTag(old(view.tags), AccessibilityCollection,
                                 if collection.Some? then Some(MapTag(collection.value)) else None)
  {
    view.tags := WithTag(view.tags, AccessibilityCollection,
                         if collection.Some? then Some(MapTag(collection.value)) else None);
  }

  method SetAccessibilityCollectionItem(view: View, item: Option<ReadableMap>)
    requires view.Valid()
    modifies view`tags
    ensures view.Valid()
    ensures view.tags == WithTag(old(view.tags), AccessibilityCollectionItem,
                                 if item.Some? then Some(MapTag(item.value)) else None)
  {
    view.tags := WithTag(view.tags, AccessibilityCollectionItem,
                         if item.Some? then Some(MapTag(item.value)) else None);
  }

  /**
   * A null dynamic is ignored, a string is stored as it is, an array stores its
   * element 0, any other type is ignored. Returns false when reading element 0
   * throws (an empty array, or an element that is neither a string nor null).
   */
  method SetAccessibilityLabelledBy(view: View, nativeId: Dyn) returns (ok: bool)
    requires view.Valid()
    modifies view`tags
    ensures view.Valid()
    ensures ok <==> !nativeId.ArrayV? || (|nativeId.items| > 0 && (nativeId.items[0].Str? || nativeId.items[0].Null?))
    ensures nativeId.Str? ==> view.tags == old(view.tags)[LabelledBy := StrTag(nativeId.s)]
    ensures nativeId.ArrayV? && ok ==>
      view.tags == WithTag(old(view.tags), LabelledBy,
                           if nativeId.items[0].Str? then Some(StrTag(nativeId.items[0].s)) else None)
    ensures !nativeId.Str? && !(nativeId.ArrayV? && ok) ==> view.tags == old(view.tags)
  {
    if TypeOf(nativeId) == NullType {
      return true;
    }
    if TypeOf(nativeId) == StringType {
      view.tags := view.tags[LabelledBy := StrTag(nativeId.s)];
    } else if TypeOf(nativeId) == ArrayType {
      if |nativeId.items| == 0 || !(nativeId.items[0].Str? || nativeId.items[0].Null?) {
        return false;
      }
      var first := nativeId.items[0];
      view.tags := WithTag(view.tags, LabelledBy, if first.Str? then Some(StrTag(first.s)) else None);
    }
    return true;
  }

  /** Stores the test id under its key and also as the view's plain tag. */
  method SetTestId(view: View, testId: Option<string>)
    requires view.Valid()
    modifies view`tags, view`viewTag
    ensures view.Valid()
    ensures view.tags == WithTag(old(view.tags), ReactTestId, if testId.Some? then Some(StrTag(testId.value)) else None)
    ensures view.viewTag == testId
  {
    view.tags := WithTag(view.tags, ReactTestId, if testId.Some? then Some(StrTag(testId.value)) else None);
    view.viewTag := testId;
  }

  method SetNativeId(view: View, nativeId: Option<string>)
    requires view.Valid()
    modifies view`tags
    ensures view.Valid()
    ensures view.tags == WithTag(old(view.tags), ViewTagNativeId, if nativeId.Some? then Some(StrTag(nativeId.value)) else None)
  {
    view.tags := WithTag(view.tags, ViewTagNativeId, if nativeId.Some? then Some(StrTag(nativeId.value)) else None);
  }

  /** The pointer-event capability setters: each stores its boolean under its own key. */
  method SetPointerFlag(view: View, id: TagId, value: bool)
    requires view.Valid()
    requires id in {PointerEnter, PointerLeave, PointerMove, PointerEnter2, PointerEnter2Capture,
                    PointerLeave2, PointerLeave2Capture, PointerMove2, PointerMove2Capture}
    modifies view`tags
    ensures view.Valid()
    ensures view.tags == old(view.tags)[id := BoolTag(value)]
  {
    view.tags := view.tags[id := BoolTag(value)];
  }

  // ---------------------------------------------------------------------------
  // String-to-mode setters

  /** Unrecognised strings leave the setting as it is. */
  method SetImportantForAccessibility(view: View, value: Option<string>)
    modifies view`importantForAccessibility
    ensures view.importantForAccessibility ==
      if ImportantForAccessibilityMode(value).Some? then ImportantForAccessibilityMode(value).value
      else old(view.importantForAccessibility)
  {
    if value.None? || value.value == "auto" {
      view.importantForAccessibility := ImportantAuto;
    } else if value.value == "yes" {
      view.importantForAccessibility := ImportantYes;
    } else if value.value == "no" {
      view.importantForAccessibility := ImportantNo;
    } else if value.value == "no-hide-descendants" {
      view.importantForAccessibility := ImportantNoHideDescendants;
    }
  }

  /** Unrecognised strings leave the setting as it is. */
  method SetAccessibilityLiveRegion(view: View, liveRegion: Option<string>)
    modifies view`accessibilityLiveRegion
    ensures view.accessibilityLiveRegion ==
      if LiveRegionMode(liveRegion).Some? then LiveRegionMode(liveRegion).value
      else old(view.accessibilityLiveRegion)
  {
    if liveRegion.None? || liveRegion.value == "none" {
      view.accessibilityLiveRegion := LiveRegionNone;
    } else if liveRegion.value == "polite" {
      view.accessibilityLiveRegion := LiveRegionPolite;
    } else if liveRegion.value == "assertive" {
      view.accessibilityLiveRegion := LiveRegionAssertive;
    }
  }

  method SetRenderToHardwareTexture(view: View, useHardwareTexture: bool)
    modifies view`layerType
    ensures view.layerType == LayerType(useHardwareTexture)
  {
    view.layerType := if useHardwareTexture then LayerTypeHardware else LayerTypeNone;
  }

  // ---------------------------------------------------------------------------
  // Transform reset and recycling

  /**
   * The reset `setTransform(view, null)` performs. `toPixelFromDIP` is the
   * display's density-independent-pixel conversion, supplied from outside.
   */
  method ResetTransformProperty(view: View, toPixelFromDIP: real -> real)
    modifies view`translationX, view`translationY, view`rotation, view`rotationX, view`rotationY,
             view`scaleX, view`scaleY, view`cameraDistance
    ensures view.translationX == toPixelFromDIP(0.0) && view.translationY == toPixelFromDIP(0.0)
    ensures view.rotation == 0.0 && view.rotationX == 0.0 && view.rotationY == 0.0
    ensures view.scaleX == 1.0 && view.scaleY == 1.0
    ensures view.cameraDistance == 0.0
  {
    view.translationX := toPixelFromDIP(0.0);
    view.translationY := toPixelFromDIP(0.0);
    view.rotation := 0.0;
    view.rotationX := 0.0;
    view.rotationY := 0.0;
    view.scaleX := 1.0;
    view.scaleY := 1.0;
    view.cameraDistance := 0.0;
  }

  /**
   * Reset a view before it is reused: clear twelve tags, reset the transform
   * and restore the listed render-node, focus and appearance fields. Nothing
   * else changes; in particular the other tags, the left focus link, the plain
   * view tag and the accessibility fields keep their values.
   */
  method PrepareToRecycleView(view: View, toPixelFromDIP: real -> real)
    requires view.Valid()
    modifies view`tags,
             view`translationX, view`translationY, view`rotation, view`rotationX, view`rotationY,
             view`scaleX, view`scaleY, view`cameraDistance,
             view`pivotX, view`pivotY, view`top, view`bottom, view`left, view`right,
             view`elevation, view`animationMatrix,
             view`outlineAmbientShadowColor, view`outlineSpotShadowColor,
             view`nextFocusDownId, view`nextFocusForwardId, view`nextFocusRightId, view`nextFocusUpId,
             view`focusable, view`focusableInTouchMode, view`alpha,
             view`paddingLeft, view`paddingTop, view`paddingRight, view`paddingBottom, view`foreground
    ensures view.Valid()
    ensures view.tags == old(view.tags) - RecycledTags
    ensures view.translationX == toPixelFromDIP(0.0) && view.translationY == toPixelFromDIP(0.0)
    ensures view.rotation == 0.0 && view.rotationX == 0.0 && view.rotationY == 0.0
    ensures view.scaleX == 1.0 && view.scaleY == 1.0 && view.cameraDistance == 0.0
    ensures view.pivotX == 0.0 && view.pivotY == 0.0
    ensures view.top == 0 && view.bottom == 0 && view.left == 0 && view.right == 0
    ensures view.elevation == 0.0 && view.animationMatrix.None?
    ensures view.outlineAmbientShadowColor == Black && view.outlineSpotShadowColor == Black
    ensures view.nextFocusDownId == NoId && view.nextFocusForwardId == NoId
    ensures view.nextFocusRightId == NoId && view.nextFocusUpId == NoId
    ensures !view.focusable && !view.focusableInTouchMode
    ensures view.alpha == 1.0
    ensures view.paddingLeft == 0 && view.paddingTop == 0 && view.paddingRight == 0 && view.paddingBottom == 0
    ensures view.foreground.None?
  {
    view.tags := view.tags - RecycledTags;

    ResetTransformProperty(view, toPixelFromDIP);
    ResetViewProperties(view);
  }

  /** The render-node, focus and appearance resets of recycling, in the source's order. */
  method ResetViewProperties(view: View)
    modifies view`pivotX, view`pivotY, view`top, view`bottom, view`left, view`right,
             view`elevation, view`animationMatrix,
             view`outlineAmbientShadowColor, view`outlineSpotShadowColor,
             view`nextFocusDownId, view`nextFocusForwardId, view`nextFocusRightId, view`nextFocusUpId,
             view`focusable, view`focusableInTouchMode, view`alpha,
             view`paddingLeft, view`paddingTop, view`paddingRight, view`paddingBottom, view`foreground
    ensures view.pivotX == 0.0 && view.pivotY == 0.0
    ensures view.top == 0 && view.bottom == 0 && view.left == 0 && view.right == 0
    ensures view.elevation == 0.0 && view.animationMatrix.None?
    ensures view.outlineAmbientShadowColor == Black && view.outlineSpotShadowColor == Black
    ensures view.nextFocusDownId == NoId && view.nextFocusForwardId == NoId
    ensures view.nextFocusRightId == NoId && view.nextFocusUpId == NoId
    ensures !view.focusable && !view.focusableInTouchMode
    ensures view.alpha == 1.0
    ensures view.paddingLeft == 0 && view.paddingTop == 0 && view.paddingRight == 0 && view.paddingBottom == 0
    ensures view.foreground.None?
  {
    ResetRenderNode(view);
    ResetFocus(view);
    ResetAppearance(view);
  }

  /** Render-node parameters the transform reset does not cover, and the shadow colours. */
  method ResetRenderNode(view: View)
    modifies view`pivotX, view`pivotY, view`top, view`bottom, view`left, view`right,
             view`elevation, view`animationMatrix, view`outlineAmbientShadowColor, view`outlineSpotShadowColor
    ensures view.pivotX == 0.0 && view.pivotY == 0.0
    ensures view.top == 0 && view.bottom == 0 && view.left == 0 && view.right == 0
    ensures view.elevation == 0.0 && view.animationMatrix.None?
    ensures view.outlineAmbientShadowColor == Black && view.outlineSpotShadowColor == Black
  {
    view.pivotX := 0.0;
    view.pivotY := 0.0;
    view.top := 0;
    view.bottom := 0;
    view.left := 0;
    view.right := 0;
    view.elevation := 0.0;
    view.animationMatrix := None;
    view.outlineAmbientShadowColor := Black;
    view.outlineSpotShadowColor := Black;
  }

  /** Four of the focus links, and both focusability flags. */
  method ResetFocus(view: View)
    modifies view`nextFocusDownId, view`nextFocusForwardId, view`nextFocusRightId, view`nextFocusUpId,
             view`focusable, view`focusableInTouchMode
    ensures view.nextFocusDownId == NoId && view.nextFocusForwardId == NoId
    ensures view.nextFocusRightId == NoId && view.nextFocusUpId == NoId
    ensures !view.focusable && !view.focusableInTouchMode
  {
    view.nextFocusDownId := NoId;
    view.nextFocusForwardId := NoId;
    view.nextFocusRightId := NoId;
    view.nextFocusUpId := NoId;
    view.focusable := false;
    view.focusableInTouchMode := false;
  }

  /** Opacity, padding and foreground. */
  method ResetAppearance(view: View)
    modifies view`alpha, view`paddingLeft, view`paddingTop, view`paddingRight, view`paddingBottom, view`foreground
    ensures view.alpha == 1.0
    ensures view.paddingLeft == 0 && view.paddingTop == 0 && view.paddingRight == 0 && view.paddingBottom == 0
    ensures view.foreground.None?
  {
    view.alpha := 1.0;
    view.paddingLeft, view.paddingTop, view.paddingRight, view.paddingBottom := 0, 0, 0, 0;
    view.foreground := None;
  }
}
