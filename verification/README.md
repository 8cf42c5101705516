# Accessibility and recycle logic of React Native's Android base view manager

This project models the part of `BaseViewManager` (React Native for Android)
that concerns a view's accessibility and its keyed tag store, together with the
reset it performs when a native view is recycled:

- **Content-description synthesis** (`updateViewContentDescription`). The
  description is read from four tags: the label, the accessibility state map,
  the accessibility value map and the hint. It is built in a fixed order:
  1. the label, if present (an empty label counts);
  2. one phrase per relevant state entry, in the map's key order;
  3. the value's `text`, when it is a string;
  4. the hint, if present.

  The parts are joined with `", "`. The native description is written only
  when at least one part exists; otherwise the old description stays.
- **Accessibility-state application** (`setViewState`). This sets `selected`
  and `enabled`. It announces "unselected" when a focused view's `selected`
  entry deselects it. It then scans the state keys in order. The scan stops at
  the first `busy`, `expanded` or string-valued `checked` key and recomputes
  the description once. For every key before that, a focused view is sent a
  click event.
- **Recycle reset** (`prepareToRecycleView` and the transform reset
  `setTransform(view, null)`). This clears twelve tags and restores a fixed
  list of render-node, focus and appearance fields. Nothing else changes.
- The small setters around them:
  - label, hint, value, labelled-by, role, actions, collection and collection
    item;
  - test id, native id and the pointer flags;
  - important-for-accessibility, live region and hardware texture.

Modules:

| module | file | contents |
|---|---|---|
| `Wrappers` | `wrappers.dfy` | `Option`, used for Java `null` |
| `Dynamic` | `dynamic.dfy` | the bridge's dynamic values. A `ReadableMap` is an association list in key-iteration order with distinct keys |
| `Text` | `text.dfy` | `TextUtils.join` and its laws |
| `ContentDescription` | `content_description.dfy` | synthesis as pure functions, plus the rule that decides when `setViewState` recomputes |
| `AccessibilityModes` | `accessibility_modes.dfy` | the string-to-constant mappings |
| `Views` | `views.dfy` | the tag keys, the typed tag store and the `View` class |
| `BaseViewManager` | `base_view_manager.dfy` | the manager's operations |
| `Scenarios` | `scenarios.dfy` | concrete prop sequences applied to a fresh view |

The manager keeps no per-view state, so each operation is a method that takes
the `View` and changes only fields named in its `modifies` clause.

Some conventions of the model:

- Storing `null` under a tag key is modelled as removing the key.
- Every setter keeps the tag store well typed (`View.Valid`). Each key holds
  only the kind of value the manager's casts expect: a string, a map, an
  array, a boolean or a role.
- Accessibility announcements and click events are appended to the view's
  `log`.

Behaviour worth knowing, all of it stated in the contracts below:

- Recycling clears only twelve tags; the collection tags and the six
  `pointer_*2` tags keep their values.
- "Unselected" is announced only when the state map has a `selected` entry;
  a state map without one deselects the view silently
  (`AbsentSelectedDeselectsSilently`).
- Any string-valued `checked` makes `setViewState` recompute the description,
  not only `"mixed"`; `busy: false` and a non-boolean `expanded` do too, yet
  contribute no phrase (`BusyFalseWithoutPhrase`, `CheckedStringWithoutPhrase`,
  `ExpandedNonBooleanWithoutPhrase`).
- A state map without a redescribing key does not recompute the description,
  so removing a relevant state key leaves its phrase in the description
  (`RemovedStateKeyLeavesStalePhrase`).
- Setting a null label or hint with nothing else to say leaves the old
  description in place (`ClearedLabelLeavesStaleDescription`).

## Model

| member | source | states |
|---|---|---|
| `Dynamic.GetAt` | ReactAndroid/src/main/java/com/facebook/react/uimanager/BaseViewManager.java:297-300 | in a map with distinct keys, `getType("checked")` looks at the very entry the key iterator is on |
| `Dynamic.Get` | ReactAndroid/src/main/java/com/facebook/react/uimanager/BaseViewManager.java:346-347 | `getDynamic(key)`: present exactly when `hasKey(key)`, and then the value is one stored under that key |
| `Text.JoinLength` | ReactAndroid/src/main/java/com/facebook/react/uimanager/BaseViewManager.java:355-357 | the joined description holds every part's characters plus one separator between consecutive parts |
| `Text.JoinAppend` | ReactAndroid/src/main/java/com/facebook/react/uimanager/BaseViewManager.java:355-357 | joining two non-empty part lists is the two joins with one separator between them |
| `Text.Join` | ReactAndroid/src/main/java/com/facebook/react/uimanager/BaseViewManager.java:356 | `TextUtils.join`: the joined string starts with the first part |
| `Text.JoinEndsWithLast` | ReactAndroid/src/main/java/com/facebook/react/uimanager/BaseViewManager.java:355-357 | the joined string ends with the last part |
| `ContentDescription.StatePhrase` | ReactAndroid/src/main/java/com/facebook/react/uimanager/BaseViewManager.java:328-343 | the mixed phrase exactly for `checked: "mixed"`, busy exactly for `busy: true`, expanded exactly for `expanded: true`, collapsed exactly for `expanded: false`; keys other than checked/busy/expanded yield none; an entry that yields a phrase makes `setViewState` recompute |
| `ContentDescription.BusyFalseWithoutPhrase` | ReactAndroid/src/main/java/com/facebook/react/uimanager/BaseViewManager.java:297-335 | `busy: false` makes `setViewState` recompute the description yet contributes no phrase |
| `ContentDescription.CheckedStringWithoutPhrase` | ReactAndroid/src/main/java/com/facebook/react/uimanager/BaseViewManager.java:299-331 | a `checked` string other than "mixed" makes `setViewState` recompute yet contributes no phrase |
| `ContentDescription.ExpandedNonBooleanWithoutPhrase` | ReactAndroid/src/main/java/com/facebook/react/uimanager/BaseViewManager.java:298-343 | an `expanded` entry that is not a boolean makes `setViewState` recompute yet contributes no phrase |
| `ContentDescription.StatePhrases` | ReactAndroid/src/main/java/com/facebook/react/uimanager/BaseViewManager.java:323-345 | a one-entry map contributes exactly that entry's phrase (none when it yields none); no more phrases than state entries, and every one is a state phrase |
| `ContentDescription.StatePhrasesFromEntries` | ReactAndroid/src/main/java/com/facebook/react/uimanager/BaseViewManager.java:323-345 | a phrase is among the state phrases exactly when some entry of the map yields it |
| `ContentDescription.StatePhrasesAppend` | ReactAndroid/src/main/java/com/facebook/react/uimanager/BaseViewManager.java:324-344 | phrases follow the map's key order: each part of the map contributes its own phrases, in place |
| `ContentDescription.NoPhraseWithoutRedescribing` | ReactAndroid/src/main/java/com/facebook/react/uimanager/BaseViewManager.java:297-343 | a map in which no key is busy, expanded or a string-valued checked contributes no phrase |
| `ContentDescription.FirstRedescribing` | ReactAndroid/src/main/java/com/facebook/react/uimanager/BaseViewManager.java:294-311 | the index the key scan stops at: a redescribing key with no redescribing key before it. When absent, no key is redescribing |
| `ContentDescription.ValueTextOf` | ReactAndroid/src/main/java/com/facebook/react/uimanager/BaseViewManager.java:346-351 | the value text is the `text` entry's string when that entry is string-typed, and absent otherwise |
| `ContentDescription.DescriptionParts` | ReactAndroid/src/main/java/com/facebook/react/uimanager/BaseViewManager.java:314-354 | a present label is the first part and a present hint the last. The list is empty exactly when label, hint and value text are absent and the state gives no phrase. At most three parts beyond the state entries |
| `ContentDescription.DescriptionPartsInOrder` | ReactAndroid/src/main/java/com/facebook/react/uimanager/BaseViewManager.java:320-354 | for every combination of inputs: after the label (if any) come all the state phrases in order, then the value text when it is a string, then the hint; the part count is the sum of the four contributions |
| `ContentDescription.Refreshed` | ReactAndroid/src/main/java/com/facebook/react/uimanager/BaseViewManager.java:355-357 | with no parts the previous description is kept, never cleared. Otherwise the description becomes `TextUtils.join(", ", parts)`, at least as long as all parts together |
| `ContentDescription.DescriptionFramedByLabelAndHint` | ReactAndroid/src/main/java/com/facebook/react/uimanager/BaseViewManager.java:320-356 | a present label is a prefix of the description and a present hint a suffix |
| `ContentDescription.DescriptionOrder` | ReactAndroid/src/main/java/com/facebook/react/uimanager/BaseViewManager.java:314-357 | for any value map whose text is a string and any state map, the description is exactly the label, the state phrases (omitted with their separator when there are none), the value text and the hint, joined by ", " |
| `ContentDescription.JoinLabelledParts` | ReactAndroid/src/main/java/com/facebook/react/uimanager/BaseViewManager.java:355-357 | `TextUtils.join` of label, phrases, value text and hint is those strings with ", " between neighbours; no phrases means no extra separator |
| `ContentDescription.EmptyLabelCounts` | ReactAndroid/src/main/java/com/facebook/react/uimanager/BaseViewManager.java:320-357 | an empty-string label is a part, so the description becomes "" rather than being left alone |
| `ContentDescription.NothingToSayKeepsStale` | ReactAndroid/src/main/java/com/facebook/react/uimanager/BaseViewManager.java:355-357 | a state map with no relevant key, with no label, value or hint, leaves any previous description in place |
| `ContentDescription.ExpandedExamples` | ReactAndroid/src/main/java/com/facebook/react/uimanager/BaseViewManager.java:336-342 | `{expanded: true}` alone gives "expanded". With the label "Menu" it gives "Menu, expanded" |
| `AccessibilityModes.ImportantForAccessibilityMode` | ReactAndroid/src/main/java/com/facebook/react/uimanager/BaseViewManager.java:386-395 | null maps to AUTO. Only "auto", "yes", "no" and "no-hide-descendants" change the setting, each to a valid constant. Every other string means no change |
| `AccessibilityModes.ImportantForAccessibilityRoundTrip` | ReactAndroid/src/main/java/com/facebook/react/uimanager/BaseViewManager.java:386-395 | each mode is selected by its own name and by no other string |
| `AccessibilityModes.LiveRegionMode` | ReactAndroid/src/main/java/com/facebook/react/uimanager/BaseViewManager.java:436-442 | null maps to NONE. Only "none", "polite" and "assertive" change the setting. Every other string means no change |
| `AccessibilityModes.LiveRegionRoundTrip` | ReactAndroid/src/main/java/com/facebook/react/uimanager/BaseViewManager.java:436-442 | each region is selected by its own name and by no other string |
| `AccessibilityModes.LayerType` | ReactAndroid/src/main/java/com/facebook/react/uimanager/BaseViewManager.java:194-196 | hardware layer exactly when the hardware texture is requested, none otherwise |
| `Views.WithTag` | ReactAndroid/src/main/java/com/facebook/react/uimanager/BaseViewManager.java:69-81 | `setTag(id, v)`: `id` is present exactly when `v` is non-null and then holds `v`. No other key changes. A well-typed store stays well typed |
| `Views.StrTagOf` | ReactAndroid/src/main/java/com/facebook/react/uimanager/BaseViewManager.java:315-317 | `(String) getTag(id)`: present exactly when the tag holds a string, and then that string |
| `Views.MapTagOf` | ReactAndroid/src/main/java/com/facebook/react/uimanager/BaseViewManager.java:316-319 | `(ReadableMap) getTag(id)`: present exactly when the tag holds a map, and then that map |
| `Views.CastsNeverHideStoredTags` | ReactAndroid/src/main/java/com/facebook/react/uimanager/BaseViewManager.java:315-319 | in a well-typed store the four reads never hide a stored value: each reads as null exactly when the tag is absent |
| `Views.DescriptionPartsOf` | ReactAndroid/src/main/java/com/facebook/react/uimanager/BaseViewManager.java:314-354 | the parts read from the tags: a stored label is the first part, a stored hint the last, and no parts means no label and no hint |
| `BaseViewManager.UnselectAnnouncement` | ReactAndroid/src/main/java/com/facebook/react/uimanager/BaseViewManager.java:272-283 | at most one "unselected" announcement; when `selected` is readable, there is one exactly when the view is focused, was selected, and the map holds `selected: false`, so a false→true transition announces nothing |
| `BaseViewManager.NextSelected` | ReactAndroid/src/main/java/com/facebook/react/uimanager/BaseViewManager.java:272-286 | the new `selected` flag is true exactly when the map holds `selected: true`; an absent key gives false |
| `BaseViewManager.AbsentSelectedDeselectsSilently` | ReactAndroid/src/main/java/com/facebook/react/uimanager/BaseViewManager.java:284-286 | without a `selected` entry the view becomes unselected and nothing is announced |
| `BaseViewManager.ScanClicks` | ReactAndroid/src/main/java/com/facebook/react/uimanager/BaseViewManager.java:294-311 | no clicks on an unfocused view; each click stands, in order, for a key that does not trigger recomputation, and on a focused view the clicks stop exactly at the first key that does |
| `BaseViewManager.NewStateWithoutTriggerHasNoPhrase` | ReactAndroid/src/main/java/com/facebook/react/uimanager/BaseViewManager.java:294-311 | when no key triggers recomputation, the new state map itself would contribute no phrase (phrases of an earlier state map may still be in the description) |
| `BaseViewManager.UpdateViewContentDescription` | ReactAndroid/src/main/java/com/facebook/react/uimanager/BaseViewManager.java:314-358 | on a well-typed tag store (where the casts at 315-319 cannot throw), the description becomes the synthesis over the current tags, or stays unchanged when there are no parts. Only the description changes |
| `BaseViewManager.SetAccessibilityLabel` | ReactAndroid/src/main/java/com/facebook/react/uimanager/BaseViewManager.java:229-234 | the label tag is set (removed for null), then the description is recomputed from the new tags |
| `BaseViewManager.SetAccessibilityHint` | ReactAndroid/src/main/java/com/facebook/react/uimanager/BaseViewManager.java:236-241 | the hint tag is set (removed for null), then the description is recomputed |
| `BaseViewManager.SetAccessibilityValue` | ReactAndroid/src/main/java/com/facebook/react/uimanager/BaseViewManager.java:370-380 | null changes nothing. Otherwise the value tag is stored, and the description is recomputed only when the value has a `text` key |
| `BaseViewManager.SetViewState` | ReactAndroid/src/main/java/com/facebook/react/uimanager/BaseViewManager.java:266-312 | null, or a non-boolean `selected` (which throws), changes nothing. Otherwise: `selected` takes its entry (false when absent); `enabled` becomes true; the state tag is stored; the log grows by the unselect announcement and then the scan's clicks; the description is recomputed once exactly when some key is redescribing |
| `BaseViewManager.ApplySelected` | ReactAndroid/src/main/java/com/facebook/react/uimanager/BaseViewManager.java:272-286 | the view takes the map's `selected` entry (false when absent), and the log grows by exactly the unselect announcement |
| `BaseViewManager.ScanStateKeys` | ReactAndroid/src/main/java/com/facebook/react/uimanager/BaseViewManager.java:294-311 | the key loop appends one click per key before the first redescribing key (when focused). It recomputes the description exactly when a redescribing key exists |
| `BaseViewManager.SetAccessibilityRole` | ReactAndroid/src/main/java/com/facebook/react/uimanager/BaseViewManager.java:243-250 | null changes nothing. Otherwise the role tag holds the role resolved from the string |
| `BaseViewManager.SetAccessibilityActions` | ReactAndroid/src/main/java/com/facebook/react/uimanager/BaseViewManager.java:360-368 | null changes nothing. Otherwise the actions tag holds the array |
| `BaseViewManager.SetAccessibilityCollection` | ReactAndroid/src/main/java/com/facebook/react/uimanager/BaseViewManager.java:252-257 | the collection tag is set, or removed for null |
| `BaseViewManager.SetAccessibilityCollectionItem` | ReactAndroid/src/main/java/com/facebook/react/uimanager/BaseViewManager.java:259-264 | the collection-item tag is set, or removed for null |
| `BaseViewManager.SetAccessibilityLabelledBy` | ReactAndroid/src/main/java/com/facebook/react/uimanager/BaseViewManager.java:214-227 | a null dynamic is ignored and a string is stored. An array stores its element 0 when that is a string, clears the tag when it is null, and fails (changing nothing) when the array is empty or the element is another type. Maps, numbers and booleans are ignored |
| `BaseViewManager.SetTestId` | ReactAndroid/src/main/java/com/facebook/react/uimanager/BaseViewManager.java:198-205 | the test-id tag and the view's plain tag both take the test id |
| `BaseViewManager.SetNativeId` | ReactAndroid/src/main/java/com/facebook/react/uimanager/BaseViewManager.java:207-212 | the native-id tag is set, or removed for null |
| `BaseViewManager.SetPointerFlag` | ReactAndroid/src/main/java/com/facebook/react/uimanager/BaseViewManager.java:633-677 | each pointer-event setter stores its boolean under its own key and nothing else |
| `BaseViewManager.SetImportantForAccessibility` | ReactAndroid/src/main/java/com/facebook/react/uimanager/BaseViewManager.java:382-396 | the setting becomes the mapped mode, or stays as it was for an unrecognised string |
| `BaseViewManager.SetAccessibilityLiveRegion` | ReactAndroid/src/main/java/com/facebook/react/uimanager/BaseViewManager.java:433-443 | the live region becomes the mapped region, or stays as it was for an unrecognised string |
| `BaseViewManager.SetRenderToHardwareTexture` | ReactAndroid/src/main/java/com/facebook/react/uimanager/BaseViewManager.java:192-196 | the layer type is hardware exactly when requested |
| `BaseViewManager.ResetTransformProperty` | ReactAndroid/src/main/java/com/facebook/react/uimanager/BaseViewManager.java:512-521 | translations are `toPixelFromDIP(0)`, rotations 0, scales 1, camera distance 0. Nothing else changes |
| `BaseViewManager.PrepareToRecycleView` | ReactAndroid/src/main/java/com/facebook/react/uimanager/BaseViewManager.java:67-139 | exactly the twelve listed tags are removed and all other tags keep their values. Transform reset as above. Pivots, bounds and elevation are 0; no animation matrix; both shadow colours BLACK; four focus links NO_ID; not focusable; alpha 1; padding 0; no foreground. No other field changes |
| `BaseViewManager.ResetViewProperties` | ReactAndroid/src/main/java/com/facebook/react/uimanager/BaseViewManager.java:94-136 | the render-node, focus and appearance defaults of recycling, as for the three resets below |
| `BaseViewManager.ResetRenderNode` | ReactAndroid/src/main/java/com/facebook/react/uimanager/BaseViewManager.java:94-106 | pivots, bounds and elevation 0, no animation matrix, both shadow colours BLACK |
| `BaseViewManager.ResetFocus` | ReactAndroid/src/main/java/com/facebook/react/uimanager/BaseViewManager.java:108-122 | down/forward/right/up focus links NO_ID, both focusability flags false |
| `BaseViewManager.ResetAppearance` | ReactAndroid/src/main/java/com/facebook/react/uimanager/BaseViewManager.java:127-136 | alpha 1, padding 0 on all sides, no foreground |
| `Scenarios.ClearedLabelLeavesStaleDescription` | ReactAndroid/src/main/java/com/facebook/react/uimanager/BaseViewManager.java:229-234 | setting the label "Menu" then a null label leaves the description "Menu" |
| `Scenarios.SelectThenDeselect` | ReactAndroid/src/main/java/com/facebook/react/uimanager/BaseViewManager.java:272-311 | on a focused view, `{selected: true}` then `{selected: false}` logs click, "unselected", click |
| `Scenarios.ScanStopsAtBusy` | ReactAndroid/src/main/java/com/facebook/react/uimanager/BaseViewManager.java:294-311 | `{disabled, busy: true, checked: true}` on a focused view logs one click (for `disabled`) and sets the description to "busy" |
| `Scenarios.BusyScanLog` | ReactAndroid/src/main/java/com/facebook/react/uimanager/BaseViewManager.java:294-311 | for `{disabled, busy: true, checked: true}` the scan stops at index 1 after one click, and nothing is announced |
| `Scenarios.BusyScanDescription` | ReactAndroid/src/main/java/com/facebook/react/uimanager/BaseViewManager.java:320-357 | the same map alone in the tags gives the description "busy" |
| `Scenarios.ExpandedMenu` | ReactAndroid/src/main/java/com/facebook/react/uimanager/BaseViewManager.java:294-311 | a fresh view labelled "Menu" given `{expanded: true}` is described "Menu, expanded" |
| `Scenarios.LabelledMenu` | ReactAndroid/src/main/java/com/facebook/react/uimanager/BaseViewManager.java:229-234 | a fresh view given the label "Menu" holds only that tag |
| `Scenarios.ExpandedMenuDescription` | ReactAndroid/src/main/java/com/facebook/react/uimanager/BaseViewManager.java:294-357 | `{expanded: true}` redescribes at index 0 without clicks or announcement, and with the label "Menu" gives "Menu, expanded" |
| `Scenarios.RemovedStateKeyLeavesStalePhrase` | ReactAndroid/src/main/java/com/facebook/react/uimanager/BaseViewManager.java:294-311 | replacing `{expanded: true}` by `{}` keeps the description "Menu, expanded" although the tags now give only the part "Menu" |

## Left out

- The non-null branch of `setTransform` (`setTransformProperty`) and `sanitizeFloatPropertyValue` are left out. They are IEEE float arithmetic (NaN, ±∞, `Float.MAX_VALUE`, `sqrt(5)`, density squared) over the external matrix composer and decomposer and static scratch buffers. Only the null branch, the reset, is modelled.
- `setZIndex`, `setElevation`, `setTranslateX`/`setTranslateY`, `setOpacity`, `setRotation`, `setScaleX`/`setScaleY`, `setBackgroundColor` and `setShadowColor` are left out. They are one-call pass-throughs to the toolkit, float rounding, or the unseen `PixelUtil`/`ViewGroupManager`.
- The exported event-type constant tables, the border-radius warning setters (logging only) and the no-op responder/touch setters are left out.
- `onAfterUpdateTransaction` and `updateViewAccessibility` are left out. They hand the view to `ReactAccessibilityDelegate`, which is not part of this model.
- `ResetTransformProperty`: `PixelUtil.toPixelFromDIP` is not part of this model. It is a parameter, and the translations are stated as its value at 0, not as 0.
- `SetAccessibilityRole`: `AccessibilityRole.fromValue` is not part of this model. The tag records the prop string the role was resolved from, and the exception `fromValue` may throw for an unknown name is not modelled.
- `SetNativeId`: the call to `ReactFindViewUtil.notifyViewRendered` is left out. It notifies listeners outside the view.
- `SetAccessibilityLabelledBy`: a null `Dynamic` reference, which throws at `nativeId.isNull()`, is not modelled; the parameter is always a value, and the null dynamic is `Dyn.Null`.
- `SetAccessibilityLabelledBy`: `ReadableArray.getString` is not part of this model. The model takes it to return a string element, return null for a null element (which clears the tag), and throw otherwise.
- `SetViewState`: `ReadableMap.getBoolean` is not part of this model. The model takes it to throw for a `selected` entry that is not a boolean, so the view is left untouched and `ok` is false.
- `ResetAppearance`: `ViewManager.setPadding` is not part of this model. The model records the call `setPadding(view, 0, 0, 0, 0)` as setting all four paddings to 0; for most view types that hook does nothing.
- `PrepareToRecycleView`: the source calls `setElevation(0)` twice. The model sets it once, which gives the same final state.
- Localised strings (`getContext().getString`) are fixed to their default English resource values: "mixed", "busy", "expanded", "collapsed" and "unselected".
- Accessibility focus is an input field of the view. No operation here changes it, and the accessibility service that sets it is not modelled.
- Announcements and accessibility events are recorded in an append-only log. Their delivery to the accessibility service is not modelled.
