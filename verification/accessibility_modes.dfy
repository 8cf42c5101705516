/**
 * The string-to-constant mappings of `setImportantForAccessibility` and
 * `setAccessibilityLiveRegion`, and the layer types of
 * `setRenderToHardwareTexture`. A result of None means "leave the setting as it is".
 */
module AccessibilityModes {
  import opened Wrappers

  // ViewCompat.IMPORTANT_FOR_ACCESSIBILITY_*
  const ImportantAuto := 0
  const ImportantYes := 1
  const ImportantNo := 2
  const ImportantNoHideDescendants := 4

  // ViewCompat.ACCESSIBILITY_LIVE_REGION_*
  const LiveRegionNone := 0
  const LiveRegionPolite := 1
  const LiveRegionAssertive := 2

  // View.LAYER_TYPE_*
  const LayerTypeNone := 0
  const LayerTypeHardware := 2

  predicate IsImportantMode(mode: int)
  {
    mode == ImportantAuto || mode == ImportantYes || mode == ImportantNo || mode == ImportantNoHideDescendants
  }

  predicate IsLiveRegion(mode: int)
  {
    mode == LiveRegionNone || mode == LiveRegionPolite || mode == LiveRegionAssertive
  }

  /** The mode `setImportantForAccessibility` applies for a (possibly null) prop value. */
  function ImportantForAccessibilityMode(value: Option<string>): (r: Option<int>)
    ensures r.Some? ==> IsImportantMode(r.value)
    ensures value.None? ==> r == Some(ImportantAuto)
    ensures r.None? <==> value.Some? && value.value !in {"auto", "yes", "no", "no-hide-descendants"}
  {
    if value.None? || value.value == "auto" then Some(ImportantAuto)
    else if value.value == "yes" then Some(ImportantYes)
    else if value.value == "no" then Some(ImportantNo)
    else if value.value == "no-hide-descendants" then Some(ImportantNoHideDescendants)
    else None
  }

  /** The prop string that selects a mode. */
  function ImportantForAccessibilityName(mode: int): string
    requires IsImportantMode(mode)
  {
    if mode == ImportantAuto then "auto"
    else if mode == ImportantYes then "yes"
    else if mode == ImportantNo then "no"
    else "no-hide-descendants"
  }

  /** Every mode is reached by its own name, and different recognised names select different modes. */
  lemma ImportantForAccessibilityRoundTrip(mode: int, s: string)
    requires IsImportantMode(mode)
    ensures ImportantForAccessibilityMode(Some(ImportantForAccessibilityName(mode))) == Some(mode)
    ensures ImportantForAccessibilityMode(Some(s)) == Some(mode) ==> s == ImportantForAccessibilityName(mode)
  {
  }

  /** The region `setAccessibilityLiveRegion` applies for a (possibly null) prop value. */
  function LiveRegionMode(value: Option<string>): (r: Option<int>)
    ensures r.Some? ==> IsLiveRegion(r.value)
    ensures value.None? ==> r == Some(LiveRegionNone)
    ensures r.None? <==> value.Some? && value.value !in {"none", "polite", "assertive"}
  {
    if value.None? || value.value == "none" then Some(LiveRegionNone)
    else if value.value == "polite" then Some(LiveRegionPolite)
    else if value.value == "assertive" then Some(LiveRegionAssertive)
    else None
  }

  function LiveRegionName(mode: int): string
    requires IsLiveRegion(mode)
  {
    if mode == LiveRegionNone then "none"
    else if mode == LiveRegionPolite then "polite"
    else "assertive"
  }

  /** Every region is reached by its own name, and by no other string. */
  lemma LiveRegionRoundTrip(mode: int, s: string)
    requires IsLiveRegion(mode)
    ensures LiveRegionMode(Some(LiveRegionName(mode))) == Some(mode)
    ensures LiveRegionMode(Some(s)) == Some(mode) ==> s == LiveRegionName(mode)
  {
  }

  /** The layer type `setRenderToHardwareTexture` applies. */
  function LayerType(useHardwareTexture: bool): (r: int)
    ensures r == LayerTypeHardware <==> useHardwareTexture
    ensures r == LayerTypeNone <==> !useHardwareTexture
  {
    if useHardwareTexture then LayerTypeHardware else LayerTypeNone
  }
}
