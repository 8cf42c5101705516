/**
 * The native view a view manager binds to: the fields the manager writes,
 * its keyed tag store, and a log of the accessibility announcements and
 * events it has emitted.
 */
module Views {
  import opened Wrappers
  import opened Dynamic
  import opened ContentDescription

  /** The `R.id` keys under which the manager keeps state in the view's tag store. */
  datatype TagId =
    | PointerEnter | PointerLeave | PointerMove
    | PointerEnter2 | PointerEnter2Capture | PointerLeave2 | PointerLeave2Capture
    | PointerMove2 | PointerMove2Capture
    | ReactTestId | ViewTagNativeId | LabelledBy
    | AccessibilityLabel | AccessibilityHint | AccessibilityRole | AccessibilityState
    | AccessibilityActions | AccessibilityValue
    | AccessibilityCollection | AccessibilityCollectionItem

  /** An accessibility role, recorded by the prop string it was resolved from. */
  datatype Role = Role(name: string)

  /** A value in the tag store. Storing null under a key is modelled as removing the key. */
  datatype Tag =
    | StrTag(s: string)
    | MapTag(m: ReadableMap)
    | ArrayTag(a: seq<Dyn>)
    | BoolTag(b: bool)
    | RoleTag(role: Role)

  /** What the view emits to the accessibility service. */
  datatype Effect =
    | Announcement(text: string)  // announceForAccessibility
    | ViewClicked                 // sendAccessibilityEvent(TYPE_VIEW_CLICKED)

  /** An opaque drawable (the view's foreground). */
  datatype Drawable = Drawable(id: nat)

  const NoId := -1              // View.NO_ID
  const Black := -16777216      // Color.BLACK, 0xFF000000 as a signed 32-bit int

  /** The tags the recycle reset clears. */
  const RecycledTags: set<TagId> := {
    PointerEnter, PointerLeave, PointerMove, ReactTestId, ViewTagNativeId, LabelledBy,
    AccessibilityLabel, AccessibilityHint, AccessibilityRole, AccessibilityState,
    AccessibilityActions, AccessibilityValue
  }

  /** Which kind of value each key holds, as the manager's casts on reading expect. */
  predicate TagFits(id: TagId, t: Tag)
  {
    match id
    case ReactTestId | ViewTagNativeId | LabelledBy | AccessibilityLabel | AccessibilityHint => t.StrTag?
    case AccessibilityState | AccessibilityValue | AccessibilityCollection | AccessibilityCollectionItem => t.MapTag?
    case AccessibilityActions => t.ArrayTag?
    case AccessibilityRole => t.RoleTag?
    case _ => t.BoolTag?
  }

  predicate TagsWellTyped(tags: map<TagId, Tag>)
  {
    forall id :: id in tags ==> TagFits(id, tags[id])
  }

  /** `setTag(id, value)`: a null value removes the key; no other key changes. */
  function WithTag(tags: map<TagId, Tag>, id: TagId, value: Option<Tag>): (r: map<TagId, Tag>)
    ensures id in r <==> value.Some?
    ensures value.Some? ==> r[id] == value.value
    ensures forall k :: k != id ==> (k in r <==> k in tags) && (k in r ==> r[k] == tags[k])
    ensures TagsWellTyped(tags) && (value.Some? ==> TagFits(id, value.value)) ==> TagsWellTyped(r)
  {
    if value.Some? then tags[id := value.value] else tags - {id}
  }

  /** `(String) getTag(id)`. */
  function StrTagOf(tags: map<TagId, Tag>, id: TagId): (r: Option<string>)
    ensures r.Some? <==> id in tags && tags[id].StrTag?
    ensures r.Some? ==> tags[id] == StrTag(r.value)
  {
    if id in tags && tags[id].StrTag? then Some(tags[id].s) else None
  }

  /** `(ReadableMap) getTag(id)`. */
  function MapTagOf(tags: map<TagId, Tag>, id: TagId): (r: Option<ReadableMap>)
    ensures r.Some? <==> id in tags && tags[id].MapTag?
    ensures r.Some? ==> tags[id] == MapTag(r.value)
  {
    if id in tags && tags[id].MapTag? then Some(tags[id].m) else None
  }

  /**
   * In a well-typed store the casts on reading never fail and never hide a
   * stored value: each of the four tags reads as null exactly when it is absent.
   */
  lemma CastsNeverHideStoredTags(tags: map<TagId, Tag>)
    requires TagsWellTyped(tags)
    ensures StrTagOf(tags, AccessibilityLabel).None? <==> AccessibilityLabel !in tags
    ensures StrTagOf(tags, AccessibilityHint).None? <==> AccessibilityHint !in tags
    ensures MapTagOf(tags, AccessibilityState).None? <==> AccessibilityState !in tags
    ensures MapTagOf(tags, AccessibilityValue).None? <==> AccessibilityValue !in tags
  {
    if AccessibilityLabel in tags { assert TagFits(AccessibilityLabel, tags[AccessibilityLabel]); }
    if AccessibilityHint in tags { assert TagFits(AccessibilityHint, tags[AccessibilityHint]); }
    if AccessibilityState in tags { assert TagFits(AccessibilityState, tags[AccessibilityState]); }
    if AccessibilityValue in tags { assert TagFits(AccessibilityValue, tags[AccessibilityValue]); }
  }

  /** The description parts read from the tag store. */
  function DescriptionPartsOf(tags: map<TagId, Tag>): (parts: seq<string>)
    ensures AccessibilityLabel in tags && tags[AccessibilityLabel].StrTag? ==>
      |parts| > 0 && parts[0] == tags[AccessibilityLabel].s
    ensures AccessibilityHint in tags && tags[AccessibilityHint].StrTag? ==>
      |parts| > 0 && parts[|parts| - 1] == tags[AccessibilityHint].s
    ensures parts == [] ==> StrTagOf(tags, AccessibilityLabel).None? && StrTagOf(tags, AccessibilityHint).None?
  {
    DescriptionParts(StrTagOf(tags, AccessibilityLabel), MapTagOf(tags, AccessibilityState),
                     MapTagOf(tags, AccessibilityValue), StrTagOf(tags, AccessibilityHint))
  }

  class View {
    // Keyed tag store, and the plain tag set by View.setTag(Object).
    var tags: map<TagId, Tag>
    var viewTag: Option<string>

    // Accessibility.
    var contentDescription: Option<string>
    var selected: bool
    var enabled: bool
    var accessibilityFocused: bool
    var importantForAccessibility: int
    var accessibilityLiveRegion: int
    var log: seq<Effect>

    // Motion properties written by the transform reset.
    var translationX: real
    var translationY: real
    var rotation: real
    var rotationX: real
    var rotationY: real
    var scaleX: real
    var scaleY: real
    var cameraDistance: real

    // Other render-node parameters.
    var pivotX: real
    var pivotY: real
    var top: int
    var bottom: int
    var left: int
    var right: int
    var elevation: real
    var animationMatrix: Option<seq<real>>
    var outlineAmbientShadowColor: int
    var outlineSpotShadowColor: int
    var layerType: int

    // Focus.
    var nextFocusDownId: int
    var nextFocusForwardId: int
    var nextFocusRightId: int
    var nextFocusUpId: int
    var nextFocusLeftId: int
    var focusable: bool
    var focusableInTouchMode: bool

    var alpha: real
    var paddingLeft: int
    var paddingTop: int
    var paddingRight: int
    var paddingBottom: int
    var foreground: Option<Drawable>

    ghost predicate Valid()
      reads this
    {
      TagsWellTyped(tags)
    }

    /** A view with an empty tag store, as a view factory hands it over. */
    constructor (focused: bool)
      ensures Valid() && tags == map[] && contentDescription == None && log == []
      ensures !selected && enabled && accessibilityFocused == focused
    {
      tags := map[];
      contentDescription := None;
      log := [];
      selected := false;
      enabled := true;
      accessibilityFocused := focused;
    }
  }
}
