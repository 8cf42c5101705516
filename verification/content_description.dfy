/**
 * Accessibility content-description synthesis (`updateViewContentDescription`)
 * as a pure function of the label, state map, value map and hint read from the
 * view's tag store, plus the rule `setViewState` uses to decide whether the
 * description has to be recomputed.
 */
module ContentDescription {
  import opened Wrappers
  import opened Dynamic
  import opened Text

  // Keys of the accessibility state map that have no native counterpart.
  const StateChecked := "checked"
  const StateBusy := "busy"
  const StateExpanded := "expanded"
  const StateMixed := "mixed"
  const StateSelected := "selected"
  // Key of the accessibility value map that carries its spoken text.
  const ValueText := "text"

  // Localised phrases, fixed to their default (English) resource values.
  const MixedDescription := "mixed"
  const BusyDescription := "busy"
  const ExpandedDescription := "expanded"
  const CollapsedDescription := "collapsed"
  const UnselectedDescription := "unselected"

  const Separator := ", "

  predicate IsStatePhrase(p: string)
  {
    p == MixedDescription || p == BusyDescription || p == ExpandedDescription || p == CollapsedDescription
  }

  /**
   * Whether a state entry makes `setViewState` recompute the description:
   * `busy` and `expanded` whatever their value, `checked` only when it is a string.
   */
  predicate Redescribes(key: string, value: Dyn)
  {
    key == StateBusy || key == StateExpanded || (key == StateChecked && TypeOf(value) == StringType)
  }

  /** The phrase one state entry contributes to the description, if any. */
  function StatePhrase(key: string, value: Dyn): (r: Option<string>)
    ensures r == Some(MixedDescription) <==> key == StateChecked && value == Str(StateMixed)
    ensures r == Some(BusyDescription) <==> key == StateBusy && value == Bool(true)
    ensures r == Some(ExpandedDescription) <==> key == StateExpanded && value == Bool(true)
    ensures r == Some(CollapsedDescription) <==> key == StateExpanded && value == Bool(false)
    ensures r.Some? ==> IsStatePhrase(r.value)
    ensures r.Some? ==> Redescribes(key, value)
    ensures key == StateExpanded && value.Bool? ==> r.Some?
    ensures key != StateChecked && key != StateBusy && key != StateExpanded ==> r.None?
  {
    if key == StateChecked && TypeOf(value) == StringType && value.s == StateMixed then
      Some(MixedDescription)
    else if key == StateBusy && TypeOf(value) == BooleanType && value.b then
      Some(BusyDescription)
    else if key == StateExpanded && TypeOf(value) == BooleanType then
      Some(if value.b then ExpandedDescription else CollapsedDescription)
    else
      None
  }

  /** `busy: false` makes `setViewState` recompute the description yet contributes no phrase. */
  lemma BusyFalseWithoutPhrase()
    ensures Redescribes(StateBusy, Bool(false)) && StatePhrase(StateBusy, Bool(false)).None?
  {
  }

  /** A `checked` string other than "mixed" makes `setViewState` recompute yet contributes no phrase. */
  lemma CheckedStringWithoutPhrase(s: string)
    requires s != StateMixed
    ensures Redescribes(StateChecked, Str(s)) && StatePhrase(StateChecked, Str(s)).None?
  {
  }

  /** An `expanded` that is not a boolean makes `setViewState` recompute yet contributes no phrase. */
  lemma ExpandedNonBooleanWithoutPhrase(value: Dyn)
    requires !value.Bool?
    ensures Redescribes(StateExpanded, value) && StatePhrase(StateExpanded, value).None?
  {
  }

  function OptionToSeq<T>(o: Option<T>): seq<T>
  {
    if o.Some? then [o.value] else []
  }

  /** The state phrases in the state map's key-iteration order. */
  function StatePhrases(m: seq<(string, Dyn)>): (r: seq<string>)
    ensures |r| <= |m|
    ensures forall k :: 0 <= k < |r| ==> IsStatePhrase(r[k])
    ensures |m| == 1 ==> r == OptionToSeq(StatePhrase(m[0].0, m[0].1))
  {
    if |m| == 0 then []
    else OptionToSeq(StatePhrase(m[0].0, m[0].1)) + StatePhrases(m[1..])
  }

  /** Phrases of consecutive parts of a state map concatenate: each entry contributes on its own. */
  lemma {:induction false} StatePhrasesAppend(a: seq<(string, Dyn)>, b: seq<(string, Dyn)>)
    ensures StatePhrases(a + b) == StatePhrases(a) + StatePhrases(b)
  {
    if |a| > 0 {
      assert (a + b)[1..] == a[1..] + b;
      StatePhrasesAppend(a[1..], b);
    } else {
      assert a + b == b;
    }
  }

  /** A phrase is in the description's state part exactly when some entry yields it. */
  lemma {:induction false} StatePhrasesFromEntries(m: seq<(string, Dyn)>, p: string)
    ensures p in StatePhrases(m) <==> exists j :: 0 <= j < |m| && StatePhrase(m[j].0, m[j].1) == Some(p)
  {
    if |m| > 0 {
      StatePhrasesFromEntries(m[1..], p);
      if exists j :: 0 <= j < |m| && StatePhrase(m[j].0, m[j].1) == Some(p) {
        var j :| 0 <= j < |m| && StatePhrase(m[j].0, m[j].1) == Some(p);
        if j > 0 {
          assert m[1..][j - 1] == m[j];
        }
      }
      if p in StatePhrases(m[1..]) {
        var j :| 0 <= j < |m[1..]| && StatePhrase(m[1..][j].0, m[1..][j].1) == Some(p);
        assert m[j + 1] == m[1..][j];
      }
    }
  }

  /** A state map none of whose entries would trigger a recomputation contributes no phrase. */
  lemma {:induction false} NoPhraseWithoutRedescribing(m: seq<(string, Dyn)>)
    requires forall j :: 0 <= j < |m| ==> !Redescribes(m[j].0, m[j].1)
    ensures StatePhrases(m) == []
  {
    if |m| > 0 {
      assert !Redescribes(m[0].0, m[0].1);
      NoPhraseWithoutRedescribing(m[1..]);
    }
  }

  /** Index of the first entry that makes `setViewState` recompute the description. */
  function FirstRedescribing(m: seq<(string, Dyn)>): (r: Option<nat>)
    ensures r.Some? ==> r.value < |m| && Redescribes(m[r.value].0, m[r.value].1)
    ensures forall j :: 0 <= j < |m| && (r.None? || j < r.value) ==> !Redescribes(m[j].0, m[j].1)
  {
    if |m| == 0 then None
    else if Redescribes(m[0].0, m[0].1) then Some(0)
    else
      match FirstRedescribing(m[1..])
      case None => None
      case Some(k) => Some(k + 1)
  }

  /** The text of an accessibility value: present only when the `text` entry holds a string. */
  function ValueTextOf(value: Option<ReadableMap>): (r: Option<string>)
    ensures r.Some? ==> value.Some? && (ValueText, Str(r.value)) in value.value
    ensures value.Some? ==>
      forall i :: 0 <= i < |value.value| && value.value[i].0 == ValueText && value.value[i].1.Str? ==>
        r == Some(value.value[i].1.s)
  {
    if value.Some? && HasKey(value.value, ValueText) then
      var text := Get(value.value, ValueText).value;
      assert forall i :: 0 <= i < |value.value| && value.value[i].0 == ValueText ==> text == value.value[i].1 by {
        forall i | 0 <= i < |value.value| && value.value[i].0 == ValueText {
          GetAt(value.value, i);
        }
      }
      if TypeOf(text) == StringType then Some(text.s) else None
    else
      None
  }

  /**
   * The ordered list of description parts: the label, the state phrases, the
   * value text and the hint, each only when present.
   */
  function DescriptionParts(labelText: Option<string>, state: Option<ReadableMap>,
                            value: Option<ReadableMap>, hint: Option<string>): (parts: seq<string>)
    ensures labelText.Some? ==> |parts| > 0 && parts[0] == labelText.value
    ensures hint.Some? ==> |parts| > 0 && parts[|parts| - 1] == hint.value
    ensures parts == [] <==>
      labelText.None? && hint.None? && ValueTextOf(value).None? && (state.None? || StatePhrases(state.value) == [])
    ensures |parts| <= 3 + (if state.Some? then |state.value| else 0)
  {
    OptionToSeq(labelText)
      + (if state.Some? then StatePhrases(state.value) else [])
      + OptionToSeq(ValueTextOf(value))
      + OptionToSeq(hint)
  }

  /**
   * Where each kind of part sits: after the label (if any) come all the state
   * phrases, then the value text, then the hint.
   */
  lemma DescriptionPartsInOrder(labelText: Option<string>, state: Option<ReadableMap>,
                                value: Option<ReadableMap>, hint: Option<string>)
    ensures var parts := DescriptionParts(labelText, state, value, hint);
            var off, phrases := |OptionToSeq(labelText)|, if state.Some? then StatePhrases(state.value) else [];
            && |parts| == off + |phrases| + |OptionToSeq(ValueTextOf(value))| + |OptionToSeq(hint)|
            && parts[off..off + |phrases|] == phrases
            && (ValueTextOf(value).Some? ==> parts[off + |phrases|] == ValueTextOf(value).value)
  {
    var front := OptionToSeq(labelText) + (if state.Some? then StatePhrases(state.value) else []);
    assert DescriptionParts(labelText, state, value, hint)
      == front + (OptionToSeq(ValueTextOf(value)) + OptionToSeq(hint));
  }

  /**
   * The description written after a synthesis: the joined parts, or the
   * previous description when there is nothing to say (it is never cleared).
   */
  function Refreshed(current: Option<string>, parts: seq<string>): (r: Option<string>)
    ensures parts == [] ==> r == current
    ensures parts != [] ==> r == Some(Join(parts, Separator)) && |r.value| >= TotalLength(parts)
  {
    if |parts| > 0 then
      JoinLength(parts, Separator);
      Some(Join(parts, Separator))
    else
      current
  }

  /** A present label opens the description and a present hint closes it. */
  lemma DescriptionFramedByLabelAndHint(current: Option<string>, labelText: Option<string>, state: Option<ReadableMap>,
                                        value: Option<ReadableMap>, hint: Option<string>)
    ensures var d := Refreshed(current, DescriptionParts(labelText, state, value, hint));
            (labelText.Some? ==> d.Some? && labelText.value <= d.value)
            && (hint.Some? ==> d.Some? && |hint.value| <= |d.value| && d.value[|d.value| - |hint.value|..] == hint.value)
  {
    var parts := DescriptionParts(labelText, state, value, hint);
    if |parts| > 0 {
      JoinEndsWithLast(parts, Separator);
    }
  }

  /**
   * The description is the label, then the state phrases (when there are any),
   * then the value text, then the hint, separated by ", ".
   */
  lemma {:induction false} DescriptionOrder(labelText: string, state: ReadableMap, value: ReadableMap,
                                            text: string, hint: string)
    requires ValueTextOf(Some(value)) == Some(text)
    ensures Refreshed(None, DescriptionParts(Some(labelText), Some(state), Some(value), Some(hint)))
              == Some(if StatePhrases(state) == []
                      then labelText + Separator + text + Separator + hint
                      else labelText + Separator + Join(StatePhrases(state), Separator) + Separator + text + Separator + hint)
  {
    var phrases := StatePhrases(state);
    var parts := DescriptionParts(Some(labelText), Some(state), Some(value), Some(hint));
    assert parts == [labelText] + (phrases + ([text] + [hint]));
    JoinLabelledParts(labelText, phrases, text, hint);
  }

  /** Joining the label, the phrases, the value text and the hint, with or without phrases. */
  lemma JoinLabelledParts(labelText: string, phrases: seq<string>, text: string, hint: string)
    ensures Join([labelText] + (phrases + ([text] + [hint])), Separator)
              == if phrases == []
                 then labelText + Separator + text + Separator + hint
                 else labelText + Separator + Join(phrases, Separator) + Separator + text + Separator + hint
  {
    var parts := [labelText] + (phrases + ([text] + [hint]));
    JoinAppend([text], [hint], Separator);
    assert Join([text] + [hint], Separator) == text + Separator + hint;
    if phrases == [] {
      assert parts == [labelText] + ([text] + [hint]);
      JoinAppend([labelText], [text] + [hint], Separator);
      var front := labelText + Separator;
      assert Join(parts, Separator) == front + ((text + Separator) + hint);
      assert front + ((text + Separator) + hint) == (front + (text + Separator)) + hint;
      assert front + (text + Separator) == (front + text) + Separator;
    } else {
      JoinAppend(phrases, [text] + [hint], Separator);
      JoinAppend([labelText], phrases + ([text] + [hint]), Separator);
      var front, tail := labelText + Separator + Join(phrases, Separator) + Separator, text + Separator + hint;
      assert Join(parts, Separator) == labelText + Separator + (Join(phrases, Separator) + Separator + tail);
      assert Join(parts, Separator) == front + tail;
      assert front + ((text + Separator) + hint) == (front + (text + Separator)) + hint;
      assert front + (text + Separator) == (front + text) + Separator;
    }
  }

  /** An empty-string label still counts: with nothing else set, the description becomes "". */
  lemma EmptyLabelCounts(current: Option<string>)
    ensures Refreshed(current, DescriptionParts(Some(""), None, None, None)) == Some("")
  {
  }

  /** With nothing to say, the previous description survives, whatever it was. */
  lemma NothingToSayKeepsStale(current: Option<string>, state: ReadableMap)
    requires forall j :: 0 <= j < |state| ==> !Redescribes(state[j].0, state[j].1)
    ensures Refreshed(current, DescriptionParts(None, Some(state), None, None)) == current
  {
    NoPhraseWithoutRedescribing(state);
  }

  /** `{expanded: true}` alone gives the expanded phrase; with the label "Menu" in front, "Menu, expanded". */
  lemma ExpandedExamples()
    ensures var state: ReadableMap := [(StateExpanded, Bool(true))];
            Refreshed(None, DescriptionParts(None, Some(state), None, None)) == Some(ExpandedDescription)
            && Refreshed(None, DescriptionParts(Some("Menu"), Some(state), None, None)) == Some("Menu, expanded")
  {
    var state: ReadableMap := [(StateExpanded, Bool(true))];
    assert StatePhrases(state) == [ExpandedDescription];
    assert DescriptionParts(Some("Menu"), Some(state), None, None) == ["Menu", ExpandedDescription];
    assert ["Menu", ExpandedDescription][1..] == [ExpandedDescription];
    assert Join(["Menu", ExpandedDescription], Separator) == "Menu" + Separator + ExpandedDescription;
    assert "Menu" + Separator + ExpandedDescription == "Menu, expanded";
  }
}
