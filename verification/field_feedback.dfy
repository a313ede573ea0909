/**
  How a form field or a list item is outlined according to the feedback:
  neutral, as an error, or as a suggestion. Fields are matched by substring,
  list items by equality; errors take priority over suggestions.
 */
module FieldFeedback {
  import opened JsString
  import opened Types

  /** The three outlines; the literal CSS class strings are not modelled. */
  datatype FieldClass = Neutral | ErrorClass | SuggestionClass

  /** Some item has a non-empty target that occurs in `value`. */
  ghost predicate SomeTargetIn(items: seq<FeedbackItem>, value: Text) {
    exists i :: 0 <= i < |items| && |items[i].targetText| > 0 && Includes(value, items[i].targetText)
  }

  /** `items.some(e => e.targetText && value.includes(e.targetText))`. */
  function AnyTargetIn(items: seq<FeedbackItem>, value: Text): (b: bool)
    ensures b <==> SomeTargetIn(items, value)
  {
    if |items| == 0 then false
    else
      var rest := AnyTargetIn(items[1..], value);
      assert forall i :: 1 <= i < |items| ==> items[1..][i - 1] == items[i];
      (|items[0].targetText| > 0 && Includes(value, items[0].targetText)) || rest
  }

  /** `getFeedbackClass` of the administrative, history and examination
      editors. A blank value is always neutral. */
  function ClassByInclusion(value: Text, feedback: Option<TeacherFeedback>): (c: FieldClass)
    ensures c == ErrorClass <==>
      feedback.Some? && !Blank(value) && SomeTargetIn(feedback.value.errors, value)
    ensures c == SuggestionClass <==>
      && feedback.Some? && !Blank(value)
      && !SomeTargetIn(feedback.value.errors, value)
      && SomeTargetIn(feedback.value.suggestions, value)
  {
    if feedback.None? || |value| == 0 || Blank(value) then Neutral
    else if AnyTargetIn(feedback.value.errors, value) then ErrorClass
    else if AnyTargetIn(feedback.value.suggestions, value) then SuggestionClass
    else Neutral
  }

  /** Some item's target is exactly `item`. */
  ghost predicate SomeTargetIs(items: seq<FeedbackItem>, item: Text) {
    exists i :: 0 <= i < |items| && items[i].targetText == item
  }

  /** `items.some(e => e.targetText === item)`. */
  function AnyTargetIs(items: seq<FeedbackItem>, item: Text): (b: bool)
    ensures b <==> SomeTargetIs(items, item)
  {
    if |items| == 0 then false
    else
      var rest := AnyTargetIs(items[1..], item);
      assert forall i :: 1 <= i < |items| ==> items[1..][i - 1] == items[i];
      items[0].targetText == item || rest
  }

  /** `getFeedbackClassForItem` of the problem list and the investigation
      lists. Only the empty item is excluded; a blank item is matched like
      any other. */
  function ClassByEquality(item: Text, feedback: Option<TeacherFeedback>): (c: FieldClass)
    ensures c == ErrorClass <==>
      feedback.Some? && |item| > 0 && SomeTargetIs(feedback.value.errors, item)
    ensures c == SuggestionClass <==>
      && feedback.Some? && |item| > 0
      && !SomeTargetIs(feedback.value.errors, item)
      && SomeTargetIs(feedback.value.suggestions, item)
  {
    if feedback.None? || |item| == 0 then Neutral
    else if AnyTargetIs(feedback.value.errors, item) then ErrorClass
    else if AnyTargetIs(feedback.value.suggestions, item) then SuggestionClass
    else Neutral
  }

  /** The items whose target is not empty. */
  function WithTargets(items: seq<FeedbackItem>): (r: seq<FeedbackItem>)
    ensures forall x :: x in r <==> x in items && |x.targetText| > 0
  {
    if |items| == 0 then []
    else
      var rest := WithTargets(items[1..]);
      assert forall x :: x in items <==> x == items[0] || x in items[1..];
      if |items[0].targetText| > 0 then [items[0]] + rest else rest
  }

  /** Items with an empty target never affect a field's outline. */
  lemma EmptyTargetsIgnored(value: Text, fb: TeacherFeedback)
    ensures ClassByInclusion(value, Some(fb))
         == ClassByInclusion(value, Some(TeacherFeedback(WithTargets(fb.errors), WithTargets(fb.suggestions))))
  {
    var fb' := TeacherFeedback(WithTargets(fb.errors), WithTargets(fb.suggestions));
    SameTargetsIn(fb.errors, value);
    SameTargetsIn(fb.suggestions, value);
  }

  lemma SameTargetsIn(items: seq<FeedbackItem>, value: Text)
    ensures SomeTargetIn(items, value) <==> SomeTargetIn(WithTargets(items), value)
  {
    var r := WithTargets(items);
    if SomeTargetIn(items, value) {
      var i :| 0 <= i < |items| && |items[i].targetText| > 0 && Includes(value, items[i].targetText);
      assert items[i] in r;
    }
    if SomeTargetIn(r, value) {
      var i :| 0 <= i < |r| && |r[i].targetText| > 0 && Includes(value, r[i].targetText);
      assert r[i] in items;
    }
  }

  /** An error on the field outlines it as an error whatever the
      suggestions say. */
  lemma ErrorBeatsSuggestion(value: Text, fb: TeacherFeedback, e: FeedbackItem, sugg: seq<FeedbackItem>)
    requires !Blank(value) && |e.targetText| > 0 && Includes(value, e.targetText)
    ensures ClassByInclusion(value, Some(TeacherFeedback(fb.errors + [e], sugg))) == ErrorClass
    ensures ClassByEquality(e.targetText, Some(TeacherFeedback(fb.errors + [e], sugg))) == ErrorClass
  {
    assert (fb.errors + [e])[|fb.errors|] == e;
  }

  /** Equality is stricter than inclusion: for a value that is not blank, an
      item marked as an error by equality is marked by inclusion too, and a
      value neutral under inclusion is neutral under equality. */
  lemma EqualityWithinInclusion(value: Text, feedback: Option<TeacherFeedback>)
    requires !Blank(value)
    ensures ClassByEquality(value, feedback) == ErrorClass ==> ClassByInclusion(value, feedback) == ErrorClass
    ensures ClassByInclusion(value, feedback) == Neutral ==> ClassByEquality(value, feedback) == Neutral
  {
    if feedback.Some? {
      IncludesItself(value);
      if SomeTargetIs(feedback.value.errors, value) {
        var i :| 0 <= i < |feedback.value.errors| && feedback.value.errors[i].targetText == value;
      }
      if SomeTargetIs(feedback.value.suggestions, value) {
        var i :| 0 <= i < |feedback.value.suggestions| && feedback.value.suggestions[i].targetText == value;
      }
    }
  }

  lemma IncludesItself(s: Text)
    ensures Includes(s, s)
  {
    assert OccursAt(s, s, 0);
  }
}
