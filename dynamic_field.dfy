/** The pure decisions of the field widget: which errors it shows, which
    widget a field type gets, and the value a click emits. */
module DynamicField {
  import opened Strings
  import opened Json
  import opened FormSchema

  // ---------------------------------------------------------------------
  // Errors

  /** `errors.filter(e => Boolean(e))` over `(string | undefined | null)[]`;
      `None` stands for `undefined` and `null`. */
  function Truthful(errs: seq<Option<string>>): (r: seq<string>)
    ensures |r| <= |errs|
    ensures forall i :: 0 <= i < |r| ==> r[i] != ""
    ensures forall s :: s in r <==> s != "" && Some(s) in errs
  {
    if errs == [] then []
    else
      var rest := Truthful(errs[1..]);
      assert errs == [errs[0]] + errs[1..];
      if errs[0].Some? && errs[0].value != "" then [errs[0].value] + rest else rest
  }

  /** Filtering keeps the order: the errors of a concatenation are the
      errors of each part, one after the other. */
  lemma {:induction false} TruthfulAppend(a: seq<Option<string>>, b: seq<Option<string>>)
    ensures Truthful(a + b) == Truthful(a) + Truthful(b)
  {
    if a != [] {
      assert (a + b)[1..] == a[1..] + b;
      TruthfulAppend(a[1..], b);
    } else {
      assert a + b == b;
    }
  }

  /** Line 19: a missing error list counts as none. */
  function VisibleErrors(errs: Option<seq<Option<string>>>): seq<string> {
    if errs.Some? then Truthful(errs.value) else []
  }

  predicate HasError(errs: Option<seq<Option<string>>>) {
    |VisibleErrors(errs)| > 0
  }

  /** The text under the field is the visible errors joined by `', '`. */
  function ErrorText(errs: Option<seq<Option<string>>>): string {
    Join(VisibleErrors(errs), ", ")
  }

  /** The field is marked in error exactly when some entry is a non-empty
      message, and then the text under it is not empty. */
  lemma HasErrorIff(errs: Option<seq<Option<string>>>)
    ensures HasError(errs) <==> errs.Some? && exists i :: 0 <= i < |errs.value| && errs.value[i].Some? && errs.value[i].value != ""
    ensures HasError(errs) <==> ErrorText(errs) != ""
  {
    var v := VisibleErrors(errs);
    JoinEmpty(v, ", ");
    if errs.Some? && exists i :: 0 <= i < |errs.value| && errs.value[i].Some? && errs.value[i].value != "" {
      var i :| 0 <= i < |errs.value| && errs.value[i].Some? && errs.value[i].value != "";
      assert errs.value[i].value in v;
    }
    if HasError(errs) {
      assert v[0] in v;
    }
  }

  // ---------------------------------------------------------------------
  // Widget dispatch

  datatype Widget = InputBox | TextBox | Dropdown | Toggle | CheckboxGroup

  /** The five independent JSX conditions of lines 39, 51, 62, 83 and 100. */
  predicate Renders(t: FieldType, w: Widget) {
    match w
    case InputBox => t == Text || t == Number || t == Date
    case TextBox => t == TextArea
    case Dropdown => t == Select
    case Toggle => t == Switch
    case CheckboxGroup => t == MultiSelect
  }

  /** Every field type shows exactly one widget. */
  function WidgetFor(t: FieldType): (w: Widget)
    ensures Renders(t, w)
    ensures forall other :: Renders(t, other) ==> other == w
  {
    match t
    case Text => InputBox
    case Number => InputBox
    case Date => InputBox
    case TextArea => TextBox
    case Select => Dropdown
    case Switch => Toggle
    case MultiSelect => CheckboxGroup
  }

  // ---------------------------------------------------------------------
  // Emitted values

  /** `current.filter(v => v !== x)`. */
  function Without(xs: seq<string>, x: string): (r: seq<string>)
    ensures |r| <= |xs|
    ensures forall y :: y in r <==> y in xs && y != x
    ensures x !in xs ==> r == xs
  {
    if xs == [] then []
    else
      assert xs == [xs[0]] + xs[1..];
      if xs[0] == x then Without(xs[1..], x) else [xs[0]] + Without(xs[1..], x)
  }

  lemma {:induction false} WithoutAppend(a: seq<string>, b: seq<string>, x: string)
    ensures Without(a + b, x) == Without(a, x) + Without(b, x)
  {
    if a != [] {
      assert (a + b)[1..] == a[1..] + b;
      WithoutAppend(a[1..], b, x);
    } else {
      assert a + b == b;
    }
  }

  /** A click on option `x`: the current selection (none when `undefined`)
      without `x` if it was selected, and with `x` added at the end if not. */
  function ToggleOption(current: Option<seq<string>>, x: string): (r: seq<string>)
    ensures x in r <==> !(current.Some? && x in current.value)
    ensures forall y :: y != x ==> (y in r <==> current.Some? && y in current.value)
  {
    var cur := current.GetOr([]);
    if x in cur then Without(cur, x) else cur + [x]
  }

  /** Selecting an unselected option appends it and keeps the rest. */
  lemma ToggleAppends(current: seq<string>, x: string)
    requires x !in current
    ensures ToggleOption(Some(current), x) == current + [x]
  {
  }

  /** Deselecting removes every copy of the option and keeps the rest in order. */
  lemma ToggleRemoves(a: seq<string>, b: seq<string>, x: string)
    requires x in a + b
    ensures ToggleOption(Some(a + b), x) == Without(a, x) + Without(b, x)
  {
    WithoutAppend(a, b, x);
  }

  /** Two clicks on an unselected option restore the selection. */
  lemma ToggleTwice(current: seq<string>, x: string)
    requires x !in current
    ensures ToggleOption(Some(ToggleOption(Some(current), x)), x) == current
  {
    WithoutAppend(current, [x], x);
    assert Without([x], x) == [];
  }

  /** The first click on a multi-select with no value selects just that option. */
  lemma ToggleFromNothing(x: string)
    ensures ToggleOption(None, x) == [x]
  {
  }

  /** `!state.value` from the switch. */
  function SwitchNext(v: Option<Value>): (r: Value)
    ensures r.Bool? && (r.b <==> !TruthyOpt(v))
  {
    Bool(!TruthyOpt(v))
  }

  /** A switch that has a boolean flips back after two clicks; one without a
      value becomes `true` on the first. */
  lemma SwitchTwice(b: bool)
    ensures SwitchNext(Some(SwitchNext(Some(Bool(b))))) == Bool(b)
    ensures SwitchNext(None) == Bool(true)
  {
  }
}
