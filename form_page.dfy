/** The form page's own required check, run in the browser on every change
    before anything is sent. */
module FormPage {
  import opened Strings
  import opened Json
  import opened FormSchema
  import opened Validator

  /** The `onChange` validator of one field; `None` for `undefined`. */
  function ClientRequired(required: bool, v: Option<Value>): (e: Option<string>)
    ensures e.Some? ==> e.value == "Required"
  {
    if !required then None
    else if v == None || v == Some(Null) then Some("Required")
    else if v.value.Str? && Trim(v.value.s) == "" then Some("Required")
    else if v.value == Arr([]) then Some("Required")
    else None
  }

  /** What the client treats as empty: nothing, null, blank text or no selection. */
  predicate ClientEmpty(v: Option<Value>) {
    v == None || v == Some(Null) || (v.Some? && v.value.Str? && IsBlank(v.value.s)) || v == Some(Arr([]))
  }

  /** A required field is flagged exactly when it is empty in the client's
      sense; an optional field never is. */
  lemma ClientRequiredIff(required: bool, v: Option<Value>)
    ensures ClientRequired(required, v).Some? <==> required && ClientEmpty(v)
  {
    if v.Some? && v.value.Str? {
      TrimEmptyIffBlank(v.value.s);
    }
  }

  /** `false` and `0` are answers, not gaps. */
  lemma FalseAndZeroAreFilled()
    ensures ClientRequired(true, Some(Bool(false))) == None
    ensures ClientRequired(true, Some(Num(0))) == None
  {
  }

  /** Whatever the server reports as a missing required value, the client
      reports too; the client is the stricter of the two. */
  lemma ClientStricterThanServer(f: Field, v: Option<Value>, matches: Matcher)
    requires f.required && Absent(v)
    ensures ClientRequired(f.required, v) == Some("Required")
    ensures FieldError(f, v, matches) == Some(f.caption + " is required")
  {
  }

  /** The two checks part on whitespace-only text and on an empty selection:
      the client flags them, the server's required check lets them through. */
  lemma ClientAndServerDiffer(f: Field, matches: Matcher)
    requires f.required
    ensures ClientRequired(true, Some(Str(" "))) == Some("Required") && !Absent(Some(Str(" ")))
    ensures ClientRequired(true, Some(Arr([]))) == Some("Required") && !Absent(Some(Arr([])))
    ensures f.validation.None? ==> FieldError(f, Some(Str(" ")), matches) == None && FieldError(f, Some(Arr([])), matches) == None
  {
    assert Trim(" ") == "";
  }
}
