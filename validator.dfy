/** Server-side validation of a submitted record against a form schema: one
    pass over the fields in schema order, each field getting at most one
    message. */
module Validator {
  import opened Strings
  import opened Json
  import opened FormSchema

  /** `new RegExp(pattern).test(s)`: the pattern engine is supplied by the caller. */
  type Matcher = (string, string) -> bool

  /** `value === undefined || value === null || value === ''`. */
  predicate Absent(v: Option<Value>) {
    v == None || v == Some(Null) || v == Some(Str(""))
  }

  /** A numeric rule is tested by truthiness: absent or 0 turns it off. */
  predicate On(rule: Option<int>) {
    rule.Some? && rule.value != 0
  }

  /** A string rule is tested by truthiness: absent or `''` turns it off. */
  predicate OnText(rule: Option<string>) {
    rule.Some? && rule.value != ""
  }

  // ---------------------------------------------------------------------
  // Coercions the rules apply

  /** `Number(s)` for a string: surrounding whitespace is ignored, the empty
      string is 0, a signed decimal integer is its value; `None` is `NaN`. */
  function StringToNumber(s: string): Option<int> {
    var t := Trim(s);
    if t == "" then Some(0) else SignedDigits(t)
  }

  /** `Number(value)`. */
  function ToNumber(v: Value): Option<int> {
    match v
    case Null => Some(0)
    case Bool(b) => Some(if b then 1 else 0)
    case Num(n) => Some(n)
    case Str(s) => StringToNumber(s)
    case Arr(xs) => if |xs| == 0 then Some(0) else if |xs| == 1 then StringToNumber(xs[0]) else None
  }

  /** A date string `YYYY-MM-DD` as a day key `YYYYMMDD`, which orders dates
      chronologically; `None` is an Invalid Date. */
  function ParseDate(s: string): Option<int> {
    if |s| == 10 && s[4] == '-' && s[7] == '-'
       && AllDigits(s[..4]) && AllDigits(s[5..7]) && AllDigits(s[8..]) then
      var month := DigitsValue(s[5..7]);
      var day := DigitsValue(s[8..]);
      if 1 <= month <= 12 && 1 <= day <= 31 then Some(DigitsValue(s[..4]) * 10000 + month * 100 + day)
      else None
    else None
  }

  /** `new Date(value)` for the values a date field receives. */
  function ToDate(v: Value): Option<int> {
    if v.Str? then ParseDate(v.s) else None
  }

  // ---------------------------------------------------------------------
  // The rule chain of one field. Each step is `if (fails) errors[id] = msg`:
  // it either replaces the message so far or keeps it.

  /** 2. Text rules, for any string value: minLength, maxLength, regex. */
  function TextRules(r: Rules, s: string, matches: Matcher, prev: Option<string>): Option<string> {
    var len := Utf16Length(s);
    var m1 := if On(r.minLength) && len < r.minLength.value
              then Some("Min length is " + IntToString(r.minLength.value)) else prev;
    var m2 := if On(r.maxLength) && len > r.maxLength.value
              then Some("Max length is " + IntToString(r.maxLength.value)) else m1;
    if OnText(r.regex) && !matches(r.regex.value, s) then Some("Invalid format") else m2
  }

  /** 3. Number rules, for a `number` field: min, max (tested with `!== undefined`);
      a comparison with `NaN` is false. */
  function NumberRules(r: Rules, x: Option<int>, prev: Option<string>): Option<string> {
    var m1 := if r.min.Some? && x.Some? && x.value < r.min.value
              then Some("Min value is " + IntToString(r.min.value)) else prev;
    if r.max.Some? && x.Some? && x.value > r.max.value
    then Some("Max value is " + IntToString(r.max.value)) else m1
  }

  /** 4. Selection rules, for an array in a `multi-select` field. */
  function SelectionRules(r: Rules, count: nat, prev: Option<string>): Option<string> {
    var m1 := if On(r.minSelected) && count < r.minSelected.value
              then Some("Select at least " + IntToString(r.minSelected.value) + " options") else prev;
    if On(r.maxSelected) && count > r.maxSelected.value
    then Some("Select at most " + IntToString(r.maxSelected.value) + " options") else m1
  }

  /** 5. The date rule, for a `date` field with a minDate. */
  function DateRule(r: Rules, v: Value, prev: Option<string>): Option<string> {
    if OnText(r.minDate) then
      var input := ToDate(v);
      var least := ParseDate(r.minDate.value);
      if input.Some? && least.Some? && input.value < least.value
      then Some("Date must be after " + r.minDate.value) else prev
    else prev
  }

  /** Rules 2 to 5 in source order, for a present value. */
  function RuleChain(f: Field, r: Rules, v: Value, matches: Matcher): Option<string> {
    var m1 := if v.Str? then TextRules(r, v.s, matches, None) else None;
    var m2 := if f.kind == Number then NumberRules(r, ToNumber(v), m1) else m1;
    var m3 := if f.kind == MultiSelect && v.Arr? then SelectionRules(r, |v.items|, m2) else m2;
    if f.kind == Date then DateRule(r, v, m3) else m3
  }

  /** The message one field leaves in the error map, if any. */
  function FieldError(f: Field, v: Option<Value>, matches: Matcher): Option<string> {
    if f.required && Absent(v) then Some(f.caption + " is required")
    else if Absent(v) then None
    else if f.validation.None? then None
    else RuleChain(f, f.validation.value, v.value, matches)
  }

  // ---------------------------------------------------------------------
  // The whole pass

  /** The error map after the fields have been visited in order. */
  function Errors(fields: seq<Field>, data: Record, matches: Matcher): (r: map<string, string>)
    ensures r.Keys <= Ids(fields)
  {
    if fields == [] then map[]
    else
      var prev := Errors(fields[..|fields| - 1], data, matches);
      var f := fields[|fields| - 1];
      match FieldError(f, Get(data, f.id), matches)
      case Some(msg) => prev[f.id := msg]
      case None => prev
  }

  /** `validateSubmission(data)`: the `forEach` loop over the onboarding
      schema, writing into one mutable error map. The result holds a field's
      message exactly when that field has one, and no other keys. */
  method ValidateSubmission(data: Record, matches: Matcher)
    returns (errors: map<string, string>)
    ensures errors == Errors(Onboarding.fields, data, matches)
    ensures errors.Keys <= Ids(Onboarding.fields)
    ensures forall k :: 0 <= k < |Onboarding.fields| ==>
              var e := FieldError(Onboarding.fields[k], Get(data, Onboarding.fields[k].id), matches);
              (Onboarding.fields[k].id in errors <==> e.Some?) && (e.Some? ==> errors[Onboarding.fields[k].id] == e.value)
  {
    var fields := Onboarding.fields;
    errors := map[];
    var i := 0;
    while i < |fields|
      invariant 0 <= i <= |fields|
      invariant errors == Errors(fields[..i], data, matches)
    {
      var field := fields[i];
      var message := FieldError(field, Get(data, field.id), matches);
      ErrorsStep(fields, data, matches, i);
      if message.Some? {
        errors := errors[field.id := message.value];
      }
      i := i + 1;
    }
    assert fields[..i] == fields;
    OnboardingUniqueIds();
    ErrorsPerField(fields, data, matches);
  }

  // ---------------------------------------------------------------------
  // Properties of the pass

  /** Visiting one more field adds its message, if any. */
  lemma ErrorsStep(fields: seq<Field>, data: Record, matches: Matcher, i: nat)
    requires i < |fields|
    ensures var m := FieldError(fields[i], Get(data, fields[i].id), matches);
            Errors(fields[..i + 1], data, matches) ==
              if m.Some? then Errors(fields[..i], data, matches)[fields[i].id := m.value]
              else Errors(fields[..i], data, matches)
  {
    assert fields[..i + 1][..i] == fields[..i];
  }

  /** `ErrorsAt` for every field at once. */
  lemma ErrorsPerField(fields: seq<Field>, data: Record, matches: Matcher)
    requires UniqueIds(fields)
    ensures forall k :: 0 <= k < |fields| ==>
              var e := FieldError(fields[k], Get(data, fields[k].id), matches);
              (fields[k].id in Errors(fields, data, matches) <==> e.Some?)
              && (e.Some? ==> Errors(fields, data, matches)[fields[k].id] == e.value)
  {
    forall k | 0 <= k < |fields| ensures
      var e := FieldError(fields[k], Get(data, fields[k].id), matches);
      (fields[k].id in Errors(fields, data, matches) <==> e.Some?)
      && (e.Some? ==> Errors(fields, data, matches)[fields[k].id] == e.value)
    {
      ErrorsAt(fields, data, matches, k);
    }
  }

  /** With distinct ids, a field's id is a key exactly when the field has a
      message, and the key holds that message. */
  lemma {:induction false} ErrorsAt(fields: seq<Field>, data: Record, matches: Matcher, k: nat)
    requires UniqueIds(fields) && k < |fields|
    ensures var e := FieldError(fields[k], Get(data, fields[k].id), matches);
            var r := Errors(fields, data, matches);
            (fields[k].id in r <==> e.Some?) && (e.Some? ==> r[fields[k].id] == e.value)
  {
    var init := fields[..|fields| - 1];
    UniqueIdsInit(fields);
    if k < |fields| - 1 {
      assert init[k] == fields[k];
      assert fields[k].id in Ids(init);
      ErrorsAt(init, data, matches, k);
    }
  }

  /** The pass reads only the schema's keys: records that agree on them get
      the same messages, whatever else they hold. */
  lemma {:induction false} ErrorsReadOnlySchemaKeys(fields: seq<Field>, d1: Record, d2: Record, matches: Matcher)
    requires forall i :: 0 <= i < |fields| ==> Get(d1, fields[i].id) == Get(d2, fields[i].id)
    ensures Errors(fields, d1, matches) == Errors(fields, d2, matches)
  {
    if fields != [] {
      var init := fields[..|fields| - 1];
      assert forall i :: 0 <= i < |init| ==> init[i] == fields[i];
      ErrorsReadOnlySchemaKeys(init, d1, d2, matches);
    }
  }

  /** An extra key that no field uses is ignored. */
  lemma ErrorsIgnoreUnknownKey(fields: seq<Field>, data: Record, e: Entry, matches: Matcher)
    requires e.key !in Ids(fields)
    ensures Errors(fields, data + [e], matches) == Errors(fields, data, matches)
  {
    forall i | 0 <= i < |fields| ensures Get(data + [e], fields[i].id) == Get(data, fields[i].id) {
      GetAppendOther(data, e, fields[i].id);
    }
    ErrorsReadOnlySchemaKeys(fields, data + [e], data, matches);
  }

  /** With distinct ids the map is empty exactly when no field has a message. */
  lemma ErrorsEmptyIff(fields: seq<Field>, data: Record, matches: Matcher)
    requires UniqueIds(fields)
    ensures Errors(fields, data, matches) == map[] <==>
            forall k :: 0 <= k < |fields| ==> FieldError(fields[k], Get(data, fields[k].id), matches).None?
  {
    var r := Errors(fields, data, matches);
    forall k | 0 <= k < |fields| ensures fields[k].id in r <==> FieldError(fields[k], Get(data, fields[k].id), matches).Some? {
      ErrorsAt(fields, data, matches, k);
    }
    if r != map[] {
      var id :| id in r;
      var k :| 0 <= k < |fields| && fields[k].id == id;
    }
  }

  // ---------------------------------------------------------------------
  // Properties of one field's rule chain

  /** A required field left empty gets exactly the required message. */
  lemma RequiredAbsent(f: Field, v: Option<Value>, matches: Matcher)
    requires f.required && Absent(v)
    ensures FieldError(f, v, matches) == Some(f.caption + " is required")
  {
  }

  /** An optional field left empty gets no message. */
  lemma OptionalAbsent(f: Field, v: Option<Value>, matches: Matcher)
    requires !f.required && Absent(v)
    ensures FieldError(f, v, matches) == None
  {
  }

  /** An empty array is a present value: it skips the required check and goes
      through the rules. */
  lemma EmptyArrayIsPresent(f: Field, matches: Matcher)
    ensures !Absent(Some(Arr([])))
    ensures FieldError(f, Some(Arr([])), matches) ==
            if f.validation.Some? then RuleChain(f, f.validation.value, Arr([]), matches) else None
  {
  }

  /** A failing pattern decides a text field's message, even when a length
      rule failed as well. */
  lemma PatternWins(f: Field, s: string, matches: Matcher)
    requires f.kind == Text || f.kind == TextArea
    requires s != "" && f.validation.Some? && OnText(f.validation.value.regex)
    requires !matches(f.validation.value.regex.value, s)
    ensures FieldError(f, Some(Str(s)), matches) == Some("Invalid format")
  {
  }

  /** With the pattern satisfied, a too-long text reports maxLength and a
      too-short one minLength. */
  lemma LengthMessages(f: Field, s: string, matches: Matcher)
    requires f.kind == Text || f.kind == TextArea
    requires s != "" && f.validation.Some?
    requires var r := f.validation.value; !OnText(r.regex) || matches(r.regex.value, s)
    ensures var r := f.validation.value;
            On(r.maxLength) && Utf16Length(s) > r.maxLength.value ==>
              FieldError(f, Some(Str(s)), matches) == Some("Max length is " + IntToString(r.maxLength.value))
    ensures var r := f.validation.value;
            On(r.minLength) && Utf16Length(s) < r.minLength.value && !(On(r.maxLength) && Utf16Length(s) > r.maxLength.value) ==>
              FieldError(f, Some(Str(s)), matches) == Some("Min length is " + IntToString(r.minLength.value))
    ensures var r := f.validation.value;
            !(On(r.minLength) && Utf16Length(s) < r.minLength.value) && !(On(r.maxLength) && Utf16Length(s) > r.maxLength.value) ==>
              FieldError(f, Some(Str(s)), matches) == None
  {
  }

  /** Number bounds are inclusive; below min reports min, above max reports max. */
  lemma NumberBounds(f: Field, n: int, matches: Matcher)
    requires f.kind == Number && f.validation.Some?
    requires f.validation.value.min.Some? && f.validation.value.max.Some?
    ensures var lo, hi := f.validation.value.min.value, f.validation.value.max.value;
            var e := FieldError(f, Some(Num(n)), matches);
            && (lo <= n <= hi ==> e == None)
            && (n < lo && n <= hi ==> e == Some("Min value is " + IntToString(lo)))
            && (n > hi ==> e == Some("Max value is " + IntToString(hi)))
  {
  }

  /** A number typed as text is checked as that number (when no text rule
      applies), because `Number` reads back its decimal text. */
  lemma NumberTextAsNumber(f: Field, n: int, matches: Matcher)
    requires f.kind == Number && f.validation.Some?
    requires var r := f.validation.value; !On(r.minLength) && !On(r.maxLength) && !OnText(r.regex)
    ensures FieldError(f, Some(Str(IntToString(n))), matches) == FieldError(f, Some(Num(n)), matches)
  {
    var s := IntToString(n);
    var r := f.validation.value;
    TrimIntToString(n);
    SignedDigitsOfIntToString(n);
    assert StringToNumber(s) == Some(n);
    assert TextRules(r, s, matches, None) == None;
    assert !Absent(Some(Str(s)));
    assert RuleChain(f, r, Str(s), matches) == NumberRules(r, Some(n), None);
    assert ToNumber(Str(s)) == Some(n);
  }

  /** minLength and maxLength set to 0 are off: the text rules behave as if
      the rule were absent. */
  lemma ZeroDisablesLengthRules(r: Rules, s: string, matches: Matcher, prev: Option<string>)
    ensures TextRules(r.(minLength := Some(0)), s, matches, prev) == TextRules(r.(minLength := None), s, matches, prev)
    ensures TextRules(r.(maxLength := Some(0)), s, matches, prev) == TextRules(r.(maxLength := None), s, matches, prev)
  {
  }

  /** minSelected and maxSelected set to 0 are off as well. */
  lemma ZeroDisablesSelectionRules(r: Rules, count: nat, prev: Option<string>)
    ensures SelectionRules(r.(minSelected := Some(0)), count, prev) == SelectionRules(r.(minSelected := None), count, prev)
    ensures SelectionRules(r.(maxSelected := Some(0)), count, prev) == SelectionRules(r.(maxSelected := None), count, prev)
  {
  }

  /** min and max set to 0 are honoured: a negative number is below a min
      of 0, and a positive number is above a max of 0. */
  lemma ZeroBoundIsHonoured(f: Field, r: Rules, n: int, matches: Matcher)
    requires f.kind == Number
    ensures r.min == Some(0) && r.max.None? && n < 0 ==> RuleChain(f, r, Num(n), matches) == Some("Min value is 0")
    ensures r.min.None? && r.max == Some(0) && n > 0 ==> RuleChain(f, r, Num(n), matches) == Some("Max value is 0")
  {
    assert IntToString(0) == "0";
    assert "Min value is " + "0" == "Min value is 0";
    assert "Max value is " + "0" == "Max value is 0";
  }

  /** Selecting between minSelected and maxSelected items (inclusive) passes;
      fewer or more is reported. */
  lemma SelectionBounds(f: Field, r: Rules, items: seq<string>, matches: Matcher)
    requires f.kind == MultiSelect && On(r.minSelected) && On(r.maxSelected)
    ensures var lo, hi := r.minSelected.value, r.maxSelected.value;
            var e := RuleChain(f, r, Arr(items), matches);
            && (lo <= |items| <= hi ==> e == None)
            && (|items| < lo && |items| <= hi ==> e == Some("Select at least " + IntToString(lo) + " options"))
            && (|items| > hi ==> e == Some("Select at most " + IntToString(hi) + " options"))
  {
  }

  /** The selection rules are only applied to arrays. */
  lemma SelectionNeedsArray(f: Field, r: Rules, v: Value, matches: Matcher)
    requires f.kind == MultiSelect && !v.Arr?
    ensures RuleChain(f, r, v, matches) == if v.Str? then TextRules(r, v.s, matches, None) else None
  {
  }

  /** A date field without text rules fails exactly when its date is earlier
      than minDate; an unparsable date passes. */
  lemma DateBound(f: Field, r: Rules, s: string, matches: Matcher)
    requires f.kind == Date && OnText(r.minDate)
    requires !On(r.minLength) && !On(r.maxLength) && !OnText(r.regex)
    ensures var a, b := ParseDate(s), ParseDate(r.minDate.value);
            RuleChain(f, r, Str(s), matches) ==
              if a.Some? && b.Some? && a.value < b.value then Some("Date must be after " + r.minDate.value) else None
  {
  }

  // ---------------------------------------------------------------------
  // The onboarding schema's rules on concrete inputs

  /** An empty submission is told about exactly the required fields, each
      with its required message. */
  lemma ErrorsOfEmptySubmission(fields: seq<Field>, matches: Matcher)
    requires UniqueIds(fields)
    ensures Errors(fields, [], matches).Keys == RequiredIds(fields)
    ensures forall k :: 0 <= k < |fields| && fields[k].required ==>
              fields[k].id in Errors(fields, [], matches)
              && Errors(fields, [], matches)[fields[k].id] == fields[k].caption + " is required"
  {
    var r := Errors(fields, [], matches);
    forall k | 0 <= k < |fields|
      ensures fields[k].id in r <==> fields[k].required
      ensures fields[k].required ==> r[fields[k].id] == fields[k].caption + " is required"
    {
      ErrorsAt(fields, [], matches, k);
    }
  }

  /** The onboarding form, submitted empty, reports fullName, email, age,
      department and startDate, and nothing else... */
  lemma OnboardingEmptySubmission(matches: Matcher)
    ensures Errors(Onboarding.fields, [], matches).Keys == {"fullName", "email", "age", "department", "startDate"}
  {
    OnboardingUniqueIds();
    OnboardingRequired();
    ErrorsOfEmptySubmission(Onboarding.fields, matches);
  }

  /** ...and age with its required message. */
  lemma OnboardingEmptyAge(matches: Matcher)
    ensures "age" in Errors(Onboarding.fields, [], matches)
    ensures Errors(Onboarding.fields, [], matches)["age"] == "Age is required"
  {
    OnboardingUniqueIds();
    assert Onboarding.fields[2] == Age;
    RequiredFieldOfEmptySubmission(Onboarding.fields, 2, matches);
    AgeRequiredMessage();
  }

  lemma AgeRequiredMessage()
    ensures Age.caption + " is required" == "Age is required"
  {
  }

  /** A required field with no value gets its required message. */
  lemma RequiredFieldOfEmptySubmission(fs: seq<Field>, k: nat, matches: Matcher)
    requires UniqueIds(fs) && k < |fs| && fs[k].required
    ensures fs[k].id in Errors(fs, [], matches)
    ensures Errors(fs, [], matches)[fs[k].id] == fs[k].caption + " is required"
  {
    ErrorsAt(fs, [], matches, k);
  }

  /** Ages 18 to 65 pass; 17 and 66 are reported against the bound they cross. */
  lemma OnboardingAge(n: int, matches: Matcher)
    ensures 18 <= n <= 65 ==> FieldError(Age, Some(Num(n)), matches) == None
    ensures n < 18 ==> FieldError(Age, Some(Num(n)), matches) == Some("Min value is 18")
    ensures n > 65 ==> FieldError(Age, Some(Num(n)), matches) == Some("Max value is 65")
  {
    assert IntToString(18) == "18" && IntToString(65) == "65";
    assert "Min value is " + "18" == "Min value is 18";
    assert "Max value is " + "65" == "Max value is 65";
  }

  /** One to three skills pass; none or four are reported. */
  lemma OnboardingSkills(items: seq<string>, matches: Matcher)
    ensures 1 <= |items| <= 3 ==> FieldError(Skills, Some(Arr(items)), matches) == None
    ensures |items| == 0 ==> FieldError(Skills, Some(Arr(items)), matches) == Some("Select at least 1 options")
    ensures |items| > 3 ==> FieldError(Skills, Some(Arr(items)), matches) == Some("Select at most 3 options")
  {
    assert IntToString(1) == "1" && IntToString(3) == "3";
    assert "Select at least " + "1" + " options" == "Select at least 1 options";
    assert "Select at most " + "3" + " options" == "Select at most 3 options";
  }

  /** The last day of 2023 is before the earliest start date; its first day of 2024 is not. */
  lemma OnboardingStartDateTooEarly(matches: Matcher)
    ensures FieldError(StartDate, Some(Str("2023-12-31")), matches) == Some("Date must be after 2024-01-01")
  {
    ParseDateLastDayOf2023();
    ParseDateFirstDayOf2024();
    assert StartDate.validation.value.minDate == Some("2024-01-01");
    var m := StartDate.validation.value.minDate.value;
    PresentDate(StartDate, "2023-12-31", matches);
    assert FieldError(StartDate, Some(Str("2023-12-31")), matches) == Some("Date must be after " + m);
    AfterMessage();
  }

  lemma OnboardingStartDateOnTime(matches: Matcher)
    ensures FieldError(StartDate, Some(Str("2024-01-01")), matches) == None
  {
    ParseDateFirstDayOf2024();
    assert StartDate.validation.value.minDate == Some("2024-01-01");
    PresentDate(StartDate, "2024-01-01", matches);
  }

  lemma AfterMessage()
    ensures "Date must be after " + "2024-01-01" == "Date must be after 2024-01-01"
  {
  }

  /** A non-empty date given to a date field with only a minDate rule. */
  lemma PresentDate(f: Field, s: string, matches: Matcher)
    requires f.kind == Date && f.validation.Some? && s != ""
    requires var r := f.validation.value;
             OnText(r.minDate) && !On(r.minLength) && !On(r.maxLength) && !OnText(r.regex)
    ensures var a, b := ParseDate(s), ParseDate(f.validation.value.minDate.value);
            FieldError(f, Some(Str(s)), matches) ==
              if a.Some? && b.Some? && a.value < b.value then Some("Date must be after " + f.validation.value.minDate.value) else None
  {
    DateBound(f, f.validation.value, s, matches);
  }

  lemma ParseDateLastDayOf2023()
    ensures ParseDate("2023-12-31") == Some(20231231)
  {
    var s := "2023-12-31";
    assert s[..4] == "2023" && s[5..7] == "12" && s[8..] == "31";
    DateDigits();
  }

  lemma ParseDateFirstDayOf2024()
    ensures ParseDate("2024-01-01") == Some(20240101)
  {
    var s := "2024-01-01";
    assert s[..4] == "2024" && s[5..7] == "01" && s[8..] == "01";
    DateDigits();
  }

  lemma DateDigits()
    ensures DigitsValue("2023") == 2023 && DigitsValue("2024") == 2024
    ensures DigitsValue("12") == 12 && DigitsValue("31") == 31 && DigitsValue("01") == 1
  {
    assert "2023"[..3] == "202" && "2024"[..3] == "202" && "202"[..2] == "20" && "20"[..1] == "2" && "2"[..0] == "";
    assert "12"[..1] == "1" && "1"[..0] == "";
    assert "31"[..1] == "3" && "3"[..0] == "";
    assert "01"[..1] == "0" && "0"[..0] == "";
  }
}
