/** The declarative description of the onboarding form: field types, per-field
    validation rules, and the eight-field schema the server validates against. */
module FormSchema {
  import opened Strings

  datatype FieldType = Text | Number | Select | MultiSelect | Date | TextArea | Switch

  datatype Choice = Choice(value: string, caption: string)

  /** The optional `validation` object; every rule may be absent. */
  datatype Rules = Rules(
    minLength: Option<int>,
    maxLength: Option<int>,
    regex: Option<string>,
    min: Option<int>,
    max: Option<int>,
    minDate: Option<string>,
    minSelected: Option<int>,
    maxSelected: Option<int>)

  /** `required` is `false` where the source leaves the flag out. */
  datatype Field = Field(
    id: string,
    kind: FieldType,
    caption: string,
    placeholder: Option<string>,
    required: bool,
    options: Option<seq<Choice>>,
    validation: Option<Rules>)

  datatype Form = Form(title: string, description: string, fields: seq<Field>)

  const NoRules := Rules(None, None, None, None, None, None, None, None)

  const FullName := Field("fullName", Text, "Full Name", Some("John Doe"), true, None,
    Some(NoRules.(minLength := Some(2), maxLength := Some(50), regex := Some("^[a-zA-Z\\s]*$"))))

  const Email := Field("email", Text, "Email Address", Some("john@example.com"), true, None,
    Some(NoRules.(regex := Some("^[^\\s@]+@[^\\s@]+\\.[^\\s@]+$"))))

  const Age := Field("age", Number, "Age", None, true, None,
    Some(NoRules.(min := Some(18), max := Some(65))))

  const Department := Field("department", Select, "Department", None, true,
    Some([Choice("eng", "Engineering"), Choice("hr", "Human Resources"), Choice("sales", "Sales")]),
    None)

  const Skills := Field("skills", MultiSelect, "Core Skills", None, false,
    Some([Choice("react", "React"), Choice("node", "Node.js"), Choice("sql", "SQL"), Choice("python", "Python")]),
    Some(NoRules.(minSelected := Some(1), maxSelected := Some(3))))

  const StartDate := Field("startDate", Date, "Start Date", None, true, None,
    Some(NoRules.(minDate := Some("2024-01-01"))))

  const Bio := Field("bio", TextArea, "Short Bio", Some("Tell us about yourself..."), false, None,
    Some(NoRules.(maxLength := Some(200))))

  const Remote := Field("remote", Switch, "Remote Work?", None, false, None, None)

  const Onboarding := Form(
    "Employee Onboarding",
    "Please fill out the details below to complete your onboarding process.",
    [FullName, Email, Age, Department, Skills, StartDate, Bio, Remote])

  // ---------------------------------------------------------------------
  // Well-formedness of a schema

  function Ids(fields: seq<Field>): set<string> {
    set i | 0 <= i < |fields| :: fields[i].id
  }

  function RequiredIds(fields: seq<Field>): set<string> {
    set i | 0 <= i < |fields| && fields[i].required :: fields[i].id
  }

  predicate UniqueIds(fields: seq<Field>) {
    forall i, j :: 0 <= i < j < |fields| ==> fields[i].id != fields[j].id
  }

  predicate IsChoiceType(t: FieldType) {
    t == Select || t == MultiSelect
  }

  /** Each rule is one the field's type gives a meaning to. */
  predicate RulesFitType(f: Field) {
    f.validation.Some? ==>
      var r := f.validation.value;
      && (r.min.Some? || r.max.Some? ==> f.kind == Number)
      && (r.minSelected.Some? || r.maxSelected.Some? ==> f.kind == MultiSelect)
      && (r.minDate.Some? ==> f.kind == Date)
  }

  /** Lower bounds never exceed the matching upper bounds. */
  predicate BoundsConsistent(f: Field) {
    f.validation.Some? ==>
      var r := f.validation.value;
      && (r.minLength.Some? && r.maxLength.Some? ==> r.minLength.value <= r.maxLength.value)
      && (r.min.Some? && r.max.Some? ==> r.min.value <= r.max.value)
      && (r.minSelected.Some? && r.maxSelected.Some? ==> r.minSelected.value <= r.maxSelected.value)
  }

  /** A choice field can be filled within its cardinality bounds. */
  predicate SelectionSatisfiable(f: Field) {
    f.kind == MultiSelect && f.options.Some? && f.validation.Some? ==>
      var r := f.validation.value;
      r.minSelected.GetOr(0) <= |f.options.value|
  }

  /** Dropping the last field keeps the ids distinct, and the last id is
      not among the others. */
  lemma UniqueIdsInit(fields: seq<Field>)
    requires UniqueIds(fields) && fields != []
    ensures UniqueIds(fields[..|fields| - 1])
    ensures fields[|fields| - 1].id !in Ids(fields[..|fields| - 1])
  {
    var init := fields[..|fields| - 1];
    forall i | 0 <= i < |init| ensures init[i].id != fields[|fields| - 1].id {
      assert init[i] == fields[i];
    }
  }

  /** What a single field must satisfy. */
  predicate FieldWellFormed(f: Field) {
    && (f.options.Some? <==> IsChoiceType(f.kind))
    && RulesFitType(f)
    && BoundsConsistent(f)
    && SelectionSatisfiable(f)
  }

  predicate WellFormed(fields: seq<Field>) {
    && UniqueIds(fields)
    && (forall i :: 0 <= i < |fields| ==> FieldWellFormed(fields[i]))
  }

  /** The eight ids are pairwise distinct (they differ in their first two characters). */
  lemma OnboardingUniqueIds()
    ensures UniqueIds(Onboarding.fields)
  {
    var fs := Onboarding.fields;
    assert fs == [FullName, Email, Age, Department, Skills, StartDate, Bio, Remote];
    assert fs[0].id == "fullName" && fs[1].id == "email" && fs[2].id == "age" && fs[3].id == "department";
    assert fs[4].id == "skills" && fs[5].id == "startDate" && fs[6].id == "bio" && fs[7].id == "remote";
  }

  lemma OnboardingIds()
    ensures |Onboarding.fields| == 8
    ensures Ids(Onboarding.fields) == {"fullName", "email", "age", "department", "skills", "startDate", "bio", "remote"}
  {
    var fs := Onboarding.fields;
    IdsOfEight(fs);
  }

  /** The ids of an eight-field schema, one by one. */
  lemma IdsOfEight(fs: seq<Field>)
    requires |fs| == 8
    ensures Ids(fs) == {fs[0].id, fs[1].id, fs[2].id, fs[3].id, fs[4].id, fs[5].id, fs[6].id, fs[7].id}
  {
  }

  /** The onboarding schema is well formed: distinct ids, options exactly on
      the choice fields, each rule on a type it applies to, consistent bounds
      and a satisfiable skills selection. */
  lemma OnboardingWellFormed()
    ensures WellFormed(Onboarding.fields)
  {
    OnboardingUniqueIds();
    OnboardingFieldsWellFormed();
    var fs := Onboarding.fields;
    assert fs[0] == FullName && fs[1] == Email && fs[2] == Age && fs[3] == Department;
    assert fs[4] == Skills && fs[5] == StartDate && fs[6] == Bio && fs[7] == Remote;
    EightWellFormed(fs);
  }

  lemma OnboardingFieldsWellFormed()
    ensures FieldWellFormed(FullName) && FieldWellFormed(Email) && FieldWellFormed(Age) && FieldWellFormed(Department)
    ensures FieldWellFormed(Skills) && FieldWellFormed(StartDate) && FieldWellFormed(Bio) && FieldWellFormed(Remote)
  {
  }

  lemma EightWellFormed(fs: seq<Field>)
    requires |fs| == 8
    requires FieldWellFormed(fs[0]) && FieldWellFormed(fs[1]) && FieldWellFormed(fs[2]) && FieldWellFormed(fs[3])
    requires FieldWellFormed(fs[4]) && FieldWellFormed(fs[5]) && FieldWellFormed(fs[6]) && FieldWellFormed(fs[7])
    ensures forall i :: 0 <= i < |fs| ==> FieldWellFormed(fs[i])
  {
  }

  /** Exactly fullName, email, age, department and startDate are required. */
  lemma OnboardingRequired()
    ensures RequiredIds(Onboarding.fields) == {"fullName", "email", "age", "department", "startDate"}
  {
    var fs := Onboarding.fields;
    assert fs[0].id == "fullName" && fs[1].id == "email" && fs[2].id == "age" && fs[3].id == "department";
    assert fs[5].id == "startDate";
    assert "fullName" in RequiredIds(fs) && "email" in RequiredIds(fs) && "age" in RequiredIds(fs);
    assert "department" in RequiredIds(fs) && "startDate" in RequiredIds(fs);
  }

  /** The concrete bounds: 2 <= 50 characters of name, ages 18..65, and
      1..3 skills out of 4 options. */
  lemma OnboardingBounds()
    ensures FullName.validation.value.minLength == Some(2) && FullName.validation.value.maxLength == Some(50)
    ensures Age.validation.value.min == Some(18) && Age.validation.value.max == Some(65)
    ensures Skills.validation.value.minSelected == Some(1) && Skills.validation.value.maxSelected == Some(3)
    ensures 1 <= 3 <= |Skills.options.value| == 4
  {
  }
}
