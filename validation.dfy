/** The request-body validator (validateTask in app.js): five independent
    per-field rules, every violation reported, in the order the rules are checked. */
module Validation {
  import opened Js
  import opened TaskModel

  /** The five checked fields, in the order the validator checks them. */
  datatype Field = TitleField | DescriptionField | CompletedField | DueDateField | PriorityField

  /** An error the validator pushes. Its `message` is fixed by its field, so
      the error is the field; `Entry` is the `{ field, message }` object sent. */
  datatype FieldError = FieldError(field: Field)

  function Rank(f: Field): nat {
    match f
    case TitleField => 0
    case DescriptionField => 1
    case CompletedField => 2
    case DueDateField => 3
    case PriorityField => 4
  }

  function Name(f: Field): string {
    match f
    case TitleField => "title"
    case DescriptionField => "description"
    case CompletedField => "completed"
    case DueDateField => "dueDate"
    case PriorityField => "priority"
  }

  function Message(f: Field): string {
    match f
    case TitleField => "Title is required and must be a non-empty string."
    case DescriptionField => "Description must be a string."
    case CompletedField => "Completed must be a boolean."
    case DueDateField => "dueDate must be a valid ISO date string."
    case PriorityField => "Priority must be low, medium, or high."
  }

  /** The `{ field, message }` object of a 400 response, as its two strings. */
  function Entry(e: FieldError): (string, string) {
    (Name(e.field), Message(e.field))
  }

  /** The value the body gives for a field. */
  function FieldValue(p: Payload, f: Field): Option<JsValue> {
    match f
    case TitleField => p.title
    case DescriptionField => p.description
    case CompletedField => p.completed
    case DueDateField => p.dueDate
    case PriorityField => p.priority
  }

  /** The rule of field `f`, broken by the value `v` the body gives for it.
      The title is checked whenever it is present, and also when absent unless
      `forUpdate`; every other field is checked only when present. */
  predicate Broken(f: Field, v: Option<JsValue>, forUpdate: bool, dates: DateLib) {
    match f
    case TitleField => (!forUpdate || v.Some?) && !(v.Some? && IsNonBlankString(v.value))
    case DescriptionField => v.Some? && !v.value.JStr?
    case CompletedField => v.Some? && !v.value.JBool?
    case DueDateField => v.Some? && !dates.parses(v.value)
    case PriorityField => v.Some? && ParsePriority(v.value).None?
  }

  predicate Violates(p: Payload, forUpdate: bool, dates: DateLib, f: Field) {
    Broken(f, FieldValue(p, f), forUpdate, dates)
  }

  /** A body the handlers accept, stated field by field. */
  predicate Acceptable(p: Payload, forUpdate: bool, dates: DateLib) {
    && (!forUpdate ==> p.title.Some?)
    && (p.title.Some? ==> IsNonBlankString(p.title.value))
    && (p.description.Some? ==> p.description.value.JStr?)
    && (p.completed.Some? ==> p.completed.value.JBool?)
    && (p.dueDate.Some? ==> dates.parses(p.dueDate.value))
    && (p.priority.Some? ==> ParsePriority(p.priority.value).Some?)
  }

  /** The order in which validateTask checks the fields. */
  function Checked(): seq<Field> {
    [TitleField, DescriptionField, CompletedField, DueDateField, PriorityField]
  }

  predicate Ascending(fs: seq<Field>) {
    forall i, j :: 0 <= i < j < |fs| ==> Rank(fs[i]) < Rank(fs[j])
  }

  /** The position in the checking order of the field an error names. */
  function RankOf(e: FieldError): nat {
    Rank(e.field)
  }

  /** Runs the rules of `fs` in turn, pushing the error of each broken one. */
  function Gather(p: Payload, forUpdate: bool, dates: DateLib, fs: seq<Field>): seq<FieldError> {
    if fs == [] then []
    else One(p, forUpdate, dates, fs[0]) + Gather(p, forUpdate, dates, fs[1..])
  }

  /** Gathering over fields in checking order reports exactly the broken
      rules among them, in that order. */
  lemma {:induction false} GatherSpec(p: Payload, forUpdate: bool, dates: DateLib, fs: seq<Field>)
    requires Ascending(fs)
    ensures var errors := Gather(p, forUpdate, dates, fs);
      && (forall f :: FieldError(f) in errors <==> f in fs && Violates(p, forUpdate, dates, f))
      && (forall e :: e in errors ==> e.field in fs)
      && (forall i, j :: 0 <= i < j < |errors| ==> RankOf(errors[i]) < RankOf(errors[j]))
  {
    if fs != [] {
      var rest := Gather(p, forUpdate, dates, fs[1..]);
      GatherSpec(p, forUpdate, dates, fs[1..]);
      var first := One(p, forUpdate, dates, fs[0]);
      assert Gather(p, forUpdate, dates, fs) == first + rest;
      assert forall e :: e in first <==> Violates(p, forUpdate, dates, fs[0]) && e == FieldError(fs[0]);
      assert forall f :: f in fs[1..] ==> Rank(fs[0]) < Rank(f);
      assert forall f :: f in fs <==> f == fs[0] || f in fs[1..];
    }
  }

  /** The errors validateTask collects. The result holds the error of every
      field whose rule the body breaks, nothing else, with no field twice and
      in the order the rules are checked; it is empty exactly when the body is
      acceptable. */
  function Validate(p: Payload, forUpdate: bool, dates: DateLib): (errors: seq<FieldError>)
    ensures forall f :: FieldError(f) in errors <==> Violates(p, forUpdate, dates, f)
    ensures forall i, j :: 0 <= i < j < |errors| ==> RankOf(errors[i]) < RankOf(errors[j])
    ensures errors == [] <==> Acceptable(p, forUpdate, dates)
  {
    var errors := Gather(p, forUpdate, dates, Checked());
    AllFieldsChecked();
    GatherSpec(p, forUpdate, dates, Checked());
    AcceptableIffNoViolation(p, forUpdate, dates);
    assert errors != [] ==> FieldError(errors[0].field) in errors;
    errors
  }

  /** validateTask as the middleware runs it: the five rules one after
      another, each broken rule pushing its error onto `errors`. */
  method CollectErrors(p: Payload, forUpdate: bool, dates: DateLib) returns (errors: seq<FieldError>)
    ensures errors == Validate(p, forUpdate, dates)
  {
    errors := [];
    if !forUpdate || p.title.Some? {
      if !(p.title.Some? && IsNonBlankString(p.title.value)) {
        errors := errors + [FieldError(TitleField)];
      }
    }
    assert errors == One(p, forUpdate, dates, TitleField);
    ghost var before := errors;
    if p.description.Some? && !p.description.value.JStr? {
      errors := errors + [FieldError(DescriptionField)];
    }
    assert errors == before + One(p, forUpdate, dates, DescriptionField);
    before := errors;
    if p.completed.Some? && !p.completed.value.JBool? {
      errors := errors + [FieldError(CompletedField)];
    }
    assert errors == before + One(p, forUpdate, dates, CompletedField);
    before := errors;
    if p.dueDate.Some? && !dates.parses(p.dueDate.value) {
      errors := errors + [FieldError(DueDateField)];
    }
    assert errors == before + One(p, forUpdate, dates, DueDateField);
    before := errors;
    if p.priority.Some? && ParsePriority(p.priority.value).None? {
      errors := errors + [FieldError(PriorityField)];
    }
    assert errors == before + One(p, forUpdate, dates, PriorityField);
    assert errors == Gather(p, forUpdate, dates, Checked()) by {
      GatherUnrolled(p, forUpdate, dates);
    }
    ValidateIsGather(p, forUpdate, dates);
  }

  lemma ValidateIsGather(p: Payload, forUpdate: bool, dates: DateLib)
    ensures Validate(p, forUpdate, dates) == Gather(p, forUpdate, dates, Checked())
  {
  }

  /** The errors of the five rules, concatenated in checking order. */
  lemma GatherUnrolled(p: Payload, forUpdate: bool, dates: DateLib)
    ensures Gather(p, forUpdate, dates, Checked()) ==
      One(p, forUpdate, dates, TitleField)
      + One(p, forUpdate, dates, DescriptionField)
      + One(p, forUpdate, dates, CompletedField)
      + One(p, forUpdate, dates, DueDateField)
      + One(p, forUpdate, dates, PriorityField)
  {
    GatherOfFive(p, forUpdate, dates, TitleField, DescriptionField, CompletedField, DueDateField, PriorityField);
  }

  lemma GatherOfFive(p: Payload, forUpdate: bool, dates: DateLib, f1: Field, f2: Field, f3: Field, f4: Field, f5: Field)
    ensures Gather(p, forUpdate, dates, [f1, f2, f3, f4, f5]) ==
      One(p, forUpdate, dates, f1) + One(p, forUpdate, dates, f2) + One(p, forUpdate, dates, f3)
      + One(p, forUpdate, dates, f4) + One(p, forUpdate, dates, f5)
  {
    var fs := [f1, f2, f3, f4, f5];
    var a, b, c, d, e :=
      One(p, forUpdate, dates, f1), One(p, forUpdate, dates, f2), One(p, forUpdate, dates, f3),
      One(p, forUpdate, dates, f4), One(p, forUpdate, dates, f5);
    assert fs[1..] == [f2, f3, f4, f5] && fs[1..][1..] == [f3, f4, f5];
    assert fs[1..][1..][1..] == [f4, f5] && fs[1..][1..][1..][1..] == [f5];
    assert [f5][1..] == [];
    assert Gather(p, forUpdate, dates, [f5]) == e;
    assert Gather(p, forUpdate, dates, [f4, f5]) == d + e;
    assert Gather(p, forUpdate, dates, [f3, f4, f5]) == c + (d + e);
    assert Gather(p, forUpdate, dates, [f2, f3, f4, f5]) == b + (c + (d + e));
    assert Gather(p, forUpdate, dates, fs) == a + (b + (c + (d + e)));
    RegroupFive(a, b, c, d, e);
  }

  lemma RegroupFive<T>(a: seq<T>, b: seq<T>, c: seq<T>, d: seq<T>, e: seq<T>)
    ensures a + (b + (c + (d + e))) == a + b + c + d + e
  {
  }

  /** The error, if any, the rule of `f` pushes. */
  function One(p: Payload, forUpdate: bool, dates: DateLib, f: Field): seq<FieldError> {
    if Violates(p, forUpdate, dates, f) then [FieldError(f)] else []
  }

  lemma AllFieldsChecked()
    ensures forall f :: f in Checked()
    ensures Ascending(Checked())
  {
    forall f ensures f in Checked() {
      match f
      case TitleField => assert Checked()[0] == f;
      case DescriptionField => assert Checked()[1] == f;
      case CompletedField => assert Checked()[2] == f;
      case DueDateField => assert Checked()[3] == f;
      case PriorityField => assert Checked()[4] == f;
    }
  }

  /** The field-by-field statement of an acceptable body is the absence of a broken rule. */
  lemma AcceptableIffNoViolation(p: Payload, forUpdate: bool, dates: DateLib)
    ensures Acceptable(p, forUpdate, dates) <==> forall f :: !Violates(p, forUpdate, dates, f)
  {
    if !Acceptable(p, forUpdate, dates) {
      if !forUpdate && p.title.None? {
        assert Violates(p, forUpdate, dates, TitleField);
      } else if p.title.Some? && !IsNonBlankString(p.title.value) {
        assert Violates(p, forUpdate, dates, TitleField);
      } else if p.description.Some? && !p.description.value.JStr? {
        assert Violates(p, forUpdate, dates, DescriptionField);
      } else if p.completed.Some? && !p.completed.value.JBool? {
        assert Violates(p, forUpdate, dates, CompletedField);
      } else if p.dueDate.Some? && !dates.parses(p.dueDate.value) {
        assert Violates(p, forUpdate, dates, DueDateField);
      } else {
        assert Violates(p, forUpdate, dates, PriorityField);
      }
    }
  }

  /** Gathering under two modes gives the same errors where no rule of `fs` tells them apart. */
  lemma {:induction false} GatherAgrees(p: Payload, dates: DateLib, fs: seq<Field>)
    requires p.title.Some? || TitleField !in fs
    ensures Gather(p, true, dates, fs) == Gather(p, false, dates, fs)
  {
    if fs != [] {
      GatherAgrees(p, dates, fs[1..]);
    }
  }

  /** Creating or fully replacing a task with an absent, non-string or
      whitespace-only title always reports a title error. */
  lemma BlankTitleRejected(p: Payload, dates: DateLib)
    requires p.title.None? || !p.title.value.JStr? || AllWhitespace(p.title.value.s)
    ensures FieldError(TitleField) in Validate(p, false, dates)
  {
    if p.title.Some? && p.title.value.JStr? {
      TrimEmptyIff(p.title.value.s);
    }
  }

  /** A partial update may omit the title: no title error then. */
  lemma PartialUpdateMayOmitTitle(p: Payload, dates: DateLib)
    requires p.title.None?
    ensures FieldError(TitleField) !in Validate(p, true, dates)
  {
  }

  /** `forUpdate` relaxes the title rule and nothing else: with a title in the
      body both modes report the same errors, and without one the relaxed mode
      reports the other mode's errors minus the title error. */
  lemma ForUpdateRelaxesOnlyTitle(p: Payload, dates: DateLib)
    ensures p.title.Some? ==> Validate(p, true, dates) == Validate(p, false, dates)
    ensures p.title.None? ==> [FieldError(TitleField)] + Validate(p, true, dates) == Validate(p, false, dates)
  {
    var rest := Checked()[1..];
    GatherAgrees(p, dates, rest);
    if p.title.Some? {
      GatherAgrees(p, dates, Checked());
    }
  }

  /** Each field is checked on its own: whether a field is reported depends
      only on that field's value (and, for the title, on `forUpdate`). */
  lemma FieldsIndependent(p: Payload, q: Payload, forUpdate: bool, dates: DateLib, f: Field)
    requires FieldValue(p, f) == FieldValue(q, f)
    ensures FieldError(f) in Validate(p, forUpdate, dates) <==> FieldError(f) in Validate(q, forUpdate, dates)
  {
  }
}
