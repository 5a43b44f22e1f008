/** `ExperienceForm`: the fields the add and edit handlers accept, the
    field-level validation a model form performs on them, and how a valid
    submission is written onto an Experience row. Text inputs are stripped
    of surrounding whitespace as form character fields do; `end_date`,
    `display_order` and `image` are optional. */
module Forms {
  import opened Values
  import opened Text
  import opened Dates
  import opened Models

  datatype Field = TitleField | CompanyField | ImageField | StartDateField | EndDateField | DescriptionField | DisplayOrderField

  /** A submitted form: `None` is a field left out or left blank. The date
      and number inputs are already parsed; an uploaded image is its stored
      path. */
  datatype Submission = Submission(
    title: Option<string>,
    company: Option<string>,
    image: Option<string>,
    startDate: Option<Date>,
    endDate: Option<Date>,
    description: Option<string>,
    displayOrder: Option<int>)

  /** `max_length` of the title and company columns. */
  const MaxCharLength: nat := 200

  /** The largest value the database backend's range check lets a
      `PositiveIntegerField` hold. */
  const MaxPositiveInteger: nat := 2147483647

  /** A text input after the form field's whitespace stripping. */
  function Cleaned(o: Option<string>): string {
    if o.Some? then Strip(o.value) else ""
  }

  const AllFields: set<Field> := {TitleField, CompanyField, ImageField, StartDateField, EndDateField, DescriptionField, DisplayOrderField}

  /** The checks on a required text input once stripped: it must not be
      blank, must not carry a NUL character (every form character field
      prohibits them) and, for a length-limited column, must fit it. */
  predicate TextRejected(t: string, limited: bool) {
    t == "" || '\0' in t || (limited && |t| > MaxCharLength)
  }

  /** Whether field `f` fails the form field's own checks, which run
      before the instance is built: the required text fields as above, the
      start date must be given, a given date must be a real date, and a
      given display order must not be negative (the form field carries the
      column's lower bound only). */
  predicate FormFieldFails(sub: Submission, f: Field) {
    match f
    case TitleField => TextRejected(Cleaned(sub.title), true)
    case CompanyField => TextRejected(Cleaned(sub.company), true)
    case ImageField => false
    case StartDateField => sub.startDate.None? || !Valid(sub.startDate.value)
    case EndDateField => sub.endDate.Some? && !Valid(sub.endDate.value)
    case DescriptionField => TextRejected(Cleaned(sub.description), false)
    case DisplayOrderField => sub.displayOrder.Some? && sub.displayOrder.value < 0
  }

  /** A display order above the column's range. The form field lets it
      through, so it is written onto the instance; the model's range
      validator then rejects it. */
  predicate OrderOutOfRange(sub: Submission) {
    sub.displayOrder.Some? && sub.displayOrder.value > MaxPositiveInteger
  }

  /** Whether field `f` is reported as an error: it fails the form field's
      checks, or it is the display order and lies above the range. */
  predicate FieldFails(sub: Submission, f: Field) {
    FormFieldFails(sub, f) || (f == DisplayOrderField && OrderOutOfRange(sub))
  }

  /** The fields that fail validation, each reported on its own. */
  function Errors(sub: Submission): (errors: set<Field>)
    ensures forall f :: f in errors <==> FieldFails(sub, f)
  {
    set f | f in AllFields && FieldFails(sub, f)
  }

  /** `form.is_valid()`. */
  predicate IsValid(sub: Submission) {
    Errors(sub) == {}
  }

  /** An Experience row whose every field passes the form's checks as it
      stands. */
  predicate Acceptable(e: Experience) {
    && !TextRejected(e.title, true) && !TextRejected(e.company, true) && !TextRejected(e.description, false)
    && ValidExperience(e)
    && e.displayOrder <= MaxPositiveInteger
  }

  /** Row `e` holds what `sub` submitted: the stripped texts, the dates
      as given, and the image and display order where they were given. */
  predicate Records(e: Experience, sub: Submission) {
    && e.title == Cleaned(sub.title) && e.company == Cleaned(sub.company)
    && sub.startDate == Some(e.startDate) && e.endDate == sub.endDate
    && e.description == Cleaned(sub.description)
    && (sub.image.Some? ==> e.image == sub.image)
    && (sub.displayOrder.Some? ==> e.displayOrder == sub.displayOrder.value)
  }

  /** The model form's `construct_instance`, run by `is_valid()` on the
      form's instance before the model's own validation: every field that
      passed the form field's checks is written onto `base`, and a field
      that failed them keeps `base`'s value. A left-out
      image or display order keeps `base`'s value too, and a blank end date
      clears it. */
  function Construct(sub: Submission, base: Experience): (e: Experience)
    ensures e.createdAt == base.createdAt
    ensures ValidExperience(base) ==> ValidExperience(e)
  {
    Experience(
      if FormFieldFails(sub, TitleField) then base.title else Cleaned(sub.title),
      if FormFieldFails(sub, CompanyField) then base.company else Cleaned(sub.company),
      if sub.image.Some? then sub.image else base.image,
      if FormFieldFails(sub, StartDateField) then base.startDate else sub.startDate.value,
      if FormFieldFails(sub, EndDateField) then base.endDate else sub.endDate,
      if FormFieldFails(sub, DescriptionField) then base.description else Cleaned(sub.description),
      if FormFieldFails(sub, DisplayOrderField) || sub.displayOrder.None? then base.displayOrder else sub.displayOrder.value,
      base.createdAt)
  }

  /** `form.save()` of a valid form: the instance `is_valid()` built. */
  function Apply(sub: Submission, base: Experience): (e: Experience)
    requires IsValid(sub)
    ensures ValidExperience(e)
    ensures e.title == Cleaned(sub.title) && e.company == Cleaned(sub.company)
    ensures e.title != "" && e.company != "" && e.description != ""
    ensures e.startDate == sub.startDate.value && e.endDate == sub.endDate
    ensures IsCurrent(e) <==> sub.endDate.None?
    ensures e.image == (if sub.image.Some? then sub.image else base.image)
    ensures e.displayOrder == (if sub.displayOrder.Some? then sub.displayOrder.value else base.displayOrder)
    ensures e.createdAt == base.createdAt
  {
    assert !FieldFails(sub, TitleField) && !FieldFails(sub, CompanyField) && !FieldFails(sub, DescriptionField);
    assert !FieldFails(sub, StartDateField) && !FieldFails(sub, EndDateField) && !FieldFails(sub, DisplayOrderField);
    Construct(sub, base)
  }

  /** `is_valid()` holds exactly when none of the seven fields fails. */
  lemma ValidIffNoFieldFails(sub: Submission)
    ensures IsValid(sub) <==>
      && !FieldFails(sub, TitleField) && !FieldFails(sub, CompanyField) && !FieldFails(sub, ImageField)
      && !FieldFails(sub, StartDateField) && !FieldFails(sub, EndDateField)
      && !FieldFails(sub, DescriptionField) && !FieldFails(sub, DisplayOrderField)
  {
    if !IsValid(sub) {
      var f :| f in Errors(sub);
    }
  }

  /** A submission is valid exactly when some row that passes every check
      holds what was submitted. */
  lemma ValidIffRecordable(sub: Submission)
    ensures IsValid(sub) <==> exists e :: Acceptable(e) && Records(e, sub)
  {
    ValidIffNoFieldFails(sub);
    if IsValid(sub) {
      var e := Construct(sub, NewExperienceBase(0));
      assert Acceptable(e) && Records(e, sub);
    }
  }

  /** No field fails the form field's own checks. */
  predicate FormFieldsClean(sub: Submission) {
    && !FormFieldFails(sub, TitleField) && !FormFieldFails(sub, CompanyField)
    && !FormFieldFails(sub, StartDateField) && !FormFieldFails(sub, EndDateField)
    && !FormFieldFails(sub, DescriptionField) && !FormFieldFails(sub, DisplayOrderField)
  }

  /** Starting from a stored row that passes every check, the instance a
      bound form holds after validation keeps the stored value of each field
      that failed the form field's checks. So it holds the whole submission
      exactly when every form field passed, it passes every check exactly
      when no over-range display order was written onto it, and the form is
      valid exactly when both hold. */
  lemma ConstructKeepsFailedFields(sub: Submission, base: Experience)
    requires Acceptable(base)
    ensures Records(Construct(sub, base), sub) <==> FormFieldsClean(sub)
    ensures Acceptable(Construct(sub, base)) <==> !OrderOutOfRange(sub)
    ensures IsValid(sub) <==> Records(Construct(sub, base), sub) && Acceptable(Construct(sub, base))
  {
    ValidIffNoFieldFails(sub);
  }

  /** An over-range display order is written onto the instance and still
      reported: the form is invalid, yet the instance shows the submitted
      value. */
  lemma OverRangeOrderIsWritten(sub: Submission, base: Experience)
    requires OrderOutOfRange(sub)
    ensures Construct(sub, base).displayOrder == sub.displayOrder.value
    ensures DisplayOrderField in Errors(sub) && !IsValid(sub)
  {
  }

  /** The row an unbound form starts from on the add page: the model's
      defaults (no image, display order 0) and the creation time. */
  function NewExperienceBase(now: int): (e: Experience)
    ensures e.image.None? && e.displayOrder == 0 && e.createdAt == now
  {
    Experience("", "", None, Date(1, 1, 1), None, "", 0, now)
  }

  /** Only title, company, start date and description are required: a
      submission that gives those, leaves out image, end date and display
      order, is valid and saves as a current position. */
  lemma OptionalFields(title: string, company: string, start: Date, description: string, now: int)
    requires !TextRejected(Strip(title), true) && !TextRejected(Strip(company), true)
    requires Valid(start) && !TextRejected(Strip(description), false)
    ensures var sub := Submission(Some(title), Some(company), None, Some(start), None, Some(description), None);
      IsValid(sub) && IsCurrent(Apply(sub, NewExperienceBase(now))) && Apply(sub, NewExperienceBase(now)).displayOrder == 0
  {
    ValidIffNoFieldFails(Submission(Some(title), Some(company), None, Some(start), None, Some(description), None));
  }

  /** Saving the same submission again changes nothing. */
  lemma ApplyIdempotent(sub: Submission, base: Experience)
    requires IsValid(sub)
    ensures Apply(sub, Apply(sub, base)) == Apply(sub, base)
  {
  }

  /** Of the row a submission is saved onto, only the image, the display
      order and the creation time can show through. */
  lemma ApplyIgnoresOverwrittenFields(sub: Submission, a: Experience, b: Experience)
    requires IsValid(sub)
    requires a.image == b.image && a.displayOrder == b.displayOrder && a.createdAt == b.createdAt
    ensures Apply(sub, a) == Apply(sub, b)
  {
    ValidIffNoFieldFails(sub);
  }
}
