/** The application modal: its form state, the input and file handlers,
    `validateForm`, the close handler, and the application record it hands
    to the store on submit. */
module Modal {
  import opened Wrappers
  import opened Text
  import opened Json
  import opened Email
  import opened Catalog
  import Intake

  datatype Resume = Resume(name: string, mimeType: string)

  datatype Form = Form(
    firstName: string,
    lastName: string,
    email: string,
    phone: string,
    coverLetter: string,
    resume: Option<Resume>)

  const EmptyForm := Form("", "", "", "", "", None)

  /** The text inputs, each named after its form key. */
  datatype Input = FirstName | LastName | EmailInput | Phone | CoverLetter

  function Key(f: Input): string {
    match f
    case FirstName => "firstName"
    case LastName => "lastName"
    case EmailInput => "email"
    case Phone => "phone"
    case CoverLetter => "coverLetter"
  }

  function Value(form: Form, f: Input): string {
    match f
    case FirstName => form.firstName
    case LastName => form.lastName
    case EmailInput => form.email
    case Phone => form.phone
    case CoverLetter => form.coverLetter
  }

  /** Error messages by form key. */
  type Errors = map<string, string>

  datatype ModalState = ModalState(form: Form, errors: Errors, isSubmitting: bool, isSubmitted: bool)

  const InitialModal := ModalState(EmptyForm, map[], false, false)

  /** `handleInputChange`: the named input takes the new value; its error,
      if one is showing, is blanked. */
  function InputChange(st: ModalState, f: Input, value: string): ModalState {
    var form := match f
      case FirstName => st.form.(firstName := value)
      case LastName => st.form.(lastName := value)
      case EmailInput => st.form.(email := value)
      case Phone => st.form.(phone := value)
      case CoverLetter => st.form.(coverLetter := value);
    var k := Key(f);
    var errors := if k in st.errors && st.errors[k] != "" then st.errors[k := ""] else st.errors;
    st.(form := form, errors := errors)
  }

  /** Only the named input and its own error change. */
  lemma InputChangeIsLocal(st: ModalState, f: Input, value: string)
    ensures var r := InputChange(st, f, value);
            && Value(r.form, f) == value
            && (forall g :: g != f ==> Value(r.form, g) == Value(st.form, g))
            && r.form.resume == st.form.resume
            && r.errors.Keys == st.errors.Keys
            && (forall k :: k in st.errors && k != Key(f) ==> r.errors[k] == st.errors[k])
            && (Key(f) in r.errors ==> r.errors[Key(f)] == "")
            && r.isSubmitting == st.isSubmitting && r.isSubmitted == st.isSubmitted
  {
  }

  const PdfType := "application/pdf"
  const PdfRequired := "Please upload a PDF file"

  /** `handleFileChange`: a PDF becomes the resume and clears the resume
      error; anything else, or no file, leaves the resume as it was and
      shows an error. */
  function FileChange(st: ModalState, file: Option<Resume>): (r: ModalState)
    ensures r.form.resume == (if file.Some? && file.value.mimeType == PdfType then file else st.form.resume)
    ensures "resume" in r.errors
    ensures r.errors["resume"] == (if file.Some? && file.value.mimeType == PdfType then "" else PdfRequired)
    ensures forall k :: k != "resume" ==> (k in r.errors <==> k in st.errors)
    ensures forall k :: k in st.errors && k != "resume" ==> r.errors[k] == st.errors[k]
    ensures r.form == st.form.(resume := r.form.resume)
  {
    if file.Some? && file.value.mimeType == PdfType then
      st.(form := st.form.(resume := file), errors := st.errors["resume" := ""])
    else
      st.(errors := st.errors["resume" := PdfRequired])
  }

  const MinCoverLetter := 50

  /** The reference meaning of a valid form: every text field is non-blank,
      the e-mail holds a match of `\S+@\S+\.\S+`, the trimmed cover letter
      has at least 50 code units, and a resume is attached. */
  ghost predicate FormValid(form: Form) {
    && !IsBlank(form.firstName)
    && !IsBlank(form.lastName)
    && !IsBlank(form.email) && UnanchoredMatch(form.email)
    && !IsBlank(form.phone)
    && Utf16Length(Trim(form.coverLetter)) >= MinCoverLetter
    && form.resume.Some?
  }

  /** The keys `validateForm` may report. */
  const FormKeys: set<string> := {"firstName", "lastName", "email", "phone", "coverLetter", "resume"}

  /** The message `validateForm` records for one key, if any: "required"
      when the field is blank, otherwise the format or length message. */
  function FieldError(form: Form, key: string): Option<string> {
    if key == "firstName" then
      if IsBlank(form.firstName) then Some("First name is required") else None
    else if key == "lastName" then
      if IsBlank(form.lastName) then Some("Last name is required") else None
    else if key == "email" then
      if IsBlank(form.email) then Some("Email is required")
      else if !ClientEmailOk(form.email) then Some("Email is invalid")
      else None
    else if key == "phone" then
      if IsBlank(form.phone) then Some("Phone number is required") else None
    else if key == "coverLetter" then
      if IsBlank(form.coverLetter) then Some("Cover letter is required")
      else if Utf16Length(Trim(form.coverLetter)) < MinCoverLetter then Some("Cover letter must be at least 50 characters")
      else None
    else if key == "resume" then
      if form.resume.None? then Some("Resume is required") else None
    else None
  }

  /** The errors `validateForm` collects: every failing field, each with
      its one message. */
  function Validate(form: Form): (errors: Errors)
    ensures errors.Keys <= FormKeys
  {
    map k | k in FormKeys && FieldError(form, k).Some? :: FieldError(form, k).value
  }

  /** Which fields fail: a field is reported exactly when it is blank or,
      for the e-mail, does not match, or, for the cover letter, is shorter
      than 50 code units once trimmed. */
  lemma ValidateReports(form: Form)
    ensures "firstName" in Validate(form) <==> IsBlank(form.firstName)
    ensures "lastName" in Validate(form) <==> IsBlank(form.lastName)
    ensures "email" in Validate(form) <==> IsBlank(form.email) || !ClientEmailOk(form.email)
    ensures "phone" in Validate(form) <==> IsBlank(form.phone)
    ensures "coverLetter" in Validate(form) <==> Utf16Length(Trim(form.coverLetter)) < MinCoverLetter
    ensures "resume" in Validate(form) <==> form.resume.None?
  {
    assert "coverLetter" in FormKeys;
    if IsBlank(form.coverLetter) {
      assert |Trim(form.coverLetter)| == 0;
    }
  }

  /** The message each reported field carries: "required" when the field
      is blank, otherwise the format or the length message. */
  lemma ValidateMessages(form: Form)
    ensures "firstName" in Validate(form) ==> Validate(form)["firstName"] == "First name is required"
    ensures "lastName" in Validate(form) ==> Validate(form)["lastName"] == "Last name is required"
    ensures "email" in Validate(form) ==>
              Validate(form)["email"] == (if IsBlank(form.email) then "Email is required" else "Email is invalid")
    ensures "phone" in Validate(form) ==> Validate(form)["phone"] == "Phone number is required"
    ensures "coverLetter" in Validate(form) ==>
              Validate(form)["coverLetter"]
              == (if IsBlank(form.coverLetter) then "Cover letter is required"
                  else "Cover letter must be at least 50 characters")
    ensures "resume" in Validate(form) ==> Validate(form)["resume"] == "Resume is required"
  {
  }

  /** `validateForm`: the collected errors replace the shown ones, and the
      form passes exactly when there are none, which is exactly when it is
      valid. */
  function ValidateForm(st: ModalState): (r: (ModalState, bool))
    ensures r.0 == st.(errors := Validate(st.form))
    ensures r.1 <==> |r.0.errors| == 0
  {
    var errors := Validate(st.form);
    (st.(errors := errors), |errors| == 0)
  }

  /** No errors exactly when the form is valid. */
  lemma ValidateOkIff(form: Form)
    ensures |Validate(form)| == 0 <==> FormValid(form)
  {
    NoErrorsMeansValid(form);
    ValidMeansNoErrors(form);
  }

  lemma NoErrorsMeansValid(form: Form)
    ensures |Validate(form)| == 0 ==> FormValid(form)
  {
    if |Validate(form)| == 0 {
      ValidateReports(form);
      ClientEmailOkIff(form.email);
      assert Validate(form) == map[];
    }
  }

  lemma ValidMeansNoErrors(form: Form)
    ensures FormValid(form) ==> |Validate(form)| == 0
  {
    if FormValid(form) {
      ValidateReports(form);
      ClientEmailOkIff(form.email);
      assert Validate(form).Keys == {};
    }
  }

  /** The trimmed-length rule is stricter than the server's untrimmed one:
      a cover letter the modal accepts, the server accepts too. */
  lemma ClientCoverLetterStricter(c: string)
    requires Utf16Length(Trim(c)) >= MinCoverLetter
    ensures Utf16Length(c) >= Intake.MinCoverLetter
  {
    TrimUtf16Length(c);
  }

  /** The converse fails: 49 letters and a space pass the server's length
      check but not the modal's. */
  lemma PaddedCoverLetterSplitsRules()
    ensures var c := seq(49, _ => 'a') + [' '];
            Utf16Length(c) >= Intake.MinCoverLetter && Utf16Length(Trim(c)) < MinCoverLetter
  {
    var c := seq(49, _ => 'a') + [' '];
    var r := Trim(c);
  }

  /** The modal counts UTF-16 code units too: 25 astral characters, such
      as U+1F600, make a cover letter long enough. */
  lemma AstralCoverLetterAccepted(form: Form)
    requires form.coverLetter == seq(25, _ => '\U{1F600}')
    ensures "coverLetter" !in Validate(form)
  {
    var c := form.coverLetter;
    assert !IsSpace(c[0]) && !IsSpace(c[24]);
    TrimFixedIff(c);
    assert IsAstral('\U{1F600}');
    ValidateReports(form);
  }

  /** `application` as built in `handleSubmit`. */
  function BuildApplication(job: Job, form: Form, appliedAt: string): (app: map<string, Json>)
    ensures app.Keys == {"jobId", "jobTitle", "company", "firstName", "lastName", "email",
                         "phone", "coverLetter", "resumeFileName", "appliedAt"}
  {
    map[
      "jobId" := JNum(job.id),
      "jobTitle" := JStr(job.title),
      "company" := JStr(job.company),
      "firstName" := JStr(form.firstName),
      "lastName" := JStr(form.lastName),
      "email" := JStr(form.email),
      "phone" := JStr(form.phone),
      "coverLetter" := JStr(form.coverLetter),
      "resumeFileName" := if form.resume.Some? && form.resume.value.name != "" then JStr(form.resume.value.name) else JNull,
      "appliedAt" := JStr(appliedAt)]
  }

  /** The built application copies the form verbatim, names the resume or
      holds null, and sends the job id as a number. */
  lemma ApplicationCopiesForm(job: Job, form: Form, appliedAt: string)
    ensures var app := BuildApplication(job, form, appliedAt);
            && app["firstName"] == JStr(form.firstName)
            && app["lastName"] == JStr(form.lastName)
            && app["email"] == JStr(form.email)
            && app["phone"] == JStr(form.phone)
            && app["coverLetter"] == JStr(form.coverLetter)
            && app["jobId"] == JNum(job.id)
            && app["jobTitle"] == JStr(job.title)
            && app["company"] == JStr(job.company)
            && app["appliedAt"] == JStr(appliedAt)
            && (app["resumeFileName"] == JNull <==> form.resume.None? || form.resume.value.name == "")
            && (form.resume.Some? && form.resume.value.name != "" ==>
                  app["resumeFileName"] == JStr(form.resume.value.name))
  {
  }

  /** No application the modal sends can be accepted by the server. Once
      the five text fields are non-blank, which holds for every form that
      passes `validateForm` (`ValidFormNonBlank`), they pass the server's
      loop; then the numeric `jobId` has no `trim` and the handler answers
      500, or 400 for job id 0. */
  lemma ModalApplicationNeverAccepted(job: Job, form: Form, appliedAt: string, now: nat, suffix: string, stamp: string)
    requires !IsBlank(form.firstName) && !IsBlank(form.lastName) && !IsBlank(form.email)
    requires !IsBlank(form.phone) && !IsBlank(form.coverLetter)
    ensures Intake.Submit(Intake.Parsed(JObject(BuildApplication(job, form, appliedAt))), now, suffix, stamp)
            == (if job.id != 0 then Intake.Failed else Intake.Rejected("jobId is required"))
  {
    var app := BuildApplication(job, form, appliedAt);
    ApplicationStatuses(job, form, appliedAt);
    var st := Intake.Status(Intake.Lookup(app, "jobId"));
    assert !st.Present?;
    Intake.FirstFailingFieldReported(app, 5, now, suffix, stamp);
    JobIdRequiredMessage();
    assert Intake.FailureOf("jobId", st) == (if job.id != 0 then Intake.Failed else Intake.Rejected("jobId is required"));
  }

  /** The message the field loop builds for `jobId`, spelled out. The
      concatenation is proved here on its own: unfolding it inside
      `ModalApplicationNeverAccepted` costs the solver far more. */
  lemma JobIdRequiredMessage()
    ensures "jobId" + " is required" == "jobId is required"
  {
  }

  /** A form without errors has five non-blank text fields. */
  lemma ValidFormNonBlank(form: Form)
    ensures |Validate(form)| == 0 ==>
              && !IsBlank(form.firstName) && !IsBlank(form.lastName) && !IsBlank(form.email)
              && !IsBlank(form.phone) && !IsBlank(form.coverLetter)
  {
    if |Validate(form)| == 0 {
      ValidateReports(form);
      assert Validate(form).Keys == {};
    }
  }

  /** How the server's required-field loop sees a built application. */
  lemma ApplicationStatuses(job: Job, form: Form, appliedAt: string)
    requires !IsBlank(form.firstName) && !IsBlank(form.lastName) && !IsBlank(form.email)
    requires !IsBlank(form.phone) && !IsBlank(form.coverLetter)
    ensures forall i :: 0 <= i < 5 ==>
              Intake.Status(Intake.Lookup(BuildApplication(job, form, appliedAt), Intake.RequiredFields[i])).Present?
    ensures Intake.RequiredFields[5] == "jobId"
    ensures Intake.Status(Intake.Lookup(BuildApplication(job, form, appliedAt), "jobId"))
            == (if job.id != 0 then Intake.Throws else Intake.Missing)
  {
    var app := BuildApplication(job, form, appliedAt);
    ApplicationCopiesForm(job, form, appliedAt);
    TextPresent(app, "firstName", form.firstName);
    TextPresent(app, "lastName", form.lastName);
    TextPresent(app, "email", form.email);
    TextPresent(app, "phone", form.phone);
    TextPresent(app, "coverLetter", form.coverLetter);
    TextFieldsPresent(app);
    assert Intake.Lookup(app, "jobId") == Some(JNum(job.id));
  }

  /** The first five required fields, by name. */
  lemma TextFieldsPresent(app: map<string, Json>)
    requires Intake.Status(Intake.Lookup(app, "firstName")).Present?
    requires Intake.Status(Intake.Lookup(app, "lastName")).Present?
    requires Intake.Status(Intake.Lookup(app, "email")).Present?
    requires Intake.Status(Intake.Lookup(app, "phone")).Present?
    requires Intake.Status(Intake.Lookup(app, "coverLetter")).Present?
    ensures forall i :: 0 <= i < 5 ==> Intake.Status(Intake.Lookup(app, Intake.RequiredFields[i])).Present?
  {
    var f := Intake.RequiredFields;
    assert f[0] == "firstName" && f[1] == "lastName" && f[2] == "email" && f[3] == "phone" && f[4] == "coverLetter";
    forall i | 0 <= i < 5 ensures Intake.Status(Intake.Lookup(app, f[i])).Present? {
      assert i == 0 || i == 1 || i == 2 || i == 3 || i == 4;
    }
  }

  /** A non-blank string field is present for the server. */
  lemma TextPresent(app: map<string, Json>, key: string, text: string)
    requires key in app && app[key] == JStr(text) && !IsBlank(text)
    ensures Intake.Status(Intake.Lookup(app, key)).Present?
  {
  }

  /** What `onSubmit` did with the application. */
  datatype SubmitResult = Succeeded | Unsuccessful | Threw

  const SubmitFailed := "Failed to submit application. Please try again."

  /** `handleSubmit`: an invalid form only shows its errors; a valid one is
      sent, and the result marks the modal submitted, leaves it as it was,
      or shows the submit error. The second component is the application
      sent, if any. */
  function HandleSubmit(st: ModalState, job: Job, appliedAt: string, result: SubmitResult)
    : (r: (ModalState, Option<map<string, Json>>))
    ensures r.1.Some? <==> |Validate(st.form)| == 0
    ensures r.1.Some? ==> r.1.value == BuildApplication(job, st.form, appliedAt)
    ensures r.1.None? ==> r.0 == st.(errors := Validate(st.form))
    ensures r.1.Some? ==> !r.0.isSubmitting && r.0.form == st.form
    ensures r.1.Some? ==> (r.0.isSubmitted <==> result == Succeeded || st.isSubmitted)
    ensures r.1.Some? && result == Threw ==> r.0.errors == map["submit" := SubmitFailed]
    ensures r.1.Some? && result != Threw ==> r.0.errors == map[]
  {
    var (checked, ok) := ValidateForm(st);
    if !ok then (checked, None)
    else
      var app := BuildApplication(job, st.form, appliedAt);
      var after := match result
        case Succeeded => checked.(isSubmitted := true)
        case Unsuccessful => checked
        case Threw => checked.(errors := map["submit" := SubmitFailed]);
      (after.(isSubmitting := false), Some(app))
  }

  /** `handleClose`: ignored while a submission is in flight; otherwise the
      modal returns to its initial state. */
  function HandleClose(st: ModalState): (r: ModalState)
    ensures st.isSubmitting ==> r == st
    ensures !st.isSubmitting ==> r == InitialModal
  {
    if st.isSubmitting then st
    else ModalState(EmptyForm, map[], false, false)
  }

  /** Closing twice is closing once. */
  lemma HandleCloseIdempotent(st: ModalState)
    ensures HandleClose(HandleClose(st)) == HandleClose(st)
  {
  }
}
