/**
 * The contact form of `components/sections/ContactSection.tsx`: the error
 * dictionary `validateForm` builds, the way an edit clears one error, the
 * attachment, and the trimmed payload sent on submit.
 * The file's size and its base64 text are parameters; the HTTP answer is one too.
 */
module ContactSection {
  import opened Wrappers
  import opened Strings

  /** `keyof ContactFormData`: the six text fields and the attachment. */
  datatype Field = FirstName | LastName | Email | PhoneNumber | Subject | Question | QuestionAttachments

  /** The property name of each field, which is also its key in the error dictionary. */
  function KeyOf(f: Field): string {
    match f
    case FirstName => "firstName"
    case LastName => "lastName"
    case Email => "email"
    case PhoneNumber => "phoneNumber"
    case Subject => "subject"
    case Question => "question"
    case QuestionAttachments => "questionAttachments"
  }

  predicate IsText(f: Field) { f != QuestionAttachments }

  /** 10 MB; a file of exactly this many bytes is accepted. */
  const MaxAttachmentSize: nat := 10 * 1024 * 1024

  const EmailRequired: string := "Email requis"
  const EmailInvalid: string := "Email invalide"
  const FileTooLarge: string := "Fichier trop volumineux (max 10MB)"

  /** The message of a required field other than the email, `None` for any other key. */
  function RequiredMessage(field: Field): (m: Option<string>)
    ensures m.Some? <==> IsText(field) && field != Email
  {
    match field
    case FirstName => Some("Prénom requis")
    case LastName => Some("Nom requis")
    case PhoneNumber => Some("Téléphone requis")
    case Subject => Some("Sujet requis")
    case Question => Some("Message requis")
    case _ => None
  }

  // ---------------------------------------------------------------------------
  // The email pattern
  // ---------------------------------------------------------------------------

  /** `[^\s@]`. */
  predicate PlainChar(c: char) { !IsWhitespace(c) && c != '@' }

  /**
   * `s` matches `/^[^\s@]+@[^\s@]+\.[^\s@]+$/` with its `@` at `i` and the
   * dot the pattern needs at `j`; every other character is plain.
   */
  ghost predicate EmailSplitAt(s: string, i: int, j: int) {
    0 < i && i + 1 < j && j + 1 < |s| && s[i] == '@' && s[j] == '.' &&
    (forall k :: 0 <= k < |s| && k != i ==> PlainChar(s[k]))
  }

  ghost predicate EmailShape(s: string) {
    exists i, j :: EmailSplitAt(s, i, j)
  }

  /** Every character is plain. */
  function AllPlain(s: string): bool {
    s == [] || (PlainChar(s[0]) && AllPlain(s[1..]))
  }

  lemma {:induction false} AllPlainMeans(s: string)
    ensures AllPlain(s) <==> forall k :: 0 <= k < |s| ==> PlainChar(s[k])
  {
    if s != [] {
      AllPlainMeans(s[1..]);
      assert forall k :: 1 <= k < |s| ==> s[1..][k - 1] == s[k];
    }
  }

  /** The pattern test: a non-empty plain part, an `@`, then a plain part with a dot that has a character on each side. */
  function EmailMatches(s: string): bool {
    '@' in s &&
    var i := IndexOf(s, '@');
    0 < i && i + 2 < |s| && AllPlain(s[..i]) && AllPlain(s[i + 1..]) && '.' in s[i + 2..|s| - 1]
  }

  /** The scanner accepts exactly the strings the pattern matches. */
  lemma EmailMatchesIffShape(s: string)
    ensures EmailMatches(s) <==> EmailShape(s)
  {
    if '@' in s {
      var i := IndexOf(s, '@');
      AllPlainMeans(s[..i]);
      AllPlainMeans(s[i + 1..]);
    }
    if EmailMatches(s) {
      var i := IndexOf(s, '@');
      var j := i + 2 + IndexOf(s[i + 2..|s| - 1], '.');
      assert forall k :: 0 <= k < i ==> s[..i][k] == s[k];
      assert forall k :: i < k < |s| ==> s[i + 1..][k - i - 1] == s[k];
      assert EmailSplitAt(s, i, j);
    }
    if EmailShape(s) {
      var i', j' :| EmailSplitAt(s, i', j');
      assert '@' in s by { assert s[i'] == '@'; }
      var i := IndexOf(s, '@');
      assert i == i' by { assert !PlainChar(s[i]); }
      assert s[i + 2..|s| - 1][j' - i - 2] == '.';
      assert forall k :: 0 <= k < i ==> s[..i][k] == s[k];
      assert forall k :: i < k < |s| ==> s[i + 1..][k - i - 1] == s[k];
    }
  }

  /** A blank value never matches: the pattern needs a non-whitespace character. */
  lemma BlankEmailNeverMatches(s: string)
    ensures IsBlank(s) ==> !EmailShape(s)
  {
    BlankIffAllWhitespace(s);
    if IsBlank(s) {
      forall i, j ensures !EmailSplitAt(s, i, j) {
        if 0 < |s| {
          assert IsWhitespace(s[0]);
        }
      }
    }
  }

  /** The pattern runs on the untrimmed value: a leading space is an invalid email. */
  lemma PaddedEmailIsInvalid(s: string)
    ensures !EmailShape(" " + s)
  {
    forall i, j ensures !EmailSplitAt(" " + s, i, j) {
      assert (" " + s)[0] == ' ';
    }
  }

  /** A matching email has no surrounding whitespace, so trimming it on submit changes nothing. */
  lemma MatchingEmailIsTrimmed(s: string)
    requires EmailShape(s)
    ensures Trim(s) == s
  {
    var i, j :| EmailSplitAt(s, i, j);
    assert PlainChar(s[0]) && PlainChar(s[|s| - 1]);
    TrimUntouched(s);
  }

  // ---------------------------------------------------------------------------
  // validateForm
  // ---------------------------------------------------------------------------

  /** `ContactFormData` without the attachment, which the form keeps apart. */
  datatype ContactData = ContactData(firstName: string, lastName: string, email: string, phoneNumber: string,
                                     subject: string, question: string)

  function FieldValue(values: ContactData, field: Field): string
    requires IsText(field)
  {
    match field
    case FirstName => values.firstName
    case LastName => values.lastName
    case Email => values.email
    case PhoneNumber => values.phoneNumber
    case Subject => values.subject
    case Question => values.question
  }

  /** `{ ...prev, [field]: value }`. */
  function WithField(values: ContactData, field: Field, value: string): (r: ContactData)
    requires IsText(field)
    ensures FieldValue(r, field) == value
    ensures forall f :: IsText(f) && f != field ==> FieldValue(r, f) == FieldValue(values, f)
  {
    match field
    case FirstName => values.(firstName := value)
    case LastName => values.(lastName := value)
    case Email => values.(email := value)
    case PhoneNumber => values.(phoneNumber := value)
    case Subject => values.(subject := value)
    case Question => values.(question := value)
  }

  /** The error `validateForm` records under `field`, if any. */
  function ErrorOf(values: ContactData, attachment: Option<nat>, field: Field): Option<string> {
    match field
    case Email =>
      if IsBlank(FieldValue(values, Email)) then Some(EmailRequired)
      else if !EmailMatches(FieldValue(values, Email)) then Some(EmailInvalid)
      else None
    case QuestionAttachments =>
      if attachment.Some? && attachment.value > MaxAttachmentSize then Some(FileTooLarge) else None
    case _ =>
      if IsBlank(FieldValue(values, field)) then RequiredMessage(field) else None
  }

  /**
   * What each key gets: a required field an error iff it is blank, the email
   * one iff it does not match (`"Email requis"` when blank), the attachment one
   * iff the file is larger than 10 MB.
   */
  lemma ErrorOfSpec(values: ContactData, attachment: Option<nat>, field: Field)
    ensures RequiredMessage(field).Some? ==>
      (ErrorOf(values, attachment, field).Some? <==> IsBlank(FieldValue(values, field))) &&
      (ErrorOf(values, attachment, field).Some? ==> ErrorOf(values, attachment, field) == RequiredMessage(field))
    ensures field == Email ==>
      (ErrorOf(values, attachment, field).Some? <==> !EmailShape(FieldValue(values, field))) &&
      (ErrorOf(values, attachment, field) == Some(EmailRequired) <==> IsBlank(FieldValue(values, field)))
    ensures field == QuestionAttachments ==>
      (ErrorOf(values, attachment, field).Some? <==> attachment.Some? && attachment.value > MaxAttachmentSize)
  {
    if field == Email {
      BlankEmailNeverMatches(FieldValue(values, field));
      EmailMatchesIffShape(FieldValue(values, field));
    }
  }

  /** The keys in the order `validateForm` checks them. */
  const CheckOrder: seq<Field> := [FirstName, LastName, Email, PhoneNumber, Subject, Question, QuestionAttachments]

  lemma CheckOrderListsAll(f: Field)
    ensures f in CheckOrder
  {
    match f
    case FirstName => assert CheckOrder[0] == f;
    case LastName => assert CheckOrder[1] == f;
    case Email => assert CheckOrder[2] == f;
    case PhoneNumber => assert CheckOrder[3] == f;
    case Subject => assert CheckOrder[4] == f;
    case Question => assert CheckOrder[5] == f;
    case QuestionAttachments => assert CheckOrder[6] == f;
  }

  /** Running the checks of `fields` in order, each recording its key's error when `err` gives one. */
  function ErrorsOver(err: Field -> Option<string>, fields: seq<Field>): map<Field, string>
    decreases |fields|
  {
    if fields == [] then map[]
    else
      var e := ErrorsOver(err, fields[..|fields| - 1]);
      var f := fields[|fields| - 1];
      if err(f).Some? then e[f := err(f).value] else e
  }

  /** The checks record exactly the listed keys that have an error, each with its message. */
  lemma {:induction false} ErrorsOverSpec(err: Field -> Option<string>, fields: seq<Field>)
    ensures forall f :: f in ErrorsOver(err, fields) <==> f in fields && err(f).Some?
    ensures forall f :: f in ErrorsOver(err, fields) ==> ErrorsOver(err, fields)[f] == err(f).value
    decreases |fields|
  {
    if fields != [] {
      var init := fields[..|fields| - 1];
      ErrorsOverSpec(err, init);
      assert fields == init + [fields[|fields| - 1]];
    }
  }

  function ErrorsFn(values: ContactData, attachment: Option<nat>): Field -> Option<string> {
    f => ErrorOf(values, attachment, f)
  }

  /** The error dictionary for the given field values and, when a file is attached, its size in bytes. */
  function ValidationErrors(values: ContactData, attachment: Option<nat>): map<Field, string> {
    ErrorsOver(ErrorsFn(values, attachment), CheckOrder)
  }

  /** The dictionary holds exactly the keys that have an error, each with its message. */
  lemma ValidationErrorsSpec(values: ContactData, attachment: Option<nat>)
    ensures forall f :: f in ValidationErrors(values, attachment) <==> ErrorOf(values, attachment, f).Some?
    ensures forall f :: f in ValidationErrors(values, attachment) ==>
      ValidationErrors(values, attachment)[f] == ErrorOf(values, attachment, f).value
  {
    ErrorsOverSpec(ErrorsFn(values, attachment), CheckOrder);
    forall f ensures f in CheckOrder {
      CheckOrderListsAll(f);
    }
  }

  /** A form with no error has six non-blank fields and a matching email that trimming leaves as typed. */
  lemma NoErrorsMeans(values: ContactData, attachment: Option<nat>)
    requires ValidationErrors(values, attachment) == map[]
    ensures forall f :: IsText(f) ==> !IsBlank(FieldValue(values, f))
    ensures EmailShape(FieldValue(values, Email)) && Trim(FieldValue(values, Email)) == FieldValue(values, Email)
    ensures attachment.Some? ==> attachment.value <= MaxAttachmentSize
  {
    var r := ValidationErrors(values, attachment);
    ValidationErrorsSpec(values, attachment);
    forall f | IsText(f) ensures !IsBlank(FieldValue(values, f)) {
      assert f !in r;
      ErrorOfSpec(values, attachment, f);
      BlankEmailNeverMatches(FieldValue(values, f));
    }
    assert Email !in r && QuestionAttachments !in r;
    ErrorOfSpec(values, attachment, Email);
    MatchingEmailIsTrimmed(FieldValue(values, Email));
  }

  /** Exactly 10 MB passes, one byte more fails. */
  lemma AttachmentLimit(values: ContactData)
    ensures QuestionAttachments !in ValidationErrors(values, Some(MaxAttachmentSize))
    ensures QuestionAttachments in ValidationErrors(values, Some(MaxAttachmentSize + 1))
  {
    ValidationErrorsSpec(values, Some(MaxAttachmentSize));
    ValidationErrorsSpec(values, Some(MaxAttachmentSize + 1));
  }

  // ---------------------------------------------------------------------------
  // The submitted data
  // ---------------------------------------------------------------------------

  datatype SubmitData = SubmitData(firstName: string, lastName: string, email: string, phoneNumber: string,
                                   subject: string, question: string, questionAttachments: string)

  /** `submitData`: every text field trimmed, the attachment's base64 text or `""` without a file. */
  function SubmitDataOf(values: ContactData, attachment: Option<nat>, encoded: string): SubmitData
  {
    SubmitData(Trim(FieldValue(values, FirstName)), Trim(FieldValue(values, LastName)),
               Trim(FieldValue(values, Email)), Trim(FieldValue(values, PhoneNumber)),
               Trim(FieldValue(values, Subject)), Trim(FieldValue(values, Question)),
               if attachment.Some? then encoded else "")
  }

  /** The submitted copy of a text field. */
  function SubmittedText(d: SubmitData, f: Field): string
    requires IsText(f)
  {
    match f
    case FirstName => d.firstName
    case LastName => d.lastName
    case Email => d.email
    case PhoneNumber => d.phoneNumber
    case Subject => d.subject
    case Question => d.question
  }

  /** What a validated form sends: no empty text field, the email exactly as validated, nothing left to trim. */
  lemma ValidFormSendsFilledData(values: ContactData, attachment: Option<nat>, encoded: string, f: Field)
    requires ValidationErrors(values, attachment) == map[]
    requires IsText(f)
    ensures SubmittedText(SubmitDataOf(values, attachment, encoded), f) != ""
    ensures Trim(SubmittedText(SubmitDataOf(values, attachment, encoded), f)) ==
            SubmittedText(SubmitDataOf(values, attachment, encoded), f)
    ensures SubmitDataOf(values, attachment, encoded).email == FieldValue(values, Email)
    ensures EmailShape(SubmitDataOf(values, attachment, encoded).email)
  {
    NoErrorsMeans(values, attachment);
    SentAsTrimmed(values, attachment, encoded, f);
    BlankIffTrimEmpty(FieldValue(values, f));
    TrimIdempotent(FieldValue(values, f));
  }

  lemma SentAsTrimmed(values: ContactData, attachment: Option<nat>, encoded: string, f: Field)
    requires IsText(f)
    ensures SubmittedText(SubmitDataOf(values, attachment, encoded), f) == Trim(FieldValue(values, f))
  {
    match f
    case FirstName =>
    case LastName =>
    case Email =>
    case PhoneNumber =>
    case Subject =>
    case Question =>
  }

  // ---------------------------------------------------------------------------
  // The form
  // ---------------------------------------------------------------------------

  /** The outcome of the POST: an answer with its status, or an exception (`None` for one that is not an `Error`). */
  datatype Response = Answered(ok: bool, status: int, statusText: string) | Thrown(thrownMessage: Option<string>)

  const EmptyValues: ContactData := ContactData("", "", "", "", "", "")

  /** The message shown for a failed submission. */
  function SubmitErrorOf(response: Response): (m: string)
    requires !(response.Answered? && response.ok)
    ensures response.Answered? ==> m == "Erreur " + IntToString(response.status) + ": " + response.statusText
    ensures response.Thrown? ==> m == response.thrownMessage.GetOr("Erreur inattendue")
  {
    match response
    case Answered(_, status, statusText) => "Erreur " + IntToString(status) + ": " + statusText
    case Thrown(message) => message.GetOr("Erreur inattendue")
  }

  /**
   * The body of `validateForm`: each check in turn, recording its key's error
   * when it fails; `err` is the rule of one key (`ErrorsFn` for the form).
   */
  method CollectErrors(err: Field -> Option<string>) returns (newErrors: map<Field, string>)
    ensures newErrors == ErrorsOver(err, CheckOrder)
  {
    newErrors := map[];
    assert CheckOrder[..0] == [];
    var firstName := err(FirstName);
    if firstName.Some? { newErrors := newErrors[FirstName := firstName.value]; }
    ErrorsOverStep(err, CheckOrder, 0);
    assert newErrors == ErrorsOver(err, CheckOrder[..1]);
    var lastName := err(LastName);
    if lastName.Some? { newErrors := newErrors[LastName := lastName.value]; }
    ErrorsOverStep(err, CheckOrder, 1);
    assert newErrors == ErrorsOver(err, CheckOrder[..2]);
    var email := err(Email);
    if email.Some? { newErrors := newErrors[Email := email.value]; }
    ErrorsOverStep(err, CheckOrder, 2);
    assert newErrors == ErrorsOver(err, CheckOrder[..3]);
    var phoneNumber := err(PhoneNumber);
    if phoneNumber.Some? { newErrors := newErrors[PhoneNumber := phoneNumber.value]; }
    ErrorsOverStep(err, CheckOrder, 3);
    assert newErrors == ErrorsOver(err, CheckOrder[..4]);
    var subject := err(Subject);
    if subject.Some? { newErrors := newErrors[Subject := subject.value]; }
    ErrorsOverStep(err, CheckOrder, 4);
    assert newErrors == ErrorsOver(err, CheckOrder[..5]);
    var question := err(Question);
    if question.Some? { newErrors := newErrors[Question := question.value]; }
    ErrorsOverStep(err, CheckOrder, 5);
    assert newErrors == ErrorsOver(err, CheckOrder[..6]);
    var attached := err(QuestionAttachments);
    if attached.Some? { newErrors := newErrors[QuestionAttachments := attached.value]; }
    ErrorsOverStep(err, CheckOrder, 6);
    assert newErrors == ErrorsOver(err, CheckOrder[..7]);
    assert CheckOrder[..7] == CheckOrder;
  }

  /** Checking one more field of the order adds its error, if any. */
  lemma ErrorsOverStep(err: Field -> Option<string>, fields: seq<Field>, k: nat)
    requires k < |fields|
    ensures ErrorsOver(err, fields[..k + 1]) ==
      if err(fields[k]).Some? then ErrorsOver(err, fields[..k])[fields[k] := err(fields[k]).value]
      else ErrorsOver(err, fields[..k])
  {
    assert fields[..k + 1][..k] == fields[..k];
  }

  class ContactForm {
    /** The text fields typed so far. */
    var values: ContactData
    /** The size in bytes of the attached file, if any. */
    var attachment: Option<nat>
    var errors: map<Field, string>
    var isSubmitting: bool
    var isSuccess: bool
    var submitError: Option<string>

    constructor()
      ensures values == EmptyValues && attachment.None? && errors == map[]
      ensures !isSubmitting && !isSuccess && submitError.None?
    {
      values := EmptyValues;
      attachment := None;
      errors := map[];
      isSubmitting := false;
      isSuccess := false;
      submitError := None;
    }

    /** The field shows an error: `errors[field]` is truthy. */
    predicate ShowsError(field: Field)
      reads this
    {
      field in errors && errors[field] != ""
    }

    /** `validateForm`: records a fresh error dictionary and tells whether it is empty. */
    method ValidateForm() returns (ok: bool)
      modifies this
      ensures errors == ValidationErrors(values, attachment)
      ensures ok <==> errors == map[]
      ensures values == old(values) && attachment == old(attachment)
      ensures isSubmitting == old(isSubmitting) && isSuccess == old(isSuccess) && submitError == old(submitError)
    {
      var newErrors := CollectErrors(ErrorsFn(values, attachment));
      errors := newErrors;
      ok := |newErrors| == 0;
    }

    /** `handleInputChange`: sets the field, and blanks its error if one is shown; no other error changes. */
    method HandleInputChange(field: Field, value: string)
      requires IsText(field)
      modifies this
      ensures values == WithField(old(values), field, value)
      ensures errors == if old(ShowsError(field)) then old(errors)[field := ""] else old(errors)
      ensures !ShowsError(field)
      ensures forall f :: f != field ==> (ShowsError(f) <==> old(ShowsError(f)))
      ensures attachment == old(attachment) && isSubmitting == old(isSubmitting)
      ensures isSuccess == old(isSuccess) && submitError == old(submitError)
    {
      values := WithField(values, field, value);
      if field in errors && errors[field] != "" {
        errors := errors[field := ""];
      }
    }

    /** `handleFileUpload`: a chosen file replaces the attachment and blanks a shown attachment error. */
    method HandleFileUpload(file: Option<nat>)
      modifies this
      ensures file.Some? ==> attachment == file
      ensures file.None? ==> attachment == old(attachment)
      ensures errors == if file.Some? && old(ShowsError(QuestionAttachments))
        then old(errors)[QuestionAttachments := ""] else old(errors)
      ensures values == old(values) && isSubmitting == old(isSubmitting)
      ensures isSuccess == old(isSuccess) && submitError == old(submitError)
    {
      if file.Some? {
        attachment := file;
        if QuestionAttachments in errors && errors[QuestionAttachments] != "" {
          errors := errors[QuestionAttachments := ""];
        }
      }
    }

    /** `removeFile`: drops the attachment; a size error stays shown until the next validation. */
    method RemoveFile()
      modifies this
      ensures attachment.None? && errors == old(errors) && values == old(values)
      ensures isSubmitting == old(isSubmitting) && isSuccess == old(isSuccess) && submitError == old(submitError)
    {
      attachment := None;
    }

    /**
     * `handleSubmit`: validates; an invalid form sends nothing. A valid one sends
     * the trimmed data (`encoded` is the file's base64 text) and either resets
     * the form and flags success, or shows the failure's message.
     */
    method Submit(encoded: string, response: Response) returns (sent: Option<SubmitData>)
      modifies this
      ensures errors == ValidationErrors(old(values), old(attachment))
      ensures sent.Some? <==> errors == map[]
      ensures sent.Some? ==> sent.value == SubmitDataOf(old(values), old(attachment), encoded)
      ensures sent.None? ==>
        (values == old(values) && attachment == old(attachment) && isSubmitting == old(isSubmitting) &&
         isSuccess == old(isSuccess) && submitError == old(submitError))
      ensures sent.Some? && response.Answered? && response.ok ==>
        values == EmptyValues && attachment.None? && isSuccess && submitError.None? && !isSubmitting
      ensures sent.Some? && !(response.Answered? && response.ok) ==>
        (values == old(values) && attachment == old(attachment) && isSuccess == old(isSuccess) &&
         submitError == Some(SubmitErrorOf(response)) && !isSubmitting)
    {
      var data := SubmitDataOf(values, attachment, encoded);
      var ok := ValidateForm();
      if !ok {
        return None;
      }
      isSubmitting := true;
      submitError := None;
      sent := Some(data);
      if response.Answered? && response.ok {
        values := EmptyValues;
        RemoveFile();
        isSuccess := true;
      } else {
        submitError := Some(SubmitErrorOf(response));
      }
      isSubmitting := false;
    }
  }
}
