/** The contact form (`src/components/contact-form.tsx`): its schema and the
    submit handler writing the message to `contact_messages`. */
module ContactForm {
  import opened Base
  import opened JsString
  import opened FormFlow

  /** The form's fields, in schema order. */
  datatype ContactField = Name | Email | Subject | Message

  /** The form contents; every input holds a string. */
  datatype ContactValues = ContactValues(name: string, email: string, subject: string, message: string)

  /** `defaultValues`: every input empty. */
  const Defaults: ContactValues := ContactValues("", "", "", "")

  const AllFields: seq<ContactField> := [Name, Email, Subject, Message]

  /** Whether field `f` of `v` passes its rule; `isEmail` stands for zod's
      `.email()` check. */
  predicate FieldOk(v: ContactValues, f: ContactField, isEmail: string -> bool) {
    match f
    case Name => JsLength(v.name) >= 2
    case Email => isEmail(v.email)
    case Subject => JsLength(v.subject) >= 5
    case Message => JsLength(v.message) >= 10
  }

  /** The fields that fail their rule. */
  function FailingFields(v: ContactValues, isEmail: string -> bool): set<ContactField> {
    set f | f in AllFields && !FieldOk(v, f, isEmail)
  }

  lemma AllFieldsListed()
    ensures forall f: ContactField :: f in AllFields
  {
    forall f: ContactField ensures f in AllFields {
      match f
      case Name => case Email => case Subject => case Message =>
    }
  }

  /** `contactSchema`: the contents are accepted exactly when the name has
      at least 2 characters, the email passes the check, the subject has at
      least 5 and the message at least 10; accepted contents pass through
      unchanged, rejected ones report a non-empty set of failing fields. */
  function Validate(v: ContactValues, isEmail: string -> bool): (r: Result<ContactValues, set<ContactField>>)
    ensures r.Ok? <==>
      JsLength(v.name) >= 2 && isEmail(v.email) &&
      JsLength(v.subject) >= 5 && JsLength(v.message) >= 10
    ensures r.Ok? ==> r.value == v
    ensures r.Err? ==> r.error != {}
  {
    var failing := FailingFields(v, isEmail);
    AllFieldsListed();
    if failing == {} then
      assert Name !in failing && Email !in failing && Subject !in failing && Message !in failing;
      Ok(v)
    else
      Err(failing)
  }

  /** A rejection reports exactly the fields that fail their rule. */
  lemma RejectionNamesFailingFields(v: ContactValues, f: ContactField, isEmail: string -> bool)
    ensures Validate(v, isEmail).Err? ==>
      (f in Validate(v, isEmail).error <==> !FieldOk(v, f, isEmail))
    ensures !FieldOk(v, f, isEmail) ==> Validate(v, isEmail).Err?
  {
    AllFieldsListed();
  }

  /** The empty form is rejected on its name, subject and message, whatever
      the email check says. */
  lemma DefaultsRejected(isEmail: string -> bool)
    ensures Validate(Defaults, isEmail).Err?
    ensures var e := Validate(Defaults, isEmail).error;
      Name in e && Subject in e && Message in e
  {
    AllFieldsListed();
  }

  /** `{ ...data, sentAt: serverTimestamp() }`: the stored message. */
  datatype ContactMessage = ContactMessage(
    name: string, email: string, subject: string, message: string, sentAt: ServerTimestamp)

  function MessageDocument(d: ContactValues): (m: ContactMessage)
    ensures m.sentAt == ServerTimestamp
    ensures MessageData(m) == d
  {
    ContactMessage(d.name, d.email, d.subject, d.message, ServerTimestamp)
  }

  /** The submitted contents a stored message carries. */
  function MessageData(m: ContactMessage): ContactValues {
    ContactValues(m.name, m.email, m.subject, m.message)
  }

  /** Two different submissions never give the same stored message. */
  lemma MessageDocumentInjective(d1: ContactValues, d2: ContactValues)
    ensures MessageDocument(d1) == MessageDocument(d2) ==> d1 == d2
  {
    assert MessageData(MessageDocument(d1)) == d1;
  }

  const Collection: string := "contact_messages"
  const ErrorTitle: Text := Translated("ContactForm.errorTitle")
  const SuccessToast: Toast :=
    Toast(Translated("ContactForm.successTitle"), Translated("Actions.contact.success"), false)

  /** The failure toast shows `error.message` as it is. */
  const FailureStyle: ErrorStyle := MessageAsIs

  /** The component's state: `useForm`'s values and errors and `isSubmitting`. */
  type ContactFormState = Form<ContactValues, ContactField, ContactMessage>

  /** `onSubmit`: one run of the common handler flow writing the message to
      `contact_messages`. */
  method OnSubmit(form: ContactFormState, data: ContactValues, db: bool, outcome: WriteOutcome)
    modifies form
    ensures form.log == old(form.log) + HandlerTrace(db, Collection, MessageDocument(data), outcome,
                                                     ErrorTitle, SuccessToast, FailureStyle)
    ensures form.isSubmitting == (if db then false else old(form.isSubmitting))
    ensures form.values == (if db && outcome.Succeeded? then form.defaults else old(form.values))
    ensures form.errors == (if db && outcome.Succeeded? then {} else old(form.errors))
  {
    form.Run(db, Collection, MessageDocument(data), outcome, ErrorTitle, SuccessToast, FailureStyle);
  }

  /** `handleSubmit(onSubmit)`: the schema runs first; rejected contents
      only record the failing fields, accepted ones clear them and run
      `onSubmit`. */
  method HandleSubmit(form: ContactFormState, isEmail: string -> bool, db: bool, outcome: WriteOutcome)
    modifies form
    ensures Validate(old(form.values), isEmail).Err? ==>
      form.errors == Validate(old(form.values), isEmail).error &&
      form.log == old(form.log) && form.values == old(form.values) &&
      form.isSubmitting == old(form.isSubmitting)
    ensures Validate(old(form.values), isEmail).Ok? ==>
      form.errors == {} &&
      form.log == old(form.log) + HandlerTrace(db, Collection, MessageDocument(old(form.values)),
                                               outcome, ErrorTitle, SuccessToast, FailureStyle) &&
      form.isSubmitting == (if db then false else old(form.isSubmitting)) &&
      form.values == (if db && outcome.Succeeded? then form.defaults else old(form.values))
  {
    var checked := Validate(form.values, isEmail);
    match checked {
      case Err(failing) =>
        form.errors := failing;
      case Ok(data) =>
        form.errors := {};
        OnSubmit(form, data, db, outcome);
    }
  }
}
