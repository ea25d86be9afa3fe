/** The newsletter subscription form (`src/components/subscription-form.tsx`):
    an email address, written to `user_subscriptions`. */
module SubscriptionForm {
  import opened Base
  import opened FormFlow

  /** The only field. */
  datatype SubscriptionField = Email

  datatype SubscriptionValues = SubscriptionValues(email: string)

  /** `defaultValues: { email: '' }`. */
  const Defaults: SubscriptionValues := SubscriptionValues("")

  /** `subscriptionSchema`: the contents are accepted exactly when the email
      passes zod's `.email()` check (`isEmail`); they pass through
      unchanged, and a rejection reports the email field. */
  function Validate(v: SubscriptionValues, isEmail: string -> bool)
    : (r: Result<SubscriptionValues, set<SubscriptionField>>)
    ensures r.Ok? <==> isEmail(v.email)
    ensures r.Ok? ==> r.value == v
    ensures r.Err? ==> r.error == {Email}
  {
    if isEmail(v.email) then Ok(v) else Err({Email})
  }

  /** `{ email: data.email, subscribedAt: serverTimestamp() }`. */
  datatype SubscriptionRecord = SubscriptionRecord(email: string, subscribedAt: ServerTimestamp)

  function SubscriptionDocument(d: SubscriptionValues): (r: SubscriptionRecord)
    ensures r.subscribedAt == ServerTimestamp
    ensures SubscriptionValues(r.email) == d
  {
    SubscriptionRecord(d.email, ServerTimestamp)
  }

  /** Different addresses give different records. */
  lemma SubscriptionDocumentInjective(d1: SubscriptionValues, d2: SubscriptionValues)
    ensures SubscriptionDocument(d1) == SubscriptionDocument(d2) ==> d1 == d2
  {
    assert SubscriptionValues(SubscriptionDocument(d1).email) == d1;
  }

  const Collection: string := "user_subscriptions"
  const ErrorTitle: Text := Translated("SubscriptionForm.errorTitle")
  const SuccessToast: Toast :=
    Toast(Translated("SubscriptionForm.successTitle"), Translated("Actions.subscription.success"), false)

  /** `error.message || 'An unexpected error occurred.'`. */
  const FailureStyle: ErrorStyle := MessageOr("An unexpected error occurred.")

  /** The failure toast always has a description: the message, or the
      fallback when the message is empty. */
  lemma FailureDescriptionNonEmpty(message: string)
    ensures Describe(FailureStyle, message) != Literal("")
    ensures message == "" ==> Describe(FailureStyle, message) == Literal("An unexpected error occurred.")
  {
  }

  /** The component's state: `useForm`'s values and errors and `isSubmitting`. */
  type SubscriptionFormState = Form<SubscriptionValues, SubscriptionField, SubscriptionRecord>

  /** `onSubmit`: one run of the common handler flow writing the record to
      `user_subscriptions`. */
  method OnSubmit(form: SubscriptionFormState, data: SubscriptionValues, db: bool, outcome: WriteOutcome)
    modifies form
    ensures form.log == old(form.log) + HandlerTrace(db, Collection, SubscriptionDocument(data), outcome,
                                                     ErrorTitle, SuccessToast, FailureStyle)
    ensures form.isSubmitting == (if db then false else old(form.isSubmitting))
    ensures form.values == (if db && outcome.Succeeded? then form.defaults else old(form.values))
    ensures form.errors == (if db && outcome.Succeeded? then {} else old(form.errors))
  {
    form.Run(db, Collection, SubscriptionDocument(data), outcome, ErrorTitle, SuccessToast, FailureStyle);
  }

  /** `handleSubmit(onSubmit)`: an address that fails the check only marks
      the email field; a valid one clears the errors and runs `onSubmit`. */
  method HandleSubmit(form: SubscriptionFormState, isEmail: string -> bool, db: bool, outcome: WriteOutcome)
    modifies form
    ensures !isEmail(old(form.values).email) ==>
      form.errors == {Email} &&
      form.log == old(form.log) && form.values == old(form.values) &&
      form.isSubmitting == old(form.isSubmitting)
    ensures isEmail(old(form.values).email) ==>
      form.errors == {} &&
      form.log == old(form.log) + HandlerTrace(db, Collection, SubscriptionDocument(old(form.values)),
                                               outcome, ErrorTitle, SuccessToast, FailureStyle) &&
      form.isSubmitting == (if db then false else old(form.isSubmitting)) &&
      form.values == (if db && outcome.Succeeded? then form.defaults else old(form.values))
  {
    var checked := Validate(form.values, isEmail);
    match checked {
      case Err(failing) =>
        form.errors := failing;
      case Ok(data) =>
        form.errors := {};
        OnSubmit(form, data, db, outcome);
    }
  }
}
