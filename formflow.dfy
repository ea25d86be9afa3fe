/** What the three form submit handlers (opportunity submission, contact,
    newsletter subscription) have in common: each returns early with a
    "Database not available." toast when there is no database handle;
    otherwise it sets `isSubmitting`, asks for one document write, on
    success shows a success toast and resets the form, on failure shows an
    error toast, and in a `finally` clears `isSubmitting`. The write itself
    (Firestore) is abstracted to its outcome; the events a handler causes
    are recorded in order. */
module FormFlow {
  import JsString

  /** Text shown to the user: a literal string, or the message of a
      translation key, which the handler looks up with next-intl when it
      builds the toast. */
  datatype Text = Literal(s: string) | Translated(key: string)

  datatype Toast = Toast(title: Text, description: Text, destructive: bool)

  /** How the awaited write ended: it completed, or it threw an error whose
      `message` is given (the empty string stands for an absent message). */
  datatype WriteOutcome = Succeeded | Failed(message: string)

  /** The `serverTimestamp()` sentinel stored in a written document; the
      store replaces it with its own clock. */
  datatype ServerTimestamp = ServerTimestamp

  /** One observable step of a handler. */
  datatype Event<P> =
    | SubmittingSet(on: bool)
    | WriteRequested(collection: string, payload: P)
    | Notified(toast: Toast)
    | FormReset

  const DatabaseUnavailable: string := "Database not available."

  /** How a form turns the error's message into the toast description:
      `error.message || fallback`, or `error.message` as it is. */
  datatype ErrorStyle = MessageOr(fallback: string) | MessageAsIs

  function Describe(style: ErrorStyle, message: string): (t: Text)
    ensures style.MessageAsIs? ==> t == Literal(message)
    ensures style.MessageOr? && message != "" ==> t == Literal(message)
    ensures style.MessageOr? && message == "" ==> t == Literal(style.fallback)
  {
    match style
    case MessageOr(fallback) => Literal(JsString.Or(message, fallback))
    case MessageAsIs => Literal(message)
  }

  /** The toast every handler shows when there is no database handle. */
  function UnavailableToast(errorTitle: Text): Toast {
    Toast(errorTitle, Literal(DatabaseUnavailable), true)
  }

  /** The events of one run of a submit handler: a lone toast without a
      database handle; otherwise a run opened by setting `isSubmitting` and
      closed by clearing it, five events long after a successful write
      (write, toast, reset) and four after a failed one (write, toast). */
  function HandlerTrace<P>(db: bool, collection: string, payload: P, outcome: WriteOutcome,
                           errorTitle: Text, success: Toast, style: ErrorStyle): (t: seq<Event<P>>)
    ensures !db ==> |t| == 1 && t[0].Notified? && t[0].toast.destructive
    ensures db ==> |t| == (if outcome.Succeeded? then 5 else 4)
    ensures db ==> t[0] == SubmittingSet(true) && t[|t| - 1] == SubmittingSet(false)
  {
    if !db then [Notified(UnavailableToast(errorTitle))]
    else
      [SubmittingSet(true), WriteRequested(collection, payload)] +
      (match outcome
       case Succeeded => [Notified(success), FormReset]
       case Failed(message) => [Notified(Toast(errorTitle, Describe(style, message), true))]) +
      [SubmittingSet(false)]
  }

  /** What every run of a handler does, whichever form it belongs to. */
  lemma HandlerTraceProperties<P>(db: bool, collection: string, payload: P, outcome: WriteOutcome,
                                  errorTitle: Text, success: Toast, style: ErrorStyle)
    ensures var t := HandlerTrace(db, collection, payload, outcome, errorTitle, success, style);
      // No database handle: one error toast, nothing written, isSubmitting untouched.
      (!db ==> t == [Notified(UnavailableToast(errorTitle))]) &&
      // Otherwise the run is bracketed by setting and clearing isSubmitting ...
      (db ==> |t| == (if outcome.Succeeded? then 5 else 4)) &&
      (db ==> t[0] == SubmittingSet(true) && t[|t| - 1] == SubmittingSet(false)) &&
      (db ==> forall i :: 0 < i < |t| - 1 ==> !t[i].SubmittingSet?) &&
      // ... and asks for exactly one write, of the payload, to the collection.
      (forall i :: 0 <= i < |t| && t[i].WriteRequested? ==> i == 1 && db) &&
      (db ==> t[1] == WriteRequested(collection, payload)) &&
      // The form is reset exactly when the write succeeded, and after it.
      ((FormReset in t) <==> (db && outcome.Succeeded?)) &&
      (forall i :: 0 <= i < |t| && t[i] == FormReset ==> i == 3) &&
      // The toast after the write reports its outcome.
      (db && outcome.Failed? ==>
        t[2] == Notified(Toast(errorTitle, Describe(style, outcome.message), true))) &&
      (db && outcome.Succeeded? ==> t[2] == Notified(success))
  {
  }

  /** The value of `isSubmitting` after `events`, starting from `start`. */
  function SubmittingAfter<P>(start: bool, events: seq<Event<P>>): bool
    decreases events
  {
    if events == [] then start
    else SubmittingAfter(if events[0].SubmittingSet? then events[0].on else start, events[1..])
  }

  /** Replaying events one after the other. */
  lemma {:induction false} SubmittingAfterConcat<P>(start: bool, a: seq<Event<P>>, b: seq<Event<P>>)
    ensures SubmittingAfter(start, a + b) == SubmittingAfter(SubmittingAfter(start, a), b)
    decreases a
  {
    if a == [] {
      assert a + b == b;
    } else {
      assert (a + b)[1..] == a[1..] + b;
      SubmittingAfterConcat(if a[0].SubmittingSet? then a[0].on else start, a[1..], b);
    }
  }

  /** When a handler has run, `isSubmitting` is false again, unless there was
      no database handle, in which case it was never touched. */
  lemma HandlerClearsSubmitting<P>(start: bool, db: bool, collection: string, payload: P,
                                   outcome: WriteOutcome, errorTitle: Text, success: Toast,
                                   style: ErrorStyle)
    ensures SubmittingAfter(start, HandlerTrace(db, collection, payload, outcome, errorTitle, success, style))
         == (if db then false else start)
  {
    var t := HandlerTrace(db, collection, payload, outcome, errorTitle, success, style);
    if db {
      SubmittingAfterConcat(start, t[..|t| - 1], [SubmittingSet(false)]);
      assert t == t[..|t| - 1] + [SubmittingSet(false)];
    } else {
      assert t[1..] == [];
    }
  }

  /** The state a form component keeps: react-hook-form's current values
      and field errors, the `isSubmitting` flag of `useState`, and the
      events its handler has caused so far. */
  class Form<V, F(==), P> {
    /** The `defaultValues` given to `useForm`, which `reset()` restores. */
    const defaults: V
    var values: V
    var errors: set<F>
    var isSubmitting: bool
    var log: seq<Event<P>>

    constructor(defaults: V)
      ensures this.defaults == defaults
      ensures values == defaults && errors == {} && !isSubmitting && log == []
    {
      this.defaults := defaults;
      values := defaults;
      errors := {};
      isSubmitting := false;
      log := [];
    }

    /** One run of a submit handler with validated contents: the events are
        those of `HandlerTrace`, `isSubmitting` ends cleared when there was
        a database handle, and the values return to the defaults exactly
        when the write succeeded. */
    method Run(db: bool, collection: string, payload: P, outcome: WriteOutcome,
               errorTitle: Text, success: Toast, style: ErrorStyle)
      modifies this
      ensures log == old(log) + HandlerTrace(db, collection, payload, outcome, errorTitle, success, style)
      ensures isSubmitting == (if db then false else old(isSubmitting))
      ensures values == (if db && outcome.Succeeded? then defaults else old(values))
      ensures errors == (if db && outcome.Succeeded? then {} else old(errors))
    {
      if !db {
        log := log + [Notified(UnavailableToast(errorTitle))];
        return;
      }
      isSubmitting := true;
      var steps := [SubmittingSet(true), WriteRequested(collection, payload)];
      match outcome {
        case Succeeded =>
          steps := steps + [Notified(success)];
          values := defaults;
          errors := {};
          steps := steps + [FormReset];
        case Failed(message) =>
          steps := steps + [Notified(Toast(errorTitle, Describe(style, message), true))];
      }
      isSubmitting := false;
      steps := steps + [SubmittingSet(false)];
      log := log + steps;
    }
  }
}
