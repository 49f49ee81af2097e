/** The `app` slice of the Redux store: loading and error flags, cached data,
    and the status machine of a contact-form submission driven by the pending,
    fulfilled and rejected outcomes of the `submitContactForm` thunk. */
module AppSlice {
  import opened Wrappers

  /** `contactSubmissionStatus`. */
  datatype SubmissionStatus = Idle | Loading | Succeeded | Failed

  /** The fields of a contact form, by name. */
  type ContactFormData = map<string, string>

  datatype AppState = AppState(
    isLoading: bool,
    error: Option<string>,
    portfolioData: Option<map<string, string>>,
    contactFormData: Option<ContactFormData>,
    hasLoadedInitially: bool,
    status: SubmissionStatus,
    message: string)

  const InitialState := AppState(true, None, None, None, false, Idle, "")

  const REJECTED_ERROR := "Failed to submit contact form"
  const REJECTED_MESSAGE := "Failed to send your message. Please try again."

  /** `s` and `r` agree on every field but the submission status and message. */
  predicate SameButSubmission(s: AppState, r: AppState) {
    r == s.(status := r.status, message := r.message)
  }

  function SetLoading(s: AppState, on: bool): (r: AppState)
    ensures r.isLoading == on && r == s.(isLoading := r.isLoading)
  {
    s.(isLoading := on)
  }

  function SetError(s: AppState, e: Option<string>): (r: AppState)
    ensures r.error == e && r == s.(error := r.error)
  {
    s.(error := e)
  }

  function SetPortfolioData(s: AppState, d: map<string, string>): (r: AppState)
    ensures r.portfolioData == Some(d) && r == s.(portfolioData := r.portfolioData)
  {
    s.(portfolioData := Some(d))
  }

  function SetContactFormData(s: AppState, d: ContactFormData): (r: AppState)
    ensures r.contactFormData == Some(d) && r == s.(contactFormData := r.contactFormData)
  {
    s.(contactFormData := Some(d))
  }

  function SetHasLoadedInitially(s: AppState, on: bool): (r: AppState)
    ensures r.hasLoadedInitially == on && r == s.(hasLoadedInitially := r.hasLoadedInitially)
  {
    s.(hasLoadedInitially := on)
  }

  function ClearError(s: AppState): (r: AppState)
    ensures r.error.None? && r == s.(error := r.error)
  {
    s.(error := None)
  }

  function ResetSubmissionStatus(s: AppState): (r: AppState)
    ensures SameButSubmission(s, r)
    ensures r.status == InitialState.status && r.message == InitialState.message
  {
    s.(status := Idle, message := "")
  }

  /** The thunk has started: loading, with error and message cleared. */
  function SubmitPending(s: AppState): (r: AppState)
    ensures r.status == Loading && r.error.None? && r.message == ""
    ensures r == s.(status := r.status, error := r.error, message := r.message)
  {
    s.(status := Loading, error := None, message := "")
  }

  /** The thunk resolved with the mail service's `{success, message}` payload. */
  function SubmitFulfilled(s: AppState, success: bool, message: string): (r: AppState)
    ensures r.status == Succeeded <==> success
    ensures r.status == Failed <==> !success
    ensures r.message == message
    ensures r.error == (if success then s.error else Some(message))
    ensures r == s.(status := r.status, error := r.error, message := r.message)
  {
    var s' := s.(status := if success then Succeeded else Failed, message := message);
    if success then s' else s'.(error := Some(message))
  }

  /** The thunk threw; `thrown` is the error's message, if it had one. An empty
      message falls back to the default text like a missing one. */
  function SubmitRejected(s: AppState, thrown: Option<string>): (r: AppState)
    ensures r.status == Failed && r.message == REJECTED_MESSAGE
    ensures thrown.Some? && thrown.value != "" ==> r.error == thrown
    ensures thrown.None? || thrown.value == "" ==> r.error == Some(REJECTED_ERROR)
    ensures r == s.(status := r.status, error := r.error, message := r.message)
  {
    var e := if thrown.Some? && thrown.value != "" then thrown.value else REJECTED_ERROR;
    s.(status := Failed, error := Some(e), message := REJECTED_MESSAGE)
  }

  datatype Event =
    | SetLoadingEvent(on: bool)
    | SetErrorEvent(e: Option<string>)
    | SetPortfolioDataEvent(d: map<string, string>)
    | SetContactFormDataEvent(f: ContactFormData)
    | SetHasLoadedInitiallyEvent(on: bool)
    | ClearErrorEvent
    | ResetSubmissionStatusEvent
    | PendingEvent
    | FulfilledEvent(success: bool, message: string)
    | RejectedEvent(thrown: Option<string>)

  /** The events the contact-form thunk and `resetSubmissionStatus` produce. */
  predicate Submits(e: Event) {
    e.ResetSubmissionStatusEvent? || e.PendingEvent? || e.FulfilledEvent? || e.RejectedEvent?
  }

  /** The slice's reducer, plain reducers and thunk cases together. Each field
      has its own events; the submission cycle touches only the status, the
      message and the error, never `isLoading`. */
  function Reduce(s: AppState, e: Event): (r: AppState)
    ensures !e.SetLoadingEvent? ==> r.isLoading == s.isLoading
    ensures !e.SetPortfolioDataEvent? ==> r.portfolioData == s.portfolioData
    ensures !e.SetContactFormDataEvent? ==> r.contactFormData == s.contactFormData
    ensures !e.SetHasLoadedInitiallyEvent? ==> r.hasLoadedInitially == s.hasLoadedInitially
    ensures !Submits(e) ==> r.status == s.status && r.message == s.message
    ensures !Submits(e) && !e.SetErrorEvent? && !e.ClearErrorEvent? ==> r.error == s.error
    ensures e.ResetSubmissionStatusEvent? ==> r.error == s.error
    // What each event does to its own fields.
    ensures e.SetLoadingEvent? ==> r.isLoading == e.on
    ensures e.SetErrorEvent? ==> r.error == e.e
    ensures e.SetPortfolioDataEvent? ==> r.portfolioData == Some(e.d)
    ensures e.SetContactFormDataEvent? ==> r.contactFormData == Some(e.f)
    ensures e.SetHasLoadedInitiallyEvent? ==> r.hasLoadedInitially == e.on
    ensures e.ClearErrorEvent? ==> r.error.None?
    ensures e.ResetSubmissionStatusEvent? ==> r.status == Idle && r.message == ""
    ensures e.PendingEvent? ==> r.status == Loading && r.error.None? && r.message == ""
    ensures e.FulfilledEvent? ==>
      && r.status == (if e.success then Succeeded else Failed)
      && r.message == e.message
      && r.error == (if e.success then s.error else Some(e.message))
    ensures e.RejectedEvent? ==>
      && r.status == Failed && r.message == REJECTED_MESSAGE
      && r.error == Some(if e.thrown.Some? && e.thrown.value != "" then e.thrown.value else REJECTED_ERROR)
  {
    match e
    case SetLoadingEvent(on) => SetLoading(s, on)
    case SetErrorEvent(err) => SetError(s, err)
    case SetPortfolioDataEvent(d) => SetPortfolioData(s, d)
    case SetContactFormDataEvent(f) => SetContactFormData(s, f)
    case SetHasLoadedInitiallyEvent(on) => SetHasLoadedInitially(s, on)
    case ClearErrorEvent => ClearError(s)
    case ResetSubmissionStatusEvent => ResetSubmissionStatus(s)
    case PendingEvent => SubmitPending(s)
    case FulfilledEvent(ok, m) => SubmitFulfilled(s, ok, m)
    case RejectedEvent(t) => SubmitRejected(s, t)
  }

  function Run(s: AppState, events: seq<Event>): AppState
    decreases |events|
  {
    if |events| == 0 then s else Run(Reduce(s, events[0]), events[1..])
  }

  /** The events that move the submission status. */
  predicate MovesStatus(e: Event) {
    e.ResetSubmissionStatusEvent? || e.PendingEvent? || e.FulfilledEvent? || e.RejectedEvent?
  }

  /** The status a status-moving event leads to, whatever the state before. */
  function StatusAfter(e: Event): SubmissionStatus
    requires MovesStatus(e)
  {
    if e.ResetSubmissionStatusEvent? then Idle
    else if e.PendingEvent? then Loading
    else if e.FulfilledEvent? then (if e.success then Succeeded else Failed)
    else Failed
  }

  /** The submission status is decided by the last status-moving event alone;
      with none, it is the status before. */
  lemma {:induction false} StatusFollowsLastMove(s: AppState, events: seq<Event>)
    ensures (forall i :: 0 <= i < |events| ==> !MovesStatus(events[i])) ==> Run(s, events).status == s.status
    ensures forall k :: 0 <= k < |events| && MovesStatus(events[k]) && (forall i :: k < i < |events| ==> !MovesStatus(events[i])) ==>
      Run(s, events).status == StatusAfter(events[k])
    decreases |events|
  {
    if |events| > 0 {
      var s' := Reduce(s, events[0]);
      StatusFollowsLastMove(s', events[1..]);
      assert forall i :: 1 <= i < |events| ==> events[1..][i - 1] == events[i];
      forall k | 0 <= k < |events| && MovesStatus(events[k]) && (forall i :: k < i < |events| ==> !MovesStatus(events[i]))
        ensures Run(s, events).status == StatusAfter(events[k])
      {
        if k > 0 {
          assert MovesStatus(events[1..][k - 1]);
        } else {
          assert forall i :: 0 <= i < |events[1..]| ==> !MovesStatus(events[1..][i]);
        }
      }
    }
  }

  /** While no outcome has arrived (idle or loading) the user-facing message is empty. */
  ghost predicate QuietUntilOutcome(s: AppState) {
    s.status in {Idle, Loading} ==> s.message == ""
  }

  /** Every reachable state keeps the message empty until an outcome arrives. */
  lemma {:induction false} QuietUntilOutcomeHolds(s: AppState, events: seq<Event>)
    requires QuietUntilOutcome(s)
    ensures QuietUntilOutcome(Run(s, events))
    decreases |events|
  {
    if |events| > 0 {
      QuietUntilOutcomeHolds(Reduce(s, events[0]), events[1..]);
    }
  }

  lemma InitialIsQuiet()
    ensures QuietUntilOutcome(InitialState)
    ensures InitialState.isLoading && InitialState.status == Idle && InitialState.error.None?
  {
  }

  /** A failed outcome always leaves an error behind; a successful one keeps the
      error of the state before, which a pending step has cleared. */
  lemma PendingThenOutcome(s: AppState, success: bool, message: string)
    ensures var r := SubmitFulfilled(SubmitPending(s), success, message);
      (r.error.None? <==> success) && r.message == message
  {
  }
}
