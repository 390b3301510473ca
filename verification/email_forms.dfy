/**
 * The four e-mail forms that talk to the newsletter webhooks (the newsletter
 * section, the subscribe page, the contact page's newsletter box and the
 * unsubscribe page) and the hero box that only validates. They share one
 * submit rule: an empty address and an address the pattern rejects are caught
 * locally, otherwise the webhook decides between success, a page-specific
 * decline message and a generic error for a thrown call.
 */
module EmailForms {
  import opened Wrappers
  import opened Js
  import opened Email

  const EmptyEmail := "Please enter your email address"
  const InvalidEmail := "Please enter a valid email address"
  const Unexpected := "An unexpected error occurred. Please try again."
  const SubscribeDeclined := "Failed to subscribe. Please try again."
  const UnsubscribeDeclined := "Failed to unsubscribe. Please try again."

  /** The form's state: the inputs, the success flag, the in-flight flag and the
      message under the input (`""` when there is none). */
  datatype FormState = FormState(email: string, name: string, done: bool, submitting: bool, error: string)

  /** How the webhook call settles: resolves `true`, resolves `false`, or throws. */
  datatype WebhookOutcome = Accepted | Declined | Throws

  /** The local checks run before any network call. */
  function EmailProblem(email: string): (r: Option<string>)
    ensures r.None? <==> email != "" && Matches(email)
    ensures email == "" ==> r == Some(EmptyEmail)
    ensures email != "" && !Matches(email) ==> r == Some(InvalidEmail)
  {
    if email == "" then Some(EmptyEmail)
    else if !Matches(email) then Some(InvalidEmail)
    else None
  }

  /** One submit and the state it leaves once the call settles. */
  datatype Submission = Submission(next: FormState, webhookCalled: bool)

  /** The shared `handleSubmit`: `outcome` is how the webhook call would settle,
      consulted only when the address passes the local checks. */
  function Submit(st: FormState, outcome: WebhookOutcome, declined: string): (r: Submission)
    requires declined != ""
    ensures r.webhookCalled <==> EmailProblem(st.email).None?
    ensures r.next.email == st.email && r.next.name == st.name
    ensures !r.webhookCalled ==> r.next == st.(error := EmailProblem(st.email).value)
    ensures r.webhookCalled ==> !r.next.submitting
    ensures r.next.done <==> st.done || (r.webhookCalled && outcome == Accepted)
    ensures r.next.error == "" <==> r.webhookCalled && outcome == Accepted
    ensures r.webhookCalled && outcome == Declined ==> r.next.error == declined
    ensures r.webhookCalled && outcome == Throws ==> r.next.error == Unexpected
  {
    match EmailProblem(st.email)
    case Some(problem) => Submission(st.(error := problem), false)
    case None =>
      var next := match outcome
        case Accepted => st.(done := true, submitting := false, error := "")
        case Declined => st.(submitting := false, error := declined)
        case Throws => st.(submitting := false, error := Unexpected);
      Submission(next, true)
  }

  /** The newsletter section, the subscribe page and the contact page's box all
      call the subscribe webhook with the address and the name. */
  function SubscribeSubmit(st: FormState, subscribe: (string, string) -> WebhookOutcome): (r: Submission)
    ensures r.webhookCalled <==> EmailProblem(st.email).None?
    ensures !r.webhookCalled ==> r.next == st.(error := EmailProblem(st.email).value)
    ensures r.next.done <==> st.done || (r.webhookCalled && subscribe(st.email, st.name) == Accepted)
    ensures r.next.error == "" <==> r.webhookCalled && subscribe(st.email, st.name) == Accepted
    ensures r.webhookCalled && subscribe(st.email, st.name) == Declined ==> r.next.error == SubscribeDeclined
    ensures r.webhookCalled && subscribe(st.email, st.name) == Throws ==> r.next.error == Unexpected
  {
    Submit(st, subscribe(st.email, st.name), SubscribeDeclined)
  }

  /** The unsubscribe page calls the unsubscribe webhook with the address only. */
  function UnsubscribeSubmit(st: FormState, unsubscribe: string -> WebhookOutcome): (r: Submission)
    ensures r.webhookCalled <==> EmailProblem(st.email).None?
    ensures !r.webhookCalled ==> r.next == st.(error := EmailProblem(st.email).value)
    ensures r.next.done <==> st.done || (r.webhookCalled && unsubscribe(st.email) == Accepted)
    ensures r.next.error == "" <==> r.webhookCalled && unsubscribe(st.email) == Accepted
    ensures r.webhookCalled && unsubscribe(st.email) == Declined ==> r.next.error == UnsubscribeDeclined
    ensures r.webhookCalled && unsubscribe(st.email) == Throws ==> r.next.error == Unexpected
  {
    Submit(st, unsubscribe(st.email), UnsubscribeDeclined)
  }

  /** The hero box validates the same way and then marks itself submitted without
      any network call. */
  function HeroSubmit(st: FormState): (r: FormState)
    ensures r.email == st.email && r.name == st.name && r.submitting == st.submitting
    ensures r.done <==> st.done || EmailProblem(st.email).None?
    ensures r.error == "" <==> EmailProblem(st.email).None?
  {
    match EmailProblem(st.email)
    case Some(problem) => st.(error := problem)
    case None => st.(done := true, error := "")
  }

  /** Typing into the address on the subscribe and unsubscribe pages clears the message. */
  function EditEmailClearing(st: FormState, value: string): (r: FormState)
    ensures r.email == value && r.error == ""
    ensures r.name == st.name && r.done == st.done && r.submitting == st.submitting
  {
    st.(email := value, error := "")
  }

  /** Typing into the address of the newsletter section or the contact page's box
      keeps the message until the next submit. */
  function EditEmailKeeping(st: FormState, value: string): (r: FormState)
    ensures r.email == value && r.error == st.error
    ensures r.name == st.name && r.done == st.done && r.submitting == st.submitting
  {
    st.(email := value)
  }

  /** Every address that reaches a webhook matches the pattern and so is not blank. */
  lemma WebhookSeesNonBlankAddress(st: FormState, outcome: WebhookOutcome, declined: string)
    requires declined != ""
    requires Submit(st, outcome, declined).webhookCalled
    ensures Matches(st.email) && Trim(st.email) != []
  {
    MatchImpliesNotBlank(st.email);
  }

  /** The state after a series of submits with the given outcomes: success is
      sticky, so no later submit undoes it whatever the webhook does. */
  function Replay(st: FormState, outcomes: seq<WebhookOutcome>, declined: string): (r: FormState)
    requires declined != ""
    ensures r.email == st.email && r.name == st.name
    ensures st.done ==> r.done
    ensures r.done <==> st.done || (EmailProblem(st.email).None? && Accepted in outcomes)
    decreases |outcomes|
  {
    if outcomes == [] then st
    else Replay(Submit(st, outcomes[0], declined).next, outcomes[1..], declined)
  }

  /** The hero box behaves like a form whose webhook always accepts and that is
      never in flight. */
  lemma HeroIsAnAlwaysAcceptingForm(st: FormState)
    requires !st.submitting
    ensures HeroSubmit(st) == Submit(st, Accepted, SubscribeDeclined).next
  {
  }

  /** A failed submit followed by typing on a clearing page leaves no message,
      while a keeping page still shows the old one. */
  lemma EditAfterFailedSubmit(st: FormState, value: string, outcome: WebhookOutcome)
    requires outcome != Accepted || EmailProblem(st.email).Some?
    ensures var failed := SubscribeSubmit(st, (e, n) => outcome).next;
      && failed.error != ""
      && EditEmailClearing(failed, value).error == ""
      && EditEmailKeeping(failed, value).error == failed.error
  {
  }

  /** Concrete inputs: the empty address, one without `@`, one with a space
      before the `@`, and a plain valid one. */
  lemma ConcreteAddresses()
    ensures EmailProblem("") == Some(EmptyEmail)
    ensures EmailProblem("a@b") == Some(InvalidEmail)
    ensures EmailProblem(" @b.c") == Some(InvalidEmail)
    ensures EmailProblem("a@b.c") == None
  {
    assert MatchAt("a@b.c", 1, 3);
    assert !Matches("a@b") by {
      forall at, dot | 0 < at < 3 && 0 < dot < 3 ensures !MatchAt("a@b", at, dot) { }
    }
    assert !Matches(" @b.c") by {
      forall at, dot | 0 < at < 5 && 0 < dot < 5 ensures !MatchAt(" @b.c", at, dot) {
        if at == 1 { assert IsSpace(" @b.c"[0]); }
      }
    }
  }
}
