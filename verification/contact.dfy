/**
 * The contact form, which the home page section and the contact page implement
 * identically: per-field messages from `validate`, clearing a field's message
 * when that field is edited, the phone input shown through the formatter while
 * the raw typed text is what gets stored and sent, and the submit that resets
 * the form only when the webhook reports success.
 */
module Contact {
  import opened Wrappers
  import opened Js
  import opened Email
  import Phone
  import opened EmailForms

  /** The `name` attribute of each input; `handleChange` writes the field it names. */
  datatype Field = NameField | EmailField | PhoneField | MessageField

  datatype ContactData = ContactData(name: string, email: string, phone: string, message: string)

  const EmptyData := ContactData("", "", "", "")

  /** The page state. `errors` holds the messages keyed by field; an edited
      field keeps its key with an empty message. */
  datatype ContactState = ContactState(data: ContactData, errors: map<Field, string>, submitted: bool, submitting: bool)

  function Value(d: ContactData, f: Field): string {
    match f
    case NameField => d.name
    case EmailField => d.email
    case PhoneField => d.phone
    case MessageField => d.message
  }

  function With(d: ContactData, f: Field, v: string): (r: ContactData)
    ensures Value(r, f) == v
    ensures forall g | g != f :: Value(r, g) == Value(d, g)
  {
    match f
    case NameField => d.(name := v)
    case EmailField => d.(email := v)
    case PhoneField => d.(phone := v)
    case MessageField => d.(message := v)
  }

  predicate Blank(s: string) {
    Trim(s) == []
  }

  /** `validate()`: a fresh set of messages for the name, the address and the message. */
  function Validate(d: ContactData): (errs: map<Field, string>)
    ensures PhoneField !in errs
    ensures NameField in errs <==> Blank(d.name)
    ensures MessageField in errs <==> Blank(d.message)
    ensures EmailField in errs <==> Blank(d.email) || !Matches(d.email)
    ensures NameField in errs ==> errs[NameField] == "Name is required"
    ensures MessageField in errs ==> errs[MessageField] == "Message is required"
    ensures EmailField in errs ==>
      errs[EmailField] == (if Blank(d.email) then "Email is required" else "Email is invalid")
  {
    var withName := if Blank(d.name) then map[NameField := "Name is required"] else map[];
    var withEmail :=
      if Blank(d.email) then withName[EmailField := "Email is required"]
      else if !Matches(d.email) then withName[EmailField := "Email is invalid"]
      else withName;
    if Blank(d.message) then withEmail[MessageField := "Message is required"] else withEmail
  }

  /** The form is accepted exactly when the name and the message have a
      non-space character and the address matches the pattern; an address that
      matches is never blank, so the blank check is subsumed. */
  lemma ValidIff(d: ContactData)
    ensures |Validate(d)| == 0 <==> !Blank(d.name) && !Blank(d.message) && Matches(d.email)
  {
    if Matches(d.email) { MatchImpliesNotBlank(d.email); }
    var errs := Validate(d);
    if |errs| == 0 {
      assert NameField !in errs && EmailField !in errs && MessageField !in errs;
    } else {
      var f :| f in errs;
    }
  }

  /** The message shown under a field: a present, non-empty entry. */
  function Shown(errors: map<Field, string>, f: Field): string {
    if f in errors then errors[f] else ""
  }

  /** `handleChange`: store the typed value and clear that field's message if one is shown. */
  function Change(st: ContactState, f: Field, v: string): (r: ContactState)
    ensures Value(r.data, f) == v
    ensures forall g | g != f :: Value(r.data, g) == Value(st.data, g)
    ensures Shown(r.errors, f) == ""
    ensures forall g | g != f :: Shown(r.errors, g) == Shown(st.errors, g)
    ensures r.submitted == st.submitted && r.submitting == st.submitting
  {
    var errors := if Shown(st.errors, f) != "" then st.errors[f := ""] else st.errors;
    st.(data := With(st.data, f, v), errors := errors)
  }

  /** The phone input shows the formatted form of the stored text: the first
      (at most ten) digits typed, in order, in a form the formatter keeps as is. */
  function PhoneDisplay(st: ContactState): (r: string)
    ensures var n := Phone.Digits(st.data.phone); Phone.Digits(r) == n[..Phone.Min(10, |n|)]
    ensures Phone.Format(r) == r
  {
    Phone.FormatDigits(st.data.phone);
    Phone.FormatIdempotent(st.data.phone);
    Phone.Format(st.data.phone)
  }

  /** Re-reporting the displayed phone number as the typed value leaves the
      display as it was: the formatter is a fixed point on its own output. */
  lemma PhoneDisplayStable(st: ContactState)
    ensures PhoneDisplay(Change(st, PhoneField, PhoneDisplay(st))) == PhoneDisplay(st)
  {
    Phone.FormatIdempotent(st.data.phone);
  }

  /** One submit: what was sent to the webhook, if anything, and whether the
      failure alert was raised. */
  datatype ContactSubmission = ContactSubmission(next: ContactState, sent: Option<ContactData>, alerted: bool)

  /** `handleSubmit`. The webhook receives the stored fields as they are, the
      phone as typed rather than as displayed. */
  function Submit(st: ContactState, outcome: WebhookOutcome): (r: ContactSubmission)
    ensures r.next.errors == Validate(st.data)
    ensures r.sent.Some? <==> |Validate(st.data)| == 0
    ensures r.sent.Some? ==> r.sent.value == st.data
    ensures r.sent.None? ==> r.next == st.(errors := Validate(st.data)) && !r.alerted
    ensures r.sent.Some? ==> !r.next.submitting
    ensures r.next.data == (if r.sent.Some? && outcome == Accepted then EmptyData else st.data)
    ensures r.next.submitted <==> st.submitted || (r.sent.Some? && outcome == Accepted)
    ensures r.alerted <==> r.sent.Some? && outcome != Accepted
  {
    var errs := Validate(st.data);
    if |errs| > 0 then ContactSubmission(st.(errors := errs), None, false)
    else
      var cleared := st.(errors := errs, submitting := false);
      if outcome == Accepted then ContactSubmission(cleared.(data := EmptyData, submitted := true), Some(st.data), false)
      else ContactSubmission(cleared, Some(st.data), true)
  }

  /** After a rejected submit, editing a field clears exactly that field's
      message; the other messages stay until the next submit. */
  lemma EditAfterRejectedSubmit(st: ContactState, outcome: WebhookOutcome, f: Field, v: string)
    requires |Validate(st.data)| > 0
    ensures var rejected := Submit(st, outcome).next;
      var edited := Change(rejected, f, v);
      && Shown(edited.errors, f) == ""
      && (forall g | g != f :: Shown(edited.errors, g) == Shown(Validate(st.data), g))
      && edited.data == With(st.data, f, v)
  {
  }
}
