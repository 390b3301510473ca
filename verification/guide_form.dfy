/** The two free-guide request forms of the services section. Each guide keeps
    its own address, name, in-flight flag, success flag and message, keyed by
    the guide's id; a submit runs the shared e-mail form rule on that guide's
    slot and leaves the other guide alone. */
module GuideForm {
  import opened Wrappers
  import EmailForms

  /** A free guide: its id in the page state and the type sent to the webhook. */
  datatype Guide = Guide(id: string, title: string, guideType: string)

  const Guides: seq<Guide> := [
    Guide("abs", "30-Day Abdominal Challenge", "abdominal"),
    Guide("glutes", "Glute Circuit Workout", "glutes")
  ]

  const GuideDeclined := "Failed to request guide. Please try again."

  /** Per-guide form slots. */
  type Forms = map<string, EmailForms.FormState>

  const Blank := EmailForms.FormState("", "", false, false, "")

  /** The state the section starts in: an empty slot for every guide. */
  const Initial: Forms := map["abs" := Blank, "glutes" := Blank]

  /** `guides.find(g => g.id === guideId)`. */
  function FindGuide(id: string): (r: Option<Guide>)
    ensures r.Some? <==> exists i :: 0 <= i < |Guides| && Guides[i].id == id
    ensures r.Some? ==> r.value.id == id && r.value in Guides
  {
    if Guides[0].id == id then Some(Guides[0])
    else if Guides[1].id == id then Some(Guides[1])
    else None
  }

  /** A guide's slot; an id with no slot reads as empty fields. */
  function Slot(forms: Forms, id: string): (r: EmailForms.FormState)
    ensures id in forms ==> r == forms[id]
    ensures id !in forms ==> r.email == "" && !r.done && r.error == ""
  {
    if id in forms then forms[id] else Blank
  }

  /** `handleSubmit(e, guideId)`. `request` is `requestGuide`, which turns
      every network failure into `false`; the only way the call throws is an
      id that names no guide. */
  function Submit(forms: Forms, id: string, request: (string, string, string) -> bool): (r: Forms)
    ensures id in r && r.Keys == forms.Keys + {id}
    ensures forall k :: k in forms && k != id ==> r[k] == forms[k]
    ensures var slot := Slot(forms, id);
      r[id] == EmailForms.Submit(slot,
                 if FindGuide(id).None? then EmailForms.Throws
                 else if request(slot.email, slot.name, FindGuide(id).value.guideType) then EmailForms.Accepted
                 else EmailForms.Declined,
                 GuideDeclined).next
  {
    var slot := Slot(forms, id);
    var outcome :=
      match FindGuide(id)
      case None => EmailForms.Throws
      case Some(g) =>
        if request(slot.email, slot.name, g.guideType) then EmailForms.Accepted else EmailForms.Declined;
    forms[id := EmailForms.Submit(slot, outcome, GuideDeclined).next]
  }

  /** `handleEmailChange`: the guide's address takes the typed value and its
      message is cleared; the other guide is untouched. */
  function EditEmail(forms: Forms, id: string, value: string): (r: Forms)
    ensures r.Keys == forms.Keys + {id}
    ensures id in r && r[id].email == value && r[id].error == ""
    ensures r[id].name == Slot(forms, id).name && r[id].done == Slot(forms, id).done
    ensures forall k :: k in forms && k != id ==> r[k] == forms[k]
  {
    forms[id := EmailForms.EditEmailClearing(Slot(forms, id), value)]
  }

  /** `handleNameChange`: only the guide's name changes. */
  function EditName(forms: Forms, id: string, value: string): (r: Forms)
    ensures r.Keys == forms.Keys + {id}
    ensures id in r && r[id] == Slot(forms, id).(name := value)
    ensures forall k :: k in forms && k != id ==> r[k] == forms[k]
  {
    forms[id := Slot(forms, id).(name := value)]
  }

  /** Every guide on the page resolves to itself, so its request carries the
      guide's own type. */
  lemma GuidesResolve()
    ensures forall i :: 0 <= i < |Guides| ==> FindGuide(Guides[i].id) == Some(Guides[i])
  {
  }

  /** A guide's form is marked done exactly when it was done before, or its
      address passes the local checks and the webhook answers ok for that
      guide's type; a declined request shows the guide-specific message. */
  lemma GuideSubmitOutcome(forms: Forms, i: nat, request: (string, string, string) -> bool)
    requires i < |Guides|
    ensures var slot := Slot(forms, Guides[i].id);
      var passes := EmailForms.EmailProblem(slot.email).None?;
      var ok := request(slot.email, slot.name, Guides[i].guideType);
      var r := Submit(forms, Guides[i].id, request)[Guides[i].id];
      (r.done <==> slot.done || (passes && ok)) && (passes && !ok ==> r.error == GuideDeclined)
  {
    GuidesResolve();
  }

  /** Submitting one guide never changes the other: the slots are independent. */
  lemma GuidesIndependent(request: (string, string, string) -> bool)
    ensures Submit(Initial, "abs", request)["glutes"] == Initial["glutes"]
    ensures Submit(Initial, "glutes", request)["abs"] == Initial["abs"]
  {
  }

  /** A fresh form submitted empty asks for an address and calls nothing. */
  lemma EmptySubmitAsksForAddress(request: (string, string, string) -> bool)
    ensures Submit(Initial, "abs", request)["abs"].error == EmailForms.EmptyEmail
    ensures !Submit(Initial, "abs", request)["abs"].done
  {
  }
}
