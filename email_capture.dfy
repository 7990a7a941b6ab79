/**
  The "notify me" form of the landing page (component Home in pages/index.tsx):
  three state cells (the typed `email`, the `submitted` latch and the `error`
  line), the submit handler, the input's change handler and the switch that
  shows either the form or the confirmation text.

  The transitions are first given as functions on a FormState value (Submit,
  Edit, Render, Deliver, Run), which are what the lemmas about event sequences
  speak of; the class EmailForm then holds the three cells as fields and its
  handlers update them step by step, each proved to end in the state the
  corresponding function describes.
*/
module EmailCapture {
  import opened Wrappers
  import opened EmailShape
  import opened Mailto

  /** Shown when the field is empty at submission. */
  const EmptyMessage: string := "Ingresa tu email."

  /** Shown when the field fails the shape check at submission. */
  const InvalidMessage: string := "Email no v\U{00E1}lido."

  /** The three state cells; an empty `error` means no error is pending. */
  datatype FormState = FormState(email: string, submitted: bool, error: string)

  /** The state when the page mounts. */
  const Initial: FormState := FormState("", false, "")

  /** The state after one event, with the navigation it issued, if any. */
  datatype Step = Step(next: FormState, navigation: Option<string>)

  /** The submit handler. The empty check runs first and does not trim; then
      the shape check; on success the error is cleared, `submitted` is latched,
      the compose-draft link for the address as typed is issued and the field
      is cleared. */
  function Submit(s: FormState, encode: string -> string): (r: Step)
    ensures s.email == "" ==> r == Step(s.(error := EmptyMessage), None)
    ensures s.email != "" && !MatchesShape(s.email) ==> r == Step(s.(error := InvalidMessage), None)
    ensures MatchesShape(s.email) ==> r == Step(FormState("", true, ""), Some(MailtoUrl(encode, s.email)))
    ensures r.navigation.Some? <==> MatchesShape(s.email)
  {
    ShapeTestCorrect(s.email);
    if s.email == "" then Step(s.(error := EmptyMessage), None)
    else if !ShapeTest(s.email) then Step(s.(error := InvalidMessage), None)
    else Step(FormState("", true, ""), Some(MailtoUrl(encode, s.email)))
  }

  /** The change handler: stores the new text and clears a pending error;
      it does not validate. */
  function Edit(s: FormState, text: string): (t: FormState)
    ensures t.email == text && t.error == "" && t.submitted == s.submitted
  {
    var cleared := if s.error != "" then "" else s.error;
    s.(email := text, error := cleared)
  }

  /** What the form area shows: the confirmation text, or the input holding
      the typed text with an error line under it when one is pending. */
  datatype View = Confirmation | Form(value: string, errorLine: Option<string>)

  function Render(s: FormState): (v: View)
    ensures v.Confirmation? <==> s.submitted
    ensures v.Form? ==> v.value == s.email
    ensures v.Form? ==> (v.errorLine.Some? <==> s.error != "")
    ensures v.Form? && v.errorLine.Some? ==> v.errorLine.value == s.error
  {
    if s.submitted then Confirmation
    else Form(s.email, if s.error != "" then Some(s.error) else None)
  }

  /** A user action on the form area. */
  datatype Event = Change(text: string) | SubmitForm

  /** Delivers an event: the handlers exist only while the form is rendered,
      so once the confirmation is shown an event changes nothing. */
  function Deliver(s: FormState, e: Event, encode: string -> string): (r: Step)
    ensures s.submitted ==> r == Step(s, None)
    ensures r.navigation.Some? <==> !s.submitted && r.next.submitted
    ensures r.navigation.Some? ==> e == SubmitForm && r.navigation == Some(MailtoUrl(encode, s.email))
  {
    match Render(s)
    case Confirmation => Step(s, None)
    case Form(_, _) =>
      match e
      case Change(text) => Step(Edit(s, text), None)
      case SubmitForm => Submit(s, encode)
  }

  /** Replays events from `s`: the final state and the links issued, in order. */
  function Run(s: FormState, events: seq<Event>, encode: string -> string): (FormState, seq<string>)
    decreases |events|
  {
    if events == [] then (s, [])
    else
      var step := Deliver(s, events[0], encode);
      var rest := Run(step.next, events[1..], encode);
      (rest.0, (if step.navigation.Some? then [step.navigation.value] else []) + rest.1)
  }

  /** Once submitted, the field and the error line are empty. */
  predicate Settled(s: FormState) {
    s.submitted ==> s.email == "" && s.error == ""
  }

  /** `submitted` never goes back to false, and once it is true no event
      changes anything or issues a link. */
  lemma {:induction false} RunAfterSubmitted(s: FormState, events: seq<Event>, encode: string -> string)
    requires s.submitted
    ensures Run(s, events, encode) == (s, [])
    decreases |events|
  {
    if events != [] {
      assert Deliver(s, events[0], encode) == Step(s, None);
      RunAfterSubmitted(s, events[1..], encode);
      assert Run(s, events, encode).0 == s;
      assert Run(s, events, encode).1 == [];
    }
  }

  /** Over any sequence of events: at most one link is issued, exactly when
      the run turns `submitted` on; it is the link for an address that passed
      the shape check; `submitted` is monotone; and Settled is preserved. */
  lemma {:induction false} RunNavigations(s: FormState, events: seq<Event>, encode: string -> string)
    ensures var (t, links) := Run(s, events, encode);
      && |links| <= 1
      && (|links| == 1 <==> !s.submitted && t.submitted)
      && (s.submitted ==> t.submitted)
      && (|links| == 1 ==> exists e :: MatchesShape(e) && links[0] == MailtoUrl(encode, e))
      && (Settled(s) ==> Settled(t))
    decreases |events|
  {
    if events != [] {
      var step := Deliver(s, events[0], encode);
      RunNavigations(step.next, events[1..], encode);
      if step.navigation.Some? {
        RunAfterSubmitted(step.next, events[1..], encode);
        assert MatchesShape(s.email);
      }
    }
  }

  /** Rejected submissions: an empty field always gets the empty-field message,
      never the invalid-address one, and whitespace alone is not trimmed away
      but rejected by the shape check; the field keeps its text. */
  lemma RejectionExamples(encode: string -> string)
    ensures Submit(Initial, encode) == Step(Initial.(error := EmptyMessage), None)
    ensures EmptyMessage != InvalidMessage
    ensures forall text :: text in ["maria@", "not-an-email", "   "] ==>
      Submit(FormState(text, false, ""), encode) == Step(FormState(text, false, InvalidMessage), None)
  {
    ShapeExamples();
  }

  /** The three state cells of the form, updated in place by its handlers. */
  class EmailForm {
    var email: string
    var submitted: bool
    var error: string

    /** The cells as a value. */
    function State(): FormState
      reads this
    {
      FormState(email, submitted, error)
    }

    constructor ()
      ensures State() == Initial
    {
      email, submitted, error := "", false, "";
    }

    /** The submit handler; `navigation` is the link assigned to the window's
        location, if one is. */
    method HandleSubmit(encode: string -> string) returns (navigation: Option<string>)
      modifies this
      ensures old(email) == "" ==>
        email == old(email) && submitted == old(submitted) && error == EmptyMessage && navigation == None
      ensures old(email) != "" && !MatchesShape(old(email)) ==>
        email == old(email) && submitted == old(submitted) && error == InvalidMessage && navigation == None
      ensures MatchesShape(old(email)) ==>
        email == "" && submitted && error == "" && navigation == Some(MailtoUrl(encode, old(email)))
      ensures Step(State(), navigation) == Submit(old(State()), encode)
    {
      navigation := None;
      if email == "" {
        error := EmptyMessage;
        return;
      }
      ShapeTestCorrect(email);
      if !ShapeTest(email) {
        error := InvalidMessage;
        return;
      }
      error := "";
      submitted := true;
      navigation := Some(MailtoUrl(encode, email));
      email := "";
    }

    /** The input's change handler. */
    method HandleChange(text: string)
      modifies this
      ensures email == text && error == "" && submitted == old(submitted)
      ensures State() == Edit(old(State()), text)
    {
      email := text;
      if error != "" {
        error := "";
      }
    }

    /** Routes a user action to the handler the page currently renders, if any. */
    method Dispatch(e: Event, encode: string -> string) returns (navigation: Option<string>)
      modifies this
      ensures Step(State(), navigation) == Deliver(old(State()), e, encode)
    {
      if submitted {
        return None;
      }
      match e
      case Change(text) =>
        HandleChange(text);
        navigation := None;
      case SubmitForm =>
        navigation := HandleSubmit(encode);
    }
  }

  /** A session on a fresh form: type "maria@" and submit, which shows the
      invalid-address message; retype "maria@example.com", which clears it at
      once; submit again, which shows the confirmation, empties the field and
      issues one link whose body ends with the escaped address. */
  method MariaSession(encode: string -> string)
    returns (firstError: string, errorAfterEdit: string, link: Option<string>, shown: View, finalEmail: string)
    requires encode("maria@example.com") == "maria%40example.com"
    ensures firstError == InvalidMessage
    ensures errorAfterEdit == ""
    ensures link == Some(Prefix + "maria%40example.com")
    ensures shown == Confirmation && finalEmail == ""
  {
    ShapeExamples();
    var form := new EmailForm();
    var ignored := form.Dispatch(Change("maria@"), encode);
    ignored := form.Dispatch(SubmitForm, encode);
    firstError := form.error;
    ignored := form.Dispatch(Change("maria@example.com"), encode);
    errorAfterEdit := form.error;
    link := form.Dispatch(SubmitForm, encode);
    shown := Render(form.State());
    finalEmail := form.email;
  }
}
