/** The contact form: submission is accepted only when the name, email and
    message fields are all non-empty; an accepted form is reset. Nothing is
    sent anywhere. */
module Contact {

  /** What a submission ends in: accepted with the values the handler logs,
      or refused because a field is empty. */
  datatype Outcome = Sent(name: string, email: string, message: string) | MissingFields

  /** The dialog text shown for each outcome. */
  function AlertText(o: Outcome): string
  {
    match o
    case Sent(_, _, _) => "Thank you for your message! I will get back to you soon."
    case MissingFields => "Please fill in all fields."
  }

  /** The handler's test: each value is a non-empty, hence truthy, string. */
  predicate AllFilled(name: string, email: string, message: string)
  {
    name != "" && email != "" && message != ""
  }

  class ContactForm {
    var name: string
    var email: string
    var message: string

    /** A freshly loaded form, every field at its empty default. */
    constructor ()
      ensures name == "" && email == "" && message == ""
    {
      name, email, message := "", "", "";
    }

    /** The submit handler. */
    method Submit() returns (outcome: Outcome)
      modifies this
      ensures outcome.Sent? <==> AllFilled(old(name), old(email), old(message))
      ensures outcome.Sent? ==> outcome == Sent(old(name), old(email), old(message))
      ensures outcome.Sent? ==> name == "" && email == "" && message == ""
      ensures outcome.MissingFields? ==> name == old(name) && email == old(email) && message == old(message)
      ensures AlertText(outcome) == if AllFilled(old(name), old(email), old(message))
                                    then "Thank you for your message! I will get back to you soon."
                                    else "Please fill in all fields."
    {
      var n, e, m := name, email, message;
      if n != "" && e != "" && m != "" {
        name, email, message := "", "", "";
        outcome := Sent(n, e, m);
      } else {
        outcome := MissingFields;
      }
    }
  }

  /** The dialog tells the two outcomes apart: two submissions show the same
      text exactly when both were accepted or both refused. */
  lemma AlertTextTellsOutcome(a: Outcome, b: Outcome)
    ensures AlertText(a) == AlertText(b) <==> a.Sent? == b.Sent?
  {
    var thanks, fill := AlertText(Sent("", "", "")), AlertText(MissingFields);
    assert |thanks| != |fill|;
    assert thanks != fill;
  }

  /** The handler's test checks only emptiness: blanks pass it and the email
      is not inspected. The browser's own validation of a `type="email"`
      field, which can block the submit event first, is not part of this
      model. */
  lemma BlankFieldsAccepted()
    ensures AllFilled(" ", "not an address", " ")
    ensures !AllFilled("Ada", "", "Hello")
  {
  }

  /** A filled form is accepted and cleared, so submitting it again at once
      is refused and leaves it empty. */
  method SubmitTwice(name: string, email: string, message: string) returns (first: Outcome, second: Outcome)
    ensures first == if AllFilled(name, email, message) then Sent(name, email, message) else MissingFields
    ensures second == MissingFields
  {
    var form := new ContactForm();
    form.name, form.email, form.message := name, email, message;
    first := form.Submit();
    second := form.Submit();
  }
}
