/** The booking form's state (ContactSection.tsx): the current values and
    whether a submission is outstanding. The user types into the text
    inputs, picks the trip type with two buttons and the passenger count
    from a select of "1" to "21"; submitting validates the values and, when
    they pass, issues one request; the request's outcome resets the form or
    leaves it as it was; "Clear Form" resets it. */
module ContactForm {
  import Js
  import Calendar
  import opened Wrappers
  import S = ContactSchema

  /** The inputs the user types into. */
  datatype TextInput = NameInput | EmailInput | PhoneInput | MessageInput
                     | StartFromInput | EndToInput | DateInput | TimeInput

  /** The two trip type buttons. */
  datatype TripKind = Single | Round

  function TripValue(k: TripKind): (s: string)
    ensures S.TripTypeOk(s)
  {
    match k
    case Single => "single"
    case Round => "round"
  }

  /** What an input shows (the message may be absent). */
  function Read(v: S.FormValues, input: TextInput): Option<string> {
    match input
    case NameInput => Some(v.name)
    case EmailInput => Some(v.email)
    case PhoneInput => Some(v.phone)
    case MessageInput => v.message
    case StartFromInput => Some(v.startFrom)
    case EndToInput => Some(v.endTo)
    case DateInput => Some(v.date)
    case TimeInput => Some(v.time)
  }

  /** The values after typing `text` into one input: that input shows the
      text, every other input keeps what it showed, and the fields set by
      buttons and the select are untouched. */
  function WithText(v: S.FormValues, input: TextInput, text: string): (r: S.FormValues)
    ensures Read(r, input) == Some(text)
    ensures forall other :: other != input ==> Read(r, other) == Read(v, other)
    ensures r.tripType == v.tripType && r.company == v.company && r.service == v.service
  {
    match input
    case NameInput => v.(name := text)
    case EmailInput => v.(email := text)
    case PhoneInput => v.(phone := text)
    case MessageInput => v.(message := Some(text))
    case StartFromInput => v.(startFrom := text)
    case EndToInput => v.(endTo := text)
    case DateInput => v.(date := text)
    case TimeInput => v.(time := text)
  }

  /** How the outstanding request ended. */
  datatype RequestOutcome = Succeeded | Failed(message: string)

  /** A transient notification. */
  datatype Toast = Toast(title: string, description: string, destructive: bool)

  /** The notification for an outcome: a failure shows its own message when
      it has one, else a generic one. */
  function ToastFor(outcome: RequestOutcome): (t: Toast)
    ensures t.destructive <==> outcome.Failed?
    ensures outcome.Failed? && outcome.message != "" ==> t.description == outcome.message
    ensures t.description != ""
  {
    match outcome
    case Succeeded => Toast("Message sent successfully!", "We'll get back to you as soon as possible.", false)
    case Failed(m) => Toast("Error sending message", if m != "" then m else "Please try again later", true)
  }

  /** What pressing the submit button does. */
  datatype SubmitResult =
    | Blocked                           // the button is disabled
    | BrowserRefused                    // the browser's own check failed; the handler never runs
    | Rejected(issues: seq<S.Issue>)    // validation failed; no request
    | Requested(payload: S.FormValues)  // one request carrying the values

  /** The browser's constraint check, which runs before the submit handler
      because the form does not opt out of it: a non-empty e-mail input must
      have the HTML e-mail syntax (`htmlEmail`), and a non-empty date must
      not lie before the date input's `min`, the UTC date of the moment the
      form was rendered. The date input only ever holds "YYYY-MM-DD" text or
      nothing. */
  predicate BrowserAccepts(v: S.FormValues, htmlEmail: string -> bool, minDate: Calendar.ValidDate) {
    && (v.email == "" || htmlEmail(v.email))
    && (v.date == "" || !BeforeMin(v.date, minDate))
  }

  predicate BeforeMin(date: string, minDate: Calendar.ValidDate) {
    match Calendar.Parse(date)
    case None => false
    case Some(d) => Calendar.Ordinal(d) < Calendar.Ordinal(minDate)
  }

  /** West of UTC in the evening the UTC date is already tomorrow: local
      today passes the schema's date rule, yet the browser refuses it. */
  lemma LocalTodayBelowUtcMin(v: S.FormValues, today: Calendar.ValidDate, htmlEmail: string -> bool,
                              minDate: Calendar.ValidDate)
    requires Calendar.Ordinal(today) < Calendar.Ordinal(minDate)
    requires v.date == Calendar.Format(today)
    ensures S.NotInPast(v.date, today)
    ensures !BrowserAccepts(v, htmlEmail, minDate)
  {
    Calendar.ParseFormat(today);
  }

  /** The values the passenger select and the trip type buttons can set
      always pass their rules: those two fields never need checking. */
  lemma SelectedFieldsNeverReported(v: S.FormValues, today: Calendar.ValidDate, isEmail: string -> bool)
    requires S.TripTypeOk(v.tripType) && S.PassengerCountOk(v.company)
    ensures forall k :: 0 <= k < |S.Issues(v, today, isEmail)| ==>
              S.Issues(v, today, isEmail)[k].field !in {S.TripType, S.Company}
  {
    var check := S.Checker(v, today, isEmail);
    assert check(S.TripType) == None;
    assert check(S.Company) == None;
    S.PassingFieldNotReported(S.SchemaOrder, check, S.TripType);
    S.PassingFieldNotReported(S.SchemaOrder, check, S.Company);
  }

  class BookingForm {
    var values: S.FormValues
    /** A submission is outstanding. */
    var pending: bool

    /** The trip type and the passenger count hold values their controls offer. */
    ghost predicate Valid()
      reads this
    {
      S.TripTypeOk(values.tripType) && S.PassengerCountOk(values.company)
    }

    constructor()
      ensures Valid() && values == S.Defaults && !pending
    {
      values := S.Defaults;
      pending := false;
      new;
      assert S.Defaults.company == Js.NatToDecimal(1);
      S.PassengerOptionsAccepted(1);
    }

    /** The submit button is disabled while a submission is outstanding. */
    predicate SubmitDisabled()
      reads this
    {
      pending
    }

    function SubmitLabel(): (caption: string)
      reads this
      ensures caption == "Sending..." <==> SubmitDisabled()
    {
      if pending then "Sending..." else "Get a Quote"
    }

    method Type(input: TextInput, text: string)
      requires Valid()
      modifies this
      ensures Valid()
      ensures values == WithText(old(values), input, text) && pending == old(pending)
    {
      values := WithText(values, input, text);
    }

    method SelectTripType(k: TripKind)
      requires Valid()
      modifies this
      ensures Valid()
      ensures values == old(values).(tripType := TripValue(k)) && pending == old(pending)
    {
      values := values.(tripType := TripValue(k));
    }

    /** Choosing option `n` of the passenger select. */
    method SelectPassengers(n: nat)
      requires Valid() && 1 <= n <= S.MaxPassengers
      modifies this
      ensures Valid()
      ensures values == old(values).(company := Js.NatToDecimal(n)) && pending == old(pending)
    {
      S.PassengerOptionsAccepted(n);
      values := values.(company := Js.NatToDecimal(n));
    }

    /** Pressing submit: nothing while disabled, and it is disabled exactly
        while pending; otherwise the browser's constraint check runs first
        and, when it fails, the submit handler never runs. Then the values
        are validated: values that fail are refused with their issues, and
        only values that pass every rule are sent, in one request that makes
        the form pending. The values themselves never change here, and the
        controls' own fields are never among the issues. */
    method Submit(today: Calendar.ValidDate, isEmail: string -> bool,
                  htmlEmail: string -> bool, minDate: Calendar.ValidDate) returns (result: SubmitResult)
      requires Valid()
      modifies this
      ensures Valid() && values == old(values)
      ensures result == Blocked <==> old(pending)
      ensures result == BrowserRefused <==> !old(pending) && !BrowserAccepts(values, htmlEmail, minDate)
      ensures !old(pending) && BrowserAccepts(values, htmlEmail, minDate) ==>
                (result.Requested? <==> S.Passes(values, today, isEmail))
      ensures !old(pending) && BrowserAccepts(values, htmlEmail, minDate) && !S.Passes(values, today, isEmail) ==>
                result == Rejected(S.Issues(values, today, isEmail))
      ensures result.Requested? ==> result.payload == values && pending
      ensures !result.Requested? ==> pending == old(pending)
      ensures result.Rejected? ==> result.issues != []
      ensures result.Rejected? ==>
                forall k :: 0 <= k < |result.issues| ==> result.issues[k].field !in {S.TripType, S.Company}
    {
      if pending {
        return Blocked;
      }
      if !BrowserAccepts(values, htmlEmail, minDate) {
        return BrowserRefused;
      }
      var issues := S.Issues(values, today, isEmail);
      S.IssuesEmptyIffPasses(values, today, isEmail);
      if issues == [] {
        pending := true;
        result := Requested(values);
      } else {
        SelectedFieldsNeverReported(values, today, isEmail);
        result := Rejected(issues);
      }
    }

    /** The outstanding request ends: success resets every field to its
        default, failure leaves the values as they were; either way the form
        is no longer pending. */
    method Settle(outcome: RequestOutcome) returns (toast: Toast)
      requires Valid() && pending
      modifies this
      ensures Valid() && !pending
      ensures outcome.Succeeded? ==> values == S.Defaults
      ensures outcome.Failed? ==> values == old(values)
      ensures toast == ToastFor(outcome)
    {
      pending := false;
      if outcome.Succeeded? {
        Reset();
      }
      toast := ToastFor(outcome);
    }

    /** "Clear Form": every field back to its default, whatever is pending. */
    method Clear()
      requires Valid()
      modifies this
      ensures Valid() && values == S.Defaults && pending == old(pending)
    {
      Reset();
    }

    method Reset()
      modifies this
      ensures Valid() && values == S.Defaults && pending == old(pending)
    {
      values := S.Defaults;
      assert S.Defaults.company == Js.NatToDecimal(1);
      S.PassengerOptionsAccepted(1);
    }
  }
}
