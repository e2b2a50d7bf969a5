/** The booking form and the e-mail function together: the form posts its
    values as JSON to the contact endpoint, which is served by the e-mail
    function. The two check different rules, and the lemmas here say where
    they meet and where they part: the form lets an empty message through,
    the function refuses it. */
module ClientServer {
  import Js
  import Calendar
  import opened Wrappers
  import S = ContactSchema
  import SendEmail

  /** The parsed JSON body of the request the form sends: every value is a
      string, and an optional field that is absent is left out. */
  function RequestBody(v: S.FormValues): map<string, Js.Value> {
    map[
      "name" := Js.Str(v.name), "email" := Js.Str(v.email), "phone" := Js.Str(v.phone),
      "tripType" := Js.Str(v.tripType), "startFrom" := Js.Str(v.startFrom),
      "endTo" := Js.Str(v.endTo), "date" := Js.Str(v.date), "time" := Js.Str(v.time),
      "company" := Js.Str(v.company)]
    + (if v.service.Some? then map["service" := Js.Str(v.service.value)] else map[])
    + (if v.message.Some? then map["message" := Js.Str(v.message.value)] else map[])
  }

  function Posted(v: S.FormValues): SendEmail.Event {
    SendEmail.Event("POST", SendEmail.Parsed(RequestBody(v)))
  }

  function AsValue(o: Option<string>): Js.Value {
    if o.Some? then Js.Str(o.value) else Js.Undefined
  }

  /** The function reads back exactly the values the form sent. */
  lemma ReadsBackFormValues(v: S.FormValues)
    ensures SendEmail.Destructure(RequestBody(v)) == SendEmail.Payload(
      Js.Str(v.name), Js.Str(v.email), Js.Str(v.phone), AsValue(v.service),
      AsValue(v.message), Js.Str(v.tripType), Js.Str(v.startFrom), Js.Str(v.endTo),
      Js.Str(v.date), Js.Str(v.time), Js.Str(v.company))
  {
    var body := RequestBody(v);
    assert "service" in body <==> v.service.Some?;
    assert "message" in body <==> v.message.Some?;
    assert body["name"] == Js.Str(v.name);
    assert body["email"] == Js.Str(v.email);
    assert body["phone"] == Js.Str(v.phone);
    assert body["tripType"] == Js.Str(v.tripType);
    assert body["startFrom"] == Js.Str(v.startFrom);
    assert body["endTo"] == Js.Str(v.endTo);
    assert body["date"] == Js.Str(v.date);
    assert body["time"] == Js.Str(v.time);
    assert body["company"] == Js.Str(v.company);
    assert v.service.Some? ==> body["service"] == Js.Str(v.service.value);
    assert v.message.Some? ==> body["message"] == Js.Str(v.message.value);
  }

  /** Accepted values have a name, an address and a phone number, when
      the address check refuses the empty string. */
  lemma AcceptedContactFilled(v: S.FormValues, today: Calendar.ValidDate, isEmail: string -> bool)
    requires S.Passes(v, today, isEmail) && !isEmail("")
    ensures v.name != "" && v.email != "" && v.phone != ""
  {
  }

  /** For values the form accepts (with an address check that refuses the
      empty string), the function sends the e-mail exactly when the message
      is non-empty; otherwise it answers 400 and sends nothing. */
  lemma AcceptedFormSentIffMessage(v: S.FormValues, today: Calendar.ValidDate, isEmail: string -> bool,
                                   send: SendEmail.SendOutcome, stamps: SendEmail.Stamps)
    requires S.Passes(v, today, isEmail) && !isEmail("")
    ensures var r := SendEmail.Handle(Posted(v), send, stamps);
      && (r.sent.Some? <==> v.message.Some? && v.message.value != "")
      && (r.sent.None? ==> r.response == SendEmail.MissingFields)
  {
    AcceptedContactFilled(v, today, isEmail);
    ContactFilledSentIffMessage(v, send, stamps);
  }

  lemma ContactFilledSentIffMessage(v: S.FormValues, send: SendEmail.SendOutcome, stamps: SendEmail.Stamps)
    requires v.name != "" && v.email != "" && v.phone != ""
    ensures var r := SendEmail.Handle(Posted(v), send, stamps);
      && (r.sent.Some? <==> v.message.Some? && v.message.value != "")
      && (r.sent.None? ==> r.response == SendEmail.MissingFields)
  {
    ReadsBackFormValues(v);
  }

  /** When it is sent, the e-mail answers to the address typed into the
      form and names the customer in its subject. */
  lemma SentEmailAddressesCustomer(v: S.FormValues, today: Calendar.ValidDate, isEmail: string -> bool,
                                   send: SendEmail.SendOutcome, stamps: SendEmail.Stamps)
    requires S.Passes(v, today, isEmail) && !isEmail("")
    requires v.message.Some? && v.message.value != ""
    ensures var r := SendEmail.Handle(Posted(v), send, stamps);
      && r.sent.Some?
      && r.sent.value.replyTo == Js.Str(v.email)
      && r.sent.value.subject == SendEmail.SubjectPrefix + v.name
      && r.sent.value.to == SendEmail.Recipients
  {
    AcceptedContactFilled(v, today, isEmail);
    FilledEmailAddressesCustomer(v, send, stamps);
  }

  lemma FilledEmailAddressesCustomer(v: S.FormValues, send: SendEmail.SendOutcome, stamps: SendEmail.Stamps)
    requires v.name != "" && v.email != "" && v.phone != ""
    requires v.message.Some? && v.message.value != ""
    ensures var r := SendEmail.Handle(Posted(v), send, stamps);
      && r.sent.Some?
      && r.sent.value.replyTo == Js.Str(v.email)
      && r.sent.value.subject == SendEmail.SubjectPrefix + v.name
      && r.sent.value.to == SendEmail.Recipients
  {
    ReadsBackFormValues(v);
  }

  /** Accepted values always fill in the trip type, both places, the date,
      the time and the passenger count. */
  lemma AcceptedTripFieldsFilled(v: S.FormValues, today: Calendar.ValidDate, isEmail: string -> bool)
    requires S.Passes(v, today, isEmail)
    ensures v.tripType in {"single", "round"}
    ensures v.startFrom != "" && v.endTo != "" && v.date != "" && v.time != "" && v.company != ""
  {
    assert Calendar.Parse(v.date).Some?;
  }

  /** So the e-mail lists those six, plus the service when one was given,
      and the trip type reads as the button that was chosen. */
  lemma AcceptedFormTripDetails(v: S.FormValues, today: Calendar.ValidDate, isEmail: string -> bool)
    requires S.Passes(v, today, isEmail)
    ensures var p := SendEmail.Destructure(RequestBody(v));
      && SendEmail.Present(p) ==
           [SendEmail.TripType, SendEmail.StartFrom, SendEmail.EndTo, SendEmail.Date,
            SendEmail.Time, SendEmail.Company]
           + (if v.service.Some? && v.service.value != "" then [SendEmail.Service] else [])
      && SendEmail.TripTypeLabel(p.tripType) == (if v.tripType == "single" then "Single trip" else "Round trip")
  {
    AcceptedTripFieldsFilled(v, today, isEmail);
    FilledTripDetails(v);
  }

  lemma FilledTripDetails(v: S.FormValues)
    requires v.tripType != "" && v.startFrom != "" && v.endTo != ""
    requires v.date != "" && v.time != "" && v.company != ""
    ensures var p := SendEmail.Destructure(RequestBody(v));
      && SendEmail.Present(p) ==
           [SendEmail.TripType, SendEmail.StartFrom, SendEmail.EndTo, SendEmail.Date,
            SendEmail.Time, SendEmail.Company]
           + (if v.service.Some? && v.service.value != "" then [SendEmail.Service] else [])
      && SendEmail.TripTypeLabel(p.tripType) == (if v.tripType == "single" then "Single trip" else "Round trip")
  {
    ReadsBackFormValues(v);
    var p := SendEmail.Destructure(RequestBody(v));
    assert SendEmail.Included(p, SendEmail.Service) <==> v.service.Some? && v.service.value != "";
    SendEmail.PresentWhenTripFilled(p);
  }

  /** The conflict is reachable: whenever some address passes the check,
      there are values the form accepts whose message is empty, which is
      also the form's default message. */
  lemma EmptyMessageReachable(today: Calendar.ValidDate, isEmail: string -> bool, address: string)
    requires isEmail(address)
    ensures S.Defaults.message == Some("")
    ensures exists v :: S.Passes(v, today, isEmail) && v.message == Some("")
  {
    var v := S.Defaults.(name := "Jo", email := address, phone := "0400000000",
      startFrom := "Sydney", endTo := "Newcastle", date := Calendar.Format(today), time := "09:00");
    S.TodayAccepted(today);
    S.PassengerOptionsAccepted(1);
    assert S.Defaults.company == Js.NatToDecimal(1);
    assert S.MessageOk(v.message);
    assert S.Passes(v, today, isEmail);
  }
}
