/** The booking e-mail function (netlify/functions/send-email.js): one HTTP
    event in, exactly one response out, and at most one e-mail handed to the
    delivery service. The delivery call, the parse of the body and the
    "received on" clock are parameters: `send` is what the delivery call
    returns or throws if it is made, and `stamps` holds the two formatted
    times the clock gives, once for each body of the e-mail. */
module SendEmail {
  import Js
  import opened Wrappers
  import opened Ordering

  // ---------------------------------------------------------------------
  // Inputs and outputs

  /** `JSON.parse(event.body)` followed by destructuring its fields: either
      the properties of the parsed value (none, for a value that is not an
      object) or the exception it threw (malformed JSON, a null body). */
  datatype ParsedBody = Parsed(fields: map<string, Js.Value>) | ParseThrew(message: string)

  datatype Event = Event(httpMethod: string, body: ParsedBody)

  /** What the delivery call gives back if it is made. */
  datatype SendOutcome = Sent(id: string) | SendThrew(message: string)

  /** The destructured booking fields. */
  datatype Payload = Payload(
    name: Js.Value, email: Js.Value, phone: Js.Value, service: Js.Value,
    message: Js.Value, tripType: Js.Value, startFrom: Js.Value, endTo: Js.Value,
    date: Js.Value, time: Js.Value, company: Js.Value)

  /** One labelled block of the HTML e-mail. A date is shown in the long
      Australian form the locale library produces from the raw value. */
  datatype HtmlValue = Shown(text: string) | LongDate(raw: string)
  datatype HtmlBlock = HtmlBlock(caption: string, value: HtmlValue)

  /** The HTML e-mail, reduced to its labelled blocks and its timestamp. */
  datatype HtmlDocument = HtmlDocument(blocks: seq<HtmlBlock>, receivedOn: string)

  /** The two readings of the clock: the HTML body reads it first, the
      plain-text body a moment later, so the two can differ. */
  datatype Stamps = Stamps(html: string, text: string)

  /** The request handed to the delivery service. */
  datatype EmailRequest = EmailRequest(
    from: string, to: seq<string>, replyTo: Js.Value, subject: string,
    html: HtmlDocument, text: string)

  /** The JSON object a response carries; a key that is `None` is absent. */
  datatype ResponseBody = ResponseBody(
    success: Option<bool>, message: Option<string>, id: Option<string>, error: Option<string>)

  datatype Response = Response(statusCode: nat, headers: map<string, string>, body: ResponseBody)

  /** The response, and the e-mail handed to the delivery service if any. */
  datatype Outcome = Outcome(response: Response, sent: Option<EmailRequest>)

  const Sender := "Bus-X Bookings <onboarding@resend.dev>"
  const Recipients := ["info@busx.com.au", "shidiqadm@gmail.com"]
  const JsonHeaders := map["Content-Type" := "application/json"]

  // ---------------------------------------------------------------------
  // Reading the body

  function Lookup(fields: map<string, Js.Value>, key: string): Js.Value {
    if key in fields then fields[key] else Js.Undefined
  }

  function Destructure(fields: map<string, Js.Value>): Payload {
    Payload(
      Lookup(fields, "name"), Lookup(fields, "email"), Lookup(fields, "phone"),
      Lookup(fields, "service"), Lookup(fields, "message"), Lookup(fields, "tripType"),
      Lookup(fields, "startFrom"), Lookup(fields, "endTo"), Lookup(fields, "date"),
      Lookup(fields, "time"), Lookup(fields, "company"))
  }

  /** The server's own required-field check: name, email, phone and message. */
  predicate HasRequired(p: Payload) {
    Js.Truthy(p.name) && Js.Truthy(p.email) && Js.Truthy(p.phone) && Js.Truthy(p.message)
  }

  // ---------------------------------------------------------------------
  // The optional trip details

  /** "Single trip" only for the exact string "single"; any other value reads as a round trip. */
  function TripTypeLabel(t: Js.Value): (s: string)
    ensures s == "Single trip" <==> t == Js.Str("single")
    ensures s != "Single trip" ==> s == "Round trip"
  {
    if t == Js.Str("single") then "Single trip" else "Round trip"
  }

  /** The trip-detail lines of the plain-text e-mail: one "Label: value"
      line for each truthy field, nothing for a falsy one. */
  function TripDetails(p: Payload): string {
    (if Js.Truthy(p.tripType) then "Trip type: " + TripTypeLabel(p.tripType) + "\n" else "")
    + (if Js.Truthy(p.startFrom) then "Departure location: " + Js.ToText(p.startFrom) + "\n" else "")
    + (if Js.Truthy(p.endTo) then "Destination: " + Js.ToText(p.endTo) + "\n" else "")
    + (if Js.Truthy(p.date) then "Date: " + Js.ToText(p.date) + "\n" else "")
    + (if Js.Truthy(p.time) then "Time: " + Js.ToText(p.time) + "\n" else "")
    + (if Js.Truthy(p.company) then "Number of passengers: " + Js.ToText(p.company) + "\n" else "")
    + (if Js.Truthy(p.service) then "Service type: " + Js.ToText(p.service) + "\n" else "")
  }

  /** The trip-detail blocks of the HTML e-mail, one for each truthy field. */
  function TripBlocks(p: Payload): seq<HtmlBlock> {
    (if Js.Truthy(p.tripType) then [HtmlBlock("Trip type", Shown(TripTypeLabel(p.tripType)))] else [])
    + (if Js.Truthy(p.startFrom) then [HtmlBlock("Departure location", Shown(Js.ToText(p.startFrom)))] else [])
    + (if Js.Truthy(p.endTo) then [HtmlBlock("Destination", Shown(Js.ToText(p.endTo)))] else [])
    + (if Js.Truthy(p.date) then [HtmlBlock("Date", LongDate(Js.ToText(p.date)))] else [])
    + (if Js.Truthy(p.time) then [HtmlBlock("Time", Shown(Js.ToText(p.time)))] else [])
    + (if Js.Truthy(p.company) then [HtmlBlock("Number of passengers", Shown(Js.ToText(p.company)))] else [])
    + (if Js.Truthy(p.service) then [HtmlBlock("Service type", Shown(Js.ToText(p.service)))] else [])
  }

  // ---------------------------------------------------------------------
  // The e-mail

  function HtmlFor(p: Payload, receivedOn: string): HtmlDocument {
    HtmlDocument(
      [HtmlBlock("Name", Shown(Js.ToText(p.name))),
       HtmlBlock("Email", Shown(Js.ToText(p.email))),
       HtmlBlock("Phone", Shown(Js.ToText(p.phone)))]
      + TripBlocks(p)
      + [HtmlBlock("Message", Shown(Js.ToText(p.message)))],
      receivedOn)
  }

  const TextIntro := "\nNew booking enquiry \U{2013} Bus-X\n\nYou have received a new booking enquiry submitted via the Bus-X website. The details are provided below.\n\nCustomer details:\nName: "
  const TextFooter := "\n\n---\nThis message was generated automatically from the Bus-X website contact form.\nReceived on "

  function TextFor(p: Payload, receivedOn: string): string {
    TextIntro + Js.ToText(p.name)
    + "\nEmail: " + Js.ToText(p.email)
    + "\nPhone: " + Js.ToText(p.phone)
    + "\n\nTrip details:\n" + TripDetails(p)
    + "\nCustomer message:\n" + Js.ToText(p.message)
    + TextFooter + receivedOn + "\n    "
  }

  const SubjectPrefix := "New booking enquiry from "

  function Compose(p: Payload, stamps: Stamps): EmailRequest {
    EmailRequest(
      from := Sender,
      to := Recipients,
      replyTo := p.email,
      subject := SubjectPrefix + Js.ToText(p.name),
      html := HtmlFor(p, stamps.html),
      text := TextFor(p, stamps.text))
  }

  // ---------------------------------------------------------------------
  // Responses

  const SentMessage := "Email sent successfully"

  const FallbackError := "Failed to send email"

  const MethodNotAllowed := Response(405, map[], ResponseBody(None, None, None, Some("Method Not Allowed")))

  const MissingFields := Response(400, map[], ResponseBody(Some(false), None, None, Some("Missing required fields")))

  function Delivered(id: string): Response {
    Response(200, JsonHeaders, ResponseBody(Some(true), Some(SentMessage), Some(id), None))
  }

  /** The catch block: the error's own message when it has one. */
  function ServerError(message: string): (r: Response)
    ensures r.statusCode == 500 && r.body.success == Some(false)
    ensures r.body.error == Some(if message != "" then message else FallbackError)
  {
    Response(500, JsonHeaders, ResponseBody(Some(false), None, None,
      Some(if message != "" then message else FallbackError)))
  }

  /** The handler. Each event ends in exactly one of: 405 for any method
      but POST, 500 when the body cannot be read, 400 when a required field
      is falsy, and otherwise one e-mail handed over, then 200 with its id
      or 500 with the error the delivery threw. */
  function Handle(event: Event, send: SendOutcome, stamps: Stamps): (r: Outcome)
    ensures r.response.statusCode in {200, 400, 405, 500}
    ensures r.response.statusCode == 405 <==> event.httpMethod != "POST"
    ensures r.response.statusCode == 405 ==> r.response == MethodNotAllowed
    ensures r.response.statusCode == 400 <==>
              event.httpMethod == "POST" && event.body.Parsed? && !HasRequired(Destructure(event.body.fields))
    ensures r.response.statusCode == 400 ==> r.response == MissingFields
    ensures r.sent.Some? <==>
              event.httpMethod == "POST" && event.body.Parsed? && HasRequired(Destructure(event.body.fields))
    ensures r.sent.Some? ==> r.sent.value == Compose(Destructure(event.body.fields), stamps)
    ensures r.response.statusCode == 200 <==> r.sent.Some? && send.Sent?
    ensures r.response.statusCode == 200 ==> r.response == Delivered(send.id)
    ensures event.httpMethod == "POST" && event.body.ParseThrew? ==> r.response == ServerError(event.body.message)
    ensures r.sent.Some? && send.SendThrew? ==> r.response == ServerError(send.message)
    ensures r.response.body.success == Some(true) <==> r.response.statusCode == 200
  {
    if event.httpMethod != "POST" then
      Outcome(MethodNotAllowed, None)
    else
      match event.body
      case ParseThrew(m) => Outcome(ServerError(m), None)
      case Parsed(fields) =>
        var p := Destructure(fields);
        if !HasRequired(p) then
          Outcome(MissingFields, None)
        else
          var request := Compose(p, stamps);
          match send
          case Sent(id) => Outcome(Delivered(id), Some(request))
          case SendThrew(m) => Outcome(ServerError(m), Some(request))
  }

  // ---------------------------------------------------------------------
  // A reference description of the optional fields

  /** The optional fields, in the order both renderings list them. */
  datatype Optional = TripType | StartFrom | EndTo | Date | Time | Company | Service

  const OptionalOrder := [TripType, StartFrom, EndTo, Date, Time, Company, Service]

  function Rank(f: Optional): nat {
    match f
    case TripType => 0 case StartFrom => 1 case EndTo => 2 case Date => 3
    case Time => 4 case Company => 5 case Service => 6
  }

  function ValueOf(p: Payload, f: Optional): Js.Value {
    match f
    case TripType => p.tripType
    case StartFrom => p.startFrom
    case EndTo => p.endTo
    case Date => p.date
    case Time => p.time
    case Company => p.company
    case Service => p.service
  }

  function LabelOf(f: Optional): string {
    match f
    case TripType => "Trip type"
    case StartFrom => "Departure location"
    case EndTo => "Destination"
    case Date => "Date"
    case Time => "Time"
    case Company => "Number of passengers"
    case Service => "Service type"
  }

  /** The text shown for a field: the trip type as its label, the rest as is. */
  function ShownText(p: Payload, f: Optional): string {
    if f == TripType then TripTypeLabel(p.tripType) else Js.ToText(ValueOf(p, f))
  }

  /** The fields among `fs` whose value is truthy, in the order of `fs`. */
  function PresentOf(p: Payload, fs: seq<Optional>): (r: seq<Optional>)
    ensures |r| <= |fs|
  {
    if fs == [] then []
    else (if Included(p, fs[0]) then [fs[0]] else []) + PresentOf(p, fs[1..])
  }

  /** The optional fields an e-mail includes. */
  function Present(p: Payload): seq<Optional> {
    PresentOf(p, OptionalOrder)
  }

  function Line(p: Payload, f: Optional): string {
    LabelOf(f) + ": " + ShownText(p, f) + "\n"
  }

  function Lines(p: Payload, fs: seq<Optional>): string {
    if fs == [] then "" else Line(p, fs[0]) + Lines(p, fs[1..])
  }

  function Block(p: Payload, f: Optional): HtmlBlock {
    HtmlBlock(LabelOf(f), if f == Date then LongDate(Js.ToText(p.date)) else Shown(ShownText(p, f)))
  }

  function Blocks(p: Payload, fs: seq<Optional>): seq<HtmlBlock> {
    if fs == [] then [] else [Block(p, fs[0])] + Blocks(p, fs[1..])
  }

  function Labels(bs: seq<HtmlBlock>): (ls: seq<string>)
    ensures |ls| == |bs|
  {
    if bs == [] then [] else [bs[0].caption] + Labels(bs[1..])
  }

  // ---------------------------------------------------------------------
  // Properties of the renderings

  /** A field is written out when its value is truthy. */
  predicate Included(p: Payload, f: Optional) {
    Js.Truthy(ValueOf(p, f))
  }

  /** The line a field contributes to the trip details: none when falsy. */
  function Piece(p: Payload, f: Optional): string {
    if Included(p, f) then Line(p, f) else ""
  }

  function Pieces(p: Payload, fs: seq<Optional>): string {
    if fs == [] then "" else Piece(p, fs[0]) + Pieces(p, fs[1..])
  }

  /** The block a field contributes to the HTML: none when falsy. */
  function BlockPiece(p: Payload, f: Optional): seq<HtmlBlock> {
    if Included(p, f) then [Block(p, f)] else []
  }

  function BlockPieces(p: Payload, fs: seq<Optional>): seq<HtmlBlock> {
    if fs == [] then [] else BlockPiece(p, fs[0]) + BlockPieces(p, fs[1..])
  }

  lemma {:induction false} LinesOfPresent(p: Payload, fs: seq<Optional>)
    ensures Lines(p, PresentOf(p, fs)) == Pieces(p, fs)
  {
    if fs != [] {
      LinesOfPresent(p, fs[1..]);
      var rest := PresentOf(p, fs[1..]);
      if Included(p, fs[0]) {
        var r := [fs[0]] + rest;
        assert r[0] == fs[0] && r[1..] == rest;
        assert PresentOf(p, fs) == r;
      } else {
        assert PresentOf(p, fs) == rest;
      }
    }
  }

  lemma {:induction false} BlocksOfPresent(p: Payload, fs: seq<Optional>)
    ensures Blocks(p, PresentOf(p, fs)) == BlockPieces(p, fs)
  {
    if fs != [] {
      BlocksOfPresent(p, fs[1..]);
      var rest := PresentOf(p, fs[1..]);
      if Included(p, fs[0]) {
        var r := [fs[0]] + rest;
        assert r[0] == fs[0] && r[1..] == rest;
        assert PresentOf(p, fs) == r;
      } else {
        assert PresentOf(p, fs) == rest;
      }
    }
  }

  /** Each field's line is the one the plain-text template writes for it. */
  lemma PieceIsTemplateLine(p: Payload, f: Optional)
    ensures Piece(p, f) == match f
      case TripType => if Js.Truthy(p.tripType) then "Trip type: " + TripTypeLabel(p.tripType) + "\n" else ""
      case StartFrom => if Js.Truthy(p.startFrom) then "Departure location: " + Js.ToText(p.startFrom) + "\n" else ""
      case EndTo => if Js.Truthy(p.endTo) then "Destination: " + Js.ToText(p.endTo) + "\n" else ""
      case Date => if Js.Truthy(p.date) then "Date: " + Js.ToText(p.date) + "\n" else ""
      case Time => if Js.Truthy(p.time) then "Time: " + Js.ToText(p.time) + "\n" else ""
      case Company => if Js.Truthy(p.company) then "Number of passengers: " + Js.ToText(p.company) + "\n" else ""
      case Service => if Js.Truthy(p.service) then "Service type: " + Js.ToText(p.service) + "\n" else ""
  {
    match f
    case TripType => assert LabelOf(f) + ": " == "Trip type: ";
    case StartFrom => assert LabelOf(f) + ": " == "Departure location: ";
    case EndTo => assert LabelOf(f) + ": " == "Destination: ";
    case Date => assert LabelOf(f) + ": " == "Date: ";
    case Time => assert LabelOf(f) + ": " == "Time: ";
    case Company => assert LabelOf(f) + ": " == "Number of passengers: ";
    case Service => assert LabelOf(f) + ": " == "Service type: ";
  }

  lemma PiecesOfSeven(p: Payload, fs: seq<Optional>)
    requires |fs| == 7
    ensures Pieces(p, fs) ==
      Piece(p, fs[0]) + (Piece(p, fs[1]) + (Piece(p, fs[2]) + (Piece(p, fs[3])
      + (Piece(p, fs[4]) + (Piece(p, fs[5]) + (Piece(p, fs[6])))))))
  {
    var t1 := fs[1..];
    var t2 := t1[1..];
    var t3 := t2[1..];
    var t4 := t3[1..];
    var t5 := t4[1..];
    var t6 := t5[1..];
    assert t6[1..] == [];
    assert Pieces(p, t6) == Piece(p, fs[6]) + "";
    assert Pieces(p, t5) == Piece(p, fs[5]) + Pieces(p, t6);
    assert Pieces(p, t4) == Piece(p, fs[4]) + Pieces(p, t5);
    assert Pieces(p, t3) == Piece(p, fs[3]) + Pieces(p, t4);
    assert Pieces(p, t2) == Piece(p, fs[2]) + Pieces(p, t3);
    assert Pieces(p, t1) == Piece(p, fs[1]) + Pieces(p, t2);
  }

  lemma BlockPiecesOfSeven(p: Payload, fs: seq<Optional>)
    requires |fs| == 7
    ensures BlockPieces(p, fs) ==
      BlockPiece(p, fs[0]) + (BlockPiece(p, fs[1]) + (BlockPiece(p, fs[2]) + (BlockPiece(p, fs[3])
      + (BlockPiece(p, fs[4]) + (BlockPiece(p, fs[5]) + (BlockPiece(p, fs[6])))))))
  {
    var t1 := fs[1..];
    var t2 := t1[1..];
    var t3 := t2[1..];
    var t4 := t3[1..];
    var t5 := t4[1..];
    var t6 := t5[1..];
    assert t6[1..] == [];
    assert BlockPieces(p, t6) == BlockPiece(p, fs[6]) + [];
    assert BlockPieces(p, t5) == BlockPiece(p, fs[5]) + BlockPieces(p, t6);
    assert BlockPieces(p, t4) == BlockPiece(p, fs[4]) + BlockPieces(p, t5);
    assert BlockPieces(p, t3) == BlockPiece(p, fs[3]) + BlockPieces(p, t4);
    assert BlockPieces(p, t2) == BlockPiece(p, fs[2]) + BlockPieces(p, t3);
    assert BlockPieces(p, t1) == BlockPiece(p, fs[1]) + BlockPieces(p, t2);
  }

  /** Concatenation of seven parts does not depend on grouping. */
  lemma Regroup<T>(a: seq<T>, b: seq<T>, c: seq<T>, d: seq<T>, e: seq<T>, f: seq<T>, g: seq<T>)
    ensures a + (b + (c + (d + (e + (f + g))))) == a + b + c + d + e + f + g
  {
  }

  /** Each field's block is the one the HTML template writes for it. */
  lemma BlockPieceIsTemplateBlock(p: Payload, f: Optional)
    ensures BlockPiece(p, f) == match f
      case TripType => if Js.Truthy(p.tripType) then [HtmlBlock("Trip type", Shown(TripTypeLabel(p.tripType)))] else []
      case StartFrom => if Js.Truthy(p.startFrom) then [HtmlBlock("Departure location", Shown(Js.ToText(p.startFrom)))] else []
      case EndTo => if Js.Truthy(p.endTo) then [HtmlBlock("Destination", Shown(Js.ToText(p.endTo)))] else []
      case Date => if Js.Truthy(p.date) then [HtmlBlock("Date", LongDate(Js.ToText(p.date)))] else []
      case Time => if Js.Truthy(p.time) then [HtmlBlock("Time", Shown(Js.ToText(p.time)))] else []
      case Company => if Js.Truthy(p.company) then [HtmlBlock("Number of passengers", Shown(Js.ToText(p.company)))] else []
      case Service => if Js.Truthy(p.service) then [HtmlBlock("Service type", Shown(Js.ToText(p.service)))] else []
  {
  }

  /** The plain-text trip details are exactly one "Label: value" line for
      each field that is present, in the fixed order. */
  lemma TripDetailsAreLines(p: Payload)
    ensures TripDetails(p) == Lines(p, Present(p))
  {
    TripDetailsByPiece(p);
    PiecesOfSeven(p, OptionalOrder);
    Regroup(Piece(p, TripType), Piece(p, StartFrom), Piece(p, EndTo), Piece(p, Date),
            Piece(p, Time), Piece(p, Company), Piece(p, Service));
    LinesOfPresent(p, OptionalOrder);
  }

  /** The template's trip details are the fields' lines, side by side. */
  lemma TripDetailsByPiece(p: Payload)
    ensures TripDetails(p) ==
      Piece(p, TripType) + Piece(p, StartFrom) + Piece(p, EndTo) + Piece(p, Date)
      + Piece(p, Time) + Piece(p, Company) + Piece(p, Service)
  {
    PieceIsTemplateLine(p, TripType);
    PieceIsTemplateLine(p, StartFrom);
    PieceIsTemplateLine(p, EndTo);
    PieceIsTemplateLine(p, Date);
    PieceIsTemplateLine(p, Time);
    PieceIsTemplateLine(p, Company);
    PieceIsTemplateLine(p, Service);
  }

  /** The HTML trip blocks are exactly one block for each field that is
      present, in the same order and with the same labels as the text. */
  lemma TripBlocksAreBlocks(p: Payload)
    ensures TripBlocks(p) == Blocks(p, Present(p))
  {
    TripBlocksByPiece(p);
    BlockPiecesOfSeven(p, OptionalOrder);
    Regroup(BlockPiece(p, TripType), BlockPiece(p, StartFrom), BlockPiece(p, EndTo), BlockPiece(p, Date),
            BlockPiece(p, Time), BlockPiece(p, Company), BlockPiece(p, Service));
    BlocksOfPresent(p, OptionalOrder);
  }

  /** The template's trip blocks are the fields' blocks, side by side. */
  lemma TripBlocksByPiece(p: Payload)
    ensures TripBlocks(p) ==
      BlockPiece(p, TripType) + BlockPiece(p, StartFrom) + BlockPiece(p, EndTo) + BlockPiece(p, Date)
      + BlockPiece(p, Time) + BlockPiece(p, Company) + BlockPiece(p, Service)
  {
    BlockPieceIsTemplateBlock(p, TripType);
    BlockPieceIsTemplateBlock(p, StartFrom);
    BlockPieceIsTemplateBlock(p, EndTo);
    BlockPieceIsTemplateBlock(p, Date);
    BlockPieceIsTemplateBlock(p, Time);
    BlockPieceIsTemplateBlock(p, Company);
    BlockPieceIsTemplateBlock(p, Service);
  }

  /** With every trip field but the service filled in, the e-mail lists
      those six, then the service if it is filled in too. */
  lemma PresentWhenTripFilled(p: Payload)
    requires Included(p, TripType) && Included(p, StartFrom) && Included(p, EndTo)
    requires Included(p, Date) && Included(p, Time) && Included(p, Company)
    ensures Present(p) == [TripType, StartFrom, EndTo, Date, Time, Company]
                          + (if Included(p, Service) then [Service] else [])
  {
    var fs := OptionalOrder;
    var t1 := fs[1..];
    var t2 := t1[1..];
    var t3 := t2[1..];
    var t4 := t3[1..];
    var t5 := t4[1..];
    var t6 := t5[1..];
    assert t6[1..] == [];
    assert PresentOf(p, t6) == (if Included(p, Service) then [Service] else []);
    assert PresentOf(p, t5) == [Company] + PresentOf(p, t6);
    assert PresentOf(p, t4) == [Time] + PresentOf(p, t5);
    assert PresentOf(p, t3) == [Date] + PresentOf(p, t4);
    assert PresentOf(p, t2) == [EndTo] + PresentOf(p, t3);
    assert PresentOf(p, t1) == [StartFrom] + PresentOf(p, t2);
  }

  lemma {:induction false} PresentOfMembers(p: Payload, fs: seq<Optional>)
    ensures forall f :: f in PresentOf(p, fs) <==> f in fs && Js.Truthy(ValueOf(p, f))
  {
    if fs != [] {
      PresentOfMembers(p, fs[1..]);
      assert forall f :: f in fs <==> f == fs[0] || f in fs[1..];
    }
  }

  /** A field is listed exactly when its value is truthy. */
  lemma PresentIffTruthy(p: Payload, f: Optional)
    ensures f in Present(p) <==> Js.Truthy(ValueOf(p, f))
  {
    PresentOfMembers(p, OptionalOrder);
    assert OptionalOrder[Rank(f)] == f;
  }

  lemma {:induction false} PresentOfIncreasing(p: Payload, fs: seq<Optional>)
    requires Increasing(fs, Rank)
    ensures Increasing(PresentOf(p, fs), Rank)
    ensures forall f :: f in PresentOf(p, fs) ==> f in fs
  {
    if fs != [] {
      var tail := fs[1..];
      Ordering.TailIncreasing(fs, Rank);
      PresentOfIncreasing(p, tail);
      var rest := PresentOf(p, tail);
      if Included(p, fs[0]) {
        assert forall k :: 0 <= k < |rest| ==> rest[k] in rest;
        Ordering.HeadBelowTail(fs, Rank, rest);
        Ordering.ConsIncreasing(fs[0], rest, Rank);
        assert PresentOf(p, fs) == [fs[0]] + rest;
      } else {
        assert PresentOf(p, fs) == rest;
      }
    }
  }

  /** The listed fields keep the fixed order, so none is listed twice. */
  lemma PresentInOrder(p: Payload)
    ensures Increasing(Present(p), Rank)
  {
    assert forall k :: 0 <= k < |OptionalOrder| ==> Rank(OptionalOrder[k]) == k;
    PresentOfIncreasing(p, OptionalOrder);
  }

  /** Every listed field shows a non-empty value: no empty "Label: " line. */
  lemma NoEmptyValues(p: Payload, f: Optional)
    requires f in Present(p)
    ensures ShownText(p, f) != ""
  {
    PresentIffTruthy(p, f);
  }

  function CountNewlines(s: string): nat {
    if s == [] then 0 else (if s[0] == '\n' then 1 else 0) + CountNewlines(s[1..])
  }

  lemma {:induction false} CountNewlinesAppend(a: string, b: string)
    ensures CountNewlines(a + b) == CountNewlines(a) + CountNewlines(b)
  {
    if a != [] {
      CountNewlinesAppend(a[1..], b);
      assert (a + b)[0] == a[0] && (a + b)[1..] == a[1..] + b;
    } else {
      assert a + b == b;
    }
  }

  lemma {:induction false} CountNewlinesNone(s: string)
    requires '\n' !in s
    ensures CountNewlines(s) == 0
  {
    if s != [] {
      CountNewlinesNone(s[1..]);
    }
  }

  lemma NoBreakInLabel(f: Optional)
    ensures '\n' !in LabelOf(f) + ": "
  {
    var prefix := LabelOf(f) + ": ";
    match f
    case TripType => assert prefix == "Trip type: ";
    case StartFrom => assert prefix == "Departure location: ";
    case EndTo => assert prefix == "Destination: ";
    case Date => assert prefix == "Date: ";
    case Time => assert prefix == "Time: ";
    case Company => assert prefix == "Number of passengers: ";
    case Service => assert prefix == "Service type: ";
  }

  /** A line whose value has no line break ends in its only one. */
  lemma OneNewlinePerLine(p: Payload, f: Optional)
    requires '\n' !in ShownText(p, f)
    ensures CountNewlines(Line(p, f)) == 1
  {
    var prefix := LabelOf(f) + ": ";
    NoBreakInLabel(f);
    CountNewlinesAppend(prefix + ShownText(p, f), "\n");
    CountNewlinesAppend(prefix, ShownText(p, f));
    CountNewlinesNone(prefix);
    CountNewlinesNone(ShownText(p, f));
    assert CountNewlines("\n") == 1 by {
      assert "\n"[1..] == [];
    }
  }

  lemma {:induction false} LinesCount(p: Payload, fs: seq<Optional>)
    requires forall f :: f in fs ==> '\n' !in ShownText(p, f)
    ensures CountNewlines(Lines(p, fs)) == |fs|
  {
    if fs != [] {
      LinesCount(p, fs[1..]);
      OneNewlinePerLine(p, fs[0]);
      CountNewlinesAppend(Line(p, fs[0]), Lines(p, fs[1..]));
    }
  }

  /** When no value spans several lines, the trip details hold exactly as
      many lines as there are truthy optional fields. */
  lemma OneLinePerPresentField(p: Payload)
    requires forall f :: Js.Truthy(ValueOf(p, f)) ==> '\n' !in ShownText(p, f)
    ensures CountNewlines(TripDetails(p)) == |Present(p)|
  {
    TripDetailsAreLines(p);
    forall f | f in Present(p) ensures '\n' !in ShownText(p, f) {
      PresentIffTruthy(p, f);
    }
    LinesCount(p, Present(p));
  }

  lemma {:induction false} LabelsOfBlocks(p: Payload, fs: seq<Optional>)
    ensures |Labels(Blocks(p, fs))| == |fs|
    ensures forall k :: 0 <= k < |fs| ==> Labels(Blocks(p, fs))[k] == LabelOf(fs[k])
  {
    if fs != [] {
      LabelsOfBlocks(p, fs[1..]);
    }
  }

  /** Both renderings list the same optional fields: the k-th optional HTML
      block and the k-th plain-text line carry the same label. */
  lemma RenderingsAgree(p: Payload)
    ensures |Labels(TripBlocks(p))| == |Present(p)|
    ensures forall k :: 0 <= k < |Present(p)| ==> Labels(TripBlocks(p))[k] == LabelOf(Present(p)[k])
  {
    TripBlocksAreBlocks(p);
    LabelsOfBlocks(p, Present(p));
  }
}
