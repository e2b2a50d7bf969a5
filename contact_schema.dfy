/** The booking form's validation schema (ContactSection.tsx): one predicate
    per field, and the first failing message of each field as the form shows
    it beside that field. `today` is the local date the check runs on, and
    `isEmail` stands for the schema library's e-mail syntax check. */
module ContactSchema {
  import Js
  import Calendar
  import opened Wrappers
  import opened Ordering

  /** The form's values. `service` and `message` may be absent; every other
      field is a string, as the form's inputs produce them. */
  datatype FormValues = FormValues(
    name: string,
    email: string,
    phone: string,
    service: Option<string>,
    message: Option<string>,
    tripType: string,
    startFrom: string,
    endTo: string,
    date: string,
    time: string,
    company: string)

  /** The fields in the order the schema declares them. */
  datatype FieldName =
    | Name | Email | Phone | Service | Message | TripType
    | StartFrom | EndTo | Date | Time | Company

  /** A failed check: the field and the message shown for it. */
  datatype Issue = Issue(field: FieldName, message: string)

  /** The values the form starts with and returns to on reset. */
  const Defaults := FormValues(
    name := "", email := "", phone := "", service := Some(""), message := Some(""),
    tripType := "single", startFrom := "", endTo := "", date := "", time := "",
    company := "1")

  const MaxPassengers := 21

  // ---------------------------------------------------------------------
  // Field predicates

  /** The message is optional; when it has a non-blank character it must
      keep at least 10 characters after trimming. */
  predicate MessageOk(m: Option<string>) {
    m.None? || m.value == "" || |Js.Trim(m.value)| == 0 || |Js.Trim(m.value)| >= 10
  }

  /** `new Date(s + "T00:00:00")` is a valid date not before today's midnight. */
  predicate NotInPast(s: string, today: Calendar.ValidDate) {
    match Calendar.Parse(s)
    case None => false
    case Some(d) => Calendar.Ordinal(d) >= Calendar.Ordinal(today)
  }

  /** `Number(s)` is an integer from 1 to 21 (for digit strings; see README). */
  predicate PassengerCountOk(s: string) {
    Js.AllDigits(s) && s != [] && 1 <= Js.DecimalValue(s) <= MaxPassengers
  }

  predicate TripTypeOk(s: string) {
    s == "single" || s == "round"
  }

  /** The messages the schema shows, one per failing rule. */
  const NameTooShort := "Name must be at least 2 characters"
  const BadEmail := "Please enter a valid email address"
  const BadPhone := "Please enter a valid phone number"
  const MessageTooShort := "Message must be at least 10 characters if provided"
  const BadTripTypePrefix := "Invalid enum value. Expected 'single' | 'round', received '"
  const BadStart := "Please enter a valid start location"
  const BadEnd := "Please enter a valid end location"
  const NoDate := "Please select a date"
  const PastDate := "Date cannot be in the past"
  const NoTime := "Please select a time"
  const NoPassengers := "Please select the number of passengers"
  const BadPassengers := "Passengers must be between 1 and 21"

  /** The first message each field fails with, if any. A field whose first
      rule is a minimum length reports that rule before its refinement. */
  function FieldIssue(f: FieldName, v: FormValues, today: Calendar.ValidDate, isEmail: string -> bool): Option<string> {
    match f
    case Name => if |v.name| < 2 then Some(NameTooShort) else None
    case Email => if !isEmail(v.email) then Some(BadEmail) else None
    case Phone => if |v.phone| < 10 then Some(BadPhone) else None
    case Service => None
    case Message => if !MessageOk(v.message) then Some(MessageTooShort) else None
    case TripType => if !TripTypeOk(v.tripType) then Some(BadTripTypePrefix + v.tripType + "'") else None
    case StartFrom => if |v.startFrom| < 2 then Some(BadStart) else None
    case EndTo => if |v.endTo| < 2 then Some(BadEnd) else None
    case Date =>
      if |v.date| < 1 then Some(NoDate)
      else if !NotInPast(v.date, today) then Some(PastDate)
      else None
    case Time => if |v.time| < 1 then Some(NoTime) else None
    case Company =>
      if |v.company| < 1 then Some(NoPassengers)
      else if !PassengerCountOk(v.company) then Some(BadPassengers)
      else None
  }

  const SchemaOrder := [Name, Email, Phone, Service, Message, TripType, StartFrom, EndTo, Date, Time, Company]

  /** The issues of `fields`, in order, given each field's first failing message. */
  function IssuesOf(fields: seq<FieldName>, check: FieldName -> Option<string>): (r: seq<Issue>)
    ensures |r| <= |fields|
    ensures forall k :: 0 <= k < |r| ==> r[k].field in fields && check(r[k].field) == Some(r[k].message)
  {
    if fields == [] then []
    else
      var rest := IssuesOf(fields[1..], check);
      match check(fields[0])
      case None => rest
      case Some(msg) => [Issue(fields[0], msg)] + rest
  }

  /** The per-field check of one set of values. */
  function Checker(v: FormValues, today: Calendar.ValidDate, isEmail: string -> bool): FieldName -> Option<string> {
    f => FieldIssue(f, v, today, isEmail)
  }

  /** What a submit attempt reports: every failing field with its first message. */
  function Issues(v: FormValues, today: Calendar.ValidDate, isEmail: string -> bool): seq<Issue> {
    IssuesOf(SchemaOrder, Checker(v, today, isEmail))
  }

  /** Every rule of the schema holds. */
  predicate Passes(v: FormValues, today: Calendar.ValidDate, isEmail: string -> bool) {
    && |v.name| >= 2
    && isEmail(v.email)
    && |v.phone| >= 10
    && MessageOk(v.message)
    && TripTypeOk(v.tripType)
    && |v.startFrom| >= 2
    && |v.endTo| >= 2
    && NotInPast(v.date, today)
    && |v.time| >= 1
    && PassengerCountOk(v.company)
  }

  // ---------------------------------------------------------------------
  // Properties

  /** The position of a field in the schema. */
  function Rank(f: FieldName): nat
  {
    match f
    case Name => 0 case Email => 1 case Phone => 2 case Service => 3
    case Message => 4 case TripType => 5 case StartFrom => 6 case EndTo => 7
    case Date => 8 case Time => 9 case Company => 10
  }

  lemma {:induction false} IssuesOfEmpty(fields: seq<FieldName>, check: FieldName -> Option<string>)
    ensures IssuesOf(fields, check) == [] <==> forall f :: f in fields ==> check(f).None?
  {
    if fields != [] {
      IssuesOfEmpty(fields[1..], check);
      assert forall f :: f in fields <==> f == fields[0] || f in fields[1..];
    }
  }

  /** No field reports an issue exactly when every rule of the schema holds. */
  lemma NoFieldIssueIffPasses(v: FormValues, today: Calendar.ValidDate, isEmail: string -> bool)
    ensures (forall f :: FieldIssue(f, v, today, isEmail).None?) <==> Passes(v, today, isEmail)
  {
    if Passes(v, today, isEmail) {
      PassingValuesClearEveryField(v, today, isEmail);
    } else {
      FailingValuesHaveFieldIssue(v, today, isEmail);
    }
  }

  lemma FailingValuesHaveFieldIssue(v: FormValues, today: Calendar.ValidDate, isEmail: string -> bool)
    requires !Passes(v, today, isEmail)
    ensures exists f :: FieldIssue(f, v, today, isEmail).Some?
  {
    if |v.name| < 2 {
      assert FieldIssue(Name, v, today, isEmail).Some?;
    } else if !isEmail(v.email) {
      assert FieldIssue(Email, v, today, isEmail).Some?;
    } else if |v.phone| < 10 {
      assert FieldIssue(Phone, v, today, isEmail).Some?;
    } else if !MessageOk(v.message) {
      assert FieldIssue(Message, v, today, isEmail).Some?;
    } else if !TripTypeOk(v.tripType) {
      assert FieldIssue(TripType, v, today, isEmail).Some?;
    } else if |v.startFrom| < 2 {
      assert FieldIssue(StartFrom, v, today, isEmail).Some?;
    } else if |v.endTo| < 2 {
      assert FieldIssue(EndTo, v, today, isEmail).Some?;
    } else if !NotInPast(v.date, today) {
      assert FieldIssue(Date, v, today, isEmail).Some?;
    } else if |v.time| < 1 {
      assert FieldIssue(Time, v, today, isEmail).Some?;
    } else {
      assert FieldIssue(Company, v, today, isEmail).Some?;
    }
  }

  lemma PassingValuesClearEveryField(v: FormValues, today: Calendar.ValidDate, isEmail: string -> bool)
    requires Passes(v, today, isEmail)
    ensures forall f :: FieldIssue(f, v, today, isEmail).None?
  {
    assert Calendar.Parse(v.date).Some?;
  }

  /** Conversely, every checked field that fails is reported, with its
      message. */
  lemma {:induction false} FailingFieldReported(fields: seq<FieldName>, check: FieldName -> Option<string>, f: FieldName)
    requires f in fields && check(f).Some?
    ensures Issue(f, check(f).value) in IssuesOf(fields, check)
  {
    var rest := IssuesOf(fields[1..], check);
    if fields[0] != f {
      assert fields == [fields[0]] + fields[1..];
      FailingFieldReported(fields[1..], check, f);
    }
    if check(fields[0]).Some? {
      assert IssuesOf(fields, check) == [Issue(fields[0], check(fields[0]).value)] + rest;
    } else {
      assert IssuesOf(fields, check) == rest;
    }
  }

  /** Every field whose rule fails is among the issues of a submit attempt,
      with its first failing message. */
  lemma EveryFailingFieldReported(v: FormValues, today: Calendar.ValidDate, isEmail: string -> bool, f: FieldName)
    requires FieldIssue(f, v, today, isEmail).Some?
    ensures Issue(f, FieldIssue(f, v, today, isEmail).value) in Issues(v, today, isEmail)
  {
    InSchema(f);
    var check := Checker(v, today, isEmail);
    assert check(f) == FieldIssue(f, v, today, isEmail);
    FailingFieldReported(SchemaOrder, check, f);
  }

  lemma InSchema(f: FieldName)
    ensures f in SchemaOrder
  {
    assert SchemaOrder[Rank(f)] == f;
  }

  /** Every field name is in the schema. */
  lemma SchemaCoversFields(check: FieldName -> Option<string>)
    ensures (forall f :: f in SchemaOrder ==> check(f).None?) <==> (forall f :: check(f).None?)
  {
    forall f ensures f in SchemaOrder {
      InSchema(f);
    }
  }

  /** A submission goes through exactly when no field reports an issue, and
      that is exactly when every rule of the schema holds. */
  lemma IssuesEmptyIffPasses(v: FormValues, today: Calendar.ValidDate, isEmail: string -> bool)
    ensures Issues(v, today, isEmail) == [] <==> Passes(v, today, isEmail)
  {
    var check := Checker(v, today, isEmail);
    IssuesOfEmpty(SchemaOrder, check);
    SchemaCoversFields(check);
    NoFieldIssueIffPasses(v, today, isEmail);
    assert forall f :: check(f) == FieldIssue(f, v, today, isEmail);
  }

  function FieldsOf(r: seq<Issue>): (fs: seq<FieldName>)
    ensures |fs| == |r| && forall k :: 0 <= k < |r| ==> fs[k] == r[k].field
  {
    seq(|r|, k requires 0 <= k < |r| => r[k].field)
  }

  lemma {:induction false} IssuesOfOrdered(fields: seq<FieldName>, check: FieldName -> Option<string>, rank: FieldName -> nat)
    requires Increasing(fields, rank)
    ensures Increasing(FieldsOf(IssuesOf(fields, check)), rank)
  {
    if fields != [] {
      Ordering.TailIncreasing(fields, rank);
      IssuesOfOrdered(fields[1..], check, rank);
      var rest := FieldsOf(IssuesOf(fields[1..], check));
      if check(fields[0]).Some? {
        Ordering.HeadBelowTail(fields, rank, rest);
        Ordering.ConsIncreasing(fields[0], rest, rank);
        assert FieldsOf(IssuesOf(fields, check)) == [fields[0]] + rest;
      } else {
        assert FieldsOf(IssuesOf(fields, check)) == rest;
      }
    }
  }

  lemma RanksIncrease()
    ensures Increasing(SchemaOrder, Rank)
  {
    assert forall k :: 0 <= k < |SchemaOrder| ==> Rank(SchemaOrder[k]) == k;
  }

  /** The issues follow the schema's field order, so each field reports at
      most one message, and each carries its field's first failing message. */
  lemma IssuesFollowSchemaOrder(v: FormValues, today: Calendar.ValidDate, isEmail: string -> bool)
    ensures Increasing(FieldsOf(Issues(v, today, isEmail)), Rank)
    ensures var r := Issues(v, today, isEmail);
            forall k :: 0 <= k < |r| ==> FieldIssue(r[k].field, v, today, isEmail) == Some(r[k].message)
  {
    RanksIncrease();
    IssuesOfOrdered(SchemaOrder, Checker(v, today, isEmail), Rank);
  }

  /** A field whose rule holds is never reported. */
  lemma PassingFieldNotReported(fields: seq<FieldName>, check: FieldName -> Option<string>, f: FieldName)
    requires check(f).None?
    ensures forall k :: 0 <= k < |IssuesOf(fields, check)| ==> IssuesOf(fields, check)[k].field != f
  {
  }

  /** The message is accepted exactly when it is absent, empty, made only of
      blanks, or keeps at least 10 characters once trimmed. */
  lemma MessageRule(m: Option<string>)
    ensures MessageOk(m) <==>
            m.None? || Js.AllBlank(m.value) || |Js.Trim(m.value)| >= 10
  {
    if m.Some? {
      Js.TrimEmptyIffAllBlank(m.value);
    }
  }

  /** Counted on the message as typed: with `i` blanks before its first
      non-blank character and the last one at `j - 1`, a non-blank message is
      accepted exactly when `j - i` is at least 10. */
  lemma MessageRuleOnCore(s: string, i: nat, j: nat)
    requires i < j <= |s|
    requires forall k :: 0 <= k < i ==> Js.IsBlank(s[k])
    requires forall k :: j <= k < |s| ==> Js.IsBlank(s[k])
    requires !Js.IsBlank(s[i]) && !Js.IsBlank(s[j - 1])
    ensures MessageOk(Some(s)) <==> j - i >= 10
  {
    Js.TrimIsCore(s, i, j);
  }

  /** The date is accepted exactly when it names a real day that is not
      before today in the calendar; today itself is accepted. */
  lemma DateRule(s: string, today: Calendar.ValidDate)
    ensures NotInPast(s, today) <==>
            Calendar.Parse(s).Some? && !Calendar.Before(Calendar.Parse(s).value, today)
  {
    if Calendar.Parse(s).Some? {
      Calendar.OrdinalOrderIsCalendarOrder(Calendar.Parse(s).value, today);
    }
  }

  /** The date input's own text for today passes the date rule. */
  lemma TodayAccepted(today: Calendar.ValidDate)
    ensures |Calendar.Format(today)| >= 1 && NotInPast(Calendar.Format(today), today)
  {
    Calendar.ParseFormat(today);
  }

  /** Any earlier day fails the date rule. */
  lemma PastRejected(d: Calendar.ValidDate, today: Calendar.ValidDate)
    requires Calendar.Before(d, today)
    ensures !NotInPast(Calendar.Format(d), today)
  {
    Calendar.ParseFormat(d);
    Calendar.OrdinalFollowsCalendar(d, today);
  }

  /** Every option the passenger select offers, "1" to "21", passes. */
  lemma PassengerOptionsAccepted(n: nat)
    requires 1 <= n <= MaxPassengers
    ensures PassengerCountOk(Js.NatToDecimal(n))
  {
    Js.DecimalRoundTrip(n);
  }

  /** A digit string is accepted exactly when it reads as a number of
      passengers from 1 to 21; "0" and "22" and beyond are rejected. */
  lemma PassengerRange(n: nat)
    ensures PassengerCountOk(Js.NatToDecimal(n)) <==> 1 <= n <= MaxPassengers
  {
    Js.DecimalRoundTrip(n);
  }

  /** The defaults already satisfy the trip type, passenger and message
      rules; the fields the user must type in do not. */
  lemma DefaultsStatus(today: Calendar.ValidDate, isEmail: string -> bool)
    ensures TripTypeOk(Defaults.tripType) && PassengerCountOk(Defaults.company) && MessageOk(Defaults.message)
    ensures !Passes(Defaults, today, isEmail)
  {
    assert Defaults.company == Js.NatToDecimal(1);
    PassengerOptionsAccepted(1);
  }
}
