# Bus-X booking site: a verified model

This project models the three pieces of the Bus-X website that hold logic:

- **The booking e-mail function** (`netlify/functions/send-email.js`). It takes one HTTP event and answers with exactly one response:
  - 405 for any method but POST;
  - 400 when name, email, phone or message is falsy;
  - otherwise it hands one e-mail to the delivery service and answers 200 with the delivery id;
  - 500 when reading the body or the delivery throws.

  The e-mail has a plain-text part and an HTML part. Each lists one line or block for every trip field that is filled in, in a fixed order. Module `SendEmail` models this, on top of the JavaScript value semantics in module `Js`.
- **The booking form** (`client/src/components/ContactSection.tsx`). Module `ContactSchema` holds the schema's rules as predicates, the first message each field fails with, the default values and the ordered issue list. Module `ContactForm` holds the form itself: class `BookingForm` with the current values and the pending flag. It has methods for typing, the trip-type buttons, the passenger select, submitting, the request's outcome and "Clear Form". The date rule uses module `Calendar` for date text and day order. A submit first meets the browser's own constraint check, which the form does not switch off: the e-mail input's syntax and the date input's minimum, the UTC date. Only values that pass it reach the schema. West of UTC in the evening, that minimum is already tomorrow, so local today is refused although the schema accepts it (`ContactForm.LocalTodayBelowUtcMin`).
- **The gallery carousel** (`client/src/components/GallerySection.tsx`). Module `Gallery` holds the twelve entries and class `Carousel`. The class tracks the preview index, the lightbox item, the interval id kept in the ref, and the set of intervals the browser still has scheduled. Real time becomes `Tick(id)` events.

Module `ClientServer` joins the two sides. The form posts its values as JSON to `/api/contact`, and the model takes that endpoint to be served by the e-mail function (the routing itself is not part of this model). The two sides check different rules. The form lets an empty message through, and its default message is empty. The function refuses an empty message with 400. `ClientServer.AcceptedFormSentIffMessage` and `ClientServer.EmptyMessageReachable` state this.

Parameters stand for what lies outside the code:
- the e-mail address check (`isEmail`);
- the browser's own e-mail syntax check (`htmlEmail`) and the UTC date the date input takes as its minimum (`minDate`);
- today's date;
- the outcome of the delivery call;
- the two formatted "received on" times, since the clock is read once for each body of the e-mail;
- the result of parsing the request body.

## Model

| member | source | states |
|---|---|---|
| Js.ToText | netlify/functions/send-email.js:156-163 | A string interpolates as itself; a truthy value never interpolates as the empty text |
| Js.Truthy | netlify/functions/send-email.js:18 | JavaScript truthiness of a field value; `SendEmail.PresentIffTruthy` states that a trip field is listed exactly when it holds, and `SendEmail.Handle` that 400 is answered exactly when a required field fails it |
| Js.NatToDecimal | client/src/components/ContactSection.tsx:368-375 | The text of a number is a non-empty digit string that starts with 0 only for 0 |
| Js.DecimalRoundTrip | client/src/components/ContactSection.tsx:46-49 | Reading back the text `toString` writes for n gives n |
| Js.DecimalInjective | client/src/components/ContactSection.tsx:368-375 | Different passenger options have different texts |
| Js.DecimalValue | client/src/components/ContactSection.tsx:46-47 | `Number(val)` on a digit string; `Js.DecimalRoundTrip` states that it reads back the text of every number, and `ContactSchema.PassengerRange` how the passenger rule uses it |
| Js.TrimIsCore | client/src/components/ContactSection.tsx:25-26 | `trim` keeps exactly the part between the first and the last non-blank character |
| Js.TrimEmptyIffAllBlank | client/src/components/ContactSection.tsx:25 | The trimmed message is empty exactly when every character is blank |
| Js.Trim | client/src/components/ContactSection.tsx:25 | `String.prototype.trim`; `Js.TrimIsCore` states that it keeps exactly the span from the first to the last non-blank character, and `Js.TrimEmptyIffAllBlank` when it is empty |
| Calendar.DaysInMonth | client/src/components/ContactSection.tsx:37 | Every month has 28 to 31 days |
| Calendar.OrdinalOrderIsCalendarOrder | client/src/components/ContactSection.tsx:36-41 | Comparing local-midnight times (day numbers) is comparing dates by year, month, day; equal numbers mean the same date |
| Calendar.Ordinal | client/src/components/ContactSection.tsx:37-40 | The time of a local midnight, counted in days; `Calendar.OrdinalOrderIsCalendarOrder` states that it orders dates as the calendar does, and equal numbers mean equal dates |
| Calendar.ParseFormat | client/src/components/ContactSection.tsx:37 | Every valid date written as "YYYY-MM-DD" reads back as itself |
| Calendar.FormatParse | client/src/components/ContactSection.tsx:37 | Text that reads as a date is that date's own "YYYY-MM-DD" |
| Calendar.Parse | client/src/components/ContactSection.tsx:37 | Reading "YYYY-MM-DD" text as a date; `Calendar.ParseFormat` and `Calendar.FormatParse` state that it reads exactly the canonical text of each valid date |
| ContactSchema.IssuesOf | client/src/components/ContactSection.tsx:14-50 | Each reported issue names a checked field and carries that field's failing message |
| ContactSchema.FieldIssue | client/src/components/ContactSection.tsx:14-50 | The first failing message of one field; `ContactSchema.NoFieldIssueIffPasses` states that no field has one exactly when every rule holds |
| ContactSchema.Passes | client/src/components/ContactSection.tsx:14-50 | The conjunction of the schema's rules; `ContactSchema.IssuesEmptyIffPasses` states that a submit attempt reports no issue exactly when it holds |
| ContactSchema.Issues | client/src/components/ContactSection.tsx:58 | The issues the resolver reports for the whole form; `ContactSchema.IssuesEmptyIffPasses`, `ContactSchema.EveryFailingFieldReported` and `ContactSchema.IssuesFollowSchemaOrder` state that it is empty exactly when every rule holds, holds each failing field, and keeps the schema order |
| ContactSchema.TripTypeOk | client/src/components/ContactSection.tsx:30 | The trip-type enum; `ContactForm.TripValue` states that both buttons set a value it accepts |
| ContactSchema.MessageOk | client/src/components/ContactSection.tsx:23-27 | The optional-message rule; `ContactSchema.MessageRule` and `ContactSchema.MessageRuleOnCore` state it as absent, blank or at least 10 characters once trimmed |
| ContactSchema.NotInPast | client/src/components/ContactSection.tsx:36-41 | The date refinement; `ContactSchema.DateRule`, `ContactSchema.TodayAccepted` and `ContactSchema.PastRejected` state that it accepts exactly valid dates from today on |
| ContactSchema.PassengerCountOk | client/src/components/ContactSection.tsx:46-49 | The passenger refinement; `ContactSchema.PassengerRange` states that the text of n passes exactly when 1 <= n <= 21 |
| ContactSchema.FailingFieldReported | client/src/components/ContactSection.tsx:14-50 | Every checked field whose rule fails appears among the issues, with its failing message |
| ContactSchema.IssuesEmptyIffPasses | client/src/components/ContactSection.tsx:14-50 | A submit attempt reports no issue exactly when every rule of the schema holds |
| ContactSchema.EveryFailingFieldReported | client/src/components/ContactSection.tsx:14-50 | Each field of the form whose rule fails is reported on submit, with its first failing message |
| ContactSchema.NoFieldIssueIffPasses | client/src/components/ContactSection.tsx:14-50 | No field has a failing message exactly when every rule holds |
| ContactSchema.IssuesFollowSchemaOrder | client/src/components/ContactSection.tsx:14-50 | Issues come in schema order, at most one per field, each with the field's first failing message |
| ContactSchema.MessageRule | client/src/components/ContactSection.tsx:19-29 | A message passes exactly when it is absent, blank, or at least 10 characters after trimming |
| ContactSchema.MessageRuleOnCore | client/src/components/ContactSection.tsx:23-27 | A message with non-blank content passes exactly when that content spans at least 10 characters |
| ContactSchema.DateRule | client/src/components/ContactSection.tsx:33-41 | The date passes exactly when it is a valid "YYYY-MM-DD" date that is not before today |
| ContactSchema.TodayAccepted | client/src/components/ContactSection.tsx:36-41 | Today's own date passes the date rule |
| ContactSchema.PastRejected | client/src/components/ContactSection.tsx:36-41 | Any earlier day fails the date rule |
| ContactSchema.PassengerOptionsAccepted | client/src/components/ContactSection.tsx:368-375 | Every option "1" to "21" of the passenger select passes the passenger rule |
| ContactSchema.PassengerRange | client/src/components/ContactSection.tsx:43-49 | The text of n passes the passenger rule exactly when 1 <= n <= 21 |
| ContactSchema.DefaultsStatus | client/src/components/ContactSection.tsx:59-71 | The defaults satisfy the trip-type, passenger and message rules, but the empty form as a whole is refused |
| ContactForm.TripValue | client/src/components/ContactSection.tsx:189-202 | Both trip-type buttons set a value the enum accepts |
| ContactForm.WithText | client/src/components/ContactSection.tsx:205-360 | Typing into one input changes what that input shows and nothing else |
| ContactForm.ToastFor | client/src/components/ContactSection.tsx:80-94 | Only a failure gives a destructive toast; it shows the error's message when it has one; the description is never empty |
| ContactForm.BrowserAccepts | client/src/components/ContactSection.tsx:255-258 | The browser's constraint check before the handler; `ContactForm.BookingForm.Submit` states that the handler runs exactly when it passes |
| ContactForm.LocalTodayBelowUtcMin | client/src/components/ContactSection.tsx:258 | When the UTC date is already later than the local date, local today passes the schema's date rule but the browser refuses it |
| ContactForm.SelectedFieldsNeverReported | client/src/components/ContactSection.tsx:30 | Values that the buttons and the select can set never produce a trip-type or passenger issue |
| ContactForm.BookingForm.constructor | client/src/components/ContactSection.tsx:57-72 | The form starts at the default values, not pending |
| ContactForm.BookingForm.SubmitLabel | client/src/components/ContactSection.tsx:414-416 | The button reads "Sending..." exactly while it is disabled, which is exactly while pending |
| ContactForm.BookingForm.Type | client/src/components/ContactSection.tsx:205-360 | Typing updates one input and keeps the form's invariant |
| ContactForm.BookingForm.SelectTripType | client/src/components/ContactSection.tsx:189-202 | A trip-type button sets that trip type and nothing else |
| ContactForm.BookingForm.SelectPassengers | client/src/components/ContactSection.tsx:354-380 | Choosing option n sets the passenger count to n's text and nothing else |
| ContactForm.BookingForm.Submit | client/src/components/ContactSection.tsx:97-99 | Blocked exactly while pending; otherwise refused by the browser exactly when its constraint check fails, without running the handler; otherwise a request carrying the unchanged values goes out exactly when every rule holds, and only then does the form become pending; failing values are rejected with exactly their issues, none of them about the trip type or the passenger count |
| ContactForm.BookingForm.Settle | client/src/components/ContactSection.tsx:80-94 | Success resets every field to its default; failure leaves the values as they were; either way pending ends |
| ContactForm.BookingForm.Clear | client/src/components/ContactSection.tsx:101-103 | "Clear Form" resets every field to its default |
| ContactForm.BookingForm.Reset | client/src/components/ContactSection.tsx:86 | The reset restores the defaults and keeps the invariant |
| SendEmail.TripTypeLabel | netlify/functions/send-email.js:161 | "Single trip" exactly for the string "single"; every other value reads "Round trip" |
| SendEmail.ServerError | netlify/functions/send-email.js:193-206 | A caught error gives 500, success false, and the error's message or "Failed to send email" |
| SendEmail.Delivered | netlify/functions/send-email.js:182-192 | The 200 response; `SendEmail.Handle` states that it is the answer exactly when the e-mail was handed over and the delivery returned, carrying the delivery id |
| SendEmail.Handle | netlify/functions/send-email.js:5-207 | 405 exactly for a method other than POST; 400 exactly when a required field is falsy; a read failure gives 500; one e-mail is sent exactly when the request passes both checks; 200 exactly when that send succeeds, with its id; a failed send gives 500 |
| SendEmail.Compose | netlify/functions/send-email.js:171-178 | The request handed to the delivery service; `ClientServer.FilledEmailAddressesCustomer` states its recipients, reply-to address and subject for posted form values |
| SendEmail.Destructure | netlify/functions/send-email.js:14 | Reading the booking fields out of the parsed body; `ClientServer.ReadsBackFormValues` states that it gives back exactly the values the form posted |
| SendEmail.HasRequired | netlify/functions/send-email.js:17 | The server's required-field test; `SendEmail.Handle` states that the answer is 400 exactly when a parsed POST body fails it |
| SendEmail.HtmlFor | netlify/functions/send-email.js:29-147 | The HTML body; `SendEmail.TripBlocksAreBlocks` and `SendEmail.RenderingsAgree` state that its trip blocks list the same fields as the text body, in the same order |
| SendEmail.TextFor | netlify/functions/send-email.js:150-168 | The plain-text body; its trip section is `SendEmail.TripDetails`, whose lines `SendEmail.TripDetailsAreLines` describes |
| SendEmail.TripDetails | netlify/functions/send-email.js:161 | The text trip section; `SendEmail.TripDetailsAreLines` states that it is one line per truthy field in the fixed order |
| SendEmail.TripBlocks | netlify/functions/send-email.js:75-127 | The HTML trip blocks; `SendEmail.TripBlocksAreBlocks` states that they are one block per truthy field in the same order |
| SendEmail.TripDetailsAreLines | netlify/functions/send-email.js:161 | The trip details are exactly one "Label: value" line per truthy optional field, in the fixed order |
| SendEmail.TripBlocksAreBlocks | netlify/functions/send-email.js:75-127 | The HTML trip blocks are exactly one block per truthy optional field, in the same order |
| SendEmail.RenderingsAgree | netlify/functions/send-email.js:73-127 | The k-th HTML trip block and the k-th text line carry the same label |
| SendEmail.PresentIffTruthy | netlify/functions/send-email.js:161 | A trip field is listed exactly when its value is truthy |
| SendEmail.PresentInOrder | netlify/functions/send-email.js:161 | Listed fields keep the order trip type, start, destination, date, time, passengers, service, each at most once |
| SendEmail.PresentWhenTripFilled | netlify/functions/send-email.js:161 | With the six trip fields filled in, those six are listed, then the service if it is filled in |
| SendEmail.NoEmptyValues | netlify/functions/send-email.js:161 | No listed line has an empty value |
| SendEmail.OneLinePerPresentField | netlify/functions/send-email.js:161 | When no value contains a line break, the trip details have exactly one line per truthy field |
| Gallery.ItemsShape | client/src/components/GallerySection.tsx:48-171 | The gallery has twelve entries, all pictures |
| Gallery.Next | client/src/components/GallerySection.tsx:209-211 | One firing keeps the index in range and wraps to 0 exactly after the last entry |
| Gallery.Advance | client/src/components/GallerySection.tsx:210 | The preview after k firings; it stays in range, and `Gallery.AdvanceIsRotation` states that it is the start moved k places with wrap-around |
| Gallery.AdvanceIsRotation | client/src/components/GallerySection.tsx:210 | k firings move the index k places on, modulo the gallery length |
| Gallery.FullRoundReturns | client/src/components/GallerySection.tsx:210 | A full round of firings returns to the starting entry |
| Gallery.RoundReachesEvery | client/src/components/GallerySection.tsx:210 | Within one round every entry is previewed |
| Gallery.RoundNeverRepeats | client/src/components/GallerySection.tsx:210 | Within one round no entry is previewed twice |
| Gallery.Carousel.Mount | client/src/components/GallerySection.tsx:189-202 | Mounting shows the first entry with no lightbox and one interval running |
| Gallery.Carousel.CurrentItem | client/src/components/GallerySection.tsx:232 | The previewed entry always exists |
| Gallery.Carousel.StartAutoChange | client/src/components/GallerySection.tsx:204-212 | The old interval is cleared before a new one starts; afterwards exactly the new one runs |
| Gallery.Carousel.Tick | client/src/components/GallerySection.tsx:209-211 | A running interval advances the preview by one place with wrap-around; a cleared one changes nothing |
| Gallery.Carousel.ThumbnailClick | client/src/components/GallerySection.tsx:214-217 | A thumbnail click previews that entry and restarts the interval |
| Gallery.Carousel.OpenLightbox | client/src/components/GallerySection.tsx:219-225 | Opening shows the previewed entry and stops every interval; the index is unchanged |
| Gallery.Carousel.CloseLightbox | client/src/components/GallerySection.tsx:227-230 | Closing empties the lightbox and restarts exactly one interval |
| Gallery.Carousel.Unmount | client/src/components/GallerySection.tsx:197-201 | The cleanup leaves no interval running |
| Gallery.AtMostOneTimer | client/src/components/GallerySection.tsx:204-212 | At most one interval runs at any time, and it is the one the ref holds |
| Gallery.PauseWhileOpen | client/src/components/GallerySection.tsx:219-225 | After opening the lightbox, a firing leaves the preview where it was |
| ClientServer.ReadsBackFormValues | netlify/functions/send-email.js:15 | The function reads back exactly the values the form posted; an absent optional field reads as undefined |
| ClientServer.AcceptedContactFilled | client/src/components/ContactSection.tsx:15-17 | When the address check refuses the empty string, accepted values carry a name, an address and a phone number |
| ClientServer.AcceptedFormSentIffMessage | netlify/functions/send-email.js:18-26 | For values the form accepts, the e-mail is sent exactly when the message is non-empty; otherwise the answer is 400 |
| ClientServer.ContactFilledSentIffMessage | netlify/functions/send-email.js:18-26 | With name, address and phone filled in, the posted values are sent exactly when the message is non-empty, and otherwise answered with the 400 response |
| ClientServer.SentEmailAddressesCustomer | netlify/functions/send-email.js:171-178 | A sent e-mail replies to the typed address, names the customer in its subject and goes to the two fixed recipients |
| ClientServer.FilledEmailAddressesCustomer | netlify/functions/send-email.js:171-178 | With name, address, phone and message filled in, the e-mail goes to the two recipients, replies to the typed address and names the customer in its subject |
| ClientServer.AcceptedTripFieldsFilled | client/src/components/ContactSection.tsx:30-49 | Accepted values always fill in the trip type, both places, the date, the time and the passenger count |
| ClientServer.AcceptedFormTripDetails | netlify/functions/send-email.js:161 | For accepted values the e-mail lists those six trip fields, then the service if one was given; the trip type reads as the chosen button |
| ClientServer.FilledTripDetails | netlify/functions/send-email.js:161 | With those six fields filled in, the e-mail lists them and then the service if one was given |
| ClientServer.EmptyMessageReachable | client/src/components/ContactSection.tsx:19-29 | If any address passes the check, some values with an empty message pass the form; the default message is empty |

## Left out

- The e-mail address check is the schema library's regular expression. It is a parameter `isEmail` here.
- ContactForm.BrowserAccepts: the browser's e-mail syntax for `type="email"` inputs is a parameter `htmlEmail`, and the date input's `min` is a parameter `minDate`, the UTC date of the moment the form was rendered. The bubble the browser shows on a refusal is not modelled; `BrowserRefused` stands for it.
- ContactSchema.PassengerCountOk: `Number(val)` is modelled only for decimal digit strings. `Number` also accepts text such as "1.0", " 5 " or "0x5", and the model refuses those. This rule is therefore stronger than the source's. Every value the passenger select can set is a digit string.
- Lengths are counted in code points. JavaScript counts UTF-16 code units, so the two differ for characters outside the Basic Multilingual Plane.
- Calendar.Parse: only "YYYY-MM-DD" text naming a real day, with a year up to 9999, reads as a date.
  - The JavaScript engine rolls some impossible days over instead of refusing them; "2025-02-30" becomes 2 March.
  - Other date forms are refused here.
  - The date input only produces "YYYY-MM-DD" values.
- The long Australian date in the HTML e-mail (`toLocaleDateString('en-AU')`) is kept as the raw value it is made from.
- The Sydney-time "received on" stamps are parameters, one for the HTML body and one for the text body (`SendEmail.Stamps`); how the clock advances between the two readings is not modelled.
- The HTML e-mail is modelled as its labelled blocks and its timestamp. Its markup, styles and fixed prose are not modelled.
- The Resend client, the API key, `console` logging and the shape of the delivery service's reply are not modelled. The delivery is an outcome parameter: `Sent(id)` or `SendThrew(message)`.
- JSON values are undefined, null, booleans, integers and strings. Fractional numbers, arrays and objects in the request body are not modelled.
- Js.ToText: a number is written as its plain decimal digits. JavaScript writes a number of magnitude 10^21 or more in exponent form ("1e+21"), and a JSON number that large is a double that holds the integer only approximately. So a hand-made request with such a passenger count reads differently in the e-mail than in this model; the form itself only sends "1" to "21".
- ContactSchema.FieldIssue: the trip-type message follows the wording of zod version 3, which names the received value. The library's version is not part of this model, and the form's two trip-type buttons never produce this message.
- A thrown value without a `message` counts as an empty message.
- React rendering, framer-motion animation, the Dialog component and the 5000 ms period of the interval are not modelled. Time is a sequence of `Tick(id)` events.
- The form's `apiRequest` helper and toast hook are not modelled. The model stands a request outcome in for them.
- `client/src/components/Footer.tsx` is static markup and is not part of this model.
