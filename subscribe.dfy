/** The POST handler of src/pages/api/subscribe.ts: validate the request, check the
    marketing provider's key, resolve the download, create the contact, send the download
    event, reply with the download URL. */
module Subscribe {
  import opened Wrappers
  import opened Http
  import opened Text
  import opened Validation

  /** The JSON body of the request; an absent field reads as "" (both are falsy). */
  datatype SubscribeRequest = SubscribeRequest(email: string, leadMagnet: string, firstName: string)

  /** What an outbound call to the provider came back with: an ok status, a non-ok status
      with the response text, or an exception (network failure). */
  datatype CallOutcome = Ok | NotOk(text: string) | Threw

  /** The body of the create-contact call. */
  datatype ContactCreate = ContactCreate(
    email: string, firstName: string, source: string,
    leadMagnet: string, downloadUrl: string, userGroup: string)

  /** The body of the event call. */
  datatype DownloadEvent = DownloadEvent(email: string, eventName: string, leadMagnet: string, downloadUrl: string)

  /** The reply, and the bodies of the calls the handler made, in the order it makes them. */
  datatype SubscribeResult = SubscribeResult(reply: Reply, create: Option<ContactCreate>, event: Option<DownloadEvent>)

  const DefaultLeadMagnet := "drift-checklist"

  /** The lead-magnet table. */
  const PdfUrls: map<string, string> := map[
    "drift-checklist" := "/downloads/drift-checklist.pdf",
    "maturity-model" := "/downloads/maturity-model.pdf",
    "pr-review-cheatsheet" := "/downloads/pr-review-cheatsheet.pdf"
  ]

  /** `pdfUrls[id] || pdfUrls['drift-checklist']`: the known magnet's PDF, else the default
      one; never an error. */
  function DownloadUrl(leadMagnet: string): (r: string)
    ensures leadMagnet in PdfUrls ==> r == PdfUrls[leadMagnet]
    ensures leadMagnet !in PdfUrls ==> r == "/downloads/drift-checklist.pdf"
    ensures r in PdfUrls.Values
  {
    var found := if leadMagnet in PdfUrls then PdfUrls[leadMagnet] else "";
    if found != "" then found else PdfUrls[DefaultLeadMagnet]
  }

  predicate FieldsPresent(d: SubscribeRequest) {
    d.email != "" && d.leadMagnet != ""
  }

  /** A create outcome after which the contact exists: success, or a failure the handler
      tolerates because the contact is already there. A thrown call never counts. */
  predicate ContactAvailable(create: CallOutcome): (r: bool)
    ensures create.Ok? ==> r
    ensures create.Threw? ==> !r
    ensures create == NotOk("") ==> !r
  {
    create.Ok? || (create.NotOk? && Includes(create.text, "already exists"))
  }

  /** The create-contact body: the subscriber's fields, tagged as a lead, with the resolved
      download. */
  function ContactBody(d: SubscribeRequest): (c: ContactCreate)
    ensures c.email == d.email && c.firstName == d.firstName && c.leadMagnet == d.leadMagnet
    ensures c.downloadUrl == DownloadUrl(d.leadMagnet) && c.downloadUrl in PdfUrls.Values
  {
    ContactCreate(d.email, d.firstName, "lead-magnet", d.leadMagnet, DownloadUrl(d.leadMagnet), "leads")
  }

  /** The event body: the subscriber's address and lead magnet with the resolved download. */
  function EventBody(d: SubscribeRequest): (e: DownloadEvent)
    ensures e.email == d.email && e.leadMagnet == d.leadMagnet
    ensures e.downloadUrl == DownloadUrl(d.leadMagnet) && e.downloadUrl in PdfUrls.Values
  {
    DownloadEvent(d.email, "leadMagnetDownload", d.leadMagnet, DownloadUrl(d.leadMagnet))
  }

  /** The handler. `body` is None when the request body cannot be read as a JSON object;
      `apiKey` is the provider's key ("" when unset); `create` and `event` are what the
      two calls come back with if they are made. */
  function HandleSubscribe(body: Option<SubscribeRequest>, apiKey: string, create: CallOutcome, event: CallOutcome)
    : (r: SubscribeResult)
    ensures r.reply.status in {200, 400, 500}
    ensures r.create.Some? <==>
      body.Some? && FieldsPresent(body.value) && IsValidEmail(body.value.email) && apiKey != ""
    ensures r.event.Some? <==> r.create.Some? && ContactAvailable(create)
    ensures r.reply.status == 200 <==> r.event.Some? && !event.Threw?
    ensures r.reply.status == 400 <==>
      body.Some? && (!FieldsPresent(body.value) || !IsValidEmail(body.value.email))
    ensures r.reply.downloadUrl.Some? <==> r.reply.status == 200
    ensures r.create.Some? ==> r.create.value == ContactBody(body.value)
    ensures r.event.Some? ==> r.event.value == EventBody(body.value)
    ensures r.reply.status == 200 ==>
      r.reply == Reply(200, "Subscribed successfully", Some(DownloadUrl(body.value.leadMagnet)))
  {
    if body.None? then SubscribeResult(UnexpectedError, None, None)
    else
      var d := body.value;
      if !FieldsPresent(d) then
        SubscribeResult(Reply(400, "Email and lead magnet are required", None), None, None)
      else if !IsValidEmail(d.email) then
        SubscribeResult(Reply(400, "Invalid email address", None), None, None)
      else if apiKey == "" then
        SubscribeResult(Reply(500, "Email service not configured", None), None, None)
      else
        var contact := ContactBody(d);
        match create
        case Threw => SubscribeResult(UnexpectedError, Some(contact), None)
        case NotOk(text) =>
          if !Includes(text, "already exists") then
            SubscribeResult(Reply(500, "Failed to subscribe", None), Some(contact), None)
          else
            AfterContact(d, contact, event)
        case Ok => AfterContact(d, contact, event)
  }

  /** The part after the contact exists: send the event, and succeed unless it throws. */
  function AfterContact(d: SubscribeRequest, contact: ContactCreate, event: CallOutcome): (r: SubscribeResult)
    ensures r.create == Some(contact) && r.event == Some(EventBody(d))
    ensures r.reply.status == 200 <==> !event.Threw?
  {
    var sent := EventBody(d);
    if event.Threw? then SubscribeResult(UnexpectedError, Some(contact), Some(sent))
    else SubscribeResult(Reply(200, "Subscribed successfully", Some(sent.downloadUrl)), Some(contact), Some(sent))
  }

  /** Missing fields are reported before the address or the key is looked at. */
  lemma MissingFieldsFirst(d: SubscribeRequest, apiKey: string, create: CallOutcome, event: CallOutcome)
    requires !FieldsPresent(d)
    ensures HandleSubscribe(Some(d), apiKey, create, event) ==
      SubscribeResult(Reply(400, "Email and lead magnet are required", None), None, None)
  {
  }

  /** A malformed address is reported before the key is looked at; no call is made. */
  lemma InvalidEmailSecond(d: SubscribeRequest, apiKey: string, create: CallOutcome, event: CallOutcome)
    requires FieldsPresent(d) && !IsValidEmail(d.email)
    ensures HandleSubscribe(Some(d), apiKey, create, event) ==
      SubscribeResult(Reply(400, "Invalid email address", None), None, None)
  {
  }

  /** Without a key the handler answers 500 and makes no call. */
  lemma MissingKeyThird(d: SubscribeRequest, create: CallOutcome, event: CallOutcome)
    requires FieldsPresent(d) && IsValidEmail(d.email)
    ensures HandleSubscribe(Some(d), "", create, event) ==
      SubscribeResult(Reply(500, "Email service not configured", None), None, None)
  {
  }

  /** A create failure that is not "already exists" ends the request: 500, no event call. */
  lemma CreateFailureAborts(d: SubscribeRequest, apiKey: string, text: string, event: CallOutcome)
    requires FieldsPresent(d) && IsValidEmail(d.email) && apiKey != ""
    requires !Includes(text, "already exists")
    ensures HandleSubscribe(Some(d), apiKey, NotOk(text), event) ==
      SubscribeResult(Reply(500, "Failed to subscribe", None), Some(ContactBody(d)), None)
  {
  }

  /** A create call that throws goes to the catch-all: 500, the contact body sent, no event
      call. */
  lemma CreateThrowUnexpected(d: SubscribeRequest, apiKey: string, event: CallOutcome)
    requires FieldsPresent(d) && IsValidEmail(d.email) && apiKey != ""
    ensures HandleSubscribe(Some(d), apiKey, Threw, event) ==
      SubscribeResult(UnexpectedError, Some(ContactBody(d)), None)
  {
  }

  /** A body that cannot be read goes to the catch-all and no call is made. */
  lemma UnreadableBodySubscribe(apiKey: string, create: CallOutcome, event: CallOutcome)
    ensures HandleSubscribe(None, apiKey, create, event) == SubscribeResult(UnexpectedError, None, None)
  {
  }

  /** "already exists" is as good as a created contact, whatever else the text says. */
  lemma AlreadyExistsTolerated(d: SubscribeRequest, apiKey: string, text: string, event: CallOutcome)
    requires FieldsPresent(d) && IsValidEmail(d.email) && apiKey != ""
    requires Includes(text, "already exists")
    ensures HandleSubscribe(Some(d), apiKey, NotOk(text), event) == HandleSubscribe(Some(d), apiKey, Ok, event)
  {
  }

  /** A non-ok event response never changes the outcome. */
  lemma EventFailureTolerated(body: Option<SubscribeRequest>, apiKey: string, create: CallOutcome, text: string)
    ensures HandleSubscribe(body, apiKey, create, NotOk(text)) == HandleSubscribe(body, apiKey, create, Ok)
  {
  }

  /** The download URL the reply carries is the one sent with the contact and the event. */
  lemma SameDownloadUrl(body: Option<SubscribeRequest>, apiKey: string, create: CallOutcome, event: CallOutcome)
    requires HandleSubscribe(body, apiKey, create, event).reply.status == 200
    ensures var r := HandleSubscribe(body, apiKey, create, event);
      && r.create.Some? && r.event.Some? && r.reply.downloadUrl.Some?
      && r.create.value.downloadUrl == r.event.value.downloadUrl == r.reply.downloadUrl.value
  {
  }

  /** An unknown lead magnet gets the default download, not an error. */
  lemma UnknownMagnetFallsBack(d: SubscribeRequest, apiKey: string, create: CallOutcome, event: CallOutcome)
    requires FieldsPresent(d) && IsValidEmail(d.email) && apiKey != ""
    requires d.leadMagnet !in PdfUrls && ContactAvailable(create) && !event.Threw?
    ensures HandleSubscribe(Some(d), apiKey, create, event).reply ==
      Reply(200, "Subscribed successfully", Some("/downloads/drift-checklist.pdf"))
  {
  }

  /** As written, an event call that throws (a network failure rather than a non-ok status)
      reaches the catch-all and fails a request whose contact was already created. */
  lemma EventThrowFailsRequest(d: SubscribeRequest, apiKey: string)
    requires FieldsPresent(d) && IsValidEmail(d.email) && apiKey != ""
    ensures var r := HandleSubscribe(Some(d), apiKey, Ok, Threw);
      && r.create == Some(ContactBody(d)) && r.event.Some?
      && r.reply == UnexpectedError
  {
  }

  /** The handler with the failure boundary where its comment puts it: once the contact
      exists, no outcome of the event call fails the request. Everywhere else it is the
      handler as written. */
  function HandleSubscribeIsolated(body: Option<SubscribeRequest>, apiKey: string, create: CallOutcome, event: CallOutcome)
    : (r: SubscribeResult)
    ensures r.create == HandleSubscribe(body, apiKey, create, event).create
    ensures r.event == HandleSubscribe(body, apiKey, create, event).event
    ensures r.reply.status == 200 <==> r.event.Some?
    ensures r.reply.status == 200 ==>
      r.reply == Reply(200, "Subscribed successfully", Some(DownloadUrl(body.value.leadMagnet)))
    ensures !event.Threw? ==> r == HandleSubscribe(body, apiKey, create, event)
  {
    var r := HandleSubscribe(body, apiKey, create, event);
    if r.event.Some? && event.Threw? then
      r.(reply := Reply(200, "Subscribed successfully", Some(r.event.value.downloadUrl)))
    else r
  }

  /** With the boundary in place, the event outcome never matters. */
  lemma IsolatedIgnoresEvent(body: Option<SubscribeRequest>, apiKey: string, create: CallOutcome, e1: CallOutcome, e2: CallOutcome)
    ensures HandleSubscribeIsolated(body, apiKey, create, e1) == HandleSubscribeIsolated(body, apiKey, create, e2)
  {
  }
}
