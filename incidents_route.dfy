/** `GET /api/incidents` and `POST /api/incidents`. */
module IncidentsRoute {
  import opened Wrappers
  import Text
  import opened RequestBody
  import opened IncidentsStore

  /** The body of a POST: JSON that could not be decoded, or the three properties the route reads. */
  datatype Body = Unparsable | Body(title: Field, description: Field, priority: Field)

  const TitleRequired := "Title is required"
  const DescriptionRequired := "Description is required"
  const PriorityRequired := "Valid priority is required (low, medium, high, critical)"
  const InvalidRequestBody := "Invalid request body"

  /** The outcome of the checks in front of the store: an error message, or the fields to store. */
  datatype Verdict = Reject(message: string) | Accept(title: string, description: string, priority: Priority)

  datatype Payload = Error(error: string) | IncidentList(incidents: seq<Incident>) | Created(incident: Incident)

  datatype Response = Response(status: int, payload: Payload)

  /** `validPriorities.includes(name)`, read as the priority it names. */
  function PriorityFromName(name: string): (r: Option<Priority>)
    ensures r.Some? ==> PriorityName(r.value) == name
  {
    if name == "low" then Some(Low)
    else if name == "medium" then Some(Medium)
    else if name == "high" then Some(High)
    else if name == "critical" then Some(Critical)
    else None
  }

  /** Every priority's name is accepted and read back as that priority. */
  lemma PriorityNameRoundTrip(p: Priority)
    ensures PriorityFromName(PriorityName(p)) == Some(p)
  {
  }

  /** `!priority || !validPriorities.includes(priority)`. */
  predicate BadPriority(f: Field): (b: bool)
    ensures !b <==> f.Str? && f.value in {"low", "medium", "high", "critical"}
  {
    !f.Str? || f.value == "" || PriorityFromName(f.value).None?
  }

  /**
   * The guard of `POST`, checked in the source's order: an undecodable body, then the title,
   * then the description, then the priority; accepted fields are trimmed.
   */
  function CheckPost(body: Body): (v: Verdict)
    ensures body.Unparsable? ==> v == Reject(InvalidRequestBody)
    ensures body.Body? && Blank(body.title) ==> v == Reject(TitleRequired)
    ensures body.Body? && !Blank(body.title) && Blank(body.description) ==> v == Reject(DescriptionRequired)
    ensures body.Body? && !Blank(body.title) && !Blank(body.description) && BadPriority(body.priority) ==>
              v == Reject(PriorityRequired)
    ensures v.Accept? <==> body.Body? && !Blank(body.title) && !Blank(body.description) && !BadPriority(body.priority)
    ensures v.Accept? ==> && v.title == Text.Trim(body.title.value)
                          && v.description == Text.Trim(body.description.value)
                          && PriorityName(v.priority) == body.priority.value
  {
    match body
    case Unparsable => Reject(InvalidRequestBody)
    case Body(title, description, priority) =>
      if Blank(title) then Reject(TitleRequired)
      else if Blank(description) then Reject(DescriptionRequired)
      else if BadPriority(priority) then Reject(PriorityRequired)
      else Accept(Text.Trim(title.value), Text.Trim(description.value), PriorityFromName(priority.value).value)
  }

  /** Accepted title and description are non-empty and already trimmed. */
  lemma AcceptedTextIsTrimmed(body: Body)
    requires CheckPost(body).Accept?
    ensures CheckPost(body).title != "" && Text.Trim(CheckPost(body).title) == CheckPost(body).title
    ensures CheckPost(body).description != "" && Text.Trim(CheckPost(body).description) == CheckPost(body).description
  {
    TrimmedNonBlank(body.title);
    TrimmedNonBlank(body.description);
  }

  /**
   * The arguments of the store call `addIncident(...)`; `None` for `sourceComponents` or
   * `incidentStartTime` stands for JavaScript's `undefined`, `None` for `incidentEndTime` for `null`.
   */
  datatype AddIncidentCall = AddIncidentCall(
    title: string, description: string, priority: Priority,
    sourceComponents: Option<seq<SourceComponent>>, incidentStartTime: Option<Millis>,
    incidentEndTime: Option<Millis>)

  /**
   * The store call as the route writes it: three arguments, so the two required parameters
   * after `priority` are `undefined` and `incidentEndTime` takes its default `null`.
   */
  function StoreCallAsWritten(body: Body): (call: Option<AddIncidentCall>)
    ensures call.Some? <==> CheckPost(body).Accept?
    ensures call.Some? ==> call.value.sourceComponents.None? && call.value.incidentStartTime.None?
  {
    match CheckPost(body)
    case Reject(_) => None
    case Accept(title, description, priority) =>
      Some(AddIncidentCall(title, description, priority, None, None, None))
  }

  /** A request any client could send: non-blank title and description, a listed priority. */
  const ExampleBody := Body(Str("Server down"), Str("Every request fails"), Str("high"))

  lemma ExampleBodyAccepted()
    ensures CheckPost(ExampleBody).Accept?
  {
    NotBlankWhenStartsSolid(ExampleBody.title.value);
    NotBlankWhenStartsSolid(ExampleBody.description.value);
    assert PriorityFromName(ExampleBody.priority.value) == Some(High);
  }

  /** The example request exposes the discrepancy: the call leaves two required fields undefined. */
  lemma AsWrittenCallLeavesFieldsUndefined()
    ensures StoreCallAsWritten(ExampleBody).Some?
    ensures StoreCallAsWritten(ExampleBody).value.sourceComponents.None?
    ensures StoreCallAsWritten(ExampleBody).value.incidentStartTime.None?
  {
    ExampleBodyAccepted();
  }

  /**
   * The store call the model makes: every parameter the store declares is supplied, with an
   * empty source-component list and the request time as the incident's start.
   */
  function StoreCall(body: Body, now: Millis): (call: Option<AddIncidentCall>)
    ensures call.Some? <==> CheckPost(body).Accept?
    ensures call.Some? ==> call.value.sourceComponents == Some([]) && call.value.incidentStartTime == Some(now)
    ensures call.Some? ==> call.value.incidentEndTime == None
  {
    match CheckPost(body)
    case Reject(_) => None
    case Accept(title, description, priority) =>
      Some(AddIncidentCall(title, description, priority, Some([]), Some(now), None))
  }

  /** The two calls agree on everything the route does supply. */
  lemma StoreCallsAgree(body: Body, now: Millis)
    ensures StoreCall(body, now).Some? <==> StoreCallAsWritten(body).Some?
    ensures StoreCall(body, now).Some? ==>
              StoreCall(body, now).value ==
              StoreCallAsWritten(body).value.(sourceComponents := Some([]), incidentStartTime := Some(now))
  {
  }

  /** `GET`: status 200 with the store's list as it is. */
  method Get(store: IncidentStore) returns (r: Response)
    ensures r == Response(200, IncidentList(store.incidents))
  {
    var incidents := store.GetIncidents();
    r := Response(200, IncidentList(incidents));
  }

  /**
   * `POST`: a refused body gets status 400 with its message and leaves the store alone;
   * otherwise the trimmed fields are stored as a new open incident, returned with status 201.
   */
  method Post(store: IncidentStore, body: Body, createdNow: Millis, updatedNow: Millis) returns (r: Response)
    requires store.Valid()
    modifies store
    ensures store.Valid()
    ensures CheckPost(body).Reject? ==>
              && r == Response(400, Error(CheckPost(body).message))
              && store.incidents == old(store.incidents) && store.nextId == old(store.nextId)
    ensures CheckPost(body).Accept? ==>
              && r.status == 201 && r.payload.Created?
              && r.payload.incident ==
                   NewIncident(old(store.nextId), CheckPost(body).title, CheckPost(body).description,
                               CheckPost(body).priority, [], createdNow, None, createdNow, updatedNow)
              && store.incidents == old(store.incidents) + [r.payload.incident]
              && store.nextId == old(store.nextId) + 1
              && r.payload.incident.title != ""
              && r.payload.incident.description != ""
  {
    match StoreCall(body, createdNow)
    case None =>
      r := Response(400, Error(CheckPost(body).message));
    case Some(call) =>
      AcceptedTextIsTrimmed(body);
      var incident := store.AddIncident(call.title, call.description, call.priority,
                                        call.sourceComponents.value, call.incidentStartTime.value,
                                        call.incidentEndTime, createdNow, updatedNow);
      r := Response(201, Created(incident));
  }
}
