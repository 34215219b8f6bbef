/** `GET /api/tasks` and `POST /api/tasks`. */
module TasksRoute {
  import Text
  import opened RequestBody
  import opened TasksStore

  /** The body of a POST: either JSON that could not be decoded, or its `title` property. */
  datatype Body = Unparsable | Body(title: Field)

  const TitleRequired := "Title is required"
  const InvalidRequestBody := "Invalid request body"

  /** The outcome of the checks in front of the store: an error message, or the title to store. */
  datatype Verdict = Reject(message: string) | Accept(title: string)

  datatype Payload = Error(error: string) | TaskList(tasks: seq<Task>) | Created(task: Task)

  datatype Response = Response(status: int, payload: Payload)

  /** The guard of `POST`: a body that cannot be decoded, then a blank title, is refused. */
  function CheckPost(body: Body): (v: Verdict)
    ensures v.Accept? <==> body.Body? && !Blank(body.title)
    ensures v.Reject? ==> v.message == if body.Unparsable? then InvalidRequestBody else TitleRequired
    ensures v.Accept? ==> v.title == Text.Trim(body.title.value)
  {
    match body
    case Unparsable => Reject(InvalidRequestBody)
    case Body(title) =>
      if Blank(title) then Reject(TitleRequired) else Accept(Text.Trim(title.value))
  }

  /** A title that gets past the guard is non-empty and stays the same when trimmed again. */
  lemma AcceptedTitleIsTrimmed(body: Body)
    requires CheckPost(body).Accept?
    ensures CheckPost(body).title != ""
    ensures Text.Trim(CheckPost(body).title) == CheckPost(body).title
  {
    TrimmedNonBlank(body.title);
  }

  /** `GET`: status 200 with the store's list as it is. */
  method Get(store: TaskStore) returns (r: Response)
    ensures r == Response(200, TaskList(store.tasks))
  {
    var tasks := store.GetTasks();
    r := Response(200, TaskList(tasks));
  }

  /**
   * `POST`: a refused body gets status 400 with its message and leaves the store alone;
   * otherwise the trimmed title is stored and the new task returned with status 201.
   */
  method Post(store: TaskStore, body: Body) returns (r: Response)
    requires store.Valid()
    modifies store
    ensures store.Valid()
    ensures CheckPost(body).Reject? ==>
              && r == Response(400, Error(CheckPost(body).message))
              && store.tasks == old(store.tasks) && store.nextId == old(store.nextId)
    ensures CheckPost(body).Accept? ==>
              && r.status == 201 && r.payload.Created?
              && r.payload.task == Task(old(store.nextId), CheckPost(body).title, false)
              && store.tasks == old(store.tasks) + [r.payload.task]
              && store.nextId == old(store.nextId) + 1
              && Text.Trim(r.payload.task.title) != ""
  {
    var v := CheckPost(body);
    match v
    case Reject(message) =>
      r := Response(400, Error(message));
    case Accept(title) =>
      AcceptedTitleIsTrimmed(body);
      var task := store.AddTask(title);
      r := Response(201, Created(task));
  }
}
