/** Task values and what one tasks/send does to a stored task (pkg/a2a/protocol.go, server.go). */
module A2ATask {
  import opened Common

  /** The A2A states, plus any other string a handler may leave in Status.State. */
  datatype TaskState =
    | Submitted | Working | InputRequired
    | Completed | Failed | Canceled
    | Unlisted(name: string)

  datatype Message = Message(role: string, parts: seq<string>)

  datatype Task = Task(
    id: string,
    sessionId: string,
    state: TaskState,
    statusMessage: Option<Message>,
    history: seq<Message>,
    artifacts: seq<string>,
    metadata: map<string, string>)

  datatype SendParams = SendParams(id: string, sessionId: string, message: Message, metadata: map<string, string>)

  /** What a handler left behind: a task (anything at all), with or without an error. */
  datatype Outcome = Returned(task: Task) | Errored(task: Task, reason: string)

  predicate IsTerminal(s: TaskState)
  {
    s.Completed? || s.Failed? || s.Canceled?
  }

  /** A state a handler may leave in place; any other is replaced by Completed. */
  predicate IsSettled(s: TaskState)
  {
    IsTerminal(s) || s.InputRequired?
  }

  /** One committed change of a task's state, as the A2A life cycle allows it. */
  predicate LegalMove(before: TaskState, after: TaskState)
  {
    match before
    case Submitted => after.Working?
    case InputRequired => after.Working?
    case Working => IsSettled(after)
    case _ => false
  }

  function NewTask(id: string, p: SendParams): Task
  {
    Task(id, p.sessionId, Submitted, None, [], [], p.metadata)
  }

  /** The stored task once a continuing message has been taken in. */
  function Accept(t: Task, p: SendParams): (r: Task)
    ensures TakesIn(t, p, r)
  {
    t.(history := t.history + [p.message],
       sessionId := if p.sessionId != "" then p.sessionId else t.sessionId,
       metadata := t.metadata + p.metadata,
       state := Working)
  }

  /** `t` differs from what the handler left at most in its status. */
  predicate KeepsWork(left: Task, t: Task)
  {
    && t.id == left.id && t.sessionId == left.sessionId && t.history == left.history
    && t.artifacts == left.artifacts && t.metadata == left.metadata
  }

  /**
   What a client is promised of a finished handler: a failure is a failed task with the agent's message, an outcome
   of its own is left in place, and anything else counts as completed.
   */
  predicate AnswersFor(o: Outcome, t: Task)
  {
    && KeepsWork(o.task, t)
    && (o.Errored? ==> t.state == Failed && t.statusMessage == Some(Message("agent", [o.reason])))
    && (o.Returned? ==>
          && t.statusMessage == o.task.statusMessage
          && t.state == if o.task.state in {Completed, Failed, Canceled, InputRequired} then o.task.state else Completed)
  }

  /** What taking a message in does: it goes to the end of the history, and new metadata wins over old. */
  predicate TakesIn(before: Task, p: SendParams, t: Task)
  {
    && t.id == before.id && t.artifacts == before.artifacts && t.statusMessage == before.statusMessage
    && t.state == Working && t.history == before.history + [p.message]
    && t.sessionId == (if p.sessionId != "" then p.sessionId else before.sessionId)
    && t.metadata.Keys == before.metadata.Keys + p.metadata.Keys
    && (forall k :: k in p.metadata ==> t.metadata[k] == p.metadata[k])
    && (forall k :: k in before.metadata && k !in p.metadata ==> t.metadata[k] == before.metadata[k])
  }

  /** The last `limit` turns of a history, or all of it. */
  predicate IsTail(history: seq<Message>, limit: int, r: seq<Message>)
  {
    if limit <= 0 || limit >= |history| then r == history
    else |r| == limit && forall k :: 0 <= k < limit ==> r[k] == history[|history| - limit + k]
  }

  /** The task committed after the handler is done. */
  function Settle(o: Outcome): (t: Task)
    ensures IsSettled(t.state) && AnswersFor(o, t)
  {
    match o
    case Errored(t, reason) => t.(state := Failed, statusMessage := Some(Message("agent", [reason])))
    case Returned(t) => if IsSettled(t.state) then t else t.(state := Completed)
  }

  /** The task a tasks/get hands out: the whole history, or its last `limit` turns. */
  function Snapshot(t: Task, limit: int): (r: Task)
    ensures IsTail(t.history, limit, r.history) && r == t.(history := r.history)
  {
    if 0 < limit < |t.history| then t.(history := t.history[|t.history| - limit..]) else t
  }
}
