/**
 * `MLController.compute`: one vector job end to end. There is no validation:
 * it assigns a task id, sends a "started" update, calls the backend and sends
 * a "completed" or "error" update. Updates are built with `Map.of`, which
 * throws on a null value; such an exception either escapes the method or is
 * caught by its `catch (Exception e)`, as in the source.
 */
module MLController {
  import opened Common
  import opened Json
  import opened Http
  import opened Messages
  import opened GrpcClient
  import opened WebSocket

  /** The id a job runs under: the caller's when non-empty, else a fresh UUID. */
  function VectorTaskId(given: Option<string>, uuid: string): (id: string)
    ensures !Blank(given) ==> id == given.value
    ensures IsUuidText(uuid) ==> id != ""
  {
    if Blank(given) then uuid else given.value
  }

  /** `taskType`, or "default" when it is null; an empty string is kept. */
  function TaskTypeOrDefault(taskType: Option<string>): (t: string)
    ensures taskType.Some? ==> t == taskType.value
    ensures t == "default" <==> taskType == None || taskType == Some("default")
  {
    if taskType.None? then "default" else taskType.value
  }

  /** A possibly-null `List<Float>` as a map value. */
  function ListOrNull(xs: Option<seq<real>>): Value
  {
    match xs
    case None => Null
    case Some(v) => Reals(v)
  }

  /**
   * What the `try` block ends with: `None` when it returns normally, otherwise
   * `Some(m)` with the message of the exception the `catch` receives. A
   * backend answer without a result list makes `Map.of` throw a
   * NullPointerException, whose message is null.
   */
  function Caught(outcome: Outcome<ComputeResponse>): Option<Option<string>>
  {
    match outcome
    case Answered(response) => if response.result.None? then Some(None) else None
    case Threw(message) => Some(message)
  }

  /** The terminal update sent after the backend call, if any. */
  function TerminalUpdate(taskId: string, outcome: Outcome<ComputeResponse>, now: int): Option<Event>
  {
    match Caught(outcome)
    case None => Some(TaskUpdate(taskId, "completed", ListOrNull(outcome.response.result), now))
    case Some(None) => None
    case Some(Some(m)) => Some(TaskUpdate(taskId, "error", Object(map["error" := Text(m)]), now))
  }

  /** The reply after the backend call: the response as-is, the error response, or an escaping exception. */
  function TerminalReply(taskId: string, outcome: Outcome<ComputeResponse>): Reply<ComputeResponse>
  {
    match Caught(outcome)
    case None => Reply(Ok, outcome.response)
    case Some(None) => Unhandled
    case Some(Some(m)) => Reply(Ok, ComputeResponse(None, taskId, "error: " + m))
  }

  /** The frames one optional event delivers. */
  function TransmittedIf(hub: WebSocketHandler, e: Option<Event>): seq<Delivery>
    reads hub, hub.sessions
  {
    match e
    case None => []
    case Some(event) => Transmitted(hub.encode, hub.sessions, event)
  }

  /**
   * Without data the "started" update throws before anything is sent or called.
   * Otherwise the backend is called once with the assigned id and the defaulted
   * task type, after exactly one "started" update, and the job publishes the
   * terminal update and answers with the reply that belong to that call's outcome.
   */
  method Compute(hub: WebSocketHandler, grpc: GrpcClientService, request: ComputeRequest,
                 uuid: string, startedAt: int, finishedAt: int)
    returns (reply: Reply<ComputeResponse>)
    modifies hub`sent, hub`published, grpc`computeCalls
    ensures var id := VectorTaskId(request.taskId, uuid);
      if request.data.None? then
        && reply == Unhandled
        && hub.published == old(hub.published)
        && hub.sent == old(hub.sent)
        && grpc.computeCalls == old(grpc.computeCalls)
      else
        && |grpc.computeCalls| == |old(grpc.computeCalls)| + 1
        && grpc.computeCalls[..|old(grpc.computeCalls)|] == old(grpc.computeCalls)
        && var call := grpc.computeCalls[|old(grpc.computeCalls)|];
           var started := TaskUpdate(id, "started", Reals(request.data.value), startedAt);
           var terminal := TerminalUpdate(id, call.outcome, finishedAt);
           && call.request == VectorJob(request.data.value, id, TaskTypeOrDefault(request.taskType))
           && call.eventsBefore == |old(hub.published)| + 1
           && hub.published == old(hub.published) + [started] + (if terminal.Some? then [terminal.value] else [])
           && hub.sent == old(hub.sent) + Transmitted(hub.encode, hub.sessions, started) + TransmittedIf(hub, terminal)
           && reply == TerminalReply(id, call.outcome)
  {
    var req := request;
    if req.taskId.None? || req.taskId.value == "" {
      req := req.(taskId := Some(uuid));
    }
    var taskId := req.taskId.value;
    var raised := hub.SendTaskUpdate(taskId, "started", ListOrNull(req.data), startedAt);
    if raised {
      return Unhandled;
    }
    // try
    var data := req.data.value;
    var taskType := if req.taskType != None then req.taskType.value else "default";
    var outcome := grpc.Compute(data, taskId, taskType, |hub.published|);
    reply := Conclude(hub, taskId, outcome, finishedAt);
  }

  /** The rest of the `try` block after the backend call, and the `catch` block. */
  method Conclude(hub: WebSocketHandler, taskId: string, outcome: Outcome<ComputeResponse>, now: int)
    returns (reply: Reply<ComputeResponse>)
    modifies hub`sent, hub`published
    ensures var terminal := TerminalUpdate(taskId, outcome, now);
            && hub.published == old(hub.published) + (if terminal.Some? then [terminal.value] else [])
            && hub.sent == old(hub.sent) + TransmittedIf(hub, terminal)
            && reply == TerminalReply(taskId, outcome)
  {
    var caught: Option<string>;
    var raised: bool;
    match outcome {
      case Answered(response) =>
        raised := hub.SendTaskUpdate(taskId, "completed", ListOrNull(response.result), now);
        if !raised {
          return Reply(Ok, response);
        }
        caught := None;
      case Threw(message) =>
        caught := message;
    }
    // catch (Exception e)
    if caught.None? {
      return Unhandled;
    }
    raised := hub.SendTaskUpdate(taskId, "error", Object(map["error" := Text(caught.value)]), now);
    reply := Reply(Ok, ComputeResponse(None, taskId, "error: " + caught.value));
  }

  /**
   * A job that got past its "started" update ends with exactly one terminal
   * update, "completed" or "error", precisely when the controller returns a
   * reply (always 200) rather than letting an exception escape.
   */
  lemma OneTerminalPerReply(taskId: string, outcome: Outcome<ComputeResponse>, now: int)
    ensures var e := TerminalUpdate(taskId, outcome, now);
            var r := TerminalReply(taskId, outcome);
            && (e.Some? <==> r.Reply?)
            && (e.Some? ==> e.value["status"] in {Text("completed"), Text("error")} && e.value["taskId"] == Text(taskId))
            && (r.Reply? ==> r.status == Ok)
  {
  }

  /**
   * A backend exception with a message yields the error update with payload
   * `{error: message}` and a reply carrying the job's id, status
   * "error: " + message and no result.
   */
  lemma ErrorPathPairs(taskId: string, message: string, now: int)
    ensures TerminalUpdate(taskId, Threw(Some(message)), now)
            == Some(map["taskId" := Text(taskId), "status" := Text("error"),
                        "data" := Object(map["error" := Text(message)]), "timestamp" := Int(now)])
    ensures var r := TerminalReply(taskId, Threw(Some(message)));
            && r == Reply(Ok, ComputeResponse(None, taskId, "error: " + message))
            && r.body.status[..7] == "error: "
  {
  }

  /** A successful answer is returned unchanged and its result is what the completed update carries. */
  lemma SuccessPathPairs(taskId: string, response: ComputeResponse, now: int)
    requires response.result.Some?
    ensures TerminalReply(taskId, Answered(response)) == Reply(Ok, response)
    ensures TerminalUpdate(taskId, Answered(response), now).value["data"] == Reals(response.result.value)
  {
  }

  /** Only a null task type is defaulted: an empty one reaches the backend as it is. */
  lemma TaskTypeDefaulting(taskType: Option<string>)
    ensures taskType == None ==> TaskTypeOrDefault(taskType) == "default"
    ensures taskType == Some("") ==> TaskTypeOrDefault(taskType) == ""
    ensures taskType.Some? ==> TaskTypeOrDefault(taskType) == taskType.value
  {
  }
}
