/**
 * `MatrixController.compute`: one matrix job end to end. It assigns a task id,
 * validates the operands, broadcasts "started", calls the backend, broadcasts
 * exactly one terminal event and answers with a reply paired with that event.
 */
module MatrixController {
  import opened Common
  import opened Json
  import opened Http
  import opened Messages
  import opened GrpcClient
  import opened WebSocket
  import MatrixModel

  /** A `ResponseEntity` body: a small JSON map, or the backend's response as-is. */
  datatype Body = Fields(fields: map<string, Value>) | Result(response: MatrixComputeResponse)

  /** The id a job runs under: the caller's when non-empty, else `"matrix-"` and a fresh UUID. */
  function MatrixTaskId(given: Option<string>, uuid: string): (id: string)
    ensures !Blank(given) ==> id == given.value
    ensures IsUuidText(uuid) ==> id != ""
  {
    if Blank(given) then "matrix-" + uuid else given.value
  }

  /** The operations that take a second operand; a null operation and the unary ones do not. */
  predicate RequiresMatrixB(operation: Option<string>): (b: bool)
    ensures b ==> operation.Some?
    ensures operation == Some("transpose") || operation == Some("inverse") ==> !b
  {
    operation == Some("multiply") || operation == Some("add") || operation == Some("subtract")
  }

  /** The "error" text of the 400 reply, or `None` when the request may be dispatched. */
  function ValidationError(request: MatrixComputeRequest): (error: Option<string>)
    ensures error.Some? ==> error.value != ""
    ensures request.matrixA == null ==> error == Some("Matrix A is required")
    ensures error.None? <==> request.matrixA != null && (RequiresMatrixB(request.operation) ==> request.matrixB != null)
    ensures request.matrixA != null && error.Some? ==>
              |error.value| >= 25 && error.value[..25] == "Matrix B is required for "
  {
    if request.matrixA == null then Some("Matrix A is required")
    else if RequiresMatrixB(request.operation) && request.matrixB == null then
      Some("Matrix B is required for " + JavaText(request.operation) + " operation")
    else None
  }

  function StartedEvent(taskId: Option<string>, operation: Option<string>, now: int): Event
  {
    map["taskId" := TextOrNull(taskId), "status" := Text("started"), "operation" := TextOrNull(operation),
        "timestamp" := Int(now)]
  }

  /** The completed event; it carries the result's shape only when there is a result matrix. */
  function CompletedEvent(response: MatrixComputeResponse, now: int): Event
    reads response.resultMatrix
  {
    var base := map["taskId" := Text(response.taskId), "status" := Text("completed"),
                    "executionTimeMs" := Int(response.executionTimeMs), "timestamp" := Int(now)];
    if response.resultMatrix == null then base
    else base["rows" := Int(response.resultMatrix.rows)]["cols" := Int(response.resultMatrix.cols)]
  }

  function FailedEvent(response: MatrixComputeResponse, now: int): Event
  {
    map["taskId" := Text(response.taskId), "status" := Text("failed"), "error" := Text(response.errorMessage),
        "timestamp" := Int(now)]
  }

  function ErrorEvent(taskId: string, message: Option<string>, now: int): Event
  {
    map["taskId" := Text(taskId), "status" := Text("error"), "error" := TextOrNull(message), "timestamp" := Int(now)]
  }

  /** The objects the terminal event reads: the result matrix of an answer, if any. */
  function ResultFrame(outcome: Outcome<MatrixComputeResponse>): set<MatrixModel.Matrix?>
  {
    if outcome.Answered? then {outcome.response.resultMatrix} else {}
  }

  /** The one terminal event a dispatched job ends with, chosen by the backend's outcome. */
  function TerminalEvent(taskId: string, outcome: Outcome<MatrixComputeResponse>, now: int): Event
    reads ResultFrame(outcome)
  {
    match outcome
    case Answered(response) =>
      if response.status == "completed" then CompletedEvent(response, now) else FailedEvent(response, now)
    case Threw(message) => ErrorEvent(taskId, message, now)
  }

  /** The reply of a dispatched job, chosen by the same outcome as its terminal event. */
  function TerminalReply(taskId: string, outcome: Outcome<MatrixComputeResponse>): Reply<Body>
  {
    match outcome
    case Answered(response) =>
      if response.status == "completed" then Reply(Ok, Result(response))
      else Reply(UnprocessableEntity, Fields(map["error" := Text(response.errorMessage),
                                                "taskId" := Text(response.taskId),
                                                "status" := Text(response.status)]))
    case Threw(message) =>
      Reply(InternalServerError, Fields(map["error" := Text("Error processing matrix computation: " + JavaText(message)),
                                            "taskId" := Text(taskId)]))
  }

  /**
   * A rejected request gets a 400 and touches neither the hub nor the backend.
   * A dispatched one publishes "started", then calls the backend exactly once
   * with the id-assigned request, then publishes the terminal event, and
   * answers with the reply that belongs to the same backend outcome.
   */
  method Compute(hub: WebSocketHandler, grpc: GrpcClientService, request: MatrixComputeRequest,
                 uuid: string, startedAt: int, finishedAt: int)
    returns (reply: Reply<Body>)
    modifies hub`sent, hub`published, grpc`matrixCalls
    ensures var id := MatrixTaskId(request.taskId, uuid);
      match ValidationError(request)
      case Some(error) =>
        && reply == Reply(BadRequest, Fields(map["error" := Text(error)]))
        && hub.published == old(hub.published)
        && hub.sent == old(hub.sent)
        && grpc.matrixCalls == old(grpc.matrixCalls)
      case None =>
        && |grpc.matrixCalls| == |old(grpc.matrixCalls)| + 1
        && grpc.matrixCalls[..|old(grpc.matrixCalls)|] == old(grpc.matrixCalls)
        && var call := grpc.matrixCalls[|old(grpc.matrixCalls)|];
           var started := StartedEvent(Some(id), request.operation, startedAt);
           var terminal := TerminalEvent(id, call.outcome, finishedAt);
           && call.request == request.(taskId := Some(id))
           && call.eventsBefore == |old(hub.published)| + 1
           && hub.published == old(hub.published) + [started, terminal]
           && hub.sent == old(hub.sent) + Transmitted(hub.encode, hub.sessions, started)
                                        + Transmitted(hub.encode, hub.sessions, terminal)
           && reply == TerminalReply(id, call.outcome)
  {
    var req := request;
    if req.taskId.None? || req.taskId.value == "" {
      req := req.(taskId := Some("matrix-" + uuid));
    }
    if req.matrixA == null {
      return Reply(BadRequest, Fields(map["error" := Text("Matrix A is required")]));
    }
    if RequiresMatrixB(req.operation) && req.matrixB == null {
      return Reply(BadRequest, Fields(map["error" := Text("Matrix B is required for " + JavaText(req.operation) + " operation")]));
    }
    reply := Dispatch(hub, grpc, req, startedAt, finishedAt);
  }

  /** The `try` part of `compute`, for a validated request whose task id is set. */
  method Dispatch(hub: WebSocketHandler, grpc: GrpcClientService, req: MatrixComputeRequest,
                  startedAt: int, finishedAt: int)
    returns (reply: Reply<Body>)
    requires req.taskId.Some?
    modifies hub`sent, hub`published, grpc`matrixCalls
    ensures |grpc.matrixCalls| == |old(grpc.matrixCalls)| + 1
    ensures grpc.matrixCalls[..|old(grpc.matrixCalls)|] == old(grpc.matrixCalls)
    ensures var call := grpc.matrixCalls[|old(grpc.matrixCalls)|];
            var started := StartedEvent(req.taskId, req.operation, startedAt);
            var terminal := TerminalEvent(req.taskId.value, call.outcome, finishedAt);
            && call.request == req
            && call.eventsBefore == |old(hub.published)| + 1
            && hub.published == old(hub.published) + [started, terminal]
            && hub.sent == old(hub.sent) + Transmitted(hub.encode, hub.sessions, started)
                                         + Transmitted(hub.encode, hub.sessions, terminal)
            && reply == TerminalReply(req.taskId.value, call.outcome)
  {
    BroadcastTaskStarted(hub, req, startedAt);
    var outcome := grpc.MatrixCompute(req, |hub.published|);
    reply := Conclude(hub, req.taskId.value, outcome, finishedAt);
  }

  /** Broadcasts the terminal event of a backend outcome and builds the matching reply. */
  method Conclude(hub: WebSocketHandler, taskId: string, outcome: Outcome<MatrixComputeResponse>, now: int)
    returns (reply: Reply<Body>)
    modifies hub`sent, hub`published
    ensures hub.published == old(hub.published) + [TerminalEvent(taskId, outcome, now)]
    ensures hub.sent == old(hub.sent) + Transmitted(hub.encode, hub.sessions, TerminalEvent(taskId, outcome, now))
    ensures reply == TerminalReply(taskId, outcome)
  {
    match outcome {
      case Answered(response) =>
        if response.status == "completed" {
          BroadcastTaskCompleted(hub, response, now);
          reply := Reply(Ok, Result(response));
        } else {
          BroadcastTaskFailed(hub, response, now);
          reply := Reply(UnprocessableEntity, Fields(map["error" := Text(response.errorMessage),
                                                        "taskId" := Text(response.taskId),
                                                        "status" := Text(response.status)]));
        }
      case Threw(message) =>
        BroadcastTaskError(hub, taskId, message, now);
        reply := Reply(InternalServerError,
                       Fields(map["error" := Text("Error processing matrix computation: " + JavaText(message)),
                                  "taskId" := Text(taskId)]));
    }
  }

  method BroadcastTaskStarted(hub: WebSocketHandler, request: MatrixComputeRequest, now: int)
    modifies hub`sent, hub`published
    ensures hub.published == old(hub.published) + [StartedEvent(request.taskId, request.operation, now)]
    ensures hub.sent == old(hub.sent) + Transmitted(hub.encode, hub.sessions, StartedEvent(request.taskId, request.operation, now))
  {
    var message: Event := map[];
    message := message["taskId" := TextOrNull(request.taskId)];
    message := message["status" := Text("started")];
    message := message["operation" := TextOrNull(request.operation)];
    message := message["timestamp" := Int(now)];
    hub.BroadcastMessage(message);
  }

  method BroadcastTaskCompleted(hub: WebSocketHandler, response: MatrixComputeResponse, now: int)
    modifies hub`sent, hub`published
    ensures hub.published == old(hub.published) + [CompletedEvent(response, now)]
    ensures hub.sent == old(hub.sent) + Transmitted(hub.encode, hub.sessions, CompletedEvent(response, now))
  {
    var message: Event := map[];
    message := message["taskId" := Text(response.taskId)];
    message := message["status" := Text("completed")];
    message := message["executionTimeMs" := Int(response.executionTimeMs)];
    message := message["timestamp" := Int(now)];
    if response.resultMatrix != null {
      message := message["rows" := Int(response.resultMatrix.rows)];
      message := message["cols" := Int(response.resultMatrix.cols)];
    }
    hub.BroadcastMessage(message);
  }

  method BroadcastTaskFailed(hub: WebSocketHandler, response: MatrixComputeResponse, now: int)
    modifies hub`sent, hub`published
    ensures hub.published == old(hub.published) + [FailedEvent(response, now)]
    ensures hub.sent == old(hub.sent) + Transmitted(hub.encode, hub.sessions, FailedEvent(response, now))
  {
    var message: Event := map[];
    message := message["taskId" := Text(response.taskId)];
    message := message["status" := Text("failed")];
    message := message["error" := Text(response.errorMessage)];
    message := message["timestamp" := Int(now)];
    hub.BroadcastMessage(message);
  }

  method BroadcastTaskError(hub: WebSocketHandler, taskId: string, errorMessage: Option<string>, now: int)
    modifies hub`sent, hub`published
    ensures hub.published == old(hub.published) + [ErrorEvent(taskId, errorMessage, now)]
    ensures hub.sent == old(hub.sent) + Transmitted(hub.encode, hub.sessions, ErrorEvent(taskId, errorMessage, now))
  {
    var message: Event := map[];
    message := message["taskId" := Text(taskId)];
    message := message["status" := Text("error")];
    message := message["error" := TextOrNull(errorMessage)];
    message := message["timestamp" := Int(now)];
    hub.BroadcastMessage(message);
  }

  /** The `taskId` a reply reports: the backend response's own on success, the map's "taskId" otherwise. */
  function ReplyTaskId(reply: Reply<Body>): Value
  {
    match reply
    case Unhandled => Null
    case Reply(_, body) =>
      match body
      case Result(response) => Text(response.taskId)
      case Fields(fields) => Get(fields, "taskId")
  }

  /**
   * The terminal event and the reply are a matched pair: the event's status is
   * one of completed, failed or error, each status goes with exactly one HTTP
   * status (200, 422, 500), and both carry the same task id.
   */
  lemma TerminalPairing(taskId: string, outcome: Outcome<MatrixComputeResponse>, now: int)
    ensures var e := TerminalEvent(taskId, outcome, now);
            var r := TerminalReply(taskId, outcome);
            && r.Reply?
            && Get(e, "status") in {Text("completed"), Text("failed"), Text("error")}
            && (Get(e, "status") == Text("completed") <==> Code(r.status) == 200)
            && (Get(e, "status") == Text("failed") <==> Code(r.status) == 422)
            && (Get(e, "status") == Text("error") <==> Code(r.status) == 500)
            && ReplyTaskId(r) == Get(e, "taskId")
  {
  }

  /**
   * The completed and failed events take their id from the backend's response,
   * so the two events of a job share an id exactly when the backend echoes it;
   * the error event always uses the job's own id.
   */
  lemma EventIdsAgree(taskId: string, operation: Option<string>, outcome: Outcome<MatrixComputeResponse>, t0: int, t1: int)
    ensures var started := StartedEvent(Some(taskId), operation, t0);
            var terminal := TerminalEvent(taskId, outcome, t1);
            Get(terminal, "taskId") == Get(started, "taskId") <==> (outcome.Answered? ==> outcome.response.taskId == taskId)
  {
  }

  /** A completed event reports rows and cols exactly when the backend returned a result matrix. */
  lemma CompletedEventShape(response: MatrixComputeResponse, now: int)
    ensures var e := CompletedEvent(response, now);
            && ("rows" in e <==> response.resultMatrix != null)
            && ("cols" in e <==> response.resultMatrix != null)
            && (response.resultMatrix != null ==>
                  e["rows"] == Int(response.resultMatrix.rows) && e["cols"] == Int(response.resultMatrix.cols))
  {
  }

  /** A transport failure's event and reply carry the message but no result of any kind. */
  lemma ErrorPathCarriesNoResult(taskId: string, message: Option<string>, now: int)
    ensures ErrorEvent(taskId, message, now).Keys == {"taskId", "status", "error", "timestamp"}
    ensures var r := TerminalReply(taskId, Threw(message));
            r.Reply? && r.body.Fields? && r.body.fields.Keys == {"error", "taskId"}
  {
  }

  /** A request is rejected exactly when operand A is missing, or B is missing for a binary operation. */
  lemma RejectedRequests(request: MatrixComputeRequest)
    ensures ValidationError(request).Some? <==>
              request.matrixA == null
              || (request.operation in {Some("multiply"), Some("add"), Some("subtract")} && request.matrixB == null)
  {
  }
}
