# ML Hybrid System — a verified model of its request paths

The ML Hybrid System has two parts:

- a Spring Boot gateway (Java) that accepts vector and matrix jobs over REST and reports their progress to WebSocket subscribers;
- a compute service (Rust) that the gateway calls over gRPC.

This project models the core of both sides in Dafny and proves what each operation promises.

- **Gateway, imperative parts.**
  - `MatrixController.compute` and `MLController.compute` are methods.
  - The WebSocket hub is a class whose session list is a `seq` field.
  - Each broadcast is a `while` loop over a snapshot of that list.
- **Gateway, backend call.** The gRPC backend is a class that records every call; its answer or exception is chosen nondeterministically.
- **Gateway, matrix object.** The gateway's `Matrix` is a class with setters. Its `toString` is a pair of nested loops, proved equal to a declarative rendering.
- **Compute side, matrix operations.**
  - `matrix_multiply` and `matrix_transpose` are nested loops over an array, proved equal to specification functions.
  - Add, subtract, inverse and `process_request` are pure functions.
  - A Rust panic, such as indexing past the data, is a distinct outcome: the request then gets no response.
- **Compute side, GPU.** The simulated GPU's `compute` is a pure map over the data.

Behaviour the model keeps from the code:

- The hub records every event map handed to it (`published`, ghost) and every frame that reached a subscriber (`sent`).
- Jackson serialisation is a partial function held by the hub; where it has no value, the code takes its serialisation-error branch.
- `Map.of` rejects null values. So `sendTaskUpdate` with null data throws before sending anything.
- `MLController.compute` is modelled exactly as written:
  - A request without data fails at its "started" update. The exception escapes, and there is no reply body and no event.
  - An exception with a null message makes the `catch` block throw again. Then there is no "error" update and no reply.
- `MatrixController.compute` pairs each dispatched job with exactly one terminal event ("completed", "failed" or "error"). The HTTP status matches the event (200, 422 or 500).
- On the compute side, `process_request` echoes `task_id`. A "completed" response always has a result, an empty error and the elapsed time. A "failed" response has no result, a non-empty error and time 0.
- Multiply skips products whose index is past the data, so it never goes out of bounds. Transpose panics exactly when the data is shorter than rows × cols.
- In real arithmetic, the 2×2 inverse, when computed, is a two-sided inverse, and subtracting b from a + b gives back a.

The random UUID, the clock, and the time an operation took are parameters.

Modules: `Common`, `Json`, `Http`, `Messages` (the request and response POJOs), `MatrixModel` (`Matrix.java`), `GrpcClient`, `WebSocket`, `MatrixController`, `MLController`, `MatrixOps` (`matrix_ops.rs`), `GpuCompute` (`gpu_compute.rs`), and `System` (facts relating the two sides).

## Model

| member | source | states |
|---|---|---|
| MatrixModel.Matrix.constructor | java-server/src/main/java/com/mlhybrid/model/Matrix.java:15-17 | A new matrix has 0 rows, 0 columns and an empty data list |
| MatrixModel.Matrix.Of | java-server/src/main/java/com/mlhybrid/model/Matrix.java:19-23 | The three-argument constructor stores rows, cols and data unchecked |
| MatrixModel.Matrix.SetRows | java-server/src/main/java/com/mlhybrid/model/Matrix.java:29-31 | Sets rows and leaves cols and data unchanged |
| MatrixModel.Matrix.SetCols | java-server/src/main/java/com/mlhybrid/model/Matrix.java:37-39 | Sets cols and leaves rows and data unchanged |
| MatrixModel.Matrix.SetData | java-server/src/main/java/com/mlhybrid/model/Matrix.java:45-47 | Sets data and leaves rows and cols unchanged |
| MatrixModel.Matrix.ToWire | java-server/src/main/java/com/mlhybrid/model/Matrix.java:52-58 | The protobuf message carries exactly the object's rows, cols and data |
| MatrixModel.Matrix.FromWire | java-server/src/main/java/com/mlhybrid/model/Matrix.java:63-69 | A fresh object whose protobuf form is the message it was read from |
| MatrixModel.WireRoundTrip | java-server/src/main/java/com/mlhybrid/model/Matrix.java:52-69 | Converting to protobuf and back gives a new object with equal fields |
| MatrixModel.Matrix.ToString | java-server/src/main/java/com/mlhybrid/model/Matrix.java:75-94 | The printed text is the declarative rendering of the current fields |
| MatrixModel.Render | java-server/src/main/java/com/mlhybrid/model/Matrix.java:76-93 | The outer loop builds the header and then one bracketed line per row |
| MatrixModel.AppendRow | java-server/src/main/java/com/mlhybrid/model/Matrix.java:81-89 | The inner loop appends the row's cells that lie inside the data, separated by ", " |
| MatrixModel.RenderedLineCount | java-server/src/main/java/com/mlhybrid/model/Matrix.java:77-91 | When cell texts have no newline, the text has 1 + max(rows, 0) lines |
| MatrixModel.FullRowIsJoined | java-server/src/main/java/com/mlhybrid/model/Matrix.java:80-90 | A row wholly inside the data prints as "[" + its cells joined by ", " + "]" |
| MatrixModel.MissingRowIsEmpty | java-server/src/main/java/com/mlhybrid/model/Matrix.java:82-88 | A row starting past the data prints as "[]" |
| WebSocket.Session.constructor | java-server/src/main/java/com/mlhybrid/websocket/WebSocketHandler.java:29-31 | A session has an id, an open flag and a flag saying whether its sends fail |
| WebSocket.WebSocketHandler.constructor | java-server/src/main/java/com/mlhybrid/websocket/WebSocketHandler.java:24-26 | The hub starts with no sessions and nothing sent |
| WebSocket.WebSocketHandler.AfterConnectionEstablished | java-server/src/main/java/com/mlhybrid/websocket/WebSocketHandler.java:29-39 | Appends the session to the list, then sends it the welcome text if the send succeeds |
| WebSocket.WebSocketHandler.AfterConnectionClosed | java-server/src/main/java/com/mlhybrid/websocket/WebSocketHandler.java:42-52 | Removes the first registration of the session, and nothing else |
| WebSocket.WebSocketHandler.HandleTransportError | java-server/src/main/java/com/mlhybrid/websocket/WebSocketHandler.java:55-64 | Changes neither the session list nor what was sent |
| WebSocket.WebSocketHandler.HandleTextMessage | java-server/src/main/java/com/mlhybrid/websocket/WebSocketHandler.java:67-77 | Changes neither the session list nor what was sent |
| WebSocket.WebSocketHandler.SendUpdate | java-server/src/main/java/com/mlhybrid/websocket/WebSocketHandler.java:80-102 | Sends the text once to each registered session that accepts it, in list order |
| WebSocket.TaskUpdate | java-server/src/main/java/com/mlhybrid/websocket/WebSocketHandler.java:106-115 | The update has exactly the keys taskId, status, data and timestamp, holding the given id, status and data |
| WebSocket.WebSocketHandler.SendTaskUpdate | java-server/src/main/java/com/mlhybrid/websocket/WebSocketHandler.java:105-143 | Throws exactly when data is null; otherwise publishes the four-key update and sends it to each accepting session, or sends nothing if serialisation fails |
| WebSocket.WebSocketHandler.BroadcastMessage | java-server/src/main/java/com/mlhybrid/websocket/WebSocketHandler.java:150-173 | Publishes the map and sends its JSON to each accepting session, or sends nothing if serialisation fails |
| WebSocket.WebSocketHandler.Deliver | java-server/src/main/java/com/mlhybrid/websocket/WebSocketHandler.java:156-169 | The send loop adds exactly the fan-out of the text over the session list |
| WebSocket.FanoutAppend | java-server/src/main/java/com/mlhybrid/websocket/WebSocketHandler.java:88-101 | Fan-out over two lists in sequence is the fan-out over their concatenation |
| WebSocket.FanoutOnlyToAccepting | java-server/src/main/java/com/mlhybrid/websocket/WebSocketHandler.java:88-101 | Every frame goes to a listed session that is open and whose send succeeds, and carries the text |
| WebSocket.CopiesPerSession | java-server/src/main/java/com/mlhybrid/websocket/WebSocketHandler.java:122-135 | An accepting session receives one copy per registration; any other session receives none |
| WebSocket.CopiesAppend | java-server/src/main/java/com/mlhybrid/websocket/WebSocketHandler.java:156-169 | Copies a session received over two logs add up |
| WebSocket.RemoveFirst | java-server/src/main/java/com/mlhybrid/websocket/WebSocketHandler.java:51 | Removing a registered session shortens the list by one; removing an unregistered one keeps its length |
| WebSocket.RemoveAbsent | java-server/src/main/java/com/mlhybrid/websocket/WebSocketHandler.java:51 | Closing an unregistered session leaves the list unchanged |
| WebSocket.FirstIndex | java-server/src/main/java/com/mlhybrid/websocket/WebSocketHandler.java:51 | The position removed is the session's first occurrence |
| WebSocket.RemovePresent | java-server/src/main/java/com/mlhybrid/websocket/WebSocketHandler.java:51 | Closing cuts out the first registration and keeps the rest in order |
| WebSocket.RemoveOneRegistration | java-server/src/main/java/com/mlhybrid/websocket/WebSocketHandler.java:51 | Closing shortens the list by one and removes exactly one registration of the session |
| GrpcClient.GrpcClientService.constructor | java-server/src/main/java/com/mlhybrid/grpc/GrpcClientService.java:37-51 | The client starts with no calls made |
| GrpcClient.GrpcClientService.Compute | java-server/src/main/java/com/mlhybrid/grpc/GrpcClientService.java:61-102 | Records exactly one vector call with its arguments, the answer or exception it got, and how many events the hub had published by then |
| GrpcClient.GrpcClientService.MatrixCompute | java-server/src/main/java/com/mlhybrid/grpc/GrpcClientService.java:104-164 | Records exactly one matrix call with its request, the answer or exception it got, and how many events the hub had published by then |
| MatrixController.MatrixTaskId | java-server/src/main/java/com/mlhybrid/controller/MatrixController.java:38-40 | A non-empty caller id is kept; otherwise the id is "matrix-" + UUID, which is never empty |
| MatrixController.RequiresMatrixB | java-server/src/main/java/com/mlhybrid/controller/MatrixController.java:125-131 | Only a non-null operation can need matrix B; transpose and inverse never do |
| MatrixController.ValidationError | java-server/src/main/java/com/mlhybrid/controller/MatrixController.java:49-68 | No error exactly when A is present and B is present wherever the operation needs it; a missing A gives "Matrix A is required", a missing B a text starting "Matrix B is required for " |
| MatrixController.Compute | java-server/src/main/java/com/mlhybrid/controller/MatrixController.java:35-120 | An invalid request gets 400 with no events and no call. Otherwise: the "started" event, then one backend call with the assigned id made after that event, then one terminal event and the reply that matches that outcome |
| MatrixController.Dispatch | java-server/src/main/java/com/mlhybrid/controller/MatrixController.java:71-98 | Publishes the started event, then calls the backend exactly once with the validated request (the call sees one more published event than before), then publishes that outcome's terminal event and returns its reply |
| MatrixController.Conclude | java-server/src/main/java/com/mlhybrid/controller/MatrixController.java:81-118 | Broadcasts the terminal event of the outcome and returns the reply for that outcome |
| MatrixController.BroadcastTaskStarted | java-server/src/main/java/com/mlhybrid/controller/MatrixController.java:136-144 | Publishes {taskId, status "started", operation, timestamp} |
| MatrixController.BroadcastTaskCompleted | java-server/src/main/java/com/mlhybrid/controller/MatrixController.java:149-162 | Publishes the completed event, with rows and cols only when there is a result matrix |
| MatrixController.BroadcastTaskFailed | java-server/src/main/java/com/mlhybrid/controller/MatrixController.java:167-175 | Publishes {taskId of the response, "failed", its error message, timestamp} |
| MatrixController.BroadcastTaskError | java-server/src/main/java/com/mlhybrid/controller/MatrixController.java:180-188 | Publishes {taskId, "error", the exception message, timestamp} |
| MatrixController.TerminalPairing | java-server/src/main/java/com/mlhybrid/controller/MatrixController.java:81-118 | Each outcome gives one terminal event. Its status is completed, failed or error exactly when the reply is 200, 422 or 500, and both carry the same task id |
| MatrixController.EventIdsAgree | java-server/src/main/java/com/mlhybrid/controller/MatrixController.java:136-188 | Started and terminal events share an id exactly when the backend echoes the id or the call threw |
| MatrixController.CompletedEventShape | java-server/src/main/java/com/mlhybrid/controller/MatrixController.java:156-159 | The completed event has rows and cols exactly when the response has a result matrix, with its values |
| MatrixController.ErrorPathCarriesNoResult | java-server/src/main/java/com/mlhybrid/controller/MatrixController.java:99-118 | The error event and the 500 body carry only the id and the message |
| MatrixController.RejectedRequests | java-server/src/main/java/com/mlhybrid/controller/MatrixController.java:49-68 | A request is refused exactly when A is missing, or B is missing for multiply, add or subtract |
| MLController.VectorTaskId | java-server/src/main/java/com/mlhybrid/controller/MLController.java:41-43 | A non-empty caller id is kept; otherwise a UUID, which is never empty |
| MLController.TaskTypeOrDefault | java-server/src/main/java/com/mlhybrid/controller/MLController.java:57-59 | A given task type is passed on as it is; the backend sees "default" exactly when the type is null or "default" |
| MLController.Compute | java-server/src/main/java/com/mlhybrid/controller/MLController.java:37-104 | Without data: an escaping exception and no effects. Otherwise: the "started" update, then one backend call with the defaulted task type made after that update, then the terminal update and reply of that outcome |
| MLController.Conclude | java-server/src/main/java/com/mlhybrid/controller/MLController.java:74-102 | After the backend call: the terminal update, if any, and the reply of the outcome, including the exceptions `Map.of` raises on null values |
| MLController.OneTerminalPerReply | java-server/src/main/java/com/mlhybrid/controller/MLController.java:74-102 | A terminal update ("completed" or "error", with the job's id) is sent exactly when a 200 reply is returned |
| MLController.ErrorPathPairs | java-server/src/main/java/com/mlhybrid/controller/MLController.java:87-102 | A backend exception yields the update {error: message} and a reply with the job's id, status "error: " + message and no result |
| MLController.SuccessPathPairs | java-server/src/main/java/com/mlhybrid/controller/MLController.java:75-86 | A backend answer is returned as-is, and its result list is the data of the completed update |
| MLController.TaskTypeDefaulting | java-server/src/main/java/com/mlhybrid/controller/MLController.java:57-59 | Only a null task type becomes "default"; an empty one is passed on |
| MatrixOps.Message | rust-server/src/matrix_ops.rs:15-24 | Each error has its fixed, non-empty display text |
| MatrixOps.Multiplied | rust-server/src/matrix_ops.rs:112-143 | Rejected with DimensionMismatch exactly when a.cols ≠ b.rows; otherwise a.rows × b.cols with rows·cols elements; never panics |
| MatrixOps.DotProduct | rust-server/src/matrix_ops.rs:125-133 | The k loop computes the dot product, skipping products whose index is past either data |
| MatrixOps.MatrixMultiply | rust-server/src/matrix_ops.rs:112-143 | The nested loops over the result buffer compute exactly the specified product |
| MatrixOps.ProductEntries | rust-server/src/matrix_ops.rs:123-135 | Entry (i, j) of the product is the guarded dot product of row i and column j |
| MatrixOps.NothingSkippedOnFullData | rust-server/src/matrix_ops.rs:126-133 | With complete data, the guarded sum equals the textbook dot product |
| MatrixOps.RightIdentity | rust-server/src/matrix_ops.rs:112-143 | A matrix with complete data times the identity is itself |
| MatrixOps.Transposed | rust-server/src/matrix_ops.rs:146-164 | Panics exactly when the data is shorter than rows·cols; otherwise cols × rows; never rejected |
| MatrixOps.MatrixTranspose | rust-server/src/matrix_ops.rs:146-164 | The nested copy loop computes the specified transpose, or panics at the first read past the data |
| MatrixOps.CopyRow | rust-server/src/matrix_ops.rs:153-156 | One pass of the j loop copies row i to column i of the result, or panics, only when the data is shorter than rows·cols |
| MatrixOps.TransposeEntries | rust-server/src/matrix_ops.rs:152-157 | result[j·rows + i] = a[i·cols + j] for every cell |
| MatrixOps.TransposeTwice | rust-server/src/matrix_ops.rs:146-164 | Transposing twice gives the original shape and its first rows·cols elements |
| MatrixOps.Added | rust-server/src/matrix_ops.rs:208-226 | Rejected exactly when the shapes differ; otherwise a's shape, with as many elements as the shorter data |
| MatrixOps.Subtracted | rust-server/src/matrix_ops.rs:229-247 | Rejected exactly when the shapes differ; otherwise a's shape, with as many elements as the shorter data |
| MatrixOps.AddCommutes | rust-server/src/matrix_ops.rs:208-226 | Addition of equal-shaped matrices does not depend on operand order |
| MatrixOps.SubtractUndoesAdd | rust-server/src/matrix_ops.rs:208-247 | In real arithmetic, (a + b) − b = a when a's data is no longer than b's |
| MatrixOps.Inverted | rust-server/src/matrix_ops.rs:167-205 | NonSquareMatrix exactly when not square; InvalidOperation exactly when square of size ≠ 2; a panic exactly for a 2×2 with fewer than 4 elements; otherwise a 2×2 inverse, or SingularMatrix exactly when the determinant is below 1e-10 in absolute value |
| MatrixOps.InverseIsLeftInverse | rust-server/src/matrix_ops.rs:176-199 | In real arithmetic, a computed inverse times the matrix is the identity |
| MatrixOps.InverseIsRightInverse | rust-server/src/matrix_ops.rs:176-199 | In real arithmetic, the matrix times its computed inverse is the identity |
| MatrixOps.Dispatched | rust-server/src/matrix_ops.rs:51-85 | An unknown operation is rejected as invalid; multiply, add or subtract without B is a dimension mismatch; only transpose and inverse can panic |
| MatrixOps.ProcessRequest | rust-server/src/matrix_ops.rs:30-109 | Echoes `task_id`. Completed iff a result is present, with an empty error and the elapsed time. Failed has a non-empty error and time 0. Missing A gives "Missing matrix A". Panics only for transpose or inverse |
| MatrixOps.MissingOperandRejection | rust-server/src/matrix_ops.rs:51-85 | Without matrix B the chosen operation is rejected for a dimension mismatch exactly for multiply, add and subtract |
| MatrixOps.MessageDistinct | rust-server/src/matrix_ops.rs:15-24 | Different errors have different texts |
| MatrixOps.FailureMessages | rust-server/src/matrix_ops.rs:51-84 | A binary operation without B fails with the dimension-mismatch text; an unknown operation fails with the invalid-operation text |
| GpuCompute.Default | rust-server/src/gpu_compute.rs:14-22 | The default value holds no device, queue or shader |
| GpuCompute.InitGpu | rust-server/src/gpu_compute.rs:26-31 | Always succeeds and changes no field |
| GpuCompute.Map | rust-server/src/gpu_compute.rs:42-47 | Applies the operation to each element, keeping length and order |
| GpuCompute.Operation | rust-server/src/gpu_compute.rs:42-47 | "square" squares, "sqrt" takes the square root, and every other task type doubles |
| GpuCompute.Compute | rust-server/src/gpu_compute.rs:34-48 | The output is as long as the input for every task type |
| GpuCompute.ComputeElementwise | rust-server/src/gpu_compute.rs:43-45 | "multiply" doubles, "square" squares and "sqrt" takes the square root of each element |
| GpuCompute.UnknownTypeDoubles | rust-server/src/gpu_compute.rs:46 | Every other task type, "default" included, gives the same result as "multiply" |
| GpuCompute.SampleVector | rust-server/src/client.rs:63-103 | The test client's expectations for [1, 2, 3, 4, 5] hold for "multiply" and "square" |
| System.MissingMatrixBAgrees | java-server/src/main/java/com/mlhybrid/controller/MatrixController.java:125-131 | With A present and B absent, the compute side fails with the dimension-mismatch text exactly for the operations the gateway refuses up front |
| System.DefaultTaskDoubles | java-server/src/main/java/com/mlhybrid/controller/MLController.java:57-59 | A vector job without a task type is doubled element by element on the compute side |

## Left out

- Concurrency: the hub's `CopyOnWriteArrayList` and simultaneous requests are modelled single-threaded. A broadcast iterates over a snapshot of the list.
- Logging everywhere, the simulated GPU's 100 ms sleep, and the `status`/`info` endpoints: they have no effect on results.
- Floating point: elements are mathematical reals, so the model ignores the following:
  - f32 rounding;
  - the effect of summation order;
  - NaN, and -0.0 (the 0.0 that a skipped product would add).
- The `1e-10` singularity threshold is compared exactly as a real.
- `sqrt` is a parameter; `%8.4f` formatting is a parameter `cell` from element to text.
- `%n` in the header of `Matrix.toString` is written as "\n".
- MatrixOps.Matrix: dimensions are natural numbers. The model omits:
  - negative i32 dimensions. They matter for `matrix_multiply` and `matrix_transpose`, whose `as usize` casts would allocate huge buffers or panic. `matrix_add` and `matrix_subtract` would return `Ok` with the negative shape, and `matrix_inverse` would return NonSquareMatrix or InvalidOperation; the model cannot express these results;
  - overflow of `rows * cols`.
- MatrixModel.Matrix: `data` is a sequence of reals, so neither the list nor an element of it can be null. The model does not capture:
  - a null list, accepted by `setData` and the constructor, which would make `toString` throw;
  - null elements, such as those from the JSON `[1.0, null]`. `toString` prints such a cell as "null" padded to width 8 (Matrix.java:84), and `toGrpcMatrix` throws a NullPointerException on it (Matrix.java:56), while `ToWire` always succeeds.
- MatrixModel.Matrix.ToString: `i * cols + j` is computed without 32-bit wrap-around. The loops are split between `Render` and `AppendRow`.
- WebSocket.WebSocketHandler.AfterConnectionEstablished: a send to a closed session is modelled like a failed send. In Spring such a send can throw IllegalStateException, which would escape the handler.
- Jackson: serialisation is an opaque partial function. The JSON text itself is not modelled.
- `Map.of` also rejects a null taskId or status. Those are never null on the modelled paths, because task ids are assigned first.
- GrpcClientService: its protobuf conversion is not modelled. The backend's answer or exception is chosen freely.
  - Failures of the gRPC call itself are wrapped in a RuntimeException with a fixed text.
  - The protobuf request is built before the `try`, so its exceptions reach the controllers unwrapped. For example, `setMatrixB(null)` for a unary operation throws a NullPointerException whose message is null. So `Threw(None)` is a real outcome of both calls.
  - The model also lets the answer have a null result list, which the real conversion does not produce.
- Calls into the generated gRPC stubs, and the Rust server's handler (`main.rs`) that turns `compute` and `process_request` into gRPC replies: not modelled.
- The UUID generator, `System.currentTimeMillis()` and `Instant` timing are parameters. The elapsed milliseconds are not truncated to i64.
- App.js, SimpleController.java, Application.java and the startup code are not part of this model.
