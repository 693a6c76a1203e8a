/**
 * The compute backend as the gateway sees it through `GrpcClientService`:
 * a blocking call that either answers or throws. What it answers is not
 * known here, so each call's outcome is chosen arbitrarily and recorded.
 */
module GrpcClient {
  import opened Common
  import opened Messages

  /** A reply, or an exception with its (possibly null) `getMessage()`. */
  datatype Outcome<+R> = Answered(response: R) | Threw(message: Option<string>)

  /** The arguments of one vector call. */
  datatype VectorJob = VectorJob(data: seq<real>, taskId: string, taskType: string)

  /**
   * One call: its arguments, what it returned or threw, and how many events the
   * gateway's hub had published when the call was made, which places the call
   * in the order of the job's events. That count is supplied by the caller
   * (the controllers pass the hub's current number of published events).
   */
  datatype Call<+Q, +R> = Call(request: Q, outcome: Outcome<R>, ghost eventsBefore: nat)

  class GrpcClientService {
    /** Every `compute` call, with what it returned or threw. */
    var computeCalls: seq<Call<VectorJob, ComputeResponse>>
    /** Every `matrixCompute` call, with what it returned or threw. */
    var matrixCalls: seq<Call<MatrixComputeRequest, MatrixComputeResponse>>

    constructor ()
      ensures computeCalls == [] && matrixCalls == []
    {
      computeCalls, matrixCalls := [], [];
    }

    method Compute(data: seq<real>, taskId: string, taskType: string, ghost eventsSoFar: nat)
      returns (outcome: Outcome<ComputeResponse>)
      modifies this`computeCalls
      ensures computeCalls == old(computeCalls) + [Call(VectorJob(data, taskId, taskType), outcome, eventsSoFar)]
    {
      outcome := *;
      computeCalls := computeCalls + [Call(VectorJob(data, taskId, taskType), outcome, eventsSoFar)];
    }

    method MatrixCompute(request: MatrixComputeRequest, ghost eventsSoFar: nat)
      returns (outcome: Outcome<MatrixComputeResponse>)
      modifies this`matrixCalls
      ensures matrixCalls == old(matrixCalls) + [Call(request, outcome, eventsSoFar)]
    {
      outcome := *;
      matrixCalls := matrixCalls + [Call(request, outcome, eventsSoFar)];
    }
  }
}
