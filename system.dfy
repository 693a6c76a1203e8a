/**
 * Facts that relate the REST side to the compute side: what the Java
 * controllers pass on and what the Rust service then does with it.
 */
module System {
  import opened Common
  import MatrixController
  import MLController
  import MatrixOps
  import GpuCompute

  /**
   * With matrix A present and matrix B absent, the compute side fails with the
   * dimension-mismatch message exactly for the operations the REST side
   * rejects up front for a missing matrix B.
   */
  lemma MissingMatrixBAgrees(a: MatrixOps.Matrix, taskId: string, operation: string, elapsedMs: nat)
    ensures var h := MatrixOps.ProcessRequest(MatrixOps.Request(Some(a), None, taskId, operation), elapsedMs);
            (h.Replied? && h.response.errorMessage == MatrixOps.Message(MatrixOps.DimensionMismatch))
              <==> MatrixController.RequiresMatrixB(Some(operation))
  {
    MatrixOps.MissingOperandRejection(a, operation);
    var r := MatrixOps.Dispatched(a, None, operation);
    if r.Rejected? && MatrixOps.Message(r.error) == MatrixOps.Message(MatrixOps.DimensionMismatch) {
      MatrixOps.MessageDistinct(r.error, MatrixOps.DimensionMismatch);
    }
  }

  /**
   * A vector job sent without a task type runs as "default" on the compute
   * side, which doubles every element.
   */
  lemma DefaultTaskDoubles(data: seq<real>, sqrt: real -> real)
    ensures var result := GpuCompute.Compute(data, MLController.TaskTypeOrDefault(None), sqrt);
            |result| == |data| && forall k :: 0 <= k < |data| ==> result[k] == 2.0 * data[k]
  {
    GpuCompute.UnknownTypeDoubles(data, "default", sqrt);
    GpuCompute.ComputeElementwise(data, sqrt);
  }
}
