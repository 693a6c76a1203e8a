/**
 * The gateway's request and response records (`ComputeRequest`,
 * `ComputeResponse`, `MatrixComputeRequest`, `MatrixComputeResponse`).
 * Fields Java may leave null are `Option`s; matrices are references to
 * `Matrix` objects, null when absent.
 */
module Messages {
  import opened Common
  import MatrixModel

  datatype ComputeRequest = ComputeRequest(data: Option<seq<real>>, taskId: Option<string>, taskType: Option<string>)

  /** `result` is null only in the error response the controller builds itself. */
  datatype ComputeResponse = ComputeResponse(result: Option<seq<real>>, taskId: string, status: string)

  datatype MatrixComputeRequest = MatrixComputeRequest(
    matrixA: MatrixModel.Matrix?,
    matrixB: MatrixModel.Matrix?,
    taskId: Option<string>,
    operation: Option<string>)

  /** Built from a protobuf reply, so its strings are never null. */
  datatype MatrixComputeResponse = MatrixComputeResponse(
    resultMatrix: MatrixModel.Matrix?,
    taskId: string,
    status: string,
    errorMessage: string,
    executionTimeMs: int)
}
