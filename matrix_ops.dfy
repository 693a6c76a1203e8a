/**
 * The compute side's matrix operations (`MatrixOps` in the Rust service).
 * Dimensions are natural numbers and elements are reals. A Rust panic (an
 * index past the end of the data) is the outcome `Panic`, which ends the
 * request without a response.
 */
module MatrixOps {
  import opened Common

  datatype Matrix = Matrix(rows: nat, cols: nat, data: seq<real>)

  datatype MatrixError = DimensionMismatch | NonSquareMatrix | SingularMatrix | InvalidOperation

  /** The `Display` text of each error; these reach the client as `error_message`. */
  function Message(e: MatrixError): (text: string)
    ensures text != []
  {
    match e
    case DimensionMismatch => "Matrix dimensions do not match for the requested operation"
    case NonSquareMatrix => "Operation requires a square matrix"
    case SingularMatrix => "Matrix is singular and cannot be inverted"
    case InvalidOperation => "Invalid matrix operation requested"
  }

  datatype OpResult = Computed(m: Matrix) | Rejected(error: MatrixError) | Panic

  /** Position of row `i`, column `j` in row-major data with `width` columns. */
  function Flat(i: nat, j: nat, width: nat): nat
  {
    i * width + j
  }

  // ---------------------------------------------------------------- multiply

  /** Product `k` of the (i, j) dot product, or 0 when either index is past its data. */
  function Term(a: Matrix, b: Matrix, i: nat, j: nat, k: nat): real
  {
    var ai := Flat(i, k, a.cols);
    var bi := Flat(k, j, b.cols);
    if ai < |a.data| && bi < |b.data| then a.data[ai] * b.data[bi] else 0.0
  }

  /** The first `n` terms of the (i, j) dot product, skipping out-of-range products. */
  function GuardedDot(a: Matrix, b: Matrix, i: nat, j: nat, n: nat): real
  {
    if n == 0 then 0.0 else GuardedDot(a, b, i, j, n - 1) + Term(a, b, i, j, n - 1)
  }

  /** Entry `p` of the row-major product data. */
  function ProductCell(a: Matrix, b: Matrix, p: nat): real
  {
    if b.cols == 0 then 0.0 else GuardedDot(a, b, p / b.cols, p % b.cols, a.cols)
  }

  /** `matrix_multiply` as a value. */
  function Multiplied(a: Matrix, b: Matrix): (r: OpResult)
    ensures r.Rejected? <==> a.cols != b.rows
    ensures r.Rejected? ==> r.error == DimensionMismatch
    ensures r.Computed? ==> r.m.rows == a.rows && r.m.cols == b.cols && |r.m.data| == a.rows * b.cols
    ensures !r.Panic?
  {
    if a.cols != b.rows then Rejected(DimensionMismatch)
    else Computed(Matrix(a.rows, b.cols, seq(a.rows * b.cols, p requires 0 <= p => ProductCell(a, b, p))))
  }

  /** The `k` loop: accumulates the (i, j) dot product. */
  method DotProduct(a: Matrix, b: Matrix, i: nat, j: nat) returns (sum: real)
    ensures sum == GuardedDot(a, b, i, j, a.cols)
  {
    sum := 0.0;
    var k := 0;
    while k < a.cols
      invariant 0 <= k <= a.cols
      invariant sum == GuardedDot(a, b, i, j, k)
    {
      var aIndex := i * a.cols + k;
      var bIndex := k * b.cols + j;
      if aIndex < |a.data| && bIndex < |b.data| {
        sum := sum + a.data[aIndex] * b.data[bIndex];
      }
      k := k + 1;
    }
  }

  /** `matrix_multiply`: fills the result row by row with the guarded dot products. */
  method MatrixMultiply(a: Matrix, b: Matrix) returns (r: OpResult)
    ensures r == Multiplied(a, b)
  {
    if a.cols != b.rows {
      return Rejected(DimensionMismatch);
    }
    var resultData := new real[a.rows * b.cols](_ => 0.0);
    var i := 0;
    while i < a.rows
      invariant 0 <= i <= a.rows
      invariant FilledBefore(a, b, resultData[..], Flat(i, 0, b.cols))
    {
      var j := 0;
      while j < b.cols
        invariant 0 <= j <= b.cols
        invariant FilledBefore(a, b, resultData[..], Flat(i, j, b.cols))
      {
        var sum := DotProduct(a, b, i, j);
        FlatBelow(i, j, a.rows, b.cols);
        DivModFlat(i, j, b.cols);
        ghost var before := resultData[..];
        resultData[Flat(i, j, b.cols)] := sum;
        FillStep(a, b, before, Flat(i, j, b.cols), sum);
        j := j + 1;
      }
      assert Flat(i, b.cols, b.cols) == Flat(i + 1, 0, b.cols);
      i := i + 1;
    }
    assert Flat(a.rows, 0, b.cols) == a.rows * b.cols;
    return Computed(Matrix(a.rows, b.cols, resultData[..]));
  }

  /** The first `n` entries of `out` are the product's. */
  ghost predicate FilledBefore(a: Matrix, b: Matrix, out: seq<real>, n: nat)
  {
    n <= |out| && forall p :: 0 <= p < n ==> out[p] == ProductCell(a, b, p)
  }

  lemma FillStep(a: Matrix, b: Matrix, out: seq<real>, n: nat, v: real)
    requires FilledBefore(a, b, out, n) && n < |out| && v == ProductCell(a, b, n)
    ensures FilledBefore(a, b, out[n := v], n + 1)
  {
  }

  // --------------------------------------------------------------- transpose

  /** Entry `p` of the transpose data: row `p / rows`, column `p % rows` of the result. */
  function TransposeCell(a: Matrix, p: nat): real
    requires a.rows * a.cols <= |a.data|
    requires p < a.cols * a.rows
  {
    DivModBounds(p, a.cols, a.rows);
    FlatBelow(p % a.rows, p / a.rows, a.rows, a.cols);
    a.data[Flat(p % a.rows, p / a.rows, a.cols)]
  }

  /** `matrix_transpose` as a value: it panics exactly when the data is shorter than rows*cols. */
  function Transposed(a: Matrix): (r: OpResult)
    ensures r.Panic? <==> |a.data| < a.rows * a.cols
    ensures r.Computed? ==> r.m.rows == a.cols && r.m.cols == a.rows && |r.m.data| == a.rows * a.cols
    ensures !r.Rejected?
  {
    if |a.data| < a.rows * a.cols then Panic
    else Computed(Matrix(a.cols, a.rows, seq(a.cols * a.rows, p requires 0 <= p < a.cols * a.rows => TransposeCell(a, p))))
  }

  /** Every source cell before (i, j) in row-major order has been copied to its transposed place. */
  ghost predicate CopiedBefore(a: Matrix, out: seq<real>, i: nat, j: nat)
  {
    forall i': nat, j': nat ::
      i' < a.rows && j' < a.cols && Flat(i', j', a.cols) < Flat(i, j, a.cols) ==>
        Flat(j', i', a.rows) < |out| && Flat(i', j', a.cols) < |a.data| &&
        out[Flat(j', i', a.rows)] == a.data[Flat(i', j', a.cols)]
  }

  /** One copy step keeps `CopiedBefore` and advances it by one cell. */
  lemma CopyStep(a: Matrix, out: seq<real>, out': seq<real>, i: nat, j: nat)
    requires i < a.rows && j < a.cols
    requires CopiedBefore(a, out, i, j)
    requires Flat(i, j, a.cols) < |a.data|
    requires Flat(j, i, a.rows) < |out|
    requires out' == out[Flat(j, i, a.rows) := a.data[Flat(i, j, a.cols)]]
    ensures CopiedBefore(a, out', i, j + 1)
  {
    forall i': nat, j': nat | i' < a.rows && j' < a.cols && Flat(i', j', a.cols) < Flat(i, j + 1, a.cols)
      ensures Flat(j', i', a.rows) < |out'| && Flat(i', j', a.cols) < |a.data|
      ensures out'[Flat(j', i', a.rows)] == a.data[Flat(i', j', a.cols)]
    {
      if Flat(i', j', a.cols) == Flat(i, j, a.cols) {
        FlatInjective(i', j', i, j, a.cols);
      } else {
        if Flat(j', i', a.rows) == Flat(j, i, a.rows) {
          FlatInjective(j', i', j, i, a.rows);
        }
      }
    }
  }

  /** `matrix_transpose`: copies each source cell, panicking at the first read past the data. */
  method MatrixTranspose(a: Matrix) returns (r: OpResult)
    ensures r == Transposed(a)
  {
    var resultData := new real[a.cols * a.rows](_ => 0.0);
    var i := 0;
    while i < a.rows
      invariant 0 <= i <= a.rows
      invariant Flat(i, 0, a.cols) <= |a.data|
      invariant CopiedBefore(a, resultData[..], i, 0)
    {
      var panicked := CopyRow(a, resultData, i);
      if panicked {
        return Panic;
      }
      i := i + 1;
    }
    assert Flat(a.rows, 0, a.cols) == a.rows * a.cols;
    TransposeComplete(a, resultData[..]);
    return Computed(Matrix(a.cols, a.rows, resultData[..]));
  }

  /** The `j` loop of `matrix_transpose` for source row `i`. */
  method CopyRow(a: Matrix, resultData: array<real>, i: nat) returns (panicked: bool)
    requires i < a.rows && resultData.Length == a.cols * a.rows
    requires Flat(i, 0, a.cols) <= |a.data|
    requires CopiedBefore(a, resultData[..], i, 0)
    modifies resultData
    ensures panicked ==> |a.data| < a.rows * a.cols
    ensures !panicked ==> Flat(i + 1, 0, a.cols) <= |a.data| && CopiedBefore(a, resultData[..], i + 1, 0)
  {
    var j := 0;
    while j < a.cols
      invariant 0 <= j <= a.cols
      invariant Flat(i, j, a.cols) <= |a.data|
      invariant CopiedBefore(a, resultData[..], i, j)
    {
      if Flat(i, j, a.cols) >= |a.data| {
        FlatBelow(i, j, a.rows, a.cols);
        return true;
      }
      FlatBelow(j, i, a.cols, a.rows);
      ghost var before := resultData[..];
      resultData[Flat(j, i, a.rows)] := a.data[Flat(i, j, a.cols)];
      CopyStep(a, before, resultData[..], i, j);
      j := j + 1;
    }
    assert Flat(i, a.cols, a.cols) == Flat(i + 1, 0, a.cols);
    CopiedNextRow(a, resultData[..], i);
    return false;
  }

  lemma CopiedNextRow(a: Matrix, out: seq<real>, i: nat)
    requires CopiedBefore(a, out, i, a.cols)
    ensures CopiedBefore(a, out, i + 1, 0)
  {
    assert Flat(i, a.cols, a.cols) == Flat(i + 1, 0, a.cols);
  }

  /** Once every cell has been copied, the array holds exactly the transpose. */
  lemma TransposeComplete(a: Matrix, out: seq<real>)
    requires a.rows * a.cols <= |a.data|
    requires |out| == a.cols * a.rows
    requires CopiedBefore(a, out, a.rows, 0)
    ensures out == seq(a.cols * a.rows, p requires 0 <= p < a.cols * a.rows => TransposeCell(a, p))
  {
    forall p | 0 <= p < a.cols * a.rows
      ensures out[p] == TransposeCell(a, p)
    {
      DivModBounds(p, a.cols, a.rows);
      var i, j := p % a.rows, p / a.rows;
      assert Flat(j, i, a.rows) == p;
      FlatBelow(i, j, a.rows, a.cols);
      assert Flat(i, j, a.cols) < Flat(a.rows, 0, a.cols);
    }
  }

  // ---------------------------------------------------------- add, subtract

  function Min(x: nat, y: nat): nat
  {
    if x <= y then x else y
  }

  /** `matrix_add`: equal shapes required; the data is zipped, so it is as long as the shorter input. */
  function Added(a: Matrix, b: Matrix): (r: OpResult)
    ensures r.Rejected? <==> a.rows != b.rows || a.cols != b.cols
    ensures r.Rejected? ==> r.error == DimensionMismatch
    ensures r.Computed? ==> r.m.rows == a.rows && r.m.cols == a.cols && |r.m.data| == Min(|a.data|, |b.data|)
    ensures !r.Panic?
  {
    if a.rows != b.rows || a.cols != b.cols then Rejected(DimensionMismatch)
    else Computed(Matrix(a.rows, a.cols, seq(Min(|a.data|, |b.data|), k requires 0 <= k < Min(|a.data|, |b.data|) => a.data[k] + b.data[k])))
  }

  /** `matrix_subtract`: as `Added` with the element-wise difference. */
  function Subtracted(a: Matrix, b: Matrix): (r: OpResult)
    ensures r.Rejected? <==> a.rows != b.rows || a.cols != b.cols
    ensures r.Rejected? ==> r.error == DimensionMismatch
    ensures r.Computed? ==> r.m.rows == a.rows && r.m.cols == a.cols && |r.m.data| == Min(|a.data|, |b.data|)
    ensures !r.Panic?
  {
    if a.rows != b.rows || a.cols != b.cols then Rejected(DimensionMismatch)
    else Computed(Matrix(a.rows, a.cols, seq(Min(|a.data|, |b.data|), k requires 0 <= k < Min(|a.data|, |b.data|) => a.data[k] - b.data[k])))
  }

  // ----------------------------------------------------------------- inverse

  /** The singularity threshold `1e-10`. */
  const Epsilon: real := 0.0000000001

  function Abs(x: real): real
  {
    if x < 0.0 then -x else x
  }

  function Determinant(a11: real, a12: real, a21: real, a22: real): real
  {
    a11 * a22 - a12 * a21
  }

  /**
   * `matrix_inverse`: only 2x2 matrices are inverted, by the adjugate formula.
   * Reading the four entries of a 2x2 matrix with fewer than four elements panics.
   */
  function Inverted(a: Matrix): (r: OpResult)
    ensures r == Rejected(NonSquareMatrix) <==> a.rows != a.cols
    ensures r == Rejected(InvalidOperation) <==> a.rows == a.cols && a.rows != 2
    ensures r.Panic? <==> a.rows == a.cols == 2 && |a.data| < 4
    ensures r.Computed? ==> r.m.rows == r.m.cols == 2 && |r.m.data| == 4
    ensures a.rows == a.cols == 2 && |a.data| >= 4 ==> r.Computed? || r == Rejected(SingularMatrix)
    ensures r == Rejected(SingularMatrix) <==>
              a.rows == a.cols == 2 && |a.data| >= 4
              && Abs(Determinant(a.data[0], a.data[1], a.data[2], a.data[3])) < Epsilon
  {
    if a.rows != a.cols then Rejected(NonSquareMatrix)
    else if a.rows != 2 then Rejected(InvalidOperation)
    else if |a.data| < 4 then Panic
    else
      var a11, a12, a21, a22 := a.data[0], a.data[1], a.data[2], a.data[3];
      var det := Determinant(a11, a12, a21, a22);
      if Abs(det) < Epsilon then Rejected(SingularMatrix)
      else
        var invDet := 1.0 / det;
        Computed(Matrix(2, 2, [a22 * invDet, -a12 * invDet, -a21 * invDet, a11 * invDet]))
  }

  // ------------------------------------------------------- process_request

  datatype Request = Request(matrixA: Option<Matrix>, matrixB: Option<Matrix>, taskId: string, operation: string)

  datatype Response = Response(result: Option<Matrix>, taskId: string, status: string,
                               executionTimeMs: nat, errorMessage: string)

  /** A response, or a panic that ends the request without one. */
  datatype Handled = Replied(response: Response) | Panicked

  /** The operation chosen by name, given that matrix A is present. */
  function Dispatched(a: Matrix, matrixB: Option<Matrix>, operation: string): (r: OpResult)
    ensures operation !in {"multiply", "transpose", "inverse", "add", "subtract"} ==> r == Rejected(InvalidOperation)
    ensures operation in {"multiply", "add", "subtract"} && matrixB.None? ==> r == Rejected(DimensionMismatch)
    ensures r.Panic? ==> operation in {"transpose", "inverse"}
    ensures operation in {"transpose", "inverse"} ==> r != Rejected(DimensionMismatch)
  {
    match operation
    case "multiply" => if matrixB.None? then Rejected(DimensionMismatch) else Multiplied(a, matrixB.value)
    case "transpose" => Transposed(a)
    case "inverse" => Inverted(a)
    case "add" => if matrixB.None? then Rejected(DimensionMismatch) else Added(a, matrixB.value)
    case "subtract" => if matrixB.None? then Rejected(DimensionMismatch) else Subtracted(a, matrixB.value)
    case _ => Rejected(InvalidOperation)
  }

  /** `process_request`; `elapsedMs` is the time the operation took. */
  function ProcessRequest(request: Request, elapsedMs: nat): (h: Handled)
    ensures h.Replied? ==> h.response.taskId == request.taskId
    ensures h.Replied? ==> h.response.status in {"completed", "failed"}
    ensures h.Replied? ==> (h.response.status == "completed" <==> h.response.result.Some?)
    ensures h.Replied? && h.response.status == "completed" ==>
              h.response.errorMessage == "" && h.response.executionTimeMs == elapsedMs
    ensures h.Replied? && h.response.status == "failed" ==>
              h.response.errorMessage != "" && h.response.executionTimeMs == 0
    ensures request.matrixA.None? ==> h == Replied(Response(None, request.taskId, "failed", 0, "Missing matrix A"))
    ensures h.Panicked? ==> request.matrixA.Some? && request.operation in {"transpose", "inverse"}
  {
    if request.matrixA.None? then
      Replied(Response(None, request.taskId, "failed", 0, "Missing matrix A"))
    else
      match Dispatched(request.matrixA.value, request.matrixB, request.operation)
      case Computed(m) => Replied(Response(Some(m), request.taskId, "completed", elapsedMs, ""))
      case Rejected(e) => Replied(Response(None, request.taskId, "failed", 0, Message(e)))
      case Panic => Panicked
  }

  // ----------------------------------------------------------- arithmetic

  lemma MulMonotone(x: nat, y: nat, c: nat)
    requires x <= y
    ensures x * c <= y * c
  {
  }

  /** A cell of an r x c grid has a flat index below r*c. */
  lemma FlatBelow(i: nat, j: nat, r: nat, c: nat)
    requires i < r && j < c
    ensures Flat(i, j, c) < r * c
  {
    MulMonotone(i + 1, r, c);
  }

  lemma DivModFlat(i: nat, j: nat, c: nat)
    requires j < c
    ensures Flat(i, j, c) / c == i && Flat(i, j, c) % c == j
  {
    var n := Flat(i, j, c);
    var q, r := n / c, n % c;
    assert n == q * c + r;
    if q > i {
      MulMonotone(i + 1, q, c);
    } else if q < i {
      MulMonotone(q + 1, i, c);
    }
  }

  lemma DivModBounds(p: nat, r: nat, c: nat)
    requires p < r * c
    ensures c > 0 && p % c < c && p / c < r && Flat(p / c, p % c, c) == p
  {
    if p / c >= r {
      MulMonotone(r, p / c, c);
    }
  }

  lemma FlatInjective(i: nat, j: nat, i': nat, j': nat, c: nat)
    requires j < c && j' < c
    requires Flat(i, j, c) == Flat(i', j', c)
    ensures i == i' && j == j'
  {
    DivModFlat(i, j, c);
    DivModFlat(i', j', c);
  }

  // ------------------------------------------------------------ properties

  /** Every entry of a product is the guarded dot product of its row of `a` and column of `b`. */
  lemma ProductEntries(a: Matrix, b: Matrix)
    requires a.cols == b.rows
    ensures forall i: nat, j: nat :: i < a.rows && j < b.cols ==>
              Flat(i, j, b.cols) < |Multiplied(a, b).m.data| &&
              Multiplied(a, b).m.data[Flat(i, j, b.cols)] == GuardedDot(a, b, i, j, a.cols)
  {
    forall i: nat, j: nat | i < a.rows && j < b.cols
      ensures Flat(i, j, b.cols) < |Multiplied(a, b).m.data|
      ensures Multiplied(a, b).m.data[Flat(i, j, b.cols)] == GuardedDot(a, b, i, j, a.cols)
    {
      FlatBelow(i, j, a.rows, b.cols);
      DivModFlat(i, j, b.cols);
    }
  }

  /** The textbook dot product of row `i` of `a` and column `j` of `b`, first `n` terms. */
  function RowColumnDot(a: Matrix, b: Matrix, i: nat, j: nat, n: nat): real
    requires i < a.rows && j < b.cols && n <= a.cols == b.rows
    requires |a.data| >= a.rows * a.cols && |b.data| >= b.rows * b.cols
  {
    if n == 0 then 0.0
    else
      FlatBelow(i, n - 1, a.rows, a.cols);
      FlatBelow(n - 1, j, b.rows, b.cols);
      RowColumnDot(a, b, i, j, n - 1) + a.data[Flat(i, n - 1, a.cols)] * b.data[Flat(n - 1, j, b.cols)]
  }

  /** With complete data no product is skipped: the guarded sum is the textbook one. */
  lemma {:induction false} NothingSkippedOnFullData(a: Matrix, b: Matrix, i: nat, j: nat, n: nat)
    requires i < a.rows && j < b.cols && n <= a.cols == b.rows
    requires |a.data| >= a.rows * a.cols && |b.data| >= b.rows * b.cols
    ensures GuardedDot(a, b, i, j, n) == RowColumnDot(a, b, i, j, n)
  {
    if n > 0 {
      NothingSkippedOnFullData(a, b, i, j, n - 1);
      FlatBelow(i, n - 1, a.rows, a.cols);
      FlatBelow(n - 1, j, b.rows, b.cols);
    }
  }

  /** The n x n identity matrix. */
  function Identity(n: nat): (id: Matrix)
    ensures id.rows == id.cols == n && |id.data| == n * n
  {
    Matrix(n, n, seq(n * n, p requires 0 <= p < n * n => if p / n == p % n then 1.0 else 0.0))
  }

  lemma IdentityEntry(n: nat, k: nat, j: nat)
    requires k < n && j < n
    ensures Flat(k, j, n) < |Identity(n).data|
    ensures Identity(n).data[Flat(k, j, n)] == if k == j then 1.0 else 0.0
  {
    FlatBelow(k, j, n, n);
    DivModFlat(k, j, n);
  }

  /** Multiplying by the identity picks out one entry of the row. */
  lemma {:induction false} DotWithIdentity(a: Matrix, i: nat, j: nat, n: nat)
    requires i < a.rows && j < a.cols && n <= a.cols && |a.data| == a.rows * a.cols
    ensures Flat(i, j, a.cols) < |a.data|
    ensures GuardedDot(a, Identity(a.cols), i, j, n) == if j < n then a.data[Flat(i, j, a.cols)] else 0.0
  {
    FlatBelow(i, j, a.rows, a.cols);
    if n > 0 {
      DotWithIdentity(a, i, j, n - 1);
      var k := n - 1;
      FlatBelow(i, k, a.rows, a.cols);
      IdentityEntry(a.cols, k, j);
      assert Term(a, Identity(a.cols), i, j, k) == if k == j then a.data[Flat(i, j, a.cols)] else 0.0;
    }
  }

  /** A matrix with complete data is unchanged by multiplication with the identity on the right. */
  lemma RightIdentity(a: Matrix)
    requires |a.data| == a.rows * a.cols
    ensures Multiplied(a, Identity(a.cols)) == Computed(a)
  {
    var id := Identity(a.cols);
    var r := Multiplied(a, id).m;
    forall p | 0 <= p < |r.data|
      ensures r.data[p] == a.data[p]
    {
      DivModBounds(p, a.rows, a.cols);
      DotWithIdentity(a, p / a.cols, p % a.cols, a.cols);
    }
  }

  /** The transpose places source cell (i, j) at row j, column i. */
  lemma TransposeEntries(a: Matrix)
    requires |a.data| >= a.rows * a.cols
    ensures forall i: nat, j: nat :: i < a.rows && j < a.cols ==>
              Flat(j, i, a.rows) < |Transposed(a).m.data| && Flat(i, j, a.cols) < |a.data| &&
              Transposed(a).m.data[Flat(j, i, a.rows)] == a.data[Flat(i, j, a.cols)]
  {
    forall i: nat, j: nat | i < a.rows && j < a.cols
      ensures Flat(j, i, a.rows) < |Transposed(a).m.data| && Flat(i, j, a.cols) < |a.data|
      ensures Transposed(a).m.data[Flat(j, i, a.rows)] == a.data[Flat(i, j, a.cols)]
    {
      FlatBelow(j, i, a.cols, a.rows);
      FlatBelow(i, j, a.rows, a.cols);
      DivModFlat(j, i, a.rows);
    }
  }

  /** Transposing twice gives back the matrix, its data cut to rows*cols. */
  lemma TransposeTwice(a: Matrix)
    requires |a.data| >= a.rows * a.cols
    ensures Transposed(Transposed(a).m) == Computed(Matrix(a.rows, a.cols, a.data[..a.rows * a.cols]))
  {
    var t := Transposed(a).m;
    TransposeEntries(a);
    TransposeEntries(t);
    var tt := Transposed(t).m;
    forall p | 0 <= p < a.rows * a.cols
      ensures tt.data[p] == a.data[p]
    {
      DivModBounds(p, a.rows, a.cols);
      var i, j := p / a.cols, p % a.cols;
      assert tt.data[Flat(i, j, t.rows)] == t.data[Flat(j, i, t.cols)];
    }
  }

  /** Addition is commutative. */
  lemma AddCommutes(a: Matrix, b: Matrix)
    ensures Added(a, b).Computed? ==> Added(a, b) == Added(b, a)
  {
  }

  /** Subtracting what was added gives back the first operand when it is no longer than the second. */
  lemma SubtractUndoesAdd(a: Matrix, b: Matrix)
    requires a.rows == b.rows && a.cols == b.cols && |a.data| <= |b.data|
    ensures Subtracted(Added(a, b).m, b) == Computed(a)
  {
    var s := Added(a, b).m;
    assert Subtracted(s, b).m.data == a.data;
  }

  /** One entry of a product of two 2x2 matrices. */
  lemma Entry2x2(x: Matrix, y: Matrix, i: nat, j: nat)
    requires x.cols == 2 && y.cols == 2 && |x.data| >= 4 && |y.data| >= 4 && i < 2 && j < 2
    ensures GuardedDot(x, y, i, j, 2) ==
              x.data[2 * i] * y.data[j] + x.data[2 * i + 1] * y.data[2 + j]
  {
    assert Flat(i, 0, 2) == 2 * i && Flat(0, j, 2) == j;
    assert Flat(i, 1, 2) == 2 * i + 1 && Flat(1, j, 2) == 2 + j;
    assert GuardedDot(x, y, i, j, 1) == Term(x, y, i, j, 0);
  }

  /** The product of two 2x2 matrices, entry by entry. */
  lemma Product2x2(x: Matrix, y: Matrix)
    requires x.rows == x.cols == y.rows == y.cols == 2 && |x.data| >= 4 && |y.data| >= 4
    ensures Multiplied(x, y).m.data ==
              [x.data[0] * y.data[0] + x.data[1] * y.data[2], x.data[0] * y.data[1] + x.data[1] * y.data[3],
               x.data[2] * y.data[0] + x.data[3] * y.data[2], x.data[2] * y.data[1] + x.data[3] * y.data[3]]
  {
    var d := Multiplied(x, y).m.data;
    assert d[0] == GuardedDot(x, y, 0, 0, 2) by { DivModFlat(0, 0, 2); }
    assert d[1] == GuardedDot(x, y, 0, 1, 2) by { DivModFlat(0, 1, 2); }
    assert d[2] == GuardedDot(x, y, 1, 0, 2) by { DivModFlat(1, 0, 2); }
    assert d[3] == GuardedDot(x, y, 1, 1, 2) by { DivModFlat(1, 1, 2); }
    Entry2x2(x, y, 0, 0);
    Entry2x2(x, y, 0, 1);
    Entry2x2(x, y, 1, 0);
    Entry2x2(x, y, 1, 1);
    assert |d| == 4;
    assert d[0] == x.data[0] * y.data[0] + x.data[1] * y.data[2];
    assert d[1] == x.data[0] * y.data[1] + x.data[1] * y.data[3];
    assert d[2] == x.data[2] * y.data[0] + x.data[3] * y.data[2];
    assert d[3] == x.data[2] * y.data[1] + x.data[3] * y.data[3];
  }

  /** The adjugate identities behind the 2x2 inverse, for any scale `k` with det * k = 1. */
  lemma AdjugateProducts(a11: real, a12: real, a21: real, a22: real, k: real)
    requires Determinant(a11, a12, a21, a22) * k == 1.0
    ensures (a22 * k) * a11 + (-a12 * k) * a21 == 1.0
    ensures (a22 * k) * a12 + (-a12 * k) * a22 == 0.0
    ensures (-a21 * k) * a11 + (a11 * k) * a21 == 0.0
    ensures (-a21 * k) * a12 + (a11 * k) * a22 == 1.0
    ensures a11 * (a22 * k) + a12 * (-a21 * k) == 1.0
    ensures a11 * (-a12 * k) + a12 * (a11 * k) == 0.0
    ensures a21 * (a22 * k) + a22 * (-a21 * k) == 0.0
    ensures a21 * (-a12 * k) + a22 * (a11 * k) == 1.0
  {
  }

  /** The entries of a computed inverse, with the determinant's reciprocal as scale. */
  lemma InverseEntries(a: Matrix) returns (k: real)
    requires Inverted(a).Computed?
    ensures |a.data| >= 4 && a.rows == a.cols == 2
    ensures Determinant(a.data[0], a.data[1], a.data[2], a.data[3]) * k == 1.0
    ensures Inverted(a).m == Matrix(2, 2, [a.data[3] * k, -a.data[1] * k, -a.data[2] * k, a.data[0] * k])
  {
    var det := Determinant(a.data[0], a.data[1], a.data[2], a.data[3]);
    k := 1.0 / det;
    var d := Inverted(a).m.data;
    assert d[0] == a.data[3] * k && d[1] == -a.data[1] * k && d[2] == -a.data[2] * k && d[3] == a.data[0] * k;
  }

  lemma IdentityTwo()
    ensures Identity(2).data == [1.0, 0.0, 0.0, 1.0]
  {
    IdentityEntry(2, 0, 0);
    IdentityEntry(2, 0, 1);
    IdentityEntry(2, 1, 0);
    IdentityEntry(2, 1, 1);
  }

  /** A computed 2x2 inverse times the matrix is the identity. */
  lemma InverseIsLeftInverse(a: Matrix)
    requires Inverted(a).Computed?
    ensures Multiplied(Inverted(a).m, a) == Computed(Identity(2))
  {
    var k := InverseEntries(a);
    var a11, a12, a21, a22 := a.data[0], a.data[1], a.data[2], a.data[3];
    AdjugateProducts(a11, a12, a21, a22, k);
    Product2x2(Inverted(a).m, a);
    IdentityTwo();
    var d := Multiplied(Inverted(a).m, a).m.data;
    assert d[0] == (a22 * k) * a11 + (-a12 * k) * a21;
    assert d[1] == (a22 * k) * a12 + (-a12 * k) * a22;
    assert d[2] == (-a21 * k) * a11 + (a11 * k) * a21;
    assert d[3] == (-a21 * k) * a12 + (a11 * k) * a22;
  }

  /** The matrix times its computed 2x2 inverse is the identity. */
  lemma InverseIsRightInverse(a: Matrix)
    requires Inverted(a).Computed?
    ensures Multiplied(a, Inverted(a).m) == Computed(Identity(2))
  {
    var k := InverseEntries(a);
    var a11, a12, a21, a22 := a.data[0], a.data[1], a.data[2], a.data[3];
    AdjugateProducts(a11, a12, a21, a22, k);
    Product2x2(a, Inverted(a).m);
    IdentityTwo();
    var d := Multiplied(a, Inverted(a).m).m.data;
    assert d[0] == a11 * (a22 * k) + a12 * (-a21 * k);
    assert d[1] == a11 * (-a12 * k) + a12 * (a11 * k);
    assert d[2] == a21 * (a22 * k) + a22 * (-a21 * k);
    assert d[3] == a21 * (-a12 * k) + a22 * (a11 * k);
  }

  /** A binary operation without matrix B is rejected for a dimension mismatch, and no other operation is. */
  lemma MissingOperandRejection(a: Matrix, operation: string)
    ensures Dispatched(a, None, operation) == Rejected(DimensionMismatch) <==>
              operation in {"multiply", "add", "subtract"}
  {
    if operation == "inverse" {
      assert Inverted(a) != Rejected(DimensionMismatch);
    }
  }

  /** Different errors have different texts. */
  lemma MessageDistinct(e: MatrixError, e': MatrixError)
    requires Message(e) == Message(e')
    ensures e == e'
  {
  }

  /** Each binary operation without matrix B, and each unknown operation, fails with its error's text. */
  lemma FailureMessages(request: Request, elapsedMs: nat)
    requires request.matrixA.Some?
    ensures request.operation in {"multiply", "add", "subtract"} && request.matrixB.None? ==>
              ProcessRequest(request, elapsedMs) == Replied(Response(None, request.taskId, "failed", 0, Message(DimensionMismatch)))
    ensures request.operation !in {"multiply", "transpose", "inverse", "add", "subtract"} ==>
              ProcessRequest(request, elapsedMs) == Replied(Response(None, request.taskId, "failed", 0, Message(InvalidOperation)))
  {
  }
}
