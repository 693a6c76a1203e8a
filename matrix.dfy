/**
 * The gateway's matrix value (`Matrix.java`): a row-major buffer with explicit
 * dimensions, its protobuf form, and its pretty printer.
 */
module MatrixModel {
  import opened Common

  /** The protobuf `Matrix` message: `rows`, `cols` and `repeated float data`. */
  datatype WireMatrix = WireMatrix(rows: Int32, cols: Int32, data: seq<real>)

  class Matrix {
    var rows: Int32
    var cols: Int32
    var data: seq<real>

    /** `new Matrix()`: no rows, no columns, an empty list. */
    constructor ()
      ensures rows == 0 && cols == 0 && data == []
    {
      rows, cols, data := 0, 0, [];
    }

    /** `new Matrix(rows, cols, data)`: stores the three values as given, without checking them. */
    constructor Of(rows: Int32, cols: Int32, data: seq<real>)
      ensures this.rows == rows && this.cols == cols && this.data == data
    {
      this.rows, this.cols, this.data := rows, cols, data;
    }

    method SetRows(rows: Int32)
      modifies this
      ensures this.rows == rows && cols == old(cols) && data == old(data)
    {
      this.rows := rows;
    }

    method SetCols(cols: Int32)
      modifies this
      ensures this.cols == cols && rows == old(rows) && data == old(data)
    {
      this.cols := cols;
    }

    method SetData(data: seq<real>)
      modifies this
      ensures this.data == data && rows == old(rows) && cols == old(cols)
    {
      this.data := data;
    }

    /** `toGrpcMatrix`: copies the three fields into the wire message. */
    function ToWire(): (w: WireMatrix)
      reads this
      ensures w.rows == rows && w.cols == cols && w.data == data
    {
      WireMatrix(rows, cols, data)
    }

    /** `fromGrpcMatrix`: a fresh object whose wire form is the message it was read from. */
    static method FromWire(w: WireMatrix) returns (m: Matrix)
      ensures fresh(m) && m.ToWire() == w
    {
      m := new Matrix.Of(w.rows, w.cols, w.data);
    }

    /**
     * `toString`, with `String.format("%8.4f", x)` abstracted as `cell`:
     * a header line, then one bracketed line per row whose cells are read
     * only where the row-major index is inside `data`.
     */
    method ToString(cell: real -> string) returns (s: string)
      ensures s == Rendered(rows, cols, data, cell)
    {
      s := Render(rows, cols, data, cell);
    }
  }

  /** The nested loops of `toString` over a snapshot of the three fields. */
  method Render(rows: int, cols: int, data: seq<real>, cell: real -> string) returns (s: string)
    ensures s == Rendered(rows, cols, data, cell)
  {
    ghost var width := Max0(cols);
    var sb := Header(rows, cols);
    var i := 0;
    while i < rows
      invariant 0 <= i <= Max0(rows)
      invariant sb == Header(rows, cols) + RowsText(data, width, i, cell)
    {
      ghost var done := sb;
      sb := sb + "[";
      sb := AppendRow(sb, i, cols, data, cell);
      sb := sb + "]\n";
      RowAppended(done, data, width, i, cell);
      Associative(Header(rows, cols), RowsText(data, width, i, cell), RowText(data, width, i, cell));
      i := i + 1;
    }
    s := sb;
  }

  /** The inner loop of `toString`: the cells of row `i`, appended to `sb`. */
  method AppendRow(sb0: string, i: nat, cols: int, data: seq<real>, cell: real -> string) returns (sb: string)
    ensures sb == sb0 + Cells(data, Max0(cols), i, Max0(cols), cell)
  {
    ghost var width := Max0(cols);
    sb := sb0;
    var j := 0;
    while j < cols
      invariant 0 <= j <= width
      invariant sb == sb0 + Cells(data, width, i, j, cell)
    {
      ghost var before := sb;
      assert width == cols;
      var index := i * cols + j;
      assert 0 <= index by { NonNegativeProduct(i, cols); }
      CellTextUnfold(data, width, i, j, cell);
      if index < |data| {
        sb := sb + cell(data[index]);
        if j < cols - 1 {
          sb := sb + ", ";
        }
      }
      assert sb == before + CellText(data, width, i, j, cell);
      Associative(sb0, Cells(data, width, i, j, cell), CellText(data, width, i, j, cell));
      j := j + 1;
    }
  }

  lemma CellTextUnfold(data: seq<real>, cols: nat, i: nat, j: nat, cell: real -> string)
    requires j < cols
    ensures i * cols + j < |data| && j < cols - 1 ==> CellText(data, cols, i, j, cell) == cell(data[i * cols + j]) + ", "
    ensures i * cols + j < |data| && j == cols - 1 ==> CellText(data, cols, i, j, cell) == cell(data[i * cols + j])
    ensures i * cols + j >= |data| ==> CellText(data, cols, i, j, cell) == ""
  {
  }

  lemma Associative(a: string, b: string, c: string)
    ensures (a + b) + c == a + (b + c)
  {
  }

  lemma RowAppended(done: string, data: seq<real>, width: nat, i: nat, cell: real -> string)
    ensures done + "[" + Cells(data, width, i, width, cell) + "]\n"
         == done + RowText(data, width, i, cell)
  {
  }

  /** A matrix sent to the backend and read back is the matrix that was sent. */
  method WireRoundTrip(m: Matrix) returns (copy: Matrix)
    ensures fresh(copy)
    ensures copy.rows == m.rows && copy.cols == m.cols && copy.data == m.data
  {
    copy := Matrix.FromWire(m.ToWire());
  }

  lemma NonNegativeProduct(a: nat, b: nat)
    ensures a * b >= 0
  {
  }

  function Max0(n: int): nat
  {
    if n < 0 then 0 else n
  }

  function DigitChar(d: nat): char
    requires d < 10
  {
    ['0', '1', '2', '3', '4', '5', '6', '7', '8', '9'][d]
  }

  /** Decimal digits of a natural number, most significant first. */
  function Digits(n: nat): (r: string)
    ensures |r| > 0
    ensures forall k :: 0 <= k < |r| ==> '0' <= r[k] <= '9'
  {
    if n < 10 then [DigitChar(n)] else Digits(n / 10) + [DigitChar(n % 10)]
  }

  /** Java's `%d`. */
  function IntText(n: int): (r: string)
    ensures '\n' !in r
  {
    if n < 0 then "-" + Digits(-n) else Digits(n)
  }

  /** `String.format("Matrix %dx%d:%n", rows, cols)`, with `%n` as a line feed. */
  function Header(rows: int, cols: int): string
  {
    "Matrix " + IntText(rows) + "x" + IntText(cols) + ":\n"
  }

  /** What column `j` of row `i` contributes: nothing when its index is past the data. */
  function CellText(data: seq<real>, cols: nat, i: nat, j: nat, cell: real -> string): string
    requires j < cols
  {
    var index := i * cols + j;
    if index < |data| then cell(data[index]) + (if j < cols - 1 then ", " else "") else ""
  }

  /** The first `j` columns of row `i`. */
  function Cells(data: seq<real>, cols: nat, i: nat, j: nat, cell: real -> string): string
    requires j <= cols
  {
    if j == 0 then "" else Cells(data, cols, i, j - 1, cell) + CellText(data, cols, i, j - 1, cell)
  }

  function RowText(data: seq<real>, cols: nat, i: nat, cell: real -> string): string
  {
    "[" + Cells(data, cols, i, cols, cell) + "]\n"
  }

  /** The first `n` row lines. */
  function RowsText(data: seq<real>, cols: nat, n: nat, cell: real -> string): string
  {
    if n == 0 then "" else RowsText(data, cols, n - 1, cell) + RowText(data, cols, n - 1, cell)
  }

  /** The text `toString` builds; negative dimensions print no rows and no cells. */
  function Rendered(rows: int, cols: int, data: seq<real>, cell: real -> string): string
  {
    Header(rows, cols) + RowsText(data, Max0(cols), Max0(rows), cell)
  }

  /** The number of line feeds in `s`. */
  function Newlines(s: string): nat
  {
    if s == [] then 0 else (if s[0] == '\n' then 1 else 0) + Newlines(s[1..])
  }

  /** The cells of a row, joined with ", " (an independent statement of the intended layout). */
  function Join(xs: seq<string>): string
  {
    if |xs| == 0 then ""
    else if |xs| == 1 then xs[0]
    else Join(xs[..|xs| - 1]) + ", " + xs[|xs| - 1]
  }

  lemma {:induction false} NewlinesConcat(a: string, b: string)
    ensures Newlines(a + b) == Newlines(a) + Newlines(b)
  {
    if a == [] {
      assert a + b == b;
    } else {
      assert (a + b)[0] == a[0];
      assert (a + b)[1..] == a[1..] + b;
      NewlinesConcat(a[1..], b);
    }
  }

  lemma {:induction false} NoNewlines(s: string)
    requires '\n' !in s
    ensures Newlines(s) == 0
  {
    if s != [] {
      NoNewlines(s[1..]);
    }
  }

  lemma {:induction false} CellsHaveNoNewlines(data: seq<real>, cols: nat, i: nat, j: nat, cell: real -> string)
    requires j <= cols
    requires forall x :: '\n' !in cell(x)
    ensures Newlines(Cells(data, cols, i, j, cell)) == 0
  {
    if j > 0 {
      CellsHaveNoNewlines(data, cols, i, j - 1, cell);
      var t := CellText(data, cols, i, j - 1, cell);
      assert '\n' !in t;
      NoNewlines(t);
      NewlinesConcat(Cells(data, cols, i, j - 1, cell), t);
    }
  }

  lemma RowHasOneNewline(data: seq<real>, cols: nat, i: nat, cell: real -> string)
    requires forall x :: '\n' !in cell(x)
    ensures Newlines(RowText(data, cols, i, cell)) == 1
  {
    var c := Cells(data, cols, i, cols, cell);
    CellsHaveNoNewlines(data, cols, i, cols, cell);
    NewlinesConcat("[" + c, "]\n");
    NewlinesConcat("[", c);
  }

  /**
   * `toString` emits exactly one header line followed by one line per row,
   * provided the cell format never produces a line feed.
   */
  lemma {:induction false} RenderedLineCount(rows: int, cols: int, data: seq<real>, cell: real -> string)
    requires forall x :: '\n' !in cell(x)
    ensures Newlines(Rendered(rows, cols, data, cell)) == 1 + Max0(rows)
  {
    var h := Header(rows, cols);
    var a, b := IntText(rows), IntText(cols);
    assert h == ("Matrix " + a + "x" + b) + ":\n";
    assert '\n' !in "Matrix " + a + "x" + b;
    NoNewlines("Matrix " + a + "x" + b);
    NewlinesConcat("Matrix " + a + "x" + b, ":\n");
    RowsLineCount(data, Max0(cols), Max0(rows), cell);
    NewlinesConcat(h, RowsText(data, Max0(cols), Max0(rows), cell));
  }

  lemma {:induction false} RowsLineCount(data: seq<real>, cols: nat, n: nat, cell: real -> string)
    requires forall x :: '\n' !in cell(x)
    ensures Newlines(RowsText(data, cols, n, cell)) == n
  {
    if n > 0 {
      RowsLineCount(data, cols, n - 1, cell);
      RowHasOneNewline(data, cols, n - 1, cell);
      NewlinesConcat(RowsText(data, cols, n - 1, cell), RowText(data, cols, n - 1, cell));
    }
  }

  /** The formatted cells of a row whose data are all present. */
  function RowCells(data: seq<real>, cols: nat, i: nat, cell: real -> string): (r: seq<string>)
    requires (i + 1) * cols <= |data|
    ensures |r| == cols
  {
    seq(cols, j requires 0 <= j < cols => cell(data[i * cols + j]))
  }

  /**
   * A row whose cells are all present prints them separated by ", ", with no
   * separator after the last column.
   */
  lemma FullRowIsJoined(data: seq<real>, cols: nat, i: nat, cell: real -> string)
    requires (i + 1) * cols <= |data|
    ensures RowText(data, cols, i, cell) == "[" + Join(RowCells(data, cols, i, cell)) + "]\n"
  {
    var row := RowCells(data, cols, i, cell);
    if cols > 0 {
      FullCellsPrefix(data, cols, i, cols - 1, cell);
      assert row[..cols] == row;
      assert row[..cols - 1] + [row[cols - 1]] == row;
      if cols == 1 {
        assert Cells(data, cols, i, 1, cell) == Cells(data, cols, i, 0, cell) + CellText(data, cols, i, 0, cell);
      } else {
        assert Join(row) == Join(row[..cols - 1]) + ", " + row[cols - 1];
      }
    }
  }

  /** Before the last column, the printed cells are the joined prefix plus a trailing separator. */
  lemma {:induction false} FullCellsPrefix(data: seq<real>, cols: nat, i: nat, j: nat, cell: real -> string)
    requires (i + 1) * cols <= |data|
    requires j < cols
    ensures j == 0 ==> Cells(data, cols, i, j, cell) == ""
    ensures j > 0 ==> Cells(data, cols, i, j, cell) == Join(RowCells(data, cols, i, cell)[..j]) + ", "
  {
    var row := RowCells(data, cols, i, cell);
    if j > 0 {
      FullCellsPrefix(data, cols, i, j - 1, cell);
      IndexInRow(cols, i, j - 1);
      var last := row[j - 1];
      assert CellText(data, cols, i, j - 1, cell) == last + ", ";
      var prefix := row[..j];
      assert prefix[..j - 1] == row[..j - 1] && prefix[j - 1] == last;
      if j == 1 {
        assert Join(prefix) == last;
      } else {
        var before := Join(row[..j - 1]);
        assert Join(prefix) == before + ", " + last;
        Associative(before + ", ", last, ", ");
      }
    }
  }

  lemma IndexInRow(cols: nat, i: nat, j: nat)
    requires j < cols
    ensures i * cols + j < (i + 1) * cols
  {
    assert (i + 1) * cols == i * cols + cols;
  }

  /** A row that starts at or past the end of the data prints as `[]`: missing cells are omitted. */
  lemma MissingRowIsEmpty(data: seq<real>, cols: nat, i: nat, cell: real -> string)
    requires i * cols >= |data|
    ensures RowText(data, cols, i, cell) == "[]\n"
  {
    MissingCellsEmpty(data, cols, i, cols, cell);
  }

  lemma {:induction false} MissingCellsEmpty(data: seq<real>, cols: nat, i: nat, j: nat, cell: real -> string)
    requires i * cols >= |data|
    requires j <= cols
    ensures Cells(data, cols, i, j, cell) == ""
  {
    if j > 0 {
      MissingCellsEmpty(data, cols, i, j - 1, cell);
    }
  }
}
