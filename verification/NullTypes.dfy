/**
 NULL-type repair over a flat row-major buffer (`fix_bulk_null_types`, src/batch.rs).
 */
module NullTypes {
  import opened Common
  import opened Values

  // ----- row-major indexing -----

  lemma MulMonotone(a: int, b: int, d: nat)
    requires a <= b
    ensures a * d <= b * d
  {
    assert (b - a) * d >= 0;
  }

  lemma IndexOf(row: nat, col: nat, cols: nat)
    requires col < cols
    ensures (row * cols + col) / cols == row && (row * cols + col) % cols == col
  {
    var i := row * cols + col;
    var q, r := i / cols, i % cols;
    assert i == q * cols + r;
    if q < row {
      MulMonotone(q + 1, row, cols);
      assert false;
    } else if q > row {
      MulMonotone(row + 1, q, cols);
      assert false;
    }
  }

  lemma IndexBound(row: nat, col: nat, rows: nat, cols: nat)
    requires row < rows && col < cols
    ensures row * cols + col < rows * cols
  {
    MulMonotone(row + 1, rows, cols);
    assert (row + 1) * cols == row * cols + cols;
  }

  lemma RowsFit(length: nat, cols: nat)
    requires cols > 0
    ensures length / cols * cols <= length < (length / cols + 1) * cols
  {
  }

  /** A cell of a whole row lies inside the buffer. */
  lemma CellBound(row: nat, col: nat, length: nat, cols: nat)
    requires col < cols && row < length / cols
    ensures row * cols + col < length
  {
    IndexBound(row, col, length / cols, cols);
    RowsFit(length, cols);
  }

  lemma RowBound(i: nat, rows: nat, cols: nat)
    requires cols > 0 && i < rows * cols
    ensures i / cols < rows
  {
    if i / cols >= rows {
      MulMonotone(rows, i / cols, cols);
      assert false;
    }
  }

  // ----- specification -----

  /** The null type a non-null value calls for in its column. */
  function NullTypeOf(p: FastParameter): (t: Option<TypedNull>)
    ensures t.None? <==> p.Null?
    ensures t != Some(U8)
  {
    match p
    case StringParam(_) => Some(String)
    case I64Param(_) => Some(I64)
    case F64Param(_) => Some(F64)
    case BoolParam(_) => Some(Bit)
    case BytesParam(_) => Some(Binary)
    case DateParam(_) => Some(Date)
    case DateTimeParam(_) => Some(DateTime)
    case Null(_) => None
  }

  function CellAt(cells: seq<FastParameter>, cols: nat, row: nat, col: nat): (p: FastParameter)
    requires col < cols && row < |cells| / cols
    ensures 0 <= row * cols + col < |cells| && p == cells[row * cols + col]
  {
    CellBound(row, col, |cells|, cols);
    cells[row * cols + col]
  }

  function Column(cells: seq<FastParameter>, cols: nat, col: nat): (c: seq<FastParameter>)
    requires col < cols
    ensures |c| == |cells| / cols
    ensures forall r :: 0 <= r < |c| ==> c[r] == CellAt(cells, cols, r, col)
  {
    seq(|cells| / cols, r requires 0 <= r < |cells| / cols => CellAt(cells, cols, r, col))
  }

  /** The type of the first non-null value; nvarchar when there is none. */
  function FirstNullType(column: seq<FastParameter>): (t: TypedNull)
    ensures t != U8
  {
    if column == [] then String
    else if column[0].Null? then FirstNullType(column[1..])
    else NullTypeOf(column[0]).value
  }

  function FixedCell(cells: seq<FastParameter>, cols: nat, i: nat): FastParameter
    requires cols > 0 && i < |cells|
  {
    if i / cols < |cells| / cols && cells[i] == UNTYPED_NULL
    then Null(FirstNullType(Column(cells, cols, i % cols)))
    else cells[i]
  }

  /** The buffer after repair. */
  function Fixed(cells: seq<FastParameter>, cols: nat): (r: seq<FastParameter>)
    requires cols > 0
    ensures |r| == |cells|
  {
    seq(|cells|, i requires 0 <= i < |cells| => FixedCell(cells, cols, i))
  }

  // ----- the in-place algorithm -----

  /** `find_map` over one column, then `unwrap_or(TypedNull::String)`. */
  method InferNullType(data: array<FastParameter>, cols: nat, col: nat) returns (t: TypedNull)
    requires col < cols
    ensures t == FirstNullType(Column(data[..], cols, col))
  {
    var rows := data.Length / cols;
    ghost var column := Column(data[..], cols, col);
    for row := 0 to rows
      invariant FirstNullType(column) == FirstNullType(column[row..])
    {
      CellBound(row, col, data.Length, cols);
      var p := data[row * cols + col];
      assert p == column[row];
      if !p.Null? {
        return NullTypeOf(p).value;
      }
      assert column[row..][1..] == column[row + 1..];
    }
    return String;
  }

  /** Cell `i` once every column before `col`, and `row` rows of `col` itself, have been patched. */
  ghost function PatchedCell(cells: seq<FastParameter>, cols: nat, col: nat, row: nat, i: nat): FastParameter
    requires cols > 0 && i < |cells|
  {
    if i % cols < col || (i % cols == col && i / cols < row) then FixedCell(cells, cols, i) else cells[i]
  }

  ghost predicate Patched(now: seq<FastParameter>, cells: seq<FastParameter>, cols: nat, col: nat, row: nat) {
    cols > 0 && |now| == |cells| && forall i :: 0 <= i < |cells| ==> now[i] == PatchedCell(cells, cols, col, row, i)
  }

  lemma PatchOne(now: seq<FastParameter>, next: seq<FastParameter>, cells: seq<FastParameter>, cols: nat, col: nat,
      row: nat)
    requires Patched(now, cells, cols, col, row) && col < cols && row < |cells| / cols
    requires row * cols + col < |now|
    requires next == now[row * cols + col := FixedCell(cells, cols, row * cols + col)]
    ensures Patched(next, cells, cols, col, row + 1)
  {
    IndexOf(row, col, cols);
    forall i | 0 <= i < |cells| ensures next[i] == PatchedCell(cells, cols, col, row + 1, i) {
      if i % cols == col && i / cols == row {
        assert i == i / cols * cols + i % cols;
      }
    }
  }

  lemma ColumnUntouched(now: seq<FastParameter>, cells: seq<FastParameter>, cols: nat, col: nat)
    requires col < cols && Patched(now, cells, cols, col, 0)
    ensures Column(now, cols, col) == Column(cells, cols, col)
  {
    forall r | 0 <= r < |cells| / cols ensures Column(now, cols, col)[r] == Column(cells, cols, col)[r] {
      IndexOf(r, col, cols);
    }
  }

  lemma ColumnDone(now: seq<FastParameter>, cells: seq<FastParameter>, cols: nat, col: nat)
    requires col < cols && Patched(now, cells, cols, col, |cells| / cols)
    ensures Patched(now, cells, cols, col + 1, 0)
  {
  }

  method FixBulkNullTypes(data: array<FastParameter>, cols: nat)
    modifies data
    ensures data[..] == if cols == 0 then old(data[..]) else Fixed(old(data[..]), cols)
  {
    if cols == 0 || data.Length == 0 {
      return;
    }
    var rows := data.Length / cols;
    ghost var cells := data[..];
    for col := 0 to cols
      invariant Patched(data[..], cells, cols, col, 0)
    {
      ColumnUntouched(data[..], cells, cols, col);
      var nullType := InferNullType(data, cols, col);
      for row := 0 to rows
        invariant Patched(data[..], cells, cols, col, row)
      {
        CellBound(row, col, data.Length, cols);
        IndexOf(row, col, cols);
        var idx := row * cols + col;
        ghost var now := data[..];
        assert data[..][idx] == cells[idx];
        if data[idx] == UNTYPED_NULL {
          data[idx] := Null(nullType);
        }
        assert data[..] == now[idx := FixedCell(cells, cols, idx)];
        PatchOne(now, data[..], cells, cols, col, row);
      }
      ColumnDone(data[..], cells, cols, col);
    }
    assert data[..] == Fixed(cells, cols);
  }

  // ----- what the repair means -----

  /** In a buffer of whole rows no untyped NULL is left, and nothing but untyped NULLs has changed. */
  lemma FixedLeavesNoUntypedNull(cells: seq<FastParameter>, cols: nat)
    requires cols > 0 && |cells| % cols == 0
    ensures UNTYPED_NULL !in Fixed(cells, cols)
    ensures forall i :: 0 <= i < |cells| && cells[i] != UNTYPED_NULL ==> Fixed(cells, cols)[i] == cells[i]
    ensures forall i :: 0 <= i < |cells| && cells[i] == UNTYPED_NULL ==>
      Fixed(cells, cols)[i] == Null(FirstNullType(Column(cells, cols, i % cols)))
  {
    var rows := |cells| / cols;
    assert |cells| == rows * cols;
    forall i | 0 <= i < |cells| ensures i / cols < rows {
      RowBound(i, rows, cols);
    }
  }

  /** The column's inferred type is the type of its first non-null cell. */
  lemma {:induction false} FirstNullTypeIsFirst(column: seq<FastParameter>, r: nat)
    requires r < |column| && !column[r].Null? && forall k :: 0 <= k < r ==> column[k].Null?
    ensures NullTypeOf(column[r]) == Some(FirstNullType(column))
  {
    if r > 0 {
      assert column[1..][r - 1] == column[r];
      FirstNullTypeIsFirst(column[1..], r - 1);
    }
  }

  lemma {:induction false} FirstNullTypeOfNulls(column: seq<FastParameter>)
    requires forall k :: 0 <= k < |column| ==> column[k].Null?
    ensures FirstNullType(column) == String
  {
    if column != [] {
      FirstNullTypeOfNulls(column[1..]);
    }
  }

  /** The typed NULL of each kind of value, kind by kind. */
  predicate NullFor(value: FastParameter, typed: FastParameter) {
    && (value.StringParam? ==> typed == Null(String))
    && (value.I64Param? ==> typed == Null(I64))
    && (value.F64Param? ==> typed == Null(F64))
    && (value.BoolParam? ==> typed == Null(Bit))
    && (value.BytesParam? ==> typed == Null(Binary))
    && (value.DateParam? ==> typed == Null(Date))
    && (value.DateTimeParam? ==> typed == Null(DateTime))
  }

  /** An untyped NULL in a whole row becomes the NULL of the kind of the first value in its column. */
  lemma NullsFollowFirstValue(cells: seq<FastParameter>, cols: nat, col: nat, row: nat, first: nat)
    requires col < cols && row < |cells| / cols && first < |cells| / cols
    requires CellAt(cells, cols, row, col) == Null(U8) && !CellAt(cells, cols, first, col).Null?
    requires forall k :: 0 <= k < first ==> CellAt(cells, cols, k, col).Null?
    ensures NullFor(CellAt(cells, cols, first, col), CellAt(Fixed(cells, cols), cols, row, col))
  {
    FixedColumn(cells, cols, col);
    FirstNullTypeIsFirst(Column(cells, cols, col), first);
    assert Column(Fixed(cells, cols), cols, col)[row] == CellAt(Fixed(cells, cols), cols, row, col);
  }

  /** Cells after the last whole row are left alone. */
  lemma RaggedTailUntouched(cells: seq<FastParameter>, cols: nat, i: nat)
    requires cols > 0 && |cells| / cols * cols <= i < |cells|
    ensures Fixed(cells, cols)[i] == cells[i]
  {
    if i / cols < |cells| / cols {
      MulMonotone(i / cols + 1, |cells| / cols, cols);
      RowsFit(i, cols);
      assert false;
    }
  }

  /** Repairing twice is repairing once. */
  lemma FixedIdempotent(cells: seq<FastParameter>, cols: nat)
    requires cols > 0
    ensures Fixed(Fixed(cells, cols), cols) == Fixed(cells, cols)
  {
    var once := Fixed(cells, cols);
    forall i | 0 <= i < |cells| ensures FixedCell(once, cols, i) == once[i] {
      assert once[i] == FixedCell(cells, cols, i);
    }
  }

  // ----- repairing a slice of the rows against repairing the whole table -----

  lemma SliceLength(from: int, to: int, cols: int)
    ensures to * cols - from * cols == (to - from) * cols
  {
  }

  /** The cells of rows `from` (inclusive) to `to` (exclusive). */
  function RowSlice(cells: seq<FastParameter>, cols: nat, from: nat, to: nat): (s: seq<FastParameter>)
    requires cols > 0 && from <= to <= |cells| / cols
    ensures |s| == (to - from) * cols
    ensures forall i {:trigger s[i]} :: 0 <= i < |s| ==> from * cols + i < |cells| && s[i] == cells[from * cols + i]
  {
    RowsFit(|cells|, cols);
    MulMonotone(from, to, cols);
    MulMonotone(to, |cells| / cols, cols);
    SliceLength(from, to, cols);
    cells[from * cols..to * cols]
  }

  lemma SliceColumn(cells: seq<FastParameter>, cols: nat, from: nat, to: nat, col: nat)
    requires col < cols && from <= to <= |cells| / cols
    ensures Column(RowSlice(cells, cols, from, to), cols, col) == Column(cells, cols, col)[from..to]
  {
    var s := RowSlice(cells, cols, from, to);
    IndexOf(to - from, 0, cols);
    assert |s| / cols == to - from;
    var c, whole := Column(s, cols, col), Column(cells, cols, col);
    forall r | 0 <= r < to - from ensures c[r] == whole[from..to][r] {
      assert (from + r) * cols + col == from * cols + (r * cols + col);
      CellBound(r, col, |s|, cols);
    }
  }

  /**
   Repairing rows `from..to` on their own agrees with repairing the whole table in column `col`
   exactly when the slice needs no repair there or infers the same type as the whole column.
   */
  lemma SliceRepairAgrees(cells: seq<FastParameter>, cols: nat, from: nat, to: nat, col: nat)
    requires col < cols && from <= to <= |cells| / cols
    ensures var column := Column(cells, cols, col);
      Column(Fixed(RowSlice(cells, cols, from, to), cols), cols, col) == Column(Fixed(cells, cols), cols, col)[from..to]
      <==> (UNTYPED_NULL !in column[from..to] || FirstNullType(column[from..to]) == FirstNullType(column))
  {
    var s := RowSlice(cells, cols, from, to);
    var column := Column(cells, cols, col);
    SliceColumn(cells, cols, from, to, col);
    FixedColumn(s, cols, col);
    FixedColumn(cells, cols, col);
    RetypedSlice(column, from, to);
  }

  /** A column with its untyped NULLs given type `t`. */
  function Retyped(column: seq<FastParameter>, t: TypedNull): (r: seq<FastParameter>)
    ensures |r| == |column|
  {
    seq(|column|, k requires 0 <= k < |column| => if column[k] == UNTYPED_NULL then Null(t) else column[k])
  }

  lemma RetypedSlice(column: seq<FastParameter>, from: nat, to: nat)
    requires from <= to <= |column|
    ensures var t, u := FirstNullType(column[from..to]), FirstNullType(column);
      Retyped(column[from..to], t) == Retyped(column, u)[from..to] <==> (UNTYPED_NULL !in column[from..to] || t == u)
  {
    var slice, t, u := column[from..to], FirstNullType(column[from..to]), FirstNullType(column);
    RetypedOfSlice(column, from, to, u);
    RetypedDiffers(slice, t, u);
  }

  lemma RetypedOfSlice(column: seq<FastParameter>, from: nat, to: nat, u: TypedNull)
    requires from <= to <= |column|
    ensures Retyped(column, u)[from..to] == Retyped(column[from..to], u)
  {
    var a, b := Retyped(column, u)[from..to], Retyped(column[from..to], u);
    forall r | 0 <= r < to - from ensures a[r] == b[r] {
      assert a[r] == Retyped(column, u)[from + r];
      assert column[from..to][r] == column[from + r];
    }
  }

  lemma RetypedDiffers(column: seq<FastParameter>, t: TypedNull, u: TypedNull)
    ensures Retyped(column, t) == Retyped(column, u) <==> (UNTYPED_NULL !in column || t == u)
  {
    if UNTYPED_NULL in column {
      var r :| 0 <= r < |column| && column[r] == UNTYPED_NULL;
      assert Retyped(column, t)[r] == Null(t) && Retyped(column, u)[r] == Null(u);
    }
  }

  lemma FixedColumn(cells: seq<FastParameter>, cols: nat, col: nat)
    requires col < cols
    ensures Column(Fixed(cells, cols), cols, col)
      == Retyped(Column(cells, cols, col), FirstNullType(Column(cells, cols, col)))
  {
    var column := Column(cells, cols, col);
    forall r | 0 <= r < |column|
      ensures Column(Fixed(cells, cols), cols, col)[r] == Retyped(column, FirstNullType(column))[r]
    {
      IndexOf(r, col, cols);
    }
  }

  /** Every value in the column calls for null type `t`. */
  predicate AllOfType(column: seq<FastParameter>, t: TypedNull) {
    forall r :: 0 <= r < |column| ==> column[r].Null? || NullTypeOf(column[r]) == Some(t)
  }

  predicate HasValue(column: seq<FastParameter>) {
    exists r :: 0 <= r < |column| && !column[r].Null?
  }

  lemma {:induction false} TypedColumn(column: seq<FastParameter>, t: TypedNull)
    requires AllOfType(column, t) && HasValue(column)
    ensures FirstNullType(column) == t
  {
    if column[0].Null? {
      var r :| 0 <= r < |column| && !column[r].Null?;
      assert column[1..][r - 1] == column[r];
      TypedColumn(column[1..], t);
    }
  }

  /** A column of one type with a value in the slice is repaired there as in the whole table. */
  lemma HomogeneousSliceAgrees(cells: seq<FastParameter>, cols: nat, from: nat, to: nat, col: nat, t: TypedNull)
    requires col < cols && from <= to <= |cells| / cols
    requires AllOfType(Column(cells, cols, col), t) && HasValue(Column(cells, cols, col)[from..to])
    ensures Column(Fixed(RowSlice(cells, cols, from, to), cols), cols, col)
      == Column(Fixed(cells, cols), cols, col)[from..to]
  {
    var column := Column(cells, cols, col);
    var r :| 0 <= r < to - from && !column[from..to][r].Null?;
    assert column[from + r] == column[from..to][r];
    TypedColumn(column[from..to], t);
    TypedColumn(column, t);
    SliceRepairAgrees(cells, cols, from, to, col);
  }
}
