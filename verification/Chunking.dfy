/**
 The synchronous half of `bulk_insert` (src/batch.rs): Python rows are converted, cut
 into chunks under a parameter budget, and each chunk's NULLs are repaired.
 */
module Chunking {
  import opened Common
  import opened Values
  import opened NullTypes
  import opened InsertText

  type Row = seq<FastParameter>

  /** Every row has `cols` cells. */
  predicate Wide(rows: seq<Row>, cols: nat) {
    forall r :: 0 <= r < |rows| ==> |rows[r]| == cols
  }

  predicate AllWide(groups: seq<seq<Row>>, cols: nat) {
    forall i :: 0 <= i < |groups| ==> Wide(groups[i], cols)
  }

  const PARAMETER_BUDGET: nat := 2000

  /** One element of the Python list of rows: a list of values, or something else. */
  datatype PyRow<V> = ListRow(cells: seq<V>) | NotAList

  datatype InputError<E> = NoColumns | RowNotAList | RowLength | Unconvertible(error: E)

  function RowsPerBatch(cols: nat): (n: nat)
    requires cols > 0
    ensures n >= 1
  {
    if PARAMETER_BUDGET / cols < 1 then 1 else PARAMETER_BUDGET / cols
  }

  // ----- conversion: what the rows are -----

  function ConvertCells<V, E>(cells: seq<V>, conv: V -> Result<FastParameter, E>): (r: Result<Row, InputError<E>>)
    ensures r.Ok? ==> |r.value| == |cells|
  {
    if cells == [] then Ok([]) else
      match conv(cells[0])
      case Err(e) => Err(Unconvertible(e))
      case Ok(p) => Prepend([p], ConvertCells(cells[1..], conv))
  }

  function ConvertRow<V, E>(row: PyRow<V>, cols: nat, conv: V -> Result<FastParameter, E>)
    : (r: Result<Row, InputError<E>>)
    ensures r.Ok? ==> |r.value| == cols
  {
    match row
    case NotAList => Err(RowNotAList)
    case ListRow(cells) => if |cells| != cols then Err(RowLength) else ConvertCells(cells, conv)
  }

  /** The converted table, or the first error met going row by row and cell by cell. */
  function ConvertRows<V, E>(rows: seq<PyRow<V>>, cols: nat, conv: V -> Result<FastParameter, E>)
    : (r: Result<seq<Row>, InputError<E>>)
    ensures r.Ok? ==> |r.value| == |rows| && Wide(r.value, cols)
  {
    if rows == [] then Ok([]) else
      match ConvertRow(rows[0], cols, conv)
      case Err(e) => Err(e)
      case Ok(row) => Prepend([row], ConvertRows(rows[1..], cols, conv))
  }

  function Prepend<T, E>(front: seq<T>, r: Result<seq<T>, E>): (p: Result<seq<T>, E>)
    ensures p.Ok? ==> r.Ok? && |p.value| == |front| + |r.value|
  {
    match r
    case Err(e) => Err(e)
    case Ok(back) => Ok(front + back)
  }

  lemma PrependTwice<T, E>(a: seq<T>, b: seq<T>, r: Result<seq<T>, E>)
    ensures Prepend(a, Prepend(b, r)) == Prepend(a + b, r)
  {
    if r.Ok? {
      Assoc(a, b, r.value);
    }
  }

  lemma PrependNothing<T, E>(a: seq<T>, r: Result<seq<T>, E>)
    ensures Prepend([], r) == r
    ensures Prepend<T, E>(a, Ok([])) == Ok(a)
  {
    if r.Ok? {
      assert [] + r.value == r.value;
    }
    assert a + [] == a;
  }

  // ----- what conversion means for the Python rows -----

  predicate AllConvert<V, E>(cells: seq<V>, conv: V -> Result<FastParameter, E>) {
    forall c :: 0 <= c < |cells| ==> conv(cells[c]).Ok?
  }

  /** A list of `cols` convertible values. */
  predicate GoodRow<V, E>(row: PyRow<V>, cols: nat, conv: V -> Result<FastParameter, E>) {
    row.ListRow? && |row.cells| == cols && AllConvert(row.cells, conv)
  }

  predicate GoodRows<V, E>(rows: seq<PyRow<V>>, cols: nat, conv: V -> Result<FastParameter, E>) {
    forall r :: 0 <= r < |rows| ==> GoodRow(rows[r], cols, conv)
  }

  /** `cells` are the conversions of `values`, one by one. */
  ghost predicate CellsMatch<V, E>(values: seq<V>, cells: Row, conv: V -> Result<FastParameter, E>) {
    |cells| == |values| && forall c :: 0 <= c < |values| ==> conv(values[c]) == Ok(cells[c])
  }

  ghost predicate RowsMatch<V, E>(dataRows: seq<PyRow<V>>, rows: seq<Row>, conv: V -> Result<FastParameter, E>) {
    && |rows| == |dataRows|
    && forall r :: 0 <= r < |dataRows| ==> dataRows[r].ListRow? && CellsMatch(dataRows[r].cells, rows[r], conv)
  }

  /** The error of the first value that does not convert. */
  ghost predicate FirstCellError<V, E>(values: seq<V>, conv: V -> Result<FastParameter, E>, e: InputError<E>) {
    exists c :: 0 <= c < |values| && AllConvert(values[..c], conv)
      && conv(values[c]).Err? && e == Unconvertible(conv(values[c]).error)
  }

  /** What is wrong with this row: not a list, the wrong length, or its first value that does not convert. */
  ghost predicate RowError<V, E>(row: PyRow<V>, cols: nat, conv: V -> Result<FastParameter, E>, e: InputError<E>) {
    match row
    case NotAList => e == RowNotAList
    case ListRow(cells) => if |cells| != cols then e == RowLength else FirstCellError(cells, conv, e)
  }

  ghost predicate FirstRowError<V, E>(rows: seq<PyRow<V>>, cols: nat, conv: V -> Result<FastParameter, E>,
      e: InputError<E>)
  {
    exists r :: 0 <= r < |rows| && GoodRows(rows[..r], cols, conv) && RowError(rows[r], cols, conv, e)
  }

  lemma {:induction false} ConvertCellsMeaning<V, E>(cells: seq<V>, conv: V -> Result<FastParameter, E>)
    ensures var r := ConvertCells(cells, conv);
      && (r.Ok? <==> AllConvert(cells, conv))
      && (r.Ok? ==> CellsMatch(cells, r.value, conv))
      && (r.Err? ==> FirstCellError(cells, conv, r.error))
  {
    if cells != [] {
      if conv(cells[0]).Err? {
        assert AllConvert(cells[..0], conv);
      } else {
        var rest := ConvertCells(cells[1..], conv);
        ConvertCellsMeaning(cells[1..], conv);
        Uncons(cells);
        if rest.Err? {
          var c :| 0 <= c < |cells[1..]| && AllConvert(cells[1..][..c], conv)
            && conv(cells[1..][c]).Err? && rest.error == Unconvertible(conv(cells[1..][c]).error);
          assert cells[..c + 1] == [cells[0]] + cells[1..][..c];
          assert AllConvert(cells[..c + 1], conv);
        }
      }
    }
  }

  lemma ConvertRowMeaning<V, E>(row: PyRow<V>, cols: nat, conv: V -> Result<FastParameter, E>)
    ensures var r := ConvertRow(row, cols, conv);
      && (r.Ok? <==> GoodRow(row, cols, conv))
      && (r.Ok? ==> CellsMatch(row.cells, r.value, conv))
      && (r.Err? ==> RowError(row, cols, conv, r.error))
  {
    if row.ListRow? {
      ConvertCellsMeaning(row.cells, conv);
    }
  }

  /**
   The rows are accepted exactly when each is a list of `cols` convertible values, and then cell by cell converted;
   otherwise the error is that of the first row that is not.
   */
  lemma {:induction false} ConvertRowsMeaning<V, E>(rows: seq<PyRow<V>>, cols: nat, conv: V -> Result<FastParameter, E>)
    ensures var r := ConvertRows(rows, cols, conv);
      && (r.Ok? <==> GoodRows(rows, cols, conv))
      && (r.Ok? ==> RowsMatch(rows, r.value, conv))
      && (r.Err? ==> FirstRowError(rows, cols, conv, r.error))
  {
    if rows != [] {
      ConvertRowMeaning(rows[0], cols, conv);
      if ConvertRow(rows[0], cols, conv).Err? {
        assert GoodRows(rows[..0], cols, conv);
      } else {
        var rest := ConvertRows(rows[1..], cols, conv);
        ConvertRowsMeaning(rows[1..], cols, conv);
        Uncons(rows);
        if rest.Err? {
          var k :| 0 <= k < |rows[1..]| && GoodRows(rows[1..][..k], cols, conv)
            && RowError(rows[1..][k], cols, conv, rest.error);
          assert rows[..k + 1] == [rows[0]] + rows[1..][..k];
          assert GoodRows(rows[..k + 1], cols, conv);
        }
      }
    }
  }

  // ----- chunking: how the rows are grouped -----

  function Groups(rows: seq<Row>, size: nat): (g: seq<seq<Row>>)
    requires size > 0
    ensures rows != [] ==> g != []
  {
    if rows == [] then []
    else if |rows| <= size then [rows]
    else [rows[..size]] + Groups(rows[size..], size)
  }

  function ChunkOf(group: seq<Row>, cols: nat): seq<FastParameter>
    requires cols > 0
  {
    Fixed(Concat(group), cols)
  }

  function ChunksOf(groups: seq<seq<Row>>, cols: nat): (c: seq<seq<FastParameter>>)
    requires cols > 0
    ensures |c| == |groups|
  {
    seq(|groups|, i requires 0 <= i < |groups| => ChunkOf(groups[i], cols))
  }

  function Chunks(rows: seq<Row>, cols: nat): seq<seq<FastParameter>>
    requires cols > 0
  {
    ChunksOf(Groups(rows, RowsPerBatch(cols)), cols)
  }

  /** Every group is full except possibly the last, which is not empty. */
  predicate FullButLast(groups: seq<seq<Row>>, size: nat) {
    forall i :: 0 <= i < |groups| ==>
      1 <= |groups[i]| <= size && (i < |groups| - 1 ==> |groups[i]| == size)
  }

  lemma {:induction false} GroupsCover(rows: seq<Row>, size: nat)
    requires size > 0
    ensures Concat(Groups(rows, size)) == rows
    ensures FullButLast(Groups(rows, size), size)
  {
    if |rows| > size {
      GroupsCover(rows[size..], size);
      assert rows == rows[..size] + rows[size..];
    } else if rows != [] {
      assert Concat([rows]) == rows + Concat([]) == rows;
    }
  }

  lemma {:induction false} GroupCount(rows: seq<Row>, size: nat)
    requires size > 0
    ensures |Groups(rows, size)| == (|rows| + size - 1) / size
  {
    if |rows| > size {
      GroupCount(rows[size..], size);
      DivideStep(|rows| - 1, size);
    } else if rows != [] {
      DivideExact(1, |rows| - 1, size);
    } else {
      DivideExact(0, size - 1, size);
    }
  }

  lemma DivideExact(q: nat, r: nat, d: nat)
    requires r < d
    ensures (q * d + r) / d == q
  {
    IndexOf(q, r, d);
  }

  lemma DivideStep(n: nat, d: nat)
    requires d > 0
    ensures (n + d) / d == n / d + 1
  {
    assert n + d == (n / d + 1) * d + n % d;
    DivideExact(n / d + 1, n % d, d);
  }

  lemma SplitPrefix<T>(s: seq<T>, k: nat, n: nat)
    requires k <= n <= |s|
    ensures s[..n] == s[..k] + s[k..][..n - k]
  {
  }

  /** The first `k` groups are the first `k * size` rows. */
  lemma {:induction false} GroupsPrefix(rows: seq<Row>, size: nat, k: nat)
    requires size > 0 && k <= |Groups(rows, size)|
    ensures var n := if k * size <= |rows| then k * size else |rows|;
      Concat(Groups(rows, size)[..k]) == rows[..n]
  {
    var g := Groups(rows, size);
    if k > 0 {
      if |rows| > size {
        GroupsPrefix(rows[size..], size, k - 1);
        Cut([rows[..size]], Groups(rows[size..], size));
        SplitPrefix(g, 1, k);
        ConcatAppend(g[..1], g[1..][..k - 1]);
        ConcatPush([], rows[..size]);
        assert k * size == (k - 1) * size + size;
        SplitPrefix(rows, size, if k * size <= |rows| then k * size else |rows|);
      } else {
        MulMonotone(1, k, size);
        Single(g[..k]);
        Whole(rows);
        ConcatPush([], rows);
      }
    }
  }

  /** Appending rows to full groups: the form the chunking loop builds them in. */
  lemma {:induction false} GroupsOfFull(full: seq<seq<Row>>, last: seq<Row>, size: nat)
    requires size > 0 && |last| <= size && forall i :: 0 <= i < |full| ==> |full[i]| == size
    ensures Groups(Concat(full) + last, size) == full + (if last == [] then [] else [last])
  {
    var rows := Concat(full) + last;
    if full != [] {
      var rest := Concat(full[1..]) + last;
      Assoc(full[0], Concat(full[1..]), last);
      assert rows == full[0] + rest && rows[..size] == full[0] && rows[size..] == rest;
      GroupsOfFull(full[1..], last, size);
      assert |full| > 1 ==> |Concat(full[1..])| >= |full[1..][0]| == size;
      assert full == [full[0]] + full[1..];
    } else {
      assert rows == last;
    }
  }

  // ----- the preparing loop -----

  /** `fix_bulk_null_types(&mut chunk, col_count)` on an owned buffer. */
  method FixChunk(chunk: seq<FastParameter>, cols: nat) returns (fixed: seq<FastParameter>)
    requires cols > 0
    ensures fixed == Fixed(chunk, cols)
  {
    var buffer := new FastParameter[|chunk|](i requires 0 <= i < |chunk| => chunk[i]);
    assert buffer[..] == chunk;
    FixBulkNullTypes(buffer, cols);
    return buffer[..];
  }

  /** Converts the cells of one row and appends them to the chunk being filled. */
  method PushCells<V, E>(chunk: seq<FastParameter>, cells: seq<V>, conv: V -> Result<FastParameter, E>)
    returns (r: Result<seq<FastParameter>, InputError<E>>)
    ensures r == Prepend(chunk, ConvertCells(cells, conv))
  {
    var current := chunk;
    for i := 0 to |cells|
      invariant Prepend(chunk, ConvertCells(cells, conv)) == Prepend(current, ConvertCells(cells[i..], conv))
    {
      assert cells[i..][1..] == cells[i + 1..];
      match conv(cells[i]) {
        case Err(e) => return Err(Unconvertible(e));
        case Ok(p) =>
          PrependTwice(current, [p], ConvertCells(cells[i + 1..], conv));
          current := current + [p];
      }
    }
    assert current + [] == current;
    return Ok(current);
  }

  /** Checks one row and appends its converted cells to the chunk being filled. */
  method PushPyRow<V, E>(chunk: seq<FastParameter>, row: PyRow<V>, cols: nat, conv: V -> Result<FastParameter, E>)
    returns (r: Result<seq<FastParameter>, InputError<E>>)
    ensures r == Prepend(chunk, ConvertRow(row, cols, conv))
  {
    if row.NotAList? {
      return Err(RowNotAList);
    }
    if |row.cells| != cols {
      return Err(RowLength);
    }
    r := PushCells(chunk, row.cells, conv);
  }

  lemma {:induction false} ConcatLength(rows: seq<Row>, cols: nat)
    requires Wide(rows, cols)
    ensures |Concat(rows)| == |rows| * cols
  {
    if rows != [] {
      ConcatLength(rows[1..], cols);
      assert |rows| * cols == cols + (|rows| - 1) * cols;
    }
  }

  lemma PushRow(full: seq<seq<Row>>, current: seq<Row>, row: Row)
    ensures Concat(current + [row]) == Concat(current) + row
    ensures Concat(full) + (current + [row]) == Concat(full) + current + [row]
    ensures Concat(full + [current]) == Concat(full) + current
  {
    ConcatPush(current, row);
    ConcatPush(full, current);
  }

  /**
   The chunking loop at row `i`: `chunks` are the `full` groups done so far, `chunk` holds the
   `current` rows, and together with the rows still to come they are the whole table.
   */
  ghost predicate Filling<V, E>(dataRows: seq<PyRow<V>>, cols: nat, conv: V -> Result<FastParameter, E>, i: nat,
      full: seq<seq<Row>>, current: seq<Row>, chunks: seq<seq<FastParameter>>, chunk: seq<FastParameter>)
  {
    && cols > 0 && i <= |dataRows|
    && (forall j :: 0 <= j < |full| ==> |full[j]| == RowsPerBatch(cols))
    && |current| <= RowsPerBatch(cols)
    && (Wide(current, cols))
    && chunks == ChunksOf(full, cols) && chunk == Concat(current)
    && ConvertRows(dataRows, cols, conv) == Prepend(Concat(full) + current, ConvertRows(dataRows[i..], cols, conv))
  }

  lemma FillingStarts<V, E>(dataRows: seq<PyRow<V>>, cols: nat, conv: V -> Result<FastParameter, E>)
    requires cols > 0
    ensures Filling(dataRows, cols, conv, 0, [], [], [], [])
  {
    assert dataRows[0..] == dataRows;
    assert Concat<Row>([]) + [] == [];
    PrependNothing([], ConvertRows(dataRows, cols, conv));
  }

  lemma FillingPushes<V, E>(dataRows: seq<PyRow<V>>, cols: nat, conv: V -> Result<FastParameter, E>, i: nat,
      full: seq<seq<Row>>, current: seq<Row>, chunks: seq<seq<FastParameter>>, chunk: seq<FastParameter>)
    requires Filling(dataRows, cols, conv, i, full, current, chunks, chunk)
    requires i < |dataRows| && |current| < RowsPerBatch(cols) && ConvertRow(dataRows[i], cols, conv).Ok?
    ensures var row := ConvertRow(dataRows[i], cols, conv).value;
      Filling(dataRows, cols, conv, i + 1, full, current + [row], chunks, chunk + row)
  {
    var row := ConvertRow(dataRows[i], cols, conv).value;
    assert dataRows[i..][1..] == dataRows[i + 1..];
    PrependTwice(Concat(full) + current, [row], ConvertRows(dataRows[i + 1..], cols, conv));
    PushRow(full, current, row);
  }

  lemma FillingFlushes<V, E>(dataRows: seq<PyRow<V>>, cols: nat, conv: V -> Result<FastParameter, E>, i: nat,
      full: seq<seq<Row>>, current: seq<Row>, chunks: seq<seq<FastParameter>>, chunk: seq<FastParameter>)
    requires Filling(dataRows, cols, conv, i, full, current, chunks, chunk) && |current| == RowsPerBatch(cols)
    ensures Filling(dataRows, cols, conv, i, full + [current], [], chunks + [Fixed(chunk, cols)], [])
  {
    PushRow(full, current, []);
    assert Concat(full + [current]) + [] == Concat(full) + current;
    assert chunks + [Fixed(chunk, cols)] == ChunksOf(full + [current], cols);
  }

  lemma FillingStops<V, E>(dataRows: seq<PyRow<V>>, cols: nat, conv: V -> Result<FastParameter, E>, i: nat,
      full: seq<seq<Row>>, current: seq<Row>, chunks: seq<seq<FastParameter>>, chunk: seq<FastParameter>)
    requires Filling(dataRows, cols, conv, i, full, current, chunks, chunk)
    requires i < |dataRows| && ConvertRow(dataRows[i], cols, conv).Err?
    ensures ConvertRows(dataRows, cols, conv) == Err(ConvertRow(dataRows[i], cols, conv).error)
  {
  }

  lemma FillingEnds<V, E>(dataRows: seq<PyRow<V>>, cols: nat, conv: V -> Result<FastParameter, E>,
      full: seq<seq<Row>>, current: seq<Row>, chunks: seq<seq<FastParameter>>, chunk: seq<FastParameter>)
    requires Filling(dataRows, cols, conv, |dataRows|, full, current, chunks, chunk)
    ensures ConvertRows(dataRows, cols, conv).Ok?
    ensures Chunks(ConvertRows(dataRows, cols, conv).value, cols)
      == if chunk == [] then chunks else chunks + [Fixed(chunk, cols)]
  {
    PrependNothing(Concat(full) + current, ConvertRows(dataRows, cols, conv));
    GroupsOfFull(full, current, RowsPerBatch(cols));
    ConcatLength(current, cols);
    if current == [] {
      assert full + [] == full;
    } else {
      MulMonotone(1, |current|, cols);
      assert ChunksOf(full + [current], cols) == chunks + [Fixed(chunk, cols)];
    }
  }

  method PrepareChunks<V, E>(columns: seq<string>, dataRows: seq<PyRow<V>>, conv: V -> Result<FastParameter, E>)
    returns (r: Result<seq<seq<FastParameter>>, InputError<E>>)
    ensures columns == [] ==> r == Err(NoColumns)
    ensures columns != [] ==>
      r == match ConvertRows(dataRows, |columns|, conv)
           case Err(e) => Err(e)
           case Ok(rows) => Ok(Chunks(rows, |columns|))
  {
    if columns == [] {
      return Err(NoColumns);
    }
    var cols := |columns|;
    var rowsPerBatch := RowsPerBatch(cols);
    var capacity := rowsPerBatch * cols;
    var chunks: seq<seq<FastParameter>> := [];
    var currentChunk: seq<FastParameter> := [];
    ghost var full: seq<seq<Row>> := [];
    ghost var current: seq<Row> := [];
    FillingStarts(dataRows, cols, conv);
    for i := 0 to |dataRows|
      invariant Filling(dataRows, cols, conv, i, full, current, chunks, currentChunk) && |current| < rowsPerBatch
    {
      var pushed := PushPyRow(currentChunk, dataRows[i], cols, conv);
      if pushed.Err? {
        FillingStops(dataRows, cols, conv, i, full, current, chunks, currentChunk);
        return Err(pushed.error);
      }
      FillingPushes(dataRows, cols, conv, i, full, current, chunks, currentChunk);
      currentChunk := pushed.value;
      current := current + [ConvertRow(dataRows[i], cols, conv).value];
      ConcatLength(current, cols);
      FillsUp(|current|, rowsPerBatch, cols);
      if |currentChunk| >= capacity {
        FillingFlushes(dataRows, cols, conv, i + 1, full, current, chunks, currentChunk);
        var fixed := FixChunk(currentChunk, cols);
        chunks := chunks + [fixed];
        currentChunk := [];
        full, current := full + [current], [];
      }
    }
    FillingEnds(dataRows, cols, conv, full, current, chunks, currentChunk);
    if currentChunk != [] {
      var fixed := FixChunk(currentChunk, cols);
      chunks := chunks + [fixed];
    }
    return Ok(chunks);
  }

  lemma FillsUp(rows: nat, size: nat, cols: nat)
    requires cols > 0 && rows <= size
    ensures rows * cols >= size * cols <==> rows == size
  {
    if rows < size {
      IndexBound(rows, 0, size, cols);
    }
  }

  // ----- shape of the chunks -----

  /** As many whole rows as fit into 2000 parameters, and one row if not even that fits. */
  lemma BatchFillsBudget(cols: nat)
    requires cols > 0
    ensures cols <= 2000 ==> RowsPerBatch(cols) * cols <= 2000 < (RowsPerBatch(cols) + 1) * cols
    ensures cols > 2000 ==> RowsPerBatch(cols) == 1
  {
    RowsFit(2000, cols);
    if cols <= 2000 {
      if 2000 / cols < 1 {
        MulMonotone(2000 / cols + 1, 1, cols);
        assert false;
      }
    } else if 2000 / cols >= 1 {
      MulMonotone(1, 2000 / cols, cols);
      assert false;
    }
  }

  lemma FullChunkFits(cols: nat)
    requires 0 < cols <= PARAMETER_BUDGET
    ensures RowsPerBatch(cols) * cols <= PARAMETER_BUDGET
  {
    RowsFit(PARAMETER_BUDGET, cols);
    if PARAMETER_BUDGET / cols < 1 {
      MulMonotone(PARAMETER_BUDGET / cols + 1, 1, cols);
      assert false;
    }
  }

  lemma ChunkSize(group: seq<Row>, size: nat, cols: nat)
    requires cols > 0 && Wide(group, cols) && 1 <= |group| <= size
    ensures |ChunkOf(group, cols)| == |group| * cols
    ensures 0 < |group| * cols <= size * cols && (|group| * cols) % cols == 0
  {
    ConcatLength(group, cols);
    IndexOf(|group|, 0, cols);
    MulMonotone(1, |group|, cols);
    MulMonotone(|group|, size, cols);
  }

  /** Chunk sizes: whole rows, full except the last, as many as the rows need, and never over budget. */
  lemma ChunksShape(rows: seq<Row>, cols: nat)
    requires cols > 0 && Wide(rows, cols)
    ensures var chunks, size := Chunks(rows, cols), RowsPerBatch(cols);
      && |chunks| == (|rows| + size - 1) / size
      && (forall i :: 0 <= i < |chunks| ==> |chunks[i]| > 0 && |chunks[i]| % cols == 0)
      && (forall i :: 0 <= i < |chunks| - 1 ==> |chunks[i]| == size * cols)
      && (cols <= PARAMETER_BUDGET ==> forall i :: 0 <= i < |chunks| ==> |chunks[i]| <= PARAMETER_BUDGET)
  {
    var chunks, size := Chunks(rows, cols), RowsPerBatch(cols);
    var groups := Groups(rows, size);
    GroupsCover(rows, size);
    GroupCount(rows, size);
    if cols <= PARAMETER_BUDGET {
      FullChunkFits(cols);
    }
    forall i | 0 <= i < |chunks|
      ensures |chunks[i]| == |groups[i]| * cols && 0 < |chunks[i]| <= size * cols && |chunks[i]| % cols == 0
    {
      GroupRowsAreRows(rows, size, cols, i);
      ChunkSize(groups[i], size, cols);
    }
  }

  lemma {:induction false} GroupRowsAreRows(rows: seq<Row>, size: nat, cols: nat, i: nat)
    requires size > 0 && i < |Groups(rows, size)| && Wide(rows, cols)
    ensures Wide(Groups(rows, size)[i], cols)
  {
    if |rows| > size && i > 0 {
      GroupRowsAreRows(rows[size..], size, cols, i - 1);
    }
  }

  // ----- the rows a chunk stores -----

  /** Column `c` of a group of rows. */
  function GroupColumn(group: seq<Row>, cols: nat, c: nat): (column: seq<FastParameter>)
    requires c < cols && Wide(group, cols)
    ensures |column| == |group|
  {
    seq(|group|, r requires 0 <= r < |group| => group[r][c])
  }

  /** A group with each untyped NULL given the type of the first value in its column of the group. */
  function RetypedGroup(group: seq<Row>, cols: nat): (g: seq<Row>)
    requires Wide(group, cols)
    ensures |g| == |group| && Wide(g, cols)
  {
    seq(|group|, r requires 0 <= r < |group| => RetypedRow(group, cols, r))
  }

  function RetypedRow(group: seq<Row>, cols: nat, r: nat): (row: Row)
    requires r < |group| && Wide(group, cols)
    ensures |row| == cols
  {
    seq(cols, c requires 0 <= c < cols =>
      var column := GroupColumn(group, cols, c);
      Retyped(column, FirstNullType(column))[r])
  }

  lemma {:induction false} ConcatCell(rows: seq<Row>, cols: nat, r: nat, c: nat)
    requires r < |rows| && c < cols && Wide(rows, cols)
    ensures r * cols + c < |Concat(rows)| && Concat(rows)[r * cols + c] == rows[r][c]
  {
    ConcatLength(rows, cols);
    IndexBound(r, c, |rows|, cols);
    if r > 0 {
      ConcatCell(rows[1..], cols, r - 1, c);
      assert r * cols + c == cols + ((r - 1) * cols + c);
    }
  }

  /** Repairing the flat chunk and cutting it into rows is repairing the rows column by column. */
  lemma ChunkRows(group: seq<Row>, cols: nat)
    requires cols > 0 && Wide(group, cols)
    ensures RowsOf(ChunkOf(group, cols), cols) == RetypedGroup(group, cols)
  {
    var flat := Concat(group);
    ConcatLength(group, cols);
    IndexOf(|group|, 0, cols);
    forall r, c | 0 <= r < |group| && 0 <= c < cols
      ensures RowsOf(ChunkOf(group, cols), cols)[r][c] == RetypedRow(group, cols, r)[c]
    {
      FixedColumn(flat, cols, c);
      FlatColumn(group, cols, c);
      assert Column(Fixed(flat, cols), cols, c)[r] == CellAt(Fixed(flat, cols), cols, r, c);
    }
    forall r | 0 <= r < |group| ensures RowsOf(ChunkOf(group, cols), cols)[r] == RetypedGroup(group, cols)[r] {
    }
  }

  lemma FlatColumn(group: seq<Row>, cols: nat, c: nat)
    requires c < cols && Wide(group, cols)
    ensures Column(Concat(group), cols, c) == GroupColumn(group, cols, c)
  {
    ConcatLength(group, cols);
    IndexOf(|group|, 0, cols);
    forall r | 0 <= r < |group| ensures Column(Concat(group), cols, c)[r] == GroupColumn(group, cols, c)[r] {
      ConcatCell(group, cols, r, c);
    }
  }

  /** In the stored group an untyped NULL is the NULL of the kind of the group's first value in its column. */
  lemma StoredNullsFollowFirstValue(group: seq<Row>, cols: nat, c: nat, r: nat, first: nat)
    requires c < cols && Wide(group, cols) && r < |group| && first < |group|
    requires group[r][c] == Null(U8) && !group[first][c].Null?
    requires forall k :: 0 <= k < first ==> group[k][c].Null?
    ensures NullFor(group[first][c], RetypedGroup(group, cols)[r][c])
  {
    FirstNullTypeIsFirst(GroupColumn(group, cols, c), first);
  }

  /** Equal except that an untyped NULL may have been given a type. */
  predicate SameUpToNullType(a: FastParameter, b: FastParameter) {
    if a == UNTYPED_NULL then b.Null? && b.nullType != U8 else b == a
  }

  predicate SameRow(a: Row, b: Row) {
    |a| == |b| && forall c :: 0 <= c < |a| ==> SameUpToNullType(a[c], b[c])
  }

  predicate SameRows(a: seq<Row>, b: seq<Row>) {
    |a| == |b| && forall r :: 0 <= r < |a| ==> SameRow(a[r], b[r])
  }

  lemma RetypedGroupIsSame(group: seq<Row>, cols: nat)
    requires Wide(group, cols)
    ensures SameRows(group, RetypedGroup(group, cols))
  {
    forall r, c | 0 <= r < |group| && 0 <= c < cols
      ensures SameUpToNullType(group[r][c], RetypedGroup(group, cols)[r][c])
    {
      assert GroupColumn(group, cols, c)[r] == group[r][c];
    }
  }

  /** The rows stored by the first `k` chunks. */
  function StoredRows(groups: seq<seq<Row>>, cols: nat): seq<Row>
    requires AllWide(groups, cols)
  {
    if groups == [] then [] else RetypedGroup(groups[0], cols) + StoredRows(groups[1..], cols)
  }

  lemma {:induction false} StoredRowsAreSame(groups: seq<seq<Row>>, cols: nat)
    requires AllWide(groups, cols)
    ensures SameRows(Concat(groups), StoredRows(groups, cols))
  {
    if groups != [] {
      RetypedGroupIsSame(groups[0], cols);
      StoredRowsAreSame(groups[1..], cols);
    }
  }

  // ----- chunk by chunk against the whole table -----

  lemma ColumnAppend(a: seq<Row>, b: seq<Row>, cols: nat, c: nat)
    requires c < cols && Wide(a, cols) && Wide(b, cols)
    ensures GroupColumn(a + b, cols, c) == GroupColumn(a, cols, c) + GroupColumn(b, cols, c)
  {
  }

  lemma RetypedAppend(a: seq<FastParameter>, b: seq<FastParameter>, t: TypedNull)
    ensures Retyped(a + b, t) == Retyped(a, t) + Retyped(b, t)
  {
  }

  lemma RetypedGroupColumn(group: seq<Row>, cols: nat, c: nat)
    requires c < cols && Wide(group, cols)
    ensures var column := GroupColumn(group, cols, c);
      GroupColumn(RetypedGroup(group, cols), cols, c) == Retyped(column, FirstNullType(column))
  {
  }

  /** Repairing the group on its own gives column `c` what type `t` would. */
  predicate GroupAgrees(group: seq<Row>, cols: nat, c: nat, t: TypedNull)
    requires c < cols && Wide(group, cols)
  {
    UNTYPED_NULL !in GroupColumn(group, cols, c) || FirstNullType(GroupColumn(group, cols, c)) == t
  }

  predicate EachAgrees(groups: seq<seq<Row>>, cols: nat, c: nat, t: TypedNull)
    requires c < cols && AllWide(groups, cols)
  {
    forall i :: 0 <= i < |groups| ==> GroupAgrees(groups[i], cols, c, t)
  }

  lemma EachAgreesCons(groups: seq<seq<Row>>, cols: nat, c: nat, t: TypedNull)
    requires c < cols && AllWide(groups, cols) && groups != []
    ensures EachAgrees(groups, cols, c, t)
      <==> GroupAgrees(groups[0], cols, c, t) && EachAgrees(groups[1..], cols, c, t)
  {
    if EachAgrees(groups[1..], cols, c, t) && GroupAgrees(groups[0], cols, c, t) {
      forall i | 0 <= i < |groups| ensures GroupAgrees(groups[i], cols, c, t) {
        if i > 0 {
          assert groups[1..][i - 1] == groups[i];
        }
      }
    }
  }

  lemma JoinsAlike<T>(a: seq<T>, b: seq<T>, c: seq<T>, d: seq<T>)
    requires |a| == |c|
    ensures a + b == c + d <==> a == c && b == d
  {
    Cut(a, b);
    Cut(c, d);
  }

  /** Stored group by group, column `c` is what type `t` makes of it exactly when every group agrees on that. */
  lemma {:induction false} GroupsRepairAlike(groups: seq<seq<Row>>, cols: nat, c: nat, t: TypedNull)
    requires c < cols && AllWide(groups, cols)
    ensures Wide(Concat(groups), cols) && Wide(StoredRows(groups, cols), cols)
    ensures GroupColumn(StoredRows(groups, cols), cols, c) == Retyped(GroupColumn(Concat(groups), cols, c), t)
      <==> EachAgrees(groups, cols, c, t)
  {
    if groups != [] {
      var first, rest := groups[0], groups[1..];
      GroupsRepairAlike(rest, cols, c, t);
      var a, b := GroupColumn(first, cols, c), GroupColumn(Concat(rest), cols, c);
      RetypedGroupColumn(first, cols, c);
      ColumnAppend(first, Concat(rest), cols, c);
      ColumnAppend(RetypedGroup(first, cols), StoredRows(rest, cols), cols, c);
      RetypedAppend(a, b, t);
      var stored := GroupColumn(StoredRows(rest, cols), cols, c);
      JoinsAlike(Retyped(a, FirstNullType(a)), stored, Retyped(a, t), Retyped(b, t));
      RetypedDiffers(a, FirstNullType(a), t);
      EachAgreesCons(groups, cols, c, t);
    }
  }

  lemma GroupsAreWide(rows: seq<Row>, size: nat, cols: nat)
    requires size > 0 && Wide(rows, cols)
    ensures AllWide(Groups(rows, size), cols)
  {
    forall i | 0 <= i < |Groups(rows, size)| ensures Wide(Groups(rows, size)[i], cols) {
      GroupRowsAreRows(rows, size, cols, i);
    }
  }

  /**
   Chunk-by-chunk repair equals repair of the whole table in a column exactly when each chunk needs no repair
   there or infers the same type as the whole table.
   */
  lemma ChunkRepairAgrees(rows: seq<Row>, cols: nat, c: nat)
    requires c < cols && Wide(rows, cols)
    ensures var groups := Groups(rows, RowsPerBatch(cols));
      && AllWide(groups, cols) && Wide(StoredRows(groups, cols), cols)
      && (GroupColumn(StoredRows(groups, cols), cols, c) == GroupColumn(RetypedGroup(rows, cols), cols, c)
          <==> EachAgrees(groups, cols, c, FirstNullType(GroupColumn(rows, cols, c))))
  {
    var groups := Groups(rows, RowsPerBatch(cols));
    GroupsCover(rows, RowsPerBatch(cols));
    GroupsAreWide(rows, RowsPerBatch(cols), cols);
    GroupsRepairAlike(groups, cols, c, FirstNullType(GroupColumn(rows, cols, c)));
    RetypedGroupColumn(rows, cols, c);
  }

  lemma AllOfTypeAppend(a: seq<FastParameter>, b: seq<FastParameter>, t: TypedNull)
    requires AllOfType(a + b, t)
    ensures AllOfType(a, t) && AllOfType(b, t)
  {
    forall r | 0 <= r < |a| ensures a[r].Null? || NullTypeOf(a[r]) == Some(t) {
      assert a[r] == (a + b)[r];
    }
    forall r | 0 <= r < |b| ensures b[r].Null? || NullTypeOf(b[r]) == Some(t) {
      assert b[r] == (a + b)[|a| + r];
    }
  }

  lemma WideSuffix(a: seq<Row>, b: seq<Row>, cols: nat)
    requires Wide(a + b, cols)
    ensures Wide(b, cols)
  {
    forall r | 0 <= r < |b| ensures |b[r]| == cols {
      assert b[r] == (a + b)[|a| + r];
    }
  }

  lemma {:induction false} ColumnOfGroup(groups: seq<seq<Row>>, cols: nat, c: nat, i: nat, t: TypedNull)
    requires c < cols && i < |groups| && AllWide(groups, cols) && Wide(Concat(groups), cols)
    requires AllOfType(GroupColumn(Concat(groups), cols, c), t)
    ensures AllOfType(GroupColumn(groups[i], cols, c), t)
  {
    var first, rest := groups[0], Concat(groups[1..]);
    WideSuffix(first, rest, cols);
    ColumnAppend(first, rest, cols, c);
    AllOfTypeAppend(GroupColumn(first, cols, c), GroupColumn(rest, cols, c), t);
    if i > 0 {
      ColumnOfGroup(groups[1..], cols, c, i - 1, t);
    }
  }

  /** That is so in every column whose values are of one type, provided each chunk has a value there. */
  lemma ChunkRepairIsTableRepair(rows: seq<Row>, cols: nat, c: nat, t: TypedNull)
    requires c < cols && Wide(rows, cols) && AllOfType(GroupColumn(rows, cols, c), t)
    requires EachHasValue(Groups(rows, RowsPerBatch(cols)), cols, c)
    ensures var groups := Groups(rows, RowsPerBatch(cols));
      && AllWide(groups, cols) && Wide(StoredRows(groups, cols), cols)
      && GroupColumn(StoredRows(groups, cols), cols, c) == GroupColumn(RetypedGroup(rows, cols), cols, c)
  {
    var groups := Groups(rows, RowsPerBatch(cols));
    GroupsCover(rows, RowsPerBatch(cols));
    ChunkRepairAgrees(rows, cols, c);
    forall i | 0 <= i < |groups| ensures GroupAgrees(groups[i], cols, c, FirstNullType(GroupColumn(rows, cols, c))) {
      ColumnOfGroup(groups, cols, c, i, t);
      TypedColumn(GroupColumn(groups[i], cols, c), t);
      WholeHasValue(groups, cols, c);
      TypedColumn(GroupColumn(rows, cols, c), t);
    }
  }

  predicate EachHasValue(groups: seq<seq<Row>>, cols: nat, c: nat) {
    c < cols && forall i :: 0 <= i < |groups| ==> Wide(groups[i], cols) && HasValue(GroupColumn(groups[i], cols, c))
  }

  lemma WholeHasValue(groups: seq<seq<Row>>, cols: nat, c: nat)
    requires c < cols && groups != [] && Wide(groups[0], cols) && Wide(Concat(groups), cols)
    requires HasValue(GroupColumn(groups[0], cols, c))
    ensures HasValue(GroupColumn(Concat(groups), cols, c))
  {
    var r :| 0 <= r < |groups[0]| && !GroupColumn(groups[0], cols, c)[r].Null?;
    assert GroupColumn(Concat(groups), cols, c)[r] == GroupColumn(groups[0], cols, c)[r];
  }

  /** A chunk full of sevens, and one more row of untyped NULLs. */
  function SevensThenNulls(cols: nat): (rows: seq<Row>)
    requires cols > 0
    ensures |rows| == RowsPerBatch(cols) + 1 && Wide(rows, cols)
  {
    seq(RowsPerBatch(cols), _ => seq(cols, _ => I64Param(7))) + [seq(cols, _ => UNTYPED_NULL)]
  }

  /**
   Without a value in each chunk it can fail, for every number of columns: the NULLs alone in the second chunk are
   stored as nvarchar where the table's column is bigint.
   */
  lemma AllNullChunkDiffers(cols: nat, c: nat)
    requires c < cols
    ensures var rows := SevensThenNulls(cols);
      var groups := Groups(rows, RowsPerBatch(cols));
      && AllOfType(GroupColumn(rows, cols, c), I64)
      && AllWide(groups, cols) && Wide(StoredRows(groups, cols), cols)
      && GroupColumn(StoredRows(groups, cols), cols, c) != GroupColumn(RetypedGroup(rows, cols), cols, c)
  {
    var rows, size := SevensThenNulls(cols), RowsPerBatch(cols);
    var groups := Groups(rows, size);
    ChunkRepairAgrees(rows, cols, c);
    assert groups[1] == rows[size..];
    var column := GroupColumn(groups[1], cols, c);
    assert column[0] == UNTYPED_NULL;
    FirstNullTypeOfNulls(column);
    FirstNullTypeIsFirst(GroupColumn(rows, cols, c), 0);
    assert !GroupAgrees(groups[1], cols, c, I64);
  }
}
