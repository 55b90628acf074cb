/**
 `bulk_insert` (src/batch.rs), both halves: the chunks are prepared, then sent as
 INSERT statements one after another on a pooled connection outside any transaction.
 */
module BulkInsert {
  import opened Common
  import opened Values
  import opened Identifiers
  import opened NullTypes
  import opened InsertText
  import opened Chunking
  import opened Server
  import opened BatchExecution

  datatype BulkOutcome<E> =
    | Inserted(total: nat)
    | BadInput(error: InputError<E>)
    | BadIdentifier
    | PoolUnavailable
    | SqlFailed
    | CallAbandoned

  /** The statement and parameters sent for one chunk. */
  function InsertCommand(table: string, columns: seq<string>, chunk: seq<FastParameter>): Command
    requires columns != []
  {
    var numbers := AllNumbers(|chunk| / |columns|, |columns|);
    Command(InsertSql(QuoteName(table), Join(QuoteNames(columns), ", "), numbers), chunk)
  }

  function InsertCommands(table: string, columns: seq<string>, chunks: seq<seq<FastParameter>>): (c: seq<Command>)
    requires columns != []
    ensures |c| == |chunks|
  {
    seq(|chunks|, i requires 0 <= i < |chunks| => InsertCommand(table, columns, chunks[i]))
  }

  predicate HasNul(table: string, columns: seq<string>) {
    NUL in table || exists i :: 0 <= i < |columns| && NUL in columns[i]
  }

  function SendSpec<E>(w: World, table: string, columns: seq<string>, chunks: seq<seq<FastParameter>>,
      wires: nat -> Wire): (World, BulkOutcome<E>)
    requires columns != []
  {
    var (after, r) := RunFrom(w, InsertCommands(table, columns, chunks), wires, 0, []);
    (after, match r case Done(counts) => Inserted(Sum(counts)) case Error => SqlFailed case Abandoned => CallAbandoned)
  }

  function BulkSpec<V, E>(w: World, table: string, columns: seq<string>, dataRows: seq<PyRow<V>>,
      conv: V -> Result<FastParameter, E>, pool: Connecting, wires: nat -> Wire): (World, BulkOutcome<E>)
  {
    if columns == [] then (w, BadInput(NoColumns)) else
      match ConvertRows(dataRows, |columns|, conv)
      case Err(e) => (w, BadInput(e))
      case Ok(rows) =>
        if pool.ConnectFailed? then (w, PoolUnavailable)
        else if pool.ConnectCancelled? then (w, CallAbandoned)
        else if HasNul(table, columns) then (w, BadIdentifier)
        else SendSpec(w, table, columns, Chunks(rows, |columns|), wires)
  }

  /** The loop over the chunks: render, execute, add up. */
  method SendChunks<E>(conn: Client, table: string, columns: seq<string>, chunks: seq<seq<FastParameter>>,
      quotedTable: string, columnsSql: string, wires: nat -> Wire) returns (r: BulkOutcome<E>)
    requires columns != []
    requires quotedTable == QuoteName(table) && columnsSql == Join(QuoteNames(columns), ", ")
    modifies conn
    ensures (conn.world, r) == SendSpec(old(conn.world), table, columns, chunks, wires)
  {
    var totalAffected := 0;
    ghost var commands := InsertCommands(table, columns, chunks);
    ghost var counts: seq<nat> := [];
    for i := 0 to |chunks|
      invariant RunFrom(old(conn.world), commands, wires, 0, []) == RunFrom(conn.world, commands, wires, i, counts)
      invariant totalAffected == Sum(counts)
    {
      var rowCountInBatch := |chunks[i]| / |columns|;
      var sql := RenderInsert(quotedTable, columnsSql, rowCountInBatch, |columns|);
      var reply := conn.Send(Run(Command(sql, chunks[i])), wires(i));
      match reply {
        case Failed => return SqlFailed;
        case Dropped => return CallAbandoned;
        case Replied(rows) =>
          SumAppend(counts, [Sum(rows)]);
          totalAffected := totalAffected + Sum(rows);
          counts := counts + [Sum(rows)];
      }
    }
    return Inserted(totalAffected);
  }

  method BulkInsert<V, E>(conn: Client, table: string, columns: seq<string>, dataRows: seq<PyRow<V>>,
      conv: V -> Result<FastParameter, E>, pool: Connecting, wires: nat -> Wire) returns (r: BulkOutcome<E>)
    modifies conn
    ensures (conn.world, r) == BulkSpec(old(conn.world), table, columns, dataRows, conv, pool, wires)
  {
    var prepared := PrepareChunks(columns, dataRows, conv);
    if prepared.Err? {
      return BadInput(prepared.error);
    }
    if pool.ConnectFailed? {
      return PoolUnavailable;
    }
    if pool.ConnectCancelled? {
      return CallAbandoned;
    }
    var quotedTable := QuoteIdentifier(table);
    if quotedTable.Err? {
      return BadIdentifier;
    }
    var columnsSql := QuoteColumns(columns);
    if columnsSql.Err? {
      return BadIdentifier;
    }
    r := SendChunks(conn, table, columns, prepared.value, quotedTable.value, columnsSql.value, wires);
  }

  // ----- what a call leaves in the database -----

  /** What a log entry stored; None if the server would not accept its text. */
  function StoredByEntry(e: Entry): Option<Stored> {
    StoredBy(e.command.sql, e.command.params)
  }

  /** All rows the entries stored, in order. */
  function RowsInLog(log: seq<Entry>): seq<Row> {
    if log == [] then [] else
      (match StoredByEntry(log[0]) case None => [] case Some(s) => s.rows) + RowsInLog(log[1..])
  }

  /** Every entry is an accepted insert into this table with these columns. */
  predicate AllInto(log: seq<Entry>, table: string, columns: seq<string>) {
    forall i :: 0 <= i < |log| ==>
      StoredByEntry(log[i]).Some?
      && StoredByEntry(log[i]).value.table == SplitDots(table)
      && StoredByEntry(log[i]).value.columns == SplitAll(columns)
  }

  /** Entries that carry the commands of the groups store exactly those groups, each repaired on its own. */
  lemma {:induction false} LogStoresGroups(log: seq<Entry>, groups: seq<seq<Row>>, table: string, columns: seq<string>)
    requires columns != [] && |log| == |groups|
    requires forall i :: 0 <= i < |groups| ==> groups[i] != [] && Wide(groups[i], |columns|)
    requires forall i :: 0 <= i < |log| ==>
      log[i].command == InsertCommand(table, columns, ChunkOf(groups[i], |columns|))
    ensures AllInto(log, table, columns) && RowsInLog(log) == StoredRows(groups, |columns|)
  {
    if log != [] {
      LogStoresGroups(log[1..], groups[1..], table, columns);
      EntryStoresGroup(log[0], groups[0], table, columns);
      Uncons(log);
      AllIntoCons(log[0], log[1..], table, columns);
    }
  }

  lemma AllIntoCons(e: Entry, log: seq<Entry>, table: string, columns: seq<string>)
    requires AllInto([e], table, columns) && AllInto(log, table, columns)
    ensures AllInto([e] + log, table, columns)
  {
  }

  lemma EntryStoresGroup(e: Entry, group: seq<Row>, table: string, columns: seq<string>)
    requires columns != [] && group != [] && Wide(group, |columns|)
    requires e.command == InsertCommand(table, columns, ChunkOf(group, |columns|))
    ensures StoredByEntry(e) == Some(Stored(SplitDots(table), SplitAll(columns), RetypedGroup(group, |columns|)))
  {
    ConcatLength(group, |columns|);
    IndexOf(|group|, 0, |columns|);
    ChunkRows(group, |columns|);
    RenderedInsertStoresChunk(table, columns, ChunkOf(group, |columns|));
  }

  /** How many rows the first `k` chunks hold. */
  function RowsBefore(rows: nat, cols: nat, k: nat): nat
    requires cols > 0
  {
    if k * RowsPerBatch(cols) <= rows then k * RowsPerBatch(cols) else rows
  }

  /** The entries a call adds to the log. */
  function Added(table: string, columns: seq<string>, rows: seq<Row>, wires: nat -> Wire): seq<Entry>
    requires columns != []
  {
    var commands := InsertCommands(table, columns, Chunks(rows, |columns|));
    var k := AnsweredFrom(wires, 0, |commands|);
    Entries(commands, wires, k) + LastEffect(commands, wires, k)
  }

  lemma AddedCommands(table: string, columns: seq<string>, rows: seq<Row>, wires: nat -> Wire)
    requires columns != []
    ensures var groups, log := Groups(rows, RowsPerBatch(|columns|)), Added(table, columns, rows, wires);
      |log| <= |groups|
      && forall i :: 0 <= i < |log| ==> log[i].command == InsertCommand(table, columns, ChunkOf(groups[i], |columns|))
  {
    var commands := InsertCommands(table, columns, Chunks(rows, |columns|));
    var log := Added(table, columns, rows, wires);
    assert forall i :: 0 <= i < |log| ==> log[i].command == commands[i];
  }

  lemma AddedCount(table: string, columns: seq<string>, rows: seq<Row>, wires: nat -> Wire)
    requires columns != []
    ensures var n := |Chunks(rows, |columns|)|;
      var k := AnsweredFrom(wires, 0, n);
      |Added(table, columns, rows, wires)|
      == k + (if k < n && (wires(k).Broken? || wires(k).Cancelled?) && wires(k).applied then 1 else 0)
  {
  }

  /** The groups of rows that the first `k` chunks hold. */
  function FirstGroups(rows: seq<Row>, cols: nat, k: nat): (g: seq<seq<Row>>)
    requires cols > 0 && k <= |Groups(rows, RowsPerBatch(cols))| && Wide(rows, cols)
    ensures AllWide(g, cols)
  {
    GroupsAreWide(rows, RowsPerBatch(cols), cols);
    Groups(rows, RowsPerBatch(cols))[..k]
  }

  /** The added entries store, in order, the rows of exactly as many chunks as there are entries. */
  lemma AddedStoresPrefix(table: string, columns: seq<string>, rows: seq<Row>, wires: nat -> Wire)
    requires columns != [] && Wide(rows, |columns|)
    ensures var log := Added(table, columns, rows, wires);
      && AllInto(log, table, columns)
      && |log| <= |Groups(rows, RowsPerBatch(|columns|))|
      && RowsInLog(log) == StoredRows(FirstGroups(rows, |columns|, |log|), |columns|)
      && SameRows(rows[..RowsBefore(|rows|, |columns|, |log|)], RowsInLog(log))
  {
    var cols, size := |columns|, RowsPerBatch(|columns|);
    var groups, log := Groups(rows, size), Added(table, columns, rows, wires);
    AddedCommands(table, columns, rows, wires);
    GroupsCover(rows, size);
    var first := FirstGroups(rows, cols, |log|);
    LogStoresGroups(log, first, table, columns);
    StoredRowsAreSame(first, cols);
    GroupsPrefix(rows, size, |log|);
  }

  /**
   A call that does not get as far as sending leaves the database alone: without columns, with a row that is not a
   list of that many convertible values (the first such row is reported), or with a NUL in an identifier.
   */
  lemma RejectedCallStoresNothing<V, E>(w: World, table: string, columns: seq<string>, dataRows: seq<PyRow<V>>,
      conv: V -> Result<FastParameter, E>, pool: Connecting, wires: nat -> Wire)
    ensures var (after, r) := BulkSpec(w, table, columns, dataRows, conv, pool, wires);
      var good := columns != [] && GoodRows(dataRows, |columns|, conv);
      && (r.BadInput? <==> !good)
      && (columns == [] ==> r == BadInput(NoColumns))
      && (columns != [] && r.BadInput? ==> FirstRowError(dataRows, |columns|, conv, r.error))
      && (r.PoolUnavailable? <==> good && pool.ConnectFailed?)
      && (good && pool.ConnectCancelled? ==> r.CallAbandoned?)
      && (r.BadIdentifier? <==> good && pool.Connected? && HasNul(table, columns))
      && (good && pool.Connected? && NUL in table ==> r.BadIdentifier?)
      && (forall i :: 0 <= i < |columns| && good && pool.Connected? && NUL in columns[i] ==> r.BadIdentifier?)
      && (!good || !pool.Connected? || HasNul(table, columns) ==> after == w)
  {
    if columns != [] {
      ConvertRowsMeaning(dataRows, |columns|, conv);
    }
  }

  /** Sending adds exactly those entries, and succeeds when every chunk is answered. */
  lemma SendEffect<E>(w: World, table: string, columns: seq<string>, rows: seq<Row>, wires: nat -> Wire)
    requires w.alive && w.depth == 0 && columns != []
    ensures var chunks := Chunks(rows, |columns|);
      var (after, r) := SendSpec<E>(w, table, columns, chunks, wires);
      && after.durable == w.durable + Added(table, columns, rows, wires)
      && (r.Inserted? <==> AnsweredFrom(wires, 0, |chunks|) == |chunks|)
      && (r.CallAbandoned? <==> StoppedByCancel(wires, 0, |chunks|))
      && (r.Inserted? || r.CallAbandoned? || r.SqlFailed?)
      && (r.Inserted? ==> r.total == Sum(Counts(wires, |chunks|)))
  {
    var commands := InsertCommands(table, columns, Chunks(rows, |columns|));
    RunFromResult(w, commands, wires, 0, []);
    RunFromAutocommits(w, commands, wires, 0, []);
    Whole(Entries(commands, wires, AnsweredFrom(wires, 0, |commands|)));
  }

  /** The stored rows are the Python rows: in order, each value converted, but for the type of an untyped NULL. */
  predicate StoresInput<V, E>(dataRows: seq<PyRow<V>>, conv: V -> Result<FastParameter, E>, stored: seq<Row>) {
    && |stored| == |dataRows|
    && forall r :: 0 <= r < |dataRows| ==> dataRows[r].ListRow? && StoresCells(dataRows[r].cells, conv, stored[r])
  }

  predicate StoresCells<V, E>(values: seq<V>, conv: V -> Result<FastParameter, E>, stored: Row) {
    && |stored| == |values|
    && forall c :: 0 <= c < |values| ==> conv(values[c]).Ok? && SameUpToNullType(conv(values[c]).value, stored[c])
  }

  lemma MatchedRowsAreStored<V, E>(dataRows: seq<PyRow<V>>, rows: seq<Row>, conv: V -> Result<FastParameter, E>,
      n: nat, stored: seq<Row>)
    requires RowsMatch(dataRows, rows, conv) && n <= |rows| && SameRows(rows[..n], stored)
    ensures StoresInput(dataRows[..n], conv, stored)
  {
    forall r | 0 <= r < n ensures dataRows[r].ListRow? && StoresCells(dataRows[r].cells, conv, stored[r]) {
      assert SameRow(rows[..n][r], stored[r]) && rows[..n][r] == rows[r];
      assert CellsMatch(dataRows[r].cells, rows[r], conv);
    }
  }

  /** What sending the chunks of a converted table leaves in the database. */
  lemma SendStoresPrefix<E>(w: World, table: string, columns: seq<string>, rows: seq<Row>, wires: nat -> Wire)
    requires w.alive && w.depth == 0 && columns != [] && Wide(rows, |columns|)
    ensures var chunks := |Chunks(rows, |columns|)|;
      var k := AnsweredFrom(wires, 0, chunks);
      var (after, r) := SendSpec<E>(w, table, columns, Chunks(rows, |columns|), wires);
      var log := Added(table, columns, rows, wires);
      && after.durable == w.durable + log
      && AllInto(log, table, columns)
      && |log| <= chunks == |Groups(rows, RowsPerBatch(|columns|))|
      && RowsInLog(log) == StoredRows(FirstGroups(rows, |columns|, |log|), |columns|)
      && SameRows(rows[..RowsBefore(|rows|, |columns|, |log|)], RowsInLog(log))
      && |log| == k + (if k < chunks && (wires(k).Broken? || wires(k).Cancelled?) && wires(k).applied then 1 else 0)
      && (r.Inserted? <==> k == chunks)
      && (r.Inserted? ==> r.total == Sum(Counts(wires, chunks)))
      && (r.CallAbandoned? <==> k < chunks && wires(k).Cancelled?)
      && (r.SqlFailed? <==> k < chunks && !wires(k).Cancelled?)
  {
    SendEffect<E>(w, table, columns, rows, wires);
    AddedStoresPrefix(table, columns, rows, wires);
    AddedCount(table, columns, rows, wires);
  }

  lemma AcceptedCallSends<V, E>(w: World, table: string, columns: seq<string>, dataRows: seq<PyRow<V>>,
      conv: V -> Result<FastParameter, E>, wires: nat -> Wire)
    requires columns != [] && ConvertRows(dataRows, |columns|, conv).Ok? && !HasNul(table, columns)
    ensures var rows := ConvertRows(dataRows, |columns|, conv).value;
      BulkSpec(w, table, columns, dataRows, conv, Connected, wires)
      == SendSpec<E>(w, table, columns, Chunks(rows, |columns|), wires)
  {
  }

  /**
   Whatever happens while sending, the database gains the rows of a prefix of the chunks, in order and with
   every cell in place: `k` chunks were answered, and the one after them counts only if it was executed and
   its reply lost.
   */
  lemma BulkInsertStoresPrefix<V, E>(w: World, table: string, columns: seq<string>, dataRows: seq<PyRow<V>>,
      conv: V -> Result<FastParameter, E>, wires: nat -> Wire)
    requires w.alive && w.depth == 0
    requires columns != [] && GoodRows(dataRows, |columns|, conv) && !HasNul(table, columns)
    ensures var converted := ConvertRows(dataRows, |columns|, conv);
      converted.Ok? &&
      var rows := converted.value;
      var chunks := |Chunks(rows, |columns|)|;
      var k := AnsweredFrom(wires, 0, chunks);
      var (after, r) := BulkSpec(w, table, columns, dataRows, conv, Connected, wires);
      var log := Added(table, columns, rows, wires);
      && after.durable == w.durable + log
      && AllInto(log, table, columns)
      && |log| <= chunks == |Groups(rows, RowsPerBatch(|columns|))|
      && RowsInLog(log) == StoredRows(FirstGroups(rows, |columns|, |log|), |columns|)
      && StoresInput(dataRows[..RowsBefore(|dataRows|, |columns|, |log|)], conv, RowsInLog(log))
      && |log| == k + (if k < chunks && (wires(k).Broken? || wires(k).Cancelled?) && wires(k).applied then 1 else 0)
      && (r.Inserted? <==> k == chunks)
      && (r.Inserted? ==> r.total == Sum(Counts(wires, chunks)))
      && (r.CallAbandoned? <==> k < chunks && wires(k).Cancelled?)
      && (r.SqlFailed? <==> k < chunks && !wires(k).Cancelled?)
  {
    ConvertRowsMeaning(dataRows, |columns|, conv);
    var rows := ConvertRows(dataRows, |columns|, conv).value;
    var log := Added(table, columns, rows, wires);
    AcceptedCallSends(w, table, columns, dataRows, conv, wires);
    SendStoresPrefix<E>(w, table, columns, rows, wires);
    MatchedRowsAreStored(dataRows, rows, conv, RowsBefore(|rows|, |columns|, |log|), RowsInLog(log));
  }

  /** Success stores every input row, in order, each cell unchanged but for the type of an untyped NULL. */
  lemma SuccessStoresAllRows<V, E>(w: World, table: string, columns: seq<string>, dataRows: seq<PyRow<V>>,
      conv: V -> Result<FastParameter, E>, pool: Connecting, wires: nat -> Wire)
    requires w.alive && w.depth == 0
    requires BulkSpec(w, table, columns, dataRows, conv, pool, wires).1.Inserted?
    ensures var after := BulkSpec(w, table, columns, dataRows, conv, pool, wires).0;
      w.durable <= after.durable && StoresInput(dataRows, conv, RowsInLog(after.durable[|w.durable|..]))
      && AllInto(after.durable[|w.durable|..], table, columns)
  {
    RejectedCallStoresNothing(w, table, columns, dataRows, conv, pool, wires);
    BulkInsertStoresPrefix(w, table, columns, dataRows, conv, wires);
    var rows := ConvertRows(dataRows, |columns|, conv).value;
    AllChunksHoldAllRows(rows, |columns|);
    Whole(dataRows);
    Cut(w.durable, Added(table, columns, rows, wires));
  }

  lemma AllChunksHoldAllRows(rows: seq<Row>, cols: nat)
    requires cols > 0
    ensures RowsBefore(|rows|, cols, |Chunks(rows, cols)|) == |rows|
  {
    GroupCount(rows, RowsPerBatch(cols));
    CeilCovers(|rows|, RowsPerBatch(cols));
  }

  lemma CeilCovers(n: nat, size: nat)
    requires size > 0
    ensures n <= (n + size - 1) / size * size
  {
    RowsFit(n + size - 1, size);
    assert ((n + size - 1) / size + 1) * size == (n + size - 1) / size * size + size;
  }

  /** When the server reports one row per inserted row, the total is the number of rows. */
  lemma TotalIsRowCount<V, E>(w: World, table: string, columns: seq<string>, dataRows: seq<PyRow<V>>,
      conv: V -> Result<FastParameter, E>, wires: nat -> Wire)
    requires w.alive && w.depth == 0
    requires columns != [] && ConvertRows(dataRows, |columns|, conv).Ok? && !HasNul(table, columns)
    requires var groups := Groups(ConvertRows(dataRows, |columns|, conv).value, RowsPerBatch(|columns|));
      forall i :: 0 <= i < |groups| ==> CountOf(wires(i)) == |groups[i]|
    ensures var r := BulkSpec(w, table, columns, dataRows, conv, Connected, wires).1;
      r.Inserted? ==> r.total == |dataRows|
  {
    var rows := ConvertRows(dataRows, |columns|, conv).value;
    var groups := Groups(rows, RowsPerBatch(|columns|));
    SendEffect<E>(w, table, columns, rows, wires);
    SumOfCounts(groups, wires, |groups|);
    GroupsCover(rows, RowsPerBatch(|columns|));
    Whole(groups);
  }

  lemma {:induction false} SumOfCounts(groups: seq<seq<Row>>, wires: nat -> Wire, k: nat)
    requires k <= |groups| && forall i :: 0 <= i < |groups| ==> CountOf(wires(i)) == |groups[i]|
    ensures Sum(Counts(wires, k)) == |Concat(groups[..k])|
  {
    if k > 0 {
      SumOfCounts(groups, wires, k - 1);
      CountsStep(wires, k - 1);
      SumAppend(Counts(wires, k - 1), [CountOf(wires(k - 1))]);
      Unsnoc(groups, k - 1);
      ConcatPush(groups[..k - 1], groups[k - 1]);
    }
  }
}
