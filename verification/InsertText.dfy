/**
 The text of one multi-row INSERT (`bulk_insert`, src/batch.rs), and what SQL Server
 makes of such a text: the table, the columns and the rows it stores.
 */
module InsertText {
  import opened Common
  import opened Digits
  import opened Identifiers
  import opened NullTypes
  import opened Values

  // ----- printing -----

  function Placeholder(n: nat): string { "@P" + Print(n) }

  function TupleNumbers(row: nat, cols: nat): (t: seq<nat>)
    ensures |t| == cols
  {
    seq(cols, c requires 0 <= c < cols => row * cols + c + 1)
  }

  function Placeholders(numbers: seq<nat>): (t: seq<string>)
    ensures |t| == |numbers|
  {
    seq(|numbers|, c requires 0 <= c < |numbers| => Placeholder(numbers[c]))
  }

  function TupleText(numbers: seq<nat>): string {
    "(" + (Join(Placeholders(numbers), ",") + ")")
  }

  function AllNumbers(rows: nat, cols: nat): (t: seq<seq<nat>>)
    ensures |t| == rows
  {
    seq(rows, r requires 0 <= r < rows => TupleNumbers(r, cols))
  }

  function TupleTexts(tuples: seq<seq<nat>>): (t: seq<string>)
    ensures |t| == |tuples|
  {
    seq(|tuples|, r requires 0 <= r < |tuples| => TupleText(tuples[r]))
  }

  function InsertSql(table: string, columns: string, tuples: seq<seq<nat>>): string {
    "INSERT INTO " + (table + (" (" + (columns + (") VALUES " + Join(TupleTexts(tuples), ",")))))
  }

  /** One step of a loop that writes separated items after `front`. */
  lemma AppendItem(front: string, items: seq<string>, i: nat, sep: string)
    requires i < |items|
    ensures var now := front + Join(items[..i], sep);
      front + Join(items[..i + 1], sep) == (if i > 0 then now + sep else now) + items[i]
  {
    var done := Join(items[..i], sep);
    JoinNext(items, i, sep);
    Assoc(front, done, sep);
    Assoc(front, if i > 0 then done + sep else done, items[i]);
  }

  lemma AppendPlaceholder(here: string, n: nat)
    ensures here + "@" + "P" + Print(n) == here + Placeholder(n)
  {
    Assoc(here, "@", "P");
    Assoc(here, "@P", Print(n));
    assert "@" + "P" == "@P";
  }

  /** Appends one parenthesised tuple of placeholders to the statement. */
  method PushTuple(before: string, r: nat, cols: nat) returns (sql: string)
    requires cols > 0
    ensures sql == before + TupleText(TupleNumbers(r, cols))
  {
    ghost var items := Placeholders(TupleNumbers(r, cols));
    sql := before + "(";
    ghost var front := sql;
    for c := 1 to cols + 1
      invariant sql == front + Join(items[..c - 1], ",")
    {
      AppendItem(front, items, c - 1, ",");
      if c > 1 {
        sql := sql + ",";
      }
      var paramNum := r * cols + c;
      AppendPlaceholder(sql, paramNum);
      sql := sql + "@";
      sql := sql + "P";
      sql := sql + Print(paramNum);
    }
    Whole(items);
    Assoc(front, Join(items, ","), ")");
    Assoc(before, "(", Join(items, ",") + ")");
    sql := sql + ")";
  }

  lemma InsertSqlAssoc(table: string, columns: string, tuples: seq<seq<nat>>)
    ensures "INSERT INTO " + table + " (" + columns + ") VALUES " + Join(TupleTexts(tuples), ",")
         == InsertSql(table, columns, tuples)
  {
    var v := Join(TupleTexts(tuples), ",");
    Assoc("INSERT INTO ", table, " (");
    Assoc("INSERT INTO ", table + " (", columns);
    Assoc("INSERT INTO ", table + " (" + columns, ") VALUES ");
    Assoc("INSERT INTO ", table + " (" + columns + ") VALUES ", v);
    Assoc(table, " (", columns);
    Assoc(table, " (" + columns, ") VALUES ");
    Assoc(table, " (" + columns + ") VALUES ", v);
    Assoc(" (", columns, ") VALUES ");
    Assoc(" (", columns + ") VALUES ", v);
    Assoc(columns, ") VALUES ", v);
  }

  method RenderInsert(quotedTable: string, columnsSql: string, rows: nat, cols: nat) returns (sql: string)
    requires cols > 0
    ensures sql == InsertSql(quotedTable, columnsSql, AllNumbers(rows, cols))
  {
    ghost var tuples := TupleTexts(AllNumbers(rows, cols));
    sql := "INSERT INTO ";
    sql := sql + quotedTable;
    sql := sql + " (";
    sql := sql + columnsSql;
    sql := sql + ") VALUES ";
    ghost var head := sql;
    for r := 0 to rows
      invariant sql == head + Join(tuples[..r], ",")
    {
      AppendItem(head, tuples, r, ",");
      if r > 0 {
        sql := sql + ",";
      }
      sql := PushTuple(sql, r, cols);
    }
    Whole(tuples);
    InsertSqlAssoc(quotedTable, columnsSql, AllNumbers(rows, cols));
  }

  // ----- reading -----

  datatype Insert = Insert(table: seq<string>, columns: seq<seq<string>>, tuples: seq<seq<nat>>)

  function Strip(prefix: string, s: string): Option<string> {
    if |prefix| <= |s| && s[..|prefix|] == prefix then Some(s[|prefix|..]) else None
  }

  /** Reads placeholders up to and including the closing parenthesis. */
  function ReadTuple(s: string): (r: Option<(seq<nat>, string)>)
    ensures r.Some? ==> |r.value.1| < |s|
    decreases |s|
  {
    match Strip("@P", s)
    case None => None
    case Some(digits) =>
      match ReadNat(digits)
      case None => None
      case Some((n, rest)) =>
        if rest == "" then None
        else if rest[0] == ')' then Some(([n], rest[1..]))
        else if rest[0] != ',' then None
        else
          match ReadTuple(rest[1..])
          case None => None
          case Some((more, last)) => Some(([n] + more, last))
  }

  function ReadTuples(s: string): Option<seq<seq<nat>>>
    decreases |s|
  {
    if s == "" || s[0] != '(' then None else
      match ReadTuple(s[1..])
      case None => None
      case Some((tuple, rest)) =>
        if rest == "" then Some([tuple])
        else if rest[0] != ',' then None
        else
          match ReadTuples(rest[1..])
          case None => None
          case Some(more) => Some([tuple] + more)
  }

  function ReadBody(table: seq<string>, columns: seq<seq<string>>, s: string): Option<Insert> {
    match Strip(") VALUES ", s)
    case None => None
    case Some(values) =>
      match ReadTuples(values)
      case None => None
      case Some(tuples) => Some(Insert(table, columns, tuples))
  }

  function ReadColumns(table: seq<string>, s: string): Option<Insert> {
    match Strip(" (", s)
    case None => None
    case Some(list) =>
      match ReadNames(list)
      case None => None
      case Some((columns, rest)) => ReadBody(table, columns, rest)
  }

  function ReadInsert(sql: string): Option<Insert> {
    match Strip("INSERT INTO ", sql)
    case None => None
    case Some(target) =>
      match ReadName(target)
      case None => None
      case Some((table, rest)) => ReadColumns(table, rest)
  }

  lemma StripPrefix(prefix: string, s: string)
    ensures Strip(prefix, prefix + s) == Some(s)
  {
  }

  lemma ReadOnePlaceholder(n: nat, rest: string)
    requires rest != "" && rest[0] in {',', ')'}
    ensures ReadTuple(Placeholder(n) + rest) ==
      if rest[0] == ')' then Some(([n], rest[1..])) else
        match ReadTuple(rest[1..])
        case None => None
        case Some((more, last)) => Some(([n] + more, last))
  {
    Assoc("@P", Print(n), rest);
    StripPrefix("@P", Print(n) + rest);
    ReadNatOfPrint(n, rest);
  }

  lemma PlaceholdersTail(numbers: seq<nat>)
    requires numbers != []
    ensures Placeholders(numbers)[1..] == Placeholders(numbers[1..])
  {
  }

  lemma {:induction false} ReadPrintedTuple(numbers: seq<nat>, rest: string)
    requires |numbers| >= 1
    ensures ReadTuple(Join(Placeholders(numbers), ",") + (")" + rest)) == Some((numbers, rest))
  {
    var p := Placeholders(numbers);
    var close := ")" + rest;
    Cut(")", rest);
    Uncons(numbers);
    if |numbers| == 1 {
      Single(numbers);
      ReadOnePlaceholder(numbers[0], close);
    } else {
      var tail := Join(p[1..], ",") + close;
      PlaceholdersTail(numbers);
      ReadPrintedTuple(numbers[1..], rest);
      Cut(",", tail);
      ReadOnePlaceholder(numbers[0], "," + tail);
      Assoc(",", Join(p[1..], ","), close);
      Assoc(p[0], "," + Join(p[1..], ","), close);
    }
  }

  lemma ReadOneTuple(numbers: seq<nat>, rest: string)
    requires |numbers| >= 1 && (rest == "" || rest[0] == ',')
    ensures ReadTuples(TupleText(numbers) + rest) ==
      if rest == "" then Some([numbers]) else
        match ReadTuples(rest[1..])
        case None => None
        case Some(more) => Some([numbers] + more)
  {
    var inner := Join(Placeholders(numbers), ",") + (")" + rest);
    ReadPrintedTuple(numbers, rest);
    Assoc(Join(Placeholders(numbers), ","), ")", rest);
    Assoc("(", Join(Placeholders(numbers), ",") + ")", rest);
    Cut("(", inner);
  }

  lemma TupleTextsTail(tuples: seq<seq<nat>>)
    requires tuples != []
    ensures TupleTexts(tuples)[1..] == TupleTexts(tuples[1..])
  {
  }

  lemma {:induction false} ReadPrintedTuples(tuples: seq<seq<nat>>)
    requires |tuples| >= 1 && forall r :: 0 <= r < |tuples| ==> |tuples[r]| >= 1
    ensures ReadTuples(Join(TupleTexts(tuples), ",")) == Some(tuples)
  {
    var t := TupleTexts(tuples);
    Uncons(tuples);
    if |tuples| == 1 {
      Single(tuples);
      ReadOneTuple(tuples[0], "");
      Units(t[0]);
    } else {
      var tail := Join(t[1..], ",");
      TupleTextsTail(tuples);
      ReadPrintedTuples(tuples[1..]);
      Cut(",", tail);
      ReadOneTuple(tuples[0], "," + tail);
    }
  }

  lemma ReadRenderedBody(table: seq<string>, columns: seq<seq<string>>, tuples: seq<seq<nat>>)
    requires |tuples| >= 1 && forall r :: 0 <= r < |tuples| ==> |tuples[r]| >= 1
    ensures ReadBody(table, columns, ") VALUES " + Join(TupleTexts(tuples), ","))
      == Some(Insert(table, columns, tuples))
  {
    StripPrefix(") VALUES ", Join(TupleTexts(tuples), ","));
    ReadPrintedTuples(tuples);
  }

  lemma ReadRenderedColumns(table: seq<string>, columns: seq<string>, body: string)
    requires |columns| >= 1 && |body| >= 1 && body[0] == ')'
    ensures ReadColumns(table, " (" + (Join(QuoteNames(columns), ", ") + body))
      == ReadBody(table, SplitAll(columns), body)
  {
    StripPrefix(" (", Join(QuoteNames(columns), ", ") + body);
    ReadQuotedNames(columns, body);
  }

  /** The rendered statement reads back as its table, its columns and its placeholder numbers. */
  lemma ReadRenderedInsert(table: string, columns: seq<string>, tuples: seq<seq<nat>>)
    requires |columns| >= 1 && |tuples| >= 1 && forall r :: 0 <= r < |tuples| ==> |tuples[r]| >= 1
    ensures ReadInsert(InsertSql(QuoteName(table), Join(QuoteNames(columns), ", "), tuples))
         == Some(Insert(SplitDots(table), SplitAll(columns), tuples))
  {
    var body := ") VALUES " + Join(TupleTexts(tuples), ",");
    var list := " (" + (Join(QuoteNames(columns), ", ") + body);
    StripPrefix("INSERT INTO ", QuoteName(table) + list);
    QuoteReadsBack(table, list);
    ReadRenderedColumns(SplitDots(table), columns, body);
    ReadRenderedBody(SplitDots(table), SplitAll(columns), tuples);
  }

  // ----- meaning -----

  /** The rows a statement stores, in order. */
  datatype Stored = Stored(table: seq<string>, columns: seq<seq<string>>, rows: seq<seq<FastParameter>>)

  predicate InRange(numbers: seq<nat>, count: nat) {
    forall c :: 0 <= c < |numbers| ==> 1 <= numbers[c] <= count
  }

  predicate Bindable(ins: Insert, params: seq<FastParameter>) {
    forall r :: 0 <= r < |ins.tuples| ==>
      |ins.tuples[r]| == |ins.columns| && InRange(ins.tuples[r], |params|)
  }

  function BindRow(numbers: seq<nat>, params: seq<FastParameter>): (row: seq<FastParameter>)
    requires InRange(numbers, |params|)
    ensures |row| == |numbers|
  {
    seq(|numbers|, c requires 0 <= c < |numbers| => params[numbers[c] - 1])
  }

  function BindRows(tuples: seq<seq<nat>>, params: seq<FastParameter>): (rows: seq<seq<FastParameter>>)
    requires forall r :: 0 <= r < |tuples| ==> InRange(tuples[r], |params|)
    ensures |rows| == |tuples|
  {
    seq(|tuples|, r requires 0 <= r < |tuples| => BindRow(tuples[r], params))
  }

  /** What the server stores for a statement text with its parameters; None if it is rejected. */
  function StoredBy(sql: string, params: seq<FastParameter>): Option<Stored> {
    match ReadInsert(sql)
    case None => None
    case Some(ins) =>
      if !Bindable(ins, params) then None else
        Some(Stored(ins.table, ins.columns, BindRows(ins.tuples, params)))
  }

  /** A flat buffer cut into rows. */
  function RowsOf(cells: seq<FastParameter>, cols: nat): (rows: seq<seq<FastParameter>>)
    requires cols > 0
    ensures |rows| == |cells| / cols
    ensures forall r :: 0 <= r < |rows| ==> |rows[r]| == cols
  {
    seq(|cells| / cols, r requires 0 <= r < |cells| / cols =>
      seq(cols, c requires 0 <= c < cols => CellAt(cells, cols, r, c)))
  }

  lemma BindOwnRow(chunk: seq<FastParameter>, cols: nat, r: nat)
    requires cols > 0 && r < |chunk| / cols
    ensures InRange(TupleNumbers(r, cols), |chunk|)
    ensures BindRow(TupleNumbers(r, cols), chunk) == RowsOf(chunk, cols)[r]
  {
    var numbers := TupleNumbers(r, cols);
    forall c | 0 <= c < cols ensures 1 <= numbers[c] <= |chunk| && chunk[numbers[c] - 1] == CellAt(chunk, cols, r, c) {
      CellBound(r, c, |chunk|, cols);
    }
  }

  /** Executing the rendered statement for a chunk stores the chunk's rows, in order, every cell in its place. */
  lemma RenderedInsertStoresChunk(table: string, columns: seq<string>, chunk: seq<FastParameter>)
    requires |columns| >= 1 && |chunk| / |columns| >= 1
    ensures StoredBy(InsertSql(QuoteName(table), Join(QuoteNames(columns), ", "),
      AllNumbers(|chunk| / |columns|, |columns|)), chunk)
         == Some(Stored(SplitDots(table), SplitAll(columns), RowsOf(chunk, |columns|)))
  {
    var cols := |columns|;
    var tuples := AllNumbers(|chunk| / cols, cols);
    ReadRenderedInsert(table, columns, tuples);
    forall r | 0 <= r < |tuples|
      ensures InRange(tuples[r], |chunk|) && BindRow(tuples[r], chunk) == RowsOf(chunk, cols)[r]
    {
      BindOwnRow(chunk, cols, r);
    }
    assert BindRows(tuples, chunk) == RowsOf(chunk, cols);
  }
}
