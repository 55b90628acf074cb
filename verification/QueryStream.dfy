/**
 The lazy result stream (`PyQueryStream`, src/types.rs): raw rows are taken and converted
 on first use and the conversions cached. Every method refines one step of `Cursor`.
 */
module QueryStreams {
  import opened Common
  import opened Cursor

  /** A row is raw, or converted and cached, or was lost to a conversion that failed; `attempts` counts conversions. */
  ghost predicate SlotOk<Row, Fast, E>(row: Row, conv: Conversion<Row, Fast, E>, raw: Option<Row>, cached: Option<Fast>,
      attempts: nat)
  {
    match (raw, cached)
    case (Some(r), None) => r == row && attempts == 0
    case (None, Some(fast)) => conv(row) == Ok(fast) && attempts == 1
    case (None, None) => conv(row).Err? && attempts == 1
    case (Some(_), Some(_)) => false
  }

  class QueryStream<Row, Fast, E> {
    const conv: Conversion<Row, Fast, E>
    ghost const rows: seq<Row>               // the rows the server sent
    var tiberiusRows: seq<Option<Row>>       // None once taken
    var convertedCache: seq<Option<Fast>>    // None until converted
    var hasColumnInfo: bool
    var position: nat
    var isComplete: bool
    ghost var attempts: seq<nat>             // conversions started, per row

    ghost predicate Valid()
      reads this
    {
      && |tiberiusRows| == |convertedCache| == |attempts| == |rows|
      && position <= |rows|
      && (hasColumnInfo <==> rows != [])
      && forall i :: 0 <= i < |rows| ==> SlotOk(rows[i], conv, tiberiusRows[i], convertedCache[i], attempts[i])
    }

    ghost function Failed(): set<nat>
      reads this
      requires Valid()
    {
      set i: nat | i < |rows| && tiberiusRows[i].None? && convertedCache[i].None?
    }

    ghost function Abs(): State
      reads this
      requires Valid()
    {
      State(position, Failed(), isComplete)
    }

    /** `from_tiberius_rows`. */
    constructor (rows: seq<Row>, conv: Conversion<Row, Fast, E>)
      ensures Valid() && this.rows == rows && this.conv == conv
      ensures Abs() == State(0, {}, false) && forall i :: 0 <= i < |rows| ==> attempts[i] == 0
    {
      this.conv := conv;
      this.rows := rows;
      tiberiusRows := seq(|rows|, i requires 0 <= i < |rows| => Some(rows[i]));
      convertedCache := seq(|rows|, _ => None);
      hasColumnInfo := rows != [];
      position, isComplete := 0, false;
      attempts := seq(|rows|, _ => 0);
    }

    /** `get_or_convert_row`: cache, else take the raw row, convert it and cache the result. */
    method GetOrConvertRow(index: nat) returns (r: Result<Fast, Failure<E>>)
      requires Valid() && index < |rows|
      modifies this`tiberiusRows, this`convertedCache, this`attempts
      ensures Valid() && (r, Failed()) == Access(rows, conv, old(Failed()), index)
      ensures forall i :: 0 <= i < |rows| ==> old(attempts[i]) <= attempts[i]
    {
      if convertedCache[index].Some? {
        return Ok(convertedCache[index].value);
      }
      var taken := tiberiusRows[index];
      tiberiusRows := tiberiusRows[index := None];
      if taken.None? {
        assert tiberiusRows == old(tiberiusRows);
        return Err(RowAlreadyConsumed);
      }
      if !hasColumnInfo {
        return Err(NoColumnInfo);
      }
      var converted := conv(taken.value);
      attempts := attempts[index := attempts[index] + 1];
      match converted {
        case Err(e) =>
          assert Failed() == old(Failed()) + {index};
          return Err(ConversionFailed(e));
        case Ok(fast) =>
          convertedCache := convertedCache[index := Some(fast)];
          assert Failed() == old(Failed());
          return Ok(fast);
      }
    }

    /** The loops of `all`, `fetch` and slicing: rows `from` up to `to`, stopping at the first failure. */
    method CollectRows(from: nat, to: nat) returns (r: Result<seq<Fast>, Failure<E>>)
      requires Valid() && from <= to <= |rows|
      modifies this`tiberiusRows, this`convertedCache, this`attempts
      ensures Valid() && (r, Failed()) == AccessRange(rows, conv, old(Failed()), from, to, [])
    {
      var rowList: seq<Fast> := [];
      for i := from to to
        invariant Valid()
        invariant AccessRange(rows, conv, old(Failed()), from, to, [])
          == AccessRange(rows, conv, Failed(), i, to, rowList)
      {
        var row := GetOrConvertRow(i);
        if row.Err? {
          return Err(row.error);
        }
        rowList := rowList + [row.value];
      }
      return Ok(rowList);
    }

    /** `__next__`. */
    method Next() returns (a: Answer<Fast, E>)
      requires Valid()
      modifies this
      ensures Valid() && (a, Abs()) == Apply(rows, conv, old(Abs()), Op.Next)
    {
      if position < |tiberiusRows| {
        var row := GetOrConvertRow(position);
        if row.Err? {
          return Raised(row.error);
        }
        position := position + 1;
        return One(row.value);
      }
      isComplete := true;
      return Raised(StopIteration);
    }

    /** `__getitem__`: a slice of step one, or one index counted from either end. */
    method GetItem(key: Key) returns (a: Answer<Fast, E>)
      requires Valid()
      modifies this`tiberiusRows, this`convertedCache, this`attempts
      ensures Valid() && (a, Abs()) == Apply(rows, conv, old(Abs()), Item(key))
    {
      var len := |tiberiusRows|;
      match key {
        case OtherKey => return Raised(KeyType);
        case Slice(start, stop, step) =>
          if step == Some(0) {
            return Raised(StepIsZero);
          }
          if step.Some? && step.value != 1 {
            return Raised(StepMustBeOne);
          }
          var from, to := ClampBound(start, 0, len), ClampBound(stop, len, len);
          if from >= to || len == 0 {
            return Many([]);
          }
          var collected := CollectRows(from, to);
          return if collected.Ok? then Many(collected.value) else Raised(collected.error);
        case At(index) =>
          if index == ISIZE_MIN {
            return Raised(Panicked);
          }
          var i: int := index;
          if i < 0 && -i > len {
            return Raised(IndexOutOfRange);
          }
          var actual := if i < 0 then len + i else i;
          if actual >= len {
            return Raised(IndexOutOfRange);
          }
          var row := GetOrConvertRow(actual);
          return if row.Ok? then One(row.value) else Raised(row.error);
      }
    }

    method All() returns (a: Answer<Fast, E>)
      requires Valid()
      modifies this
      ensures Valid() && (a, Abs()) == Apply(rows, conv, old(Abs()), Op.All)
    {
      if |tiberiusRows| - position == 0 {
        return Many([]);
      }
      var collected := CollectRows(position, |tiberiusRows|);
      if collected.Err? {
        return Raised(collected.error);
      }
      position := |tiberiusRows|;
      return Many(collected.value);
    }

    /** `fetch`; `position + n` is checked arithmetic. */
    method Fetch(n: usize) returns (a: Answer<Fast, E>)
      requires Valid()
      modifies this
      ensures Valid() && (a, Abs()) == Apply(rows, conv, old(Abs()), Op.Fetch(n))
    {
      if position + n > USIZE_MAX {
        return Raised(Panicked);
      }
      var end := if position + n < |tiberiusRows| then position + n else |tiberiusRows|;
      if end - position == 0 {
        return Many([]);
      }
      var collected := CollectRows(position, end);
      if collected.Err? {
        return Raised(collected.error);
      }
      position := end;
      return Many(collected.value);
    }

    method Reset()
      requires Valid()
      modifies this`position
      ensures Valid() && (Nothing, Abs()) == Apply(rows, conv, old(Abs()), Op.Reset)
    {
      position := 0;
    }

    method Rows() returns (a: Answer<Fast, E>)
      requires Valid()
      modifies this
      ensures Valid() && (a, Abs()) == Apply(rows, conv, old(Abs()), Op.Rows)
    {
      position := 0;
      a := All();
    }

    method FetchOne() returns (a: Answer<Fast, E>)
      requires Valid()
      modifies this
      ensures Valid() && (a, Abs()) == Apply(rows, conv, old(Abs()), Op.FetchOne)
    {
      if position < |tiberiusRows| {
        var row := GetOrConvertRow(position);
        if row.Err? {
          return Raised(row.error);
        }
        position := position + 1;
        return One(row.value);
      }
      return Nothing;
    }

    /** Any sequence of calls answers as the cursor does, and no row is ever converted twice. */
    method Perform(ops: seq<Op>) returns (answers: seq<Answer<Fast, E>>)
      requires Valid()
      modifies this
      ensures Valid() && (answers, Abs()) == Run(rows, conv, old(Abs()), ops)
      ensures forall i :: 0 <= i < |rows| ==> attempts[i] <= 1
    {
      answers := [];
      assert ops[0..] == ops && [] + Run(rows, conv, Abs(), ops).0 == Run(rows, conv, Abs(), ops).0;
      for i := 0 to |ops|
        invariant Valid() && |answers| == i
        invariant RunAfter(answers, Run(rows, conv, Abs(), ops[i..])) == Run(rows, conv, old(Abs()), ops)
      {
        assert ops[i..][1..] == ops[i + 1..];
        ghost var before := Abs();
        var a: Answer<Fast, E>;
        match ops[i] {
          case Next => a := Next();
          case Item(key) => a := GetItem(key);
          case All => a := All();
          case Fetch(n) => a := Fetch(n);
          case Rows => a := Rows();
          case FetchOne => a := FetchOne();
          case Reset => Reset(); a := Nothing;
        }
        Assoc(answers, [a], Run(rows, conv, Abs(), ops[i + 1..]).0);
        answers := answers + [a];
      }
      assert answers + [] == answers;
      assert forall i :: 0 <= i < |rows| ==> SlotOk(rows[i], conv, tiberiusRows[i], convertedCache[i], attempts[i]);
    }
  }

  ghost function RunAfter<Fast, E>(answers: seq<Answer<Fast, E>>, r: (seq<Answer<Fast, E>>, State))
    : (seq<Answer<Fast, E>>, State)
  {
    (answers + r.0, r.1)
  }
}
