/**
 What a result stream promises its reader (src/types.rs), as a plain cursor over the
 rows: no lazy conversion and no cache, only a position, the rows whose conversion has
 already failed, and the completion flag.
 */
module Cursor {
  import opened Common

  const USIZE_MAX: nat := 0xFFFF_FFFF_FFFF_FFFF
  const ISIZE_MIN: int := -0x8000_0000_0000_0000
  const ISIZE_MAX: nat := 0x7FFF_FFFF_FFFF_FFFF

  type usize = n: int | 0 <= n <= USIZE_MAX
  type isize = n: int | ISIZE_MIN <= n <= ISIZE_MAX

  type Conversion<!Row, Fast, E> = Row -> Result<Fast, E>

  datatype State = State(position: nat, failed: set<nat>, complete: bool)

  /** A Python subscript: an integer that fits isize, a slice, or anything else. */
  datatype Key = At(index: isize) | Slice(start: Option<int>, stop: Option<int>, step: Option<int>) | OtherKey

  datatype Op = Next | Item(key: Key) | All | Fetch(n: usize) | Rows | FetchOne | Reset

  datatype Failure<E> =
    | ConversionFailed(error: E)
    | RowAlreadyConsumed
    | NoColumnInfo
    | StopIteration
    | IndexOutOfRange
    | StepMustBeOne
    | StepIsZero
    | KeyType
    | Panicked      // checked arithmetic overflowed

  datatype Answer<Fast, E> = One(row: Fast) | Many(rows: seq<Fast>) | Nothing | Raised(failure: Failure<E>)

  // ----- reaching rows -----

  /** Row `i`: its conversion; a conversion that fails does so once, and then the row is gone. */
  function Access<Row, Fast, E>(rows: seq<Row>, conv: Conversion<Row, Fast, E>, failed: set<nat>, i: nat)
    : (Result<Fast, Failure<E>>, set<nat>)
    requires i < |rows|
  {
    match conv(rows[i])
    case Ok(fast) => (Ok(fast), failed)
    case Err(e) => if i in failed then (Err(RowAlreadyConsumed), failed) else (Err(ConversionFailed(e)), failed + {i})
  }

  /** Rows `from` up to `to`, stopping at the first failure; `got` are the rows already reached. */
  function AccessRange<Row, Fast, E>(rows: seq<Row>, conv: Conversion<Row, Fast, E>, failed: set<nat>, from: nat,
      to: nat, got: seq<Fast>): (Result<seq<Fast>, Failure<E>>, set<nat>)
    requires from <= to <= |rows|
    decreases |rows| - from
  {
    if from == to then (Ok(got), failed) else
      match Access(rows, conv, failed, from)
      case (Err(e), next) => (Err(e), next)
      case (Ok(fast), next) => AccessRange(rows, conv, next, from + 1, to, got + [fast])
  }

  // ----- Python's subscripts -----

  /** One bound of a slice with positive step, clamped into [0, len]. */
  function ClampBound(bound: Option<int>, default: nat, len: nat): (b: nat)
    requires default <= len
    ensures b <= len
  {
    match bound
    case None => default
    case Some(i) =>
      var j := if i < 0 then i + len else i;
      if j < 0 then 0 else if j > len then len else j
  }

  function IndexOf(index: isize, len: nat): Option<nat> {
    var i: int := index;
    var j := if i < 0 then i + len else i;
    if 0 <= j < len then Some(j) else None
  }

  // ----- operations -----

  function Step<Row, Fast, E>(rows: seq<Row>, conv: Conversion<Row, Fast, E>, s: State): (Answer<Fast, E>, State)
    requires s.position < |rows|
  {
    match Access(rows, conv, s.failed, s.position)
    case (Err(e), failed) => (Raised(e), s.(failed := failed))
    case (Ok(fast), failed) => (One(fast), s.(failed := failed, position := s.position + 1))
  }

  function Take<Row, Fast, E>(rows: seq<Row>, conv: Conversion<Row, Fast, E>, s: State, end: nat)
    : (Answer<Fast, E>, State)
    requires s.position <= end <= |rows|
  {
    match AccessRange(rows, conv, s.failed, s.position, end, [])
    case (Err(e), failed) => (Raised(e), s.(failed := failed))
    case (Ok(got), failed) => (Many(got), s.(failed := failed, position := end))
  }

  function Subscript<Row, Fast, E>(rows: seq<Row>, conv: Conversion<Row, Fast, E>, s: State, key: Key)
    : (Answer<Fast, E>, State)
  {
    match key
    case OtherKey => (Raised(KeyType), s)
    case At(index) =>
      if index == ISIZE_MIN then (Raised(Panicked), s) else
        (match IndexOf(index, |rows|)
         case None => (Raised(IndexOutOfRange), s)
         case Some(i) =>
           match Access(rows, conv, s.failed, i)
           case (Err(e), failed) => (Raised(e), s.(failed := failed))
           case (Ok(fast), failed) => (One(fast), s.(failed := failed)))
    case Slice(start, stop, step) =>
      if step == Some(0) then (Raised(StepIsZero), s)
      else if step.Some? && step.value != 1 then (Raised(StepMustBeOne), s)
      else
        var from, to := ClampBound(start, 0, |rows|), ClampBound(stop, |rows|, |rows|);
        if from >= to then (Many([]), s) else
          match AccessRange(rows, conv, s.failed, from, to, [])
          case (Err(e), failed) => (Raised(e), s.(failed := failed))
          case (Ok(got), failed) => (Many(got), s.(failed := failed))
  }

  function Apply<Row, Fast, E>(rows: seq<Row>, conv: Conversion<Row, Fast, E>, s: State, op: Op)
    : (r: (Answer<Fast, E>, State))
    requires s.position <= |rows|
    ensures r.1.position <= |rows|
  {
    match op
    case Next => if s.position < |rows| then Step(rows, conv, s) else (Raised(StopIteration), s.(complete := true))
    case FetchOne => if s.position < |rows| then Step(rows, conv, s) else (Nothing, s)
    case All => Take(rows, conv, s, |rows|)
    case Rows => Take(rows, conv, s.(position := 0), |rows|)
    case Fetch(n) =>
      if s.position + n > USIZE_MAX then (Raised(Panicked), s)
      else Take(rows, conv, s, if s.position + n < |rows| then s.position + n else |rows|)
    case Item(key) => Subscript(rows, conv, s, key)
    case Reset => (Nothing, s.(position := 0))
  }

  // ----- runs of operations -----

  function Run<Row, Fast, E>(rows: seq<Row>, conv: Conversion<Row, Fast, E>, s: State, ops: seq<Op>)
    : (r: (seq<Answer<Fast, E>>, State))
    requires s.position <= |rows|
    ensures |r.0| == |ops| && r.1.position <= |rows|
    decreases |ops|
  {
    if ops == [] then ([], s) else
      var (answer, next) := Apply(rows, conv, s, ops[0]);
      var (answers, last) := Run(rows, conv, next, ops[1..]);
      ([answer] + answers, last)
  }

  /** The rows an answer delivers. */
  function Delivered<Fast, E>(a: Answer<Fast, E>): seq<Fast> {
    match a
    case One(row) => [row]
    case Many(rows) => rows
    case _ => []
  }

  /** The rows delivered by the operations that move the cursor; subscripts only look. */
  function Output<Fast, E>(ops: seq<Op>, answers: seq<Answer<Fast, E>>): seq<Fast>
    requires |ops| == |answers|
  {
    if ops == [] then [] else
      (if ops[0].Item? then [] else Delivered(answers[0])) + Output(ops[1..], answers[1..])
  }

  function Rewinds(op: Op): bool { op.Reset? || op.Rows? }

  /** The conversions of rows `from` to `to`, all of which succeed. */
  ghost predicate ConvertsTo<Row, Fast, E>(rows: seq<Row>, conv: Conversion<Row, Fast, E>, from: nat, to: nat,
      got: seq<Fast>)
  {
    from <= to <= |rows| && |got| == to - from && forall i :: from <= i < to ==> conv(rows[i]) == Ok(got[i - from])
  }

  lemma {:induction false} RangeConverts<Row, Fast, E>(rows: seq<Row>, conv: Conversion<Row, Fast, E>, failed: set<nat>,
      start: nat, from: nat, to: nat, got: seq<Fast>)
    requires start <= from <= to <= |rows| && ConvertsTo(rows, conv, start, from, got)
    ensures AccessRange(rows, conv, failed, from, to, got).0.Ok? ==>
      ConvertsTo(rows, conv, start, to, AccessRange(rows, conv, failed, from, to, got).0.value)
    decreases |rows| - from
  {
    if from < to && conv(rows[from]).Ok? {
      RangeConverts(rows, conv, failed, start, from + 1, to, got + [conv(rows[from]).value]);
    }
  }

  /** One operation delivers exactly the rows the cursor passes over, or, for a subscript, moves nothing. */
  lemma ApplyDelivers<Row, Fast, E>(rows: seq<Row>, conv: Conversion<Row, Fast, E>, s: State, op: Op)
    requires s.position <= |rows|
    ensures var (answer, next) := Apply(rows, conv, s, op);
      && (op.Item? ==> next.position == s.position)
      && (op.Rows? ==> Delivered(answer) == [] || ConvertsTo(rows, conv, 0, |rows|, Delivered(answer)))
      && (!op.Item? && !Rewinds(op) ==> ConvertsTo(rows, conv, s.position, next.position, Delivered(answer)))
  {
    var here := if op.Rows? then 0 else s.position;
    RangeConverts<Row, Fast, E>(rows, conv, s.failed, here, here, |rows|, []);
    if op.Fetch? && s.position + op.n < |rows| {
      RangeConverts<Row, Fast, E>(rows, conv, s.failed, here, here, s.position + op.n, []);
    }
  }

  lemma ConvertsToJoin<Row, Fast, E>(rows: seq<Row>, conv: Conversion<Row, Fast, E>, a: nat, b: nat, c: nat,
      x: seq<Fast>, y: seq<Fast>)
    requires ConvertsTo(rows, conv, a, b, x) && ConvertsTo(rows, conv, b, c, y)
    ensures ConvertsTo(rows, conv, a, c, x + y)
  {
  }

  /**
   Between rewinds the output is one contiguous run of converted rows, from where the cursor was to where
   it is: nothing skipped, nothing repeated, whatever is indexed in between and whichever conversions fail.
   */
  lemma {:induction false} OutputIsContiguous<Row, Fast, E>(rows: seq<Row>, conv: Conversion<Row, Fast, E>, s: State,
      ops: seq<Op>)
    requires s.position <= |rows| && forall i :: 0 <= i < |ops| ==> !Rewinds(ops[i])
    ensures var (answers, last) := Run(rows, conv, s, ops);
      ConvertsTo(rows, conv, s.position, last.position, Output(ops, answers))
    decreases |ops|
  {
    if ops != [] {
      var (answer, next) := Apply(rows, conv, s, ops[0]);
      var (answers, last) := Run(rows, conv, next, ops[1..]);
      ApplyDelivers(rows, conv, s, ops[0]);
      assert forall i :: 0 <= i < |ops| - 1 ==> ops[1..][i] == ops[i + 1];
      OutputIsContiguous(rows, conv, next, ops[1..]);
      assert ([answer] + answers)[1..] == answers;
      var first, rest := if ops[0].Item? then [] else Delivered(answer), Output(ops[1..], answers);
      ConvertsToJoin(rows, conv, s.position, next.position, last.position, first, rest);
    }
  }

  // ----- when every conversion succeeds: a cursor over plain rows -----

  function Converted<Row, Fast, E>(rows: seq<Row>, conv: Conversion<Row, Fast, E>): (fast: seq<Fast>)
    requires forall i :: 0 <= i < |rows| ==> conv(rows[i]).Ok?
    ensures |fast| == |rows|
  {
    seq(|rows|, i requires 0 <= i < |rows| => conv(rows[i]).value)
  }

  /** The same operations over a list: no conversion, no failure set. */
  function PlainApply<Fast, E>(fast: seq<Fast>, position: nat, op: Op): (Answer<Fast, E>, nat)
    requires position <= |fast|
  {
    match op
    case Next => if position < |fast| then (One(fast[position]), position + 1) else (Raised(StopIteration), position)
    case FetchOne => if position < |fast| then (One(fast[position]), position + 1) else (Nothing, position)
    case All => (Many(fast[position..]), |fast|)
    case Rows => (Many(fast), |fast|)
    case Fetch(n) =>
      if position + n > USIZE_MAX then (Raised(Panicked), position)
      else if position + n < |fast| then (Many(fast[position..position + n]), position + n)
      else (Many(fast[position..]), |fast|)
    case Reset => (Nothing, 0)
    case Item(OtherKey) => (Raised(KeyType), position)
    case Item(At(index)) =>
      if index == ISIZE_MIN then (Raised(Panicked), position)
      else if 0 <= index < |fast| then (One(fast[index]), position)
      else if -|fast| <= index < 0 then (One(fast[|fast| + index]), position)
      else (Raised(IndexOutOfRange), position)
    case Item(Slice(start, stop, step)) =>
      if step == Some(0) then (Raised(StepIsZero), position)
      else if step.Some? && step.value != 1 then (Raised(StepMustBeOne), position)
      else
        var from, to := ClampBound(start, 0, |fast|), ClampBound(stop, |fast|, |fast|);
        (Many(if from < to then fast[from..to] else []), position)
  }

  /** The answers, and the position at the end. */
  function PlainRun<Fast, E>(fast: seq<Fast>, position: nat, ops: seq<Op>): (seq<Answer<Fast, E>>, nat)
    requires position <= |fast|
    decreases |ops|
  {
    if ops == [] then ([], position) else
      var (answer, next) := PlainApply<Fast, E>(fast, position, ops[0]);
      var (answers, last) := PlainRun<Fast, E>(fast, next, ops[1..]);
      ([answer] + answers, last)
  }

  lemma {:induction false} RangeIsSlice<Row, Fast, E>(rows: seq<Row>, conv: Conversion<Row, Fast, E>, failed: set<nat>,
      start: nat, from: nat, to: nat)
    requires start <= from <= to <= |rows| && forall i :: 0 <= i < |rows| ==> conv(rows[i]).Ok?
    ensures AccessRange(rows, conv, failed, from, to, Converted(rows, conv)[start..from])
      == (Ok(Converted(rows, conv)[start..to]), failed)
    decreases |rows| - from
  {
    if from < to {
      var fast := Converted(rows, conv);
      assert fast[start..from] + [fast[from]] == fast[start..from + 1];
      RangeIsSlice(rows, conv, failed, start, from + 1, to);
    }
  }

  lemma ApplyIsPlain<Row, Fast, E>(rows: seq<Row>, conv: Conversion<Row, Fast, E>, s: State, op: Op)
    requires s.position <= |rows| && forall i :: 0 <= i < |rows| ==> conv(rows[i]).Ok?
    ensures var (answer, next) := Apply(rows, conv, s, op);
      (answer, next.position) == PlainApply(Converted(rows, conv), s.position, op)
  {
    var fast := Converted(rows, conv);
    match op
    case All => TakeIsSlice(rows, conv, s, |rows|);
    case Rows => TakeIsSlice(rows, conv, s.(position := 0), |rows|);
    case Fetch(n) =>
      TakeIsSlice(rows, conv, s, |rows|);
      if s.position + n < |rows| { TakeIsSlice(rows, conv, s, s.position + n); }
    case Item(Slice(start, stop, step)) =>
      var from, to := ClampBound(start, 0, |fast|), ClampBound(stop, |fast|, |fast|);
      if from < to {
        RangeIsSlice(rows, conv, s.failed, from, from, to);
        assert fast[from..from] == [];
      }
    case _ =>
  }

  lemma TakeIsSlice<Row, Fast, E>(rows: seq<Row>, conv: Conversion<Row, Fast, E>, s: State, end: nat)
    requires s.position <= end <= |rows| && forall i :: 0 <= i < |rows| ==> conv(rows[i]).Ok?
    ensures Take(rows, conv, s, end) == (Many(Converted(rows, conv)[s.position..end]), s.(position := end))
    ensures Converted(rows, conv)[0..|rows|] == Converted(rows, conv)
  {
    RangeIsSlice(rows, conv, s.failed, s.position, s.position, end);
    assert Converted(rows, conv)[s.position..s.position] == [];
  }

  /** For total conversion, every run answers, and ends, as a cursor over the list of converted rows. */
  lemma {:induction false} RunIsPlain<Row, Fast, E>(rows: seq<Row>, conv: Conversion<Row, Fast, E>, s: State,
      ops: seq<Op>)
    requires s.position <= |rows| && forall i :: 0 <= i < |rows| ==> conv(rows[i]).Ok?
    ensures var (answers, last) := Run(rows, conv, s, ops);
      (answers, last.position) == PlainRun(Converted(rows, conv), s.position, ops)
    decreases |ops|
  {
    if ops != [] {
      ApplyIsPlain(rows, conv, s, ops[0]);
      RunIsPlain(rows, conv, Apply(rows, conv, s, ops[0]).1, ops[1..]);
    }
  }

  // ----- slices against single indices -----

  /** `[i:]` starts at the row that `[i]` gives and runs to the end; beyond either end it is everything or nothing. */
  lemma SliceStart<Fast, E>(fast: seq<Fast>, position: nat, i: int)
    requires position <= |fast|
    ensures var (answer, next) := PlainApply<Fast, E>(fast, position, Item(Slice(Some(i), None, None)));
      && next == position && answer.Many?
      && (i < -|fast| ==> answer.rows == fast)
      && (i >= |fast| ==> answer.rows == [])
      && (-|fast| <= i < |fast| ==>
            && |answer.rows| == (if i < 0 then -i else |fast| - i)
            && answer.rows == fast[|fast| - |answer.rows|..]
            && (ISIZE_MIN < i <= ISIZE_MAX ==>
                  PlainApply<Fast, E>(fast, position, Item(At(i))).0 == One(answer.rows[0])))
  {
  }

  /** `[:i]` ends before the row that `[i]` gives. */
  lemma SliceStop<Fast, E>(fast: seq<Fast>, position: nat, i: int)
    requires position <= |fast|
    ensures var (answer, next) := PlainApply<Fast, E>(fast, position, Item(Slice(None, Some(i), None)));
      && next == position && answer.Many?
      && (i < -|fast| ==> answer.rows == [])
      && (i >= |fast| ==> answer.rows == fast)
      && (-|fast| <= i < |fast| ==>
            && |answer.rows| == (if i < 0 then |fast| + i else i)
            && answer.rows == fast[..|answer.rows|]
            && (ISIZE_MIN < i <= ISIZE_MAX ==>
                  PlainApply<Fast, E>(fast, position, Item(At(i))).0 == One(fast[|answer.rows|])))
  {
  }

  /** `[start:stop]` is what `[start:]` and `[:stop]` have in common; an omitted bound cuts nothing off. */
  lemma SliceOverlap<Fast, E>(fast: seq<Fast>, position: nat, start: Option<int>, stop: Option<int>)
    requires position <= |fast|
    ensures PlainApply<Fast, E>(fast, position, Item(Slice(None, None, None))).0 == Many(fast)
    ensures var both := PlainApply<Fast, E>(fast, position, Item(Slice(start, stop, None))).0;
      var tail := PlainApply<Fast, E>(fast, position, Item(Slice(start, None, None))).0;
      var head := PlainApply<Fast, E>(fast, position, Item(Slice(None, stop, None))).0;
      && both.Many? && tail.Many? && head.Many? && |tail.rows| <= |fast| && |head.rows| <= |fast|
      && both.rows == (if |tail.rows| + |head.rows| > |fast| then fast[|fast| - |tail.rows|..|head.rows|] else [])
      && PlainApply<Fast, E>(fast, position, Item(Slice(start, stop, Some(1)))).0 == both
  {
    Whole(fast);
  }

  // ----- when a conversion fails -----

  /** Where a moving call starts reading, and where it leaves the cursor if all goes well. */
  function Origin(op: Op, position: nat): nat { if op.Rows? then 0 else position }

  function Goal(op: Op, position: nat, len: nat): nat
    requires position <= len
  {
    match op
    case Next => if position < len then position + 1 else len
    case FetchOne => if position < len then position + 1 else len
    case All => len
    case Rows => len
    case Fetch(n) => if position + n < len then position + n else len
    case _ => position
  }

  predicate Moving(op: Op, position: nat) {
    op.Next? || op.FetchOne? || op.All? || op.Rows? || (op.Fetch? && position + op.n <= USIZE_MAX)
  }

  /** Why row `k` cannot be had: its conversion failed, now or before. */
  function WhyNot<Row, Fast, E>(rows: seq<Row>, conv: Conversion<Row, Fast, E>, failed: set<nat>, k: nat): Failure<E>
    requires k < |rows| && conv(rows[k]).Err?
  {
    if k in failed then RowAlreadyConsumed else ConversionFailed(conv(rows[k]).error)
  }

  lemma {:induction false} RangeStops<Row, Fast, E>(rows: seq<Row>, conv: Conversion<Row, Fast, E>, failed: set<nat>,
      from: nat, to: nat, got: seq<Fast>, k: nat)
    requires from <= k < to <= |rows| && conv(rows[k]).Err? && forall i :: from <= i < k ==> conv(rows[i]).Ok?
    ensures AccessRange(rows, conv, failed, from, to, got) == (Err(WhyNot(rows, conv, failed, k)), failed + {k})
    decreases |rows| - from
  {
    if from < k {
      RangeStops(rows, conv, failed, from + 1, to, got + [conv(rows[from]).value], k);
    } else if k in failed {
      assert failed + {k} == failed;
    }
  }

  lemma {:induction false} RangeFinishes<Row, Fast, E>(rows: seq<Row>, conv: Conversion<Row, Fast, E>, failed: set<nat>,
      from: nat, to: nat, got: seq<Fast>)
    requires from <= to <= |rows| && forall i :: from <= i < to ==> conv(rows[i]).Ok?
    ensures AccessRange(rows, conv, failed, from, to, got).0.Ok?
    ensures AccessRange(rows, conv, failed, from, to, got).1 == failed
    decreases |rows| - from
  {
    if from < to {
      RangeFinishes(rows, conv, failed, from + 1, to, got + [conv(rows[from]).value]);
    }
  }

  /** A moving call whose rows all convert reaches its goal and loses nothing. */
  lemma CallReachesGoal<Row, Fast, E>(rows: seq<Row>, conv: Conversion<Row, Fast, E>, s: State, op: Op)
    requires s.position <= |rows| && Moving(op, s.position)
    requires forall i :: Origin(op, s.position) <= i < Goal(op, s.position, |rows|) ==> conv(rows[i]).Ok?
    ensures Apply(rows, conv, s, op).1
      == State(Goal(op, s.position, |rows|), s.failed, s.complete || (op.Next? && s.position == |rows|))
  {
    if op.All? || op.Rows? || op.Fetch? {
      RangeFinishes<Row, Fast, E>(rows, conv, s.failed, Origin(op, s.position), Goal(op, s.position, |rows|), []);
    }
  }

  /** One that meets a row that does not convert raises for the first of them, loses it, and stays where it started. */
  lemma CallStopsAtFailure<Row, Fast, E>(rows: seq<Row>, conv: Conversion<Row, Fast, E>, s: State, op: Op, k: nat)
    requires s.position <= |rows| && Moving(op, s.position)
    requires Origin(op, s.position) <= k < Goal(op, s.position, |rows|) && conv(rows[k]).Err?
    requires forall i :: Origin(op, s.position) <= i < k ==> conv(rows[i]).Ok?
    ensures var (answer, next) := Apply(rows, conv, s, op);
      && answer == Raised(WhyNot(rows, conv, s.failed, k))
      && next == State(Origin(op, s.position), s.failed + {k}, s.complete)
  {
    if op.All? || op.Rows? || op.Fetch? {
      RangeStops<Row, Fast, E>(rows, conv, s.failed, Origin(op, s.position), Goal(op, s.position, |rows|), [], k);
    } else if k in s.failed {
      assert s.failed + {k} == s.failed;
    }
  }

  /** A slice within the rows answers as fetching from its start would, and loses the same row, but moves nothing. */
  lemma SliceIsFetch<Row, Fast, E>(rows: seq<Row>, conv: Conversion<Row, Fast, E>, s: State, a: nat, b: usize)
    requires s.position <= |rows| && a <= b <= |rows|
    ensures var (answer, next) := Apply(rows, conv, s, Item(Slice(Some(a), Some(b), None)));
      var (fetched, there) := Apply(rows, conv, s.(position := a), Fetch(b - a));
      answer == fetched && next == there.(position := s.position)
  {
  }

  /** An index does too, one row at a time. */
  lemma IndexIsFetchOne<Row, Fast, E>(rows: seq<Row>, conv: Conversion<Row, Fast, E>, s: State, i: isize)
    requires s.position <= |rows| && ISIZE_MIN < i && -|rows| <= i < |rows|
    ensures var (answer, next) := Apply(rows, conv, s, Item(At(i)));
      var (fetched, there) := Apply(rows, conv, s.(position := if i < 0 then |rows| + i else i), FetchOne);
      answer == fetched && next == there.(position := s.position)
  {
  }

  lemma ApplyKeepsLost<Row, Fast, E>(rows: seq<Row>, conv: Conversion<Row, Fast, E>, s: State, op: Op)
    requires s.position <= |rows|
    ensures s.failed <= Apply(rows, conv, s, op).1.failed
  {
    match op
    case All => RangeKeepsLost<Row, Fast, E>(rows, conv, s.failed, s.position, |rows|, []);
    case Rows => RangeKeepsLost<Row, Fast, E>(rows, conv, s.failed, 0, |rows|, []);
    case Fetch(n) =>
      RangeKeepsLost<Row, Fast, E>(rows, conv, s.failed, s.position, Goal(op, s.position, |rows|), []);
    case Item(Slice(start, stop, step)) =>
      var from, to := ClampBound(start, 0, |rows|), ClampBound(stop, |rows|, |rows|);
      if from < to {
        RangeKeepsLost<Row, Fast, E>(rows, conv, s.failed, from, to, []);
      }
    case _ =>
  }

  lemma {:induction false} RangeKeepsLost<Row, Fast, E>(rows: seq<Row>, conv: Conversion<Row, Fast, E>,
      failed: set<nat>, from: nat, to: nat, got: seq<Fast>)
    requires from <= to <= |rows|
    ensures failed <= AccessRange(rows, conv, failed, from, to, got).1
    decreases |rows| - from
  {
    if from < to && conv(rows[from]).Ok? {
      RangeKeepsLost(rows, conv, failed, from + 1, to, got + [conv(rows[from]).value]);
    }
  }

  /** A row lost to a failed conversion is reported as consumed by every later look at it, whatever happens between. */
  lemma {:induction false} LostRowStaysLost<Row, Fast, E>(rows: seq<Row>, conv: Conversion<Row, Fast, E>, s: State,
      ops: seq<Op>, i: isize)
    requires s.position <= |rows| && 0 <= i < |rows| && conv(rows[i]).Err? && i in s.failed
    ensures Apply(rows, conv, Run(rows, conv, s, ops).1, Item(At(i))).0 == Raised(RowAlreadyConsumed)
    decreases |ops|
  {
    if ops != [] {
      ApplyKeepsLost(rows, conv, s, ops[0]);
      LostRowStaysLost(rows, conv, Apply(rows, conv, s, ops[0]).1, ops[1..], i);
    }
  }
}
