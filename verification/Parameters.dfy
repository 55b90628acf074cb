/**
 Parameter expansion (src/parameter_conversion.rs): a Python list of parameters is
 flattened one level, under SQL Server's limit of 2100 parameters. Conversion of a
 single value is the parameter `conv`, of which nothing is assumed.
 */
module Parameters {
  import opened Common
  import opened Values

  const MAX_PARAMETERS: nat := 2100

  /** What one call of `__next__` does. */
  datatype Next<V, E> = Item(value: V) | Stop | Raise(error: E)

  /** An iterator: the outcome of its n-th `__next__`. It need never stop. */
  type Stream<!V, !E> = nat -> Next<V, E>

  /** A Python argument, as `is_expandable_iterable` and the casts tell arguments apart. */
  datatype Arg<!V, !E> =
    | Scalar(value: V)                        // str, bytes, and anything without `__iter__`
    | ListArg(items: seq<V>)
    | TupleArg(items: seq<V>)
    | IterableArg(open: Result<Stream<V, E>, E>)  // any other iterable; `__iter__` itself may raise
    | ProbeRaises(error: E)                   // looking up `__iter__` raises

  datatype ParamError<E> = TooManyArguments(count: nat) | ExpansionLimit | LimitExceeded(count: nat) | Raised(error: E)

  // ----- expanding one iterable -----

  /** What an expansion pushes, how many items it asks for, and the error that ends it, if any. */
  datatype Expansion<E> = Expansion(pushed: seq<FastParameter>, asked: nat, error: Option<ParamError<E>>)

  /** Expansion of a stream from item `i` on, with `remaining` parameters left in the budget. */
  function Expand<V, E>(s: Stream<V, E>, i: nat, conv: V -> Result<FastParameter, E>, remaining: nat): (x: Expansion<E>)
    ensures |x.pushed| <= remaining
    ensures x.asked == |x.pushed| + 1 <= remaining + 1
    decreases remaining
  {
    match s(i)
    case Stop => Expansion([], 1, None)
    case Raise(e) => Expansion([], 1, Some(Raised(e)))
    case Item(v) =>
      if remaining == 0 then Expansion([], 1, Some(ExpansionLimit)) else
        match conv(v)
        case Err(e) => Expansion([], 1, Some(Raised(e)))
        case Ok(p) =>
          var rest := Expand(s, i + 1, conv, remaining - 1);
          Expansion([p] + rest.pushed, 1 + rest.asked, rest.error)
  }

  /** What is pushed is what the items convert to, and only `Stop` ends an expansion without error. */
  lemma {:induction false} ExpandMeaning<V, E>(s: Stream<V, E>, i: nat, conv: V -> Result<FastParameter, E>,
      remaining: nat)
    ensures var x := Expand(s, i, conv, remaining);
      && (forall k :: i <= k < i + |x.pushed| ==> s(k).Item? && conv(s(k).value) == Ok(x.pushed[k - i]))
      && (x.error.None? <==> s(i + |x.pushed|).Stop?)
    decreases remaining
  {
    if remaining > 0 && s(i).Item? && conv(s(i).value).Ok? {
      ExpandMeaning(s, i + 1, conv, remaining - 1);
    }
  }

  function StreamOf<V, E>(items: seq<V>): Stream<V, E> {
    (n: nat) => if n < |items| then Item(items[n]) else Stop
  }

  function Verdict<E>(error: Option<ParamError<E>>): Result<(), ParamError<E>> {
    match error case None => Ok(()) case Some(e) => Err(e)
  }

  /** The loop up to item `i`: what has been pushed is a prefix of the whole expansion. */
  ghost predicate Expanding<V, E>(s: Stream<V, E>, conv: V -> Result<FastParameter, E>, budget: nat,
      i: nat, pushed: seq<FastParameter>, remaining: nat)
  {
    && |pushed| == i && remaining + i == budget
    && Expand(s, 0, conv, budget).pushed == pushed + Expand(s, i, conv, remaining).pushed
    && Expand(s, 0, conv, budget).error == Expand(s, i, conv, remaining).error
  }

  lemma ExpandingPushes<V, E>(s: Stream<V, E>, conv: V -> Result<FastParameter, E>, budget: nat,
      i: nat, pushed: seq<FastParameter>, remaining: nat, p: FastParameter)
    requires Expanding(s, conv, budget, i, pushed, remaining) && remaining > 0
    requires s(i).Item? && conv(s(i).value) == Ok(p)
    ensures Expanding(s, conv, budget, i + 1, pushed + [p], remaining - 1)
  {
    Assoc(pushed, [p], Expand(s, i + 1, conv, remaining - 1).pushed);
  }

  lemma ExpandingEnds<V, E>(s: Stream<V, E>, conv: V -> Result<FastParameter, E>, budget: nat,
      i: nat, pushed: seq<FastParameter>, remaining: nat)
    requires Expanding(s, conv, budget, i, pushed, remaining)
    ensures Expand(s, i, conv, remaining).pushed == [] ==> Expand(s, 0, conv, budget).pushed == pushed
  {
    assert pushed + [] == pushed;
  }

  /** The list and the tuple path: each item goes straight into the result. */
  method ExpandSequence<V, E>(items: seq<V>, conv: V -> Result<FastParameter, E>, result0: seq<FastParameter>,
      budget: nat)
    returns (r: Result<(), ParamError<E>>, result: seq<FastParameter>)
    ensures var x := Expand(StreamOf<V, E>(items), 0, conv, budget);
      r == Verdict(x.error) && result == result0 + x.pushed
  {
    ghost var s := StreamOf<V, E>(items);
    ghost var pushed: seq<FastParameter> := [];
    var remaining := budget;
    result := result0;
    for i := 0 to |items|
      invariant Expanding(s, conv, budget, i, pushed, remaining)
      invariant result == result0 + pushed
    {
      if remaining == 0 {
        return Err(ExpansionLimit), result;
      }
      match conv(items[i]) {
        case Err(e) => return Err(Raised(e)), result;
        case Ok(p) =>
          ExpandingPushes(s, conv, budget, i, pushed, remaining, p);
          Assoc(result0, pushed, [p]);
          result := result + [p];
          remaining := remaining - 1;
          pushed := pushed + [p];
      }
    }
    return Ok(()), result;
  }

  const BATCH: nat := 16

  /** Result and batch together are everything pushed; the batch is what does not fill sixteen. */
  ghost predicate Batching(result: seq<FastParameter>, batch: seq<FastParameter>, result0: seq<FastParameter>,
      pushed: seq<FastParameter>)
  {
    result + batch == result0 + pushed && |batch| == |pushed| % BATCH
  }

  lemma BatchPushes(result: seq<FastParameter>, batch: seq<FastParameter>, result0: seq<FastParameter>,
      pushed: seq<FastParameter>, p: FastParameter)
    requires Batching(result, batch, result0, pushed)
    ensures var next := batch + [p];
      && |next| <= BATCH
      && (|next| < BATCH ==> Batching(result, next, result0, pushed + [p]))
      && (|next| == BATCH ==> Batching(result + next, [], result0, pushed + [p]))
  {
    var next := batch + [p];
    Assoc(result, batch, [p]);
    Assoc(result0, pushed, [p]);
    assert (result + next) + [] == result + next;
    assert |pushed + [p]| == |pushed| + 1;
  }

  lemma Flushed(result: seq<FastParameter>, batch: seq<FastParameter>, result0: seq<FastParameter>,
      pushed: seq<FastParameter>)
    requires Batching(result, batch, result0, pushed)
    ensures result == result0 + pushed[..|pushed| / BATCH * BATCH]
  {
    var n := |pushed| / BATCH * BATCH;
    assert (result + batch)[..|result|] == result;
    assert (result0 + pushed)[..|result0| + n] == result0 + pushed[..n];
  }

  /**
   The generic iterator path: items are collected sixteen at a time. On an error the items of the
   unfinished batch never reach the result. `asked` counts the calls of `__next__`.
   */
  method ExpandIterator<V, E>(s: Stream<V, E>, conv: V -> Result<FastParameter, E>, result0: seq<FastParameter>,
      budget: nat)
    returns (r: Result<(), ParamError<E>>, result: seq<FastParameter>, asked: nat)
    ensures var x := Expand(s, 0, conv, budget);
      && r == Verdict(x.error) && asked == x.asked
      && result == result0 + (if r.Ok? then x.pushed else x.pushed[..|x.pushed| / BATCH * BATCH])
  {
    ghost var pushed: seq<FastParameter> := [];
    var batch: seq<FastParameter> := [];
    var remaining := budget;
    result, asked := result0, 0;
    while true
      invariant Expanding(s, conv, budget, asked, pushed, remaining)
      invariant Batching(result, batch, result0, pushed)
      decreases remaining
    {
      ExpandingEnds(s, conv, budget, asked, pushed, remaining);
      Flushed(result, batch, result0, pushed);
      var next := s(asked);
      asked := asked + 1;
      match next {
        case Stop =>
          break;
        case Raise(e) =>
          return Err(Raised(e)), result, asked;
        case Item(v) =>
          if remaining == 0 {
            return Err(ExpansionLimit), result, asked;
          }
          match conv(v) {
            case Err(e) => return Err(Raised(e)), result, asked;
            case Ok(p) =>
              ExpandingPushes(s, conv, budget, asked - 1, pushed, remaining, p);
              BatchPushes(result, batch, result0, pushed, p);
              batch := batch + [p];
              pushed := pushed + [p];
              remaining := remaining - 1;
              if |batch| == BATCH {
                result := result + batch;
                batch := [];
              }
          }
      }
    }
    if batch != [] {
      result := result + batch;
    }
    return Ok(()), result, asked;
  }

  // ----- when an expansion succeeds -----

  /** The stream yields exactly `n` items and then stops. */
  ghost predicate Ends<V, E>(s: Stream<V, E>, n: nat) {
    s(n).Stop? && forall j :: 0 <= j < n ==> s(j).Item?
  }

  lemma EndsOnce<V, E>(s: Stream<V, E>, m: nat, n: nat)
    requires Ends(s, m) && Ends(s, n)
    ensures m == n
  {
  }

  /** A stream that never stops is refused after at most `budget + 1` items, whatever it yields. */
  lemma EndlessStreamIsRefused<V, E>(s: Stream<V, E>, conv: V -> Result<FastParameter, E>, budget: nat)
    requires forall n :: !s(n).Stop?
    ensures var x := Expand(s, 0, conv, budget); x.error.Some? && x.asked <= budget + 1
  {
    ExpandMeaning(s, 0, conv, budget);
  }

  function Converts<V, E>(items: seq<V>, conv: V -> Result<FastParameter, E>): bool {
    forall j :: 0 <= j < |items| ==> conv(items[j]).Ok?
  }

  function Converted<V, E>(items: seq<V>, conv: V -> Result<FastParameter, E>): (p: seq<FastParameter>)
    requires Converts(items, conv)
    ensures |p| == |items|
  {
    seq(|items|, j requires 0 <= j < |items| => conv(items[j]).value)
  }

  ghost function ItemsUpTo<V, E>(s: Stream<V, E>, n: nat): (items: seq<V>)
    requires Ends(s, n)
    ensures |items| == n
  {
    seq(n, j requires 0 <= j < n => s(j).value)
  }

  /** An expansion succeeds exactly when the stream ends within the budget and every item converts. */
  lemma ExpandSucceeds<V, E>(s: Stream<V, E>, conv: V -> Result<FastParameter, E>, budget: nat)
    ensures var x := Expand(s, 0, conv, budget);
      && (x.error.None? <==> exists n: nat :: n <= budget && Ends(s, n) && Converts(ItemsUpTo(s, n), conv))
      && (x.error.None? ==> Ends(s, |x.pushed|) && Converts(ItemsUpTo(s, |x.pushed|), conv)
                            && x.pushed == Converted(ItemsUpTo(s, |x.pushed|), conv))
  {
    var x := Expand(s, 0, conv, budget);
    ExpandMeaning(s, 0, conv, budget);
    if x.error.None? {
      assert Ends(s, |x.pushed|);
      assert x.pushed == Converted(ItemsUpTo(s, |x.pushed|), conv);
    }
    forall n: nat | n <= budget && Ends(s, n) && Converts(ItemsUpTo(s, n), conv)
      ensures x.error.None?
    {
      ExpandReachesEnd(s, 0, conv, budget, n);
    }
  }

  lemma {:induction false} ExpandReachesEnd<V, E>(s: Stream<V, E>, i: nat, conv: V -> Result<FastParameter, E>,
      remaining: nat, n: nat)
    requires Ends(s, n) && Converts(ItemsUpTo(s, n), conv) && i <= n <= i + remaining
    ensures Expand(s, i, conv, remaining).error.None?
    decreases remaining
  {
    if i < n {
      assert conv(ItemsUpTo(s, n)[i]).Ok?;
      ExpandReachesEnd(s, i + 1, conv, remaining - 1, n);
    }
  }

  // ----- the whole list -----

  /** The stream behind an argument that is expanded. */
  function StreamOfArg<V, E>(arg: Arg<V, E>): Stream<V, E>
    requires arg.ListArg? || arg.TupleArg? || (arg.IterableArg? && arg.open.Ok?)
  {
    if arg.IterableArg? then arg.open.value else StreamOf(arg.items)
  }

  function Remaining(used: nat): nat {
    if used <= MAX_PARAMETERS then MAX_PARAMETERS - used else 0
  }

  /** Appends one argument to the result collected so far. */
  function PushArg<V, E>(arg: Arg<V, E>, conv: V -> Result<FastParameter, E>, result: seq<FastParameter>)
    : Result<seq<FastParameter>, ParamError<E>>
  {
    match arg
    case Scalar(v) => (match conv(v) case Err(e) => Err(Raised(e)) case Ok(p) => Ok(result + [p]))
    case ProbeRaises(e) => Err(Raised(e))
    case IterableArg(Err(e)) => Err(Raised(e))
    case _ =>
      var x := Expand(StreamOfArg(arg), 0, conv, Remaining(|result|));
      if x.error.Some? then Err(x.error.value) else Ok(result + x.pushed)
  }

  function PushArgs<V, E>(args: seq<Arg<V, E>>, conv: V -> Result<FastParameter, E>, result: seq<FastParameter>)
    : Result<seq<FastParameter>, ParamError<E>>
  {
    if args == [] then (if |result| > MAX_PARAMETERS then Err(LimitExceeded(|result|)) else Ok(result)) else
      match PushArg(args[0], conv, result)
      case Err(e) => Err(e)
      case Ok(next) => PushArgs(args[1..], conv, next)
  }

  function ListToFast<V, E>(args: seq<Arg<V, E>>, conv: V -> Result<FastParameter, E>)
    : Result<seq<FastParameter>, ParamError<E>>
  {
    if |args| > MAX_PARAMETERS then Err(TooManyArguments(|args|)) else PushArgs(args, conv, [])
  }

  /** `expand_iterable_to_fast_params`, choosing its path by the argument's type. */
  method ExpandArg<V, E>(arg: Arg<V, E>, conv: V -> Result<FastParameter, E>, result0: seq<FastParameter>)
    returns (r: Result<(), ParamError<E>>, result: seq<FastParameter>)
    requires arg.ListArg? || arg.TupleArg? || arg.IterableArg?
    ensures match PushArg(arg, conv, result0) case Ok(next) => r.Ok? && result == next case Err(e) => r == Err(e)
  {
    var remaining := Remaining(|result0|);
    match arg {
      case ListArg(items) => r, result := ExpandSequence(items, conv, result0, remaining);
      case TupleArg(items) => r, result := ExpandSequence(items, conv, result0, remaining);
      case IterableArg(Err(e)) => return Err(Raised(e)), result0;
      case IterableArg(Ok(s)) =>
        var asked;
        r, result, asked := ExpandIterator(s, conv, result0, remaining);
    }
  }

  method PythonParamsToFastParameters<V, E>(args: seq<Arg<V, E>>, conv: V -> Result<FastParameter, E>)
    returns (r: Result<seq<FastParameter>, ParamError<E>>)
    ensures r == ListToFast(args, conv)
  {
    if |args| > MAX_PARAMETERS {
      return Err(TooManyArguments(|args|));
    }
    var result: seq<FastParameter> := [];
    assert args[0..] == args;
    for i := 0 to |args|
      invariant PushArgs(args, conv, []) == PushArgs(args[i..], conv, result)
    {
      assert args[i..][1..] == args[i + 1..];
      match args[i] {
        case ProbeRaises(e) => return Err(Raised(e));
        case Scalar(v) =>
          match conv(v) {
            case Err(e) => return Err(Raised(e));
            case Ok(p) => result := result + [p];
          }
        case _ =>
          var expanded, next := ExpandArg(args[i], conv, result);
          if expanded.Err? {
            return Err(expanded.error);
          }
          result := next;
      }
    }
    if |result| > MAX_PARAMETERS {
      return Err(LimitExceeded(|result|));
    }
    return Ok(result);
  }

  // ----- conversion is depth-one flattening under a budget -----

  /** The values an argument contributes; None when obtaining them raises or never ends. */
  ghost function Yield<V, E>(arg: Arg<V, E>): Option<seq<V>> {
    match arg
    case Scalar(v) => Some([v])
    case ListArg(items) => Some(items)
    case TupleArg(items) => Some(items)
    case ProbeRaises(_) => None
    case IterableArg(Err(_)) => None
    case IterableArg(Ok(s)) =>
      if exists n :: Ends(s, n) then (var n :| Ends(s, n); Some(ItemsUpTo(s, n))) else None
  }

  /** All values of the list, one level deep, in order. */
  ghost function Flat<V, E>(args: seq<Arg<V, E>>): Option<seq<V>> {
    if args == [] then Some([]) else
      match (Yield(args[0]), Flat(args[1..]))
      case (Some(first), Some(rest)) => Some(first + rest)
      case _ => None
  }

  /** An argument is accepted exactly when its values can be had, convert, and (if expanded) fit the budget. */
  lemma PushArgMeaning<V, E>(arg: Arg<V, E>, conv: V -> Result<FastParameter, E>, result: seq<FastParameter>)
    ensures var r := PushArg(arg, conv, result);
      && (r.Ok? <==>
            Yield(arg).Some? && Converts(Yield(arg).value, conv)
            && (arg.Scalar? || |Yield(arg).value| <= Remaining(|result|)))
      && (r.Ok? ==> r.value == result + Converted(Yield(arg).value, conv))
  {
    match arg
    case Scalar(v) =>
      assert [v][0] == v;
      if conv(v).Ok? {
        assert Converted([v], conv) == [conv(v).value];
      }
    case ProbeRaises(_) =>
    case IterableArg(Err(_)) =>
    case _ =>
      var s, budget := StreamOfArg(arg), Remaining(|result|);
      var x := Expand(s, 0, conv, budget);
      ExpandSucceeds(s, conv, budget);
      if x.error.None? {
        YieldOfStream(arg, |x.pushed|);
      } else if Yield(arg).Some? {
        var n := YieldIsFinite(arg);
        YieldOfStream(arg, n);
      }
  }

  /** An expandable argument yields what its stream yields before it ends. */
  lemma YieldOfStream<V, E>(arg: Arg<V, E>, n: nat)
    requires arg.ListArg? || arg.TupleArg? || (arg.IterableArg? && arg.open.Ok?)
    requires Ends(StreamOfArg(arg), n)
    ensures Yield(arg) == Some(ItemsUpTo(StreamOfArg(arg), n))
  {
    var s := StreamOfArg(arg);
    if arg.IterableArg? {
      forall m | Ends(s, m) ensures m == n {
        EndsOnce(s, m, n);
      }
    } else {
      EndsOnce(s, n, |arg.items|);
      assert ItemsUpTo(s, n) == arg.items;
    }
  }

  lemma YieldIsFinite<V, E>(arg: Arg<V, E>) returns (n: nat)
    requires arg.ListArg? || arg.TupleArg? || (arg.IterableArg? && arg.open.Ok?)
    requires Yield(arg).Some?
    ensures Ends(StreamOfArg(arg), n)
  {
    if arg.IterableArg? {
      n :| Ends(arg.open.value, n);
    } else {
      n := |arg.items|;
    }
  }

  lemma ConvertedAppend<V, E>(a: seq<V>, b: seq<V>, conv: V -> Result<FastParameter, E>)
    ensures Converts(a + b, conv) <==> Converts(a, conv) && Converts(b, conv)
    ensures Converts(a + b, conv) ==> Converted(a + b, conv) == Converted(a, conv) + Converted(b, conv)
  {
    if Converts(a + b, conv) {
      forall j | 0 <= j < |a| ensures conv(a[j]).Ok? { assert (a + b)[j] == a[j]; }
      forall j | 0 <= j < |b| ensures conv(b[j]).Ok? { assert (a + b)[|a| + j] == b[j]; }
      assert Converted(a + b, conv) == Converted(a, conv) + Converted(b, conv);
    }
  }

  lemma {:induction false} PushArgsMeaning<V, E>(args: seq<Arg<V, E>>, conv: V -> Result<FastParameter, E>,
      result: seq<FastParameter>)
    ensures var r := PushArgs(args, conv, result);
      && (r.Ok? <==>
            Flat(args).Some? && Converts(Flat(args).value, conv)
            && |result| + |Flat(args).value| <= MAX_PARAMETERS)
      && (r.Ok? ==> r.value == result + Converted(Flat(args).value, conv))
  {
    if args == [] {
      assert result + [] == result;
    } else {
      PushArgMeaning(args[0], conv, result);
      if Yield(args[0]).Some? && Flat(args[1..]).Some? {
        var first, rest := Yield(args[0]).value, Flat(args[1..]).value;
        ConvertedAppend(first, rest, conv);
        if PushArg(args[0], conv, result).Ok? {
          PushArgsMeaning(args[1..], conv, PushArg(args[0], conv, result).value);
          if Converts(rest, conv) {
            Assoc(result, Converted(first, conv), Converted(rest, conv));
          }
        }
      } else if PushArg(args[0], conv, result).Ok? {
        PushArgsMeaning(args[1..], conv, PushArg(args[0], conv, result).value);
      }
    }
  }

  ghost predicate ListAccepted<V, E>(args: seq<Arg<V, E>>, conv: V -> Result<FastParameter, E>) {
    |args| <= 2100 && Flat(args).Some? && Converts(Flat(args).value, conv) && |Flat(args).value| <= 2100
  }

  // ----- which error a conversion reports -----

  /** The error of expanding a stream: a `__next__` that raises, an item over budget, or one that does not convert. */
  ghost predicate StreamError<V, E>(s: Stream<V, E>, conv: V -> Result<FastParameter, E>, budget: nat,
      e: ParamError<E>)
  {
    exists n: nat :: n <= budget && StreamErrorAt(s, conv, budget, n, e)
  }

  ghost predicate StreamErrorAt<V, E>(s: Stream<V, E>, conv: V -> Result<FastParameter, E>, budget: nat, n: nat,
      e: ParamError<E>)
  {
    && (forall j :: 0 <= j < n ==> s(j).Item? && conv(s(j).value).Ok?)
    && match s(n)
       case Stop => false
       case Raise(x) => e == Raised(x)
       case Item(v) => if n == budget then e == ExpansionLimit else conv(v).Err? && e == Raised(conv(v).error)
  }

  lemma ExpansionFails<V, E>(s: Stream<V, E>, conv: V -> Result<FastParameter, E>, budget: nat)
    requires Expand(s, 0, conv, budget).error.Some?
    ensures StreamError(s, conv, budget, Expand(s, 0, conv, budget).error.value)
  {
    var x := Expand(s, 0, conv, budget);
    ExpandMeaning(s, 0, conv, budget);
    ExpandError(s, 0, conv, budget);
    assert StreamErrorAt(s, conv, budget, |x.pushed|, x.error.value);
  }

  lemma {:induction false} ExpandError<V, E>(s: Stream<V, E>, i: nat, conv: V -> Result<FastParameter, E>,
      remaining: nat)
    ensures var x := Expand(s, i, conv, remaining);
      x.error.Some? ==>
        match s(i + |x.pushed|)
        case Stop => false
        case Raise(e) => x.error == Some(Raised(e))
        case Item(v) =>
          if |x.pushed| == remaining then x.error == Some(ExpansionLimit)
          else conv(v).Err? && x.error == Some(Raised(conv(v).error))
    decreases remaining
  {
    if remaining > 0 && s(i).Item? && conv(s(i).value).Ok? {
      ExpandError(s, i + 1, conv, remaining - 1);
    }
  }

  /** What refuses one argument when `used` parameters have been collected. */
  ghost predicate ArgError<V, E>(arg: Arg<V, E>, conv: V -> Result<FastParameter, E>, used: nat, e: ParamError<E>) {
    match arg
    case Scalar(v) => conv(v).Err? && e == Raised(conv(v).error)
    case ProbeRaises(x) => e == Raised(x)
    case IterableArg(Err(x)) => e == Raised(x)
    case IterableArg(Ok(s)) => StreamError(s, conv, Budget(used), e)
    case ListArg(items) => StreamError(StreamOf(items), conv, Budget(used), e)
    case TupleArg(items) => StreamError(StreamOf(items), conv, Budget(used), e)
  }

  function Budget(used: nat): nat { if used > 2100 then 0 else 2100 - used }

  /** What refuses a list: its first argument that is refused, or the total. */
  ghost predicate ArgsError<V, E>(args: seq<Arg<V, E>>, conv: V -> Result<FastParameter, E>, used: nat,
      e: ParamError<E>)
  {
    if args == [] then used > 2100 && e == LimitExceeded(used) else
      || ArgError(args[0], conv, used, e)
      || (Yield(args[0]).Some? && ArgsError(args[1..], conv, used + |Yield(args[0]).value|, e))
  }

  ghost predicate ListError<V, E>(args: seq<Arg<V, E>>, conv: V -> Result<FastParameter, E>, e: ParamError<E>) {
    if |args| > 2100 then e == TooManyArguments(|args|) else ArgsError(args, conv, 0, e)
  }

  lemma PushArgFails<V, E>(arg: Arg<V, E>, conv: V -> Result<FastParameter, E>, result: seq<FastParameter>)
    requires PushArg(arg, conv, result).Err?
    ensures ArgError(arg, conv, |result|, PushArg(arg, conv, result).error)
  {
    if arg.ListArg? || arg.TupleArg? || (arg.IterableArg? && arg.open.Ok?) {
      ExpansionFails(StreamOfArg(arg), conv, Budget(|result|));
    }
  }

  lemma {:induction false} PushArgsFails<V, E>(args: seq<Arg<V, E>>, conv: V -> Result<FastParameter, E>,
      result: seq<FastParameter>)
    requires PushArgs(args, conv, result).Err?
    ensures ArgsError(args, conv, |result|, PushArgs(args, conv, result).error)
  {
    if args != [] {
      if PushArg(args[0], conv, result).Err? {
        PushArgFails(args[0], conv, result);
      } else {
        PushArgMeaning(args[0], conv, result);
        PushArgsFails(args[1..], conv, PushArg(args[0], conv, result).value);
      }
    }
  }

  /**
   Conversion succeeds exactly when the outer list and its flattening each have at most 2100 entries,
   the flattening can be had at all, and every value converts; it then returns the flattening in order,
   and otherwise the error of what refuses the list first.
   */
  lemma ConversionIsFlattening<V, E>(args: seq<Arg<V, E>>, conv: V -> Result<FastParameter, E>)
    ensures var r := ListToFast(args, conv);
      && (r.Ok? <==> ListAccepted(args, conv))
      && (r.Ok? ==> r.value == Converted(Flat(args).value, conv))
      && (r.Err? ==> ListError(args, conv, r.error))
  {
    PushArgsMeaning(args, conv, []);
    if |args| <= MAX_PARAMETERS && ListToFast(args, conv).Err? {
      PushArgsFails(args, conv, []);
    }
    if Flat(args).Some? && Converts(Flat(args).value, conv) {
      assert [] + Converted(Flat(args).value, conv) == Converted(Flat(args).value, conv);
    }
  }

  // ----- batch items -----

  /** The `parameters` argument of a call, as `convert_parameters_to_fast` tells it apart. */
  datatype ParamsArg<!V, !E> =
    | NoParams
    | ParamList(args: seq<Arg<V, E>>)
    | ParametersObject(toList: Result<seq<Arg<V, E>>, E>)
    | OtherObject

  datatype CallError<E> = NotAListOrParameters | ToListRaised(error: E) | InParams(paramError: ParamError<E>)

  function ParamsToFast<V, E>(params: ParamsArg<V, E>, conv: V -> Result<FastParameter, E>)
    : Result<seq<FastParameter>, CallError<E>>
  {
    match params
    case NoParams => Ok([])
    case OtherObject => Err(NotAListOrParameters)
    case ParametersObject(Err(e)) => Err(ToListRaised(e))
    case ParametersObject(Ok(args)) => InCall(ListToFast(args, conv))
    case ParamList(args) => InCall(ListToFast(args, conv))
  }

  function InCall<E>(r: Result<seq<FastParameter>, ParamError<E>>): Result<seq<FastParameter>, CallError<E>> {
    match r case Ok(p) => Ok(p) case Err(e) => Err(InParams(e))
  }

  method ConvertParametersToFast<V, E>(params: ParamsArg<V, E>, conv: V -> Result<FastParameter, E>)
    returns (r: Result<seq<FastParameter>, CallError<E>>)
    ensures r == ParamsToFast(params, conv)
  {
    match params {
      case NoParams => return Ok([]);
      case OtherObject => return Err(NotAListOrParameters);
      case ParametersObject(Err(e)) => return Err(ToListRaised(e));
      case ParametersObject(Ok(args)) =>
        var p := PythonParamsToFastParameters(args, conv);
        return InCall(p);
      case ParamList(args) =>
        var p := PythonParamsToFastParameters(args, conv);
        return InCall(p);
    }
  }

  /** What the argument stands for: no parameters, or the flattening of the list it is or hands out. */
  ghost predicate ParamsMean<V, E>(params: ParamsArg<V, E>, conv: V -> Result<FastParameter, E>,
      p: seq<FastParameter>)
  {
    match params
    case NoParams => p == []
    case ParamList(args) => ListAccepted(args, conv) && p == Converted(Flat(args).value, conv)
    case ParametersObject(Ok(args)) => ListAccepted(args, conv) && p == Converted(Flat(args).value, conv)
    case ParametersObject(Err(_)) => false
    case OtherObject => false
  }

  ghost predicate ParamsRefused<V, E>(params: ParamsArg<V, E>, conv: V -> Result<FastParameter, E>, e: CallError<E>) {
    match params
    case NoParams => false
    case ParamList(args) => !ListAccepted(args, conv) && e.InParams? && ListError(args, conv, e.paramError)
    case ParametersObject(Ok(args)) => !ListAccepted(args, conv) && e.InParams? && ListError(args, conv, e.paramError)
    case ParametersObject(Err(x)) => e == ToListRaised(x)
    case OtherObject => e == NotAListOrParameters
  }

  /** A list and an object that hands out that list give the same parameters, its flattening, or the same refusal. */
  lemma ParamsToFastMeaning<V, E>(params: ParamsArg<V, E>, conv: V -> Result<FastParameter, E>)
    ensures match ParamsToFast(params, conv)
      case Ok(p) => ParamsMean(params, conv, p) && |p| <= 2100
      case Err(e) => ParamsRefused(params, conv, e)
  {
    match params
    case ParamList(args) => ConversionIsFlattening(args, conv);
    case ParametersObject(Ok(args)) => ConversionIsFlattening(args, conv);
    case _ =>
  }

  datatype BatchItem<!V, !E> =
    | NotATuple
    | WrongArity
    | SqlNotText(error: E)
    | Pair(sql: string, params: ParamsArg<V, E>)

  datatype BatchError<E> =
    | ItemNotATuple
    | ItemArity
    | ItemSql(error: E)
    | ItemParams(index: nat, callError: CallError<E>)
    | ItemOverLimit(index: nat, count: nat)

  datatype Prepared = Prepared(sql: string, params: seq<FastParameter>)

  /** The items from `i` on, parsed after those already in `parsed`. */
  function ParseFrom<V, E>(items: seq<BatchItem<V, E>>, conv: V -> Result<FastParameter, E>, i: nat,
      parsed: seq<Prepared>): Result<seq<Prepared>, BatchError<E>>
    requires i <= |items|
    decreases |items| - i
  {
    if i == |items| then Ok(parsed) else
      match items[i]
      case NotATuple => Err(ItemNotATuple)
      case WrongArity => Err(ItemArity)
      case SqlNotText(e) => Err(ItemSql(e))
      case Pair(sql, params) =>
        match ParamsToFast(params, conv)
        case Err(e) => Err(ItemParams(i, e))
        case Ok(p) =>
          if |p| > MAX_PARAMETERS then Err(ItemOverLimit(i, |p|))
          else ParseFrom(items, conv, i + 1, parsed + [Prepared(sql, p)])
  }

  method ParseBatchItems<V, E>(items: seq<BatchItem<V, E>>, conv: V -> Result<FastParameter, E>)
    returns (r: Result<seq<Prepared>, BatchError<E>>)
    ensures r == ParseFrom(items, conv, 0, [])
  {
    var parsed: seq<Prepared> := [];
    for i := 0 to |items|
      invariant ParseFrom(items, conv, 0, []) == ParseFrom(items, conv, i, parsed)
    {
      match items[i] {
        case NotATuple => return Err(ItemNotATuple);
        case WrongArity => return Err(ItemArity);
        case SqlNotText(e) => return Err(ItemSql(e));
        case Pair(sql, params) =>
          var p := ConvertParametersToFast(params, conv);
          if p.Err? {
            return Err(ItemParams(i, p.error));
          }
          if |p.value| > MAX_PARAMETERS {
            return Err(ItemOverLimit(i, |p.value|));
          }
          parsed := parsed + [Prepared(sql, p.value)];
      }
    }
    return Ok(parsed);
  }

  /** What one batch item must be to be parsed into `p`. */
  ghost predicate ParsesTo<V, E>(item: BatchItem<V, E>, conv: V -> Result<FastParameter, E>, p: Prepared) {
    item.Pair? && p.sql == item.sql && ParamsMean(item.params, conv, p.params)
  }

  /** What is reported of item `k` when it does not parse. */
  ghost predicate ItemError<V, E>(item: BatchItem<V, E>, conv: V -> Result<FastParameter, E>, k: nat,
      e: BatchError<E>)
  {
    match item
    case NotATuple => e == ItemNotATuple
    case WrongArity => e == ItemArity
    case SqlNotText(x) => e == ItemSql(x)
    case Pair(_, params) => e.ItemParams? && e.index == k && ParamsRefused(params, conv, e.callError)
  }

  /** The error is that of the first item from `i` on that does not parse. */
  ghost predicate FirstItemError<V, E>(items: seq<BatchItem<V, E>>, conv: V -> Result<FastParameter, E>, i: nat,
      e: BatchError<E>)
  {
    exists k :: i <= k < |items| && ItemError(items[k], conv, k, e) && forall j :: i <= j < k ==> Parses(items[j], conv)
  }

  ghost predicate Parses<V, E>(item: BatchItem<V, E>, conv: V -> Result<FastParameter, E>) {
    item.Pair? && exists p :: ParamsMean(item.params, conv, p)
  }

  /** What is refused means nothing. */
  lemma RefusedMeansNothing<V, E>(params: ParamsArg<V, E>, conv: V -> Result<FastParameter, E>)
    ensures (exists p :: ParamsMean(params, conv, p)) <==> ParamsToFast(params, conv).Ok?
  {
    ParamsToFastMeaning(params, conv);
    if ParamsToFast(params, conv).Ok? {
      assert ParamsMean(params, conv, ParamsToFast(params, conv).value);
    }
  }

  /**
   `parse_batch_items` succeeds exactly when every item parses on its own, and then has them in order; otherwise
   the error is the first bad item's. Its second limit check never fires.
   */
  lemma {:induction false} BatchItemsParse<V, E>(items: seq<BatchItem<V, E>>, conv: V -> Result<FastParameter, E>,
      i: nat, parsed: seq<Prepared>)
    requires i <= |items| && |parsed| == i && forall j :: 0 <= j < i ==> ParsesTo(items[j], conv, parsed[j])
    ensures var r := ParseFrom(items, conv, i, parsed);
      && (r.Ok? <==> forall j :: i <= j < |items| ==> Parses(items[j], conv))
      && (r.Ok? ==> |r.value| == |items| && forall j :: 0 <= j < |items| ==> ParsesTo(items[j], conv, r.value[j]))
      && (r.Err? ==> FirstItemError(items, conv, i, r.error) && !r.error.ItemOverLimit?)
    decreases |items| - i
  {
    if i < |items| {
      if items[i].Pair? {
        RefusedMeansNothing(items[i].params, conv);
        ParamsToFastMeaning(items[i].params, conv);
      }
      if Parses(items[i], conv) {
        var p := ParamsToFast(items[i].params, conv).value;
        BatchItemsParse(items, conv, i + 1, parsed + [Prepared(items[i].sql, p)]);
      } else {
        assert ItemError(items[i], conv, i, ParseFrom(items, conv, i, parsed).error);
      }
    }
  }
}
