/**
 What the database gains from a group of commands between a `begin` and the call that settles it
 (python/fastmssql/__init__.py over src/transaction.rs).
 */
module TransactionGroups {
  import opened Common
  import opened Server
  import opened BatchExecution
  import opened Transactions

  datatype Request = Request(command: Command, wire: Wire)

  function RunBody(s: TxState, body: seq<Request>): TxState
    decreases |body|
  {
    if body == [] then s else
      RunBody(ExecuteSpec(s, body[0].command, Connected, body[0].wire).0, body[1..])
  }

  predicate Executes(wire: Wire) {
    wire.Answered? || ((wire.Broken? || wire.Cancelled?) && wire.applied)
  }

  /** The entries of the commands the server executed; nothing runs on a connection that is lost. */
  function Executed(body: seq<Request>): seq<Entry> {
    if body == [] then [] else EntryOf(body[0]) + (if body[0].wire.Broken? then [] else Executed(body[1..]))
  }

  function EntryOf(q: Request): seq<Entry> {
    if Executes(q.wire) then [Entry(q.command, q.wire.rows)] else []
  }

  /** Those of them executed when no transaction was open any more: `doomed` says whether that is so at the start. */
  function Escaped(body: seq<Request>, doomed: bool): seq<Entry> {
    if body == [] then [] else
      (if doomed then EntryOf(body[0]) else [])
      + (if body[0].wire.Broken? then [] else Escaped(body[1..], doomed || body[0].wire.Doomed?))
  }

  /** No command dooms the transaction or breaks the connection. */
  predicate Sound(body: seq<Request>) {
    forall i :: 0 <= i < |body| ==> !body[i].wire.Doomed? && !body[i].wire.Broken?
  }

  /** The server executes a command after having doomed the transaction and before the connection breaks. */
  predicate Escapes(body: seq<Request>, doomed: bool) {
    if body == [] then false
    else if doomed && Executes(body[0].wire) then true
    else if body[0].wire.Broken? then false
    else Escapes(body[1..], doomed || body[0].wire.Doomed?)
  }

  /** The server executes a command while the transaction is still open. */
  predicate ExecutesBeforeDoom(body: seq<Request>) {
    body != [] && !body[0].wire.Doomed?
    && (Executes(body[0].wire) || (!body[0].wire.Broken? && ExecutesBeforeDoom(body[1..])))
  }

  /** A group is torn when some of its commands ran inside its transaction, and some after it was doomed. */
  predicate Torn(body: seq<Request>) {
    ExecutesBeforeDoom(body) && Escapes(body, false)
  }

  lemma {:induction false} EscapesIsEscaped(body: seq<Request>, doomed: bool)
    ensures Escapes(body, doomed) <==> Escaped(body, doomed) != []
  {
    if body != [] {
      EscapesIsEscaped(body[1..], doomed || body[0].wire.Doomed?);
    }
  }

  lemma {:induction false} AllEscapeWhenDoomed(body: seq<Request>)
    ensures Escaped(body, true) == Executed(body)
  {
    if body != [] {
      AllEscapeWhenDoomed(body[1..]);
    }
  }

  /** What escapes is everything exactly when nothing ran before the doom. */
  lemma {:induction false} EscapedIsAllOrLess(body: seq<Request>)
    ensures Escaped(body, false) == Executed(body) <==> !ExecutesBeforeDoom(body)
    ensures ExecutesBeforeDoom(body) ==> |Escaped(body, false)| < |Executed(body)|
    ensures |Escaped(body, false)| <= |Executed(body)|
  {
    if body != [] {
      if body[0].wire.Doomed? {
        AllEscapeWhenDoomed(body[1..]);
      } else if !body[0].wire.Broken? {
        EscapedIsAllOrLess(body[1..]);
      }
    }
  }

  /** A caller that stops at the first request that is not answered never tears a group. */
  lemma {:induction false} StoppingNeverTears(body: seq<Request>)
    requires forall i :: 0 <= i < |body| - 1 ==> body[i].wire.Answered?
    ensures !Escapes(body, false) && !Torn(body)
  {
    if |body| > 1 {
      StoppingNeverTears(body[1..]);
    }
  }

  /** After `begin`, before the call that settles the group; the server may have rolled the transaction back already. */
  predicate InGroup(s: TxState) {
    s.connected && s.flags == ACTIVE && s.world.alive && (s.world.depth == 0 ==> s.world.pending == [])
  }

  lemma {:induction false} DeadBody(s: TxState, body: seq<Request>)
    requires s.connected && !s.world.alive
    ensures RunBody(s, body) == s
    decreases |body|
  {
    if body != [] {
      DeadBody(s, body[1..]);
    }
  }

  lemma {:induction false} BodyKeepsLog(s: TxState, body: seq<Request>)
    requires s.connected
    ensures s.world.durable <= RunBody(s, body).world.durable
    ensures RunBody(s, body).connected && RunBody(s, body).flags == s.flags
    decreases |body|
  {
    if body != [] {
      BodyKeepsLog(ExecuteSpec(s, body[0].command, Connected, body[0].wire).0, body[1..]);
    }
  }

  /** What the body makes durable before the group is settled: exactly what escapes. */
  lemma {:induction false} BodyLeaves(s: TxState, body: seq<Request>)
    requires InGroup(s)
    ensures RunBody(s, body).world.durable == s.world.durable + Escaped(body, s.world.depth == 0)
    decreases |body|
  {
    if body == [] {
      Units(s.world.durable);
    } else {
      var wire, doomed := body[0].wire, s.world.depth == 0;
      var next := ExecuteSpec(s, body[0].command, Connected, wire).0;
      var first := if doomed then EntryOf(body[0]) else [];
      Units(s.world.durable);
      Units(first);
      assert next.world.durable == s.world.durable + first;
      if wire.Broken? {
        DeadBody(next, body[1..]);
      } else {
        BodyLeaves(next, body[1..]);
        Assoc(s.world.durable, first, Escaped(body[1..], doomed || wire.Doomed?));
      }
    }
  }

  /** Nothing of the group is durable before it is settled, exactly unless a command escapes a doomed transaction. */
  lemma BodyStaysPending(s: TxState, body: seq<Request>)
    requires InGroup(s)
    ensures RunBody(s, body).world.durable == s.world.durable <==> !Escapes(body, s.world.depth == 0)
  {
    BodyLeaves(s, body);
    EscapesIsEscaped(body, s.world.depth == 0);
    LongerDiffers(s.world.durable, Escaped(body, s.world.depth == 0));
  }

  lemma LongerDiffers<T>(a: seq<T>, b: seq<T>)
    ensures a == a + b <==> b == []
  {
    if b == [] {
      Units(a);
    }
  }

  /** The transaction stays open exactly while no command dooms it or breaks the connection, and then holds the body. */
  lemma {:induction false} SoundBodyPends(s: TxState, body: seq<Request>)
    requires InGroup(s) && s.world.depth > 0
    ensures Sound(body) ==>
      RunBody(s, body) == s.(world := s.world.(pending := s.world.pending + Executed(body)))
    ensures !Sound(body) ==> RunBody(s, body).world.depth == 0 && RunBody(s, body).world.pending == []
    decreases |body|
  {
    if body == [] {
      Units(s.world.pending);
    } else {
      var wire, tail := body[0].wire, body[1..];
      var next := ExecuteSpec(s, body[0].command, Connected, wire).0;
      Uncons(body);
      if wire.Broken? {
        DeadBody(next, tail);
        assert !Sound(body);
      } else if wire.Doomed? {
        assert !Sound(body);
        OutsideStaysOutside(next, tail);
      } else {
        Units(s.world.pending);
        Units(Executed(tail));
        SoundBodyPends(next, tail);
        SoundTail(body);
        Assoc(s.world.pending, EntryOf(body[0]), Executed(tail));
      }
    }
  }

  lemma SoundTail(body: seq<Request>)
    requires body != [] && !body[0].wire.Broken? && !body[0].wire.Doomed?
    ensures Sound(body) <==> Sound(body[1..])
  {
    if Sound(body[1..]) {
      forall i | 0 <= i < |body| ensures !body[i].wire.Doomed? && !body[i].wire.Broken? {
        if i > 0 {
          assert body[1..][i - 1] == body[i];
        }
      }
    }
  }

  lemma {:induction false} OutsideStaysOutside(s: TxState, body: seq<Request>)
    requires s.connected && s.world.depth == 0 && s.world.pending == []
    ensures RunBody(s, body).world.depth == 0 && RunBody(s, body).world.pending == []
    decreases |body|
  {
    if body != [] {
      OutsideStaysOutside(ExecuteSpec(s, body[0].command, Connected, body[0].wire).0, body[1..]);
    }
  }

  lemma {:induction false} SoundNeverEscapes(body: seq<Request>)
    requires Sound(body)
    ensures Escaped(body, false) == []
  {
    if body != [] {
      SoundNeverEscapes(body[1..]);
    }
  }

  /** The call that settles a group. */
  predicate Settles(op: Op) { op.Commit? || op.Rollback? || op.Close? || op.Exit? }

  /** `commit`, or leaving the block without an exception. */
  predicate Commits(op: Op) { op.Commit? || (op.Exit? && !op.raised) }

  /** Committing makes what is pending durable if this is the outermost transaction, and else nothing. */
  lemma CommitIsAtomic(s: TxState, wire: Wire)
    requires s.world.depth == 0 ==> s.world.pending == []
    ensures var (after, r) := CommitSpec(s, wire);
      var all := if s.world.depth == 1 then s.world.durable + s.world.pending else s.world.durable;
      && (after.world.durable == s.world.durable || after.world.durable == all)
      && (r.Done? ==> s.world.depth > 0 && after.world.durable == all)
  {
  }

  /** The settling call makes what is pending durable, or drops it. */
  lemma SettlingIsAtomic(s: TxState, op: Op)
    requires s.connected && s.flags == ACTIVE && (s.world.depth == 0 ==> s.world.pending == [])
    requires Settles(op)
    ensures var (after, r) := Step(s, op);
      var all := if s.world.depth == 1 then s.world.durable + s.world.pending else s.world.durable;
      && (after.world.durable == s.world.durable || after.world.durable == all)
      && (r.Done? && Commits(op) ==> s.world.depth > 0 && after.world.durable == all)
      && (!Commits(op) ==> after.world.durable == s.world.durable)
  {
    match op
    case Rollback(wire) => RollbackKeepsLog(s, wire);
    case Close(c) => CloseKeepsLog(s, c);
    case Commit(wire) => CommitIsAtomic(s, wire);
    case Exit(raised, settle, undo, close) =>
      CommitIsAtomic(s, settle);
      RollbackKeepsLog(s, settle);
      RollbackKeepsLog(CommitSpec(s, settle).0, undo);
      CloseKeepsLog(SettleSpec(s, raised, settle, undo).0, close);
  }

  /** A call inside a group: one command, or a batch of them. */
  datatype Call = Single(request: Request) | Batch(commands: seq<Command>, wires: nat -> Wire)

  function RunCalls(s: TxState, calls: seq<Call>): TxState
    decreases |calls|
  {
    if calls == [] then s else
      var next := match calls[0]
        case Single(q) => ExecuteSpec(s, q.command, Connected, q.wire).0
        case Batch(commands, wires) => ExecuteBatchSpec(s, commands, Connected, wires).0;
      RunCalls(next, calls[1..])
  }

  /** The requests a batch sends from its `i`-th command on: it stops after the first that is not answered. */
  function BatchRequests(commands: seq<Command>, wires: nat -> Wire, i: nat): seq<Request>
    requires i <= |commands|
    decreases |commands| - i
  {
    if i == |commands| then []
    else [Request(commands[i], wires(i))] + (if wires(i).Answered? then BatchRequests(commands, wires, i + 1) else [])
  }

  /** All requests of a group, in order. */
  function Requests(calls: seq<Call>): seq<Request> {
    if calls == [] then [] else
      (match calls[0] case Single(q) => [q] case Batch(commands, wires) => BatchRequests(commands, wires, 0))
      + Requests(calls[1..])
  }

  lemma {:induction false} RunBodyAppend(s: TxState, a: seq<Request>, b: seq<Request>)
    ensures RunBody(s, a + b) == RunBody(RunBody(s, a), b)
    decreases |a|
  {
    if a == [] {
      Units(b);
    } else {
      Uncons(a);
      Assoc([a[0]], a[1..], b);
      Cut([a[0]], a[1..] + b);
      RunBodyAppend(ExecuteSpec(s, a[0].command, Connected, a[0].wire).0, a[1..], b);
    }
  }

  /** On the group's connection a batch is the single commands it sends. */
  lemma {:induction false} BatchIsItsRequests(s: TxState, commands: seq<Command>, wires: nat -> Wire, i: nat,
      counts: seq<nat>)
    requires s.connected && i <= |commands|
    ensures s.(world := RunFrom(s.world, commands, wires, i, counts).0) == RunBody(s, BatchRequests(commands, wires, i))
    decreases |commands| - i
  {
    if i < |commands| {
      var (next, reply) := Sent(s.world, Run(commands[i]), wires(i));
      var s1 := s.(world := next);
      var first := [Request(commands[i], wires(i))];
      if wires(i).Answered? {
        Cut(first, BatchRequests(commands, wires, i + 1));
        if s.world.alive {
          BatchIsItsRequests(s1, commands, wires, i + 1, counts + [Sum(reply.rows)]);
        } else {
          DeadBody(s, BatchRequests(commands, wires, i));
        }
      } else {
        Units(first);
        assert RunBody(s1, first[1..]) == s1;
      }
    }
  }

  lemma {:induction false} CallsAreRequests(s: TxState, calls: seq<Call>)
    requires s.connected
    ensures RunCalls(s, calls) == RunBody(s, Requests(calls))
    decreases |calls|
  {
    if calls != [] {
      var sent := match calls[0] case Single(q) => [q] case Batch(commands, wires) => BatchRequests(commands, wires, 0);
      RunBodyAppend(s, sent, Requests(calls[1..]));
      BodyKeepsLog(s, sent);
      match calls[0] {
        case Single(q) => assert RunBody(s, [q]) == RunBody(ExecuteSpec(s, q.command, Connected, q.wire).0, [q][1..]);
        case Batch(commands, wires) => BatchIsItsRequests(s, commands, wires, 0, []);
      }
      CallsAreRequests(RunBody(s, sent), calls[1..]);
    }
  }

  /** A successful `begin` opens a transaction on a live connection, and changes nothing durable. */
  lemma BeginOpensGroup(s: TxState, connect: Connecting, wire: Wire)
    requires Settled(s) && BeginSpec(s, connect, wire).1.Done?
    ensures var next := BeginSpec(s, connect, wire).0;
      && InGroup(next) && next.world.depth == s.world.depth + 1
      && next.world.durable == s.world.durable && next.world.pending == s.world.pending
      && (Tracks(s) ==> s.world.depth == 0)
  {
  }

  /** What a group leaves when it is settled from inside its transaction or after losing it. */
  lemma GroupLeaves(s: TxState, calls: seq<Call>, op: Op)
    requires InGroup(s) && s.world.depth > 0 && (s.world.depth == 1 ==> s.world.pending == [])
    requires Settles(op)
    ensures var (after, r) := Step(RunCalls(s, calls), op);
      var body := Requests(calls);
      var early, all := s.world.durable + Escaped(body, false), s.world.durable + Executed(body);
      && (after.world.durable == early
        || (s.world.depth == 1 && after.world.durable == all && Escaped(body, false) == []))
      && (r.Done? && Commits(op) ==>
            Escaped(body, false) == [] && after.world.durable == if s.world.depth == 1 then all else s.world.durable)
      && (!Commits(op) ==> after.world.durable == early)
  {
    var body := Requests(calls);
    var before := RunBody(s, body);
    CallsAreRequests(s, calls);
    BodyLeaves(s, body);
    BodyKeepsLog(s, body);
    SoundBodyPends(s, body);
    SettlingIsAtomic(before, op);
    Units(s.world.durable);
    Units(Executed(body));
    if Sound(body) {
      SoundNeverEscapes(body);
    }
  }

  /**
   All or nothing, in every run: from a successful `begin` to the call that settles it, the database gains all the
   commands the server executed in between, one by one or in batches, or none of them, exactly unless the group
   is torn. `rollback`, `close` and leaving by an exception gain just what escaped. A commit or a clean exit that
   reports success gains all, exactly if the `begin` opened the outermost transaction or there is nothing to
   gain; and it is the outermost when no earlier `begin` was orphaned.
   */
  lemma GroupIsAtomic(durable: seq<Entry>, ops: seq<Op>, connect: Connecting, wire: Wire, calls: seq<Call>, op: Op)
    requires BeginSpec(RunOps(Start(durable), ops), connect, wire).1.Done? && Settles(op)
    ensures var s := RunOps(Start(durable), ops);
      var begun := BeginSpec(s, connect, wire).0;
      var (after, r) := Step(RunCalls(begun, calls), op);
      var body := Requests(calls);
      var all := s.world.durable + Executed(body);
      && (after.world.durable == s.world.durable || after.world.durable == all <==> !Torn(body))
      && (!Commits(op) ==> after.world.durable == s.world.durable + Escaped(body, false))
      && (r.Done? && Commits(op) ==> (after.world.durable == all <==> s.world.depth == 0 || Executed(body) == []))
      && (NoOrphanedBegin(Start(durable), ops) ==> s.world.depth == 0)
  {
    var s := RunOps(Start(durable), ops);
    var body := Requests(calls);
    RunSettles(Start(durable), ops);
    BeginOpensGroup(s, connect, wire);
    GroupLeaves(BeginSpec(s, connect, wire).0, calls, op);
    KeptOrAll(s.world.durable, body);
    LongerDiffers(s.world.durable, Executed(body));
    if NoOrphanedBegin(Start(durable), ops) {
      RunTracks(Start(durable), ops);
      RunEndsTracking(Start(durable), ops);
    }
  }

  /** What escapes is nothing or everything exactly when the group is not torn. */
  lemma KeptOrAll(log: seq<Entry>, body: seq<Request>)
    ensures log + Escaped(body, false) == log || log + Escaped(body, false) == log + Executed(body) <==> !Torn(body)
    ensures Escaped(body, false) == [] ==> !Torn(body)
  {
    EscapesIsEscaped(body, false);
    EscapedIsAllOrLess(body);
    LongerDiffers(log, Escaped(body, false));
    assert |log + Escaped(body, false)| == |log| + |Escaped(body, false)|;
    assert |log + Executed(body)| == |log| + |Executed(body)|;
  }

  /** A torn group: the command after the doomed one is durable, the one before it is lost, and no commit was made. */
  lemma EscapingCommandIsDurable(s: TxState, a: Command, b: Command, c: Command)
    requires InGroup(s) && s.world.depth == 1 && s.world.pending == []
    ensures var body := [Request(a, Answered([1])), Request(b, Doomed), Request(c, Answered([1]))];
      && Torn(body) && Executed(body) == [Entry(a, [1]), Entry(c, [1])]
      && Step(RunBody(s, body), Op.Close(Taken(Answered([])))).0.world.durable == s.world.durable + [Entry(c, [1])]
  {
    var body := [Request(a, Answered([1])), Request(b, Doomed), Request(c, Answered([1]))];
    var s1 := ExecuteSpec(s, a, Connected, Answered([1])).0;
    var s2 := ExecuteSpec(s1, b, Connected, Doomed).0;
    var s3 := ExecuteSpec(s2, c, Connected, Answered([1])).0;
    var last := [Request(c, Answered([1]))];
    assert body[1..][1..] == last && last[1..] == [];
    assert Executed(last) == [Entry(c, [1])] + Executed(last[1..]) == [Entry(c, [1])];
    assert Executed(body[1..]) == [] + Executed(last) == [Entry(c, [1])];
    assert Escapes(last, true);
    assert Escapes(body[1..], false);
    assert RunBody(s3, []) == s3;
    assert RunBody(s2, last) == s3;
    assert RunBody(s1, body[1..]) == s3;
  }
}
