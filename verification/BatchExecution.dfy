/**
 `execute_batch` and `execute_batch_on_connection` (src/batch.rs): a list of commands,
 either inside whatever transaction the connection has, or wrapped in one of its own
 on a dedicated connection.
 */
module BatchExecution {
  import opened Common
  import opened Server

  datatype Outcome<+T> = Done(value: T) | Error | Abandoned

  // ----- commands in sequence on an open connection -----

  /** Runs `commands[i..]`, with the counts collected so far in `counts`. */
  function RunFrom(w: World, commands: seq<Command>, wires: nat -> Wire, i: nat, counts: seq<nat>)
    : (World, Outcome<seq<nat>>)
    requires i <= |commands|
    decreases |commands| - i
  {
    if i == |commands| then (w, Done(counts)) else
      var (next, reply) := Sent(w, Run(commands[i]), wires(i));
      match reply
      case Failed => (next, Error)
      case Dropped => (next, Abandoned)
      case Replied(rows) => RunFrom(next, commands, wires, i + 1, counts + [Sum(rows)])
  }

  method ExecuteBatchOnConnection(conn: Client, commands: seq<Command>, wires: nat -> Wire)
    returns (r: Outcome<seq<nat>>)
    modifies conn
    ensures (conn.world, r) == RunFrom(old(conn.world), commands, wires, 0, [])
  {
    var allResults: seq<nat> := [];
    for i := 0 to |commands|
      invariant RunFrom(old(conn.world), commands, wires, 0, []) == RunFrom(conn.world, commands, wires, i, allResults)
    {
      var reply := conn.Send(Run(commands[i]), wires(i));
      match reply {
        case Failed => return Error;
        case Dropped => return Abandoned;
        case Replied(rows) => allResults := allResults + [Sum(rows)];
      }
    }
    return Done(allResults);
  }

  /** The log entries of the first `k` commands. */
  function Entries(commands: seq<Command>, wires: nat -> Wire, k: nat): (e: seq<Entry>)
    requires k <= |commands|
    ensures |e| == k
  {
    seq(k, i requires 0 <= i < k => Entry(commands[i], ReportedRows(wires(i))))
  }

  function ReportedRows(wire: Wire): seq<nat> {
    if wire.Refused? || wire.Doomed? then [] else wire.rows
  }

  function CountOf(wire: Wire): nat { Sum(ReportedRows(wire)) }

  function Counts(wires: nat -> Wire, k: nat): (c: seq<nat>)
    ensures |c| == k
  {
    seq<nat>(k, i requires 0 <= i < k => CountOf(wires(i)))
  }

  lemma CountsStep(wires: nat -> Wire, k: nat)
    ensures Counts(wires, k + 1) == Counts(wires, k) + [CountOf(wires(k))]
  {
  }

  /** How many commands are answered before the first that is not. */
  function AnsweredFrom(wires: nat -> Wire, i: nat, n: nat): (k: nat)
    requires i <= n
    ensures i <= k <= n
    ensures forall j :: i <= j < k ==> wires(j).Answered?
    ensures k < n ==> !wires(k).Answered?
    decreases n - i
  {
    if i == n || !wires(i).Answered? then i else AnsweredFrom(wires, i + 1, n)
  }

  /** What the command that ended the run did before it ended it. */
  function LastEffect(commands: seq<Command>, wires: nat -> Wire, k: nat): seq<Entry>
    requires k <= |commands|
  {
    if k < |commands| && (wires(k).Broken? || wires(k).Cancelled?) && wires(k).applied
    then [Entry(commands[k], wires(k).rows)] else []
  }

  /** The first command that is not answered is cancelled. */
  predicate StoppedByCancel(wires: nat -> Wire, i: nat, n: nat)
    requires i <= n
  {
    var k := AnsweredFrom(wires, i, n);
    k < n && wires(k).Cancelled?
  }

  /** A run succeeds when every command is answered, and then the i-th count belongs to the i-th command. */
  lemma {:induction false} RunFromResult(w: World, commands: seq<Command>, wires: nat -> Wire, i: nat, counts: seq<nat>)
    requires i <= |commands| && w.alive && counts == Counts(wires, i)
    ensures var (after, r) := RunFrom(w, commands, wires, i, counts);
      && (r.Done? <==> AnsweredFrom(wires, i, |commands|) == |commands|)
      && (r.Done? ==> r.value == Counts(wires, |commands|) && after.alive && after.depth == w.depth)
      && (r.Abandoned? <==> StoppedByCancel(wires, i, |commands|))
    decreases |commands| - i
  {
    if i < |commands| && wires(i).Answered? {
      CountsStep(wires, i);
      RunFromResult(Sent(w, Run(commands[i]), wires(i)).0, commands, wires, i + 1, Counts(wires, i + 1));
    }
  }

  /** The entries of commands `i` to `k`. */
  function EntriesFrom(commands: seq<Command>, wires: nat -> Wire, i: nat, k: nat): (e: seq<Entry>)
    requires i <= k <= |commands|
    ensures e == Entries(commands, wires, k)[i..]
    decreases k - i
  {
    if i == k then [] else
      var all := Entries(commands, wires, k);
      assert all[i..] == [all[i]] + all[i + 1..];
      [Entry(commands[i], ReportedRows(wires(i)))] + EntriesFrom(commands, wires, i + 1, k)
  }

  /** Outside a transaction each answered command is durable at once; the one that fails may be too. */
  lemma {:induction false} RunFromAutocommits(w: World, commands: seq<Command>, wires: nat -> Wire, i: nat,
      counts: seq<nat>)
    requires i <= |commands| && w.alive && w.depth == 0
    ensures var k := AnsweredFrom(wires, i, |commands|);
      var after := RunFrom(w, commands, wires, i, counts).0;
      && after.depth == 0
      && after.durable == w.durable + (EntriesFrom(commands, wires, i, k) + LastEffect(commands, wires, k))
    decreases |commands| - i
  {
    var k := AnsweredFrom(wires, i, |commands|);
    if i < k {
      var e := Entry(commands[i], wires(i).rows);
      RunFromAutocommits(Sent(w, Run(commands[i]), wires(i)).0, commands, wires, i + 1, counts + [CountOf(wires(i))]);
      var rest := EntriesFrom(commands, wires, i + 1, k);
      var last := LastEffect(commands, wires, k);
      Assoc([e], rest, last);
      Assoc(w.durable, [e], rest + last);
    }
  }

  /** Inside a transaction nothing becomes durable, and a finished run leaves its entries pending. */
  lemma {:induction false} RunFromStaysPending(w: World, commands: seq<Command>, wires: nat -> Wire, i: nat,
      counts: seq<nat>)
    requires i <= |commands| && w.alive && w.depth > 0
    ensures var (after, r) := RunFrom(w, commands, wires, i, counts);
      && after.durable == w.durable
      && (r.Done? ==> AnsweredFrom(wires, i, |commands|) == |commands|
                      && after.pending == w.pending + EntriesFrom(commands, wires, i, |commands|))
    decreases |commands| - i
  {
    if i < |commands| && wires(i).Answered? {
      var e := Entry(commands[i], wires(i).rows);
      RunFromStaysPending(Sent(w, Run(commands[i]), wires(i)).0, commands, wires, i + 1, counts + [CountOf(wires(i))]);
      if AnsweredFrom(wires, i, |commands|) == |commands| {
        Assoc(w.pending, [e], EntriesFrom(commands, wires, i + 1, |commands|));
      }
    }
  }

  // ----- the wrapped batch on a dedicated connection -----

  datatype Connecting = Connected | ConnectFailed | ConnectCancelled

  /** How each await of one `execute_batch` call ends. */
  datatype BatchWires = BatchWires(
    connect: Connecting, begin: Wire, commands: nat -> Wire, rollback: Wire, commit: Wire)

  /** A fresh connection to a database whose log is `durable`. */
  function Fresh(durable: seq<Entry>): World { World(durable, [], 0, true) }

  method ExecuteBatch(durable: seq<Entry>, commands: seq<Command>, wires: BatchWires)
    returns (r: Outcome<seq<nat>>, after: seq<Entry>)
    ensures (after, r) == BatchSpec(durable, commands, wires)
  {
    match wires.connect {
      case ConnectFailed => return Error, durable;
      case ConnectCancelled => return Abandoned, durable;
      case Connected =>
    }
    var conn := new Client(Fresh(durable));
    var begun := conn.Send(BeginTran, wires.begin);
    if !begun.Replied? {
      conn.Drop();
      return if begun.Failed? then Error else Abandoned, conn.world.durable;
    }
    var all := ExecuteBatchOnConnection(conn, commands, wires.commands);
    match all {
      case Abandoned =>
        conn.Drop();
        return Abandoned, conn.world.durable;
      case Error =>
        // Best-effort rollback: its own failure is ignored.
        var undone := conn.Send(RollbackTran, wires.rollback);
        conn.Drop();
        return if undone.Dropped? then Abandoned else Error, conn.world.durable;
      case Done(counts) =>
        var committed := conn.Send(CommitTran, wires.commit);
        conn.Drop();
        match committed {
          case Replied(_) => return Done(counts), conn.world.durable;
          case Failed => return Error, conn.world.durable;
          case Dropped => return Abandoned, conn.world.durable;
        }
    }
  }

  function BatchSpec(durable: seq<Entry>, commands: seq<Command>, wires: BatchWires): (seq<Entry>, Outcome<seq<nat>>) {
    if wires.connect.ConnectFailed? then (durable, Error)
    else if wires.connect.ConnectCancelled? then (durable, Abandoned)
    else
      var (w1, begun) := Sent(Fresh(durable), BeginTran, wires.begin);
      if begun.Failed? then (w1.durable, Error) else if begun.Dropped? then (w1.durable, Abandoned) else
      FinishSpec(w1, commands, wires)
  }

  /** The batch once its transaction has begun. */
  function FinishSpec(w: World, commands: seq<Command>, wires: BatchWires): (seq<Entry>, Outcome<seq<nat>>) {
    var (w2, all) := RunFrom(w, commands, wires.commands, 0, []);
    match all
    case Abandoned => (w2.durable, Abandoned)
    case Error =>
      var (w3, undone) := Sent(w2, RollbackTran, wires.rollback);
      (w3.durable, if undone.Dropped? then Abandoned else Error)
    case Done(counts) =>
      var (w3, committed) := Sent(w2, CommitTran, wires.commit);
      (w3.durable, match committed case Replied(_) => Done(counts) case Failed => Error case Dropped => Abandoned)
  }

  /** The COMMIT was reached and took effect, whether or not its reply arrived. */
  predicate TookEffect(commands: seq<Command>, wires: BatchWires) {
    && wires.connect.Connected?
    && wires.begin.Answered?
    && (forall i :: 0 <= i < |commands| ==> wires.commands(i).Answered?)
    && (wires.commit.Answered? || ((wires.commit.Broken? || wires.commit.Cancelled?) && wires.commit.applied))
  }

  /** All or nothing: whatever happens at any await, either every command is durable or none is. */
  lemma BatchIsAtomic(durable: seq<Entry>, commands: seq<Command>, wires: BatchWires)
    ensures var (after, r) := BatchSpec(durable, commands, wires);
      && (TookEffect(commands, wires) ==> after == durable + Entries(commands, wires.commands, |commands|))
      && (!TookEffect(commands, wires) ==> after == durable)
      && (r.Done? <==> TookEffect(commands, wires) && wires.commit.Answered?)
  {
    if wires.connect.Connected? && wires.begin.Answered? {
      var w1 := Sent(Fresh(durable), BeginTran, wires.begin).0;
      RunFromResult(w1, commands, wires.commands, 0, []);
      RunFromStaysPending(w1, commands, wires.commands, 0, []);
      var all := Entries(commands, wires.commands, |commands|);
      assert all[0..] == all && [] + all == all;
    }
  }

  lemma DroppedWhenCancelled(w: World, s: Statement, wire: Wire)
    ensures Sent(w, s, wire).1.Dropped? <==> wire.Cancelled?
  {
  }

  lemma FinishAbandoned(w: World, commands: seq<Command>, wires: BatchWires)
    requires w.alive
    ensures FinishSpec(w, commands, wires).1.Abandoned? <==>
      if AnsweredFrom(wires.commands, 0, |commands|) == |commands| then wires.commit.Cancelled?
      else StoppedByCancel(wires.commands, 0, |commands|) || wires.rollback.Cancelled?
  {
    RunFromResult(w, commands, wires.commands, 0, []);
    var (w2, all) := RunFrom(w, commands, wires.commands, 0, []);
    match all
    case Abandoned =>
    case Error => DroppedWhenCancelled(w2, RollbackTran, wires.rollback);
    case Done(_) => DroppedWhenCancelled(w2, CommitTran, wires.commit);
  }

  /** A batch ends in cancellation exactly when one of its awaits does; any other failure is an error. */
  lemma BatchAbandoned(durable: seq<Entry>, commands: seq<Command>, wires: BatchWires)
    ensures BatchSpec(durable, commands, wires).1.Abandoned? <==>
      || wires.connect.ConnectCancelled?
      || (wires.connect.Connected? && wires.begin.Cancelled?)
      || (wires.connect.Connected? && wires.begin.Answered? &&
          if AnsweredFrom(wires.commands, 0, |commands|) == |commands| then wires.commit.Cancelled?
          else StoppedByCancel(wires.commands, 0, |commands|) || wires.rollback.Cancelled?)
  {
    if wires.connect.Connected? && wires.begin.Answered? {
      FinishAbandoned(Sent(Fresh(durable), BeginTran, wires.begin).0, commands, wires);
    }
  }

  /** On success the i-th count is what the server reported for the i-th command. */
  lemma BatchCountsInOrder(durable: seq<Entry>, commands: seq<Command>, wires: BatchWires)
    requires BatchSpec(durable, commands, wires).1.Done?
    ensures var (after, r) := BatchSpec(durable, commands, wires);
      && |r.value| == |commands| && |after| == |durable| + |commands|
      && forall i :: 0 <= i < |commands| ==>
           after[|durable| + i].command == commands[i] && r.value[i] == Sum(after[|durable| + i].rows)
  {
    BatchIsAtomic(durable, commands, wires);
    var w1 := Sent(Fresh(durable), BeginTran, wires.begin).0;
    RunFromResult(w1, commands, wires.commands, 0, []);
  }
}
