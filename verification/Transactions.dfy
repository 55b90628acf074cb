/**
 The Python `Transaction` (python/fastmssql/__init__.py): three flags over the connection slot of the
 Rust `Transaction` (src/transaction.rs). Calls do not overlap; each await can fail or be cancelled.
 */
module Transactions {
  import opened Common
  import opened Server
  import opened BatchExecution

  datatype Flags = Flags(begun: bool, committed: bool, rolledBack: bool)

  const CLEAR: Flags := Flags(false, false, false)
  const ACTIVE: Flags := Flags(true, false, false)

  /** `connected` says whether the slot holds a connection; `world` is that connection and its database. */
  datatype TxState = TxState(flags: Flags, connected: bool, world: World)

  /** How the awaits of `close` end: cancelled before the slot is emptied, or after, with this wire. */
  datatype CloseWire = NotStarted | Taken(wire: Wire)

  predicate Interrupted(c: CloseWire) { c.NotStarted? || c.wire.Cancelled? }

  // ----- specification: one step per call -----

  function Ended(reply: Reply): Outcome<()> {
    match reply case Replied(_) => Done(()) case Failed => Error case Dropped => Abandoned
  }

  function Sends(s: TxState, st: Statement, wire: Wire): (TxState, Outcome<()>) {
    var (world, reply) := Sent(s.world, st, wire);
    (s.(world := world), Ended(reply))
  }

  function Connects(s: TxState, connect: Connecting): (TxState, Outcome<()>) {
    if s.connected then (s, Done(())) else
      match connect
      case ConnectFailed => (s, Error)
      case ConnectCancelled => (s, Abandoned)
      case Connected => (s.(connected := true, world := Fresh(s.world.durable)), Done(()))
  }

  /** `begin` first forgets a transaction that has been settled. */
  function Reusable(flags: Flags): Flags {
    if flags.committed || flags.rolledBack then CLEAR else flags
  }

  function BeginSpec(s: TxState, connect: Connecting, wire: Wire): (TxState, Outcome<()>) {
    var s0 := s.(flags := Reusable(s.flags));
    if s0.flags.begun then (s0, Error) else
      var (s1, c) := Connects(s0, connect);
      if !c.Done? then (s1, c) else
        var (s2, r) := Sends(s1, BeginTran, wire);
        (if r.Done? then s2.(flags := s2.flags.(begun := true)) else s2, r)
  }

  function CommitSpec(s: TxState, wire: Wire): (TxState, Outcome<()>) {
    if s.flags != ACTIVE || !s.connected then (s, Error) else
      var (s1, r) := Sends(s, CommitTran, wire);
      (if r.Done? then s1.(flags := s1.flags.(committed := true)) else s1, r)
  }

  function RollbackSpec(s: TxState, wire: Wire): (TxState, Outcome<()>) {
    if s.flags != ACTIVE || !s.connected then (s, Error) else
      var (s1, r) := Sends(s, RollbackTran, wire);
      (if r.Done? then s1.(flags := s1.flags.(rolledBack := true)) else s1, r)
  }

  /** A call that did not get its connection ends as the connecting did. */
  function Unconnected<T>(c: Outcome<()>): Outcome<T> {
    if c.Abandoned? then Abandoned else Error
  }

  /** `execute` returns the sum of the reported row counts. */
  function ExecuteSpec(s: TxState, command: Command, connect: Connecting, wire: Wire): (TxState, Outcome<nat>) {
    var (s1, c) := Connects(s, connect);
    if !c.Done? then (s1, Unconnected(c)) else
      var (world, reply) := Sent(s1.world, Run(command), wire);
      (s1.(world := world),
        match reply case Replied(rows) => Done(Sum(rows)) case Failed => Error case Dropped => Abandoned)
  }

  /** `execute_batch` returns one count a command, and opens no transaction of its own. */
  function ExecuteBatchSpec(s: TxState, commands: seq<Command>, connect: Connecting, wires: nat -> Wire)
    : (TxState, Outcome<seq<nat>>)
  {
    var (s1, c) := Connects(s, connect);
    if !c.Done? then (s1, Unconnected(c)) else
      var (world, r) := RunFrom(s1.world, commands, wires, 0, []);
      (s1.(world := world), r)
  }

  /** The slot is emptied before the best-effort rollback, and the connection is dropped after it. */
  function CloseSpec(s: TxState, c: CloseWire): (TxState, Outcome<()>) {
    if c.NotStarted? then (s, Abandoned) else
      var world := if s.connected then Disconnected(Sent(s.world, RollbackIfOpen, c.wire).0) else s.world;
      if c.wire.Cancelled? then (s.(connected := false, world := world), Abandoned)
      else (TxState(CLEAR, false, world), Done(()))
  }

  /** The body of `__aexit__` before its `finally`: settle the transaction unless that has been done. */
  function SettleSpec(s: TxState, raised: bool, settle: Wire, undo: Wire): (TxState, Outcome<()>) {
    if s.flags.committed || s.flags.rolledBack then (s, Done(()))
    else if raised then
      var (s1, r) := RollbackSpec(s, settle);
      (s1, if r.Abandoned? then Abandoned else Done(()))
    else
      var (s1, r) := CommitSpec(s, settle);
      if !r.Error? then (s1, r) else
        var (s2, u) := RollbackSpec(s1, undo);
        (s2, if u.Abandoned? then Abandoned else Error)
  }

  function ExitSpec(s: TxState, raised: bool, settle: Wire, undo: Wire, close: CloseWire): (TxState, Outcome<()>) {
    var (s1, r) := SettleSpec(s, raised, settle, undo);
    var (s2, c) := CloseSpec(s1, close);
    (s2, if c.Abandoned? then Abandoned else r)
  }

  // ----- the class -----

  class Transaction {
    var begun: bool
    var committed: bool
    var rolledBack: bool
    var connected: bool
    var world: World

    function State(): TxState
      reads this
    {
      TxState(Flags(begun, committed, rolledBack), connected, world)
    }

    constructor (durable: seq<Entry>)
      ensures State() == Start(durable)
    {
      begun, committed, rolledBack, connected := false, false, false, false;
      world := Disconnected(Fresh(durable));
    }

    method ResetTransactionFlags()
      modifies this`begun, this`committed, this`rolledBack
      ensures State() == old(State()).(flags := CLEAR)
    {
      begun := false;
      committed := false;
      rolledBack := false;
    }

    /** `_validate_transaction_flags`: false where the source raises. */
    function ValidateTransactionFlags(): (ok: bool)
      reads this
      ensures ok <==> State().flags == ACTIVE
    {
      if !begun then false else if committed then false else !rolledBack
    }

    // The connection slot.

    method SendOnSlot(st: Statement, wire: Wire) returns (r: Outcome<()>)
      modifies this`world
      ensures (State(), r) == Sends(old(State()), st, wire)
    {
      var (next, reply) := Sent(world, st, wire);
      world := next;
      return Ended(reply);
    }

    method EnsureConnected(connect: Connecting) returns (r: Outcome<()>)
      modifies this`connected, this`world
      ensures (State(), r) == Connects(old(State()), connect)
    {
      if !connected {
        if connect.ConnectFailed? {
          return Error;
        }
        if connect.ConnectCancelled? {
          return Abandoned;
        }
        world := Fresh(world.durable);
        connected := true;
      }
      return Done(());
    }

    method ExecuteTransactionCommand(st: Statement, wire: Wire) returns (r: Outcome<()>)
      modifies this`world
      ensures (State(), r) == if old(connected) then Sends(old(State()), st, wire) else (old(State()), Error)
    {
      if !connected {
        return Error;
      }
      r := SendOnSlot(st, wire);
    }

    method CloseSlot(c: CloseWire) returns (r: Outcome<()>)
      modifies this`connected, this`world
      ensures (State().(flags := CloseSpec(old(State()), c).0.flags), r) == CloseSpec(old(State()), c)
      ensures State().flags == old(State().flags)
    {
      if c.NotStarted? {
        return Abandoned;
      }
      if connected {
        connected := false;
        var _ := SendOnSlot(RollbackIfOpen, c.wire);
        world := Disconnected(world);
      }
      return if c.wire.Cancelled? then Abandoned else Done(());
    }

    // The wrapper.

    method Begin(connect: Connecting, wire: Wire) returns (r: Outcome<()>)
      modifies this
      ensures (State(), r) == BeginSpec(old(State()), connect, wire)
    {
      if committed || rolledBack {
        ResetTransactionFlags();
      }
      if begun {
        return Error;
      }
      r := EnsureConnected(connect);
      if r.Done? {
        r := SendOnSlot(BeginTran, wire);
      }
      if r.Done? {
        begun := true;
      }
    }

    method Commit(wire: Wire) returns (r: Outcome<()>)
      modifies this
      ensures (State(), r) == CommitSpec(old(State()), wire)
    {
      if !ValidateTransactionFlags() {
        return Error;
      }
      r := ExecuteTransactionCommand(CommitTran, wire);
      if r.Done? {
        committed := true;
      }
    }

    method Rollback(wire: Wire) returns (r: Outcome<()>)
      modifies this
      ensures (State(), r) == RollbackSpec(old(State()), wire)
    {
      if !ValidateTransactionFlags() {
        return Error;
      }
      r := ExecuteTransactionCommand(RollbackTran, wire);
      if r.Done? {
        rolledBack := true;
      }
    }

    method Execute(command: Command, connect: Connecting, wire: Wire) returns (r: Outcome<nat>)
      modifies this
      ensures (State(), r) == ExecuteSpec(old(State()), command, connect, wire)
    {
      var c := EnsureConnected(connect);
      if !c.Done? {
        return Unconnected(c);
      }
      var conn := new Client(world);
      var reply := conn.Send(Run(command), wire);
      world := conn.world;
      match reply {
        case Replied(rows) => return Done(Sum(rows));
        case Failed => return Error;
        case Dropped => return Abandoned;
      }
    }

    method ExecuteBatch(commands: seq<Command>, connect: Connecting, wires: nat -> Wire) returns (r: Outcome<seq<nat>>)
      modifies this
      ensures (State(), r) == ExecuteBatchSpec(old(State()), commands, connect, wires)
    {
      var c := EnsureConnected(connect);
      if !c.Done? {
        return Unconnected(c);
      }
      var conn := new Client(world);
      r := ExecuteBatchOnConnection(conn, commands, wires);
      world := conn.world;
    }

    method Close(c: CloseWire) returns (r: Outcome<()>)
      modifies this
      ensures (State(), r) == CloseSpec(old(State()), c)
    {
      r := CloseSlot(c);
      if r.Done? {
        ResetTransactionFlags();
      }
    }

    /** `__aexit__`: settle, then close in any case; a failed commit is raised again, a cancellation wins. */
    method Exit(raised: bool, settle: Wire, undo: Wire, close: CloseWire) returns (r: Outcome<()>)
      modifies this
      ensures (State(), r) == ExitSpec(old(State()), raised, settle, undo, close)
    {
      r := Done(());
      if raised {
        if !committed && !rolledBack {
          var rolled := Rollback(settle);
          r := if rolled.Abandoned? then Abandoned else Done(());
        }
      } else if !committed && !rolledBack {
        r := Commit(settle);
        if r.Error? {
          var rolled := Rollback(undo);
          r := if rolled.Abandoned? then Abandoned else Error;
        }
      }
      var closed := Close(close);
      if closed.Abandoned? {
        return Abandoned;
      }
      if r.Done? {
        ResetTransactionFlags();
      }
    }
  }

  // ----- runs of calls -----

  datatype Op =
    | Begin(connect: Connecting, wire: Wire)
    | Commit(wire: Wire)
    | Rollback(wire: Wire)
    | Execute(command: Command, connect: Connecting, wire: Wire)
    | ExecuteBatch(commands: seq<Command>, connect: Connecting, wires: nat -> Wire)
    | Close(c: CloseWire)
    | Exit(raised: bool, settle: Wire, undo: Wire, close: CloseWire)

  function WithoutCounts<T>(r: Outcome<T>): Outcome<()> {
    match r case Done(_) => Done(()) case Error => Error case Abandoned => Abandoned
  }

  function Step(s: TxState, op: Op): (TxState, Outcome<()>) {
    match op
    case Begin(connect, wire) => BeginSpec(s, connect, wire)
    case Commit(wire) => CommitSpec(s, wire)
    case Rollback(wire) => RollbackSpec(s, wire)
    case Execute(command, connect, wire) =>
      var (next, r) := ExecuteSpec(s, command, connect, wire);
      (next, WithoutCounts(r))
    case ExecuteBatch(commands, connect, wires) =>
      var (next, r) := ExecuteBatchSpec(s, commands, connect, wires);
      (next, WithoutCounts(r))
    case Close(c) => CloseSpec(s, c)
    case Exit(raised, settle, undo, close) => ExitSpec(s, raised, settle, undo, close)
  }

  function RunOps(s: TxState, ops: seq<Op>): TxState
    decreases |ops|
  {
    if ops == [] then s else RunOps(Step(s, ops[0]).0, ops[1..])
  }

  function Start(durable: seq<Entry>): TxState {
    TxState(CLEAR, false, Disconnected(Fresh(durable)))
  }

  /** The flags are idle, active, committed or rolled back, and nothing else. */
  predicate FlagsOk(flags: Flags) {
    flags in {CLEAR, ACTIVE, Flags(true, true, false), Flags(true, false, true)}
  }

  /** An open server transaction is the one the flags call active, and there is at most one. */
  predicate Tracks(s: TxState) {
    s.world.depth <= 1 && (s.world.depth == 1 ==> s.flags == ACTIVE)
  }

  predicate Settled(s: TxState) {
    && FlagsOk(s.flags)
    && (s.world.depth == 0 ==> s.world.pending == [])
    && (!s.connected ==> s.world.depth == 0 && !s.world.alive)
    && (!s.world.alive ==> s.world.depth == 0)
  }

  /** A `begin` that passes its flag check and is cancelled after the server has executed BEGIN. */
  predicate OrphansBegin(s: TxState, op: Op) {
    && op.Begin? && s.flags != ACTIVE
    && (if s.connected then s.world.alive else op.connect.Connected?)
    && op.wire.Cancelled? && op.wire.applied
  }

  lemma {:induction false} BatchKeepsWorld(w: World, commands: seq<Command>, wires: nat -> Wire, i: nat,
      counts: seq<nat>)
    requires i <= |commands| && (w.depth == 0 ==> w.pending == []) && (!w.alive ==> w.depth == 0)
    ensures var after := RunFrom(w, commands, wires, i, counts).0;
      && (after.depth == w.depth || after.depth == 0)
      && (after.depth == 0 ==> after.pending == []) && (!after.alive ==> after.depth == 0)
      && (!w.alive ==> after == w)
    decreases |commands| - i
  {
    if i < |commands| {
      var (next, reply) := Sent(w, Run(commands[i]), wires(i));
      if reply.Replied? {
        BatchKeepsWorld(next, commands, wires, i + 1, counts + [Sum(reply.rows)]);
      }
    }
  }

  /** The call leaves a settled state, in step with the server if it was before. */
  predicate InStep(s: TxState, next: TxState) {
    Settled(next) && (Tracks(s) ==> Tracks(next))
  }

  lemma BeginTracks(s: TxState, connect: Connecting, wire: Wire)
    requires Settled(s)
    ensures var next := BeginSpec(s, connect, wire).0;
      Settled(next) && (Tracks(s) ==> (Tracks(next) <==> !OrphansBegin(s, Op.Begin(connect, wire))))
  {
  }

  lemma CommitTracks(s: TxState, wire: Wire)
    requires Settled(s)
    ensures InStep(s, CommitSpec(s, wire).0)
  {
  }

  lemma RollbackTracks(s: TxState, wire: Wire)
    requires Settled(s)
    ensures InStep(s, RollbackSpec(s, wire).0)
  {
  }

  lemma ConnectsTracks(s: TxState, connect: Connecting)
    requires Settled(s)
    ensures InStep(s, Connects(s, connect).0)
  {
  }

  lemma ExecuteTracks(s: TxState, command: Command, connect: Connecting, wire: Wire)
    requires Settled(s)
    ensures InStep(s, ExecuteSpec(s, command, connect, wire).0)
  {
    ConnectsTracks(s, connect);
  }

  lemma ExecuteBatchTracks(s: TxState, commands: seq<Command>, connect: Connecting, wires: nat -> Wire)
    requires Settled(s)
    ensures InStep(s, ExecuteBatchSpec(s, commands, connect, wires).0)
  {
    ConnectsTracks(s, connect);
    BatchKeepsWorld(Connects(s, connect).0.world, commands, wires, 0, []);
  }

  lemma CloseTracks(s: TxState, c: CloseWire)
    requires Settled(s)
    ensures InStep(s, CloseSpec(s, c).0)
  {
  }

  lemma SettleTracks(s: TxState, raised: bool, settle: Wire, undo: Wire)
    requires Settled(s)
    ensures InStep(s, SettleSpec(s, raised, settle, undo).0)
  {
    CommitTracks(s, settle);
    RollbackTracks(s, settle);
    RollbackTracks(CommitSpec(s, settle).0, undo);
  }

  lemma ExitTracks(s: TxState, raised: bool, settle: Wire, undo: Wire, close: CloseWire)
    requires Settled(s)
    ensures InStep(s, ExitSpec(s, raised, settle, undo, close).0)
  {
    SettleTracks(s, raised, settle, undo);
    CloseTracks(SettleSpec(s, raised, settle, undo).0, close);
  }

  /**
   Every call keeps the flags in their four values and the slot consistent, in step with the server or not; where
   they are in step they stay so exactly unless the call orphans a BEGIN.
   */
  lemma StepTracks(s: TxState, op: Op)
    requires Settled(s)
    ensures Settled(Step(s, op).0)
    ensures Tracks(s) ==> (Tracks(Step(s, op).0) <==> !OrphansBegin(s, op))
  {
    match op
    case Begin(connect, wire) => BeginTracks(s, connect, wire);
    case Commit(wire) => CommitTracks(s, wire);
    case Rollback(wire) => RollbackTracks(s, wire);
    case Execute(command, connect, wire) => ExecuteTracks(s, command, connect, wire);
    case ExecuteBatch(commands, connect, wires) => ExecuteBatchTracks(s, commands, connect, wires);
    case Close(c) => CloseTracks(s, c);
    case Exit(raised, settle, undo, close) => ExitTracks(s, raised, settle, undo, close);
  }

  /** Every state of every run is settled, orphaned BEGIN or not. */
  lemma {:induction false} RunSettles(s: TxState, ops: seq<Op>)
    requires Settled(s)
    ensures Settled(RunOps(s, ops))
    decreases |ops|
  {
    if ops != [] {
      StepTracks(s, ops[0]);
      RunSettles(Step(s, ops[0]).0, ops[1..]);
    }
  }

  /** Flags track the server in every state of a run exactly when no `begin` in it is orphaned. */
  predicate TracksThroughout(s: TxState, ops: seq<Op>)
    decreases |ops|
  {
    Tracks(s) && (ops != [] ==> TracksThroughout(Step(s, ops[0]).0, ops[1..]))
  }

  predicate NoOrphanedBegin(s: TxState, ops: seq<Op>)
    decreases |ops|
  {
    ops != [] ==> !OrphansBegin(s, ops[0]) && NoOrphanedBegin(Step(s, ops[0]).0, ops[1..])
  }

  lemma {:induction false} RunTracks(s: TxState, ops: seq<Op>)
    requires Settled(s) && Tracks(s)
    ensures TracksThroughout(s, ops) <==> NoOrphanedBegin(s, ops)
    decreases |ops|
  {
    if ops != [] {
      StepTracks(s, ops[0]);
      if Tracks(Step(s, ops[0]).0) {
        RunTracks(Step(s, ops[0]).0, ops[1..]);
      }
    }
  }

  /** Flags that track throughout a run track at its end. */
  lemma {:induction false} RunEndsTracking(s: TxState, ops: seq<Op>)
    requires TracksThroughout(s, ops)
    ensures Tracks(RunOps(s, ops))
    decreases |ops|
  {
    if ops != [] {
      RunEndsTracking(Step(s, ops[0]).0, ops[1..]);
    }
  }

  lemma {:induction false} FlagsStayOk(s: TxState, ops: seq<Op>)
    requires FlagsOk(s.flags)
    ensures FlagsOk(RunOps(s, ops).flags)
    decreases |ops|
  {
    if ops != [] {
      FlagsStayOk(Step(s, ops[0]).0, ops[1..]);
    }
  }

  /**
   What an orphaned BEGIN costs: the next `begin` nests inside it, so a `commit` that reports success makes
   nothing durable.
   */
  lemma OrphanedBeginLosesCommit(durable: seq<Entry>, command: Command)
    ensures var ops := [Op.Begin(Connected, Cancelled(true, [])), Op.Begin(Connected, Answered([])),
                        Op.Execute(command, Connected, Answered([1])), Op.Commit(Answered([]))];
      var before := RunOps(Start(durable), ops[..3]);
      && Step(before, ops[3]).1.Done?
      && Step(before, ops[3]).0.world.durable == durable
      && Step(before, ops[3]).0.world.pending == [Entry(command, [1])]
  {
    var s1 := Step(Start(durable), Op.Begin(Connected, Cancelled(true, []))).0;
    var s2 := Step(s1, Op.Begin(Connected, Answered([]))).0;
    var s3 := Step(s2, Op.Execute(command, Connected, Answered([1]))).0;
    var ops := [Op.Begin(Connected, Cancelled(true, [])), Op.Begin(Connected, Answered([])),
                Op.Execute(command, Connected, Answered([1])), Op.Commit(Answered([]))];
    assert ops[..3][1..][1..][1..] == [];
    assert RunOps(s3, []) == s3;
    assert RunOps(s2, ops[..3][1..][1..]) == s3;
    assert RunOps(s1, ops[..3][1..]) == s3;
  }

  // ----- how each call ends, and in what state -----

  /** The call gets a live connection: the one in the slot, or a new one. */
  predicate Reaches(s: TxState, connect: Connecting) {
    if s.connected then s.world.alive else connect.Connected?
  }

  /** The call is cancelled while connecting, or while its request is awaited. */
  predicate CancelledIn(s: TxState, connect: Connecting, wire: Wire) {
    if s.connected then wire.Cancelled?
    else connect.ConnectCancelled? || (connect.Connected? && wire.Cancelled?)
  }

  /**
   `begin` succeeds exactly when no transaction is active (a settled one is forgotten), a connection is had and
   BEGIN is answered; only an active transaction keeps its flags otherwise.
   */
  lemma BeginOutcome(s: TxState, connect: Connecting, wire: Wire)
    requires Settled(s)
    ensures var (after, r) := BeginSpec(s, connect, wire);
      && (r.Done? <==> s.flags != ACTIVE && Reaches(s, connect) && wire.Answered?)
      && (r.Abandoned? <==> s.flags != ACTIVE && CancelledIn(s, connect, wire))
      && after.flags == (if r.Done? || s.flags == ACTIVE then ACTIVE else CLEAR)
      && after.connected == (s.connected || (s.flags != ACTIVE && connect.Connected?))
      && after.world.durable == s.world.durable
      && (s.flags == ACTIVE ==> after == s)
      && (r.Done? ==> after.world == World(s.world.durable, s.world.pending, s.world.depth + 1, true))
  {
  }

  /** `commit` succeeds exactly for an active transaction that is still open; the outermost one becomes durable. */
  lemma CommitOutcome(s: TxState, wire: Wire)
    requires Settled(s)
    ensures var (after, r) := CommitSpec(s, wire);
      && (r.Done? <==> s.flags == ACTIVE && s.connected && s.world.alive && s.world.depth > 0 && wire.Answered?)
      && (r.Abandoned? <==> s.flags == ACTIVE && s.connected && wire.Cancelled?)
      && after.flags == (if r.Done? then Flags(true, true, false) else s.flags)
      && after.connected == s.connected
      && (!(s.flags == ACTIVE && s.connected) ==> after == s)
      && (r.Done? && s.world.depth == 1 ==> after.world == World(s.world.durable + s.world.pending, [], 0, true))
      && (r.Done? && s.world.depth > 1 ==> after.world == s.world.(depth := s.world.depth - 1))
  {
  }

  /** `rollback` succeeds exactly when `commit` would, and then nothing is open and nothing more is durable. */
  lemma RollbackOutcome(s: TxState, wire: Wire)
    requires Settled(s)
    ensures var (after, r) := RollbackSpec(s, wire);
      && (r.Done? <==> s.flags == ACTIVE && s.connected && s.world.alive && s.world.depth > 0 && wire.Answered?)
      && (r.Abandoned? <==> s.flags == ACTIVE && s.connected && wire.Cancelled?)
      && after.flags == (if r.Done? then Flags(true, false, true) else s.flags)
      && after.connected == s.connected
      && (!(s.flags == ACTIVE && s.connected) ==> after == s)
      && (r.Done? ==> after.world == World(s.world.durable, [], 0, true))
  {
  }

  /** `execute` succeeds whatever the flags, returns the summed count, and is durable unless a transaction is open. */
  lemma ExecuteOutcome(s: TxState, command: Command, connect: Connecting, wire: Wire)
    requires Settled(s)
    ensures var (after, r) := ExecuteSpec(s, command, connect, wire);
      && (r.Done? <==> Reaches(s, connect) && wire.Answered?)
      && (r.Abandoned? <==> CancelledIn(s, connect, wire))
      && after.flags == s.flags && after.connected == (s.connected || connect.Connected?)
      && (r.Done? ==> r.value == Sum(wire.rows) && after.world.alive && after.world.depth == s.world.depth)
      && (r.Done? ==> after.world.durable + after.world.pending
                      == s.world.durable + s.world.pending + [Entry(command, wire.rows)])
      && (r.Done? && s.world.depth > 0 ==> after.world.durable == s.world.durable)
      && (r.Done? && s.world.depth == 0 ==> after.world.pending == [])
  {
    var w := s.world;
    Assoc(w.durable, w.pending, [Entry(command, if wire.Answered? then wire.rows else [])]);
    if w.depth == 0 {
      Units(w.durable);
      Units(w.durable + [Entry(command, if wire.Answered? then wire.rows else [])]);
    }
  }

  /** `execute_batch` returns one summed count a command exactly when all are answered. */
  lemma ExecuteBatchOutcome(s: TxState, commands: seq<Command>, connect: Connecting, wires: nat -> Wire)
    requires Settled(s) && commands != []
    ensures var (after, r) := ExecuteBatchSpec(s, commands, connect, wires);
      && (r.Done? <==> Reaches(s, connect) && forall i :: 0 <= i < |commands| ==> wires(i).Answered?)
      && (r.Done? ==> |r.value| == |commands| && forall i :: 0 <= i < |commands| ==> r.value[i] == Sum(wires(i).rows))
      && (r.Abandoned? <==>
            if Reaches(s, connect) then StoppedByCancel(wires, 0, |commands|) else CancelledIn(s, connect, wires(0)))
      && after.flags == s.flags && after.connected == (s.connected || connect.Connected?)
  {
    var s1 := Connects(s, connect).0;
    if Reaches(s, connect) {
      RunFromResult(s1.world, commands, wires, 0, []);
      if ExecuteBatchSpec(s, commands, connect, wires).1.Done? {
        assert forall i :: 0 <= i < |commands| ==> wires(i).Answered?;
      }
    }
  }

  predicate Finished(flags: Flags) { flags.committed || flags.rolledBack }

  /** The settling request of `__aexit__` reaches the open transaction of an active wrapper. */
  predicate CommitSucceeds(s: TxState, settle: Wire) {
    s.flags == ACTIVE && s.connected && s.world.alive && s.world.depth > 0 && settle.Answered?
  }

  /**
   `__aexit__` after an exception reports no error of its own; without one it reports a commit that failed or was
   not possible, unless the transaction had been settled. A cancellation of any of its awaits wins.
   */
  lemma ExitOutcome(s: TxState, raised: bool, settle: Wire, undo: Wire, close: CloseWire)
    requires Settled(s)
    ensures var (after, r) := ExitSpec(s, raised, settle, undo, close);
      var sends := s.flags == ACTIVE && s.connected;
      var cancelled := Interrupted(close) || (sends && settle.Cancelled?)
        || (sends && !raised && !CommitSucceeds(s, settle) && undo.Cancelled?);
      && (r.Abandoned? <==> cancelled)
      && (r.Error? <==> !cancelled && !raised && !Finished(s.flags) && !CommitSucceeds(s, settle))
  {
    CommitOutcome(s, settle);
    RollbackOutcome(s, settle);
    RollbackOutcome(CommitSpec(s, settle).0, undo);
  }

  /** What `__aexit__` makes durable: the open transaction if its COMMIT took effect, else nothing. */
  lemma ExitDurable(s: TxState, raised: bool, settle: Wire, undo: Wire, close: CloseWire)
    requires Settled(s)
    ensures var took := settle.Answered? || ((settle.Broken? || settle.Cancelled?) && settle.applied);
      ExitSpec(s, raised, settle, undo, close).0.world.durable ==
        if !raised && s.flags == ACTIVE && s.world.depth == 1 && took then s.world.durable + s.world.pending
        else s.world.durable
  {
    SettleDurable(s, raised, settle, undo);
    CloseKeepsLog(SettleSpec(s, raised, settle, undo).0, close);
  }

  lemma RollbackKeepsLog(s: TxState, wire: Wire)
    ensures RollbackSpec(s, wire).0.world.durable == s.world.durable
  {
  }

  lemma CloseKeepsLog(s: TxState, c: CloseWire)
    ensures CloseSpec(s, c).0.world.durable == s.world.durable
  {
  }

  lemma SettleDurable(s: TxState, raised: bool, settle: Wire, undo: Wire)
    requires Settled(s)
    ensures var took := settle.Answered? || ((settle.Broken? || settle.Cancelled?) && settle.applied);
      SettleSpec(s, raised, settle, undo).0.world.durable ==
        if !raised && s.flags == ACTIVE && s.world.depth == 1 && took then s.world.durable + s.world.pending
        else s.world.durable
  {
    var s1 := CommitSpec(s, settle).0;
    RollbackKeepsLog(s1, undo);
  }

  // ----- closing -----

  /** Nothing left behind: no connection, no flags, no open transaction. */
  predicate Clean(s: TxState) {
    !s.connected && s.flags == CLEAR && s.world.depth == 0 && s.world.pending == []
  }

  /**
   A closed transaction is clean: `close` succeeds exactly when its own await is not cancelled, and then
   nothing is left. Cancelled after the slot was emptied, only the flags survive; before, everything does.
   */
  lemma CloseCleans(s: TxState, c: CloseWire)
    requires Settled(s)
    ensures var (after, r) := CloseSpec(s, c);
      && (r.Done? <==> !Interrupted(c)) && !r.Error? && after.world.durable == s.world.durable
      && (r.Done? ==> Clean(after))
      && (c.Taken? && c.wire.Cancelled? ==> Clean(after.(flags := CLEAR)) && after.flags == s.flags)
      && (c.NotStarted? ==> after == s)
  {
  }

  /**
   `__aexit__` leaves nothing behind exactly when its closing await is not cancelled, whatever happened before
   it; a cancelled one leaves nothing only if there was nothing to settle, and no connection it had not taken.
   */
  lemma ExitCleans(s: TxState, raised: bool, settle: Wire, undo: Wire, close: CloseWire)
    requires Settled(s)
    ensures Clean(ExitSpec(s, raised, settle, undo, close).0)
      <==> (!Interrupted(close) || (s.flags == CLEAR && (close.Taken? || !s.connected)))
  {
    SettleKeeps(s, raised, settle, undo);
  }

  /** Settling leaves the slot as it is, and clear flags stay clear and others stay set. */
  lemma SettleKeeps(s: TxState, raised: bool, settle: Wire, undo: Wire)
    requires Settled(s)
    ensures var s1 := SettleSpec(s, raised, settle, undo).0;
      && s1.connected == s.connected && Settled(s1)
      && (s1.flags == CLEAR <==> s.flags == CLEAR) && (s.flags == CLEAR ==> s1 == s)
  {
    SettleTracks(s, raised, settle, undo);
  }

  /** Both hold in every state of every run, with a BEGIN orphaned in it or not. */
  lemma EveryCloseCleans(durable: seq<Entry>, ops: seq<Op>, raised: bool, settle: Wire, undo: Wire, close: CloseWire)
    requires !Interrupted(close)
    ensures Clean(CloseSpec(RunOps(Start(durable), ops), close).0)
    ensures Clean(ExitSpec(RunOps(Start(durable), ops), raised, settle, undo, close).0)
  {
    var s := RunOps(Start(durable), ops);
    RunSettles(Start(durable), ops);
    CloseCleans(s, close);
    ExitCleans(s, raised, settle, undo, close);
  }

  /** Interrupting that await is what it takes: an active transaction then survives `__aexit__`. */
  lemma InterruptedExitLeavesTransaction(durable: seq<Entry>)
    ensures var s := RunOps(Start(durable), [Op.Begin(Connected, Answered([]))]);
      var after := ExitSpec(s, true, Refused, Refused, NotStarted).0;
      after.connected && after.flags == ACTIVE && after.world.depth == 1
  {
    var s := Step(Start(durable), Op.Begin(Connected, Answered([]))).0;
    assert [Op.Begin(Connected, Answered([]))][1..] == [];
    assert RunOps(Start(durable), [Op.Begin(Connected, Answered([]))]) == RunOps(s, []);
  }
}
