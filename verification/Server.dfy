/**
 One client connection and the database behind it: what is durable, the open
 transaction, and how a request can end. Everything the driver cannot control
 (errors, lost connections, cancellation of the awaiting task) is a `Wire` value.
 */
module Server {
  import opened Common
  import opened Values

  datatype Command = Command(sql: string, params: seq<FastParameter>)

  /** A command the server has executed, with the row counts it reported. */
  datatype Entry = Entry(command: Command, rows: seq<nat>)

  datatype Statement = BeginTran | CommitTran | RollbackTran | RollbackIfOpen | Run(command: Command)

  /** `depth` is @@TRANCOUNT; `pending` are the effects of the open transaction. */
  datatype World = World(durable: seq<Entry>, pending: seq<Entry>, depth: nat, alive: bool)

  /** How one awaited request ends. */
  datatype Wire =
    | Answered(rows: seq<nat>)               // executed, and the reply arrived
    | Refused                                // a server error; the statement had no effect
    | Doomed                                 // a server error that rolled back the open transaction
    | Broken(applied: bool, rows: seq<nat>)     // the connection was lost, before or after execution
    | Cancelled(applied: bool, rows: seq<nat>)  // the awaiting task was cancelled, before or after execution

  datatype Reply = Replied(rows: seq<nat>) | Failed | Dropped

  /** What executing a statement does; None when the server rejects it for lack of a transaction. */
  function Effect(w: World, s: Statement, rows: seq<nat>): Option<World> {
    match s
    case BeginTran => Some(w.(depth := w.depth + 1))
    case CommitTran =>
      if w.depth == 0 then None
      else if w.depth == 1 then Some(w.(durable := w.durable + w.pending, pending := [], depth := 0))
      else Some(w.(depth := w.depth - 1))
    case RollbackTran => if w.depth == 0 then None else Some(RolledBack(w))
    case RollbackIfOpen => Some(RolledBack(w))
    case Run(command) =>
      if w.depth == 0 then Some(w.(durable := w.durable + [Entry(command, rows)]))
      else Some(w.(pending := w.pending + [Entry(command, rows)]))
  }

  function RolledBack(w: World): World { w.(pending := [], depth := 0) }

  /** The server rolls back the open transaction of a connection that goes away. */
  function Disconnected(w: World): World { RolledBack(w).(alive := false) }

  function AppliedIf(applied: bool, w: World, s: Statement, rows: seq<nat>): World {
    if applied && Effect(w, s, rows).Some? then Effect(w, s, rows).value else w
  }

  function Sent(w: World, s: Statement, wire: Wire): (World, Reply) {
    if !w.alive then (w, if wire.Cancelled? then Dropped else Failed) else
      match wire
      case Answered(rows) =>
        if Effect(w, s, rows).Some? then (Effect(w, s, rows).value, Replied(rows)) else (w, Failed)
      case Refused => (w, Failed)
      case Doomed => (RolledBack(w), Failed)
      case Broken(applied, rows) => (Disconnected(AppliedIf(applied, w, s, rows)), Failed)
      case Cancelled(applied, rows) => (AppliedIf(applied, w, s, rows), Dropped)
  }

  /** A client connection; `wire` says how the awaited request ends. */
  class Client {
    var world: World

    constructor (world: World)
      ensures this.world == world
    {
      this.world := world;
    }

    method Send(s: Statement, wire: Wire) returns (reply: Reply)
      modifies this
      ensures (world, reply) == Sent(old(world), s, wire)
    {
      var (next, answer) := Sent(world, s, wire);
      world := next;
      reply := answer;
    }

    method Drop()
      modifies this
      ensures world == Disconnected(old(world))
    {
      world := Disconnected(world);
    }
  }
}
