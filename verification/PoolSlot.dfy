/**
 The shared pool slot: `ensure_pool_initialized_with_auth` (src/pool_manager.rs) racing with
 `disconnect`, `__aexit__` and `is_connected` (src/connection.rs). The slot sits behind a
 readers-writer lock; only the creation of a pool holds the write lock across an await.
 */
module PoolSlot {
  import opened Common

  type Pool = nat

  /** A completed effect on the slot, by a task. */
  datatype Effect =
    | Got(task: nat, pool: Pool)       // found a pool
    | Created(task: nat, pool: Pool)   // found none and installed one
    | Cleared(task: nat, had: bool)    // disconnect or __aexit__
    | Peeked(task: nat, connected: bool)

  // ----- the atomic optional cell the slot should behave as -----

  function Apply(cell: Option<Pool>, e: Effect): Option<Option<Pool>> {
    match e
    case Got(_, p) => if cell == Some(p) then Some(cell) else None
    case Created(_, p) => if cell.None? then Some(Some(p)) else None
    case Cleared(_, had) => if had == cell.Some? then Some(None) else None
    case Peeked(_, b) => if b == cell.Some? then Some(cell) else None
  }

  /** The cell after a history of atomic effects from empty; None if some effect was impossible. */
  function Replay(history: seq<Effect>): Option<Option<Pool>> {
    if history == [] then Some(None) else
      match Replay(history[..|history| - 1])
      case None => None
      case Some(cell) => Apply(cell, history[|history| - 1])
  }

  // ----- tasks and the lock -----

  datatype Request = Ensure | Clear | Peek

  datatype Pc =
    | Idle
    | Entered(request: Request, since: nat)   // called; awaiting its first lock
    | AwaitingWrite(since: nat)               // ensure: the read found nothing
    | Rechecking(since: nat)                  // ensure: holds the write lock
    | Establishing(since: nat)                // ensure: holds the write lock, creating a pool
    | Returned(request: Request, since: nat, at: nat)   // answered by the effect at index `at`
    | Failed(since: nat)                      // pool creation failed

  /** `since` above is the length of `history` when the call began. */
  datatype State = State(slot: Option<Pool>, writer: Option<nat>, tasks: seq<Pc>, created: nat, history: seq<Effect>)

  datatype Event =
    | Call(task: nat, request: Request)
    | Read(task: nat)
    | LockWrite(task: nat)
    | Recheck(task: nat)
    | EstablishSucceeds(task: nat)
    | EstablishFails(task: nat)
    | WriteNone(task: nat)
    | Cancel(task: nat)

  function Init(tasks: nat): State {
    State(None, None, seq(tasks, _ => Idle), 0, [])
  }

  predicate InCall(pc: Pc) {
    pc.Entered? || pc.AwaitingWrite? || pc.Rechecking? || pc.Establishing?
  }

  predicate HoldsWrite(pc: Pc) { pc.Rechecking? || pc.Establishing? }

  function Goto(s: State, t: nat, pc: Pc): State
    requires t < |s.tasks|
  {
    s.(tasks := s.tasks[t := pc])
  }

  /** The task returns, having had effect `e`. */
  function Finish(s: State, t: nat, request: Request, since: nat, e: Effect): State
    requires t < |s.tasks|
  {
    Goto(s, t, Returned(request, since, |s.history|)).(history := s.history + [e])
  }

  function After(s: State, e: Event): Option<State> {
    if e.task >= |s.tasks| then None else
    var t := e.task;
    match (s.tasks[t], e)
    case (pc, Call(_, request)) => if InCall(pc) then None else Some(Goto(s, t, Entered(request, |s.history|)))
    case (Entered(Ensure, since), Read(_)) =>
      if s.writer.Some? then None
      else if s.slot.Some? then Some(Finish(s, t, Ensure, since, Got(t, s.slot.value)))
      else Some(Goto(s, t, AwaitingWrite(since)))
    case (Entered(Peek, since), Read(_)) =>
      if s.writer.Some? then None else Some(Finish(s, t, Peek, since, Peeked(t, s.slot.Some?)))
    case (Entered(Clear, since), WriteNone(_)) =>
      if s.writer.Some? then None else Some(Finish(s, t, Clear, since, Cleared(t, s.slot.Some?)).(slot := None))
    case (AwaitingWrite(since), LockWrite(_)) =>
      if s.writer.Some? then None else Some(Goto(s, t, Rechecking(since)).(writer := Some(t)))
    case (Rechecking(since), Recheck(_)) =>
      if s.slot.Some? then Some(Finish(s, t, Ensure, since, Got(t, s.slot.value)).(writer := None))
      else Some(Goto(s, t, Establishing(since)))
    case (Establishing(since), EstablishSucceeds(_)) =>
      Some(Finish(s, t, Ensure, since, Created(t, s.created))
        .(slot := Some(s.created), writer := None, created := s.created + 1))
    case (Establishing(since), EstablishFails(_)) => Some(Goto(s, t, Failed(since)).(writer := None))
    case (pc, Cancel(_)) =>
      if !InCall(pc) then None else Some(Goto(s, t, Idle).(writer := if HoldsWrite(pc) then None else s.writer))
    case _ => None
  }

  function Run(s: State, events: seq<Event>): Option<State>
    decreases |events|
  {
    if events == [] then Some(s) else
      match After(s, events[0])
      case None => None
      case Some(next) => Run(next, events[1..])
  }

  ghost predicate Reached(s: State) {
    exists tasks: nat, events :: Run(Init(tasks), events) == Some(s)
  }

  // ----- what every step keeps -----

  ghost predicate LockOk(s: State) {
    forall t :: 0 <= t < |s.tasks| ==> (HoldsWrite(s.tasks[t]) <==> s.writer == Some(t))
  }

  /** While a pool is being created the slot is empty. */
  ghost predicate CreationOk(s: State) {
    && (s.writer.Some? ==> s.writer.value < |s.tasks|)
    && forall t :: 0 <= t < |s.tasks| && s.tasks[t].Establishing? ==> s.slot.None?
  }

  /** The history is one the atomic cell could have had, and it ends in the slot. */
  ghost predicate HistoryOk(s: State) {
    Replay(s.history) == Some(s.slot) && s.created == Creations(s.history) && Numbered(s.history)
  }

  function Creations(history: seq<Effect>): nat {
    if history == [] then 0
    else Creations(history[..|history| - 1]) + (if history[|history| - 1].Created? then 1 else 0)
  }

  /** Every pool is new: the k-th to be created is number k. */
  ghost predicate Numbered(history: seq<Effect>) {
    forall i :: 0 <= i < |history| && history[i].Created? ==> history[i].pool == Creations(history[..i])
  }

  /** The effects that answer a request: a pool for `ensure`, a clear for `disconnect`, a look for `is_connected`. */
  predicate Answers(request: Request, e: Effect) {
    match request
    case Ensure => e.Got? || e.Created?
    case Clear => e.Cleared?
    case Peek => e.Peeked?
  }

  /** A call has had one effect, of its own kind, if it has returned, and none if it has not. */
  ghost predicate CallOk(s: State, t: nat)
    requires t < |s.tasks|
  {
    match s.tasks[t]
    case Idle => true
    case Returned(request, since, at) =>
      && since <= at < |s.history| && s.history[at].task == t && Answers(request, s.history[at])
      && forall k :: since <= k < |s.history| && k != at ==> s.history[k].task != t
    case pc => pc.since <= |s.history| && forall k :: pc.since <= k < |s.history| ==> s.history[k].task != t
  }

  ghost predicate CallsOk(s: State) {
    forall t :: 0 <= t < |s.tasks| ==> CallOk(s, t)
  }

  ghost predicate Inv(s: State) {
    LockOk(s) && CreationOk(s) && HistoryOk(s) && CallsOk(s)
  }

  lemma StepFrame(s: State, e: Event)
    requires After(s, e).Some?
    ensures var next := After(s, e).value;
      && e.task < |s.tasks| == |next.tasks|
      && (forall u :: 0 <= u < |s.tasks| && u != e.task ==> next.tasks[u] == s.tasks[u])
      && (next.history == s.history
          || (|next.history| == |s.history| + 1 && next.history[..|s.history|] == s.history
              && next.history[|s.history|].task == e.task))
  {
  }

  lemma StepLock(s: State, e: Event)
    requires LockOk(s) && After(s, e).Some?
    ensures LockOk(After(s, e).value)
  {
    StepFrame(s, e);
  }

  lemma StepCreation(s: State, e: Event)
    requires LockOk(s) && CreationOk(s) && After(s, e).Some?
    ensures CreationOk(After(s, e).value)
  {
    StepFrame(s, e);
  }

  lemma StepHistory(s: State, e: Event)
    requires LockOk(s) && CreationOk(s) && HistoryOk(s) && After(s, e).Some?
    ensures HistoryOk(After(s, e).value)
  {
    var next := After(s, e).value;
    StepEffect(s, e);
    if next.history != s.history {
      var effect := next.history[|s.history|];
      Cut(s.history, [effect]);
      NumberedPush(s.history, effect);
    }
  }

  /** What a step adds to the history is what the atomic cell would do in that slot. */
  lemma StepEffect(s: State, e: Event)
    requires CreationOk(s) && After(s, e).Some?
    ensures var next := After(s, e).value;
      || (next.history == s.history && next.slot == s.slot && next.created == s.created)
      || (|next.history| == |s.history| + 1
          && var effect := next.history[|s.history|];
             && next.history == s.history + [effect]
             && Apply(s.slot, effect) == Some(next.slot)
             && next.created == s.created + (if effect.Created? then 1 else 0)
             && (effect.Created? ==> effect.pool == s.created))
  {
  }

  lemma NumberedPush(history: seq<Effect>, e: Effect)
    requires Numbered(history) && (e.Created? ==> e.pool == Creations(history))
    ensures Numbered(history + [e])
  {
    var more := history + [e];
    forall i | 0 <= i < |more| && more[i].Created? ensures more[i].pool == Creations(more[..i]) {
      assert more[..i] == history[..i];
      Whole(history);
    }
  }

  lemma StepCalls(s: State, e: Event)
    requires CallsOk(s) && After(s, e).Some?
    ensures CallsOk(After(s, e).value)
  {
    var next := After(s, e).value;
    StepFrame(s, e);
    assert forall k :: 0 <= k < |s.history| ==> next.history[k] == next.history[..|s.history|][k];
    forall t | 0 <= t < |next.tasks| ensures CallOk(next, t) {
      assert CallOk(s, t);
      if t == e.task {
        StepOwnCall(s, e);
      }
    }
  }

  lemma StepOwnCall(s: State, e: Event)
    requires After(s, e).Some? && CallOk(s, e.task)
    ensures CallOk(After(s, e).value, e.task)
  {
    var next := After(s, e).value;
    StepFrame(s, e);
    assert forall k :: 0 <= k < |s.history| ==> next.history[k] == next.history[..|s.history|][k];
  }

  lemma {:induction false} RunInv(s: State, events: seq<Event>)
    requires Inv(s) && Run(s, events).Some?
    ensures Inv(Run(s, events).value)
    decreases |events|
  {
    if events != [] {
      StepLock(s, events[0]);
      StepCreation(s, events[0]);
      StepHistory(s, events[0]);
      StepCalls(s, events[0]);
      RunInv(After(s, events[0]).value, events[1..]);
    }
  }

  lemma ReachedInv(s: State)
    requires Reached(s)
    ensures Inv(s)
  {
    var tasks: nat, events :| Run(Init(tasks), events) == Some(s);
    RunInv(Init(tasks), events);
  }

  // ----- properties of every run -----

  /**
   The slot linearizes to an atomic optional cell: the history replays to the slot, each returned call is
   answered by exactly one effect of the kind it asked for, placed within its call, and a call that is in
   progress or failed had none.
   */
  lemma SlotLinearizes(s: State)
    requires Reached(s)
    ensures Replay(s.history) == Some(s.slot)
    ensures forall t :: 0 <= t < |s.tasks| ==> CallOk(s, t)
  {
    ReachedInv(s);
  }

  /**
   While a pool is in the slot and nobody holds the write lock, a reading `ensure` returns that pool without
   awaiting the write lock; it awaits it only if the slot was empty.
   */
  lemma ReadDecides(s: State, t: nat)
    requires t < |s.tasks| && s.tasks[t].Entered? && s.tasks[t].request.Ensure?
    ensures After(s, Read(t)).Some? <==> s.writer.None?
    ensures s.writer.None? ==>
      var next := After(s, Read(t)).value;
      && next.slot == s.slot && next.writer == s.writer
      && (s.slot.Some? ==> next.history == s.history + [Got(t, s.slot.value)]
                           && next.tasks[t] == Returned(Ensure, s.tasks[t].since, |s.history|))
      && (s.slot.None? ==> next.history == s.history && next.tasks[t] == AwaitingWrite(s.tasks[t].since))
  {
  }

  /** A creation that fails, and a call that is cancelled, leave the slot alone and give up the write lock. */
  lemma FailureLeavesSlot(s: State, t: nat, e: Event)
    requires Reached(s) && After(s, e).Some? && e.task == t && (e.EstablishFails? || e.Cancel?)
    ensures var next := After(s, e).value;
      && next.slot == s.slot && next.history == s.history && next.created == s.created && next.writer != Some(t)
      && next.tasks[t] == (if e.Cancel? then Idle else Failed(s.tasks[t].since))
  {
    ReachedInv(s);
  }

  /** At most one task is creating a pool, and the slot stays empty until it succeeds. */
  lemma OneCreation(s: State, t: nat)
    requires Reached(s) && t < |s.tasks| && s.tasks[t].Establishing?
    ensures s.slot.None? && forall u :: 0 <= u < |s.tasks| && u != t ==> !HoldsWrite(s.tasks[u])
    ensures After(s, EstablishFails(t)).Some? && After(s, EstablishFails(t)).value.slot.None?
  {
    ReachedInv(s);
  }

  function NonEmptyClears(history: seq<Effect>): nat {
    if history == [] then 0 else
      var last := history[|history| - 1];
      NonEmptyClears(history[..|history| - 1]) + (if last.Cleared? && last.had then 1 else 0)
  }

  /** Pools created and pools cleared away differ by the one in the cell. */
  lemma {:induction false} CreationsBalance(history: seq<Effect>)
    requires Replay(history).Some?
    ensures Creations(history) - NonEmptyClears(history) == if Replay(history).value.Some? then 1 else 0
  {
    if history != [] {
      CreationsBalance(history[..|history| - 1]);
    }
  }

  lemma SlotBalance(s: State)
    requires Reached(s)
    ensures s.created - NonEmptyClears(s.history) == if s.slot.Some? then 1 else 0
  {
    ReachedInv(s);
    CreationsBalance(s.history);
  }

  predicate Obtains(e: Effect) { e.Got? || e.Created? }

  lemma {:induction false} PrefixReplays(history: seq<Effect>, n: nat)
    requires Replay(history).Some? && n <= |history|
    ensures Replay(history[..n]).Some?
    decreases |history|
  {
    if n < |history| {
      PrefixReplays(history[..|history| - 1], n);
      assert history[..|history| - 1][..n] == history[..n];
    } else {
      assert history[..n] == history;
    }
  }

  /** A pool obtained is the newest created, and it is in the cell afterwards. */
  lemma {:induction false} CellIsNewest(history: seq<Effect>)
    requires Replay(history).Some? && Numbered(history)
    ensures Replay(history).value.Some? ==> Replay(history).value.value + 1 == Creations(history)
  {
    if history != [] {
      var n := |history| - 1;
      assert forall i :: 0 <= i <= n ==> history[..n][..i] == history[..i];
      CellIsNewest(history[..n]);
    }
  }

  lemma ObtainedIsNewest(history: seq<Effect>, i: nat)
    requires Replay(history).Some? && Numbered(history) && i < |history| && Obtains(history[i])
    ensures history[i].pool + 1 == Creations(history[..i + 1])
    ensures Replay(history[..i + 1]) == Some(Some(history[i].pool))
  {
    PrefixReplays(history, i + 1);
    var h := history[..i + 1];
    assert h[..i] == history[..i];
    assert forall k :: 0 <= k <= i ==> h[..k] == history[..k];
    CellIsNewest(h);
  }

  lemma {:induction false} CountersGrow(history: seq<Effect>, i: nat, j: nat)
    requires i <= j <= |history|
    ensures NonEmptyClears(history[..i]) <= NonEmptyClears(history[..j])
    ensures (exists k :: i <= k < j && history[k].Cleared? && history[k].had)
      <==> NonEmptyClears(history[..i]) < NonEmptyClears(history[..j])
    decreases j - i
  {
    if i < j {
      CountersGrow(history, i, j - 1);
      assert history[..j][..j - 1] == history[..j - 1];
    }
  }

  /** Two callers get the same pool exactly when no clear emptied the slot between them. */
  lemma SamePoolUnlessCleared(s: State, i: nat, j: nat)
    requires Reached(s) && i < j < |s.history| && Obtains(s.history[i]) && Obtains(s.history[j])
    ensures s.history[i].pool == s.history[j].pool
      <==> !(exists k :: i < k < j && s.history[k].Cleared? && s.history[k].had)
  {
    ReachedInv(s);
    SamePoolInHistory(s.history, i, j);
  }

  lemma SamePoolInHistory(h: seq<Effect>, i: nat, j: nat)
    requires Replay(h).Some? && Numbered(h) && i < j < |h| && Obtains(h[i]) && Obtains(h[j])
    ensures h[i].pool == h[j].pool <==> !(exists k :: i < k < j && h[k].Cleared? && h[k].had)
  {
    ObtainedIsNewest(h, i);
    ObtainedIsNewest(h, j);
    CreationsBalance(h[..i + 1]);
    CreationsBalance(h[..j + 1]);
    CountersGrow(h, i + 1, j + 1);
  }

  /** How far a call has come. */
  function Stage(pc: Pc): nat {
    match pc
    case Idle => 0
    case Entered(_, _) => 1
    case AwaitingWrite(_) => 2
    case Rechecking(_) => 3
    case Establishing(_) => 4
    case Returned(_, _, _) => 5
    case Failed(_) => 5
  }

  /** A call never goes back: each of its steps takes it further, so four are the most it can take. */
  lemma StepsGoForward(s: State, e: Event)
    requires After(s, e).Some? && !e.Call? && !e.Cancel?
    ensures 0 < Stage(s.tasks[e.task]) < Stage(After(s, e).value.tasks[e.task])
  {
  }

  /** A task not in a call can start one, and one in a call can be cancelled. */
  lemma CallsStartAndCancel(s: State, t: nat, request: Request)
    requires t < |s.tasks|
    ensures After(s, Call(t, request))
      == if InCall(s.tasks[t]) then None else Some(s.(tasks := s.tasks[t := Entered(request, |s.history|)]))
    ensures After(s, Cancel(t)).Some? <==> InCall(s.tasks[t])
  {
  }

  /** No deadlock: a task in a call can step, or the write lock is held by a task that can. */
  lemma NoDeadlock(s: State, t: nat)
    requires Reached(s) && t < |s.tasks| && InCall(s.tasks[t])
    ensures After(s, NextEvent(s, t)).Some?
      || (s.writer.Some? && s.writer.value < |s.tasks| && After(s, NextEvent(s, s.writer.value)).Some?)
  {
    ReachedInv(s);
    if s.writer.Some? {
      assert HoldsWrite(s.tasks[s.writer.value]);
    }
  }

  /** The event, other than cancellation, that a task in a call is waiting to make. */
  function NextEvent(s: State, t: nat): Event
    requires t < |s.tasks|
  {
    match s.tasks[t]
    case Entered(Clear, _) => WriteNone(t)
    case Entered(_, _) => Read(t)
    case AwaitingWrite(_) => LockWrite(t)
    case Rechecking(_) => Recheck(t)
    case Establishing(_) => EstablishFails(t)
    case _ => Call(t, Peek)
  }
}
