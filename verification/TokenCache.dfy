/**
 The Azure token cache (`to_auth_method`, src/azure_auth.rs) under any number of concurrent
 callers: a read of the cache, the refresh mutex, a second read, a fetch, a write. Every await
 is a point where other tasks run, time passes, or the call is cancelled.
 */
module TokenCache {
  import opened Common

  /** Nanoseconds on the monotone clock. */
  type Instant = nat

  const SECOND: nat := 1_000_000_000

  function Min(a: nat, b: nat): nat { if a < b then a else b }

  function Max(a: nat, b: nat): nat { if a < b then b else a }

  /** Safety buffer, in seconds, for a token that lives `n` seconds. */
  function Buffer(n: nat): nat {
    Min(Min(Max(n / 10, 30), 600), n)
  }

  /** How long, in seconds, a token is served from the cache. */
  function Window(n: nat): nat {
    n - Min(Buffer(n), n)
  }

  /** The window never exceeds the lifetime, is empty exactly up to 30 seconds, and leaves 30 seconds or all. */
  lemma WindowBounds(n: nat)
    ensures Window(n) + Buffer(n) == n && Buffer(n) <= 600
    ensures Window(n) == 0 <==> n <= 30
    ensures n > 30 ==> Window(n) + 30 <= n
  {
  }

  /** A tenth of the lifetime, but 30 s at least and 600 s at most, and never more than the lifetime. */
  lemma BufferExact(n: nat)
    ensures n <= 30 ==> Buffer(n) == n
    ensures 30 <= n <= 300 ==> Buffer(n) == 30
    ensures 300 <= n <= 6000 ==> Buffer(n) == n / 10
    ensures n >= 6000 ==> Buffer(n) == 600
  {
  }

  /** A longer lifetime never gets a shorter window, although it gets a longer buffer. */
  lemma WindowMonotone(n: nat, m: nat)
    requires n <= m
    ensures Window(n) <= Window(m)
  {
  }

  // ----- state -----

  /** A response: the token's text, when its fetch began, when it was issued, when it arrived, how long it lives. */
  datatype Response = Response(text: string, started: Instant, issued: Instant, received: Instant, lifetime: nat)

  datatype CachedToken = CachedToken(text: string, expiresAt: Instant)

  function ToCache(r: Response): CachedToken {
    CachedToken(r.text, r.received + Window(r.lifetime) * SECOND)
  }

  /** Where a task is in its call. */
  datatype Pc =
    | Idle
    | Entered                      // before the first read
    | AwaitingMutex                // the first read missed
    | Rechecking                   // holds the mutex, before the second read
    | Fetching(started: Instant)   // holds the mutex, request in flight
    | Storing(response: Response)  // holds the mutex, awaiting the write lock
    | Returned(token: Option<string>, origin: Origin)

  /** Where a returned token came from: the configuration, the hit or the stored response of that number, or nowhere. */
  datatype Origin = Static | FromCache(hit: nat) | FromFetch(index: nat) | Nowhere

  /** A call served from the cache, and the stored response it was served from. */
  datatype Hit = Hit(task: nat, at: Instant, served: CachedToken, source: nat)

  /** `stored` and `hits` are the history of the run. `fixed` is a static access token, if that is the credential. */
  datatype State = State(
    now: Instant,
    fixed: Option<string>,
    cache: Option<CachedToken>,
    holder: Option<nat>,
    tasks: seq<Pc>,
    stored: seq<Response>,
    hits: seq<Hit>)

  datatype Event =
    | Tick(elapsed: nat)
    | Call(task: nat)
    | Bypass(task: nat)
    | FirstRead(task: nat)
    | Lock(task: nat)
    | SecondRead(task: nat)
    | FetchSucceeds(task: nat, text: string, issued: Instant, lifetime: nat)
    | FetchFails(task: nat)
    | Store(task: nat)
    | Cancel(task: nat)

  function Init(fixed: Option<string>, tasks: nat): State {
    State(0, fixed, None, None, seq(tasks, _ => Idle), [], [])
  }

  predicate Holds(pc: Pc) { pc.Rechecking? || pc.Fetching? || pc.Storing? }

  predicate StillValid(cache: Option<CachedToken>, now: Instant) {
    cache.Some? && now < cache.value.expiresAt
  }

  function Goto(s: State, task: nat, pc: Pc): State
    requires task < |s.tasks|
  {
    s.(tasks := s.tasks[task := pc])
  }

  /** A read that finds a valid token returns it. */
  function ServeFromCache(s: State, task: nat): State
    requires task < |s.tasks| && s.cache.Some?
  {
    Goto(s, task, Returned(Some(s.cache.value.text), FromCache(|s.hits|)))
      .(hits := s.hits + [Hit(task, s.now, s.cache.value, if s.stored == [] then 0 else |s.stored| - 1)])
  }

  /** The state after an event; None when the event cannot happen. */
  function After(s: State, e: Event): Option<State> {
    if e.Tick? then Some(s.(now := s.now + e.elapsed))
    else if e.task >= |s.tasks| then None
    else TaskStep(s, e)
  }

  function TaskStep(s: State, e: Event): Option<State>
    requires !e.Tick? && e.task < |s.tasks|
  {
    var t := e.task;
    match (s.tasks[t], e)
    case (Idle, Call(_)) => Some(Goto(s, t, Entered))
    case (Returned(_, _), Call(_)) => Some(Goto(s, t, Entered))
    case (Entered, Bypass(_)) => if s.fixed.Some? then Some(Goto(s, t, Returned(s.fixed, Static))) else None
    case (Entered, FirstRead(_)) =>
      if s.fixed.Some? then None
      else if StillValid(s.cache, s.now) then Some(ServeFromCache(s, t))
      else Some(Goto(s, t, AwaitingMutex))
    case (AwaitingMutex, Lock(_)) => if s.holder.Some? then None else Some(Goto(s, t, Rechecking).(holder := Some(t)))
    case (Rechecking, SecondRead(_)) =>
      if StillValid(s.cache, s.now) then Some(ServeFromCache(s, t).(holder := None))
      else Some(Goto(s, t, Fetching(s.now)))
    case (Fetching(started), FetchSucceeds(_, text, issued, lifetime)) =>
      if !(started <= issued <= s.now) then None
      else Some(Goto(s, t, Storing(Response(text, started, issued, s.now, lifetime))))
    case (Fetching(_), FetchFails(_)) => Some(Goto(s, t, Returned(None, Nowhere)).(holder := None))
    case (Storing(r), Store(_)) =>
      Some(Goto(s, t, Returned(Some(r.text), FromFetch(|s.stored|)))
        .(holder := None, cache := Some(ToCache(r)), stored := s.stored + [r]))
    case (pc, Cancel(_)) =>
      if pc.Idle? || pc.Returned? then None
      else Some(Goto(s, t, Idle).(holder := if Holds(pc) then None else s.holder))
    case _ => None
  }

  /** A run: events in order from a state. */
  function Run(s: State, events: seq<Event>): Option<State>
    decreases |events|
  {
    if events == [] then Some(s) else
      match After(s, events[0])
      case None => None
      case Some(next) => Run(next, events[1..])
  }

  /** Reached from the start by some run. */
  ghost predicate Reached(s: State) {
    exists fixed, tasks: nat, events :: Run(Init(fixed, tasks), events) == Some(s)
  }

  // ----- what every step keeps -----

  /** Nothing is cached, or it expired no later than `at`. */
  predicate Stale(cache: Option<CachedToken>, at: Instant) {
    cache.Some? ==> cache.value.expiresAt <= at
  }

  predicate ResponseOk(r: Response, now: Instant) {
    r.started <= r.issued <= r.received <= now
  }

  /** What a task that holds the mutex knows. */
  predicate TaskOk(s: State, pc: Pc) {
    match pc
    case Fetching(started) => started <= s.now && Stale(s.cache, started)
    case Storing(r) => ResponseOk(r, s.now) && Stale(s.cache, r.started)
    case _ => true
  }

  ghost predicate MutexOk(s: State) {
    forall t :: 0 <= t < |s.tasks| ==> (Holds(s.tasks[t]) <==> s.holder == Some(t))
  }

  ghost predicate CacheOk(s: State) {
    && s.cache == (if s.stored == [] then None else Some(ToCache(s.stored[|s.stored| - 1])))
    && (s.holder.Some? ==> s.holder.value < |s.tasks|)
  }

  /** With a static token calls only enter and return it. */
  ghost predicate FixedOk(s: State) {
    s.fixed.Some? ==>
      && s.stored == [] && s.hits == [] && s.holder.None?
      && forall t :: 0 <= t < |s.tasks| ==>
           s.tasks[t].Idle? || s.tasks[t].Entered? || s.tasks[t] == Returned(s.fixed, Static)
  }

  ghost predicate HistoryOk(s: State) {
    && (forall i :: 0 <= i < |s.stored| ==> ResponseOk(s.stored[i], s.now))
    && (forall i :: 0 < i < |s.stored| ==> ToCache(s.stored[i - 1]).expiresAt <= s.stored[i].started)
  }

  predicate HitOk(h: Hit, stored: seq<Response>) {
    h.source < |stored| && h.served == ToCache(stored[h.source])
    && stored[h.source].received <= h.at < h.served.expiresAt
  }

  ghost predicate HitsOk(s: State) {
    forall i :: 0 <= i < |s.hits| ==> HitOk(s.hits[i], s.stored)
  }

  ghost predicate TasksOk(s: State) {
    forall t :: 0 <= t < |s.tasks| ==> TaskOk(s, s.tasks[t])
  }

  /** A token that a call returned is the static one, the one of a hit of that task, or one that has been stored. */
  ghost predicate ReturnOk(s: State, t: nat, pc: Pc) {
    pc.Returned? ==>
      match pc.origin
      case Static => s.fixed.Some? && pc.token == s.fixed
      case FromCache(i) => i < |s.hits| && s.hits[i].task == t && pc.token == Some(s.hits[i].served.text)
      case FromFetch(i) => i < |s.stored| && pc.token == Some(s.stored[i].text)
      case Nowhere => pc.token.None?
  }

  ghost predicate ReturnsOk(s: State) {
    forall t :: 0 <= t < |s.tasks| ==> ReturnOk(s, t, s.tasks[t])
  }

  ghost predicate Inv(s: State) {
    MutexOk(s) && CacheOk(s) && FixedOk(s) && HistoryOk(s) && HitsOk(s) && TasksOk(s) && ReturnsOk(s)
  }

  lemma InitInv(fixed: Option<string>, tasks: nat)
    ensures Inv(Init(fixed, tasks))
  {
  }

  /** Only the task that steps moves, and only the holder of the mutex writes the cache. */
  lemma StepFrame(s: State, e: Event)
    requires After(s, e).Some?
    ensures var next := After(s, e).value;
      && |next.tasks| == |s.tasks| && next.fixed == s.fixed && s.now <= next.now
      && (forall u :: 0 <= u < |s.tasks| && (e.Tick? || u != e.task) ==> next.tasks[u] == s.tasks[u])
      && (!e.Store? ==> next.cache == s.cache && next.stored == s.stored)
      && (e.Store? ==>
            e.task < |s.tasks| && s.tasks[e.task].Storing?
            && next.stored == s.stored + [s.tasks[e.task].response])
  {
  }

  lemma StepMutex(s: State, e: Event)
    requires MutexOk(s) && After(s, e).Some?
    ensures MutexOk(After(s, e).value)
  {
    StepFrame(s, e);
  }

  lemma StepCache(s: State, e: Event)
    requires CacheOk(s) && After(s, e).Some?
    ensures CacheOk(After(s, e).value)
  {
    StepFrame(s, e);
  }

  lemma StepFixed(s: State, e: Event)
    requires MutexOk(s) && FixedOk(s) && CacheOk(s) && After(s, e).Some?
    ensures FixedOk(After(s, e).value)
  {
    StepFrame(s, e);
  }

  lemma StepTasks(s: State, e: Event)
    requires MutexOk(s) && TasksOk(s) && After(s, e).Some?
    ensures TasksOk(After(s, e).value)
  {
    var next := After(s, e).value;
    StepFrame(s, e);
    forall u | 0 <= u < |next.tasks| ensures TaskOk(next, next.tasks[u]) {
      assert TaskOk(s, s.tasks[u]);
    }
  }

  lemma StepHistory(s: State, e: Event)
    requires CacheOk(s) && HistoryOk(s) && TasksOk(s) && After(s, e).Some?
    ensures HistoryOk(After(s, e).value)
  {
    StepFrame(s, e);
    if e.Store? {
      assert TaskOk(s, s.tasks[e.task]);
    }
  }

  lemma StepHits(s: State, e: Event)
    requires CacheOk(s) && HistoryOk(s) && HitsOk(s) && After(s, e).Some?
    ensures HitsOk(After(s, e).value)
  {
    StepFrame(s, e);
    StepServes(s, e);
    var next := After(s, e).value;
    forall i | 0 <= i < |next.hits| ensures HitOk(next.hits[i], next.stored) {
      if i < |s.hits| {
        assert HitOk(s.hits[i], s.stored);
      } else {
        assert ResponseOk(s.stored[|s.stored| - 1], s.now);
      }
    }
  }

  /** A step serves at most one call, and only from a cached token that is still valid. */
  lemma StepServes(s: State, e: Event)
    requires CacheOk(s) && After(s, e).Some?
    ensures var next := After(s, e).value;
      || next.hits == s.hits
      || (StillValid(s.cache, s.now) && s.stored != [] && next.stored == s.stored
          && next.hits == s.hits + [Hit(e.task, s.now, ToCache(s.stored[|s.stored| - 1]), |s.stored| - 1)])
  {
  }

  /** The history of stored responses and hits only grows. */
  lemma StepGrows(s: State, e: Event)
    requires After(s, e).Some?
    ensures s.stored <= After(s, e).value.stored && s.hits <= After(s, e).value.hits
  {
  }

  lemma StepReturns(s: State, e: Event)
    requires ReturnsOk(s) && After(s, e).Some?
    ensures ReturnsOk(After(s, e).value)
  {
    var next := After(s, e).value;
    StepFrame(s, e);
    StepGrows(s, e);
    forall u | 0 <= u < |next.tasks| ensures ReturnOk(next, u, next.tasks[u]) {
      assert ReturnOk(s, u, s.tasks[u]);
    }
  }

  lemma StepInv(s: State, e: Event)
    requires Inv(s) && After(s, e).Some?
    ensures Inv(After(s, e).value)
  {
    StepMutex(s, e);
    StepCache(s, e);
    StepFixed(s, e);
    StepTasks(s, e);
    StepHistory(s, e);
    StepHits(s, e);
    StepReturns(s, e);
  }

  lemma {:induction false} RunInv(s: State, events: seq<Event>)
    requires Inv(s) && Run(s, events).Some?
    ensures Inv(Run(s, events).value)
    decreases |events|
  {
    if events != [] {
      StepInv(s, events[0]);
      RunInv(After(s, events[0]).value, events[1..]);
    }
  }

  lemma ReachedInv(s: State)
    requires Reached(s)
    ensures Inv(s)
  {
    var fixed, tasks: nat, events :| Run(Init(fixed, tasks), events) == Some(s);
    InitInv(fixed, tasks);
    RunInv(Init(fixed, tasks), events);
  }

  // ----- properties of every run -----

  /** At most one task is fetching or storing, and meanwhile nothing unexpired is cached. */
  lemma OneFetchAndOnlyWhenStale(s: State, t: nat)
    requires Reached(s) && t < |s.tasks| && (s.tasks[t].Fetching? || s.tasks[t].Storing?)
    ensures forall u :: 0 <= u < |s.tasks| && u != t ==> !Holds(s.tasks[u])
    ensures !StillValid(s.cache, s.now)
  {
    ReachedInv(s);
    assert TaskOk(s, s.tasks[t]);
  }

  /** Starts at least `w` apart one by one are at least `j - i` times `w` apart over a stretch. */
  lemma {:induction false} SpacedBy(stored: seq<Response>, w: nat, i: nat, j: nat)
    requires i <= j < |stored|
    requires forall k :: 0 < k < |stored| ==> stored[k - 1].started + w <= stored[k].started
    ensures stored[i].started + (j - i) * w <= stored[j].started
    decreases j - i
  {
    if i < j {
      SpacedBy(stored, w, i, j - 1);
      OneMore(j - 1 - i, w);
    }
  }

  /** Each stored fetch began no earlier than the expiry of the token stored before it. */
  lemma FetchesAreSpaced(s: State, n: nat, i: nat, j: nat)
    requires Reached(s) && i <= j < |s.stored|
    requires forall k :: 0 <= k < |s.stored| ==> s.stored[k].lifetime >= n
    ensures s.stored[i].started + (j - i) * (Window(n) * SECOND) <= s.stored[j].started
  {
    forall k | 0 < k < |s.stored| ensures s.stored[k - 1].started + Window(n) * SECOND <= s.stored[k].started {
      NextFetchIsSpaced(s, n, k);
    }
    SpacedBy(s.stored, Window(n) * SECOND, i, j);
  }

  lemma NextFetchIsSpaced(s: State, n: nat, j: nat)
    requires Reached(s) && 0 < j < |s.stored| && s.stored[j - 1].lifetime >= n
    ensures s.stored[j - 1].started + Window(n) * SECOND <= s.stored[j].started
  {
    ReachedInv(s);
    var last := s.stored[j - 1];
    WindowMonotone(n, last.lifetime);
    assert ResponseOk(last, s.now);
    assert ToCache(last).expiresAt <= s.stored[j].started;
  }

  /**
   Rate limit: if every stored token lives at least `n > 30` seconds, then among the fetches that began
   within a span of `span` nanoseconds there are at most 1 + span / window.
   */
  lemma FetchRate(s: State, n: nat, i: nat, j: nat, span: nat)
    requires Reached(s) && n > 30 && i <= j < |s.stored|
    requires forall k :: 0 <= k < |s.stored| ==> s.stored[k].lifetime >= n
    requires s.stored[j].started <= s.stored[i].started + span
    ensures Window(n) > 0 && j - i + 1 <= 1 + span / (Window(n) * SECOND)
  {
    FetchesAreSpaced(s, n, i, j);
    WindowBounds(n);
    DivideSpan(j - i, Window(n) * SECOND, span);
  }

  lemma OneMore(k: nat, w: nat)
    ensures (k + 1) * w == k * w + w
  {
  }

  lemma MulLe(a: nat, b: nat, w: nat)
    requires a <= b
    ensures a * w <= b * w
  {
  }

  lemma DivideSpan(k: nat, w: nat, span: nat)
    requires w > 0 && k * w <= span
    ensures k <= span / w
  {
    if span / w < k {
      MulLe(span / w + 1, k, w);
      assert false;
    }
  }

  /**
   Every cache hit precedes the real expiry of the token it serves, provided the token took at most
   thirty seconds from issue to arrival and its stated lifetime is true.
   */
  lemma HitPrecedesExpiry(s: State, i: nat)
    requires Reached(s) && i < |s.hits|
    ensures var h := s.hits[i];
      && h.source < |s.stored| && h.at < h.served.expiresAt && h.served.text == s.stored[h.source].text
      && (s.stored[h.source].received <= s.stored[h.source].issued + 30 * SECOND ==>
            h.at < s.stored[h.source].issued + s.stored[h.source].lifetime * SECOND)
  {
    ReachedInv(s);
    var h := s.hits[i];
    assert HitOk(h, s.stored);
    var r := s.stored[h.source];
    WindowBounds(r.lifetime);
    if r.lifetime > 30 {
      assert Window(r.lifetime) * SECOND + 30 * SECOND <= r.lifetime * SECOND;
    }
  }

  /**
   What a finishing call returns, in any state: the static token, nothing after a failed fetch, the text of the
   response it has just stored, or else the text of the cached token, which is then valid.
   */
  lemma StepAnswers(s: State, e: Event)
    requires After(s, e).Some? && !e.Tick? && After(s, e).value.tasks[e.task].Returned?
    ensures var next := After(s, e).value;
      var token := next.tasks[e.task].token;
      && (e.Bypass? ==> token == s.fixed && token.Some?)
      && (e.FetchFails? ==> token.None?)
      && (e.Store? ==> s.tasks[e.task].Storing? && token == Some(s.tasks[e.task].response.text))
      && (!e.Bypass? && !e.FetchFails? && !e.Store? ==>
            && s.cache.Some? && s.now < s.cache.value.expiresAt && token == Some(s.cache.value.text)
            && |next.hits| == |s.hits| + 1 && next.hits[|s.hits|].task == e.task && next.hits[|s.hits|].at == s.now)
  {
  }

  /** A token returned from the cache was unexpired when it was returned, and is the one then cached. */
  lemma ReturnedFromCache(s: State, t: nat)
    requires Reached(s) && t < |s.tasks| && s.tasks[t].Returned? && s.tasks[t].origin.FromCache?
    ensures var i := s.tasks[t].origin.hit;
      && i < |s.hits| && s.hits[i].task == t && s.hits[i].at < s.hits[i].served.expiresAt
      && s.hits[i].source < |s.stored| && s.hits[i].served == ToCache(s.stored[s.hits[i].source])
      && s.tasks[t].token == Some(s.stored[s.hits[i].source].text)
  {
    ReachedInv(s);
    assert ReturnOk(s, t, s.tasks[t]);
    assert HitOk(s.hits[s.tasks[t].origin.hit], s.stored);
  }

  /** Every fetched token that a call returns has been stored: the fetches that are not, returned nothing. */
  lemma ReturnedTokenWasStored(s: State, t: nat)
    requires Reached(s) && s.fixed.None? && t < |s.tasks| && s.tasks[t].Returned? && s.tasks[t].token.Some?
    ensures exists i :: 0 <= i < |s.stored| && s.stored[i].text == s.tasks[t].token.value
  {
    ReachedInv(s);
    assert ReturnOk(s, t, s.tasks[t]);
    if s.tasks[t].origin.FromCache? {
      ReturnedFromCache(s, t);
    }
  }

  /** The cache is served exactly from the arrival of the newest stored response until its buffer before expiry. */
  lemma CacheServesItsWindow(s: State)
    requires Reached(s)
    ensures s.stored == [] ==> !StillValid(s.cache, s.now)
    ensures s.stored != [] ==>
      var last := s.stored[|s.stored| - 1];
      && s.cache.Some? && s.cache.value.text == last.text
      && (StillValid(s.cache, s.now)
          <==> s.now < last.received + (last.lifetime - Buffer(last.lifetime)) * 1_000_000_000)
  {
    ReachedInv(s);
    if s.stored != [] {
      WindowBounds(s.stored[|s.stored| - 1].lifetime);
    }
  }

  /** An answered fetch that gets to store its token returns it, and caches it for the window after its arrival. */
  lemma FetchThenStore(s: State, t: nat, text: string, issued: Instant, lifetime: nat)
    requires t < |s.tasks| && s.tasks[t].Fetching? && s.tasks[t].started <= issued <= s.now
    ensures var arrived := After(s, FetchSucceeds(t, text, issued, lifetime));
      arrived.Some? && After(arrived.value, Store(t)).Some? &&
      var next := After(arrived.value, Store(t)).value;
      && next.cache == Some(CachedToken(text, s.now + Window(lifetime) * 1_000_000_000))
      && next.tasks[t].Returned? && next.tasks[t].token == Some(text) && next.holder.None?
      && next.stored == s.stored + [Response(text, s.tasks[t].started, issued, s.now, lifetime)]
  {
  }

  /** A call awaits the mutex exactly when its first read finds nothing valid, and fetches when its second does not. */
  lemma ReadsDecide(s: State, t: nat)
    requires t < |s.tasks| && s.fixed.None?
    ensures s.tasks[t].Entered? ==>
      After(s, FirstRead(t)).Some? &&
      var next := After(s, FirstRead(t)).value;
      && next.holder == s.holder
      && (if StillValid(s.cache, s.now) then next.tasks[t].Returned? else next.tasks[t].AwaitingMutex?)
    ensures s.tasks[t].Rechecking? ==>
      After(s, SecondRead(t)).Some? &&
      var next := After(s, SecondRead(t)).value;
      if StillValid(s.cache, s.now) then next.tasks[t].Returned? && next.holder.None?
      else next.tasks[t] == Fetching(s.now) && next.holder == s.holder
  {
  }

  /** With a static access token nothing is ever fetched or cached. */
  lemma StaticTokenNeverFetches(s: State)
    requires Reached(s) && s.fixed.Some?
    ensures s.stored == [] && s.cache.None? && forall t :: 0 <= t < |s.tasks| ==> !Holds(s.tasks[t])
    ensures forall t :: 0 <= t < |s.tasks| && s.tasks[t].Returned? ==> s.tasks[t].token == s.fixed
  {
    ReachedInv(s);
  }

  // ----- progress -----

  /** How far a call has come. */
  function Stage(pc: Pc): nat {
    match pc
    case Idle => 0
    case Entered => 1
    case AwaitingMutex => 2
    case Rechecking => 3
    case Fetching(_) => 4
    case Storing(_) => 5
    case Returned(_, _) => 6
  }

  /** A call never goes back: each of its steps takes it further, so five are the most it can take. */
  lemma StepsGoForward(s: State, e: Event)
    requires After(s, e).Some? && !e.Tick? && !e.Call? && !e.Cancel?
    ensures 0 < Stage(s.tasks[e.task]) < Stage(After(s, e).value.tasks[e.task])
  {
  }

  /** A task not in a call can start one, one in a call can be cancelled, and time can always pass. */
  lemma CallsStartAndCancel(s: State, t: nat, elapsed: nat)
    requires Reached(s) && t < |s.tasks|
    ensures var inCall := !s.tasks[t].Idle? && !s.tasks[t].Returned?;
      && (After(s, Call(t)) == if inCall then None else Some(s.(tasks := s.tasks[t := Entered])))
      && (After(s, Cancel(t)).Some? <==> inCall)
      && (inCall ==>
            var next := After(s, Cancel(t)).value;
            && next.tasks == s.tasks[t := Idle] && next.holder != Some(t) && next.cache == s.cache
            && (s.holder != Some(t) ==> next.holder == s.holder))
    ensures After(s, Tick(elapsed)) == Some(s.(now := s.now + elapsed))
  {
    ReachedInv(s);
  }

  /** An event that advances the call of one task, without cancelling it. */
  predicate Advances(s: State, t: nat, e: Event) {
    !e.Tick? && !e.Call? && !e.Cancel? && e.task == t && After(s, e).Some?
  }

  /** The event a task in the middle of a call is waiting to make. */
  function NextEvent(s: State, t: nat): Event
    requires t < |s.tasks|
  {
    match s.tasks[t]
    case Entered => if s.fixed.Some? then Bypass(t) else FirstRead(t)
    case AwaitingMutex => Lock(t)
    case Rechecking => SecondRead(t)
    case Fetching(_) => FetchFails(t)
    case Storing(_) => Store(t)
    case _ => Call(t)
  }

  /**
   No deadlock, also after cancellations: a task in the middle of a call can take a step itself, or it
   awaits the mutex and the task holding it can.
   */
  lemma NoDeadlock(s: State, t: nat)
    requires Reached(s) && t < |s.tasks| && !s.tasks[t].Idle? && !s.tasks[t].Returned?
    ensures Advances(s, t, NextEvent(s, t))
      || (s.tasks[t].AwaitingMutex? && s.holder.Some? && s.holder.value < |s.tasks|
          && Advances(s, s.holder.value, NextEvent(s, s.holder.value)))
  {
    ReachedInv(s);
    if s.holder.Some? {
      assert Holds(s.tasks[s.holder.value]);
    }
  }
}
