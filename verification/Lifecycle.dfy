/** The server's lifecycle: start, rollback, close, old serving tasks and client admission, as the steps
    that can interleave at await points. */
module Lifecycle {
  import opened Wire

  const MAX_CLIENTS := 32
  const MAX_REPORTS := 4

  type Listener = nat
  type Task = nat

  /** Where a coroutine inside `_start` is waiting; it holds the lifecycle lock throughout. */
  datatype Starting =
    | Idle
    | Binding(http: bool)
    | BindingHttp
    | Activating
    | ActivatingHttp
    | RollingBack(task: Task)

  /** A shutdown task. It remembers what it closed and whom it waits for. */
  datatype Shutdown =
    | Scheduled
    | Draining(listeners: set<Listener>, waiting: set<nat>)
    | Gathering(listeners: set<Listener>, waiting: set<nat>)
    | Closing(listeners: set<Listener>)
    | Done

  /** Why a shutdown was created: on behalf of which serving task, if any, and with which listeners current. */
  datatype Request = Request(requester: Option<Listener>, server: Option<Listener>, http: Option<Listener>)

  /** A `serve_forever` call: serving its own listener, and the redirect listener that was there when it began,
      then joining whatever `_close` told it to. */
  datatype Serving = Running(http: Option<Listener>) | Joining(task: Option<Task>, http: Option<Listener>)

  datatype State = State(
    server: Option<Listener>,
    httpServer: Option<Listener>,
    clients: set<nat>,
    reports: set<nat>,
    serving: map<Listener, Serving>,
    closeTask: Option<Task>,
    closing: bool,
    starting: Starting,
    wanted: bool,                         // whether the last start was asked for a redirect listener
    shutdowns: map<Task, Shutdown>,
    closedBy: map<Listener, seq<Task>>,   // every listener ever opened, and the shutdowns that closed it
    dropped: set<(Listener, Listener)>,   // whose serving task ended, and what asyncio closed at that
    requests: map<Task, Request>,         // every shutdown ever created, and why
    next: nat)                            // a name not given out yet

  const FRESH := State(None, None, {}, {}, map[], None, false, Idle, false, map[], map[], {}, map[], 0)

  datatype Reply = Fine | RuntimeError | Rejected

  datatype Result = Result(state: State, reply: Reply)

  // ----------------------------------------------------------------- start

  predicate Unfinished(s: State) {
    s.closeTask.Some? && s.closeTask.value in s.shutdowns && !s.shutdowns[s.closeTask.value].Done?
  }

  /** `_start` up to its first await, once the lock is held. */
  function StartBegins(s: State, http: bool): Result {
    if s.server.Some? || s.httpServer.Some? || Unfinished(s) then Result(s, RuntimeError)
    else Result(s.(closeTask := None, closing := false, starting := Binding(http), wanted := http), Fine)
  }

  /** The HTTPS listener is bound, or binding failed before there was anything to roll back. */
  function Bound(s: State, ok: bool): Result
    requires s.starting.Binding?
  {
    if !ok then Result(s.(starting := Idle), RuntimeError)
    else Result(s.(server := Some(s.next), closedBy := s.closedBy[s.next := []], next := s.next + 1,
                starting := if s.starting.http then BindingHttp else Activating), Fine)
  }

  function Rollback(s: State): Result {
    var t := Schedule(s, None);
    Result(t.(starting := RollingBack(t.closeTask.value)), Fine)
  }

  /** Creates the shutdown task. */
  function Schedule(s: State, requester: Option<Listener>): (t: State)
    ensures t.closeTask.Some?
  {
    s.(closing := true, closeTask := Some(s.next), shutdowns := s.shutdowns[s.next := Scheduled],
       requests := s.requests[s.next := Request(requester, s.server, s.httpServer)], next := s.next + 1)
  }

  function BoundHttp(s: State, ok: bool): Result
    requires s.starting.BindingHttp?
  {
    if !ok then Rollback(s)
    else Result(s.(httpServer := Some(s.next), closedBy := s.closedBy[s.next := []], next := s.next + 1,
                starting := Activating), Fine)
  }

  function Activated(s: State, ok: bool): Result
    requires s.starting.Activating?
  {
    if !ok then Rollback(s)
    else Result(s.(starting := if s.httpServer.Some? then ActivatingHttp else Idle), Fine)
  }

  function ActivatedHttp(s: State, ok: bool): Result
    requires s.starting.ActivatingHttp?
  {
    if !ok then Rollback(s) else Result(s.(starting := Idle), Fine)
  }

  /** The rollback has been joined, or the caller was cancelled while its shutdown goes on. */
  function RolledBack(s: State): Result
    requires s.starting.RollingBack?
  {
    Result(s.(starting := Idle), RuntimeError)
  }

  // ----------------------------------------------------------------- close

  /** The locked part of `_close`: which shutdown to join, if any. */
  function Close(s: State, expected: Option<Listener>): (State, Option<Task>) {
    if expected.Some? && s.server != expected then (s, None)
    else
      var t := if s.closeTask.None? then Schedule(s, expected) else s;
      (t, t.closeTask)
  }

  function Listeners(s: State): set<Listener> {
    (if s.server.Some? then {s.server.value} else {}) + (if s.httpServer.Some? then {s.httpServer.value} else {})
  }

  /** `_shutdown` up to its wait: it closes the listeners and takes note of the clients. */
  function ShutdownBegins(s: State, task: Task): State {
    var ls := Listeners(s);
    s.(shutdowns := s.shutdowns[task := Draining(ls, s.clients)],
       closedBy := map l | l in s.closedBy :: if l in ls then s.closedBy[l] + [task] else s.closedBy[l])
  }

  /** Everyone has finished or the grace period is over; whoever is left is cancelled. */
  function DrainEnds(s: State, task: Task): State
    requires task in s.shutdowns && s.shutdowns[task].Draining?
  {
    var d := s.shutdowns[task];
    s.(shutdowns := s.shutdowns[task := Gathering(d.listeners, d.waiting)])
  }

  function Gathered(s: State, task: Task): State
    requires task in s.shutdowns && s.shutdowns[task].Gathering?
  {
    s.(shutdowns := s.shutdowns[task := Closing(s.shutdowns[task].listeners)])
  }

  function ShutdownEnds(s: State, task: Task): State {
    s.(shutdowns := s.shutdowns[task := Done], server := None, httpServer := None)
  }

  // ----------------------------------------------------------------- serve

  function ServeBegins(s: State): Result {
    if s.server.None? || s.server.value in s.serving then Result(s, RuntimeError)
    else Result(s.(serving := s.serving[s.server.value := Running(s.httpServer)]), Fine)
  }

  /** A serving task ends: it closes its own listener, and only if it is still the current one. */
  function ServeCloses(s: State, l: Listener): State
    requires l in s.serving
  {
    var (t, task) := Close(s, Some(l));
    t.(serving := t.serving[l := Joining(task, s.serving[l].http)])
  }

  /** The listeners a serving task serves. */
  function Own(s: State, l: Listener): set<Listener>
    requires l in s.serving
  {
    {l} + if s.serving[l].http.Some? then {s.serving[l].http.value} else {}
  }

  /** Its inner tasks are cancelled, at which asyncio closes the listeners they served. */
  function ServeEnds(s: State, l: Listener): State
    requires l in s.serving
  {
    s.(serving := s.serving - {l}, dropped := s.dropped + set k | k in Own(s, l) :: (l, k))
  }

  // --------------------------------------------------------------- clients

  function Accept(s: State): Result {
    if s.closing then Result(s, Rejected)
    else if |s.clients| >= MAX_CLIENTS then Result(s, Rejected)
    else Result(s.(clients := s.clients + {s.next}, next := s.next + 1), Fine)
  }

  /** The task is done: its report slot is given back first, then the client is dropped. */
  function ClientDone(s: State, c: nat): State { s.(clients := s.clients - {c}, reports := s.reports - {c}) }

  function TakeSlot(s: State, c: nat): Result {
    if c in s.reports then Result(s, Fine)
    else if |s.reports| >= MAX_REPORTS then Result(s, Rejected)
    else Result(s.(reports := s.reports + {c}), Fine)
  }

  // ------------------------------------------------------------------ steps

  datatype Action =
    | DoStart(http: bool)
    | DoBound(ok: bool)
    | DoBoundHttp(ok: bool)
    | DoActivated(ok: bool)
    | DoActivatedHttp(ok: bool)
    | DoRolledBack
    | DoClose
    | DoShutdownBegins(task: Task)
    | DoDrainEnds(task: Task)
    | DoGathered(task: Task)
    | DoShutdownEnds(task: Task)
    | DoServe
    | DoServeCloses(listener: Listener)
    | DoServeEnds(listener: Listener)
    | DoAccept
    | DoClientDone(client: nat)
    | DoReport(client: nat)

  /** What can happen next. The lock is free exactly when nobody is inside `_start`. */
  predicate Enabled(s: State, a: Action) {
    match a
    case DoStart(_) => s.starting.Idle?
    case DoBound(_) => s.starting.Binding?
    case DoBoundHttp(_) => s.starting.BindingHttp?
    case DoActivated(_) => s.starting.Activating?
    case DoActivatedHttp(_) => s.starting.ActivatingHttp?
    case DoRolledBack => s.starting.RollingBack?
    case DoClose => s.starting.Idle?
    case DoShutdownBegins(task) => task in s.shutdowns && s.shutdowns[task].Scheduled?
    case DoDrainEnds(task) => task in s.shutdowns && s.shutdowns[task].Draining?
    case DoGathered(task) => task in s.shutdowns && s.shutdowns[task].Gathering? && s.shutdowns[task].waiting !! s.clients
    case DoShutdownEnds(task) => task in s.shutdowns && s.shutdowns[task].Closing?
    case DoServe => true
    case DoServeCloses(l) => s.starting.Idle? && l in s.serving && s.serving[l].Running?
    case DoServeEnds(l) => l in s.serving
    case DoAccept => true
    case DoClientDone(c) => c in s.clients
    case DoReport(c) => c in s.clients
  }

  function Step(s: State, a: Action): State
    requires Enabled(s, a)
  {
    match a
    case DoStart(http) => StartBegins(s, http).state
    case DoBound(ok) => Bound(s, ok).state
    case DoBoundHttp(ok) => BoundHttp(s, ok).state
    case DoActivated(ok) => Activated(s, ok).state
    case DoActivatedHttp(ok) => ActivatedHttp(s, ok).state
    case DoRolledBack => RolledBack(s).state
    case DoClose => Close(s, None).0
    case DoShutdownBegins(task) => ShutdownBegins(s, task)
    case DoDrainEnds(task) => DrainEnds(s, task)
    case DoGathered(task) => Gathered(s, task)
    case DoShutdownEnds(task) => ShutdownEnds(s, task)
    case DoServe => ServeBegins(s).state
    case DoServeCloses(l) => ServeCloses(s, l)
    case DoServeEnds(l) => ServeEnds(s, l)
    case DoAccept => Accept(s).state
    case DoClientDone(c) => ClientDone(s, c)
    case DoReport(c) => TakeSlot(s, c).state
  }

  /** Any interleaving: actions that cannot happen are skipped. */
  function Run(s: State, actions: seq<Action>): State {
    if actions == [] then s
    else
      var t := Run(s, actions[..|actions| - 1]);
      if Enabled(t, actions[|actions| - 1]) then Step(t, actions[|actions| - 1]) else t
  }

  // -------------------------------------------------------------- invariant

  ghost predicate ClientsInv(s: State) {
    && |s.clients| <= MAX_CLIENTS && |s.reports| <= MAX_REPORTS && s.reports <= s.clients
  }

  /** Names are never given out twice. */
  ghost predicate NamesInv(s: State) {
    && (forall c :: c in s.clients ==> c < s.next)
    && (forall l :: l in s.closedBy ==> l < s.next)
    && (forall t :: t in s.shutdowns ==> t < s.next)
  }

  /** At most one shutdown is unfinished: the current close task, while new clients are turned away. */
  ghost predicate TaskInv(s: State) {
    && (s.closeTask.Some? ==> s.closeTask.value in s.shutdowns && s.closing)
    && (forall t :: t in s.shutdowns && !s.shutdowns[t].Done? ==> s.closeTask == Some(t))
  }

  ghost predicate StartInv(s: State) {
    match s.starting
    case Idle =>
      && (s.server.None? ==> s.httpServer.None?)
      && (s.server.Some? && s.closeTask.None? ==> (s.httpServer.Some? <==> s.wanted))
    case Binding(http) => s.closeTask.None? && s.server.None? && s.httpServer.None? && s.wanted == http
    case BindingHttp => s.closeTask.None? && s.server.Some? && s.httpServer.None? && s.wanted
    case Activating => s.closeTask.None? && s.server.Some? && (s.httpServer.Some? <==> s.wanted)
    case ActivatingHttp => s.closeTask.None? && s.server.Some? && s.httpServer.Some? && s.wanted
    case RollingBack(t) => s.closeTask == Some(t) && (s.server.None? ==> s.httpServer.None?)
  }

  /** What the close task has done so far. */
  function Progress(s: State): Option<Shutdown> {
    if s.closeTask.Some? && s.closeTask.value in s.shutdowns then Some(s.shutdowns[s.closeTask.value]) else None
  }

  /** The listeners have not changed since the shutdown was asked for. */
  ghost predicate Requested(s: State, task: Task) {
    task in s.requests && s.requests[task].server == s.server && s.requests[task].http == s.httpServer
  }

  ghost predicate ProgressInv(s: State) {
    match Progress(s)
    case None => true
    case Some(Scheduled) => Requested(s, s.closeTask.value)
    case Some(Draining(ls, waiting)) => ls == Listeners(s) && s.clients <= waiting
    case Some(Gathering(ls, waiting)) => ls == Listeners(s) && s.clients <= waiting
    case Some(Closing(ls)) => ls == Listeners(s) && s.clients == {}
    case Some(Done) => Listeners(s) == {} && s.clients == {}
  }

  /** Current listeners are open until the close task begins, and it alone closes them; all others have
      been closed exactly once. */
  ghost predicate ListenersInv(s: State) {
    && Listeners(s) <= s.closedBy.Keys
    && (s.server.Some? && s.httpServer.Some? ==> s.server != s.httpServer)
    && (forall l :: l in s.closedBy && l !in Listeners(s) ==> |s.closedBy[l]| == 1)
    && (forall l :: l in Listeners(s) ==>
          s.closedBy[l] == if Progress(s).None? || Progress(s).value.Scheduled? then [] else [s.closeTask.value])
  }

  /** A shutdown closes only what it was asked for, and a serving task asks only for its own listener. */
  ghost predicate RequestInv(s: State) {
    && s.requests.Keys == s.shutdowns.Keys
    && (forall t :: t in s.requests && s.requests[t].requester.Some? ==> s.requests[t].server == s.requests[t].requester)
    && (forall l, t :: l in s.closedBy && t in s.closedBy[l] ==> AskedFor(s, t, l))
  }

  predicate AskedFor(s: State, t: Task, l: Listener) {
    t in s.requests && (s.requests[t].server == Some(l) || s.requests[t].http == Some(l))
  }

  ghost predicate Steady(s: State) {
    RequestInv(s) && ClientsInv(s) && NamesInv(s) && TaskInv(s) && StartInv(s) && ProgressInv(s) && ListenersInv(s)
  }

  /** What a serving task has to do with the current listeners: nothing, unless its own is current. */
  ghost predicate Apart(s: State, own: Listener, l: Listener) {
    own in s.closedBy && l in s.closedBy && (l in Listeners(s) ==> s.server == Some(own))
  }

  ghost predicate ServingInv(s: State) {
    && (forall own :: own in s.serving ==>
          && Apart(s, own, own)
          && (s.serving[own].http.Some? ==> Apart(s, own, s.serving[own].http.value)))
    && (forall own, l :: (own, l) in s.dropped ==> Apart(s, own, l))
  }

  ghost predicate Inv(s: State) { Steady(s) && ServingInv(s) }

  // ------------------------------------------------------ every step keeps it

  lemma ScheduleKeeps(s: State, p: Starting, requester: Option<Listener>)
    requires Steady(s) && s.closeTask.None? && !s.starting.Binding? && (p.Idle? || p == RollingBack(s.next))
    requires requester.Some? ==> s.server == requester
    ensures Steady(Schedule(s, requester).(starting := p))
  {
    hide ListenersInv, RequestInv;
    ScheduleListeners(s, p, requester);
    ScheduleRequests(s, p, requester);
  }

  lemma ScheduleListeners(s: State, p: Starting, requester: Option<Listener>)
    requires ListenersInv(s) && s.closeTask.None?
    ensures ListenersInv(Schedule(s, requester).(starting := p))
  {
  }

  lemma ScheduleRequests(s: State, p: Starting, requester: Option<Listener>)
    requires RequestInv(s) && NamesInv(s) && (requester.Some? ==> s.server == requester)
    ensures RequestInv(Schedule(s, requester).(starting := p))
  {
    var t := Schedule(s, requester);
    assert forall k :: k in s.requests ==> k in s.shutdowns.Keys;
    assert forall k, l :: AskedFor(s, k, l) ==> AskedFor(t.(starting := p), k, l);
  }

  lemma StartBeginsKeeps(s: State, http: bool)
    requires Steady(s) && s.starting.Idle?
    ensures Steady(StartBegins(s, http).state)
  {
  }

  lemma BoundKeeps(s: State, ok: bool)
    requires Steady(s) && s.starting.Binding?
    ensures Steady(Bound(s, ok).state)
  {
    hide RequestInv;
    OpenedRequests(s, Bound(s, ok).state);
  }

  lemma BoundHttpKeeps(s: State, ok: bool)
    requires Steady(s) && s.starting.BindingHttp?
    ensures Steady(BoundHttp(s, ok).state)
  {
    if !ok {
      ScheduleKeeps(s, RollingBack(s.next), None);
      hide Steady;
    } else {
      hide RequestInv;
      OpenedRequests(s, BoundHttp(s, ok).state);
    }
  }

  /** A new listener has been closed by nobody. */
  lemma OpenedRequests(s: State, t: State)
    requires RequestInv(s) && t.requests == s.requests && t.shutdowns == s.shutdowns
    requires t.closedBy == s.closedBy || t.closedBy == s.closedBy[s.next := []]
    ensures RequestInv(t)
  {
    assert forall k, l :: AskedFor(s, k, l) == AskedFor(t, k, l);
  }

  lemma ActivatedKeeps(s: State, ok: bool)
    requires Steady(s)
    ensures s.starting.Activating? ==> Steady(Activated(s, ok).state)
    ensures s.starting.ActivatingHttp? ==> Steady(ActivatedHttp(s, ok).state)
    ensures s.starting.RollingBack? ==> Steady(RolledBack(s).state)
  {
    hide Steady;
    match s.starting
    case Activating =>
      LockedIsOpen(s);
      ScheduleKeeps(s, RollingBack(s.next), None);
      StartingMoves(s, if s.httpServer.Some? then ActivatingHttp else Idle);
    case ActivatingHttp =>
      LockedIsOpen(s);
      ScheduleKeeps(s, RollingBack(s.next), None);
      StartingMoves(s, Idle);
    case RollingBack(_) => StartingMoves(s, Idle);
    case _ =>
  }

  lemma LockedIsOpen(s: State)
    requires Steady(s) && (s.starting.Activating? || s.starting.ActivatingHttp?)
    ensures s.closeTask.None?
  {
  }

  lemma StartingMoves(s: State, p: Starting)
    requires Steady(s) && s.starting != Idle && !s.starting.Binding? && !s.starting.BindingHttp?
    requires p.Idle? || (p.ActivatingHttp? && s.starting.Activating? && s.httpServer.Some?)
    ensures Steady(s.(starting := p))
  {
  }

  lemma CloseKeeps(s: State, expected: Option<Listener>)
    requires Steady(s) && s.starting.Idle?
    ensures Steady(Close(s, expected).0) && Close(s, expected).0.starting.Idle?
  {
    if s.closeTask.None? && (expected.Some? ==> s.server == expected) { ScheduleKeeps(s, Idle, expected); }
    hide Steady;
  }

  lemma ShutdownBeginsKeeps(s: State, task: Task)
    requires Steady(s) && task in s.shutdowns && s.shutdowns[task].Scheduled?
    ensures Steady(ShutdownBegins(s, task))
  {
    BeginListeners(s, task);
    BeginRequests(s, task);
    hide ListenersInv, RequestInv;
  }

  lemma BeginListeners(s: State, task: Task)
    requires TaskInv(s) && ListenersInv(s) && task in s.shutdowns && s.shutdowns[task].Scheduled?
    ensures ListenersInv(ShutdownBegins(s, task))
  {
    assert Progress(s) == Some(Scheduled);
    assert Listeners(ShutdownBegins(s, task)) == Listeners(s);
  }

  lemma BeginRequests(s: State, task: Task)
    requires TaskInv(s) && ProgressInv(s) && RequestInv(s) && task in s.shutdowns && s.shutdowns[task].Scheduled?
    ensures RequestInv(ShutdownBegins(s, task))
  {
    var t := ShutdownBegins(s, task);
    assert Progress(s) == Some(Scheduled) && Requested(s, task);
    assert t.shutdowns.Keys == s.shutdowns.Keys;
    assert forall k, l :: AskedFor(s, k, l) == AskedFor(t, k, l);
  }

  lemma DrainKeeps(s: State, task: Task)
    requires Steady(s) && task in s.shutdowns && s.shutdowns[task].Draining?
    ensures Steady(DrainEnds(s, task))
  {
  }

  lemma GatherKeeps(s: State, task: Task)
    requires Steady(s) && task in s.shutdowns && s.shutdowns[task].Gathering? && s.shutdowns[task].waiting !! s.clients
    ensures Steady(Gathered(s, task))
  {
    assert s.clients == {};
  }

  lemma ShutdownEndsKeeps(s: State, task: Task)
    requires Steady(s) && task in s.shutdowns && s.shutdowns[task].Closing?
    ensures Steady(ShutdownEnds(s, task))
  {
  }

  lemma ServingIsAside(s: State, t: State)
    requires Steady(s) && t == s.(serving := t.serving, dropped := t.dropped)
    ensures Steady(t)
  {
  }

  lemma ServeKeeps(s: State)
    requires Steady(s)
    ensures Steady(ServeBegins(s).state)
  {
    hide Steady;
    ServingIsAside(s, ServeBegins(s).state);
  }

  lemma ServeClosesKeeps(s: State, l: Listener)
    requires Steady(s) && s.starting.Idle? && l in s.serving
    ensures Steady(ServeCloses(s, l))
  {
    hide Steady;
    CloseKeeps(s, Some(l));
    ServingIsAside(Close(s, Some(l)).0, ServeCloses(s, l));
  }

  lemma ServeEndsKeeps(s: State, l: Listener)
    requires Steady(s) && l in s.serving
    ensures Steady(ServeEnds(s, l))
  {
    hide Steady;
    ServingIsAside(s, ServeEnds(s, l));
  }

  lemma AcceptKeeps(s: State)
    requires Steady(s)
    ensures Steady(Accept(s).state)
  {
    hide StartInv, ListenersInv, RequestInv;
    if Accept(s).reply.Fine? {
      assert s.closeTask.None?;
      AcceptIsAside(s, Accept(s).state);
      hide TaskInv;
    }
  }

  lemma AcceptIsAside(s: State, t: State)
    requires t == s.(clients := t.clients, reports := t.reports, next := t.next)
    ensures StartInv(s) ==> StartInv(t)
    ensures ListenersInv(s) ==> ListenersInv(t)
    ensures TaskInv(s) ==> TaskInv(t)
    ensures RequestInv(s) ==> RequestInv(t)
    ensures ProgressInv(s) && t.clients <= s.clients ==> ProgressInv(t)
  {
    assert forall k, l :: AskedFor(s, k, l) == AskedFor(t, k, l);
  }

  lemma ClientKeeps(s: State, c: nat)
    requires Steady(s) && c in s.clients
    ensures Steady(ClientDone(s, c)) && Steady(TakeSlot(s, c).state)
  {
    hide StartInv, ListenersInv, TaskInv, ProgressInv, RequestInv;
    var t, u := ClientDone(s, c), TakeSlot(s, c).state;
    AcceptIsAside(s, t);
    AcceptIsAside(s, u);
    SubsetCard(t.clients, s.clients);
    SubsetCard(t.reports, s.reports);
    assert t.reports <= t.clients && u.reports <= u.clients;
  }

  lemma ApartStays(s: State, t: State, own: Listener, l: Listener)
    requires NamesInv(s) && Apart(s, own, l) && Renamed(s, t)
    ensures Apart(t, own, l)
  {
    assert own in s.closedBy.Keys && l in s.closedBy.Keys;
  }

  /** Serving tasks and what they served stay apart from whatever replaces it. */
  lemma ServingStays(s: State, t: State)
    requires NamesInv(s) && ServingInv(s) && Renamed(s, t)
    ensures ServingInv(t)
  {
    hide Apart, NamesInv;
    forall own, l | Apart(s, own, l) ensures Apart(t, own, l) { ApartStays(s, t, own, l); }
  }

  lemma ApartSame(s: State, t: State)
    requires t.closedBy == s.closedBy && t.server == s.server && t.httpServer == s.httpServer
    ensures forall own, l :: Apart(s, own, l) == Apart(t, own, l)
  {
  }

  lemma ServingAdds(s: State, own: Listener, v: Serving)
    requires ServingInv(s) && Apart(s, own, own) && (v.http.Some? ==> Apart(s, own, v.http.value))
    ensures ServingInv(s.(serving := s.serving[own := v]))
  {
    hide Apart;
    ApartSame(s, s.(serving := s.serving[own := v]));
  }

  lemma ServingDrops(s: State, own: Listener)
    requires ServingInv(s) && own in s.serving
    ensures ServingInv(ServeEnds(s, own))
  {
    hide Apart;
    ApartSame(s, ServeEnds(s, own));
  }

  lemma CloseServes(s: State, expected: Option<Listener>)
    requires Inv(s) && s.starting.Idle?
    ensures Inv(Close(s, expected).0) && Close(s, expected).0.starting.Idle?
  {
    hide ServingInv;
    CloseKeeps(s, expected);
    ServingStays(s, Close(s, expected).0);
    hide Steady;
  }

  lemma StepServes(s: State, a: Action)
    requires Inv(s) && Enabled(s, a)
    ensures ServingInv(Step(s, a))
  {
    hide ServingInv, RequestInv, ClientsInv, TaskInv, ProgressInv, NamesInv;
    match a
    case DoServe =>
      if ServeBegins(s).reply.Fine? { ServingAdds(s, s.server.value, Running(s.httpServer)); }
    case DoServeCloses(l) =>
      CloseServes(s, Some(l));
      var (t, join) := Close(s, Some(l));
      StillServing(t, l);
      ServingAdds(t, l, Joining(join, s.serving[l].http));
    case DoServeEnds(l) => ServingDrops(s, l);
    case _ =>
      hide ListenersInv, Step;
      StepRenames(s, a);
      ServingStays(s, Step(s, a));
  }

  lemma StillServing(s: State, own: Listener)
    requires ServingInv(s) && own in s.serving
    ensures Apart(s, own, own) && (s.serving[own].http.Some? ==> Apart(s, own, s.serving[own].http.value))
  {
  }

  /** The serving tasks are left alone, and listeners are new or gone together. */
  ghost predicate Renamed(s: State, t: State) {
    && t.serving == s.serving && t.dropped == s.dropped && s.closedBy.Keys <= t.closedBy.Keys
    && (t.server == s.server || t.server == Some(s.next) || t.server.None?)
    && (t.httpServer == s.httpServer || t.httpServer == Some(s.next) || t.httpServer.None?)
    && (t.server == s.server || t.httpServer.None?)
  }

  lemma BindingRenames(s: State, http: bool, ok: bool)
    requires StartInv(s)
    ensures Renamed(s, StartBegins(s, http).state) && Renamed(s, Close(s, None).0)
    ensures s.starting.Binding? ==> Renamed(s, Bound(s, ok).state)
    ensures s.starting.BindingHttp? ==> Renamed(s, BoundHttp(s, ok).state)
  {
  }

  lemma ActivatingRenames(s: State, ok: bool)
    ensures s.starting.Activating? ==> Renamed(s, Activated(s, ok).state)
    ensures s.starting.ActivatingHttp? ==> Renamed(s, ActivatedHttp(s, ok).state)
    ensures s.starting.RollingBack? ==> Renamed(s, RolledBack(s).state)
  {
  }

  lemma ShutdownRenames(s: State, task: Task)
    ensures Renamed(s, ShutdownBegins(s, task)) && Renamed(s, ShutdownEnds(s, task))
    ensures task in s.shutdowns && s.shutdowns[task].Draining? ==> Renamed(s, DrainEnds(s, task))
    ensures task in s.shutdowns && s.shutdowns[task].Gathering? ==> Renamed(s, Gathered(s, task))
  {
  }

  lemma ClientRenames(s: State, c: nat)
    ensures Renamed(s, Accept(s).state) && Renamed(s, ClientDone(s, c)) && Renamed(s, TakeSlot(s, c).state)
  {
  }

  lemma StepRenames(s: State, a: Action)
    requires StartInv(s) && Enabled(s, a) && !a.DoServe? && !a.DoServeCloses? && !a.DoServeEnds?
    ensures Renamed(s, Step(s, a))
  {
    hide Renamed, StartInv, StartBegins, Bound, BoundHttp, Activated, ActivatedHttp, RolledBack, Close, ShutdownBegins, DrainEnds,
         Gathered, ShutdownEnds, Accept, ClientDone, TakeSlot;
    match a
    case DoStart(http) => BindingRenames(s, http, true);
    case DoBound(ok) => BindingRenames(s, true, ok);
    case DoBoundHttp(ok) => BindingRenames(s, true, ok);
    case DoActivated(ok) => ActivatingRenames(s, ok);
    case DoActivatedHttp(ok) => ActivatingRenames(s, ok);
    case DoRolledBack => ActivatingRenames(s, true);
    case DoClose => BindingRenames(s, true, true);
    case DoShutdownBegins(task) => ShutdownRenames(s, task);
    case DoDrainEnds(task) => ShutdownRenames(s, task);
    case DoGathered(task) => ShutdownRenames(s, task);
    case DoShutdownEnds(task) => ShutdownRenames(s, task);
    case DoAccept => ClientRenames(s, 0);
    case DoClientDone(c) => ClientRenames(s, c);
    case DoReport(c) => ClientRenames(s, c);
  }

  lemma StepKeeps(s: State, a: Action)
    requires Inv(s) && Enabled(s, a)
    ensures Inv(Step(s, a))
  {
    StepServes(s, a);
    hide Steady, ServingInv, StartBegins, Bound, BoundHttp, Activated, ActivatedHttp, RolledBack, Close, ShutdownBegins, DrainEnds,
         Gathered, ShutdownEnds, ServeBegins, ServeCloses, ServeEnds, Accept, ClientDone, TakeSlot;
    match a
    case DoStart(http) => StartBeginsKeeps(s, http);
    case DoBound(ok) => BoundKeeps(s, ok);
    case DoBoundHttp(ok) => BoundHttpKeeps(s, ok);
    case DoActivated(ok) => ActivatedKeeps(s, ok);
    case DoActivatedHttp(ok) => ActivatedKeeps(s, ok);
    case DoRolledBack => ActivatedKeeps(s, true);
    case DoClose => CloseKeeps(s, None);
    case DoShutdownBegins(task) => ShutdownBeginsKeeps(s, task);
    case DoDrainEnds(task) => DrainKeeps(s, task);
    case DoGathered(task) => GatherKeeps(s, task);
    case DoShutdownEnds(task) => ShutdownEndsKeeps(s, task);
    case DoServe => ServeKeeps(s);
    case DoServeCloses(l) => ServeClosesKeeps(s, l);
    case DoServeEnds(l) => ServeEndsKeeps(s, l);
    case DoAccept => AcceptKeeps(s);
    case DoClientDone(c) => ClientKeeps(s, c);
    case DoReport(c) => ClientKeeps(s, c);
  }

  lemma FreshKeeps()
    ensures Inv(FRESH)
  {
  }

  /** Every interleaving of every number of starts, closes, serving tasks and clients. */
  lemma {:induction false} EveryRunKeeps(actions: seq<Action>)
    ensures Inv(Run(FRESH, actions))
  {
    hide Inv, Step, Enabled;
    if actions == [] {
      FreshKeeps();
    } else {
      EveryRunKeeps(actions[..|actions| - 1]);
      var s, a := Run(FRESH, actions[..|actions| - 1]), actions[|actions| - 1];
      if Enabled(s, a) { StepKeeps(s, a); }
    }
  }

  // ------------------------------------------------------------- what it buys

  /** No start succeeds while a shutdown is unfinished: it is refused and changes nothing, and a start
      that got past the check has no unfinished shutdown beside it but its own rollback. */
  lemma NoStartDuringShutdown(actions: seq<Action>, task: Task, http: bool)
    requires var s := Run(FRESH, actions); task in s.shutdowns && !s.shutdowns[task].Done?
    ensures var s := Run(FRESH, actions);
            && StartBegins(s, http) == Result(s, RuntimeError)
            && (s.starting.Idle? || s.starting == RollingBack(task))
  {
    EveryRunKeeps(actions);
    hide Run;
  }

  /** What has become of a start since: it is still under way, or its first bind failed, or it was rolled back or
      closed, or it is serving. */
  ghost predicate Started(t: State, http: bool, after: seq<Action>) {
    t.wanted == http && (t.starting.Idle? && t.closeTask.None? ==> t.server.Some? || DoBound(false) in after)
  }

  lemma StartedOn(s: State, a: Action, http: bool, after: seq<Action>)
    requires Inv(s) && Enabled(s, a) && !a.DoStart? && Started(s, http, after)
    ensures Started(Step(s, a), http, after + [a])
  {
    hide RequestInv, ClientsInv, NamesInv, ListenersInv, ServingInv;
    assert DoBound(false) in after ==> DoBound(false) in after + [a];
    assert a in after + [a];
  }

  lemma {:induction false} StartedStays(s: State, http: bool, after: seq<Action>)
    requires Inv(s) && Started(s, http, []) && forall i :: 0 <= i < |after| ==> !after[i].DoStart?
    ensures Inv(Run(s, after)) && Started(Run(s, after), http, after)
  {
    hide Inv, Started, Step, Enabled;
    if after != [] {
      var front, a := after[..|after| - 1], after[|after| - 1];
      assert after == front + [a];
      StartedStays(s, http, front);
      var t := Run(s, front);
      if Enabled(t, a) {
        StepKeeps(t, a);
        StartedOn(t, a, http, front);
      } else {
        StartedSkips(t, http, front, a);
      }
    }
  }

  lemma StartedSkips(t: State, http: bool, after: seq<Action>, a: Action)
    requires Started(t, http, after)
    ensures Started(t, http, after + [a])
  {
  }

  /** A start opens what it was asked to open: once it is over, and unless its first bind failed or a rollback or
      a close has begun since, the listener is there, and the redirect listener exactly if it was asked for. */
  lemma StartOpensWhatWasAsked(before: seq<Action>, http: bool, after: seq<Action>)
    requires var s := Run(FRESH, before); s.starting.Idle? && StartBegins(s, http).reply.Fine?
    requires forall i :: 0 <= i < |after| ==> !after[i].DoStart?
    ensures var t := Run(StartBegins(Run(FRESH, before), http).state, after);
            t.starting.Idle? && t.closeTask.None? && DoBound(false) !in after ==>
              t.server.Some? && (t.httpServer.Some? <==> http)
  {
    EveryRunKeeps(before);
    var s := Run(FRESH, before);
    StepKeeps(s, DoStart(http));
    StartedStays(StartBegins(s, http).state, http, after);
    hide Run, RequestInv, ClientsInv, NamesInv, ListenersInv, ServingInv, ProgressInv;
  }

  /** Every listener ever opened is closed by at most one shutdown, once, and by exactly one as soon as it
      is no longer current; and a current one is closed by no shutdown but the current close task. */
  lemma ListenersAreClosedOnce(actions: seq<Action>, l: Listener)
    requires l in Run(FRESH, actions).closedBy
    ensures var s := Run(FRESH, actions);
            && |s.closedBy[l]| <= 1
            && (l !in Listeners(s) ==> |s.closedBy[l]| == 1)
            && (l in Listeners(s) && s.closedBy[l] != [] ==> s.closeTask == Some(s.closedBy[l][0]))
  {
    EveryRunKeeps(actions);
    hide Run;
  }

  /** Once a closed listener is no longer current, nothing ever closes it again. */
  lemma {:induction false} ClosingIsFinal(before: seq<Action>, after: seq<Action>, l: Listener)
    requires l in Run(FRESH, before).closedBy && Run(FRESH, before).closedBy[l] != []
    ensures l in Run(FRESH, before + after).closedBy
    ensures Run(FRESH, before + after).closedBy[l] == Run(FRESH, before).closedBy[l]
    decreases |after|
  {
    hide Inv, Step, Enabled;
    if after == [] {
      assert before + after == before;
    } else {
      var n := |after| - 1;
      ClosingIsFinal(before, after[..n], l);
      assert (before + after)[..|before + after| - 1] == before + after[..n];
      var s, a := Run(FRESH, before + after[..n]), after[n];
      EveryRunKeeps(before + after[..n]);
      if Enabled(s, a) { ClosedStays(s, a, l); }
    }
  }

  lemma ClosedStays(s: State, a: Action, l: Listener)
    requires Inv(s) && Enabled(s, a) && l in s.closedBy && s.closedBy[l] != []
    ensures l in Step(s, a).closedBy && Step(s, a).closedBy[l] == s.closedBy[l]
  {
    hide ClientsInv, StartInv, RequestInv, ProgressInv, ServingInv;
    if a.DoShutdownBegins? {
      assert s.closeTask == Some(a.task) && Progress(s) == Some(Scheduled);
      assert l !in Listeners(s);
    } else {
      assert l < s.next;
      hide Inv;
      OthersCloseNothing(s, a, l);
    }
  }

  /** Only the beginning of a shutdown adds to what closed a listener. */
  lemma OthersCloseNothing(s: State, a: Action, l: Listener)
    requires Enabled(s, a) && !a.DoShutdownBegins? && l in s.closedBy && l < s.next
    ensures l in Step(s, a).closedBy && Step(s, a).closedBy[l] == s.closedBy[l]
  {
  }

  /** A shutdown closes the listeners that were current when it was created: those of the serving task
      that asked for it, if one did. */
  lemma ShutdownClosesItsTarget(actions: seq<Action>, task: Task)
    requires Enabled(Run(FRESH, actions), DoShutdownBegins(task))
    ensures var s := Run(FRESH, actions);
            var t := Step(s, DoShutdownBegins(task));
            && Requested(s, task)
            && (forall l :: l in s.closedBy && t.closedBy[l] != s.closedBy[l] ==> Some(l) == s.server || Some(l) == s.httpServer)
  {
    EveryRunKeeps(actions);
    hide Run;
  }

  /** When a serving task ends, asyncio closes what it served: a current listener if and only if its own is
      current. And in every run, whatever was closed like this is not current unless the task's own listener is,
      so no replacement ever is. */
  lemma EndedServingSparesReplacements(actions: seq<Action>, own: Listener)
    ensures var s := Run(FRESH, actions);
            && (own in s.serving ==>
                  && (Own(s, own) * Listeners(s) != {} <==> s.server == Some(own))
                  && forall l :: l in Own(s, own) ==> (own, l) in ServeEnds(s, own).dropped)
            && forall l :: (own, l) in s.dropped && l in Listeners(s) ==> s.server == Some(own)
  {
    EveryRunKeeps(actions);
    hide Run, Steady;
    var s := Run(FRESH, actions);
    if own in s.serving && s.server == Some(own) { assert own in Own(s, own) * Listeners(s); }
    if own in s.serving && s.server != Some(own) {
      forall l | l in Own(s, own) ensures l !in Listeners(s) { assert Apart(s, own, l); }
    }
    forall l | (own, l) in s.dropped ensures Apart(s, own, l) { }
  }

  /** An old serving task never has a replacement closed: in every run, a listener closed by a shutdown that a
      serving task asked for is that task's own, or the redirect listener opened beside it. */
  lemma ServingTasksCloseOnlyTheirOwn(actions: seq<Action>, l: Listener, task: Task, own: Listener)
    requires var s := Run(FRESH, actions);
             l in s.closedBy && task in s.closedBy[l] && task in s.requests && s.requests[task].requester == Some(own)
    ensures var s := Run(FRESH, actions); s.requests[task].server == Some(own) && (l == own || Some(l) == s.requests[task].http)
  {
    EveryRunKeeps(actions);
    hide Run;
    assert AskedFor(Run(FRESH, actions), task, l);
  }

  /** When a shutdown finishes, no client is left and nobody new gets in until the next start. */
  lemma ShutdownLeavesNobody(actions: seq<Action>, task: Task)
    requires Enabled(Run(FRESH, actions), DoShutdownEnds(task))
    ensures var t := Step(Run(FRESH, actions), DoShutdownEnds(task));
            t.clients == {} && t.reports == {} && t.server == None && t.httpServer == None && Accept(t) == Result(t, Rejected)
  {
    EveryRunKeeps(actions);
    hide Run;
  }

  /** Never more than 32 clients and 4 reports, and only clients hold report slots. */
  lemma SlotsAreBounded(actions: seq<Action>)
    ensures var s := Run(FRESH, actions); |s.clients| <= 32 && |s.reports| <= 4 && s.reports <= s.clients
  {
    EveryRunKeeps(actions);
    hide Run;
  }

  // ---------------------------------------------------------------- progress

  /** Steps of one shutdown, and of clients that finish. */
  predicate OwnStep(a: Action, task: Task) {
    a.DoClientDone? || a == DoShutdownBegins(task) || a == DoDrainEnds(task) || a == DoGathered(task) || a == DoShutdownEnds(task)
  }

  predicate OwnSteps(actions: seq<Action>, task: Task) {
    forall i :: 0 <= i < |actions| ==> OwnStep(actions[i], task)
  }

  lemma {:induction false} RunCons(s: State, a: Action, more: seq<Action>)
    requires Enabled(s, a)
    ensures Run(s, [a] + more) == Run(Step(s, a), more)
    decreases |more|
  {
    hide Step, Enabled;
    if more == [] {
      assert [a] + more == [a] && [a][..0] == [];
    } else {
      var n := |more| - 1;
      RunCons(s, a, more[..n]);
      assert ([a] + more)[..|more|] == [a] + more[..n];
    }
  }

  function Rank(p: Shutdown): nat {
    match p
    case Scheduled => 4
    case Draining(_, _) => 3
    case Gathering(_, _) => 2
    case Closing(_) => 1
    case Done => 0
  }

  /** The next step of an unfinished shutdown, or of a client it waits for. */
  lemma NextOwnStep(s: State, task: Task) returns (a: Action)
    requires Inv(s) && task in s.shutdowns && !s.shutdowns[task].Done?
    ensures OwnStep(a, task) && Enabled(s, a)
    ensures var t := Step(s, a);
            && task in t.shutdowns
            && (Rank(t.shutdowns[task]) < Rank(s.shutdowns[task])
                || (t.shutdowns[task] == s.shutdowns[task] && |t.clients| < |s.clients|))
  {
    hide Inv, Listeners;
    match s.shutdowns[task]
    case Scheduled => a := DoShutdownBegins(task);
    case Draining(_, _) => a := DoDrainEnds(task);
    case Closing(_) => a := DoShutdownEnds(task);
    case Gathering(_, waiting) =>
      if waiting !! s.clients {
        a := DoGathered(task);
      } else {
        var c :| c in s.clients && c in waiting;
        a := DoClientDone(c);
        assert s.clients == (s.clients - {c}) + {c};
      }
  }

  lemma {:induction false} FinishFrom(s: State, task: Task) returns (more: seq<Action>)
    requires Inv(s) && task in s.shutdowns
    ensures OwnSteps(more, task) && task in Run(s, more).shutdowns && Run(s, more).shutdowns[task].Done?
    decreases Rank(s.shutdowns[task]), |s.clients|
  {
    hide Inv, Step, Enabled;
    if s.shutdowns[task].Done? {
      more := [];
    } else {
      var a := NextOwnStep(s, task);
      StepKeeps(s, a);
      var later := FinishFrom(Step(s, a), task);
      RunCons(s, a, later);
      more := [a] + later;
    }
  }

  /** Nothing can keep a shutdown from finishing but its own clients: from every reachable state, its own
      steps and theirs lead to the end. It never waits for the lock, so not even a start that holds the lock
      while it waits for its rollback is in the way. */
  lemma ShutdownCanFinish(actions: seq<Action>, task: Task)
    requires task in Run(FRESH, actions).shutdowns
    ensures exists more ::
              && OwnSteps(more, task) && task in Run(Run(FRESH, actions), more).shutdowns
              && Run(Run(FRESH, actions), more).shutdowns[task].Done?
  {
    EveryRunKeeps(actions);
    hide Run, Inv;
    var more := FinishFrom(Run(FRESH, actions), task);
  }
}
