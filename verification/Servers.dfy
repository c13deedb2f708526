/** The server object: its own fields, one method per stretch of code between two awaits, each a step of the
    lifecycle that keeps its invariant. */
module Servers {
  import opened Wire
  import opened Lifecycle

  // ----------------------------------------------------- what the steps achieve

  /** No shutdown is under way. */
  ghost predicate AllDone(s: State) { forall t :: t in s.shutdowns ==> s.shutdowns[t].Done? }

  /** Every listener ever opened has been closed by a shutdown, and once. */
  ghost predicate AllClosedOnce(s: State) { forall l :: l in s.closedBy ==> |s.closedBy[l]| == 1 }

  /** No shutdown has closed a current listener. */
  ghost predicate Listening(s: State) { forall l :: l in Listeners(s) ==> l in s.closedBy && s.closedBy[l] == [] }

  /** A new shutdown for exactly the current listeners, which turns new clients away at once. */
  ghost predicate Winding(s: State, t: State) {
    && t.closeTask.Some? && t.closeTask.value !in s.shutdowns && t.closeTask.value in t.shutdowns
    && t.closing && Lifecycle.Requested(t, t.closeTask.value) && Listeners(t) == Listeners(s) && t.closedBy == s.closedBy
  }

  /** One listener more, never seen before and open. */
  ghost predicate Opens(s: State, t: State, l: Listener) {
    l !in s.closedBy && t.closedBy == s.closedBy[l := []] && Listeners(t) == Listeners(s) + {l} && t.shutdowns == s.shutdowns
  }

  /** The listener is there, and the redirect listener exactly if it was asked for. */
  ghost predicate AsWanted(s: State) { s.server.Some? && (s.httpServer.Some? <==> s.wanted) }

  lemma StartOutcome(s: State, http: bool)
    requires Inv(s) && s.starting.Idle?
    ensures var r := StartBegins(s, http);
            && (r.reply.RuntimeError? <==> Listeners(s) != {} || !AllDone(s))
            && (r.reply.RuntimeError? ==> r.state == s)
            && (r.reply.Fine? ==> !r.state.closing && r.state.starting == Binding(http) && r.state.wanted == http)
  {
  }

  lemma BindingOutcome(s: State, ok: bool)
    requires Inv(s) && s.starting.Binding?
    ensures var r := Bound(s, ok);
            && (r.reply.Fine? <==> ok)
            && (if ok then
                  && r.state.server.Some? && Opens(s, r.state, r.state.server.value)
                  && (r.state.starting.BindingHttp? <==> s.wanted) && (r.state.starting.Activating? <==> !s.wanted)
                else r.state == s.(starting := Idle) && Listeners(r.state) == {} && AllDone(r.state))
  {
  }

  lemma BindingHttpOutcome(s: State, ok: bool)
    requires Inv(s) && s.starting.BindingHttp?
    ensures var t := BoundHttp(s, ok).state;
            if ok then t.httpServer.Some? && t.server == s.server && Opens(s, t, t.httpServer.value) else Winding(s, t)
  {
  }

  lemma RollbackWinds(s: State)
    requires NamesInv(s)
    ensures Winding(s, Rollback(s).state)
  {
  }

  lemma StartedIsListening(s: State)
    requires Inv(s) && (s.starting.Activating? || s.starting.ActivatingHttp?)
    ensures Listening(s) && AllDone(s) && AsWanted(s)
  {
    hide RequestInv, ClientsInv;
  }

  lemma ActivatingOutcome(s: State, ok: bool)
    requires Inv(s)
    ensures s.starting.Activating? ==> var t := Activated(s, ok).state;
              if ok then Listening(t) && AllDone(t) && AsWanted(t) && (t.starting.Idle? <==> !t.wanted) else Winding(s, t)
    ensures s.starting.ActivatingHttp? ==> var t := ActivatedHttp(s, ok).state;
              if ok then Listening(t) && AllDone(t) && AsWanted(t) && t.starting.Idle? else Winding(s, t)
  {
    hide RequestInv, ClientsInv, NamesInv, TaskInv, StartInv, ProgressInv, ListenersInv, Winding, Rollback;
    RollbackWinds(s);
    if s.starting.Activating? || s.starting.ActivatingHttp? { StartedIsListening(s); }
  }

  lemma RollbackOutcome(s: State)
    requires Inv(s) && s.starting.RollingBack?
    ensures var t := RolledBack(s).state;
            && t.starting.Idle? && t.closing
            && (AllDone(t) ==> Listeners(t) == {})
            && (!AllDone(t) ==> forall http :: StartBegins(t, http) == Result(t, RuntimeError))
  {
    var t := RolledBack(s).state;
    if AllDone(t) { assert Progress(s) == Some(Done); }
  }

  lemma CloseOutcome(s: State, expected: Option<Listener>)
    requires Inv(s) && s.starting.Idle?
    ensures var (t, join) := Close(s, expected);
            && (join.None? <==> expected.Some? && s.server != expected)
            && (join.None? || s.closeTask.Some? ==> t == s)
            && (join.Some? ==>
                  && join == t.closeTask && join.value in t.shutdowns
                  && forall k :: k in t.shutdowns && k != join.value ==> t.shutdowns[k].Done?)
            && (join.Some? && s.closeTask.Some? ==> join == s.closeTask)
            && (join.Some? && s.closeTask.None? ==> Winding(s, t) && t.requests[join.value].requester == expected)
  {
  }

  lemma BeginOutcome(s: State, task: Task)
    requires Inv(s) && task in s.shutdowns && s.shutdowns[task].Scheduled?
    ensures var t := ShutdownBegins(s, task);
            && t.closedBy.Keys == s.closedBy.Keys
            && forall l :: l in s.closedBy ==> t.closedBy[l] == if l in Listeners(s) then [task] else s.closedBy[l]
  {
    assert Progress(s) == Some(Scheduled);
  }

  lemma EndOutcome(s: State, task: Task)
    requires Inv(s) && task in s.shutdowns && s.shutdowns[task].Closing?
    ensures var t := ShutdownEnds(s, task);
            AllDone(t) && AllClosedOnce(t) && Listeners(t) == {} && t.clients == {} && t.reports == {}
  {
    assert s.closeTask == Some(task) && Progress(s) == Some(s.shutdowns[task]);
  }

  lemma WaitOutcome(s: State, task: Task)
    requires Inv(s) && task in s.shutdowns
    ensures s.shutdowns[task].Draining? || s.shutdowns[task].Gathering? ==> s.clients <= s.shutdowns[task].waiting && s.closing
  {
  }

  lemma DroppedOwn(s: State, l: Listener)
    requires l in s.serving
    ensures var http := s.serving[l].http;
            ServeEnds(s, l).dropped == s.dropped + {(l, l)} + if http.Some? then {(l, http.value)} else {}
  {
  }

  lemma DroppedIsApart(s: State, l: Listener)
    requires ServingInv(s) && s.server != Some(l)
    ensures forall k :: (l, k) in s.dropped ==> k !in Listeners(s)
  {
    hide Listeners;
    forall k | (l, k) in s.dropped ensures k !in Listeners(s) { assert Apart(s, l, k); }
  }

  lemma ServeEndsOutcome(s: State, l: Listener)
    requires Inv(s) && l in s.serving
    ensures var t, http := ServeEnds(s, l), s.serving[l].http;
            && t == s.(serving := s.serving - {l},
                       dropped := s.dropped + {(l, l)} + if http.Some? then {(l, http.value)} else {})
            && (t.server != Some(l) ==> forall k :: (l, k) in t.dropped ==> k !in Listeners(t))
  {
    hide Steady, ServingInv, Listeners, Own;
    DroppedOwn(s, l);
    ServingDrops(s, l);
    if s.server != Some(l) { DroppedIsApart(ServeEnds(s, l), l); }
  }

  lemma AcceptOutcome(s: State)
    requires Inv(s)
    ensures var r := Accept(s);
            && (r.reply.Fine? <==> !s.closing && |s.clients| < 32)
            && (r.reply.Fine? ==> AllDone(s) && exists c :: c !in s.clients && r.state.clients == s.clients + {c})
            && (!r.reply.Fine? ==> r.state == s)
  {
    if Accept(s).reply.Fine? {
      assert s.closeTask.None?;
      assert s.next !in s.clients;
    }
  }

  // ------------------------------------------------------------ the server object

  /** The last seven fields record the coroutines and tasks around the server. */
  class SolveTls {
    var server: Option<Listener>
    var httpServer: Option<Listener>
    var clients: set<nat>
    var reportClients: set<nat>
    var serving: map<Listener, Serving>
    var closeTask: Option<Task>
    var closing: bool
    var starting: Starting
    var wanted: bool
    var shutdowns: map<Task, Shutdown>
    var closedBy: map<Listener, seq<Task>>
    var dropped: set<(Listener, Listener)>
    var requests: map<Task, Request>
    var next: nat

    constructor ()
      ensures Valid() && View() == FRESH
    {
      server, httpServer, clients, reportClients, serving := None, None, {}, {}, map[];
      closeTask, closing, starting, wanted, shutdowns, closedBy := None, false, Idle, false, map[], map[];
      dropped, requests, next := {}, map[], 0;
      new;
      FreshKeeps();
    }

    function View(): State
      reads this
    {
      State(server, httpServer, clients, reportClients, serving, closeTask, closing, starting, wanted, shutdowns, closedBy,
            dropped, requests, next)
    }

    ghost predicate Valid()
      reads this
    {
      Inv(View())
    }

    /** A start is refused, and changes nothing, exactly while a listener is current or a shutdown unfinished. */
    method BeginStart(http: bool) returns (reply: Reply)
      requires Valid() && Enabled(View(), DoStart(http))
      modifies this
      ensures Valid() && View() == Step(old(View()), DoStart(http))
      ensures reply.RuntimeError? <==> old(Listeners(View()) != {} || !AllDone(View()))
      ensures reply.RuntimeError? ==> View() == old(View())
      ensures reply.Fine? ==> !closing && starting == Binding(http) && wanted == http
    {
      hide Inv, StartBegins;
      StepKeeps(View(), DoStart(http));
      StartOutcome(View(), http);
      StartSteps(View(), http);
      if server.Some? || httpServer.Some? || Unfinished(View()) {
        return RuntimeError;
      }
      closeTask := None;
      closing := false;
      starting := Binding(http);
      wanted := http;
      return Fine;
    }

    /** A bound listener is new and open; a failed bind leaves nothing behind to roll back. */
    method FinishBinding(ok: bool) returns (reply: Reply)
      requires Valid() && Enabled(View(), DoBound(ok))
      modifies this
      ensures Valid() && View() == Step(old(View()), DoBound(ok))
      ensures reply.Fine? <==> ok
      ensures ok ==> server.Some? && Opens(old(View()), View(), server.value)
      ensures ok ==> (starting.BindingHttp? <==> wanted) && (starting.Activating? <==> !wanted) && wanted == old(wanted)
      ensures !ok ==> Listeners(View()) == {} && AllDone(View())
    {
      hide Inv;
      StepKeeps(View(), DoBound(ok));
      BindingOutcome(View(), ok);
      hide Opens, AllDone;
      var http := starting.http;
      starting := Idle;
      if !ok {
        return RuntimeError;
      }
      server := Some(next);
      closedBy := closedBy[next := []];
      next := next + 1;
      starting := if http then BindingHttp else Activating;
      return Fine;
    }

    /** The second listener is new and open, or a shutdown for the first one is scheduled. */
    method FinishBindingHttp(ok: bool)
      requires Valid() && Enabled(View(), DoBoundHttp(ok))
      modifies this
      ensures Valid() && View() == Step(old(View()), DoBoundHttp(ok))
      ensures ok ==> httpServer.Some? && server == old(server) && Opens(old(View()), View(), httpServer.value)
      ensures !ok ==> Winding(old(View()), View())
    {
      hide Inv;
      StepKeeps(View(), DoBoundHttp(ok));
      BindingHttpOutcome(View(), ok);
      hide Opens, Winding;
      if !ok {
        BeginRollback();
        return;
      }
      httpServer := Some(next);
      closedBy := closedBy[next := []];
      next := next + 1;
      starting := Activating;
    }

    /** A start that has succeeded has open listeners and no shutdown beside it; one that fails here has
        scheduled a shutdown for what it opened. */
    method FinishActivating(ok: bool)
      requires Valid() && Enabled(View(), DoActivated(ok))
      modifies this
      ensures Valid() && View() == Step(old(View()), DoActivated(ok))
      ensures ok ==> Listening(View()) && AllDone(View()) && AsWanted(View()) && (starting.Idle? <==> !wanted)
      ensures !ok ==> Winding(old(View()), View())
    {
      hide Inv;
      StepKeeps(View(), DoActivated(ok));
      ActivatingOutcome(View(), ok);
      hide Listening, AllDone, Winding;
      if !ok {
        BeginRollback();
      } else if httpServer.Some? {
        starting := ActivatingHttp;
      } else {
        starting := Idle;
      }
    }

    method FinishActivatingHttp(ok: bool)
      requires Valid() && Enabled(View(), DoActivatedHttp(ok))
      modifies this
      ensures Valid() && View() == Step(old(View()), DoActivatedHttp(ok))
      ensures ok ==> Listening(View()) && AllDone(View()) && AsWanted(View()) && starting.Idle?
      ensures !ok ==> Winding(old(View()), View())
    {
      hide Inv;
      StepKeeps(View(), DoActivatedHttp(ok));
      ActivatingOutcome(View(), ok);
      hide Listening, AllDone, Winding;
      if !ok {
        BeginRollback();
      } else {
        starting := Idle;
      }
    }

    method CreateShutdown(requester: Option<Listener>)
      modifies this
      ensures View() == Schedule(old(View()), requester)
    {
      closing := true;
      shutdowns := shutdowns[next := Scheduled];
      requests := requests[next := Request(requester, server, httpServer)];
      closeTask := Some(next);
      next := next + 1;
    }

    method BeginRollback()
      modifies this
      ensures View() == Rollback(old(View())).state
    {
      CreateShutdown(None);
      starting := RollingBack(closeTask.value);
    }

    /** The failed start gives up the lock. Either its listeners are gone, or its shutdown is still under way
        and every start is refused meanwhile. */
    method FinishRollback() returns (reply: Reply)
      requires Valid() && Enabled(View(), DoRolledBack)
      modifies this
      ensures Valid() && View() == Step(old(View()), DoRolledBack)
      ensures reply.RuntimeError? && starting.Idle? && closing
      ensures AllDone(View()) ==> Listeners(View()) == {}
      ensures !AllDone(View()) ==> forall http :: StartBegins(View(), http) == Result(View(), RuntimeError)
    {
      hide Inv;
      StepKeeps(View(), DoRolledBack);
      RollbackOutcome(View());
      hide AllDone, StartBegins;
      starting := Idle;
      return RuntimeError;
    }

    /** The locked part of `_close`. A caller that expects another listener changes nothing and joins nothing.
        Any other joins the one shutdown there is: repeated calls the same one, a first call a new one. */
    method RequestClose(expected: Option<Listener>) returns (join: Option<Task>)
      requires Valid() && starting.Idle?
      modifies this
      ensures Valid() && (View(), join) == Close(old(View()), expected)
      ensures join.None? <==> expected.Some? && old(server) != expected
      ensures join.None? || old(closeTask).Some? ==> View() == old(View())
      ensures join.Some? ==> join.value in shutdowns && forall k :: k in shutdowns && k != join.value ==> shutdowns[k].Done?
      ensures join.Some? && old(closeTask).Some? ==> join == old(closeTask)
      ensures join.Some? && old(closeTask).None? ==>
                Winding(old(View()), View()) && requests[join.value].requester == expected
    {
      hide Inv;
      CloseServes(View(), expected);
      CloseOutcome(View(), expected);
      hide Winding;
      if expected.Some? && server != expected {
        return None;
      }
      if closeTask.None? {
        CreateShutdown(expected);
      }
      return closeTask;
    }

    /** The current listeners are closed, each for the first and only time, and no other is touched. */
    method BeginShutdown(task: Task)
      requires Valid() && Enabled(View(), DoShutdownBegins(task))
      modifies this
      ensures Valid() && View() == Step(old(View()), DoShutdownBegins(task))
      ensures closedBy.Keys == old(closedBy).Keys
      ensures forall l :: l in old(closedBy) ==> closedBy[l] == if l in old(Listeners(View())) then [task] else old(closedBy)[l]
    {
      hide Inv;
      StepKeeps(View(), DoShutdownBegins(task));
      BeginOutcome(View(), task);
      var listeners := Listeners(View());
      closedBy := map l | l in closedBy :: if l in listeners then closedBy[l] + [task] else closedBy[l];
      shutdowns := shutdowns[task := Draining(listeners, clients)];
    }

    /** The grace period is over; tasks still running are cancelled, which takes effect in their own time.
        Whoever is left was there when the shutdown began. */
    method FinishDraining(task: Task)
      requires Valid() && Enabled(View(), DoDrainEnds(task))
      modifies this
      ensures Valid() && View() == Step(old(View()), DoDrainEnds(task))
      ensures clients <= old(shutdowns[task].waiting) && closing
    {
      hide Inv;
      StepKeeps(View(), DoDrainEnds(task));
      WaitOutcome(View(), task);
      var d := shutdowns[task];
      shutdowns := shutdowns[task := Gathering(d.listeners, d.waiting)];
    }

    /** Everyone who was there has gone, and nobody came in the meantime. */
    method FinishGathering(task: Task)
      requires Valid() && Enabled(View(), DoGathered(task))
      modifies this
      ensures Valid() && View() == Step(old(View()), DoGathered(task))
      ensures clients == {}
    {
      hide Inv;
      StepKeeps(View(), DoGathered(task));
      WaitOutcome(View(), task);
      shutdowns := shutdowns[task := Closing(shutdowns[task].listeners)];
    }

    /** Nothing is left: no client, no report slot, no current listener, no shutdown, and every listener ever
        opened has been closed exactly once. */
    method FinishShutdown(task: Task)
      requires Valid() && Enabled(View(), DoShutdownEnds(task))
      modifies this
      ensures Valid() && View() == Step(old(View()), DoShutdownEnds(task))
      ensures AllDone(View()) && AllClosedOnce(View()) && Listeners(View()) == {} && clients == {} && reportClients == {}
    {
      hide Inv;
      StepKeeps(View(), DoShutdownEnds(task));
      EndOutcome(View(), task);
      hide AllDone, AllClosedOnce, Listeners;
      server := None;
      httpServer := None;
      shutdowns := shutdowns[task := Done];
    }

    /** Exactly one serving task per current listener; serving opens and closes nothing. */
    method BeginServing() returns (reply: Reply)
      requires Valid()
      modifies this
      ensures Valid() && View() == Step(old(View()), DoServe)
      ensures reply.Fine? <==> server.Some? && server.value !in old(serving)
      ensures reply.Fine? ==> serving.Keys == old(serving).Keys + {server.value}
      ensures View() == old(View()).(serving := serving)
    {
      hide Inv;
      StepKeeps(View(), DoServe);
      if server.None? || server.value in serving {
        return RuntimeError;
      }
      serving := serving[server.value := Running(httpServer)];
      return Fine;
    }

    /** A serving task ends. If its listener has been replaced, nothing is scheduled and nothing closed, now or
        on its behalf; otherwise it joins the one shutdown there is. */
    method StopServing(l: Listener)
      requires Valid() && Enabled(View(), DoServeCloses(l))
      modifies this
      ensures Valid() && View() == Step(old(View()), DoServeCloses(l))
      ensures old(server) != Some(l) ==> View() == old(View()).(serving := old(serving)[l := Joining(None, old(serving[l].http))])
      ensures old(server) == Some(l) ==> serving[l] == Joining(closeTask, old(serving[l].http)) && closeTask.Some? && closing
      ensures closedBy == old(closedBy)
    {
      hide Inv;
      StepKeeps(View(), DoServeCloses(l));
      StopIsWinding(View(), l);
      var join := RequestClose(Some(l));
      serving := serving[l := Joining(join, serving[l].http)];
    }

    /** The inner tasks are cancelled, at which asyncio closes the listeners they served. None of these is
        current if the served listener has been replaced; nothing else changes. */
    method FinishServing(l: Listener)
      requires Valid() && Enabled(View(), DoServeEnds(l))
      modifies this
      ensures Valid() && View() == Step(old(View()), DoServeEnds(l))
      ensures l !in serving && View() == old(View()).(serving := serving, dropped := dropped)
      ensures (l, l) in dropped && old(dropped) <= dropped
      ensures server != Some(l) ==> forall k :: (l, k) in dropped ==> k !in Listeners(View())
    {
      hide Inv, Listeners;
      StepKeeps(View(), DoServeEnds(l));
      ServeEndsOutcome(View(), l);
      hide ServeEnds;
      var http := serving[l].http;
      dropped := dropped + {(l, l)} + if http.Some? then {(l, http.value)} else {};
      serving := serving - {l};
    }

    /** A client gets in exactly while nobody is closing and fewer than 32 are there; then no shutdown is under
        way, and the client is a new one. */
    method AcceptClient() returns (reply: Reply)
      requires Valid()
      modifies this
      ensures Valid() && View() == Step(old(View()), DoAccept)
      ensures reply.Fine? <==> !closing && |old(clients)| < 32
      ensures reply.Fine? ==> AllDone(View()) && exists c :: c !in old(clients) && clients == old(clients) + {c}
      ensures !reply.Fine? ==> View() == old(View())
    {
      hide Inv;
      StepKeeps(View(), DoAccept);
      AcceptOutcome(View());
      if closing {
        return Rejected;
      }
      if |clients| >= MAX_CLIENTS {
        return Rejected;
      }
      clients := clients + {next};
      next := next + 1;
      return Fine;
    }

    /** The client is gone, and with it the report slot it may have held; the others keep theirs. */
    method ReleaseClient(c: nat)
      requires Valid() && Enabled(View(), DoClientDone(c))
      modifies this
      ensures Valid() && View() == Step(old(View()), DoClientDone(c))
      ensures c !in clients && c !in reportClients && old(clients) == clients + {c} && old(reportClients) - reportClients <= {c}
    {
      hide Inv;
      StepKeeps(View(), DoClientDone(c));
      reportClients := reportClients - {c};
      clients := clients - {c};
    }

    /** A client holds at most one of the four slots, and is turned away exactly when others hold them all. */
    method TakeReportSlot(c: nat) returns (reply: Reply)
      requires Valid() && Enabled(View(), DoReport(c))
      modifies this
      ensures Valid() && View() == Step(old(View()), DoReport(c))
      ensures reply.Fine? <==> c in reportClients
      ensures !reply.Fine? <==> c !in old(reportClients) && |old(reportClients)| >= 4
      ensures |reportClients| <= 4 && reportClients - old(reportClients) <= {c}
    {
      StepKeeps(View(), DoReport(c));
      if c !in reportClients {
        if |reportClients| >= MAX_REPORTS {
          return Rejected;
        }
        reportClients := reportClients + {c};
      }
      return Fine;
    }
  }

  lemma StartSteps(s: State, http: bool)
    requires Enabled(s, DoStart(http))
    ensures Step(s, DoStart(http)) == StartBegins(s, http).state
    ensures StartBegins(s, http) ==
              if s.server.Some? || s.httpServer.Some? || Unfinished(s) then Result(s, RuntimeError)
              else Result(s.(closeTask := None, closing := false, starting := Binding(http), wanted := http), Fine)
  {
  }

  lemma StopIsWinding(s: State, l: Listener)
    requires Inv(s) && s.starting.Idle?
    ensures Close(s, Some(l)).0.closedBy == s.closedBy
    ensures s.server == Some(l) ==> Close(s, Some(l)).1 == Close(s, Some(l)).0.closeTask && Close(s, Some(l)).0.closing
  {
  }
}
