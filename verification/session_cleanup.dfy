/** The session registry together with the cleanup supervisor that closes its sessions
    (camouflare/sessions.py, camouflare/cleanup.py): an id comes free only when the work is done. */
module SessionCleanup {
  import opened Basics
  import State = SessionState
  import Sessions = SessionRuns
  import CleanupState
  import Cleanups = CleanupRuns

  /** `groups` is the cleanup group that the close task of a session waits for. */
  datatype System = System(registry: State.Registry, cleanup: CleanupState.Cleanup, groups: map<nat, nat>)

  datatype Action =
    | OfRegistry(a: Sessions.Action)
    | OfCleanup(b: Cleanups.Action)
    | ClosingStarts(s: nat, task: nat, timeout: nat)
    | WaitStarts(s: nat)
    | WaiterWakes(s: nat)

  predicate MayStart(y: System, s: nat, task: nat, timeout: nat) {
    && s in y.registry.closers && y.registry.closers[s] == State.Waiting
    && s in y.registry.sessions && y.registry.sessions[s].holder == None
    && timeout > 0 && task !in y.cleanup.tasks && task !in y.cleanup.done
  }

  /** The close task of session `s` has its lock: it starts the cleanup of the context as a new task,
      whose group it will wait for. */
  function StartClosing(y: System, s: nat, task: nat, timeout: nat): System {
    if !MayStart(y, s, task, timeout) then y
    else
      var tracked := CleanupState.Track(y.cleanup, task, timeout, None, None);
      if task !in tracked.tasks then y
      else System(State.CloserEnter(y.registry, s), tracked, y.groups[s := tracked.tasks[task].group])
  }

  /** A turn of `wait_for_group` is over: unless the close task sleeps again, the wait has returned. */
  function AfterTurn(y: System, s: nat, turned: CleanupState.Cleanup): System {
    y.(cleanup := turned, registry := if s in turned.sleepers then y.registry else State.CleanupSettle(y.registry, s))
  }

  /** The close task of `s`, a caller of `wait_for_group` under the name of its session, begins to wait. */
  function StartWaiting(y: System, s: nat): System {
    if s !in y.registry.sessions || y.registry.sessions[s].context != State.BeingClosed then y
    else if s !in y.groups || s in y.cleanup.sleepers then y
    else AfterTurn(y, s, CleanupState.WaitTurn(y.cleanup, s, y.groups[s]))
  }

  /** Its event is set. */
  function WakeWaiter(y: System, s: nat): System {
    if s !in y.cleanup.sleepers || y.cleanup.sleepers[s] !in y.cleanup.fired then y
    else AfterTurn(y, s, CleanupState.Wake(y.cleanup, s))
  }

  /** Only the close tasks of sessions wait for groups. */
  predicate Waits(b: Cleanups.Action) {
    b.WaitBegins? || b.Wakes? || b.WaitCancelled?
  }

  /** Everything else happens on one side alone. */
  function Step(y: System, a: Action): System {
    match a
    case OfRegistry(a) =>
      if a.CloserEnters? || a.CleanupSettles? then y else y.(registry := Sessions.Step(y.registry, a))
    case OfCleanup(b) => if Waits(b) then y else y.(cleanup := Cleanups.Step(y.cleanup, b))
    case ClosingStarts(s, task, timeout) => StartClosing(y, s, task, timeout)
    case WaitStarts(s) => StartWaiting(y, s)
    case WaiterWakes(s) => WakeWaiter(y, s)
  }

  function Run(y: System, actions: seq<Action>): System
    decreases |actions|
  {
    if actions == [] then y else Run(Step(y, actions[0]), actions[1..])
  }

  function NewSystem(maxSessions: int, now: int): System {
    System(State.NewRegistry(maxSessions), CleanupState.NewCleanup(now), map[])
  }

  // ----- both sides run as they do alone -----

  lemma {:induction false} RunMore(c: State.Registry, actions: seq<Sessions.Action>, a: Sessions.Action)
    ensures Sessions.Run(c, actions + [a]) == Sessions.Step(Sessions.Run(c, actions), a)
    decreases |actions|
  {
    hide Sessions.Step;
    if actions == [] {
      assert ([] + [a])[1..] == [];
      assert Sessions.Run(Sessions.Step(c, a), []) == Sessions.Step(c, a);
    } else {
      assert (actions + [a])[1..] == actions[1..] + [a];
      RunMore(Sessions.Step(c, actions[0]), actions[1..], a);
    }
  }

  lemma RegistryStep(c: State.Registry, a: Sessions.Action)
    requires Sessions.Reachable(c)
    ensures Sessions.Reachable(Sessions.Step(c, a))
  {
    hide Sessions.Step, Sessions.Run;
    var maxSessions, actions :| c == Sessions.Run(State.NewRegistry(maxSessions), actions);
    RunMore(State.NewRegistry(maxSessions), actions, a);
  }

  /** A context is being closed only with a group to wait for. */
  ghost predicate GroupsNamed(sessions: map<nat, State.Session>, groups: map<nat, nat>) {
    forall s :: s in sessions && sessions[s].context == State.BeingClosed ==> s in groups
  }

  /** Whoever sleeps is the close task of a closing session, on an event of its own group. */
  ghost predicate SleepersNamed(sessions: map<nat, State.Session>, groups: map<nat, nat>,
                                sleepers: map<nat, CleanupState.Event>) {
    forall s :: s in sleepers ==>
      s in sessions && sessions[s].context == State.BeingClosed && s in groups && sleepers[s].0 == groups[s]
  }

  ghost predicate Inv(y: System) {
    && Sessions.Reachable(y.registry)
    && Cleanups.Inv(y.cleanup)
    && GroupsNamed(y.registry.sessions, y.groups)
    && SleepersNamed(y.registry.sessions, y.groups, y.cleanup.sleepers)
  }

  lemma JoinKeepsSleepers(c: CleanupState.Cleanup, t: nat, groups: set<nat>)
    ensures CleanupState.JoinGroups(c, t, groups).sleepers == c.sleepers
  {
    hide CleanupState.Joined, CleanupState.Renewed;
  }

  lemma ShortenKeepsSleepers(c: CleanupState.Cleanup, t: nat, deadline: int)
    ensures CleanupState.Shorten(c, t, deadline).sleepers == c.sleepers
  {
  }

  lemma TrackNewKeepsSleepers(c: CleanupState.Cleanup, t: nat, deadline: int, scope: Option<CleanupState.Scope>)
    ensures CleanupState.TrackNew(c, t, deadline, scope).sleepers == c.sleepers
  {
    hide CleanupState.JoinGroups;
    var group := if scope.Some? then scope.value.group else c.nextGroup;
    var groups := if scope.Some? then scope.value.Ownership() else {c.nextGroup};
    JoinKeepsSleepers(c.(tasks := c.tasks[t := CleanupState.Tracked(c.now, deadline, group, groups)],
                         handles := c.handles[t := Max(c.now, deadline)],
                         nextGroup := c.nextGroup + 1), t, groups);
  }

  lemma TrackAgainKeepsSleepers(c: CleanupState.Cleanup, t: nat, deadline: int, scope: Option<CleanupState.Scope>)
    requires t in c.tasks
    ensures CleanupState.TrackAgain(c, t, deadline, scope).sleepers == c.sleepers
  {
    hide CleanupState.JoinGroups;
    var p := CleanupState.Shorten(c, t, deadline);
    ShortenKeepsSleepers(c, t, deadline);
    assert t in p.tasks;
    if scope.Some? {
      var more := scope.value.Ownership() - c.tasks[t].groups;
      JoinKeepsSleepers(p.(tasks := p.tasks[t := p.tasks[t].(groups := p.tasks[t].groups + more)]), t, more);
    }
  }

  lemma TrackKeepsSleepers(c: CleanupState.Cleanup, t: nat, timeout: int, current: Option<nat>,
                           scope: Option<CleanupState.Scope>)
    ensures CleanupState.Track(c, t, timeout, current, scope).sleepers == c.sleepers
  {
    hide CleanupState.DeadlineFor, CleanupState.ScopeFor, CleanupState.TrackNew, CleanupState.TrackAgain;
    var inherited := CleanupState.ScopeFor(c, current, scope);
    var deadline := CleanupState.DeadlineFor(c, timeout, inherited);
    TrackNewKeepsSleepers(c, t, deadline, inherited);
    if t in c.tasks {
      TrackAgainKeepsSleepers(c, t, deadline, inherited);
    }
  }

  lemma RunKeepsSleepers(c: CleanupState.Cleanup, t: nat, timeout: int, current: Option<nat>,
                         scope: Option<CleanupState.Scope>)
    ensures CleanupState.RunBegin(c, t, timeout, current, scope).sleepers == c.sleepers
  {
    hide CleanupState.Track;
    TrackKeepsSleepers(c, t, timeout, current, scope);
  }

  lemma HoldsKeepSleepers(c: CleanupState.Cleanup, scope: CleanupState.Scope, h: nat)
    ensures CleanupState.RetainScope(c, scope).sleepers == c.sleepers
    ensures CleanupState.ReleaseHold(c, h).sleepers == c.sleepers
  {
    hide CleanupState.Renewed, CleanupState.HoldsMore, CleanupState.HoldsLeft, CleanupState.IdleEvents;
  }

  lemma LeavingKeepsSleepers(c: CleanupState.Cleanup, t: nat, groups: set<nat>)
    ensures CleanupState.LeaveGroups(c, t, groups).sleepers == c.sleepers
  {
    hide CleanupState.IdleEvents, CleanupState.TasksLeft, CleanupState.Emptied;
  }

  lemma FinishKeepsSleepers(c: CleanupState.Cleanup, t: nat)
    ensures CleanupState.TaskFinished(c, t).sleepers == c.sleepers
  {
    hide CleanupState.LeaveGroups;
    if t in c.tasks {
      var waited := t in c.runWaiters && c.runWaiters[t] != 0;
      LeavingKeepsSleepers(c.(tasks := c.tasks - {t}, handles := c.handles - {t},
                              timedOut := if waited then c.timedOut else c.timedOut - {t}), t, c.tasks[t].groups);
    }
  }

  lemma MarkKeepsSleepers(c: CleanupState.Cleanup, t: nat)
    ensures CleanupState.MarkTimedOut(c, t).sleepers == c.sleepers
            && CleanupState.DeadlineExpired(c, t).sleepers == c.sleepers
  {
  }

  lemma RunnerLeaves(c: CleanupState.Cleanup, t: nat)
    ensures CleanupState.RunEnd(c, t, false).sleepers == c.sleepers
  {
    hide CleanupState.MarkTimedOut;
    if t in c.runWaiters {
      var marks := if t in c.done then c.timedOut - {t} else c.timedOut;
      if c.runWaiters[t] > 1 {
        var fewer := c.runWaiters[t := c.runWaiters[t] - 1];
        assert CleanupState.RunEnd(c, t, false) == c.(runWaiters := fewer);
      } else {
        assert CleanupState.RunEnd(c, t, false) == c.(runWaiters := c.runWaiters - {t}, timedOut := marks);
      }
    }
  }

  lemma RunEndKeepsSleepers(c: CleanupState.Cleanup, t: nat, gaveUp: bool)
    ensures CleanupState.RunEnd(c, t, gaveUp).sleepers == c.sleepers
  {
    hide CleanupState.RunEnd, CleanupState.MarkTimedOut;
    RunnerLeaves(c, t);
    if gaveUp {
      var marked := CleanupState.MarkTimedOut(c, t);
      MarkKeepsSleepers(c, t);
      MarkThenLeave(c, t);
      RunnerLeaves(marked, t);
    }
  }

  lemma MarkThenLeave(c: CleanupState.Cleanup, t: nat)
    ensures t in c.runWaiters ==>
              CleanupState.RunEnd(c, t, true) == CleanupState.RunEnd(CleanupState.MarkTimedOut(c, t), t, false)
    ensures t !in c.runWaiters ==> CleanupState.RunEnd(c, t, true) == c
  {
    hide CleanupState.MarkTimedOut;
    assert CleanupState.MarkTimedOut(c, t).runWaiters == c.runWaiters by { MarkKeepsRunners(c, t); }
  }

  lemma MarkKeepsRunners(c: CleanupState.Cleanup, t: nat)
    ensures CleanupState.MarkTimedOut(c, t).runWaiters == c.runWaiters
  {
  }

  lemma ClosingKeepsSleepers(c: CleanupState.Cleanup, timeout: int)
    ensures CleanupState.CloseBegin(c, timeout).sleepers == c.sleepers
    ensures CleanupState.CloseTurn(c).sleepers == c.sleepers
    ensures CleanupState.CloseGivesUp(c).sleepers == c.sleepers
  {
  }

  lemma SleepersStay(c: CleanupState.Cleanup, b: Cleanups.Action)
    requires !Waits(b)
    ensures Cleanups.Step(c, b).sleepers == c.sleepers
  {
    hide CleanupState.Track, CleanupState.RunBegin, CleanupState.RetainScope, CleanupState.ReleaseHold,
      CleanupState.RunEnd, CleanupState.DeadlineExpired, CleanupState.TaskFinished, CleanupState.CloseBegin,
      CleanupState.CloseTurn, CleanupState.CloseGivesUp, CleanupState.WaitTurn, CleanupState.Wake, Cleanups.Known;
    match b
    case Tracks(t, timeout, current, scope) => TrackKeepsSleepers(c, t, timeout, current, scope);
    case RunBegins(t, timeout, current, scope) => RunKeepsSleepers(c, t, timeout, current, scope);
    case RunEnds(t, gaveUp) => RunEndKeepsSleepers(c, t, gaveUp);
    case CalledBack(t) => FinishKeepsSleepers(c, t);
    case TimerFires(t) => MarkKeepsSleepers(c, t);
    case Retains(held) => HoldsKeepSleepers(c, held, 0);
    case Releases(h) => HoldsKeepSleepers(c, CleanupState.Scope(0, 0, {}), h);
    case CloseBegins(timeout) => ClosingKeepsSleepers(c, timeout);
    case CloseTurns => ClosingKeepsSleepers(c, 0);
    case CloseGaveUp => ClosingKeepsSleepers(c, 0);
    case Finishes(_) =>
    case TimePasses(_) =>
  }

  /** A turn of caller `s` moves no other caller and no task. */
  ghost predicate OnlySleeper(c: CleanupState.Cleanup, d: CleanupState.Cleanup, s: nat) {
    && d.tasks == c.tasks && d.done == c.done
    && forall x :: x != s ==>
         (x in d.sleepers <==> x in c.sleepers) && (x in c.sleepers ==> d.sleepers[x] == c.sleepers[x])
  }

  lemma TurnMovesOne(c: CleanupState.Cleanup, s: nat, g: nat)
    ensures OnlySleeper(c, CleanupState.WaitTurn(c, s, g), s)
  {
    hide CleanupState.Idle, OnlySleeper;
    var event := if g in c.groupEvents then c.groupEvents[g] else (g, c.nextEvent);
    OneFallsAsleep(c, c.groupEvents[g := event], s, event);
  }

  lemma OneFallsAsleep(c: CleanupState.Cleanup, groupEvents: map<nat, CleanupState.Event>, s: nat,
                       event: CleanupState.Event)
    ensures OnlySleeper(c, c.(sleepers := c.sleepers - {s}), s)
    ensures OnlySleeper(c, c.(groupEvents := groupEvents, nextEvent := c.nextEvent + 1,
            sleepers := c.sleepers[s := event]), s)
  {
  }

  lemma WakeMovesOne(c: CleanupState.Cleanup, s: nat)
    ensures OnlySleeper(c, CleanupState.Wake(c, s), s)
  {
    hide CleanupState.WaitTurn;
    if s in c.sleepers && c.sleepers[s] in c.fired {
      var g := c.sleepers[s].0;
      TurnMovesOne(c, s, g);
      TurnMovesOne(c.(groupEvents := c.groupEvents - {g}), s, g);
    }
  }

  /** Every context is as before, and new ones are open. */
  ghost predicate SameContexts(before: map<nat, State.Session>, after: map<nat, State.Session>) {
    && (forall s :: s in before ==> s in after && after[s].context == before[s].context)
    && (forall s :: s in after && s !in before ==> after[s].context == State.Open)
  }

  lemma SameContextsTransitive(a: map<nat, State.Session>, b: map<nat, State.Session>, c: map<nat, State.Session>)
    requires SameContexts(a, b) && SameContexts(b, c)
    ensures SameContexts(a, c)
  {
  }

  /** One session changes its count or its holder. */
  lemma OneSession(sessions: map<nat, State.Session>, s: nat, inUse: int, holder: Option<State.Holder>)
    ensures SameContexts(sessions, sessions)
    ensures s in sessions ==> SameContexts(sessions, sessions[s := sessions[s].(inUse := inUse)])
    ensures s in sessions ==> SameContexts(sessions, sessions[s := sessions[s].(holder := holder)])
  {
  }

  lemma UseKeepsContexts(c: State.Registry, s: nat, more: int)
    ensures SameContexts(c.sessions, State.CountUse(c, s, more).sessions)
  {
    hide SameContexts;
    OneSession(c.sessions, s, if s in c.sessions then c.sessions[s].inUse + more else 0, None);
  }

  lemma HolderKeepsContexts(c: State.Registry, s: nat, holder: Option<State.Holder>)
    ensures SameContexts(c.sessions, State.SetHolder(c, s, holder).sessions)
  {
    hide SameContexts;
    OneSession(c.sessions, s, 0, holder);
  }

  lemma QueueKeepsContexts(c: State.Registry, r: nat, s: nat)
    ensures SameContexts(c.sessions, State.Queue(c, r, s).sessions)
  {
    hide SameContexts, State.CountUse;
    UseKeepsContexts(c, s, 1);
  }

  lemma RegisterKeepsContexts(c: State.Registry, id: string, expiresAt: Option<int>)
    requires c.nextSession !in c.sessions
    ensures SameContexts(c.sessions, State.Register(c, id, expiresAt).sessions)
  {
  }

  lemma ArrivalKeepsContexts(c: State.Registry, a: Sessions.Action)
    requires c.nextSession !in c.sessions && (a.Arrives? || a.ArrivesNew? || a.Resumes? || a.Creates?)
    ensures SameContexts(c.sessions, Sessions.Step(c, a).sessions)
  {
    hide SameContexts, State.Queue, State.Register, State.Expired;
    OneSession(c.sessions, 0, 0, None);
    match a
    case Arrives(r, id, now) => if id in c.live { QueueKeepsContexts(c, r, c.live[id]); }
    case ArrivesNew(r, id, expiresAt) =>
      var d := State.Register(c, id, expiresAt);
      RegisterKeepsContexts(c, id, expiresAt);
      QueueKeepsContexts(d, r, c.nextSession);
      SameContextsTransitive(c.sessions, d.sessions, State.Queue(d, r, c.nextSession).sessions);
    case Creates(id, expiresAt) => RegisterKeepsContexts(c, id, expiresAt);
    case Resumes(r) => if r in c.clients { QueueKeepsContexts(c, r, c.clients[r].session); }
  }

  lemma LockKeepsContexts(c: State.Registry, a: Sessions.Action)
    requires a.Enters? || a.Leaves?
    ensures SameContexts(c.sessions, Sessions.Step(c, a).sessions)
  {
    hide SameContexts, State.CountUse, State.SetHolder, State.IsCurrent;
    OneSession(c.sessions, 0, 0, None);
    if a.r in c.clients {
      var r, s := a.r, c.clients[a.r].session;
      var p := c.(clients := c.clients - {r});
      var free := State.SetHolder(p, s, None);
      UseKeepsContexts(c, s, -1);
      UseKeepsContexts(p, s, -1);
      HolderKeepsContexts(c, s, Some(State.Request(r)));
      HolderKeepsContexts(p, s, None);
      UseKeepsContexts(free, s, -1);
      SameContextsTransitive(c.sessions, free.sessions, State.CountUse(free, s, -1).sessions);
    }
  }

  lemma RemovalKeepsContexts(c: State.Registry, a: Sessions.Action)
    requires a.Prunes? || a.Evicts? || a.Destroys? || a.Closes? || a.CloserEnds? || a.TombstoneGoes?
    ensures SameContexts(c.sessions, Sessions.Step(c, a).sessions)
  {
    hide State.Tombstones, State.Started, State.PrunedIds, State.IsCurrent;
  }

  /** Nothing but its own close task moves a context. */
  lemma ContextsStay(c: State.Registry, a: Sessions.Action)
    requires Sessions.Reachable(c) && !a.CloserEnters? && !a.CleanupSettles?
    ensures SameContexts(c.sessions, Sessions.Step(c, a).sessions)
  {
    hide Sessions.Reachable, Sessions.Inv, Sessions.Step, SameContexts;
    Sessions.ReachableInv(c);
    Sessions.NumbersKnown(c);
    if a.Arrives? || a.ArrivesNew? || a.Resumes? || a.Creates? {
      ArrivalKeepsContexts(c, a);
    } else if a.Enters? || a.Leaves? {
      LockKeepsContexts(c, a);
    } else {
      RemovalKeepsContexts(c, a);
    }
  }

  lemma CloserMoves(c: State.Registry, s: nat)
    ensures var d := State.CloserEnter(c, s);
            d.sessions.Keys == c.sessions.Keys
                && forall x :: x in c.sessions && x != s ==> d.sessions[x] == c.sessions[x]
  {
  }

  lemma SettleMoves(c: State.Registry, s: nat)
    ensures var d := State.CleanupSettle(c, s);
            && d.sessions.Keys == c.sessions.Keys
            && (forall x :: x in c.sessions && x != s ==> d.sessions[x] == c.sessions[x])
            && (s in c.sessions ==> d.sessions[s].context != State.BeingClosed)
  {
  }

  lemma StepInv(y: System, a: Action)
    requires Inv(y)
    ensures Inv(Step(y, a))
  {
    hide Sessions.Reachable, Cleanups.Inv, Cleanups.Evolves, Sessions.Step, Cleanups.Step, CleanupState.Track,
      CleanupState.Idle, State.CloserEnter, State.CleanupSettle, CleanupState.WaitTurn, CleanupState.Wake;
    match a
    case OfRegistry(a) =>
      if !a.CloserEnters? && !a.CleanupSettles? {
        RegistryStep(y.registry, a);
        ContextsStay(y.registry, a);
      }
    case OfCleanup(b) =>
      if !Waits(b) {
        Cleanups.StepInv(y.cleanup, b);
        SleepersStay(y.cleanup, b);
      }
    case ClosingStarts(s, task, timeout) =>
      Cleanups.TrackInv(y.cleanup, task, timeout, None, None);
      CloserSteps(y.registry, s);
      RegistryStep(y.registry, Sessions.CloserEnters(s));
      CloserMoves(y.registry, s);
      TrackKeepsSleepers(y.cleanup, task, timeout, None, None);
      if s in y.registry.sessions && y.registry.sessions[s].context == State.BeingClosed {
        NotWaiting(y.registry, s);
      }
    case WaitStarts(s) =>
      if s in y.registry.sessions && y.registry.sessions[s].context == State.BeingClosed {
        Cleanups.WaitTurnInv(y.cleanup, s, y.groups[s]);
        TurnMovesOne(y.cleanup, s, y.groups[s]);
        TurnInv(y, s, CleanupState.WaitTurn(y.cleanup, s, y.groups[s]));
      }
    case WaiterWakes(s) =>
      if s in y.cleanup.sleepers && y.cleanup.sleepers[s] in y.cleanup.fired {
        Cleanups.WakeInv(y.cleanup, s);
        Cleanups.WakeOutcome(y.cleanup, s);
        WakeMovesOne(y.cleanup, s);
        TurnInv(y, s, CleanupState.Wake(y.cleanup, s));
      }
  }

  /** The turn over, the invariant holds again. */
  lemma TurnInv(y: System, s: nat, turned: CleanupState.Cleanup)
    requires Inv(y) && s in y.registry.sessions && y.registry.sessions[s].context == State.BeingClosed && s in y.groups
    requires Cleanups.Inv(turned)
    requires OnlySleeper(y.cleanup, turned, s)
    requires s in turned.sleepers ==> turned.sleepers[s].0 == y.groups[s]
    ensures Inv(AfterTurn(y, s, turned))
  {
    hide Sessions.Reachable, Cleanups.Inv, Sessions.Step, CleanupState.WaitTurn, CleanupState.Wake, State.CleanupSettle;
    CloserSteps(y.registry, s);
    RegistryStep(y.registry, Sessions.CleanupSettles(s));
    SettleMoves(y.registry, s);
  }

  lemma CloserSteps(c: State.Registry, s: nat)
    ensures Sessions.Step(c, Sessions.CloserEnters(s)) == State.CloserEnter(c, s)
    ensures Sessions.Step(c, Sessions.CleanupSettles(s)) == State.CleanupSettle(c, s)
  {
  }

  lemma {:induction false} RunInv(y: System, actions: seq<Action>)
    requires Inv(y)
    ensures Inv(Run(y, actions))
    decreases |actions|
  {
    hide Inv, Step;
    if actions != [] {
      StepInv(y, actions[0]);
      RunInv(Step(y, actions[0]), actions[1..]);
    }
  }

  ghost predicate Reachable(y: System) {
    exists maxSessions, now, actions :: y == Run(NewSystem(maxSessions, now), actions)
  }

  lemma ReachableInv(y: System)
    requires Reachable(y)
    ensures Inv(y)
  {
    hide Run, Sessions.Run;
    var maxSessions, now, actions :| y == Run(NewSystem(maxSessions, now), actions);
    Cleanups.NewInv(now);
    assert State.NewRegistry(maxSessions)
        == Sessions.Run(State.NewRegistry(maxSessions), []) by { NothingRun(State.NewRegistry(maxSessions)); }
    assert Inv(NewSystem(maxSessions, now)) by { hide Cleanups.Inv; }
    hide Inv;
    RunInv(NewSystem(maxSessions, now), actions);
  }

  lemma NothingRun(c: State.Registry)
    ensures Sessions.Run(c, []) == c
  {
  }

  // ----- the work is done first -----

  /** Session `s` is being closed and `task` works in its cleanup group. */
  predicate WorksFor(y: System, s: nat, task: nat) {
    && s in y.registry.sessions && y.registry.sessions[s].context == State.BeingClosed && s in y.groups
    && task in y.cleanup.tasks && y.groups[s] in y.cleanup.tasks[task].groups
  }

  /** The cleanup that the close task starts is the first task of that group. */
  lemma ClosingStartsWork(y: System, s: nat, task: nat, timeout: nat)
    requires Reachable(y) && MayStart(y, s, task, timeout)
    ensures WorksFor(Step(y, ClosingStarts(s, task, timeout)), s, task)
  {
    hide Reachable, Sessions.Reachable;
    ReachableInv(y);
    Cleanups.TrackInv(y.cleanup, task, timeout, None, None) by { hide Cleanups.Inv; }
    var tracked := CleanupState.Track(y.cleanup, task, timeout, None, None);
    assert Cleanups.NamesKnown(tracked.tasks, tracked.holds, tracked.nextGroup, tracked.nextHold);
  }

  /** One step: the task goes on working for the closing session, or is done. */
  lemma WorkStep(y: System, a: Action, s: nat, task: nat)
    requires Inv(y) && WorksFor(y, s, task)
    ensures WorksFor(Step(y, a), s, task) || task in Step(y, a).cleanup.done
  {
    hide Sessions.Reachable, Cleanups.Inv, Cleanups.Evolves, Sessions.Step, Cleanups.Step, CleanupState.Track,
      CleanupState.Idle, CleanupState.WaitTurn, CleanupState.Wake, State.CloserEnter, State.CleanupSettle;
    match a
    case OfRegistry(a) =>
      if !a.CloserEnters? && !a.CleanupSettles? {
        ContextsStay(y.registry, a);
      }
    case OfCleanup(b) =>
      if !Waits(b) {
        Cleanups.StepInv(y.cleanup, b);
        StaysTracked(y.cleanup, Cleanups.Step(y.cleanup, b), task);
      }
    case ClosingStarts(x, other, timeout) =>
      Cleanups.TrackInv(y.cleanup, other, timeout, None, None);
      StaysTracked(y.cleanup, CleanupState.Track(y.cleanup, other, timeout, None, None), task);
      CloserMoves(y.registry, x);
      NotWaiting(y.registry, s);
    case WaitStarts(x) =>
      SettleMoves(y.registry, x);
      if x in y.groups {
        TurnMovesOne(y.cleanup, x, y.groups[x]);
        Cleanups.WaitTurnInv(y.cleanup, x, y.groups[x]);
        if x == s {
          IdleIsDone(y.cleanup, y.groups[s], task);
        }
      }
    case WaiterWakes(x) =>
      SettleMoves(y.registry, x);
      WakeMovesOne(y.cleanup, x);
      if x in y.cleanup.sleepers && y.cleanup.sleepers[x] in y.cleanup.fired {
        Cleanups.WakeOutcome(y.cleanup, x);
        if x == s {
          IdleIsDone(y.cleanup, y.groups[s], task);
        }
      }
  }

  lemma StaysTracked(c: CleanupState.Cleanup, d: CleanupState.Cleanup, task: nat)
    requires Cleanups.Evolves(c, d) && task in c.tasks
    ensures task in d.done || (task in d.tasks && c.tasks[task].groups <= d.tasks[task].groups)
  {
  }

  lemma NotWaiting(c: State.Registry, s: nat)
    requires Sessions.Reachable(c) && s in c.sessions && c.sessions[s].context == State.BeingClosed
    ensures s in c.closers ==> c.closers[s] != State.Waiting
  {
    hide Sessions.Reachable;
    Sessions.ReachableInv(c);
    assert Sessions.ContextSound(c.sessions[s], State.Current(c.live, s, c.sessions[s].id),
        Sessions.CloserOf(c.closers, s));
  }

  lemma IdleIsDone(c: CleanupState.Cleanup, g: nat, task: nat)
    requires Cleanups.Inv(c)
    ensures CleanupState.Idle(c, g) && task in c.tasks ==> g !in c.tasks[task].groups
  {
    assert task in CleanupState.TasksOf(c.groupTasks, g) <==> task in c.tasks && g in c.tasks[task].groups;
  }

  lemma {:induction false} WorkRun(y: System, actions: seq<Action>, s: nat, task: nat)
    requires Inv(y) && (WorksFor(y, s, task) || task in y.cleanup.done)
    ensures var z := Run(y, actions);
            Inv(z) && (WorksFor(z, s, task) || task in z.cleanup.done)
    decreases |actions|
  {
    hide Inv, Step, WorksFor;
    if actions != [] {
      StepInv(y, actions[0]);
      if task in y.cleanup.done {
        DoneStays(y, actions[0], task);
      } else {
        WorkStep(y, actions[0], s, task);
      }
      WorkRun(Step(y, actions[0]), actions[1..], s, task);
    }
  }

  lemma DoneStays(y: System, a: Action, task: nat)
    requires Inv(y) && task in y.cleanup.done
    ensures task in Step(y, a).cleanup.done
  {
    hide Cleanups.Inv, Sessions.Reachable, Sessions.Step, Cleanups.Step, CleanupState.Track, CleanupState.Idle,
      State.CloserEnter, State.CleanupSettle, GroupsNamed, SleepersNamed, CleanupState.WaitTurn, CleanupState.Wake;
    match a
    case OfRegistry(_) =>
    case OfCleanup(b) => Cleanups.StepInv(y.cleanup, b);
    case ClosingStarts(_, other, timeout) => Cleanups.TrackInv(y.cleanup, other, timeout, None, None);
    case WaitStarts(s) => if s in y.groups { TurnMovesOne(y.cleanup, s, y.groups[s]); }
    case WaiterWakes(s) => WakeMovesOne(y.cleanup, s);
  }

  /** An id is reusable only after the work: once it can be registered again, every task that ever worked
      in the cleanup group of a session of that id while the session was closing has finished. */
  lemma IdIsReusedOnlyAfterWork(y: System, actions: seq<Action>, s: nat, task: nat, id: string)
    requires Reachable(y) && WorksFor(y, s, task) && y.registry.sessions[s].id == id
    ensures var z := Run(y, actions);
            State.RegisterResultOf(z.registry, id).Registered? ==> task in z.cleanup.done
  {
    hide Reachable, Run, Sessions.Reachable, Cleanups.Inv;
    ReachableInv(y);
    WorkRun(y, actions, s, task);
    var z := Run(y, actions);
    RunKeepsId(y, actions, s);
    if State.RegisterResultOf(z.registry, id).Registered? {
      Sessions.IdIsReusedOnlyAfterCleanup(z.registry, id, None, s);
    }
  }

  lemma {:induction false} RunKeepsId(y: System, actions: seq<Action>, s: nat)
    requires Inv(y) && s in y.registry.sessions
    ensures var z := Run(y, actions);
            s in z.registry.sessions && z.registry.sessions[s].id == y.registry.sessions[s].id
    decreases |actions|
  {
    hide Inv, Step;
    if actions != [] {
      StepInv(y, actions[0]);
      StepKeepsId(y, actions[0], s);
      RunKeepsId(Step(y, actions[0]), actions[1..], s);
    }
  }

  lemma StepKeepsId(y: System, a: Action, s: nat)
    requires Inv(y) && s in y.registry.sessions
    ensures s in Step(y, a).registry.sessions && Step(y, a).registry.sessions[s].id == y.registry.sessions[s].id
  {
    hide Cleanups.Inv, Sessions.Reachable, Sessions.Inv, Sessions.Step, Cleanups.Step, CleanupState.Track,
      CleanupState.Idle, State.CloserEnter, State.CleanupSettle, GroupsNamed, SleepersNamed, CleanupState.WaitTurn,
      CleanupState.Wake;
    Sessions.ReachableInv(y.registry);
    match a
    case OfRegistry(a) => Sessions.StepInv(y.registry, a);
    case OfCleanup(_) =>
    case ClosingStarts(x, _, _) =>
      CloserSteps(y.registry, x);
      Sessions.StepInv(y.registry, Sessions.CloserEnters(x));
    case WaitStarts(x) =>
      CloserSteps(y.registry, x);
      Sessions.StepInv(y.registry, Sessions.CleanupSettles(x));
    case WaiterWakes(x) =>
      CloserSteps(y.registry, x);
      Sessions.StepInv(y.registry, Sessions.CleanupSettles(x));
  }

  /** No close task sleeps on: once its group is idle it can wake, and waking settles its session; and it
      never settles a session whose group is not idle. */
  lemma IdleGroupWakesTheCloser(y: System, s: nat)
    requires Reachable(y) && s in y.cleanup.sleepers
    ensures s in y.groups && s in y.registry.sessions && y.registry.sessions[s].context == State.BeingClosed
    ensures var z := Step(y, WaiterWakes(s));
            && s in z.registry.sessions
            && (z.registry.sessions[s].context == State.Settled <==> CleanupState.Idle(y.cleanup, y.groups[s]))
            && (CleanupState.Idle(y.cleanup, y.groups[s]) ==> s !in z.cleanup.sleepers)
  {
    hide Reachable, Sessions.Reachable, Cleanups.Inv, CleanupState.Wake, CleanupState.Idle;
    ReachableInv(y);
    Cleanups.SleeperFacts(y.cleanup, s);
    if y.cleanup.sleepers[s] in y.cleanup.fired {
      Cleanups.WakeOutcome(y.cleanup, s);
    }
  }
}
