/** Runs of the pool: the environment picks every next section and the outcome of every launch,
    close and cancellation. The theorems here hold of every state any run can reach. */
module PoolRuns {
  import opened Basics
  import opened PoolState
  import opened PoolInvariant
  import opened PoolSettling
  import opened PoolFrames
  import opened PoolLaunching
  import opened PoolStartup
  import opened PoolHandoff
  import opened PoolLeases

  datatype Event =
    | StartBegins
    | StartAborted(st: nat)
    | StartDeserted(st: nat)
    | StartFails(st: nat, done: set<nat>)
    | StartCompletes(st: nat, order: seq<nat>)
    | Registers(st: nat)
    | StartReturns(st: nat)
    | StartIsCancelled(st: nat)
    | StartRecovers(st: nat)
    | Refreshes(now: int)
    | Maintains(now: int)
    | Quiesces
    | CloseBegins
    | AcquireBegins(kind: Kind, deadline: int)
    | AcquireTurns(waiter: nat, now: int, check: int, later: int)
    | WaiterWakes(waiter: nat)
    | WaiterLeaves(waiter: nat)
    | SlotReleased(reservation: nat, discard: bool, reason: Reason, now: int)
    | PersistentOpens
    | PersistentReleased(ticket: nat)
    | BrowserLaunched(launch: nat, now: int)
    | BrowserFailed(launch: nat)
    | SupervisorTimesOut(launch: nat)
    | SupervisorSettles(launch: nat)
    | WatcherFinishes(launch: nat)
    | CloseEnds(slot: nat, succeeded: bool, saysClosed: bool, now: int)
    | CloseDies(slot: nat)
    | CloseReconciled(slot: nat, attempt: nat, saysClosed: bool, now: int)
    | ProcessExits(slot: nat)
    | ProcessExitReconciled(slot: nat)
    | Disconnects(slot: nat)

  /** One event. An event that cannot happen in `p` leaves it alone. A persistent ticket is given
      back only once nobody waits with it and its slot is released, and a caller takes a turn only
      while it is not parked. */
  ghost function Step(p: Pool, e: Event): Pool {
    match e
    case StartBegins => StartOnce(p)
    case StartAborted(st) => StartupAborted(p, st)
    case StartDeserted(st) => StartupDeserted(p, st)
    case StartFails(st, done) => StartupFailed(p, st, done)
    case StartCompletes(st, order) => StartupCompleted(p, st, order)
    case Registers(st) => RegisterStarted(p, st)
    case StartReturns(st) => StartupReturned(p, st)
    case StartIsCancelled(st) => StartupCancelled(p, st)
    case StartRecovers(st) => RecoverStart(p, st)
    case Refreshes(now) => Refresh(p, now)
    case Maintains(now) => Maintain(p, now)
    case Quiesces => Quiesce(p)
    case CloseBegins => CloseBegin(p)
    case AcquireBegins(kind, deadline) => AcquireBegin(p, kind, deadline)
    case AcquireTurns(w, now, check, later) =>
      if w in p.waiters && !p.waiters[w].parked then AcquireTurn(p, w, now, check, later).0 else p
    case WaiterWakes(w) => Unpark(p, w, false)
    case WaiterLeaves(w) => Unpark(p, w, true)
    case SlotReleased(r, discard, reason, now) => ReleaseSlot(p, r, discard, reason, now)
    case PersistentOpens => PersistentOpen(p)
    case PersistentReleased(k) => if TicketIdle(p, k) then PersistentRelease(p, k) else p
    case BrowserLaunched(t, now) => LaunchReturns(p, t, now)
    case BrowserFailed(t) => LaunchFails(p, t)
    case SupervisorTimesOut(t) => SuperviseTimedOut(p, t)
    case SupervisorSettles(t) => SuperviseSettled(p, t)
    case WatcherFinishes(t) => WatcherFinished(p, t)
    case CloseEnds(s, succeeded, saysClosed, now) => CloseEnded(p, s, succeeded, saysClosed, now)
    case CloseDies(s) => CloseAborted(p, s)
    case CloseReconciled(s, attempt, saysClosed, now) => ReconcileAborted(p, s, attempt, saysClosed, now)
    case ProcessExits(s) => PhysicalCloseFinished(p, s)
    case ProcessExitReconciled(s) => LateReconcile(p, s)
    case Disconnects(s) => BrowserDies(p, s)
  }

  ghost function Run(p: Pool, events: seq<Event>): Pool
    decreases |events|
  {
    if events == [] then p else Run(Step(p, events[0]), events[1..])
  }

  lemma CloseEndedInv(p: Pool, s: nat, succeeded: bool, saysClosed: bool, now: int)
    requires Inv(p)
    ensures Inv(CloseEnded(p, s, succeeded, saysClosed, now))
            && Evolves(p, CloseEnded(p, s, succeeded, saysClosed, now))
  {
    hide Inv, Evolves, FinishClose;
    EvolvesSelf(p);
    if CloseRunning(p, s) {
      FinishCloseInv(p, s, succeeded, saysClosed, now);
    }
  }

  lemma ReconcileAbortedInv(p: Pool, s: nat, attempt: nat, saysClosed: bool, now: int)
    requires Inv(p)
    ensures Inv(ReconcileAborted(p, s, attempt, saysClosed, now))
            && Evolves(p, ReconcileAborted(p, s, attempt, saysClosed, now))
  {
    hide Inv, Evolves, FinishClose;
    EvolvesSelf(p);
    if s in p.closeTasks {
      FinishCloseInv(p, s, false, saysClosed, now);
    }
  }

  lemma CloseAbortedInv(p: Pool, s: nat)
    requires Inv(p)
    ensures Inv(CloseAborted(p, s)) && Evolves(p, CloseAborted(p, s))
  {
    hide Inv, Evolves;
    EvolvesSelf(p);
    if CloseRunning(p, s) {
      MarksInv(p, p.abortedCloses + {(s, p.closeTasks[s])}, p.physicallyClosed);
    }
  }

  lemma PhysicalCloseFinishedInv(p: Pool, s: nat)
    requires Inv(p)
    ensures Inv(PhysicalCloseFinished(p, s)) && Evolves(p, PhysicalCloseFinished(p, s))
  {
    hide Inv, Evolves;
    EvolvesSelf(p);
    MarksInv(p, p.abortedCloses, p.physicallyClosed + {s});
  }

  predicate OfStartup(e: Event) {
    e.StartBegins? || e.StartAborted? || e.StartDeserted? || e.StartFails? || e.StartCompletes? || e.Registers?
        || e.StartReturns?
    || e.StartIsCancelled? || e.StartRecovers? || e.Refreshes? || e.Maintains? || e.Quiesces? || e.CloseBegins?
  }

  predicate OfLease(e: Event) {
    e.AcquireBegins? || e.AcquireTurns? || e.WaiterWakes? || e.WaiterLeaves? || e.SlotReleased? || e.PersistentOpens?
    || e.PersistentReleased?
  }

  lemma StartupStepInv(p: Pool, e: Event)
    requires Inv(p) && OfStartup(e)
    ensures Inv(Step(p, e)) && Evolves(p, Step(p, e))
  {
    hide Inv, Evolves, StartOnce, StartupAborted, StartupDeserted, StartupFailed, StartupCompleted, RegisterStarted,
      StartupReturned, StartupCancelled, RecoverStart, Refresh, Maintain, Quiesce, CloseBegin, AcquireBegin,
      AcquireTurn, Unpark, ReleaseSlot, PersistentOpen, PersistentRelease, LaunchReturns, LaunchFails,
      SuperviseTimedOut, SuperviseSettled, WatcherFinished, CloseEnded, CloseAborted, ReconcileAborted,
      PhysicalCloseFinished, LateReconcile, BrowserDies, TicketIdle;
    match e
    case StartBegins => StartOnceInv(p);
    case StartAborted(st) => StartupAbortedInv(p, st);
    case StartDeserted(st) => StartupDesertedInv(p, st);
    case StartFails(st, done) => StartupFailedInv(p, st, done);
    case StartCompletes(st, order) => StartupCompletedInv(p, st, order);
    case Registers(st) => RegisterStartedInv(p, st);
    case StartReturns(st) => StartupReturnedInv(p, st);
    case StartIsCancelled(st) => StartupCancelledInv(p, st);
    case StartRecovers(st) => RecoverStartInv(p, st);
    case Refreshes(now) => MaintainInv(p, now);
    case Maintains(now) => MaintainInv(p, now);
    case Quiesces => QuiesceInv(p);
    case CloseBegins => CloseBeginInv(p);
  }

  lemma LeaseStepInv(p: Pool, e: Event)
    requires Inv(p) && OfLease(e)
    ensures Inv(Step(p, e)) && Evolves(p, Step(p, e))
  {
    hide Inv, Evolves, StartOnce, StartupAborted, StartupDeserted, StartupFailed, StartupCompleted, RegisterStarted,
      StartupReturned, StartupCancelled, RecoverStart, Refresh, Maintain, Quiesce, CloseBegin, AcquireBegin,
      AcquireTurn, Unpark, ReleaseSlot, PersistentOpen, PersistentRelease, LaunchReturns, LaunchFails,
      SuperviseTimedOut, SuperviseSettled, WatcherFinished, CloseEnded, CloseAborted, ReconcileAborted,
      PhysicalCloseFinished, LateReconcile, BrowserDies, TicketIdle;
    EvolvesSelf(p);
    match e
    case AcquireBegins(kind, deadline) => AcquireBeginInv(p, kind, deadline);
    case AcquireTurns(w, now, check, later) =>
      if w in p.waiters && !p.waiters[w].parked {
        AcquireTurnInv(p, w, now, check, later);
      }
    case WaiterWakes(w) => UnparkInv(p, w, false);
    case WaiterLeaves(w) => UnparkInv(p, w, true);
    case SlotReleased(r, discard, reason, now) => ReleaseInv(p, r, discard, reason, now);
    case PersistentOpens => PersistentOpenInv(p);
    case PersistentReleased(k) =>
      if TicketIdle(p, k) {
        PersistentReleaseInv(p, k);
      }
  }

  lemma BrowserStepInv(p: Pool, e: Event)
    requires Inv(p) && !OfStartup(e) && !OfLease(e)
    ensures Inv(Step(p, e)) && Evolves(p, Step(p, e))
  {
    hide Inv, Evolves, StartOnce, StartupAborted, StartupDeserted, StartupFailed, StartupCompleted, RegisterStarted,
      StartupReturned, StartupCancelled, RecoverStart, Refresh, Maintain, Quiesce, CloseBegin, AcquireBegin,
      AcquireTurn, Unpark, ReleaseSlot, PersistentOpen, PersistentRelease, LaunchReturns, LaunchFails,
      SuperviseTimedOut, SuperviseSettled, WatcherFinished, CloseEnded, CloseAborted, ReconcileAborted,
      PhysicalCloseFinished, LateReconcile, BrowserDies, TicketIdle;
    match e
    case BrowserLaunched(t, now) => LaunchReturnsInv(p, t, now);
    case BrowserFailed(t) => LaunchFailsInv(p, t);
    case SupervisorTimesOut(t) => SuperviseTimedOutInv(p, t);
    case SupervisorSettles(t) => SuperviseSettledInv(p, t);
    case WatcherFinishes(t) => WatcherFinishedInv(p, t);
    case CloseEnds(s, succeeded, saysClosed, now) => CloseEndedInv(p, s, succeeded, saysClosed, now);
    case CloseDies(s) => CloseAbortedInv(p, s);
    case CloseReconciled(s, attempt, saysClosed, now) => ReconcileAbortedInv(p, s, attempt, saysClosed, now);
    case ProcessExits(s) => PhysicalCloseFinishedInv(p, s);
    case ProcessExitReconciled(s) => LateReconcileInv(p, s);
    case Disconnects(s) => BrowserDiesInv(p, s);
  }

  /** Every event keeps the invariant, and never moves the pool back. */
  lemma StepInv(p: Pool, e: Event)
    requires Inv(p)
    ensures Inv(Step(p, e)) && Evolves(p, Step(p, e))
  {
    hide Inv, Evolves, Step;
    if OfStartup(e) {
      StartupStepInv(p, e);
    } else if OfLease(e) {
      LeaseStepInv(p, e);
    } else {
      BrowserStepInv(p, e);
    }
  }

  lemma NewPoolInv(cfg: Config)
    ensures Inv(NewPool(cfg))
  {
    var p := NewPool(cfg);
    assert LiveTransient(p.reservations) == {} && LiveTickets(p.tickets) == {} && ParkedWaiters(p.waiters) == {};
  }

  /** From any sound state, every run keeps the invariant and only moves forward. */
  lemma {:induction false} RunInv(p: Pool, events: seq<Event>)
    requires Inv(p)
    ensures Inv(Run(p, events)) && Evolves(p, Run(p, events))
    decreases |events|
  {
    hide Inv, Evolves, Step;
    if events == [] {
      EvolvesSelf(p);
    } else {
      var q := Step(p, events[0]);
      StepInv(p, events[0]);
      RunInv(q, events[1..]);
      EvolvesTransitive(p, q, Run(q, events[1..]));
    }
  }

  /** A state some run of a new pool reaches. */
  ghost predicate Reachable(p: Pool) {
    exists cfg, events :: p == Run(NewPool(cfg), events)
  }

  lemma ReachableInv(p: Pool)
    requires Reachable(p)
    ensures Inv(p)
  {
    hide Inv, Evolves, NewPool, Run;
    var cfg, events :| p == Run(NewPool(cfg), events);
    NewPoolInv(cfg);
    RunInv(NewPool(cfg), events);
  }

  // ----- no browser is ever lost -----

  datatype Owner = InFlight | Watched | Listed | BeingClosed | CloseFailed | CloseAccepted

  /** Everything in the pool that answers for browser `s`. */
  function Owners(p: Pool, s: nat): set<Owner> {
    (if s in p.createTasks then {InFlight} else {})
    + (if s in p.watchers then {Watched} else {})
    + (if s in p.slots then {Listed} else {})
    + (if s in p.closeTasks then {BeingClosed} else {})
    + (if s in p.failedCloses then {CloseFailed} else {})
    + (if s in p.accepted then {CloseAccepted} else {})
  }

  lemma OwnerFacts(p: Pool, s: nat)
    requires Inv(p) && s in p.launches && p.launches[s].outcome == Returned
    ensures s in p.table
    ensures IsClosing(p, s) ==>
              && s !in p.slots && s !in p.createTasks && (s in p.watchers ==> p.closed)
              && (s in p.closeTasks || s in p.failedCloses || s in p.accepted)
              && (s in p.closeTasks ==> s !in p.failedCloses && s !in p.accepted)
              && (s in p.failedCloses ==> s !in p.accepted)
    ensures !IsClosing(p, s) ==>
              && s !in p.closeTasks && s !in p.failedCloses && s !in p.accepted
              && (s in p.slots || s in p.createTasks || s in p.watchers)
              && (s in p.slots ==> s !in p.createTasks && s !in p.watchers)
              && (s in p.createTasks ==> s !in p.watchers)
  {
    InvParts(p);
    hide Inv, Held, Leases, StartupsSound, Attended, Draining, TasksKnown, SlotsKnown;
  }

  /** In every reachable state every browser a factory returned has an owner until its close is
      accepted; while the pool is open it has exactly one; and only a closing pool may still watch
      the launch of a browser that is already closing. */
  lemma NoBrowserIsLost(p: Pool, s: nat)
    requires Reachable(p) && s in p.launches && p.launches[s].outcome == Returned
    ensures Owners(p, s) != {}
    ensures !p.closed ==> exists o :: Owners(p, s) == {o}
    ensures Owners(p, s) == {Watched} || exists o :: Owners(p, s) - {Watched} == {o}
  {
    hide Inv, Reachable, IsClosing;
    ReachableInv(p);
    OwnerFacts(p, s);
    var o := if s in p.slots then Listed else if s in p.createTasks then InFlight else if s in p.closeTasks
        then BeingClosed
             else if s in p.failedCloses then CloseFailed else if s in p.accepted then CloseAccepted else Watched;
    assert o in Owners(p, s);
    if o == Watched {
      assert Owners(p, s) == {Watched};
    } else {
      assert Owners(p, s) - {Watched} == {o};
      if !p.closed {
        assert Owners(p, s) == {o};
      }
    }
  }

  /** Someone waits for the launch: its supervisor, or the startup it belongs to. */
  predicate Awaited(p: Pool, t: nat)
    requires t in p.launches
  {
    var st := p.launches[t].startup;
    st == None || InPhase(p, st.value, Waiting) || InPhase(p, st.value, Registering)
  }

  /** Nobody forgets a launch: while its factory runs, it is in flight or a watcher will close what it
      returns; and a launch in flight is awaited exactly if its startup was not deserted. */
  lemma NoLaunchIsForgotten(p: Pool, t: nat)
    requires Reachable(p) && t in p.launches
    ensures p.launches[t].outcome == Running ==> t in p.createTasks || t in p.watchers
    ensures t in p.createTasks ==>
              (Awaited(p, t) <==> !(p.launches[t].startup.Some? && InPhase(p, p.launches[t].startup.value, Deserted)))
  {
    ReachableInv(p);
    InvParts(p);
    hide Inv, Held, Reachable, StartupsSound, OpenOwned, ClosingOwned;
  }

  /** A deserted launch: nobody waits for it, and shutdown hands it to a watcher. */
  lemma DesertedLaunch()
    ensures var p := Starting([], {0}, map[], Running, Deserted);
            && Reachable(p) && 0 in p.createTasks && !Awaited(p, 0)
            && 0 in Step(p, Quiesces).watchers && 0 in Step(p, CloseBegins).watchers
  {
    var p := Starting([], {0}, map[], Running, Waiting);
    SmallPoolDeserts();
    DesertedIsTaken();
    NewIsReachable(SMALL);
    SmallPoolStarts();
    hide Reachable, Step;
    ReachableStep(NewPool(SMALL), StartBegins);
    ReachableStep(p, StartDeserted(0));
  }

  lemma SmallPoolDeserts()
    ensures Step(Starting([], {0}, map[], Running, Waiting), StartDeserted(0))
            == Starting([], {0}, map[], Running, Deserted)
  {
  }

  lemma DesertedIsTaken()
    ensures var p := Starting([], {0}, map[], Running, Deserted);
            0 in Step(p, Quiesces).watchers && 0 in Step(p, CloseBegins).watchers
  {
    ShutdownTakes(Starting([], {0}, map[], Running, Deserted));
  }

  /** Shutdown leaves no launch in flight: each goes to a watcher, awaited or not. */
  lemma ShutdownTakes(p: Pool)
    ensures p.createTasks <= Step(p, Quiesces).watchers && Step(p, Quiesces).createTasks == p.createTasks * p.watchers
    ensures p.createTasks <= Step(p, CloseBegins).watchers
            && Step(p, CloseBegins).createTasks == p.createTasks * p.watchers
  {
    var q := AbandonCreates(p.(closed := true), p.createTasks);
    var r := RetryCloses(q, q.failedCloses);
    RetireKeepsLaunches(q, q.slots, Shutdown);
    RetireKeepsLaunches(r, r.slots, Shutdown);
  }

  lemma {:induction false} RetireKeepsLaunches(p: Pool, todo: seq<nat>, reason: Reason)
    ensures RetireAll(p, todo, reason).watchers == p.watchers && RetireAll(p, todo, reason).createTasks == p.createTasks
    decreases |todo|
  {
    hide RetireOne;
    if todo != [] {
      RetireOneKeepsLaunches(p, todo[0], reason);
      RetireKeepsLaunches(RetireOne(p, todo[0], reason), todo[1..], reason);
    }
  }

  lemma RetireOneKeepsLaunches(p: Pool, s: nat, reason: Reason)
    ensures RetireOne(p, s, reason).watchers == p.watchers && RetireOne(p, s, reason).createTasks == p.createTasks
  {
    hide ScheduleClose, Retired;
    if s in p.table {
      CloseKeepsLaunches(p, s, reason);
      CloseKeepsLaunches(MarkRetiring(p, s, reason), s, reason);
      MarkKeepsLaunches(p, s, reason);
    }
  }

  lemma MarkKeepsLaunches(p: Pool, s: nat, reason: Reason)
    ensures MarkRetiring(p, s, reason).watchers == p.watchers && MarkRetiring(p, s, reason).createTasks == p.createTasks
  {
    hide Retired;
  }

  lemma CloseKeepsLaunches(p: Pool, s: nat, reason: Reason)
    ensures ScheduleClose(p, s, reason).watchers == p.watchers
            && ScheduleClose(p, s, reason).createTasks == p.createTasks
  {
    hide ScheduleClose, Without, Retired;
    ScheduleCloseIdle(p, s, reason);
    if s in p.table && p.table[s].state != Closing && p.table[s].activeContexts == 0 {
      ScheduleCloseShape(p, s, reason);
    }
  }

  // ----- ceilings -----

  /** While the pool is open, browsers and launches of every kind together never pass the physical ceiling,
      twice the browsers wanted and one at least. */
  lemma PhysicalCeiling(p: Pool)
    requires Reachable(p) && !p.closed
    ensures |p.slots| + |p.createTasks| + |p.watchers| + |p.closeTasks| + |p.failedCloses|
            <= if p.cfg.maxBrowsers == 0 then 1 else 2 * p.cfg.maxBrowsers
  {
    ReachableInv(p);
    hide Reachable;
    assert |p.closeTasks.Keys| == |p.closeTasks|;
    assert Bounded(p, {}) by {
      hide ClosingOwned, OpenOwned, LaunchesKnown, TasksKnown, SlotsKnown, Leases, StartupsSound;
    }
  }

  /** The sections that end by replenishing in the background, where they run at all. */
  predicate Replenishes(p: Pool, e: Event) {
    match e
    case Maintains(_) => p.started && !p.closed
    case CloseEnds(s, _, _, _) => CloseRunning(p, s)
    case CloseReconciled(s, attempt, _, _) =>
        (s, attempt) in p.abortedCloses && s in p.closeTasks && p.closeTasks[s] == attempt
    case _ => false
  }

  function ReplenishedAt(e: Event): int {
    match e
    case Maintains(now) => now
    case CloseEnds(_, _, _, now) => now
    case CloseReconciled(_, _, _, now) => now
    case _ => 0
  }

  /** Background replenishment, whether by the maintenance loop or after a finished close, launches only
      below `max_browsers` processes of every kind, while the pool serves and nobody waits; and it stops
      only at its target or at that limit, unless the launch circuit is open. */
  lemma ReplenishWithinLimits(p: Pool, e: Event)
    requires Reachable(p) && Replenishes(p, e)
    ensures var q := Step(p, e);
            && ((exists t :: t in q.launches && t !in p.launches)
               ==> Physical(q) <= q.cfg.maxBrowsers && MayReplenish(q))
            && (MayReplenish(q) && |q.watchers| < q.cfg.Ceiling() ==>
                  Missing(q, ReplenishedAt(e)) <= 0 || Physical(q) >= q.cfg.maxBrowsers)
  {
    hide Inv, Reachable, Settles, Held, Physical, Missing, MayReplenish, Replenish, RefreshRecycling, FinishClose;
    ReachableInv(p);
    match e
    case Maintains(now) =>
      RefreshRecyclingInv(p, now);
      InvParts(p);
      RefreshRecyclingHeld(p, now);
      SettledReplenish(p, RefreshRecycling(p, now), now);
    case CloseEnds(s, succeeded, saysClosed, now) =>
      FinishCloseWithinLimits(p, s, succeeded, saysClosed, now);
    case CloseReconciled(s, attempt, saysClosed, now) =>
      FinishCloseWithinLimits(p, s, false, saysClosed, now);
  }

  /** What `q`, replenished from a pool with the launches of `p`, owes. */
  ghost predicate WithinLimits(p: Pool, q: Pool, now: int) {
    && ((exists t :: t in q.launches && t !in p.launches) ==> Physical(q) <= q.cfg.maxBrowsers && MayReplenish(q))
    && (MayReplenish(q) && |q.watchers| < q.cfg.Ceiling() ==> Missing(q, now) <= 0 || Physical(q) >= q.cfg.maxBrowsers)
  }

  lemma FinishCloseWithinLimits(p: Pool, s: nat, succeeded: bool, saysClosed: bool, now: int)
    requires Inv(p) && s in p.closeTasks
    ensures WithinLimits(p, FinishClose(p, s, succeeded, saysClosed, now), now)
  {
    hide Inv, Held, Settles, Evolves, PoolState.CloseAccepted, CloseRefused, Replenish, WithinLimits;
    ClosingIsKnown(p, s);
    InvParts(p);
    var q := if succeeded || s in p.physicallyClosed || saysClosed then PoolState.CloseAccepted(p, s)
        else CloseRefused(p, s, now);
    CloseAcceptedHeld(p, s);
    CloseRefusedHeld(p, s, now);
    SettlesInv(p, q);
    SettledReplenish(p, q, now);
  }

  lemma SettledReplenish(p: Pool, q: Pool, now: int)
    requires Inv(q) && Settles(p, q)
    ensures WithinLimits(p, Replenish(q, now), now)
  {
    hide Inv, Replenish, Physical, Missing, MayReplenish;
    ReplenishLimits(q, now);
    assert q.launches == p.launches && q.cfg == p.cfg;
  }

  lemma ReplenishLimits(p: Pool, now: int)
    requires Inv(p)
    ensures var q := Replenish(p, now);
            && (q != p ==> Physical(q) <= q.cfg.maxBrowsers && MayReplenish(q))
            && (MayReplenish(q) && |q.watchers| < q.cfg.Ceiling()
               ==> Missing(q, now) <= 0 || Physical(q) >= q.cfg.maxBrowsers)
  {
    hide Inv, Physical, Missing, LaunchMany, LaunchesKnown, TasksKnown;
    InvParts(p);
    var count := Min(Missing(p, now), p.cfg.maxBrowsers - Physical(p));
    if MayReplenish(p) && |p.watchers| < p.cfg.Ceiling() {
      assert Replenish(p, now) == LaunchMany(p, count, None);
      if count > 0 {
        LaunchManyFacts(p, count, None);
        LaunchManyCounts(p, count, now);
      } else {
        LaunchNone(p, count);
      }
    }
  }

  lemma LaunchNone(p: Pool, count: int)
    requires count <= 0
    ensures LaunchMany(p, count, None) == p
  {
  }

  lemma StartCreateCounts(p: Pool, now: int)
    requires LaunchesKnown(p.table, p.launches, p.nextLaunch, p.nextStartup)
    requires TasksKnown(p.createTasks, p.watchers, p.launches)
    ensures var q := StartCreate(p, None);
            && Missing(q, now) == Missing(p, now) - 1
            && LaunchesKnown(q.table, q.launches, q.nextLaunch, q.nextStartup)
            && TasksKnown(q.createTasks, q.watchers, q.launches)
  {
    hide LaunchesKnown, TasksKnown, Missing;
    StartCreateMissing(p, now);
    StartCreateKnown(p);
  }

  lemma StartCreateMissing(p: Pool, now: int)
    requires LaunchesKnown(p.table, p.launches, p.nextLaunch, p.nextStartup)
    requires TasksKnown(p.createTasks, p.watchers, p.launches)
    ensures Missing(StartCreate(p, None), now) == Missing(p, now) - 1
  {
    hide ShouldRecycle;
    assert p.nextLaunch !in p.createTasks;
    assert HealthyIds(StartCreate(p, None), now) == HealthyIds(p, now);
  }

  lemma StartCreateKnown(p: Pool)
    requires LaunchesKnown(p.table, p.launches, p.nextLaunch, p.nextStartup)
    requires TasksKnown(p.createTasks, p.watchers, p.launches)
    ensures var q := StartCreate(p, None);
            && LaunchesKnown(q.table, q.launches, q.nextLaunch, q.nextStartup)
            && TasksKnown(q.createTasks, q.watchers, q.launches)
  {
  }

  lemma {:induction false} LaunchManyCounts(p: Pool, count: nat, now: int)
    requires LaunchesKnown(p.table, p.launches, p.nextLaunch, p.nextStartup)
    requires TasksKnown(p.createTasks, p.watchers, p.launches)
    ensures var q := LaunchMany(p, count, None);
            Physical(q) == Physical(p) + count && Missing(q, now) == Missing(p, now) - count
    decreases count
  {
    hide LaunchesKnown, TasksKnown, Physical, Missing, StartCreate;
    if count != 0 {
      StartCreateGrows(p, None);
      StartCreateCounts(p, now);
      LaunchManyCounts(StartCreate(p, None), count - 1, now);
    }
  }

  // ----- accounting -----

  /** `sum(slot.active_contexts for slot in self._slots)`. */
  function ActiveSum(table: map<nat, Slot>, slots: seq<nat>): int
    requires forall s :: s in slots ==> s in table
  {
    if slots == [] then 0 else table[slots[0]].activeContexts + ActiveSum(table, slots[1..])
  }

  function Live(reservations: map<nat, Reservation>): set<nat> {
    set r | r in reservations && !reservations[r].released
  }

  function LiveAmong(reservations: map<nat, Reservation>, slots: seq<nat>): set<nat> {
    set r | r in reservations && !reservations[r].released && reservations[r].slot in slots
  }

  lemma {:induction false} ActiveSumCounts(p: Pool, slots: seq<nat>)
    requires SlotsCounted(p.table, p.reservations, p.cfg.maxContexts)
    requires Distinct(slots) && forall s :: s in slots ==> s in p.table
    ensures ActiveSum(p.table, slots) == |LiveAmong(p.reservations, slots)|
    decreases |slots|
  {
    if slots == [] {
      assert LiveAmong(p.reservations, slots) == {};
    } else {
      var rest := slots[1..];
      assert slots == [slots[0]] + rest;
      ActiveSumCounts(p, rest);
      var here, there := LiveOn(p.reservations, slots[0]), LiveAmong(p.reservations, rest);
      assert LiveAmong(p.reservations, slots) == here + there;
      assert slots[0] !in rest;
      assert here !! there;
    }
  }

  /** Conservation, in every reachable state: the contexts on the listed browsers are exactly the
      unreleased reservations, each counter is the number of leases or tickets behind it, and no
      browser or session quota is overdrawn. */
  lemma ContextsAreConserved(p: Pool)
    requires Reachable(p)
    ensures forall s :: s in p.slots ==> s in p.table && p.table[s].activeContexts <= p.cfg.maxContexts
    ensures ActiveSum(p.table, p.slots) == |Live(p.reservations)|
    ensures p.transient == |LiveTransient(p.reservations)| <= ActiveSum(p.table, p.slots)
    ensures |LivePersistent(p.reservations)| <= p.persistent
    ensures var all := p.cfg.maxBrowsers * p.cfg.maxContexts;
            p.persistent <= if all > p.cfg.reservedTransient then all - p.cfg.reservedTransient else 0
    ensures |Live(p.reservations)| == p.transient + |LivePersistent(p.reservations)|
  {
    hide Reachable, Inv, OpenOwned, ClosingOwned;
    ReachableInv(p);
    ConservedIn(p);
  }

  lemma ConservedIn(p: Pool)
    requires Inv(p)
    ensures forall s :: s in p.slots ==> s in p.table && p.table[s].activeContexts <= p.cfg.maxContexts
    ensures ActiveSum(p.table, p.slots) == |Live(p.reservations)|
    ensures p.transient == |LiveTransient(p.reservations)| <= ActiveSum(p.table, p.slots)
    ensures |LivePersistent(p.reservations)| <= p.persistent <= p.cfg.MaxPersistent()
    ensures |Live(p.reservations)| == p.transient + |LivePersistent(p.reservations)|
  {
    hide Inv, Held, OpenOwned, ClosingOwned, LaunchesKnown, TasksKnown, Draining, Attended, StartupsSound, Ticketed,
      WaitersCounted, ReservationsKnown, ActiveSum, LivePersistent, LiveTransient, Live;
    InvParts(p);
    ActiveSumIsLive(p);
    LiveIsBoth(p.reservations);
    PersistentWithinTickets(p, LivePersistent(p.reservations));
  }

  lemma LiveIsBoth(reservations: map<nat, Reservation>)
    ensures |Live(reservations)| == |LiveTransient(reservations)| + |LivePersistent(reservations)|
  {
    assert Live(reservations) == LiveTransient(reservations) + LivePersistent(reservations);
  }

  lemma ActiveSumIsLive(p: Pool)
    requires Inv(p)
    ensures forall s :: s in p.slots ==> s in p.table
    ensures ActiveSum(p.table, p.slots) == |Live(p.reservations)|
  {
    hide Inv, Held, OpenOwned, ClosingOwned, LaunchesKnown, TasksKnown, Draining, Attended, StartupsSound, Ticketed,
      WaitersCounted, ReservationsKnown, TransientsCounted, TicketsCounted;
    InvParts(p);
    ActiveSumCounts(p, p.slots);
    forall r | r in Live(p.reservations) ensures p.reservations[r].slot in p.slots {
      LiveIsListed(p, r);
    }
    assert LiveAmong(p.reservations, p.slots) == Live(p.reservations);
  }

  /** Distinct persistent leases hold distinct live tickets. */
  lemma PersistentWithinTickets(p: Pool, leases: set<nat>)
    requires Ticketed(p) && leases == LivePersistent(p.reservations)
    ensures |leases| <= |LiveTickets(p.tickets)|
  {
    TicketsOfLeases(p, leases, LiveTickets(p.tickets));
  }

  lemma {:induction false} TicketsOfLeases(p: Pool, leases: set<nat>, tickets: set<nat>)
    requires LeasesApart(p.reservations)
    requires forall r :: r in leases ==>
               r in p.reservations && p.reservations[r].kind.Persistent? && p.reservations[r].kind.ticket in tickets
    ensures |leases| <= |tickets|
    decreases |leases|
  {
    if leases != {} {
      var r :| r in leases;
      var k := p.reservations[r].kind.ticket;
      forall x | x in leases - {r} ensures p.reservations[x].kind.ticket in tickets - {k} {
        assert p.reservations[x].kind != p.reservations[r].kind;
      }
      TicketsOfLeases(p, leases - {r}, tickets - {k});
    }
  }

  /** No run makes any defensive `RuntimeError` of the pool's accounting fire. */
  lemma NoAccountingError(cfg: Config, events: seq<Event>)
    ensures !Run(NewPool(cfg), events).raised
  {
    hide Inv, Evolves, NewPool, Run;
    NewPoolInv(cfg);
    RunInv(NewPool(cfg), events);
    InvParts(Run(NewPool(cfg), events));
  }

  // ----- sessions cannot starve stateless work -----

  /** Every slot listed is in service or softly retired, and nothing else is alive. */
  predicate OnlyServing(p: Pool) {
    && p.watchers == {} && p.closeTasks.Keys == {} && p.failedCloses == {} && p.createTasks == {}
    && forall s :: s in p.slots && s in p.table ==> InService(p.table[s])
  }

  /** Full slots hold at least `full` times the limit. */
  lemma {:induction false} FullSlotsSum(table: map<nat, Slot>, slots: seq<nat>, full: set<nat>, limit: nat)
    requires forall s :: s in slots ==> s in table && table[s].activeContexts >= 0
    requires forall s :: s in full ==> s in slots && table[s].activeContexts >= limit
    ensures ActiveSum(table, slots) >= |full| * limit
    decreases |slots|
  {
    if slots == [] {
      assert full == {};
    } else {
      var rest := slots[1..];
      assert slots == [slots[0]] + rest;
      FullSlotsSum(table, rest, full - {slots[0]}, limit);
      if slots[0] in full {
        assert |full| == |full - {slots[0]}| + 1;
        OneMore(|full - {slots[0]}|, limit);
      } else {
        assert full - {slots[0]} == full;
      }
    }
  }

  lemma OneMore(n: nat, limit: nat)
    ensures (n + 1) * limit == n * limit + limit
  {
  }

  /** With no transient lease, fewer slots are full than the pool may have browsers. */
  lemma FewFull(p: Pool, full: set<nat>)
    requires Inv(p) && p.transient == 0
    requires p.cfg.maxBrowsers >= 1 && p.cfg.maxContexts >= 1 && p.cfg.reservedTransient >= 1
    requires forall s :: s in full ==> s in p.slots && s in p.table && p.table[s].activeContexts >= p.cfg.maxContexts
    ensures |full| < p.cfg.maxBrowsers
  {
    hide Inv, LivePersistent, Live, LiveTransient, ActiveSum;
    ConservedIn(p);
    NoNegativeSlots(p);
    FullSlotsSum(p.table, p.slots, full, p.cfg.maxContexts);
    var b, c, n := p.cfg.maxBrowsers, p.cfg.maxContexts, |full|;
    assert n * c <= p.cfg.MaxPersistent();
    assert b * c >= 1 by { Product(b, c); }
    assert n * c < b * c;
    if n >= b {
      Grows(b, n, c);
    }
  }

  lemma Product(b: nat, c: nat)
    requires b >= 1 && c >= 1
    ensures b * c >= 1
  {
  }

  lemma Grows(a: nat, b: nat, c: nat)
    requires a <= b
    ensures a * c <= b * c
  {
  }

  lemma NoNegativeSlots(p: Pool)
    requires Inv(p)
    ensures forall s :: s in p.slots ==> s in p.table && p.table[s].activeContexts >= 0
  {
    hide Inv, Held, OpenOwned, ClosingOwned, Ticketed, LiveOn, TicketsCounted, WaitersCounted, TransientsCounted;
    InvParts(p);
  }

  /** A ready slot with room has reached its maximum age by the reading `check`, though the refresh just
      before kept it: it is not healthy, not yet retired, and counts as usable. */
  predicate AgesMeanwhile(q: Pool, check: int) {
    exists s :: s in q.slots && s in q.table && q.table[s].state == Ready
        && q.table[s].activeContexts < q.cfg.maxContexts
                && ShouldRecycle(q.cfg, q.table[s], check)
  }

  /** A refreshed pool in which nobody can be served: its slots in service are full. */
  lemma UnservedAreFull(q: Pool, now: int, check: int)
    requires Inv(q) && !AgesMeanwhile(q, check) && forall s :: s in q.slots ==> Refreshed(q, s, now)
    requires FirstHealthy(q, q.slots, check) == None && FirstSoft(q, q.slots) == None
    ensures forall s :: s in q.slots ==>
              s in q.table && (InService(q.table[s]) ==> q.table[s].activeContexts >= q.cfg.maxContexts)
  {
    hide Inv, FirstHealthy, FirstSoft, ShouldRecycle;
    NoNegativeSlots(q);
    forall s | s in q.slots
      ensures s in q.table && (InService(q.table[s]) ==> q.table[s].activeContexts >= q.cfg.maxContexts)
    {
      assert Refreshed(q, s, now);
      assert !Healthy(q.cfg, q.table[s], check) && !SoftAvailable(q.cfg, q.table[s]);
    }
  }

  /** What limits a launch: fewer full browsers than `max_browsers`. */
  lemma FewReady(q: Pool, now: int, check: int)
    requires Inv(q) && q.transient == 0
    requires q.cfg.maxBrowsers >= 1 && q.cfg.maxContexts >= 1 && q.cfg.reservedTransient >= 1
    requires !AgesMeanwhile(q, check) && forall s :: s in q.slots ==> Refreshed(q, s, now)
    requires FirstHealthy(q, q.slots, check) == None && FirstSoft(q, q.slots) == None
    ensures |ReadyIds(q)| < q.cfg.maxBrowsers
    ensures OnlyServing(q) ==> |q.slots| < q.cfg.maxBrowsers
  {
    hide Inv, FirstHealthy, FirstSoft, Refreshed, InService, AgesMeanwhile;
    UnservedAreFull(q, now, check);
    ReadyServe(q);
    FewFull(q, ReadyIds(q));
    if OnlyServing(q) {
      InvParts(q);
      FewFull(q, Elements(q.slots));
      ElementsCard(q.slots) by { SlotsAreDistinct(q); }
    }
  }

  lemma ReadyServe(p: Pool)
    ensures forall s :: s in ReadyIds(p) ==> s in p.slots && s in p.table && InService(p.table[s])
  {
  }

  /** A caller that found no slot launches a browser exactly if it may. */
  lemma ParkLaunches(q: Pool, id: nat, w: Waiter, later: int)
    requires w.generation == q.failureGeneration
    ensures var (after, result) := AcquireOrPark(q, id, w, later);
            !result.Leased? && after.createTasks == if MayLaunch(q, w) then q.createTasks + {q.nextLaunch}
                else q.createTasks
  {
    hide MayLaunch, StartCreate;
    LaunchAdds(q);
    if later >= w.deadline {
    } else {
    }
  }

  lemma LaunchAdds(q: Pool)
    ensures StartCreate(q, None).createTasks == q.createTasks + {q.nextLaunch}
  {
  }

  lemma MayLaunchIff(q: Pool, w: Waiter)
    requires !w.launched && q.createTasks == {}
    ensures MayLaunch(q, w) <==> |ReadyIds(q)| < q.cfg.maxBrowsers && Physical(q) < q.cfg.Ceiling()
  {
    hide ReadyIds;
  }

  lemma TurnShape(p: Pool, id: nat, now: int, check: int, later: int)
    requires id in p.waiters && !p.closed && now < p.waiters[id].deadline
    ensures var q := RefreshRecycling(p, now);
            var (after, result) := AcquireTurn(p, id, now, check, later);
            if FirstHealthy(q, q.slots, check) == None && FirstSoft(q, q.slots) == None
            then (after, result) == AcquireOrPark(q, id, p.waiters[id], later)
            else result.Leased?
  {
    hide RefreshRecycling, Reserve, AcquireOrPark, FirstHealthy, FirstSoft;
  }

  lemma AvailableIff(q: Pool, check: int)
    ensures (exists s :: Available(q, s, check))
            <==> FirstHealthy(q, q.slots, check).Some? || FirstSoft(q, q.slots).Some?
  {
    hide ShouldRecycle;
    var healthy, soft := FirstHealthy(q, q.slots, check), FirstSoft(q, q.slots);
    assert healthy.Some? ==> Available(q, healthy.value, check);
    assert soft.Some? ==> Available(q, soft.value, check);
  }

  /** A fresh acquisition with no transient lease and no launch in flight. It leases a slot exactly if one
      is available at the reading `check`; below the physical ceiling it leases or launches exactly if one
      is available or fewer slots than `max_browsers` are ready. Unless a ready slot with room reached its
      maximum age since the refresh, that is always so; and then, even at the ceiling, it leases if the
      ceiling is made up of ready and softly retired browsers only. */
  lemma FreshAcquisitionIsServed(p: Pool, id: nat, now: int, check: int, later: int)
    requires Reachable(p) && !p.closed && p.transient == 0 && p.createTasks == {}
    requires p.cfg.maxBrowsers >= 1 && p.cfg.maxContexts >= 1 && p.cfg.reservedTransient >= 1
    requires id in p.waiters && p.waiters[id].generation == p.failureGeneration
    requires !p.waiters[id].launched && !p.waiters[id].parked && now < p.waiters[id].deadline
    ensures var q := RefreshRecycling(p, now);
            var (after, result) := AcquireTurn(p, id, now, check, later);
            var served := result.Leased? || after.createTasks == {p.nextLaunch};
            && (result.Leased? <==> exists s :: Available(q, s, check))
            && (Physical(q) < q.cfg.Ceiling() ==>
                  (served <==> (exists s :: Available(q, s, check)) || |ReadyIds(q)| < q.cfg.maxBrowsers))
            && (!AgesMeanwhile(q, check) ==>
                  && (Physical(q) < q.cfg.Ceiling() ==> served)
                  && (Physical(q) >= q.cfg.Ceiling() && OnlyServing(q) ==> result.Leased?))
  {
    hide Inv, Reachable, RefreshRecycling, Reserve, Refreshed, FirstHealthy, FirstSoft, MayLaunch, OnlyServing,
      AcquireTurn, AcquireOrPark, Evolves, Physical, Available, ReadyIds, AgesMeanwhile;
    ReachableInv(p);
    var q := RefreshRecycling(p, now);
    RefreshRecyclingInv(p, now);
    RefreshKeepsCounts(p, now);
    TurnShape(p, id, now, check, later);
    AvailableIff(q, check);
    if FirstHealthy(q, q.slots, check) == None && FirstSoft(q, q.slots) == None {
      ParkLaunches(q, id, p.waiters[id], later);
      MayLaunchIff(q, p.waiters[id]);
      if !AgesMeanwhile(q, check) {
        FewReady(q, now, check);
        OnlyServingPhysical(q);
      }
    }
  }

  lemma {:induction false} RunOne(p: Pool, events: seq<Event>, e: Event)
    ensures Run(p, events + [e]) == Step(Run(p, events), e)
    decreases |events|
  {
    hide Step;
    if events == [] {
      assert ([] + [e])[1..] == [];
      assert Run(Step(p, e), []) == Step(p, e);
    } else {
      assert (events + [e])[1..] == events[1..] + [e];
      RunOne(Step(p, events[0]), events[1..], e);
    }
  }

  lemma ReachableStep(p: Pool, e: Event)
    requires Reachable(p)
    ensures Reachable(Step(p, e))
  {
    hide Step, Run, NewPool;
    var cfg, events :| p == Run(NewPool(cfg), events);
    RunOne(NewPool(cfg), events, e);
  }

  lemma NewIsReachable(cfg: Config)
    ensures Reachable(NewPool(cfg))
  {
    hide NewPool;
    assert NewPool(cfg) == Run(NewPool(cfg), []);
  }

  const SMALL: Config := Config(1, 1, 1, 1, 5, 1)

  /** A pool of one browser, launched at time 0, during and after its startup. */
  function Starting(slots: seq<nat>, createTasks: set<nat>, table: map<nat, Slot>, outcome: Outcome,
                    phase: Phase): Pool {
    NewPool(SMALL).(slots := slots, createTasks := createTasks, table := table,
                    launches := map[0 := Launch(Some(0), outcome)], startups := map[0 := Startup([0], phase, false)],
                    started := true, starting := phase != Finished, nextLaunch := 1, nextStartup := 1)
  }

  lemma SmallPoolStarts()
    ensures Step(NewPool(SMALL), StartBegins) == Starting([], {0}, map[], Running, Waiting)
  {
    assert Fresh(0, 1) == [0];
    assert LaunchMany(NewPool(SMALL), 0, Some(0)) == NewPool(SMALL);
  }

  lemma StartupSteps(p: Pool)
    ensures Step(p, BrowserLaunched(0, 0)) == LaunchReturns(p, 0, 0)
    ensures Step(p, StartCompletes(0, [0])) == StartupCompleted(p, 0, [0])
    ensures Step(p, Registers(0)) == RegisterStarted(p, 0)
    ensures Step(p, StartReturns(0)) == StartupReturned(p, 0)
  {
    hide LaunchReturns, StartupCompleted, RegisterStarted, StartupReturned;
  }

  lemma SmallPoolLaunches()
    ensures var table := map[0 := FreshSlot(0)];
            LaunchReturns(Starting([], {0}, map[], Running, Waiting), 0, 0)
                == Starting([], {0}, table, Returned, Waiting)
  {
    hide NewPool;
  }

  lemma SmallPoolCompletes()
    ensures var table := map[0 := FreshSlot(0)];
            StartupCompleted(Starting([], {0}, table, Returned, Waiting), 0, [0])
                == Starting([], {0}, table, Returned, Registering)
  {
  }

  lemma SmallPoolRegisters()
    ensures var table := map[0 := FreshSlot(0)];
            RegisterStarted(Starting([], {0}, table, Returned, Registering), 0)
                == Starting([0], {}, table, Returned, Registered)
  {
  }

  lemma SmallPoolReturns()
    ensures var table := map[0 := FreshSlot(0)];
            StartupReturned(Starting([0], {}, table, Returned, Registered), 0)
                == Starting([0], {}, table, Returned, Finished)
  {
    hide NewPool;
  }

  /** One caller waits for the browser of the started pool. */
  function Serving(): Pool {
    Starting([0], {}, map[0 := FreshSlot(0)], Returned, Finished).(
      waiters := map[0 := Waiter(Transient, 100, 0, false, false)], nextWaiter := 1)
  }

  lemma ServingIsReachable()
    ensures Reachable(Serving())
  {
    hide Reachable, Step, Starting, NewPool, LaunchReturns, StartupCompleted, RegisterStarted, StartupReturned;
    var table := map[0 := FreshSlot(0)];
    NewIsReachable(SMALL);
    SmallPoolStarts();
    ReachableStep(NewPool(SMALL), StartBegins);
    var p1, p2, p3 := Starting([], {0}, map[], Running, Waiting), Starting([], {0}, table, Returned, Waiting),
      Starting([], {0}, table, Returned, Registering);
    var p4 := Starting([0], {}, table, Returned, Registered);
    StartupSteps(p1);
    SmallPoolLaunches();
    ReachableStep(p1, BrowserLaunched(0, 0));
    StartupSteps(p2);
    SmallPoolCompletes();
    ReachableStep(p2, StartCompletes(0, [0]));
    StartupSteps(p3);
    SmallPoolRegisters();
    ReachableStep(p3, Registers(0));
    StartupSteps(p4);
    SmallPoolReturns();
    ReachableStep(p4, StartReturns(0));
    OneCaller();
    ReachableStep(Starting([0], {}, table, Returned, Finished), AcquireBegins(Transient, 100));
  }

  lemma OneCaller()
    ensures Step(Starting([0], {}, map[0 := FreshSlot(0)], Returned, Finished), AcquireBegins(Transient, 100))
            == Serving()
  {
  }

  /** The condition of `FreshAcquisitionIsServed` is needed: the one browser was fit when the pool was
      refreshed and too old when a slot was chosen, and the caller neither leases nor launches. */
  lemma AgeingSlotIsNotServed()
    ensures var p := Serving();
            var (after, result) := AcquireTurn(p, 0, 4, 5, 5);
            && Reachable(p) && !p.closed && p.transient == 0 && p.createTasks == {} && Physical(p) < p.cfg.Ceiling()
            && result == Parked && after.createTasks == {}
  {
    hide RefreshRecycling, Reachable, ServeOrPark, AcquireTurn;
    ServingIsReachable();
    ServingStays();
    ServingParks();
    TurnServes(Serving(), 0, 4, 5, 5);
  }

  lemma ServingStays()
    ensures RefreshRecycling(Serving(), 4) == Serving()
  {
    var p := Serving();
    assert RefreshOne(p, 0, 4) == p;
    assert RefreshAll(p, [0], 4) == p;
    assert RetryEligible(p, 4) == {};
  }

  lemma ServingParks()
    ensures var p := Serving();
            var (after, result) := ServeOrPark(p, 0, p.waiters[0], 5, 5);
            result == Parked && after.createTasks == {}
  {
    var p := Serving();
    assert ReadyIds(p) == {0};
  }

  /** A slot that can serve right now. */
  predicate Available(p: Pool, s: nat, now: int) {
    s in p.slots && s in p.table && (Healthy(p.cfg, p.table[s], now) || SoftAvailable(p.cfg, p.table[s]))
  }

  /** A turn of an open pool leases exactly if some refreshed slot can serve. It takes a slot with room
      whose browser is alive, a healthy one whenever there is one, and counts the new context there. */
  lemma EveryLeaseIsSound(p: Pool, id: nat, now: int, check: int, later: int)
    requires Reachable(p) && id in p.waiters && !p.waiters[id].parked && !p.closed && now < p.waiters[id].deadline
    ensures var q := RefreshRecycling(p, now);
            var (after, result) := AcquireTurn(p, id, now, check, later);
            && (result.Leased? <==> exists s :: Available(q, s, check))
            && (result.Leased? ==>
                  && result.reservation in after.reservations && result.reservation !in p.reservations
                  && after.reservations[result.reservation].kind == p.waiters[id].kind
                  && var s := after.reservations[result.reservation].slot;
                     && Available(q, s, check) && q.table[s].connected && InService(q.table[s])
                     && q.table[s].activeContexts < q.cfg.maxContexts
                     && s in after.table && after.table[s].activeContexts == q.table[s].activeContexts + 1
                     && ((exists x :: x in q.slots && x in q.table && Healthy(q.cfg, q.table[x], check)) ==>
                           Healthy(q.cfg, q.table[s], check)))
            && (result == LaunchFailed ==> q.failureGeneration != p.waiters[id].generation && q.lastFailure)
  {
    hide Inv, Reachable, RefreshRecycling, Refreshed, AcquireTurn, Evolves, ServeOrPark, InService, ShouldRecycle;
    ReachableInv(p);
    var q := RefreshRecycling(p, now);
    RefreshRecyclingInv(p, now);
    RefreshKeepsCounts(p, now);
    RefreshKeepsLeases(p, now);
    NoNegativeSlots(q);
    ServeTakesBest(q, id, p.waiters[id], check, later);
    TurnServes(p, id, now, check, later);
    var (after, result) := AcquireTurn(p, id, now, check, later);
    if result.Leased? {
      var s := after.reservations[result.reservation].slot;
      AvailableIsAlive(q, s, now, check);
    }
  }

  lemma TurnServes(p: Pool, id: nat, now: int, check: int, later: int)
    requires id in p.waiters && !p.closed && now < p.waiters[id].deadline
    ensures AcquireTurn(p, id, now, check, later)
            == ServeOrPark(RefreshRecycling(p, now), id, p.waiters[id], check, later)
  {
    hide RefreshRecycling, ServeOrPark;
  }

  lemma RefreshKeepsLeases(p: Pool, now: int)
    requires Inv(p)
    ensures var q := RefreshRecycling(p, now);
            && q.reservations == p.reservations && q.nextReservation == p.nextReservation
               && q.nextReservation !in q.reservations
  {
    hide Inv, RefreshRecycling, Held, Leases;
    InvParts(p);
    RefreshRecyclingHeld(p, now);
    FreshReservation(p);
  }

  lemma AvailableIsAlive(q: Pool, s: nat, now: int, check: int)
    requires Available(q, s, check) && Refreshed(q, s, now)
    ensures q.table[s].connected && InService(q.table[s]) && q.table[s].activeContexts < q.cfg.maxContexts
  {
    hide ShouldRecycle;
  }

  lemma ServeTakesBest(q: Pool, id: nat, w: Waiter, now: int, later: int)
    requires q.nextReservation !in q.reservations && forall s :: s in q.slots ==> s in q.table
    ensures var (after, result) := ServeOrPark(q, id, w, now, later);
            && (result.Leased? <==> exists s :: Available(q, s, now))
            && (result.Leased? ==>
                  && result.reservation == q.nextReservation && result.reservation in after.reservations
                  && after.reservations[result.reservation].kind == w.kind
                  && var s := after.reservations[result.reservation].slot;
                     && Available(q, s, now) && s in after.table
                        && after.table[s].activeContexts == q.table[s].activeContexts + 1
                     && ((exists x :: x in q.slots && x in q.table && Healthy(q.cfg, q.table[x], now)) ==>
                           Healthy(q.cfg, q.table[s], now)))
            && (result == LaunchFailed ==> q.failureGeneration != w.generation && q.lastFailure)
  {
    hide ShouldRecycle, RecycleReason, Reserve, AcquireOrPark;
    var healthy := FirstHealthy(q, q.slots, now);
    var found := if healthy.Some? then healthy else FirstSoft(q, q.slots);
    if found.Some? {
      var s := found.value;
      assert Available(q, s, now);
      ReserveShape(q, s, w.kind, now);
      ReserveCounts(q.cfg, q.table[s], now);
    } else {
      ParkFacts(q, id, w, later);
    }
  }

  lemma ReserveCounts(cfg: Config, slot: Slot, now: int)
    ensures ReservedSlot(cfg, slot, now).activeContexts == slot.activeContexts + 1
  {
  }

  lemma ParkFacts(q: Pool, id: nat, w: Waiter, later: int)
    ensures var result := AcquireOrPark(q, id, w, later).1;
            !result.Leased? && (result == LaunchFailed ==> q.failureGeneration != w.generation && q.lastFailure)
  {
    hide StartCreate, MayLaunch;
  }

  lemma OnlyServingPhysical(p: Pool)
    ensures OnlyServing(p) ==> Physical(p) == |p.slots|
  {
    if OnlyServing(p) {
      assert |p.closeTasks.Keys| == 0;
    }
  }

  lemma RefreshKeepsCounts(p: Pool, now: int)
    requires Inv(p)
    ensures var q := RefreshRecycling(p, now);
            && q.waiters == p.waiters && q.closed == p.closed && q.cfg == p.cfg && q.transient == p.transient
            && q.createTasks == p.createTasks && q.nextLaunch == p.nextLaunch
               && q.failureGeneration == p.failureGeneration
  {
    hide Inv, RefreshRecycling, Held;
    InvParts(p);
    RefreshRecyclingHeld(p, now);
  }

  // ----- lifecycle -----

  /** Along every run a browser only moves from ready over retiring to closing; a hard retirement
      stays hard; from the moment it is hard retired or closing it gets no new lease; a closing
      browser has no context; and at most one recycle is recorded for it. */
  lemma BrowsersNeverComeBack(cfg: Config, before: seq<Event>, after: seq<Event>, s: nat)
    requires s in Run(NewPool(cfg), before).table
    ensures var p := Run(NewPool(cfg), before);
            var q := Run(p, after);
            && s in q.table && Rank(p.table[s].state) <= Rank(q.table[s].state)
            && (Hard(p.table[s]) ==> Hard(q.table[s]))
            && (!InService(p.table[s]) ==>
                  q.table[s].uses == p.table[s].uses
                  && forall r :: r in q.reservations && q.reservations[r].slot == s ==> r in p.reservations)
            && (q.table[s].state == Closing ==> q.table[s].activeContexts == 0)
            && p.table[s].recycles <= q.table[s].recycles <= 1
            && (s in p.accepted ==> s in q.accepted)
  {
    hide Inv, NewPool, Run;
    var p := Run(NewPool(cfg), before);
    var q := Run(p, after);
    NewPoolInv(cfg);
    RunInv(NewPool(cfg), before);
    RunInv(p, after);
    EvolvesOne(p, q, s);
    if IsClosing(q, s) {
      ClosingIsIdle(q, s);
    }
    InvParts(p);
    InvParts(q);
    assert SlotSound(p.table[s]) && SlotSound(q.table[s]) by { HeldBasics(p, {}); HeldBasics(q, {}); }
  }

  lemma EvolvesOne(p: Pool, q: Pool, s: nat)
    requires Evolves(p, q) && s in p.table
    ensures s in q.table && SlotEvolves(p.table[s], q.table[s]) && (s in p.accepted ==> s in q.accepted)
    ensures !InService(p.table[s]) ==> forall r :: r in q.reservations && q.reservations[r].slot == s ==>
                                         r in p.reservations
  {
  }

  lemma ClosingIsIdle(p: Pool, s: nat)
    requires Inv(p) && IsClosing(p, s)
    ensures p.table[s].activeContexts == 0
  {
    hide Inv, Held, ClosingOwned;
    InvParts(p);
    assert s !in p.slots;
  }

  // ----- shutdown drains -----

  /** What `close` waits for: leases still out, and abandoned launches still watched. */
  function DrainMeasure(p: Pool): nat {
    |Live(p.reservations)| + |p.watchers|
  }

  /** Once the pool is closed, no launch is in flight, every listed slot is retiring and busy, and
      when the last lease is back and the last watcher done nothing that `close` waits for is left. */
  lemma ClosedPoolDrains(p: Pool)
    requires Reachable(p) && p.closed
    ensures p.createTasks == {}
    ensures forall s :: s in p.slots ==> s in p.table && p.table[s].state == Retiring && p.table[s].activeContexts > 0
    ensures |p.slots| <= |Live(p.reservations)|
    ensures DrainMeasure(p) == 0 ==> p.slots == [] && p.createTasks == {} && p.watchers == {}
  {
    hide Inv, Reachable, ActiveSum;
    ReachableInv(p);
    InvParts(p);
    ActiveSumIsLive(p);
    BusySum(p.table, p.slots);
  }

  lemma {:induction false} BusySum(table: map<nat, Slot>, slots: seq<nat>)
    requires forall s :: s in slots ==> s in table && table[s].activeContexts > 0
    ensures ActiveSum(table, slots) >= |slots|
    decreases |slots|
  {
    if slots != [] {
      BusySum(table, slots[1..]);
    }
  }

  /** After closing, no run launches a browser or leases a context or a session again, and what
      `close` waits for never grows. */
  lemma ClosedPoolOnlyDrains(p: Pool, events: seq<Event>)
    requires Reachable(p) && p.closed
    ensures var q := Run(p, events);
            && q.closed && q.launches.Keys == p.launches.Keys && q.reservations.Keys == p.reservations.Keys
            && q.tickets.Keys == p.tickets.Keys && Live(q.reservations) <= Live(p.reservations)
            && q.watchers <= p.watchers && DrainMeasure(q) <= DrainMeasure(p)
  {
    hide Inv, Reachable, Run;
    ReachableInv(p);
    RunInv(p, events);
    ClosedShrinks(p, Run(p, events));
  }

  lemma ClosedShrinks(p: Pool, q: Pool)
    requires Inv(p) && p.closed && Inv(q) && Evolves(p, q)
    ensures Live(q.reservations) <= Live(p.reservations) && q.watchers <= p.watchers
    ensures DrainMeasure(q) <= DrainMeasure(p)
    ensures q.closed && q.launches.Keys == p.launches.Keys && q.reservations.Keys == p.reservations.Keys
    ensures q.tickets.Keys == p.tickets.Keys
  {
    hide Inv, Held, OpenOwned, ClosingOwned, Leases, StartupsSound, Attended, LaunchesKnown, SlotsKnown;
    InvParts(p);
    InvParts(q);
    assert forall t :: t in q.watchers ==> t in q.launches.Keys;
    CardSubset(q.watchers, p.watchers);
    CardSubset(Live(q.reservations), Live(p.reservations));
  }

  /** Each release of a live lease, and each watcher that finishes, brings the end of `close` nearer. */
  lemma EveryReleaseCounts(p: Pool, r: nat, discard: bool, reason: Reason, now: int)
    requires Inv(p) && p.closed && r in Live(p.reservations)
    ensures DrainMeasure(ReleaseSlot(p, r, discard, reason, now)) < DrainMeasure(p)
  {
    hide Inv, ReleaseSlot, Evolves;
    var q := ReleaseSlot(p, r, discard, reason, now);
    ReleaseInv(p, r, discard, reason, now);
    ClosedShrinks(p, q);
    ReleaseReleases(p, r, discard, reason, now);
    assert Live(q.reservations) < Live(p.reservations);
    assert Live(q.reservations) <= Live(p.reservations) - {r};
    CardSubset(Live(q.reservations), Live(p.reservations) - {r});
    CardSubset(q.watchers, p.watchers);
  }

  lemma ReleaseReleases(p: Pool, r: nat, discard: bool, reason: Reason, now: int)
    requires Inv(p) && r in Live(p.reservations)
    ensures r !in Live(ReleaseSlot(p, r, discard, reason, now).reservations)
  {
    hide Inv, ReleaseSlot, ScheduleClose, ReleasedSlot, GivenBack;
    LiveIsListed(p, r);
    ReleaseShape(p, r, discard, reason, now);
    var s := p.reservations[r].slot;
    var left := ReleasedSlot(p.cfg, p.table[s], discard, reason, now);
    CloseKeepsRest(GivenBack(p, r, left), s, ReasonOr(left.retireReason));
    GivenBackReleases(p, r, left);
  }

  lemma GivenBackReleases(p: Pool, r: nat, slot: Slot)
    requires r in p.reservations
    ensures r !in Live(GivenBack(p, r, slot).reservations)
  {
  }

  lemma CloseKeepsRest(p: Pool, s: nat, reason: Reason)
    ensures ScheduleClose(p, s, reason).reservations == p.reservations
    ensures ScheduleClose(p, s, reason).watchers == p.watchers
  {
    hide ScheduleClose, Without, Retired;
    ScheduleCloseIdle(p, s, reason);
    if s in p.table && p.table[s].state != Closing && p.table[s].activeContexts == 0 {
      ScheduleCloseShape(p, s, reason);
    }
  }

  lemma EveryWatcherCounts(p: Pool, t: nat)
    requires Inv(p) && p.closed && t in p.watchers && t in p.launches && p.launches[t].outcome != Running
    ensures DrainMeasure(WatcherFinished(p, t)) < DrainMeasure(p)
  {
    hide Inv, WatcherFinished, Evolves;
    var q := WatcherFinished(p, t);
    WatcherFinishedInv(p, t);
    ClosedShrinks(p, q);
    WatcherGoes(p, t);
    CardSubset(Live(q.reservations), Live(p.reservations));
    CardSubset(q.watchers, p.watchers - {t});
  }

  lemma WatcherGoes(p: Pool, t: nat)
    requires t in p.watchers && t in p.launches && p.launches[t].outcome != Running
    ensures t !in WatcherFinished(p, t).watchers
  {
    hide ScheduleClose;
    CloseKeepsRest(p.(watchers := p.watchers - {t}), t, if p.closed then Shutdown else Error);
  }

  /** From every closed state, releasing the leases and letting the abandoned factories fail leads to
      a state in which `close` has nothing left to wait for. */
  lemma {:induction false} CloseCanFinish(p: Pool) returns (events: seq<Event>)
    requires Inv(p) && p.closed
    ensures var q := Run(p, events);
            q.slots == [] && q.createTasks == {} && q.watchers == {} && Live(q.reservations) == {}
    decreases DrainMeasure(p)
  {
    hide Inv, Step, Evolves;
    if r :| r in Live(p.reservations) {
      var e := SlotReleased(r, false, Other, 0);
      StepInv(p, e);
      ReleaseStep(p, r, false, Other, 0);
      EveryReleaseCounts(p, r, false, Other, 0);
      ClosedStays(p, Step(p, e));
      var rest := CloseCanFinish(Step(p, e));
      events := [e] + rest;
    } else if t :| t in p.watchers {
      var e, f := BrowserFailed(t), WatcherFinishes(t);
      var q := Step(p, e);
      StepInv(p, e);
      StepInv(q, f);
      WatchedStep(p, t);
      EveryWatcherCounts(q, t);
      ClosedStays(p, q);
      ClosedStays(q, Step(q, f));
      ClosedShrinks(p, q);
      var rest := CloseCanFinish(Step(q, f));
      assert [e] + ([f] + rest) == [e, f] + rest;
      events := [e] + ([f] + rest);
      assert events[1..] == [f] + rest && events[1..][1..] == rest;
    } else {
      events := [];
      ClosedInvDrains(p);
    }
  }

  lemma ReleaseStep(p: Pool, r: nat, discard: bool, reason: Reason, now: int)
    ensures Step(p, SlotReleased(r, discard, reason, now)) == ReleaseSlot(p, r, discard, reason, now)
  {
  }

  lemma ClosedStays(p: Pool, q: Pool)
    requires Evolves(p, q) && p.closed
    ensures q.closed
  {
  }

  lemma WatchedStep(p: Pool, t: nat)
    requires Inv(p) && t in p.watchers
    ensures var q := Step(p, BrowserFailed(t));
            && t in q.watchers && t in q.launches && q.launches[t].outcome != Running && q.closed == p.closed
            && Step(q, WatcherFinishes(t)) == WatcherFinished(q, t)
  {
    hide Inv, Held, OpenOwned, ClosingOwned, Leases, StartupsSound, WatcherFinished, LaunchFails, LaunchesKnown,
      SlotsKnown, Attended, Draining, Step;
    InvParts(p);
    assert t in p.launches;
    BrowserSteps(p, t);
    BrowserSteps(Step(p, BrowserFailed(t)), t);
    FailedShape(p, t);
    if p.launches[t].outcome == Running {
    } else {
    }
  }

  lemma BrowserSteps(p: Pool, t: nat)
    ensures Step(p, BrowserFailed(t)) == LaunchFails(p, t)
    ensures Step(p, WatcherFinishes(t)) == WatcherFinished(p, t)
  {
    hide LaunchFails, WatcherFinished;
  }

  lemma FailedShape(p: Pool, t: nat)
    requires t in p.launches
    ensures p.launches[t].outcome == Running ==>
              LaunchFails(p, t) == p.(launches := p.launches[t := p.launches[t].(outcome := Failed)])
    ensures p.launches[t].outcome != Running ==> LaunchFails(p, t) == p
  {
  }

  lemma ClosedInvDrains(p: Pool)
    requires Inv(p) && p.closed && Live(p.reservations) == {} && p.watchers == {}
    ensures p.slots == [] && p.createTasks == {}
  {
    hide Inv, ActiveSum, Held, OpenOwned, ClosingOwned, Leases, StartupsSound;
    InvParts(p);
    ActiveSumIsLive(p);
    BusySum(p.table, p.slots);
  }
}
