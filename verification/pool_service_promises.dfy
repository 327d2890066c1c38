/** What starting, replenishing, closing and shutting down do to the pool, written out: exactly when, and
    exactly what. */
module PoolServicePromises {
  import opened Basics
  import opened PoolState
  import opened PoolInvariant
  import opened PoolSettling
  import opened PoolFrames
  import opened PoolLaunching
  import opened PoolStartup
  import opened PoolHandoff
  import opened PoolLeases
  import opened PoolRuns
  import opened PoolClosing
  import opened PoolWakeups
  import opened PoolSlotPromises

  /** The physical ceiling: twice the browsers wanted, one at least. */
  function CeilingOf(cfg: Config): nat {
    if cfg.maxBrowsers == 0 then 1 else 2 * cfg.maxBrowsers
  }

  /** Everything that is or may become a browser process. */
  function Processes(p: Pool): nat {
    |p.slots| + |p.createTasks| + |p.watchers| + |p.closeTasks| + |p.failedCloses|
  }

  lemma ProcessesAre(p: Pool)
    ensures Physical(p) == Processes(p) && p.cfg.Ceiling() == CeilingOf(p.cfg)
  {
    assert |p.closeTasks.Keys| == |p.closeTasks|;
  }

  // ----- replenishment -----

  /** The browsers that are ready and neither worn nor old. */
  function Fit(p: Pool, now: int): set<nat> {
    set s | s in p.slots && s in p.table && p.table[s].state == Ready
            && p.table[s].uses < p.cfg.maxUses && now - p.table[s].createdAt < p.cfg.maxAge
  }

  lemma MissingIs(p: Pool, now: int)
    ensures Missing(p, now) == p.cfg.minBrowsers - |Fit(p, now)| - |p.createTasks|
  {
    assert HealthyIds(p, now) == Fit(p, now);
  }

  /** Background replenishment aims at `min_browsers` fit browsers, launches in flight included. No launch of
      it goes past that, or past `max_browsers` processes; and it stops short of both only if the pool is not
      serving, somebody waits, or the abandoned launches have reached their bound. */
  lemma ReplenishmentHitsItsTarget(p: Pool, e: Event)
    requires Reachable(p) && Replenishes(p, e)
    ensures var q, now := Step(p, e), ReplenishedAt(e);
            && ((exists t :: t in q.launches && t !in p.launches) ==>
                  && |Fit(q, now)| + |q.createTasks| <= q.cfg.minBrowsers && Processes(q) <= q.cfg.maxBrowsers
                  && q.started && !q.starting && !q.closed && q.waiting <= 0)
            && (q.started && !q.starting && !q.closed && q.waiting <= 0 && |q.watchers| < CeilingOf(q.cfg) ==>
                  |Fit(q, now)| + |q.createTasks| >= q.cfg.minBrowsers || Processes(q) >= q.cfg.maxBrowsers)
  {
    hide Reachable, Inv, Step, Missing, Physical, Fit, Processes;
    var q, now := Step(p, e), ReplenishedAt(e);
    ReplenishWithinLimits(p, e);
    NeverPastTarget(p, e);
    MissingIs(q, now);
    ProcessesAre(q);
  }

  lemma NeverPastTarget(p: Pool, e: Event)
    requires Reachable(p) && Replenishes(p, e)
    ensures var q := Step(p, e);
            (exists t :: t in q.launches && t !in p.launches) ==> Missing(q, ReplenishedAt(e)) >= 0
  {
    hide Inv, Reachable, Settles, Held, Physical, Missing, MayReplenish, Replenish, RefreshRecycling, FinishClose;
    ReachableInv(p);
    match e
    case Maintains(now) =>
      RefreshRecyclingInv(p, now);
      InvParts(p);
      RefreshRecyclingHeld(p, now);
      SettledNotPast(p, RefreshRecycling(p, now), now);
    case CloseEnds(s, succeeded, saysClosed, now) => FinishNotPast(p, s, succeeded, saysClosed, now);
    case CloseReconciled(s, attempt, saysClosed, now) => FinishNotPast(p, s, false, saysClosed, now);
  }

  /** What `q`, replenished from a pool with the launches of `p`, owes. */
  ghost predicate NotPast(p: Pool, q: Pool, now: int) {
    (exists t :: t in q.launches && t !in p.launches) ==> Missing(q, now) >= 0
  }

  lemma FinishNotPast(p: Pool, s: nat, succeeded: bool, saysClosed: bool, now: int)
    requires Inv(p) && s in p.closeTasks
    ensures NotPast(p, FinishClose(p, s, succeeded, saysClosed, now), now)
  {
    hide Inv, Held, Settles, Evolves, PoolState.CloseAccepted, CloseRefused, Replenish, NotPast;
    ClosingIsKnown(p, s);
    InvParts(p);
    var q := if succeeded || s in p.physicallyClosed || saysClosed then PoolState.CloseAccepted(p, s)
        else CloseRefused(p, s, now);
    CloseAcceptedHeld(p, s);
    CloseRefusedHeld(p, s, now);
    SettlesInv(p, q);
    SettledNotPast(p, q, now);
  }

  lemma SettledNotPast(p: Pool, q: Pool, now: int)
    requires Inv(q) && Settles(p, q)
    ensures NotPast(p, Replenish(q, now), now)
  {
    hide Inv, Physical, Missing, MayReplenish, LaunchMany, LaunchesKnown, TasksKnown;
    InvParts(q);
    assert q.launches == p.launches;
    var count := Min(Missing(q, now), q.cfg.maxBrowsers - Physical(q));
    if MayReplenish(q) && |q.watchers| < q.cfg.Ceiling() {
      if count > 0 {
        LaunchManyCounts(q, count, now);
      } else {
        LaunchNone(q, count);
      }
    }
  }

  // ----- starting -----

  /** A startup begins exactly if the pool is neither started nor closed and the launches still fit under the
      physical ceiling. It launches `min_browsers` browsers, all its own; with none to launch it is over at
      once. */
  lemma StartIsExact(p: Pool)
    requires Reachable(p)
    ensures var q := Step(p, StartBegins);
            if !p.started && !p.closed && Processes(p) + p.cfg.minBrowsers <= CeilingOf(p.cfg) then
              if p.cfg.minBrowsers == 0 then q == p.(started := true, starting := false)
              else
                var n := p.cfg.minBrowsers;
                && q == p.(started := true, starting := true, startups := q.startups, launches := q.launches,
                           createTasks := q.createTasks, nextStartup := p.nextStartup + 1,
                           nextLaunch := p.nextLaunch + n)
                && q.startups.Keys == p.startups.Keys + {p.nextStartup}
                && q.startups[p.nextStartup].phase == Waiting && !q.startups[p.nextStartup].cancelled
                && |q.startups[p.nextStartup].tasks| == n
                && (forall i :: 0 <= i < n ==> q.startups[p.nextStartup].tasks[i] == p.nextLaunch + i)
                && (forall t :: t in q.createTasks <==> t in p.createTasks || p.nextLaunch <= t < p.nextLaunch + n)
                && (forall t :: p.nextLaunch <= t < p.nextLaunch + n ==>
                      t in q.launches && q.launches[t] == Launch(Some(p.nextStartup), Running))
            else q == p
  {
    hide Reachable, Physical, LaunchMany, Processes;
    ProcessesAre(p);
    if StartOnceResult(p) == Started && p.cfg.minBrowsers != 0 {
      var q := p.(started := true, starting := true, nextStartup := p.nextStartup + 1,
                  startups := p.startups[p.nextStartup :=
                                           Startup(Fresh(p.nextLaunch, p.cfg.minBrowsers), Waiting, false)]);
      LaunchManyFacts(q, p.cfg.minBrowsers, Some(p.nextStartup));
    }
  }

  // ----- launches -----

  /** A factory that returns hands the pool a new ready browser, not used yet; a launch ends only once. */
  lemma LaunchEndsOnce(p: Pool, t: nat, now: int)
    ensures var q := Step(p, BrowserLaunched(t, now));
            if t in p.launches && p.launches[t].outcome == Running then
              q == p.(launches := p.launches[t := Launch(p.launches[t].startup, Returned)],
                      table := p.table[t := Slot(now, true, 0, 0, Ready, None, false, 0, 0, 0)])
            else q == p
    ensures var q := Step(p, BrowserFailed(t));
            if t in p.launches && p.launches[t].outcome == Running then
              q == p.(launches := p.launches[t := Launch(p.launches[t].startup, Failed)])
            else q == p
  {
  }

  /** A launch in flight that has its own supervisor. */
  predicate Supervised(p: Pool, t: nat) {
    t in p.launches && p.launches[t].startup == None && t in p.createTasks
  }

  /** The supervisor of a launch in flight abandons a late one. */
  lemma LateLaunchIsAbandoned(p: Pool, t: nat)
    requires Reachable(p)
    ensures var q := Step(p, SupervisorTimesOut(t));
            && (Supervised(p, t) ==> q == p.(createTasks := p.createTasks - {t}, watchers := p.watchers + {t}))
            && (!Supervised(p, t) ==> q == p)
  {
    hide Reachable, Inv, Step, SuperviseTimedOut;
    ReachableInv(p);
    FlightFacts(p, t);
    LaunchSteps(p, t);
    TimedOutPlain(p, t);
  }

  lemma TimedOutPlain(p: Pool, t: nat)
    requires t in p.createTasks ==> t !in p.watchers
    ensures Supervised(p, t) ==>
              SuperviseTimedOut(p, t) == p.(createTasks := p.createTasks - {t}, watchers := p.watchers + {t})
    ensures !Supervised(p, t) ==> SuperviseTimedOut(p, t) == p
  {
    if t in p.createTasks {
      assert (set x | x in {t} && x in p.createTasks && x !in p.watchers) == {t};
    } else {
      assert (set x | x in {t} && x in p.createTasks && x !in p.watchers) == {};
      assert p.createTasks - {} == p.createTasks && p.watchers + {} == p.watchers;
    }
  }

  /** Once the launch has ended, its supervisor lists the browser it returned, or reports the failure to the
      callers that were waiting. */
  lemma EndedLaunchIsSettled(p: Pool, t: nat)
    requires Reachable(p)
    ensures var q := Step(p, SupervisorSettles(t));
            if Supervised(p, t) && p.launches[t].outcome == Returned then
              q == p.(createTasks := p.createTasks - {t}, slots := p.slots + [t])
            else if Supervised(p, t) && p.launches[t].outcome == Failed then
              q == p.(createTasks := p.createTasks - {t}, failureGeneration := p.failureGeneration + 1,
                      lastFailure := true)
            else q == p
  {
    hide Reachable, Inv, Step, SuperviseSettled;
    ReachableInv(p);
    FlightFacts(p, t);
    LaunchSteps(p, t);
    SettledPlain(p, t);
  }

  lemma LaunchSteps(p: Pool, t: nat)
    ensures Step(p, SupervisorSettles(t)) == SuperviseSettled(p, t)
    ensures Step(p, SupervisorTimesOut(t)) == SuperviseTimedOut(p, t)
  {
    hide SuperviseSettled, SuperviseTimedOut;
  }

  lemma SettledPlain(p: Pool, t: nat)
    ensures Supervised(p, t) && !p.closed && p.launches[t].outcome == Returned ==>
              SuperviseSettled(p, t) == p.(createTasks := p.createTasks - {t}, slots := p.slots + [t])
    ensures Supervised(p, t) && p.launches[t].outcome == Failed ==>
              SuperviseSettled(p, t) == p.(createTasks := p.createTasks - {t},
                                           failureGeneration := p.failureGeneration + 1, lastFailure := true)
    ensures !Supervised(p, t) || p.launches[t].outcome == Running ==> SuperviseSettled(p, t) == p
  {
    hide ScheduleClose;
  }

  lemma FlightFacts(p: Pool, t: nat)
    requires Inv(p)
    ensures t in p.createTasks ==> !p.closed && t !in p.watchers && t !in p.slots && t !in p.closeTasks
  {
    InvParts(p);
    hide Inv, Leases, StartupsSound, Attended;
    assert t in p.createTasks ==> !IsClosing(p, t);
  }

  /** An abandoned launch that ends leaves its watcher; a browser it returned after all is closed. */
  lemma WatcherIsExact(p: Pool, t: nat)
    requires Reachable(p)
    ensures var q := Step(p, WatcherFinishes(t));
            if t in p.watchers && t in p.launches && p.launches[t].outcome != Running then
              && q.watchers == p.watchers - {t}
              && (p.launches[t].outcome == Failed ==> q == p.(watchers := p.watchers - {t}))
              && (p.launches[t].outcome == Returned ==>
                    && t in p.table && t in q.table && t !in q.slots
                    && (p.table[t].state != Closing ==> t in q.closeTasks)
                    && PutAway(p.table[t], q.table[t], if p.closed then Shutdown else Error)
                    && q.table[t].state == Closing)
            else q == p
  {
    hide Reachable, Inv, Step, WatcherFinished, ScheduleClose, PutAway, SameLife, RetiredFor;
    ReachableInv(p);
    WatcherEvent(p, t);
    WatcherPlain(p, t);
    if t in p.watchers && t in p.launches && p.launches[t].outcome == Returned {
      WatchedBrowser(p, t);
      LateBrowserCloses(p, t, if p.closed then Shutdown else Error);
    }
  }

  lemma LateBrowserCloses(p: Pool, t: nat, reason: Reason)
    requires t in p.table && t !in p.slots && (p.table[t].state != Closing ==> p.table[t].activeContexts == 0)
    ensures var q := ScheduleClose(p.(watchers := p.watchers - {t}), t, reason);
            && t in q.table && t !in q.slots && q.watchers == p.watchers - {t}
            && (p.table[t].state != Closing ==> t in q.closeTasks)
            && PutAway(p.table[t], q.table[t], reason) && q.table[t].state == Closing
  {
    hide ScheduleClose, PutAway, SameLife, RetiredFor;
    var m := p.(watchers := p.watchers - {t});
    ClosedFor(m, t, reason);
    IdlePutAway(m, t, reason);
  }

  lemma WatcherEvent(p: Pool, t: nat)
    ensures Step(p, WatcherFinishes(t)) == WatcherFinished(p, t)
  {
    hide WatcherFinished;
  }

  lemma WatcherPlain(p: Pool, t: nat)
    ensures t in p.watchers && t in p.launches && p.launches[t].outcome == Returned ==>
              WatcherFinished(p, t)
              == ScheduleClose(p.(watchers := p.watchers - {t}), t, if p.closed then Shutdown else Error)
    ensures t in p.watchers && t in p.launches && p.launches[t].outcome == Failed ==>
              WatcherFinished(p, t) == p.(watchers := p.watchers - {t})
    ensures t !in p.watchers || t !in p.launches || p.launches[t].outcome == Running ==> WatcherFinished(p, t) == p
  {
    hide ScheduleClose;
  }

  lemma WatchedBrowser(p: Pool, t: nat)
    requires Inv(p) && t in p.watchers && t in p.launches && p.launches[t].outcome == Returned
    ensures t in p.table && t !in p.slots && (p.table[t].state != Closing ==> p.table[t].activeContexts == 0)
  {
    InvParts(p);
    hide Inv, Leases, StartupsSound, Attended;
  }

  /** A browser that is not in use is closed for `reason`. */
  lemma ClosedFor(p: Pool, s: nat, reason: Reason)
    requires s in p.table && (p.table[s].state == Closing || p.table[s].activeContexts == 0)
    ensures var q := ScheduleClose(p, s, reason);
            && s in q.table && q.table[s].state == Closing && q.watchers == p.watchers
            && (s !in p.slots ==> s !in q.slots)
            && (p.table[s].state == Closing ==> q == p)
            && (p.table[s].state != Closing ==>
                  && s in q.closeTasks && SameLife(p.table[s], q.table[s]) && RetiredFor(p.table[s], q.table[s], reason)
                  && q.table[s].uses == p.table[s].uses && q.table[s].activeContexts == 0)
            && (forall x :: x != s ==> (x in q.table <==> x in p.table) && (x in q.closeTasks <==> x in p.closeTasks))
            && (forall x :: x != s && x in p.table ==> q.table[x] == p.table[x])
  {
    hide ScheduleClose, Without;
    ScheduleCloseIdle(p, s, reason);
    if p.table[s].state != Closing {
      ScheduleCloseShape(p, s, reason);
      WithoutKeeps(p.slots, s);
    }
  }

  lemma WithoutKeeps(xs: seq<nat>, x: nat)
    ensures forall y :: y in Without(xs, x) ==> y in xs
  {
  }

  // ----- the end of a startup -----

  /** A browser that was listed or held and is now retired for `reason`: closed if it is idle, and off the list
      of the ready ones in any case. */
  predicate PutAway(a: Slot, b: Slot, reason: Reason) {
    && SameLife(a, b) && b.activeContexts == a.activeContexts && b.uses == a.uses
    && (a.state == Closing ==> b == a)
    && (a.state != Closing ==>
          RetiredFor(a, b, reason) && b.state == if a.activeContexts == 0 then Closing else Retiring)
  }

  lemma {:induction false} CloseAllMeans(p: Pool, todo: seq<nat>, reason: Reason, s: nat)
    requires Distinct(todo) && s in p.table
    requires forall t :: t in todo ==> t in p.table && (p.table[t].state == Closing || p.table[t].activeContexts == 0)
    ensures var q := CloseAll(p, todo, reason);
            && s in q.table
            && (s !in todo ==> q.table[s] == p.table[s] && (s in q.closeTasks <==> s in p.closeTasks))
            && (s in todo ==>
                  PutAway(p.table[s], q.table[s], reason) && (p.table[s].state != Closing ==> s in q.closeTasks))
    decreases |todo|
  {
    hide ScheduleClose, PutAway;
    if todo != [] {
      var q, rest := ScheduleClose(p, todo[0], reason), todo[1..];
      assert todo == [todo[0]] + rest && todo[0] !in rest;
      ClosedFor(p, todo[0], reason);
      IdlePutAway(p, todo[0], reason);
      CloseAllMeans(q, rest, reason, s);
    }
  }

  lemma IdlePutAway(p: Pool, s: nat, reason: Reason)
    requires s in p.table && (p.table[s].state == Closing || p.table[s].activeContexts == 0)
    ensures s in ScheduleClose(p, s, reason).table && PutAway(p.table[s], ScheduleClose(p, s, reason).table[s], reason)
  {
    hide ScheduleClose;
    ClosedFor(p, s, reason);
  }

  lemma RetireOneMeans(p: Pool, s: nat, reason: Reason)
    requires s in p.table
    ensures var q := RetireOne(p, s, reason);
            && s in q.table && PutAway(p.table[s], q.table[s], reason)
            && (q.table[s].state == Closing && p.table[s].state != Closing ==> s in q.closeTasks)
            && (forall x :: x != s ==> (x in q.table <==> x in p.table) && (x in q.closeTasks <==> x in p.closeTasks))
            && (forall x :: x != s && x in p.table ==> q.table[x] == p.table[x])
            && q.failedCloses == p.failedCloses
  {
    hide ScheduleClose;
    var m := MarkRetiring(p, s, reason);
    if p.table[s].activeContexts == 0 {
      ClosedFor(m, s, reason);
      FailedApart(m, s, reason);
      MarkedThenClosed(p, s, reason);
    }
  }

  lemma MarkedThenClosed(p: Pool, s: nat, reason: Reason)
    requires s in p.table && p.table[s].activeContexts == 0
    ensures var q := ScheduleClose(MarkRetiring(p, s, reason), s, reason);
            s in q.table && PutAway(p.table[s], q.table[s], reason)
  {
    hide ScheduleClose;
    ClosedFor(MarkRetiring(p, s, reason), s, reason);
  }

  lemma {:induction false} RetireAllMeans(p: Pool, todo: seq<nat>, reason: Reason, s: nat)
    requires Distinct(todo) && s in p.table && forall t :: t in todo ==> t in p.table
    ensures var q := RetireAll(p, todo, reason);
            && s in q.table && q.failedCloses == p.failedCloses
            && (s !in todo ==> q.table[s] == p.table[s] && (s in q.closeTasks <==> s in p.closeTasks))
            && (s in todo ==>
                  && PutAway(p.table[s], q.table[s], reason)
                  && (q.table[s].state == Closing && p.table[s].state != Closing ==> s in q.closeTasks))
    decreases |todo|
  {
    hide RetireOne, PutAway;
    if todo != [] {
      var q, rest := RetireOne(p, todo[0], reason), todo[1..];
      assert todo == [todo[0]] + rest && todo[0] !in rest;
      RetireOneMeans(p, todo[0], reason);
      RetireAllMeans(q, rest, reason, s);
    } else {
      assert RetireAll(p, todo, reason) == p;
    }
  }

  /** A startup whose wait is interrupted abandons every launch of its that is in flight; the pool may start
      again unless it is closed. Deserted, it leaves all that as it is. */
  lemma InterruptedStartup(p: Pool, st: nat)
    requires Reachable(p) && st in p.startups && p.startups[st].phase == Waiting
    ensures var q, tasks := Step(p, StartAborted(st)), p.startups[st].tasks;
            && (forall t :: t in q.createTasks <==> t in p.createTasks && t !in tasks)
            && (forall t :: t in q.watchers <==> t in p.watchers || (t in p.createTasks && t in tasks))
            && q == p.(createTasks := q.createTasks, watchers := q.watchers, started := p.started && p.closed,
                       starting := false, startups := p.startups[st := p.startups[st].(phase := Finished)])
    ensures Step(p, StartDeserted(st)) == p.(startups := p.startups[st := p.startups[st].(phase := Deserted)])
  {
    hide Reachable, Inv, Step, StartupAborted, StartupDeserted;
    ReachableInv(p);
    StartupEvents(p, st, {}, []);
    forall t ensures t in p.createTasks ==> t !in p.watchers {
      FlightFacts(p, t);
    }
    AbortedPlain(p, st);
  }

  lemma StartupEvents(p: Pool, st: nat, done: set<nat>, order: seq<nat>)
    ensures Step(p, StartAborted(st)) == StartupAborted(p, st)
    ensures Step(p, StartDeserted(st)) == StartupDeserted(p, st)
    ensures Step(p, StartFails(st, done)) == StartupFailed(p, st, done)
    ensures Step(p, StartCompletes(st, order)) == StartupCompleted(p, st, order)
  {
    hide StartupAborted, StartupDeserted, StartupFailed, StartupCompleted;
  }

  lemma HandoffEvents(p: Pool, st: nat)
    ensures Step(p, Registers(st)) == RegisterStarted(p, st)
    ensures Step(p, StartReturns(st)) == StartupReturned(p, st)
    ensures Step(p, StartIsCancelled(st)) == StartupCancelled(p, st)
    ensures Step(p, StartRecovers(st)) == RecoverStart(p, st)
  {
    hide RegisterStarted, StartupReturned, StartupCancelled, RecoverStart;
  }

  lemma AbortedPlain(p: Pool, st: nat)
    requires st in p.startups && p.startups[st].phase == Waiting && forall t :: t in p.createTasks ==> t !in p.watchers
    ensures var q, tasks := StartupAborted(p, st), p.startups[st].tasks;
            && (forall t :: t in q.createTasks <==> t in p.createTasks && t !in tasks)
            && (forall t :: t in q.watchers <==> t in p.watchers || (t in p.createTasks && t in tasks))
            && q == p.(createTasks := q.createTasks, watchers := q.watchers, started := p.started && p.closed,
                       starting := false, startups := p.startups[st := p.startups[st].(phase := Finished)])
    ensures StartupDeserted(p, st) == p.(startups := p.startups[st := p.startups[st].(phase := Deserted)])
  {
    assert forall t :: t in p.startups[st].tasks <==> t in Elements(p.startups[st].tasks);
  }

  /** A startup whose wait ended with something pending or failed: what finished leaves the launches in flight,
      what is pending is abandoned, and every browser that came back in time is closed. The pool may start
      again unless it is closed. */
  lemma FailedStartup(p: Pool, st: nat, done: set<nat>, t: nat)
    requires Reachable(p) && st in p.startups && p.startups[st].phase == Waiting && t in p.startups[st].tasks
    requires exists x :: x in p.startups[st].tasks
                         && !(x in done && x in p.launches && p.launches[x].outcome == Returned)
    ensures var q := Step(p, StartFails(st, done));
            && t in p.launches && t !in q.createTasks
            && q.started == (p.started && p.closed) && !q.starting
            && st in q.startups && q.startups[st].phase == Finished
            && (t in done && p.launches[t].outcome != Running ==> (t in q.watchers <==> t in p.watchers))
            && (t !in done || p.launches[t].outcome == Running ==>
                  (t in q.watchers <==> t in p.watchers + p.createTasks))
            && (t in done && p.launches[t].outcome == Returned ==>
                  && t in p.table && t in q.table && q.table[t].state == Closing
                  && PutAway(p.table[t], q.table[t], Error) && (p.table[t].state != Closing ==> t in q.closeTasks))
            && (!(t in done && p.launches[t].outcome == Returned) && t in p.table ==>
                  t in q.table && q.table[t] == p.table[t])
  {
    hide Reachable, Inv, Step, StartupFailed, CloseAll, ReturnedOf, PutAway, Dismissed;
    ReachableInv(p);
    StartupEvents(p, st, done, []);
    StartupTask(p, st, t);
    FailedMeans(p, st, done);
    StartupFailedShape(p, st, done);
    var tasks := p.startups[st].tasks;
    var todo := ReturnedOf(p, tasks, FinishedOf(p, tasks, done));
    var m := Dismissed(p, st, done);
    DismissedMeans(p, st, done);
    ReturnedMeans(p, tasks, FinishedOf(p, tasks, done));
    forall x | x in todo ensures x in m.table && (m.table[x].state == Closing || m.table[x].activeContexts == 0) {
      StartupTask(p, st, x);
    }
    CloseAllKeeps(m, todo, Error);
    if t in p.table {
      CloseAllMeans(m, todo, Error, t);
      TodoClosed(m, todo, t);
    }
  }

  lemma TodoClosed(m: Pool, todo: seq<nat>, t: nat)
    requires t in m.table && (t in todo ==> m.table[t].state == Closing || m.table[t].activeContexts == 0)
    ensures var q := CloseAll(m, todo, Error);
            t in todo && t in q.table && PutAway(m.table[t], q.table[t], Error) ==> q.table[t].state == Closing
  {
    hide CloseAll;
  }

  lemma StartupTask(p: Pool, st: nat, t: nat)
    requires Inv(p) && st in p.startups && p.startups[st].phase == Waiting && t in p.startups[st].tasks
    ensures t in p.launches && (t in p.createTasks || p.closed) && Distinct(p.startups[st].tasks)
    ensures t in p.table <==> p.launches[t].outcome == Returned
    ensures t in p.table ==> p.table[t].state == Closing || p.table[t].activeContexts == 0
    ensures t in p.createTasks ==> t !in p.watchers
  {
    InvParts(p);
    hide Inv, Leases, Attended, Draining;
    assert StartupSound(p, st);
  }

  lemma FailedMeans(p: Pool, st: nat, done: set<nat>)
    requires Inv(p) && st in p.startups && p.startups[st].phase == Waiting
    requires exists x :: x in p.startups[st].tasks
                         && !(x in done && x in p.launches && p.launches[x].outcome == Returned)
    ensures FailedWait(p, st, done)
  {
    hide Inv;
    var tasks := p.startups[st].tasks;
    var x :| x in tasks && !(x in done && x in p.launches && p.launches[x].outcome == Returned);
    StartupTask(p, st, x);
    if FinishedOf(p, tasks, done) == Elements(tasks) {
      assert x in Elements(tasks);
      assert x in FinishedOf(p, tasks, done);
    }
  }

  lemma DismissedMeans(p: Pool, st: nat, done: set<nat>)
    requires st in p.startups && p.startups[st].phase == Waiting
    ensures var m, tasks := Dismissed(p, st, done), p.startups[st].tasks;
            var finished := FinishedOf(p, tasks, done);
            && m.table == p.table && m.launches == p.launches
            && (forall t :: t in m.createTasks ==> t in p.createTasks && (t !in tasks || t in p.watchers))
            && (forall t :: t in m.watchers <==>
                  t in p.watchers || (t in tasks && t !in finished && t in p.createTasks))
            && st in m.startups && m.startups[st].phase == Finished
  {
    assert forall t :: t in p.startups[st].tasks <==> t in Elements(p.startups[st].tasks);
  }

  lemma {:induction false} ReturnedMeans(p: Pool, tasks: seq<nat>, done: set<nat>)
    requires Distinct(tasks)
    ensures var todo := ReturnedOf(p, tasks, done);
            Distinct(todo) && forall t :: t in todo <==> t in tasks && t in done && t in p.table
    decreases |tasks|
  {
    if tasks != [] {
      assert tasks == [tasks[0]] + tasks[1..];
      ReturnedMeans(p, tasks[1..], done);
      assert tasks[0] !in tasks[1..];
    }
  }

  lemma {:induction false} CloseAllKeeps(p: Pool, todo: seq<nat>, reason: Reason)
    ensures var q := CloseAll(p, todo, reason);
            q == p.(table := q.table, slots := q.slots, closeTasks := q.closeTasks, raised := q.raised)
    decreases |todo|
  {
    hide ScheduleClose;
    if todo != [] {
      CloseKeepsOthers(p, todo[0], reason);
      CloseAllKeeps(ScheduleClose(p, todo[0], reason), todo[1..], reason);
    }
  }

  lemma CloseKeepsOthers(p: Pool, s: nat, reason: Reason)
    ensures var q := ScheduleClose(p, s, reason);
            q == p.(table := q.table, slots := q.slots, closeTasks := q.closeTasks, raised := q.raised)
  {
    hide Without, Retired;
    if s in p.table && p.table[s].state != Closing {
      if p.table[s].activeContexts != 0 {
        assert ScheduleClose(p, s, reason) == p.(raised := true);
      } else {
        ScheduleCloseShape(p, s, reason);
        hide ScheduleClose;
      }
    }
  }

  /** Once every launch of the startup has returned it owes a registration, in the order the browsers came. */
  lemma CompletedStartup(p: Pool, st: nat, order: seq<nat>)
    requires Reachable(p)
    ensures var q := Step(p, StartCompletes(st, order));
            if && st in p.startups && p.startups[st].phase == Waiting && Distinct(order)
               && (forall t :: t in order <==> t in p.startups[st].tasks)
               && (forall t :: t in order ==> t in p.launches && p.launches[t].outcome == Returned)
            then q == p.(startups := p.startups[st := Startup(order, Registering, p.startups[st].cancelled)])
            else q == p
  {
    hide Reachable, Inv, Step, StartupCompleted, Distinct;
    ReachableInv(p);
    StartupEvents(p, st, {}, order);
    if st in p.startups && p.startups[st].phase == Waiting {
      forall t | t in p.startups[st].tasks
        ensures t in p.launches && (t in p.table <==> p.launches[t].outcome == Returned)
      {
        StartupTask(p, st, t);
      }
      CompletedPlain(p, st, order);
    } else {
      NotCompleted(p, st, order);
    }
  }

  lemma NotCompleted(p: Pool, st: nat, order: seq<nat>)
    requires !(st in p.startups && p.startups[st].phase == Waiting)
    ensures StartupCompleted(p, st, order) == p
  {
  }

  lemma CompletedPlain(p: Pool, st: nat, order: seq<nat>)
    requires st in p.startups && p.startups[st].phase == Waiting
    requires forall t :: t in p.startups[st].tasks ==>
               t in p.launches && (t in p.table <==> p.launches[t].outcome == Returned)
    ensures var all := && Distinct(order) && (forall t :: t in order <==> t in p.startups[st].tasks)
                       && (forall t :: t in order ==> t in p.launches && p.launches[t].outcome == Returned);
            && (all ==> StartupCompleted(p, st, order)
                        == p.(startups := p.startups[st := Startup(order, Registering, p.startups[st].cancelled)]))
            && (!all ==> StartupCompleted(p, st, order) == p)
  {
    var tasks := p.startups[st].tasks;
    assert forall t :: t in order <==> t in Elements(order);
    assert forall t :: t in tasks <==> t in Elements(tasks);
    assert Elements(order) == Elements(tasks) <==> forall t :: t in order <==> t in tasks;
  }

  /** The registration of a startup: an open pool lists all its browsers, unless the startup was cancelled; then,
      and in a closed pool, every one of them is closed. Either way its launches are in flight no more. */
  lemma RegistrationIsExact(p: Pool, st: nat, t: nat)
    requires Reachable(p) && st in p.startups && p.startups[st].phase == Registering && t in p.startups[st].tasks
    ensures var q, tasks := Step(p, Registers(st)), p.startups[st].tasks;
            && t in p.table && t in q.table && t !in q.createTasks && t !in p.slots
            && st in q.startups && q.startups[st] == p.startups[st].(phase := Registered)
            && (!p.closed && !p.startups[st].cancelled ==> q.slots == p.slots + tasks && q.table == p.table)
            && (p.closed || p.startups[st].cancelled ==>
                  && t !in q.slots && q.table[t].state == Closing && (p.table[t].state != Closing ==> t in q.closeTasks)
                  && PutAway(p.table[t], q.table[t], if p.closed then Shutdown else Error))
  {
    hide Reachable, Inv, Step, RegisterStarted, PutAway;
    ReachableInv(p);
    HandoffEvents(p, st);
    OwedBrowser(p, st, t);
    if p.closed || p.startups[st].cancelled {
      RegistrationCloses(p, st, t);
    } else {
      RegistrationLists(p, st);
    }
  }

  lemma RegistrationLists(p: Pool, st: nat)
    requires InPhase(p, st, Registering) && !p.closed && !p.startups[st].cancelled
    ensures var q, tasks := RegisterStarted(p, st), p.startups[st].tasks;
            && q.slots == p.slots + tasks && q.table == p.table
            && st in q.startups && q.startups[st] == p.startups[st].(phase := Registered)
            && forall t :: t in tasks ==> t !in q.createTasks
  {
    hide RegisterStarted, CloseAll, Discarded, SetPhase;
    RegisterShape(p, st);
    DiscardedMeans(p, st);
    PhaseOnly(Discarded(p, st).(slots := Discarded(p, st).slots + p.startups[st].tasks), st, Registered);
  }

  lemma RegistrationCloses(p: Pool, st: nat, t: nat)
    requires Inv(p) && InPhase(p, st, Registering) && (p.closed || p.startups[st].cancelled)
    requires t in p.startups[st].tasks && t in p.table && t !in p.slots
    requires p.table[t].state == Closing || p.table[t].activeContexts == 0
    ensures var q := RegisterStarted(p, st);
            && st in q.startups && q.startups[st] == p.startups[st].(phase := Registered)
            && t in q.table && t !in q.createTasks
            && t !in q.slots && q.table[t].state == Closing && (p.table[t].state != Closing ==> t in q.closeTasks)
            && PutAway(p.table[t], q.table[t], if p.closed then Shutdown else Error)
  {
    hide Inv, RegisterStarted, CloseAll, PutAway, Discarded, SetPhase;
    RegisterShape(p, st);
    DiscardedMeans(p, st);
    var m, tasks := Discarded(p, st), p.startups[st].tasks;
    var reason := if p.closed then Shutdown else Error;
    forall x | x in tasks
      ensures x in p.table && (p.table[x].state == Closing || p.table[x].activeContexts == 0) && Distinct(tasks)
    {
      OwedBrowser(p, st, x);
    }
    CloseAllKeeps(m, tasks, reason);
    CloseAllMeans(m, tasks, reason, t);
    CloseAllLists(m, tasks, reason);
    PhaseOnly(CloseAll(m, tasks, reason), st, Registered);
    PutAwayIdle(p.table[t], CloseAll(m, tasks, reason).table[t], reason);
  }

  lemma PutAwayIdle(a: Slot, b: Slot, reason: Reason)
    requires PutAway(a, b, reason) && (a.state == Closing || a.activeContexts == 0)
    ensures b.state == Closing
  {
  }

  lemma PhaseOnly(p: Pool, st: nat, phase: Phase)
    requires st in p.startups
    ensures SetPhase(p, st, phase) == p.(startups := p.startups[st := p.startups[st].(phase := phase)])
  {
  }

  lemma DiscardedMeans(p: Pool, st: nat)
    requires st in p.startups
    ensures var m := Discarded(p, st);
            && m == p.(createTasks := m.createTasks, startups := p.startups[st := p.startups[st].(phase := Finished)])
            && (forall t :: t in m.createTasks <==> t in p.createTasks && t !in p.startups[st].tasks)
  {
    assert forall t :: t in p.startups[st].tasks <==> t in Elements(p.startups[st].tasks);
  }

  lemma {:induction false} CloseAllLists(p: Pool, todo: seq<nat>, reason: Reason)
    ensures forall x :: x in CloseAll(p, todo, reason).slots ==> x in p.slots
    decreases |todo|
  {
    hide ScheduleClose;
    if todo != [] {
      CloseLists(p, todo[0], reason);
      CloseAllLists(ScheduleClose(p, todo[0], reason), todo[1..], reason);
    }
  }

  lemma CloseLists(p: Pool, s: nat, reason: Reason)
    ensures forall x :: x in ScheduleClose(p, s, reason).slots ==> x in p.slots
  {
    hide Without, Retired, ScheduleClose;
    WithoutKeeps(p.slots, s);
    ScheduleCloseIdle(p, s, reason);
    if s in p.table && p.table[s].state != Closing && p.table[s].activeContexts == 0 {
      ScheduleCloseShape(p, s, reason);
    }
  }

  lemma OwedBrowser(p: Pool, st: nat, t: nat)
    requires Inv(p) && st in p.startups && p.startups[st].phase == Registering && t in p.startups[st].tasks
    ensures t in p.table && t !in p.slots && (p.table[t].state == Closing || p.table[t].activeContexts == 0)
    ensures Distinct(p.startups[st].tasks)
  {
    InvParts(p);
    hide Inv, Leases, Attended, Draining;
    assert StartupSound(p, st);
  }

  /** A startup resumes after its registration if it was not cancelled; a cancellation around the registration
      leaves the rest to recovery and the pool as not started. */
  lemma ResumedStartup(p: Pool, st: nat)
    ensures var q := Step(p, StartReturns(st));
            if st in p.startups && p.startups[st].phase == Registered && !p.startups[st].cancelled then
              q == p.(startups := p.startups[st := p.startups[st].(phase := Finished)], starting := false)
            else q == p
    ensures var q := Step(p, StartIsCancelled(st));
            if st in p.startups && p.startups[st].phase in {Registering, Registered} && !p.startups[st].cancelled then
              q == p.(startups := p.startups[st := p.startups[st].(cancelled := true)], started := false,
                      starting := false)
            else q == p
  {
    hide Step, StartupReturned, StartupCancelled;
    HandoffEvents(p, st);
    ResumedPlain(p, st);
  }

  lemma ResumedPlain(p: Pool, st: nat)
    ensures var again := st in p.startups && p.startups[st].phase == Registered && !p.startups[st].cancelled;
            && (again ==> StartupReturned(p, st)
                          == p.(startups := p.startups[st := p.startups[st].(phase := Finished)], starting := false))
            && (!again ==> StartupReturned(p, st) == p)
    ensures var caught := && st in p.startups && p.startups[st].phase in {Registering, Registered}
                          && !p.startups[st].cancelled;
            && (caught ==> StartupCancelled(p, st)
                           == p.(startups := p.startups[st := p.startups[st].(cancelled := true)], started := false,
                                 starting := false))
            && (!caught ==> StartupCancelled(p, st) == p)
  {
  }

  /** Recovery of a cancelled startup retires every browser of its, whether it was listed or not, and closes the
      idle ones; its launches are in flight no more. */
  lemma RecoveryIsExact(p: Pool, st: nat, t: nat)
    requires Reachable(p) && st in p.startups && p.startups[st].phase in {Registering, Registered}
    requires p.startups[st].cancelled && t in p.startups[st].tasks
    ensures var q := Step(p, StartRecovers(st));
            && t in p.table && t in q.table && t !in q.createTasks
            && PutAway(p.table[t], q.table[t], Error)
            && (q.table[t].state == Closing && p.table[t].state != Closing ==> t in q.closeTasks)
  {
    hide Reachable, Inv, Step, RecoverStart, RetireAll, PutAway, Discarded;
    ReachableInv(p);
    HandoffEvents(p, st);
    RecoverShape(p, st);
    DiscardedMeans(p, st);
    var m, tasks := Discarded(p, st), p.startups[st].tasks;
    OwedReturned(p, st);
    RetireAllMeans(m, tasks, Error, t);
    RetireKeepsLaunches(m, tasks, Error);
  }

  lemma OwedReturned(p: Pool, st: nat)
    requires Inv(p) && st in p.startups && p.startups[st].phase in {Registering, Registered}
    ensures Distinct(p.startups[st].tasks) && forall t :: t in p.startups[st].tasks ==> t in p.table
  {
    InvParts(p);
    hide Inv, Leases, Attended, Draining;
    assert StartupSound(p, st);
  }

  // ----- the end of a close -----

  /** A failed close waits two seconds, then four, eight, sixteen, thirty-two, and a minute from then on. */
  lemma BackoffIs(n: nat)
    ensures n >= 1 ==>
              Backoff(n) == if n == 1 then 2 else if n == 2 then 4 else if n == 3 then 8 else if n == 4 then 16
                            else if n == 5 then 32 else 60
  {
    if n >= 6 {
      PowersPastSix(n);
    } else {
      assert Pow2(1) == 2 && Pow2(2) == 4 && Pow2(3) == 8 && Pow2(4) == 16 && Pow2(5) == 32;
    }
  }

  lemma PowersPastSix(n: nat)
    requires n >= 6
    ensures Pow2(n) >= 64
  {
    if n == 6 {
      assert Pow2(3) == 8 && Pow2(6) == 8 * Pow2(3);
    } else {
      PowersPastSix(n - 1);
    }
  }

  /** The close task of `s` ends, or its reconciliation does. The close is accepted, and the browser gone from
      the pool, exactly if it succeeded, the browser says it is closed, or its process was seen to end; and
      else it is kept among the failed closes, counted, and put off by the backoff. */
  lemma CloseEndIsExact(p: Pool, e: Event, s: nat, succeeded: bool, saysClosed: bool, now: int)
    requires Reachable(p)
    requires || e == CloseEnds(s, succeeded, saysClosed, now)
             || (!succeeded && exists n :: (s, n) in p.abortedCloses && e == CloseReconciled(s, n, saysClosed, now))
    requires s in p.closeTasks && ((s, p.closeTasks[s]) in p.abortedCloses <==> e.CloseReconciled?)
    requires e.CloseReconciled? ==> e.attempt == p.closeTasks[s]
    ensures s in p.table
    ensures CloseEndedAs(p, Step(p, e), s, succeeded || saysClosed || s in p.physicallyClosed, now)
  {
    hide Reachable, Inv, Step, FinishClose, CloseEndedAs;
    ReachableInv(p);
    ClosingState(p, s);
    ClosingFacts(p, s);
    CloseEvents(p, e, s, succeeded, saysClosed, now);
    FinishIsExact(p, s, succeeded, saysClosed, now);
  }

  lemma ClosingFacts(p: Pool, s: nat)
    requires Inv(p) && s in p.closeTasks
    ensures s !in p.failedCloses && s !in p.accepted
  {
    InvParts(p);
    hide Inv, Held, OpenOwned, Leases, StartupsSound, Attended, Draining;
  }

  lemma CloseEvents(p: Pool, e: Event, s: nat, succeeded: bool, saysClosed: bool, now: int)
    requires || e == CloseEnds(s, succeeded, saysClosed, now)
             || (!succeeded && e.CloseReconciled? && e == CloseReconciled(s, e.attempt, saysClosed, now))
    requires s in p.closeTasks && ((s, p.closeTasks[s]) in p.abortedCloses <==> e.CloseReconciled?)
    requires e.CloseReconciled? ==> e.attempt == p.closeTasks[s]
    ensures Step(p, e) == FinishClose(p, s, succeeded, saysClosed, now)
  {
    hide FinishClose;
  }

  /** The close of `s` ended: as `ok` says, and with nothing else changed but launches. */
  ghost predicate CloseEndedAs(p: Pool, q: Pool, s: nat, ok: bool, now: int)
    requires s in p.table
  {
    && s in q.table && s !in q.closeTasks && q.table[s].state == Closing
    && (s in q.accepted <==> ok) && (s in q.failedCloses <==> !ok)
    && (ok ==> q.table[s] == p.table[s])
    && (!ok ==>
          var n := p.table[s].closeFailures + 1;
          q.table[s] == p.table[s].(closeFailures := n, nextCloseRetryAt := now + Backoff(n)))
    && (forall x :: x in p.table && x != s ==> x in q.table && q.table[x] == p.table[x])
  }

  lemma FinishIsExact(p: Pool, s: nat, succeeded: bool, saysClosed: bool, now: int)
    requires s in p.table && s in p.closeTasks && s !in p.failedCloses && s !in p.accepted
    requires p.table[s].state == Closing
    ensures CloseEndedAs(p, FinishClose(p, s, succeeded, saysClosed, now), s,
                         succeeded || saysClosed || s in p.physicallyClosed, now)
  {
    hide Replenish, Backoff, CloseRefused, PoolState.CloseAccepted, CloseEndedAs;
    var ok := succeeded || saysClosed || s in p.physicallyClosed;
    if ok {
      AcceptedAs(p, s, now);
      LaunchesApart(p, PoolState.CloseAccepted(p, s), s, ok, now);
    } else {
      RefusedAs(p, s, now);
      LaunchesApart(p, CloseRefused(p, s, now), s, ok, now);
    }
  }

  lemma AcceptedAs(p: Pool, s: nat, now: int)
    requires s in p.table && p.table[s].state == Closing
    ensures CloseEndedAs(p, PoolState.CloseAccepted(p, s), s, true, now)
  {
    hide Backoff;
  }

  lemma RefusedAs(p: Pool, s: nat, now: int)
    requires s in p.table && p.table[s].state == Closing && s !in p.accepted
    ensures CloseEndedAs(p, CloseRefused(p, s, now), s, false, now)
  {
    hide Backoff;
  }

  lemma LaunchesApart(p: Pool, m: Pool, s: nat, ok: bool, now: int)
    requires s in p.table && CloseEndedAs(p, m, s, ok, now)
    ensures CloseEndedAs(p, Replenish(m, now), s, ok, now)
  {
    hide Replenish, Backoff;
    ReplenishOnlyLaunches(m, now);
  }

  lemma ReplenishOnlyLaunches(p: Pool, now: int)
    ensures var q := Replenish(p, now);
            q == p.(launches := q.launches, createTasks := q.createTasks, nextLaunch := q.nextLaunch)
  {
    hide LaunchMany, Missing, Physical, MayReplenish;
    var count := Min(Missing(p, now), p.cfg.maxBrowsers - Physical(p));
    if count > 0 {
      LaunchManyFacts(p, count, None);
    } else {
      LaunchNone(p, count);
    }
  }

  /** A serving pool that is refreshed or maintained is refreshed as `RefreshIsExact` says, and maintenance adds
      only launches to that; any other pool is left alone. */
  lemma MaintenanceRefreshes(p: Pool, now: int)
    ensures Step(p, Refreshes(now)) == if p.started && !p.closed then RefreshRecycling(p, now) else p
    ensures var q, m := Step(p, Maintains(now)), RefreshRecycling(p, now);
            if p.started && !p.closed then
              q == m.(launches := q.launches, createTasks := q.createTasks, nextLaunch := q.nextLaunch)
            else q == p
  {
    hide Step, RefreshRecycling, Replenish, Refresh, Maintain;
    MaintenanceEvents(p, now);
    MaintenancePlain(p, now);
    ReplenishOnlyLaunches(RefreshRecycling(p, now), now);
  }

  lemma MaintenanceEvents(p: Pool, now: int)
    ensures Step(p, Refreshes(now)) == Refresh(p, now)
    ensures Step(p, Maintains(now)) == Maintain(p, now)
  {
    hide Refresh, Maintain;
  }

  lemma MaintenancePlain(p: Pool, now: int)
    ensures p.started && !p.closed ==>
              && Refresh(p, now) == RefreshRecycling(p, now)
              && Maintain(p, now) == Replenish(RefreshRecycling(p, now), now)
    ensures !p.started || p.closed ==> Refresh(p, now) == p && Maintain(p, now) == p
  {
    hide RefreshRecycling, Replenish;
  }

  /** A close task that dies changes nothing but that its close is owed; a process that ends is noted for a
      closing browser; and a late reconciliation lets a failed close go unless a close task still runs. */
  lemma LateEndsAreExact(p: Pool, s: nat)
    ensures Step(p, CloseDies(s))
            == if s in p.closeTasks && (s, p.closeTasks[s]) !in p.abortedCloses
               then p.(abortedCloses := p.abortedCloses + {(s, p.closeTasks[s])}) else p
    ensures Step(p, ProcessExits(s))
            == if s in p.table && p.table[s].state == Closing
               then p.(physicallyClosed := p.physicallyClosed + {s}) else p
    ensures var q := Step(p, ProcessExitReconciled(s));
            var running := s in p.closeTasks && (s, p.closeTasks[s]) !in p.abortedCloses;
            if s in p.table && p.table[s].state == Closing && !running then
              q == p.(failedCloses := p.failedCloses - {s}, physicallyClosed := p.physicallyClosed - {s},
                      accepted := if s in p.failedCloses then p.accepted + {s} else p.accepted)
            else q == p
    ensures Step(p, Disconnects(s))
            == if s in p.table then p.(table := p.table[s := p.table[s].(connected := false)]) else p
  {
    hide Step, CloseAborted, PhysicalCloseFinished, LateReconcile, BrowserDies;
    LateEvents(p, s);
    LatePlain(p, s);
  }

  lemma LateEvents(p: Pool, s: nat)
    ensures Step(p, CloseDies(s)) == CloseAborted(p, s) && Step(p, ProcessExits(s)) == PhysicalCloseFinished(p, s)
    ensures Step(p, ProcessExitReconciled(s)) == LateReconcile(p, s) && Step(p, Disconnects(s)) == BrowserDies(p, s)
  {
    hide CloseAborted, PhysicalCloseFinished, LateReconcile, BrowserDies, Step;
    assert Step(p, CloseDies(s)) == CloseAborted(p, s) by { DiesEvent(p, s); }
    assert Step(p, ProcessExits(s)) == PhysicalCloseFinished(p, s) by { ExitsEvent(p, s); }
    LateEvent(p, s);
    DisconnectsEvent(p, s);
  }

  lemma DiesEvent(p: Pool, s: nat)
    ensures Step(p, CloseDies(s)) == CloseAborted(p, s)
  {
    hide CloseAborted;
  }

  lemma ExitsEvent(p: Pool, s: nat)
    ensures Step(p, ProcessExits(s)) == PhysicalCloseFinished(p, s)
  {
    hide PhysicalCloseFinished;
  }

  lemma LateEvent(p: Pool, s: nat)
    ensures Step(p, ProcessExitReconciled(s)) == LateReconcile(p, s)
  {
    hide LateReconcile;
  }

  lemma DisconnectsEvent(p: Pool, s: nat)
    ensures Step(p, Disconnects(s)) == BrowserDies(p, s)
  {
    hide BrowserDies;
  }

  lemma LatePlain(p: Pool, s: nat)
    ensures CloseAborted(p, s)
            == if s in p.closeTasks && (s, p.closeTasks[s]) !in p.abortedCloses
               then p.(abortedCloses := p.abortedCloses + {(s, p.closeTasks[s])}) else p
    ensures PhysicalCloseFinished(p, s)
            == if s in p.table && p.table[s].state == Closing
               then p.(physicallyClosed := p.physicallyClosed + {s}) else p
    ensures var q := LateReconcile(p, s);
            var running := s in p.closeTasks && (s, p.closeTasks[s]) !in p.abortedCloses;
            if s in p.table && p.table[s].state == Closing && !running then
              q == p.(failedCloses := p.failedCloses - {s}, physicallyClosed := p.physicallyClosed - {s},
                      accepted := if s in p.failedCloses then p.accepted + {s} else p.accepted)
            else q == p
    ensures BrowserDies(p, s)
            == if s in p.table then p.(table := p.table[s := p.table[s].(connected := false)]) else p
  {
  }

  // ----- shutdown -----

  /** Shutdown closes the pool, hands every launch in flight to a watcher, retires every listed browser, and
      closes the idle ones. `quiesce` leaves the failed closes alone, `close` tries every one of them again. */
  lemma ShutdownIsExact(p: Pool, s: nat)
    requires Reachable(p)
    ensures var q := Step(p, Quiesces);
            && q.closed && q.createTasks == {} && q.watchers == p.watchers + p.createTasks
            && q.failedCloses == p.failedCloses
            && (s in p.slots ==>
                  && s in p.table && s in q.table && PutAway(p.table[s], q.table[s], Shutdown)
                  && (s in q.slots <==> q.table[s].state != Closing)
                  && (s in q.closeTasks <==> q.table[s].state == Closing))
    ensures var q := Step(p, CloseBegins);
            && q.closed && q.createTasks == {} && q.watchers == p.watchers + p.createTasks
            && q.failedCloses == {} && (s in p.failedCloses ==> s in q.closeTasks)
            && (s in p.slots ==>
                  && s in p.table && s in q.table && PutAway(p.table[s], q.table[s], Shutdown)
                  && (s in q.slots <==> q.table[s].state != Closing)
                  && (s in q.closeTasks <==> q.table[s].state == Closing))
  {
    hide Reachable, Inv, Step, Quiesce, CloseBegin;
    ReachableInv(p);
    ShutdownEvents(p);
    QuiesceMeans(p, s);
    CloseBeginMeans(p, s);
  }

  lemma ShutdownEvents(p: Pool)
    ensures Step(p, Quiesces) == Quiesce(p) && Step(p, CloseBegins) == CloseBegin(p)
  {
    hide Quiesce, CloseBegin;
  }

  lemma StoppedMeans(p: Pool)
    requires Inv(p)
    ensures var m := Stopped(p);
            && m.createTasks == {} && m.watchers == p.watchers + p.createTasks
            && m == p.(closed := true, createTasks := m.createTasks, watchers := m.watchers)
  {
    hide Inv;
    forall t ensures t in p.createTasks ==> t !in p.watchers {
      FlightFacts(p, t);
    }
    assert (set t | t in p.createTasks && t in p.createTasks && t !in p.watchers) == p.createTasks;
  }

  lemma QuiesceMeans(p: Pool, s: nat)
    requires Inv(p)
    ensures var q := Quiesce(p);
            && q.closed && q.createTasks == {} && q.watchers == p.watchers + p.createTasks
            && q.failedCloses == p.failedCloses
            && (s in p.slots ==>
                  && s in p.table && s in q.table && PutAway(p.table[s], q.table[s], Shutdown)
                  && (s in q.slots <==> q.table[s].state != Closing)
                  && (s in q.closeTasks <==> q.table[s].state == Closing))
  {
    hide Inv, Held, Settles, Stopped, RetireAll, Withdrawn, Evolves, OpenOwned, ClosingOwned, Leases, StartupsSound,
      LaunchesKnown, TasksKnown, SlotsKnown, Attended, Draining, PutAway, Quiet, RetriesBounded;
    var m := Stopped(p);
    InvParts(p);
    StoppedHeld(p);
    StoppedMeans(p);
    HeldBasics(m, {});
    RetireAllHeld(m, m.slots, Shutdown, {});
    var none: set<nat> := {};
    assert none - Elements(m.slots) == none;
    QuiesceShape(p);
    var q := RetireAll(m, m.slots, Shutdown);
    RetireKeepsLaunches(m, m.slots, Shutdown);
    RetireAllCloses(m, m.slots, Shutdown);
    RetireAllFails(m, m.slots, Shutdown);
    if s in p.slots {
      SlotFacts(p, s);
      RetireAllMeans(m, m.slots, Shutdown, s);
      HeldKnown(q, {});
      RetireAllAccepts(m, m.slots, Shutdown);
      ListedOrClosing(m, q, s);
    }
  }

  lemma {:induction false} RetireAllFails(p: Pool, todo: seq<nat>, reason: Reason)
    ensures RetireAll(p, todo, reason).failedCloses == p.failedCloses
    decreases |todo|
  {
    hide RetireOne;
    if todo != [] {
      RetireOneFails(p, todo[0], reason);
      RetireAllFails(RetireOne(p, todo[0], reason), todo[1..], reason);
    }
  }

  lemma RetireOneFails(p: Pool, s: nat, reason: Reason)
    ensures RetireOne(p, s, reason).failedCloses == p.failedCloses
  {
    hide ScheduleClose, Retired;
    FailedApart(MarkRetiring(p, s, reason), s, reason);
  }

  lemma RetireAllAccepts(p: Pool, todo: seq<nat>, reason: Reason)
    ensures RetireAll(p, todo, reason).accepted == p.accepted
  {
    hide RetireAll;
    RetireAllQuiet(p, todo, reason);
  }

  lemma CloseBeginMeans(p: Pool, s: nat)
    requires Inv(p)
    ensures var q := CloseBegin(p);
            && q.closed && q.createTasks == {} && q.watchers == p.watchers + p.createTasks
            && q.failedCloses == {} && (s in p.failedCloses ==> s in q.closeTasks)
            && (s in p.slots ==>
                  && s in p.table && s in q.table && PutAway(p.table[s], q.table[s], Shutdown)
                  && (s in q.slots <==> q.table[s].state != Closing)
                  && (s in q.closeTasks <==> q.table[s].state == Closing))
  {
    hide Inv, Held, Settles, Stopped, RetireAll, RetryCloses, Withdrawn, Evolves, OpenOwned, ClosingOwned, Leases,
      StartupsSound, LaunchesKnown, TasksKnown, SlotsKnown, Attended, Draining, PutAway, Quiet, RetriesBounded;
    var m := Stopped(p);
    var r := RetryCloses(m, m.failedCloses);
    InvParts(p);
    StoppedHeld(p);
    StoppedMeans(p);
    RetryClosesHeld(m, m.failedCloses, {});
    HeldClosing(m, {});
    RetryClosesSettles(m, m.failedCloses);
    RetriedApart(m);
    HeldBasics(r, {});
    RetireAllHeld(r, r.slots, Shutdown, {});
    var none: set<nat> := {};
    assert none - Elements(r.slots) == none;
    QuiesceShape(p);
    var q := RetireAll(r, r.slots, Shutdown);
    RetireKeepsLaunches(r, r.slots, Shutdown);
    RetireAllCloses(r, r.slots, Shutdown);
    RetireAllFails(r, r.slots, Shutdown);
    if s in p.slots {
      SlotFacts(p, s);
      RetireAllMeans(r, r.slots, Shutdown, s);
      HeldKnown(q, {});
      RetireAllAccepts(r, r.slots, Shutdown);
      ListedOrClosing(r, q, s);
    }
    if s in p.failedCloses {
      FailedIsKnown(p, s);
      RetireAllMeans(r, r.slots, Shutdown, s);
    }
  }

  lemma RetriedApart(m: Pool)
    ensures var r := RetryCloses(m, m.failedCloses);
            r == m.(closeTasks := r.closeTasks, failedCloses := r.failedCloses)
  {
  }

  lemma FailedIsKnown(p: Pool, s: nat)
    requires Inv(p) && s in p.failedCloses
    ensures s in p.table && s !in p.slots
  {
    InvParts(p);
    hide Inv, Leases, StartupsSound, Attended, Draining;
    assert IsClosing(p, s);
  }

  // ----- sessions and callers -----

  /** A persistent context is promised exactly if the pool is open and the session quota, all contexts there can
      be less those reserved for transient work, is not used up; giving it back frees it once. */
  lemma PersistentQuotaIsExact(p: Pool, k: nat)
    requires Reachable(p)
    ensures var q, all := Step(p, PersistentOpens), p.cfg.maxBrowsers * p.cfg.maxContexts;
            if !p.closed && p.persistent + p.cfg.reservedTransient < all then
              q == p.(persistent := p.persistent + 1, tickets := p.tickets[p.nextTicket := Ticket(false, false)],
                      nextTicket := p.nextTicket + 1)
            else q == p
    ensures var q := Step(p, PersistentReleased(k));
            if && k in p.tickets && !p.tickets[k].released
               && (forall w :: w in p.waiters ==> p.waiters[w].kind != Persistent(k))
               && (forall r :: r in p.reservations && p.reservations[r].kind == Persistent(k) ==>
                     p.reservations[r].released)
            then q == p.(persistent := p.persistent - 1, tickets := p.tickets[k := Ticket(true, p.tickets[k].used)])
            else q == p
  {
    hide Reachable, Inv, Step, PersistentOpen, PersistentRelease;
    ReachableInv(p);
    TicketEvents(p, k);
    PersistentFacts(p, k);
    QuotaPlain(p, k);
  }

  lemma TicketEvents(p: Pool, k: nat)
    ensures Step(p, PersistentOpens) == PersistentOpen(p)
    ensures Step(p, PersistentReleased(k)) == if TicketIdle(p, k) then PersistentRelease(p, k) else p
  {
    hide PersistentOpen, PersistentRelease, TicketIdle;
  }

  lemma PersistentFacts(p: Pool, k: nat)
    requires Inv(p)
    ensures p.persistent >= 0 && (k in p.tickets && !p.tickets[k].released ==> p.persistent > 0)
  {
    InvParts(p);
    hide Inv, Held, OpenOwned, ClosingOwned, StartupsSound, Attended, Draining;
    if k in p.tickets && !p.tickets[k].released {
      assert k in LiveTickets(p.tickets);
    }
  }

  lemma QuotaPlain(p: Pool, k: nat)
    requires p.persistent >= 0 && (k in p.tickets && !p.tickets[k].released ==> p.persistent > 0)
    ensures var q, all := PersistentOpen(p), p.cfg.maxBrowsers * p.cfg.maxContexts;
            if !p.closed && p.persistent + p.cfg.reservedTransient < all then
              q == p.(persistent := p.persistent + 1, tickets := p.tickets[p.nextTicket := Ticket(false, false)],
                      nextTicket := p.nextTicket + 1)
            else q == p
    ensures var q := if TicketIdle(p, k) then PersistentRelease(p, k) else p;
            if && k in p.tickets && !p.tickets[k].released
               && (forall w :: w in p.waiters ==> p.waiters[w].kind != Persistent(k))
               && (forall r :: r in p.reservations && p.reservations[r].kind == Persistent(k) ==>
                     p.reservations[r].released)
            then q == p.(persistent := p.persistent - 1, tickets := p.tickets[k := Ticket(true, p.tickets[k].used)])
            else q == p
  {
  }

  /** A caller begins with its deadline and the failures so far, so that only a launch that fails after that
      can fail it; a persistent one needs a promise that is neither used nor given back, and uses it. */
  lemma CallersBeginAfresh(p: Pool, kind: Kind, deadline: int)
    ensures var q := Step(p, AcquireBegins(kind, deadline));
            if kind.Transient? || (kind.ticket in p.tickets && p.tickets[kind.ticket] == Ticket(false, false)) then
              q == p.(waiters := p.waiters[p.nextWaiter := Waiter(kind, deadline, p.failureGeneration, false, false)],
                      nextWaiter := p.nextWaiter + 1,
                      tickets := if kind.Persistent? then p.tickets[kind.ticket := Ticket(false, true)] else p.tickets)
            else q == p
  {
    hide Step, AcquireBegin;
    BeginEvent(p, kind, deadline);
    BeginPlain(p, kind, deadline);
  }

  lemma BeginEvent(p: Pool, kind: Kind, deadline: int)
    ensures Step(p, AcquireBegins(kind, deadline)) == AcquireBegin(p, kind, deadline)
  {
    hide AcquireBegin;
  }

  lemma BeginPlain(p: Pool, kind: Kind, deadline: int)
    ensures var q := AcquireBegin(p, kind, deadline);
            if kind.Transient? || (kind.ticket in p.tickets && p.tickets[kind.ticket] == Ticket(false, false)) then
              q == p.(waiters := p.waiters[p.nextWaiter := Waiter(kind, deadline, p.failureGeneration, false, false)],
                      nextWaiter := p.nextWaiter + 1,
                      tickets := if kind.Persistent? then p.tickets[kind.ticket := Ticket(false, true)] else p.tickets)
            else q == p
  {
  }

  /** A parked caller that wakes or leaves is counted out; any other is not counted. */
  lemma WaitingIsCounted(p: Pool, w: nat)
    requires Reachable(p)
    ensures p.waiting == |set x | x in p.waiters && p.waiters[x].parked|
    ensures w in p.waiters ==>
              var fewer := if p.waiters[w].parked then p.waiting - 1 else p.waiting;
              && Step(p, WaiterWakes(w))
                 == p.(waiting := fewer, waiters := p.waiters[w := p.waiters[w].(parked := false)])
              && Step(p, WaiterLeaves(w)) == p.(waiting := fewer, waiters := p.waiters - {w})
    ensures w !in p.waiters ==> Step(p, WaiterWakes(w)) == p && Step(p, WaiterLeaves(w)) == p
  {
    hide Reachable, Inv, Step, Unpark;
    ReachableInv(p);
    WaitEvents(p, w);
    WaitersAreCounted(p, w);
    UnparkPlain(p, w);
  }

  lemma WaitEvents(p: Pool, w: nat)
    ensures Step(p, WaiterWakes(w)) == Unpark(p, w, false) && Step(p, WaiterLeaves(w)) == Unpark(p, w, true)
  {
    hide Unpark;
  }

  lemma WaitersAreCounted(p: Pool, w: nat)
    requires Inv(p)
    ensures p.waiting == |set x | x in p.waiters && p.waiters[x].parked|
    ensures w in p.waiters && p.waiters[w].parked ==> p.waiting > 0
  {
    InvParts(p);
    hide Inv, Held, OpenOwned, ClosingOwned, StartupsSound, Attended, Draining;
    assert ParkedWaiters(p.waiters) == set x | x in p.waiters && p.waiters[x].parked;
    if w in p.waiters && p.waiters[w].parked {
      assert w in ParkedWaiters(p.waiters);
    }
  }

  lemma UnparkPlain(p: Pool, w: nat)
    requires w in p.waiters && p.waiters[w].parked ==> p.waiting > 0
    ensures w in p.waiters ==>
              var fewer := if p.waiters[w].parked then p.waiting - 1 else p.waiting;
              && Unpark(p, w, false) == p.(waiting := fewer, waiters := p.waiters[w := p.waiters[w].(parked := false)])
              && Unpark(p, w, true) == p.(waiting := fewer, waiters := p.waiters - {w})
    ensures w !in p.waiters ==> Unpark(p, w, false) == p && Unpark(p, w, true) == p
  {
  }
}
