/** Runs of the cleanup supervisor under any environment: which tasks finish and when, which timers are
    served first, who waits for which group. */
module CleanupRuns {
  import opened Basics
  import opened CleanupState

  // ----- the invariant -----

  /** The group index is the exact inverse of the groups of each task, without empty entries. */
  ghost predicate GroupsExact(tasks: map<nat, Tracked>, groupTasks: map<nat, set<nat>>) {
    && (forall g, t :: t in TasksOf(groupTasks, g) <==> t in tasks && g in tasks[t].groups)
    && (forall g :: g in groupTasks ==> groupTasks[g] != {})
  }

  function HoldersOf(holds: map<nat, Hold>, g: nat): set<nat> {
    set h | h in holds && !holds[h].released && g in holds[h].groups
  }

  /** The hold count of a group is the number of unreleased holds on it. */
  ghost predicate HoldsExact(holds: map<nat, Hold>, groupHolds: map<nat, nat>) {
    && (forall g :: HoldsOf(groupHolds, g) == |HoldersOf(holds, g)|)
    && (forall g :: g in groupHolds ==> groupHolds[g] > 0)
  }

  /** No wake-up is lost: the current event of a group is set exactly when the group is idle, and
      whoever sleeps on an event will see it set or sleeps on the group's current event. */
  ghost predicate Wakeful(groupTasks: map<nat, set<nat>>, groupHolds: map<nat, nat>, groupEvents: map<nat, Event>,
                          fired: set<Event>, sleepers: map<nat, Event>, nextEvent: nat)
  {
    && (forall g :: g in groupEvents ==> (groupEvents[g] in fired <==> IdleIn(groupTasks, groupHolds, g)))
    && (forall w :: w in sleepers ==>
          var e := sleepers[w];
          e in fired || (e.0 in groupEvents && groupEvents[e.0] == e))
    && (forall g :: g in groupEvents ==> groupEvents[g].0 == g && groupEvents[g].1 < nextEvent)
    && (forall e: Event :: e in fired ==> e.1 < nextEvent)
  }

  ghost predicate WakefulIn(c: Cleanup) {
    Wakeful(c.groupTasks, c.groupHolds, c.groupEvents, c.fired, c.sleepers, c.nextEvent)
  }

  ghost predicate NamesKnown(tasks: map<nat, Tracked>, holds: map<nat, Hold>, nextGroup: nat, nextHold: nat) {
    && (forall t :: t in tasks ==> tasks[t].group in tasks[t].groups)
    && (forall t, g :: t in tasks && g in tasks[t].groups ==> g < nextGroup)
    && (forall h, g :: h in holds && g in holds[h].groups ==> g < nextGroup)
    && (forall h :: h in holds ==> h < nextHold)
  }

  /** A task's timer is armed for its deadline, or for at once when that has passed; a timer that is
      gone has fired, and an unfinished task is then marked. */
  predicate TimerSound(tracked: Tracked, armed: Option<int>, marked: bool, now: int) {
    if armed.Some? then armed.value == tracked.deadline || tracked.deadline <= armed.value <= now
    else tracked.deadline <= now && marked
  }

  function Armed(handles: map<nat, int>, t: nat): Option<int> {
    if t in handles then Some(handles[t]) else None
  }

  ghost predicate TimersSound(tasks: map<nat, Tracked>, handles: map<nat, int>, marked: set<nat>, now: int) {
    && (forall t :: t in tasks ==> TimerSound(tasks[t], Armed(handles, t), t in marked, now))
    && (forall t :: t in handles ==> t in tasks)
  }

  /** A mark belongs to a tracked task, or to a finished one whose callers of `run` have yet to read it. */
  ghost predicate MarksOwned(tasks: set<nat>, timedOut: set<nat>, runWaiters: map<nat, nat>, done: set<nat>) {
    && (forall t :: t in timedOut ==> t in tasks || (t in runWaiters && t in done))
    && (forall t :: t in runWaiters ==> runWaiters[t] > 0)
  }

  /** After shutdown began no deadline is later than the shutdown deadline. */
  ghost predicate ShutdownBounds(tasks: map<nat, Tracked>, shutdown: Option<int>) {
    shutdown.Some? ==> forall t :: t in tasks ==> tasks[t].deadline <= shutdown.value
  }

  ghost predicate Inv(c: Cleanup) {
    && GroupsExact(c.tasks, c.groupTasks)
    && HoldsExact(c.holds, c.groupHolds)
    && WakefulIn(c)
    && NamesKnown(c.tasks, c.holds, c.nextGroup, c.nextHold)
    && TimersSound(c.tasks, c.handles, c.done + c.timedOut, c.now)
    && MarksOwned(c.tasks.Keys, c.timedOut, c.runWaiters, c.done)
    && ShutdownBounds(c.tasks, c.shutdown)
    && !c.raised
  }

  /** While a task is unfinished it stays tracked, its deadline only moves earlier, and it only joins groups. */
  ghost predicate TasksEvolve(before: map<nat, Tracked>, after: map<nat, Tracked>, done: set<nat>) {
    forall t :: t in before && t !in done ==>
      && t in after && after[t].deadline <= before[t].deadline && before[t].groups <= after[t].groups
      && after[t].group == before[t].group
  }

  ghost predicate Evolves(p: Cleanup, q: Cleanup) {
    && p.done <= q.done
    && p.now <= q.now
    && (p.shutdown.Some? ==> q.shutdown.Some? && q.shutdown.value <= p.shutdown.value)
    && TasksEvolve(p.tasks, q.tasks, q.done)
  }

  // ----- runs -----

  datatype Action =
    | Tracks(task: nat, timeout: int, current: Option<nat>, scope: Option<Scope>)
    | RunBegins(task: nat, timeout: int, current: Option<nat>, scope: Option<Scope>)
    | RunEnds(task: nat, gaveUp: bool)
    | Finishes(task: nat)
    | CalledBack(task: nat)
    | TimerFires(task: nat)
    | Retains(held: Scope)
    | Releases(hold: nat)
    | WaitBegins(waiter: nat, group: nat)
    | Wakes(waiter: nat)
    | WaitCancelled(waiter: nat)
    | CloseBegins(timeout: int)
    | CloseTurns
    | CloseGaveUp
    | TimePasses(duration: nat)

  /** A scope names groups that exist: every scope is a copy of a tracked task's. */
  predicate Known(c: Cleanup, scope: Scope) {
    scope.group in scope.Ownership() && forall g :: g in scope.Ownership() ==> g < c.nextGroup
  }

  predicate KnownIfAny(c: Cleanup, scope: Option<Scope>) {
    scope.Some? ==> Known(c, scope.value)
  }

  /** One action; one that cannot happen changes nothing. The done callback of a task runs after it
      finished, and a timer fires no earlier than it is due. */
  function Step(c: Cleanup, a: Action): Cleanup {
    match a
    case Tracks(t, timeout, current, scope) => if KnownIfAny(c, scope) then Track(c, t, timeout, current, scope) else c
    case RunBegins(t, timeout, current, scope) =>
        if KnownIfAny(c, scope) then RunBegin(c, t, timeout, current, scope) else c
    case RunEnds(t, gaveUp) => RunEnd(c, t, gaveUp)
    case Finishes(t) => c.(done := c.done + {t})
    case CalledBack(t) => if t in c.done then TaskFinished(c, t) else c
    case TimerFires(t) => if t in c.handles && c.handles[t] <= c.now then DeadlineExpired(c, t) else c
    case Retains(held) => if Known(c, held) then RetainScope(c, held) else c
    case Releases(h) => ReleaseHold(c, h)
    case WaitBegins(w, g) => if w in c.sleepers then c else WaitTurn(c, w, g)
    case Wakes(w) => Wake(c, w)
    case WaitCancelled(w) => c.(sleepers := c.sleepers - {w})
    case CloseBegins(timeout) => CloseBegin(c, timeout)
    case CloseTurns => CloseTurn(c)
    case CloseGaveUp => CloseGivesUp(c)
    case TimePasses(duration) => c.(now := c.now + duration)
  }

  function Run(c: Cleanup, actions: seq<Action>): Cleanup
    decreases |actions|
  {
    if actions == [] then c else Run(Step(c, actions[0]), actions[1..])
  }

  // ----- joining and leaving groups -----

  lemma JoinWakeful(c: Cleanup, t: nat, groups: set<nat>)
    requires WakefulIn(c)
    ensures WakefulIn(JoinGroups(c, t, groups))
  {
    var d := JoinGroups(c, t, groups);
    forall g | g in d.groupEvents ensures d.groupEvents[g] in d.fired <==> Idle(d, g) {
      if g in groups {
        assert t in TasksOf(d.groupTasks, g);
      } else {
        assert Idle(d, g) == Idle(c, g);
      }
    }
  }

  lemma JoinedAt(groupTasks: map<nat, set<nat>>, t: nat, groups: set<nat>, g: nat)
    ensures TasksOf(Joined(groupTasks, t, groups), g)
            == if g in groups then TasksOf(groupTasks, g) + {t} else TasksOf(groupTasks, g)
    ensures g in Joined(groupTasks, t, groups) && (g in groupTasks ==> groupTasks[g] != {}) ==>
              Joined(groupTasks, t, groups)[g] != {}
  {
  }

  lemma JoinExact(c: Cleanup, t: nat, groups: set<nat>, tasks: map<nat, Tracked>)
    requires GroupsExact(c.tasks, c.groupTasks) && t in tasks
    requires tasks.Keys == c.tasks.Keys + {t}
    requires forall x :: x in c.tasks && x != t ==> tasks[x] == c.tasks[x]
    requires tasks[t].groups == if t in c.tasks then c.tasks[t].groups + groups else groups
    ensures GroupsExact(tasks, JoinGroups(c, t, groups).groupTasks)
  {
    var after := Joined(c.groupTasks, t, groups);
    assert JoinGroups(c, t, groups).groupTasks == after;
    hide Joined, TasksOf, JoinGroups;
    forall g, x ensures x in TasksOf(after, g) <==> x in tasks && g in tasks[x].groups {
      JoinedAt(c.groupTasks, t, groups, g);
      if x != t {
        assert x in tasks <==> x in c.tasks;
      }
    }
    forall g | g in after ensures after[g] != {} {
      JoinedAt(c.groupTasks, t, groups, g);
    }
  }

  /** Setting the events of the groups that became idle restores exactness. */
  lemma FinishIdleWakeful(c: Cleanup, d: Cleanup, groups: set<nat>)
    requires WakefulIn(c)
    requires d.groupEvents == c.groupEvents && d.fired == c.fired && d.sleepers == c.sleepers
             && d.nextEvent == c.nextEvent
    requires forall g :: Idle(c, g) ==> Idle(d, g)
    requires forall g :: Idle(d, g) && !Idle(c, g) ==> g in groups
    ensures WakefulIn(FinishIdle(d, groups))
  {
    var e := FinishIdle(d, groups);
    forall g | g in e.groupEvents ensures e.groupEvents[g] in e.fired <==> Idle(e, g) {
      assert Idle(e, g) == Idle(d, g);
      if e.groupEvents[g] in e.fired && e.groupEvents[g] !in d.fired {
        var h :| h in groups && h in d.groupEvents && Idle(d, h) && d.groupEvents[h] == e.groupEvents[g];
        assert h == g;
      }
    }
  }

  lemma LeaveExact(tasks: map<nat, Tracked>, groupTasks: map<nat, set<nat>>, t: nat)
    requires GroupsExact(tasks, groupTasks) && t in tasks
    ensures GroupsExact(tasks - {t}, TasksLeft(groupTasks, t, tasks[t].groups))
  {
    var groups := tasks[t].groups;
    var after := TasksLeft(groupTasks, t, groups);
    forall g, x ensures x in TasksOf(after, g) <==> x in tasks && x != t && g in tasks[x].groups {
      assert t in TasksOf(groupTasks, g) <==> g in groups;
      assert x in TasksOf(groupTasks, g) <==> x in tasks && g in tasks[x].groups;
      assert TasksOf(after, g) == TasksOf(groupTasks, g) - {t};
    }
    forall g | g in after ensures after[g] != {} {
    }
  }

  lemma LeaveWakeful(c: Cleanup, d: Cleanup, t: nat, groups: set<nat>)
    requires WakefulIn(c)
    requires d == c.(tasks := d.tasks, handles := d.handles, timedOut := d.timedOut)
    ensures WakefulIn(LeaveGroups(d, t, groups))
  {
    hide Wakeful, WakefulIn, FinishIdle;
    var left := TasksLeft(c.groupTasks, t, groups);
    var emptied := Emptied(c.groupTasks, t, groups);
    LeftGroupsIdle(c.groupTasks, c.groupHolds, t, groups);
    FinishIdleWakeful(c, d.(groupTasks := left), emptied);
  }

  lemma LeftGroupsIdle(groupTasks: map<nat, set<nat>>, groupHolds: map<nat, nat>, t: nat, groups: set<nat>)
    ensures var left := TasksLeft(groupTasks, t, groups);
            forall g :: (IdleIn(groupTasks, groupHolds, g) ==> IdleIn(left, groupHolds, g))
                        && (IdleIn(left, groupHolds, g) && !IdleIn(groupTasks, groupHolds, g) ==>
                              g in groups && g in groupTasks && groupTasks[g] - {t} == {})
  {
  }

  // ----- tracking -----

  lemma ShortenTimers(c: Cleanup, t: nat, deadline: int)
    requires TimersSound(c.tasks, c.handles, c.done + c.timedOut, c.now)
    ensures var d := Shorten(c, t, deadline);
            TimersSound(d.tasks, d.handles, d.done + d.timedOut, d.now)
  {
  }

  lemma ShortenRest(c: Cleanup, t: nat, deadline: int)
    requires GroupsExact(c.tasks, c.groupTasks) && ShutdownBounds(c.tasks, c.shutdown)
    requires NamesKnown(c.tasks, c.holds, c.nextGroup, c.nextHold)
    ensures var d := Shorten(c, t, deadline);
            && GroupsExact(d.tasks, d.groupTasks) && ShutdownBounds(d.tasks, d.shutdown)
            && NamesKnown(d.tasks, d.holds, d.nextGroup, d.nextHold)
            && Evolves(c, d) && d.tasks.Keys == c.tasks.Keys
            && d == c.(tasks := d.tasks, handles := d.handles)
            && (t in c.tasks ==> d.tasks[t] == c.tasks[t].(deadline := Min(c.tasks[t].deadline, deadline)))
  {
    hide GroupsExact, ShutdownBounds, NamesKnown;
    if t in c.tasks && c.tasks[t].deadline > deadline {
      DeadlineOnly(c, t, deadline);
    }
  }

  lemma DeadlineOnly(c: Cleanup, t: nat, deadline: int)
    requires GroupsExact(c.tasks, c.groupTasks) && ShutdownBounds(c.tasks, c.shutdown)
    requires NamesKnown(c.tasks, c.holds, c.nextGroup, c.nextHold) && t in c.tasks && deadline < c.tasks[t].deadline
    ensures var tasks := c.tasks[t := c.tasks[t].(deadline := deadline)];
            && GroupsExact(tasks, c.groupTasks) && ShutdownBounds(tasks, c.shutdown)
            && NamesKnown(tasks, c.holds, c.nextGroup, c.nextHold) && tasks.Keys == c.tasks.Keys
  {
  }

  lemma ShortenInv(c: Cleanup, t: nat, deadline: int)
    requires Inv(c)
    ensures var d := Shorten(c, t, deadline);
            && Inv(d) && Evolves(c, d) && d == c.(tasks := d.tasks, handles := d.handles)
            && (t in c.tasks ==>
                 t in d.tasks && d.tasks[t] == c.tasks[t].(deadline := Min(c.tasks[t].deadline, deadline)))
  {
    hide GroupsExact, HoldsExact, Wakeful, NamesKnown, TimersSound, MarksOwned, ShutdownBounds, Evolves, Shorten;
    ShortenTimers(c, t, deadline);
    ShortenRest(c, t, deadline);
  }

  lemma GroupsGrowTimers(c: Cleanup, t: nat, more: set<nat>)
    requires TimersSound(c.tasks, c.handles, c.done + c.timedOut, c.now) && ShutdownBounds(c.tasks, c.shutdown)
             && t in c.tasks
    ensures var tasks := c.tasks[t := c.tasks[t].(groups := c.tasks[t].groups + more)];
            TimersSound(tasks, c.handles, c.done + c.timedOut, c.now) && ShutdownBounds(tasks, c.shutdown)
            && TasksEvolve(c.tasks, tasks, c.done)
  {
  }

  lemma GroupsGrowNames(c: Cleanup, t: nat, more: set<nat>)
    requires NamesKnown(c.tasks, c.holds, c.nextGroup, c.nextHold) && t in c.tasks
             && forall g :: g in more ==> g < c.nextGroup
    ensures NamesKnown(c.tasks[t := c.tasks[t].(groups := c.tasks[t].groups + more)], c.holds, c.nextGroup, c.nextHold)
  {
  }

  lemma GroupsGrow(c: Cleanup, t: nat, more: set<nat>)
    requires Inv(c) && t in c.tasks && forall g :: g in more ==> g < c.nextGroup
    ensures var d := JoinGroups(c.(tasks := c.tasks[t := c.tasks[t].(groups := c.tasks[t].groups + more)]), t, more);
            Inv(d) && Evolves(c, d)
  {
    hide GroupsExact, HoldsExact, Wakeful, NamesKnown, TimersSound, MarksOwned, ShutdownBounds, TasksEvolve, Renewed,
      TasksOf;
    var tasks := c.tasks[t := c.tasks[t].(groups := c.tasks[t].groups + more)];
    assert tasks.Keys == c.tasks.Keys;
    JoinExact(c, t, more, tasks);
    JoinWakeful(c, t, more);
    GroupsGrowNames(c, t, more);
    GroupsGrowTimers(c, t, more);
  }

  lemma TrackAgainInv(c: Cleanup, t: nat, deadline: int, scope: Option<Scope>)
    requires Inv(c) && t in c.tasks && KnownIfAny(c, scope)
    ensures var d := TrackAgain(c, t, deadline, scope);
            && Inv(d) && Evolves(c, d) && t in d.tasks && d.tasks[t].deadline == Min(c.tasks[t].deadline, deadline)
            && (scope.Some? ==> scope.value.Ownership() <= d.tasks[t].groups)
  {
    hide Inv, Evolves, Shorten, JoinGroups;
    var p := Shorten(c, t, deadline);
    ShortenInv(c, t, deadline);
    if scope.Some? && !(scope.value.Ownership() <= c.tasks[t].groups) {
      var more := scope.value.Ownership() - c.tasks[t].groups;
      var tasks := p.tasks[t := p.tasks[t].(groups := p.tasks[t].groups + more)];
      GroupsGrow(p, t, more);
      JoinOnly(p.(tasks := tasks), t, more);
      EvolvesTransitive(c, p, JoinGroups(p.(tasks := tasks), t, more));
    }
  }

  lemma JoinOnly(c: Cleanup, t: nat, groups: set<nat>)
    ensures JoinGroups(c, t, groups).tasks == c.tasks
  {
  }

  lemma EvolvesTransitive(p: Cleanup, q: Cleanup, r: Cleanup)
    requires Evolves(p, q) && Evolves(q, r)
    ensures Evolves(p, r)
  {
  }

  lemma EvolvesSelf(c: Cleanup)
    ensures Evolves(c, c)
  {
  }

  lemma NewTaskTimers(c: Cleanup, t: nat, tracked: Tracked)
    requires TimersSound(c.tasks, c.handles, c.done + c.timedOut, c.now) && ShutdownBounds(c.tasks, c.shutdown)
             && t !in c.tasks
    requires MarksOwned(c.tasks.Keys, c.timedOut, c.runWaiters, c.done)
    requires c.shutdown.Some? ==> tracked.deadline <= c.shutdown.value
    ensures var tasks := c.tasks[t := tracked];
            && TimersSound(tasks, c.handles[t := Max(c.now, tracked.deadline)], c.done + c.timedOut, c.now)
            && ShutdownBounds(tasks, c.shutdown) && TasksEvolve(c.tasks, tasks, c.done)
            && MarksOwned(tasks.Keys, c.timedOut, c.runWaiters, c.done)
  {
  }

  lemma NewTaskNames(c: Cleanup, t: nat, tracked: Tracked)
    requires NamesKnown(c.tasks, c.holds, c.nextGroup, c.nextHold)
    requires tracked.group in tracked.groups && forall g :: g in tracked.groups ==> g <= c.nextGroup
    ensures NamesKnown(c.tasks[t := tracked], c.holds, c.nextGroup + 1, c.nextHold)
  {
  }

  lemma TrackNewInv(c: Cleanup, t: nat, deadline: int, scope: Option<Scope>)
    requires Inv(c) && t !in c.tasks && KnownIfAny(c, scope)
    requires c.shutdown.Some? ==> deadline <= c.shutdown.value
    ensures var d := TrackNew(c, t, deadline, scope);
            && Inv(d) && Evolves(c, d) && t in d.tasks && d.tasks[t].deadline == deadline
            && (scope.Some? ==> scope.value.Ownership() <= d.tasks[t].groups)
  {
    hide GroupsExact, HoldsExact, Wakeful, NamesKnown, TimersSound, MarksOwned, ShutdownBounds, TasksEvolve, Renewed,
      TasksOf;
    var group := if scope.Some? then scope.value.group else c.nextGroup;
    var groups := if scope.Some? then scope.value.Ownership() else {c.nextGroup};
    var tracked := Tracked(c.now, deadline, group, groups);
    JoinExact(c, t, groups, c.tasks[t := tracked]);
    JoinWakeful(c, t, groups);
    NewTaskTimers(c, t, tracked);
    NewTaskNames(c, t, tracked);
  }

  lemma ScopesKnown(c: Cleanup, current: Option<nat>)
    requires Inv(c)
    ensures KnownIfAny(c, CurrentScope(c, current))
  {
    hide GroupsExact, HoldsExact, Wakeful, TimersSound, ShutdownBounds, MarksOwned;
  }

  /** Tracking keeps the invariant. The task's deadline is the earliest of its own budget's, its owner's,
      the shutdown deadline and, if it was tracked already, the one it had; it counts for every group of
      its owner. */
  lemma TrackInv(c: Cleanup, t: nat, timeout: int, current: Option<nat>, scope: Option<Scope>)
    requires Inv(c) && KnownIfAny(c, scope)
    ensures var d := Track(c, t, timeout, current, scope);
            && Inv(d) && Evolves(c, d)
            && (timeout > 0 ==>
                  && t in d.tasks
                  && d.tasks[t].deadline <= c.now + timeout
                  && (c.shutdown.Some? ==> d.tasks[t].deadline <= c.shutdown.value)
                  && var inherited := ScopeFor(c, current, scope);
                     && (inherited.Some? ==>
                           d.tasks[t].deadline <= inherited.value.deadline
                               && inherited.value.Ownership() <= d.tasks[t].groups)
                     && (|| d.tasks[t].deadline == c.now + timeout
                         || (c.shutdown.Some? && d.tasks[t].deadline == c.shutdown.value)
                         || (inherited.Some? && d.tasks[t].deadline == inherited.value.deadline)
                         || (t in c.tasks && d.tasks[t].deadline == c.tasks[t].deadline)))
  {
    hide Inv, Evolves, TrackNew, TrackAgain;
    ScopesKnown(c, current);
    var inherited := ScopeFor(c, current, scope);
    var deadline := DeadlineFor(c, timeout, inherited);
    if timeout <= 0 {
      EvolvesSelf(c);
    } else if t in c.tasks {
      TrackAgainInv(c, t, deadline, inherited);
    } else {
      TrackNewInv(c, t, deadline, inherited);
    }
  }

  // ----- holds -----

  lemma RetainHolders(holds: map<nat, Hold>, groupHolds: map<nat, nat>, groups: set<nat>, h: nat)
    requires HoldsExact(holds, groupHolds) && h !in holds
    ensures HoldsExact(holds[h := Hold(groups, false)], HoldsMore(groupHolds, groups))
  {
    var after, more := holds[h := Hold(groups, false)], HoldsMore(groupHolds, groups);
    hide HoldersOf, HoldsMore, HoldsOf;
    forall g ensures HoldsOf(more, g) == |HoldersOf(after, g)|
             ensures g in more ==> more[g] > 0 {
      OneMoreHolder(holds, groupHolds, groups, h, g);
    }
  }

  lemma OneMoreHolder(holds: map<nat, Hold>, groupHolds: map<nat, nat>, groups: set<nat>, h: nat, g: nat)
    requires h !in holds && HoldsOf(groupHolds, g) == |HoldersOf(holds, g)| && (g in groupHolds ==> groupHolds[g] > 0)
    ensures HoldsOf(HoldsMore(groupHolds, groups), g) == |HoldersOf(holds[h := Hold(groups, false)], g)|
    ensures g in HoldsMore(groupHolds, groups) ==> HoldsMore(groupHolds, groups)[g] > 0
  {
    assert HoldersOf(holds[h := Hold(groups, false)], g) == HoldersOf(holds, g) + if g in groups then {h} else {};
    assert h !in HoldersOf(holds, g);
  }

  lemma RetainWakeful(c: Cleanup, scope: Scope)
    requires WakefulIn(c)
    ensures WakefulIn(RetainScope(c, scope))
  {
    var d := RetainScope(c, scope);
    forall g | g in d.groupEvents ensures d.groupEvents[g] in d.fired <==> Idle(d, g) {
      if g in scope.Ownership() {
        assert HoldsOf(d.groupHolds, g) > 0;
      } else {
        assert Idle(d, g) == Idle(c, g);
      }
    }
  }

  lemma RetainNames(c: Cleanup, scope: Scope)
    requires NamesKnown(c.tasks, c.holds, c.nextGroup, c.nextHold) && Known(c, scope)
    ensures NamesKnown(c.tasks, c.holds[c.nextHold := Hold(scope.Ownership(), false)], c.nextGroup, c.nextHold + 1)
    ensures c.nextHold !in c.holds
  {
  }

  lemma RetainInv(c: Cleanup, scope: Scope)
    requires Inv(c) && Known(c, scope)
    ensures Inv(RetainScope(c, scope)) && Evolves(c, RetainScope(c, scope))
  {
    hide GroupsExact, HoldsExact, Wakeful, NamesKnown, TimersSound, MarksOwned, ShutdownBounds, Renewed, HoldsMore;
    RetainNames(c, scope);
    RetainHolders(c.holds, c.groupHolds, scope.Ownership(), c.nextHold);
    RetainWakeful(c, scope);
  }

  lemma ReleaseHolders(holds: map<nat, Hold>, groupHolds: map<nat, nat>, h: nat)
    requires HoldsExact(holds, groupHolds) && h in holds && !holds[h].released
    ensures forall g :: g in holds[h].groups ==> HoldsOf(groupHolds, g) > 0
    ensures HoldsExact(holds[h := Hold(holds[h].groups, true)], HoldsLeft(groupHolds, holds[h].groups))
  {
    var groups := holds[h].groups;
    var after, left := holds[h := Hold(groups, true)], HoldsLeft(groupHolds, groups);
    forall g ensures g in groups ==> HoldsOf(groupHolds, g) > 0
             ensures HoldsOf(left, g) == |HoldersOf(after, g)| {
      if g in groups {
        assert h in HoldersOf(holds, g);
        assert HoldersOf(after, g) == HoldersOf(holds, g) - {h};
      } else {
        assert HoldersOf(after, g) == HoldersOf(holds, g);
      }
    }
  }

  lemma ReleaseWakeful(c: Cleanup, d: Cleanup, groups: set<nat>)
    requires WakefulIn(c) && d == c.(groupHolds := HoldsLeft(c.groupHolds, groups), holds := d.holds)
    ensures WakefulIn(FinishIdle(d, groups))
  {
    hide Wakeful, WakefulIn;
    FinishIdleWakeful(c, d, groups);
  }

  /** A hold is released once, and never underflows the count of a group. */
  lemma ReleaseInv(c: Cleanup, h: nat)
    requires Inv(c)
    ensures Inv(ReleaseHold(c, h)) && Evolves(c, ReleaseHold(c, h))
  {
    hide GroupsExact, HoldsExact, Wakeful, NamesKnown, TimersSound, MarksOwned, ShutdownBounds, HoldsLeft, HoldsOf,
      IdleIn;
    if h in c.holds && !c.holds[h].released {
      var groups := c.holds[h].groups;
      var d := c.(groupHolds := HoldsLeft(c.groupHolds, groups), holds := c.holds[h := Hold(groups, true)]);
      ReleaseHolders(c.holds, c.groupHolds, h);
      ReleaseWakeful(c, d, groups);
      assert NamesKnown(c.tasks, d.holds, c.nextGroup, c.nextHold) by { ReleaseNames(c, h); }
    }
  }

  lemma ReleaseNames(c: Cleanup, h: nat)
    requires NamesKnown(c.tasks, c.holds, c.nextGroup, c.nextHold) && h in c.holds
    ensures NamesKnown(c.tasks, c.holds[h := Hold(c.holds[h].groups, true)], c.nextGroup, c.nextHold)
  {
  }

  // ----- tasks ending -----

  lemma FinishedRest(c: Cleanup, t: nat, timedOut: set<nat>)
    requires TimersSound(c.tasks, c.handles, c.done + c.timedOut, c.now) && ShutdownBounds(c.tasks, c.shutdown)
    requires NamesKnown(c.tasks, c.holds, c.nextGroup, c.nextHold)
             && MarksOwned(c.tasks.Keys, c.timedOut, c.runWaiters, c.done)
    requires timedOut == c.timedOut - {t} || (timedOut == c.timedOut && t in c.runWaiters && t in c.done)
    ensures TimersSound(c.tasks - {t}, c.handles - {t}, c.done + timedOut, c.now)
            && ShutdownBounds(c.tasks - {t}, c.shutdown)
    ensures NamesKnown(c.tasks - {t}, c.holds, c.nextGroup, c.nextHold)
    ensures MarksOwned((c.tasks - {t}).Keys, timedOut, c.runWaiters, c.done)
    ensures t in c.done ==> TasksEvolve(c.tasks, c.tasks - {t}, c.done)
  {
  }

  lemma TaskFinishedInv(c: Cleanup, t: nat)
    requires Inv(c) && t in c.done
    ensures Inv(TaskFinished(c, t)) && Evolves(c, TaskFinished(c, t))
  {
    hide GroupsExact, HoldsExact, Wakeful, NamesKnown, TimersSound, MarksOwned, ShutdownBounds, TasksEvolve, TasksLeft,
      IdleIn;
    if t in c.tasks {
      var waited := t in c.runWaiters && c.runWaiters[t] != 0;
      var timedOut := if waited then c.timedOut else c.timedOut - {t};
      var d := c.(tasks := c.tasks - {t}, handles := c.handles - {t}, timedOut := timedOut);
      LeaveExact(c.tasks, c.groupTasks, t);
      LeaveWakeful(c, d, t, c.tasks[t].groups);
      FinishedRest(c, t, timedOut);
    } else {
      EvolvesSelf(c);
    }
  }

  /** Only marks, clocks and counts of waiting callers change. */
  lemma MarksInv(c: Cleanup, d: Cleanup)
    requires Inv(c)
    requires d == c.(timedOut := d.timedOut, runWaiters := d.runWaiters, done := d.done, handles := d.handles,
             now := d.now)
    requires c.now <= d.now && c.done <= d.done && MarksOwned(d.tasks.Keys, d.timedOut, d.runWaiters, d.done)
    requires c.done + c.timedOut <= d.done + d.timedOut
    requires forall t :: t in d.handles ==> t in c.handles && d.handles[t] == c.handles[t]
    requires forall t :: t in c.handles && t !in d.handles ==> c.handles[t] <= c.now && t in d.done + d.timedOut
    ensures Inv(d) && Evolves(c, d)
  {
    hide GroupsExact, HoldsExact, Wakeful, NamesKnown, MarksOwned, ShutdownBounds;
  }

  // ----- waiting -----

  lemma WaitTurnWakeful(c: Cleanup, w: nat, g: nat)
    requires WakefulIn(c)
    ensures WakefulIn(WaitTurn(c, w, g))
    ensures w in WaitTurn(c, w, g).sleepers <==> !Idle(c, g)
    ensures w in WaitTurn(c, w, g).sleepers
            ==> WaitTurn(c, w, g).sleepers[w].0 == g && WaitTurn(c, w, g).sleepers[w] !in c.fired
  {
    hide IdleIn, Wakeful;
    if Idle(c, g) {
      assert WakefulIn(WaitTurn(c, w, g)) by { SleepersLeave(c, w); }
    } else {
      if g in c.groupEvents {
        SleepOn(c.groupTasks, c.groupHolds, c.groupEvents, c.fired, c.sleepers, c.nextEvent, w, g);
      } else {
        NewEvent(c.groupTasks, c.groupHolds, c.groupEvents, c.fired, c.sleepers, c.nextEvent, w, g);
      }
    }
  }

  lemma SleepersLeave(c: Cleanup, w: nat)
    requires WakefulIn(c)
    ensures WakefulIn(c.(sleepers := c.sleepers - {w}))
  {
  }

  lemma SleepOn(groupTasks: map<nat, set<nat>>, groupHolds: map<nat, nat>, groupEvents: map<nat, Event>,
                fired: set<Event>, sleepers: map<nat, Event>, nextEvent: nat, w: nat, g: nat)
    requires Wakeful(groupTasks, groupHolds, groupEvents, fired, sleepers, nextEvent)
    requires g in groupEvents && !IdleIn(groupTasks, groupHolds, g)
    ensures groupEvents[g] !in fired && groupEvents[g].0 == g
    ensures Wakeful(groupTasks, groupHolds, groupEvents[g := groupEvents[g]], fired, sleepers[w := groupEvents[g]],
            nextEvent + 1)
  {
    hide IdleIn;
    assert groupEvents[g := groupEvents[g]] == groupEvents;
  }

  lemma NewEvent(groupTasks: map<nat, set<nat>>, groupHolds: map<nat, nat>, groupEvents: map<nat, Event>,
                 fired: set<Event>, sleepers: map<nat, Event>, nextEvent: nat, w: nat, g: nat)
    requires Wakeful(groupTasks, groupHolds, groupEvents, fired, sleepers, nextEvent)
    requires g !in groupEvents && !IdleIn(groupTasks, groupHolds, g)
    ensures (g, nextEvent) !in fired
    ensures Wakeful(groupTasks, groupHolds, groupEvents[g := (g, nextEvent)], fired, sleepers[w := (g, nextEvent)],
            nextEvent + 1)
  {
    hide IdleIn;
  }

  lemma WaitTurnInv(c: Cleanup, w: nat, g: nat)
    requires Inv(c)
    ensures Inv(WaitTurn(c, w, g)) && Evolves(c, WaitTurn(c, w, g))
    ensures w in WaitTurn(c, w, g).sleepers <==> !Idle(c, g)
    ensures w in WaitTurn(c, w, g).sleepers
            ==> WaitTurn(c, w, g).sleepers[w].0 == g && WaitTurn(c, w, g).sleepers[w] !in c.fired
  {
    hide GroupsExact, HoldsExact, Wakeful, NamesKnown, TimersSound, MarksOwned, ShutdownBounds, IdleIn;
    WaitTurnWakeful(c, w, g);
  }

  /** Dropping the group's event once it is set leaves nobody asleep on it. */
  lemma DropEventInv(c: Cleanup, g: nat)
    requires Inv(c) && g in c.groupEvents && c.groupEvents[g] in c.fired
    ensures Inv(c.(groupEvents := c.groupEvents - {g})) && Evolves(c, c.(groupEvents := c.groupEvents - {g}))
  {
    hide GroupsExact, HoldsExact, NamesKnown, TimersSound, MarksOwned, ShutdownBounds, IdleIn;
  }

  lemma WakeInv(c: Cleanup, w: nat)
    requires Inv(c)
    ensures Inv(Wake(c, w)) && Evolves(c, Wake(c, w))
  {
    hide Inv, Evolves, WaitTurn;
    EvolvesSelf(c);
    if w in c.sleepers && c.sleepers[w] in c.fired {
      var event := c.sleepers[w];
      var g := event.0;
      var d := if g in c.groupEvents && c.groupEvents[g] == event then c.(groupEvents := c.groupEvents - {g}) else c;
      if d != c {
        DropEventInv(c, g);
      }
      WaitTurnInv(d, w, g);
      EvolvesTransitive(c, d, WaitTurn(d, w, g));
    }
  }

  lemma WaitCancelledInv(c: Cleanup, w: nat)
    requires Inv(c)
    ensures var d := c.(sleepers := c.sleepers - {w});
            Inv(d) && Evolves(c, d)
  {
    hide GroupsExact, HoldsExact, NamesKnown, TimersSound, MarksOwned, ShutdownBounds, IdleIn;
  }

  // ----- shutdown -----

  lemma ShortenAllTimers(c: Cleanup, limit: int)
    requires TimersSound(c.tasks, c.handles, c.done + c.timedOut, c.now)
    ensures var d := ShortenAll(c, limit);
            TimersSound(d.tasks, d.handles, d.done + d.timedOut, d.now)
  {
  }

  lemma ShortenAllRest(c: Cleanup, limit: int)
    requires GroupsExact(c.tasks, c.groupTasks) && NamesKnown(c.tasks, c.holds, c.nextGroup, c.nextHold)
    ensures var d := ShortenAll(c, limit);
            && GroupsExact(d.tasks, d.groupTasks) && ShutdownBounds(d.tasks, Some(limit))
            && NamesKnown(d.tasks, d.holds, d.nextGroup, d.nextHold)
            && TasksEvolve(c.tasks, d.tasks, c.done) && d.tasks.Keys == c.tasks.Keys
            && d == c.(tasks := d.tasks, handles := d.handles)
  {
  }

  lemma ShortenAllInv(c: Cleanup, limit: int)
    requires Inv(c) && (c.shutdown.Some? ==> limit <= c.shutdown.value)
    ensures var d := ShortenAll(c.(shutdown := Some(limit)), limit);
            Inv(d) && Evolves(c, d)
  {
    hide GroupsExact, HoldsExact, Wakeful, NamesKnown, TimersSound, MarksOwned, ShutdownBounds, TasksEvolve, ShortenAll;
    var e := c.(shutdown := Some(limit));
    ShortenAllTimers(e, limit);
    ShortenAllRest(e, limit);
  }

  // ----- every run -----

  lemma RunBeginInv(c: Cleanup, t: nat, timeout: int, current: Option<nat>, scope: Option<Scope>)
    requires Inv(c) && KnownIfAny(c, scope)
    ensures Inv(RunBegin(c, t, timeout, current, scope)) && Evolves(c, RunBegin(c, t, timeout, current, scope))
  {
    hide Inv, Evolves, Track, TimersSound, MarksOwned;
    if timeout > 0 {
      var d := Track(c, t, timeout, current, scope);
      TrackInv(c, t, timeout, current, scope);
      CountRunner(d, t);
      EvolvesTransitive(c, d, RunBegin(c, t, timeout, current, scope));
    } else {
      EvolvesSelf(c);
    }
  }

  lemma CountRunner(d: Cleanup, t: nat)
    requires Inv(d)
    ensures var e := d.(runWaiters := d.runWaiters[t := (if t in d.runWaiters then d.runWaiters[t] else 0) + 1]);
            Inv(e) && Evolves(d, e)
  {
    hide GroupsExact, HoldsExact, Wakeful, NamesKnown, TimersSound, ShutdownBounds, TasksEvolve;
    assert TasksEvolve(d.tasks, d.tasks, d.done) by { EvolvesSelf(d); }
  }

  lemma MarkInv(c: Cleanup, t: nat)
    requires Inv(c)
    ensures Inv(MarkTimedOut(c, t)) && Evolves(c, MarkTimedOut(c, t))
  {
    hide GroupsExact, HoldsExact, Wakeful, NamesKnown, TimersSound, ShutdownBounds, Evolves, MarksOwned;
    EvolvesSelf(c);
    if t in c.tasks && t !in c.done {
      MarkedIsOwned(c.tasks.Keys, c.timedOut, c.runWaiters, c.done, t);
      MarksInv(c, MarkTimedOut(c, t));
    }
  }

  lemma FewerRunners(tasks: set<nat>, timedOut: set<nat>, runWaiters: map<nat, nat>, done: set<nat>, t: nat)
    requires MarksOwned(tasks, timedOut, runWaiters, done) && t in runWaiters
    ensures runWaiters[t] > 1 ==> MarksOwned(tasks, timedOut, runWaiters[t := runWaiters[t] - 1], done)
    ensures MarksOwned(tasks, if t in done then timedOut - {t} else timedOut, runWaiters - {t}, done)
  {
  }

  lemma DropRunnerInv(c: Cleanup, t: nat)
    requires Inv(c) && t in c.runWaiters
    ensures Inv(RunEnd(c, t, false)) && Evolves(c, RunEnd(c, t, false))
  {
    hide GroupsExact, HoldsExact, Wakeful, NamesKnown, TimersSound, ShutdownBounds, Evolves, MarksOwned;
    FewerRunners(c.tasks.Keys, c.timedOut, c.runWaiters, c.done, t);
    MarksInv(c, RunEnd(c, t, false));
  }

  lemma RunEndInv(c: Cleanup, t: nat, gaveUp: bool)
    requires Inv(c)
    ensures Inv(RunEnd(c, t, gaveUp)) && Evolves(c, RunEnd(c, t, gaveUp))
  {
    hide Inv, Evolves;
    EvolvesSelf(c);
    if t in c.runWaiters {
      var m := if gaveUp then MarkTimedOut(c, t) else c;
      MarkInv(c, t);
      DropRunnerInv(m, t);
      EvolvesTransitive(c, m, RunEnd(m, t, false));
    }
  }

  lemma TimerFiresInv(c: Cleanup, t: nat)
    requires Inv(c) && t in c.handles && c.handles[t] <= c.now
    ensures Inv(DeadlineExpired(c, t)) && Evolves(c, DeadlineExpired(c, t))
  {
    hide GroupsExact, HoldsExact, Wakeful, NamesKnown, ShutdownBounds, Evolves, TimersSound, MarksOwned;
    TimedIsTracked(c.tasks, c.handles, c.done + c.timedOut, c.now, t);
    MarkedIsOwned(c.tasks.Keys, c.timedOut, c.runWaiters, c.done, t);
    MarksInv(c, DeadlineExpired(c, t));
  }

  lemma TimedIsTracked(tasks: map<nat, Tracked>, handles: map<nat, int>, marked: set<nat>, now: int, t: nat)
    requires TimersSound(tasks, handles, marked, now) && t in handles
    ensures t in tasks
  {
  }

  lemma MarkedIsOwned(tasks: set<nat>, timedOut: set<nat>, runWaiters: map<nat, nat>, done: set<nat>, t: nat)
    requires MarksOwned(tasks, timedOut, runWaiters, done) && t in tasks
    ensures MarksOwned(tasks, timedOut + {t}, runWaiters, done)
  {
  }

  lemma CloseInv(c: Cleanup, timeout: int)
    requires Inv(c)
    ensures Inv(CloseBegin(c, timeout)) && Evolves(c, CloseBegin(c, timeout))
    ensures Inv(CloseTurn(c)) && Evolves(c, CloseTurn(c))
    ensures Inv(CloseGivesUp(c)) && Evolves(c, CloseGivesUp(c))
  {
    hide GroupsExact, HoldsExact, Wakeful, NamesKnown, TimersSound, ShutdownBounds, Evolves, ShortenAll;
    EvolvesSelf(c);
    if timeout >= 0 {
      ShortenAllInv(c, if c.shutdown.Some? then Min(c.shutdown.value, c.now + timeout) else c.now + timeout);
    }
    if c.shutdown.Some? {
      ShortenAllInv(c, c.shutdown.value);
      MarksInv(c, CloseGivesUp(c));
    }
  }

  lemma ClockInv(c: Cleanup, t: nat, duration: nat)
    requires Inv(c)
    ensures Inv(c.(done := c.done + {t})) && Evolves(c, c.(done := c.done + {t}))
    ensures Inv(c.(now := c.now + duration)) && Evolves(c, c.(now := c.now + duration))
  {
    hide GroupsExact, HoldsExact, Wakeful, NamesKnown, TimersSound, ShutdownBounds, Evolves;
    MarksInv(c, c.(done := c.done + {t}));
    MarksInv(c, c.(now := c.now + duration));
  }

  /** Every action keeps the invariant; unfinished work stays tracked and its deadline never moves later. */
  lemma StepInv(c: Cleanup, a: Action)
    requires Inv(c)
    ensures Inv(Step(c, a)) && Evolves(c, Step(c, a))
  {
    hide Inv, Evolves, Track, RunBegin, RunEnd, TaskFinished, DeadlineExpired, RetainScope, ReleaseHold, WaitTurn, Wake,
      CloseBegin, CloseTurn, CloseGivesUp, KnownIfAny, Known;
    EvolvesSelf(c);
    match a
    case Tracks(t, timeout, current, scope) => if KnownIfAny(c, scope) { TrackInv(c, t, timeout, current, scope); }
    case RunBegins(t, timeout, current, scope) =>
        if KnownIfAny(c, scope) { RunBeginInv(c, t, timeout, current, scope); }
    case RunEnds(t, gaveUp) => RunEndInv(c, t, gaveUp);
    case Finishes(t) => ClockInv(c, t, 0);
    case CalledBack(t) => if t in c.done { TaskFinishedInv(c, t); }
    case TimerFires(t) => if t in c.handles && c.handles[t] <= c.now { TimerFiresInv(c, t); }
    case Retains(held) => if Known(c, held) { RetainInv(c, held); }
    case Releases(h) => ReleaseInv(c, h);
    case WaitBegins(w, g) => if w !in c.sleepers { WaitTurnInv(c, w, g); }
    case Wakes(w) => WakeInv(c, w);
    case WaitCancelled(w) => WaitCancelledInv(c, w);
    case CloseBegins(timeout) => CloseInv(c, timeout);
    case CloseTurns => CloseInv(c, 0);
    case CloseGaveUp => CloseInv(c, 0);
    case TimePasses(duration) => ClockInv(c, 0, duration);
  }

  lemma {:induction false} RunInv(c: Cleanup, actions: seq<Action>)
    requires Inv(c)
    ensures Inv(Run(c, actions)) && Evolves(c, Run(c, actions))
    decreases |actions|
  {
    hide Inv, Evolves, Step;
    EvolvesSelf(c);
    if actions != [] {
      StepInv(c, actions[0]);
      RunInv(Step(c, actions[0]), actions[1..]);
      EvolvesTransitive(c, Step(c, actions[0]), Run(c, actions));
    }
  }

  ghost predicate Reachable(c: Cleanup) {
    exists now, actions :: c == Run(NewCleanup(now), actions)
  }

  lemma ReachableInv(c: Cleanup)
    requires Reachable(c)
    ensures Inv(c)
  {
    var now, actions :| c == Run(NewCleanup(now), actions);
    NewInv(now);
    hide Inv, Evolves, Run;
    RunInv(NewCleanup(now), actions);
  }

  lemma NewInv(now: int)
    ensures Inv(NewCleanup(now))
  {
    var c := NewCleanup(now);
    assert forall g :: HoldersOf(c.holds, g) == {};
  }

  // ----- the theorems -----

  /** Group `g` still has work: a tracked task or a hold that is not released. */
  ghost predicate Busy(c: Cleanup, g: nat) {
    (exists t :: t in c.tasks && g in c.tasks[t].groups)
        || (exists h :: h in c.holds && !c.holds[h].released && g in c.holds[h].groups)
  }

  lemma BusyExactly(c: Cleanup, g: nat)
    requires Inv(c)
    ensures Idle(c, g) <==> !Busy(c, g)
  {
    hide WakefulIn, NamesKnown, TimersSound, MarksOwned, ShutdownBounds;
    assert forall t :: t in TasksOf(c.groupTasks, g) <==> t in c.tasks && g in c.tasks[t].groups;
    if Busy(c, g) && HoldersOf(c.holds, g) == {} {
      assert forall h :: h in c.holds && !c.holds[h].released && g in c.holds[h].groups ==> h in HoldersOf(c.holds, g);
    }
    if HoldersOf(c.holds, g) != {} {
      var h :| h in HoldersOf(c.holds, g);
    }
    if TasksOf(c.groupTasks, g) != {} {
      var t :| t in TasksOf(c.groupTasks, g);
    }
  }

  /** Resuming a waiter returns exactly when its group is idle; otherwise it sleeps on an unset event. */
  lemma WakeOutcome(c: Cleanup, w: nat)
    requires Inv(c) && w in c.sleepers && c.sleepers[w] in c.fired
    ensures var g, d := c.sleepers[w].0, Wake(c, w);
            && (w in d.sleepers <==> !Idle(c, g))
            && (w in d.sleepers ==> d.sleepers[w].0 == g && d.sleepers[w] !in c.fired)
  {
    hide Inv, WaitTurn, Idle, Evolves;
    var event := c.sleepers[w];
    var g := event.0;
    var d := if g in c.groupEvents && c.groupEvents[g] == event then c.(groupEvents := c.groupEvents - {g}) else c;
    if d != c {
      DropEventInv(c, g);
    }
    SameIdle(c, d, g);
    WaitTurnInv(d, w, g);
  }

  lemma SameIdle(c: Cleanup, d: Cleanup, g: nat)
    requires c.groupTasks == d.groupTasks && c.groupHolds == d.groupHolds
    ensures Idle(c, g) == Idle(d, g)
  {
  }

  lemma SleeperFacts(c: Cleanup, w: nat)
    requires Inv(c) && w in c.sleepers
    ensures var e := c.sleepers[w];
            && (e in c.fired || (e.0 in c.groupEvents && c.groupEvents[e.0] == e && !Idle(c, e.0)))
            && (Idle(c, e.0) ==> e in c.fired)
  {
    hide GroupsExact, HoldsExact, NamesKnown, TimersSound, MarksOwned, ShutdownBounds, IdleIn;
  }

  /** No lost wake-up: in every reachable state a sleeping caller of `wait_for_group` either can resume
      or sleeps on the current event of a group that still has work. When it resumes it returns exactly
      if the group has no work left, and else goes back to sleep on an event that is not set. */
  lemma NoLostWakeup(c: Cleanup, w: nat)
    requires Reachable(c) && w in c.sleepers
    ensures var e := c.sleepers[w];
            && (e in c.fired || (e.0 in c.groupEvents && c.groupEvents[e.0] == e && Busy(c, e.0)))
            && (!Busy(c, e.0) ==> e in c.fired)
            && (e in c.fired ==>
                  var d := Step(c, Wakes(w));
                  && (w in d.sleepers <==> Busy(c, e.0))
                  && (w in d.sleepers ==> d.sleepers[w].0 == e.0 && d.sleepers[w] !in c.fired))
  {
    hide Inv, Reachable, Idle, Busy, Wake;
    ReachableInv(c);
    BusyExactly(c, c.sleepers[w].0);
    SleeperFacts(c, w);
    if c.sleepers[w] in c.fired {
      WakeOutcome(c, w);
    }
  }

  /** When a waiter finds its group idle, everything that was ever tracked in the group has finished:
      nothing leaves a group before it is done. */
  lemma IdleGroupIsDone(c: Cleanup, actions: seq<Action>, t: nat, g: nat)
    requires Reachable(c) && t in c.tasks && g in c.tasks[t].groups
    requires Idle(Run(c, actions), g)
    ensures t in Run(c, actions).done
  {
    hide Reachable, Run, Idle, Inv;
    var d := Run(c, actions);
    ReachableInv(c);
    RunInv(c, actions);
    BusyExactly(d, g);
  }

  /** Along every run a deadline never moves later while the task is unfinished. */
  lemma DeadlinesOnlyShrink(c: Cleanup, actions: seq<Action>, t: nat)
    requires Reachable(c) && t in c.tasks && t !in Run(c, actions).done
    ensures var d := Run(c, actions);
            t in d.tasks && d.tasks[t].deadline <= c.tasks[t].deadline && c.tasks[t].groups <= d.tasks[t].groups
  {
    hide Reachable, Run, Inv;
    ReachableInv(c);
    RunInv(c, actions);
  }

  /** Work tracked from inside tracked work, with or without a scope of its own: now and along every later
      run it ends by the deadline of its scope, which is its owner's unless one was given, and the groups
      of that scope wait for it. */
  lemma NestedWorkIsBounded(c: Cleanup, t: nat, timeout: int, owner: nat, scope: Option<Scope>, actions: seq<Action>)
    requires Reachable(c) && owner in c.tasks && timeout > 0 && KnownIfAny(c, scope)
    requires t !in Run(Track(c, t, timeout, Some(owner), scope), actions).done
    ensures var d := Run(Track(c, t, timeout, Some(owner), scope), actions);
            && t in d.tasks
            && d.tasks[t].deadline <= ScopeDeadline(c, owner, scope)
            && (if scope.Some? then scope.value.Ownership() else c.tasks[owner].groups) <= d.tasks[t].groups
  {
    hide Reachable, Run, Inv, Track, Known;
    ReachableInv(c);
    OwnerScope(c, owner);
    TrackInv(c, t, timeout, Some(owner), scope);
    RunInv(Track(c, t, timeout, Some(owner), scope), actions);
  }

  function ScopeDeadline(c: Cleanup, owner: nat, scope: Option<Scope>): int
    requires owner in c.tasks
  {
    if scope.Some? then scope.value.deadline else c.tasks[owner].deadline
  }

  /** New work is bounded by its owner's deadline, whatever its own budget, exactly if its scope is not
      later, or shutdown comes when the owner's deadline does. */
  lemma OwnerBoundsExactly(c: Cleanup, t: nat, owner: nat, scope: Option<Scope>)
    requires Reachable(c) && owner in c.tasks && t !in c.tasks && KnownIfAny(c, scope)
    ensures (forall timeout: nat :: timeout > 0 ==>
               TrackedUntil(c, t, timeout, owner, scope) <= c.tasks[owner].deadline) <==>
              ScopeDeadline(c, owner, scope) <= c.tasks[owner].deadline || c.shutdown == Some(c.tasks[owner].deadline)
  {
    hide Reachable, Inv, Track, Known;
    ReachableInv(c);
    OwnerScope(c, owner);
    OwnerWithinShutdown(c, owner);
    forall timeout: nat | timeout > 0
      ensures TrackedUntil(c, t, timeout, owner, scope) == DeadlineFor(c, timeout, ScopeFor(c, Some(owner), scope))
    {
      TrackedFor(c, t, timeout, owner, scope);
    }
    var ample: nat := Max(1, c.tasks[owner].deadline - c.now + 1);
    assert TrackedUntil(c, t, ample, owner, scope) == DeadlineFor(c, ample, ScopeFor(c, Some(owner), scope));
  }

  /** The deadline that work tracked now gets. */
  function TrackedUntil(c: Cleanup, t: nat, timeout: nat, owner: nat, scope: Option<Scope>): int {
    var d := Track(c, t, timeout, Some(owner), scope);
    if t in d.tasks then d.tasks[t].deadline else 0
  }

  lemma TrackedFor(c: Cleanup, t: nat, timeout: nat, owner: nat, scope: Option<Scope>)
    requires t !in c.tasks && timeout > 0
    ensures TrackedUntil(c, t, timeout, owner, scope) == DeadlineFor(c, timeout, ScopeFor(c, Some(owner), scope))
  {
    hide DeadlineFor, ScopeFor, Joined, Renewed;
  }

  lemma OwnerWithinShutdown(c: Cleanup, owner: nat)
    requires Inv(c) && owner in c.tasks
    ensures c.shutdown.Some? ==> c.tasks[owner].deadline <= c.shutdown.value
  {
    hide GroupsExact, HoldsExact, Wakeful, NamesKnown, TimersSound, MarksOwned;
  }

  lemma OwnerScope(c: Cleanup, owner: nat)
    requires Inv(c) && owner in c.tasks
    ensures CurrentScope(c, Some(owner)).Some?
    ensures CurrentScope(c, Some(owner)).value.Ownership() == c.tasks[owner].groups
    ensures CurrentScope(c, Some(owner)).value.deadline == c.tasks[owner].deadline
  {
    hide GroupsExact, HoldsExact, Wakeful, TimersSound, ShutdownBounds, MarksOwned;
  }

  /** Once `close` has begun, every deadline there is or will be lies within its budget. */
  lemma ShutdownBoundsEverything(c: Cleanup, timeout: nat, actions: seq<Action>)
    requires Reachable(c)
    ensures var d := Run(CloseBegin(c, timeout), actions);
            forall t :: t in d.tasks ==> d.tasks[t].deadline <= c.now + timeout
  {
    ReachableInv(c);
    hide Reachable, Run, Inv, ShortenAll;
    CloseInv(c, timeout);
    var p := CloseBegin(c, timeout);
    RunInv(p, actions);
    assert ShutdownBounds(Run(p, actions).tasks, Run(p, actions).shutdown) by { IsBounded(Run(p, actions)); }
  }

  lemma IsBounded(c: Cleanup)
    requires Inv(c)
    ensures ShutdownBounds(c.tasks, c.shutdown)
  {
  }

  /** In every reachable state a tracked task has a timer armed for its deadline (or due at once), or its
      deadline has passed and, unless it finished, it is marked as timed out; and no mark outlives both
      the task and the callers of `run` that still have to read it. */
  lemma EveryTaskIsTimed(c: Cleanup, t: nat)
    requires Reachable(c)
    ensures t in c.tasks && t in c.handles
            ==> c.handles[t] == c.tasks[t].deadline || c.tasks[t].deadline <= c.handles[t] <= c.now
    ensures t in c.tasks && t !in c.handles ==> c.tasks[t].deadline <= c.now && (t in c.done || t in c.timedOut)
    ensures t in c.handles ==> t in c.tasks
    ensures t in c.timedOut ==> t in c.tasks || (t in c.runWaiters && t in c.done)
  {
    hide GroupsExact, HoldsExact, Wakeful, NamesKnown, ShutdownBounds, Reachable;
    ReachableInv(c);
    if t in c.tasks {
      assert TimerSound(c.tasks[t], Armed(c.handles, t), t in c.done + c.timedOut, c.now);
    }
  }

  /** Hold counts never underflow, and releasing a hold again changes nothing. */
  lemma HoldsNeverUnderflow(now: int, actions: seq<Action>, h: nat)
    ensures var c := Run(NewCleanup(now), actions);
            !c.raised && (h in c.holds && c.holds[h].released ==> Step(c, Releases(h)) == c)
  {
    NewInv(now);
    RunInv(NewCleanup(now), actions);
    hide Run, GroupsExact, HoldsExact, Wakeful, NamesKnown, ShutdownBounds, TimersSound, MarksOwned;
  }
}
