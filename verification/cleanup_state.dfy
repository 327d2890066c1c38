/** The cleanup supervisor (camouflare/cleanup.py): its state and its atomic sections. Tasks, groups,
    events and holds are named by numbers; an event of group `g` is a pair of `g` and a stamp, because
    sections that replace the events of several groups make one new event for each. */
module CleanupState {
  import opened Basics

  /** A `_TrackedCleanup`, without the kind that only metrics read. */
  datatype Tracked = Tracked(startedAt: int, deadline: int, group: nat, groups: set<nat>)

  /** A `CleanupScope`. */
  datatype Scope = Scope(deadline: int, group: nat, groups: set<nat>) {
    function Ownership(): set<nat> {
      if groups == {} then {group} else groups
    }
  }

  /** A `CleanupScopeHold`. */
  datatype Hold = Hold(groups: set<nat>, released: bool)

  type Event = (nat, nat)

  /** `done` (finished tasks), `fired` (events that are set), the holds handed out, the sleeping
      callers of `wait_for_group` and the clock `now` are the supervisor's environment. */
  datatype Cleanup = Cleanup(
    tasks: map<nat, Tracked>,
    handles: map<nat, int>,
    timedOut: set<nat>,
    runWaiters: map<nat, nat>,
    groupTasks: map<nat, set<nat>>,
    groupHolds: map<nat, nat>,
    groupEvents: map<nat, Event>,
    shutdown: Option<int>,
    done: set<nat>,
    fired: set<Event>,
    holds: map<nat, Hold>,
    sleepers: map<nat, Event>,
    raised: bool,
    now: int,
    nextGroup: nat,
    nextEvent: nat,
    nextHold: nat)

  function NewCleanup(now: int): Cleanup {
    Cleanup(map[], map[], {}, map[], map[], map[], map[], None, {}, {}, map[], map[], false, now, 0, 0, 0)
  }

  function TasksOf(groupTasks: map<nat, set<nat>>, g: nat): set<nat> {
    if g in groupTasks then groupTasks[g] else {}
  }

  function HoldsOf(groupHolds: map<nat, nat>, g: nat): nat {
    if g in groupHolds then groupHolds[g] else 0
  }

  predicate IdleIn(groupTasks: map<nat, set<nat>>, groupHolds: map<nat, nat>, g: nat) {
    TasksOf(groupTasks, g) == {} && HoldsOf(groupHolds, g) == 0
  }

  /** What `wait_for_group` waits for. */
  predicate Idle(c: Cleanup, g: nat) {
    IdleIn(c.groupTasks, c.groupHolds, g)
  }

  // ----- groups and their events -----

  /** A group that gains work replaces an event that is already set. */
  function Renewed(groupEvents: map<nat, Event>, fired: set<Event>, groups: set<nat>, stamp: nat): map<nat, Event> {
    map g | g in groupEvents :: if g in groups && groupEvents[g] in fired then (g, stamp) else groupEvents[g]
  }

  function Joined(groupTasks: map<nat, set<nat>>, t: nat, groups: set<nat>): map<nat, set<nat>> {
    groupTasks + map g | g in groups :: TasksOf(groupTasks, g) + {t}
  }

  /** `_add_task_to_group` for each group. */
  function JoinGroups(c: Cleanup, t: nat, groups: set<nat>): Cleanup {
    c.(groupEvents := Renewed(c.groupEvents, c.fired, groups, c.nextEvent),
       nextEvent := c.nextEvent + 1,
       groupTasks := Joined(c.groupTasks, t, groups))
  }

  /** `_finish_group_if_idle` for each group. */
  function FinishIdle(c: Cleanup, groups: set<nat>): Cleanup {
    c.(fired := c.fired + IdleEvents(c.groupTasks, c.groupHolds, c.groupEvents, groups))
  }

  function IdleEvents(groupTasks: map<nat, set<nat>>, groupHolds: map<nat, nat>, groupEvents: map<nat, Event>,
                      groups: set<nat>):
    set<Event>
  {
    set g | g in groups && g in groupEvents && IdleIn(groupTasks, groupHolds, g) :: groupEvents[g]
  }

  /** The group index without task `t`: a group left without tasks goes. */
  function TasksLeft(groupTasks: map<nat, set<nat>>, t: nat, groups: set<nat>): map<nat, set<nat>> {
    map g | g in groupTasks && !(g in groups && groupTasks[g] - {t} == {}) ::
      if g in groups then groupTasks[g] - {t} else groupTasks[g]
  }

  /** The groups in which `t` was the last task. */
  function Emptied(groupTasks: map<nat, set<nat>>, t: nat, groups: set<nat>): set<nat> {
    set g | g in groups && g in groupTasks && groupTasks[g] - {t} == {}
  }

  /** `_group_task_finished` for each group. */
  function LeaveGroups(c: Cleanup, t: nat, groups: set<nat>): Cleanup {
    FinishIdle(c.(groupTasks := TasksLeft(c.groupTasks, t, groups)), Emptied(c.groupTasks, t, groups))
  }

  /** `current_scope`, called from inside task `current`. */
  function CurrentScope(c: Cleanup, current: Option<nat>): Option<Scope> {
    if current.Some? && current.value in c.tasks
    then var t := c.tasks[current.value]; Some(Scope(t.deadline, t.group, t.groups))
    else None
  }

  function HoldsMore(groupHolds: map<nat, nat>, groups: set<nat>): map<nat, nat> {
    groupHolds + map g | g in groups :: HoldsOf(groupHolds, g) + 1
  }

  function RetainScope(c: Cleanup, scope: Scope): Cleanup {
    var groups := scope.Ownership();
    c.(groupEvents := Renewed(c.groupEvents, c.fired, groups, c.nextEvent),
       nextEvent := c.nextEvent + 1,
       groupHolds := HoldsMore(c.groupHolds, groups),
       holds := c.holds[c.nextHold := Hold(groups, false)],
       nextHold := c.nextHold + 1)
  }

  /** The hold counts after one hold of each group in `groups` is gone. */
  function HoldsLeft(groupHolds: map<nat, nat>, groups: set<nat>): map<nat, nat> {
    map g | g in groupHolds && !(g in groups && groupHolds[g] == 1) ::
      if g in groups && groupHolds[g] > 1 then groupHolds[g] - 1 else groupHolds[g]
  }

  /** `CleanupScopeHold.release`. */
  function ReleaseHold(c: Cleanup, h: nat): Cleanup {
    if h !in c.holds || c.holds[h].released then c
    else
      var groups := c.holds[h].groups;
      if exists g :: g in groups && HoldsOf(c.groupHolds, g) == 0 then c.(raised := true)
      else
        FinishIdle(c.(groupHolds := HoldsLeft(c.groupHolds, groups), holds := c.holds[h := Hold(groups, true)]), groups)
  }

  // ----- tracking -----

  /** `_shorten_deadline`: the timer is armed again for the earlier deadline. */
  function Shorten(c: Cleanup, t: nat, deadline: int): Cleanup {
    if t !in c.tasks || c.tasks[t].deadline <= deadline then c
    else c.(tasks := c.tasks[t := c.tasks[t].(deadline := deadline)],
            handles := c.handles[t := Max(c.now, deadline)])
  }

  function ScopeFor(c: Cleanup, current: Option<nat>, scope: Option<Scope>): Option<Scope> {
    if scope.Some? then scope else CurrentScope(c, current)
  }

  /** The deadline of work tracked now: its own budget, its owner's deadline, the shutdown deadline. */
  function DeadlineFor(c: Cleanup, timeout: int, scope: Option<Scope>): int {
    var own := c.now + timeout;
    var nested := if scope.Some? then Min(own, scope.value.deadline) else own;
    if c.shutdown.Some? then Min(nested, c.shutdown.value) else nested
  }

  function TrackAgain(c: Cleanup, t: nat, deadline: int, scope: Option<Scope>): Cleanup
    requires t in c.tasks
  {
    var p := Shorten(c, t, deadline);
    if scope == None || scope.value.Ownership() <= c.tasks[t].groups then p
    else
      var more := scope.value.Ownership() - c.tasks[t].groups;
      JoinGroups(p.(tasks := p.tasks[t := p.tasks[t].(groups := p.tasks[t].groups + more)]), t, more)
  }

  function TrackNew(c: Cleanup, t: nat, deadline: int, scope: Option<Scope>): Cleanup {
    var group := if scope.Some? then scope.value.group else c.nextGroup;
    var groups := if scope.Some? then scope.value.Ownership() else {c.nextGroup};
    JoinGroups(c.(tasks := c.tasks[t := Tracked(c.now, deadline, group, groups)],
                  handles := c.handles[t := Max(c.now, deadline)],
                  nextGroup := c.nextGroup + 1), t, groups)
  }

  /** `track`; a timeout that is not positive is refused. */
  function Track(c: Cleanup, t: nat, timeout: int, current: Option<nat>, scope: Option<Scope>): Cleanup {
    var inherited := ScopeFor(c, current, scope);
    var deadline := DeadlineFor(c, timeout, inherited);
    if timeout <= 0 then c
    else if t in c.tasks then TrackAgain(c, t, deadline, inherited)
    else TrackNew(c, t, deadline, inherited)
  }

  function MarkTimedOut(c: Cleanup, t: nat): Cleanup {
    if t !in c.tasks || t in c.done then c else c.(timedOut := c.timedOut + {t})
  }

  function DeadlineExpired(c: Cleanup, t: nat): Cleanup {
    MarkTimedOut(c.(handles := c.handles - {t}), t)
  }

  /** `_task_finished`. */
  function TaskFinished(c: Cleanup, t: nat): Cleanup {
    if t !in c.tasks then c
    else
      var waited := t in c.runWaiters && c.runWaiters[t] != 0;
      LeaveGroups(c.(tasks := c.tasks - {t}, handles := c.handles - {t},
                     timedOut := if waited then c.timedOut else c.timedOut - {t}),
                  t, c.tasks[t].groups)
  }

  function RunBegin(c: Cleanup, t: nat, timeout: int, current: Option<nat>, scope: Option<Scope>): Cleanup {
    if timeout <= 0 then c
    else
      var p := Track(c, t, timeout, current, scope);
      p.(runWaiters := p.runWaiters[t := (if t in p.runWaiters then p.runWaiters[t] else 0) + 1])
  }

  /** `run` resumes: it gave the task up, or saw it finish, or is itself cancelled. */
  function RunEnd(c: Cleanup, t: nat, gaveUp: bool): Cleanup {
    if t !in c.runWaiters then c
    else
      var p := if gaveUp then MarkTimedOut(c, t) else c;
      if p.runWaiters[t] > 1 then p.(runWaiters := p.runWaiters[t := p.runWaiters[t] - 1])
      else p.(runWaiters := p.runWaiters - {t}, timedOut := if t in p.done then p.timedOut - {t} else p.timedOut)
  }

  // ----- waiting for a group -----

  /** The test of the loop of `wait_for_group`: sleep on the group's event, or return. */
  function WaitTurn(c: Cleanup, w: nat, g: nat): Cleanup {
    if Idle(c, g) then c.(sleepers := c.sleepers - {w})
    else
      var event := if g in c.groupEvents then c.groupEvents[g] else (g, c.nextEvent);
      c.(groupEvents := c.groupEvents[g := event], nextEvent := c.nextEvent + 1, sleepers := c.sleepers[w := event])
  }

  /** A sleeper whose event is set resumes. */
  function Wake(c: Cleanup, w: nat): Cleanup {
    if w !in c.sleepers || c.sleepers[w] !in c.fired then c
    else
      var event := c.sleepers[w];
      var g := event.0;
      WaitTurn(if g in c.groupEvents && c.groupEvents[g] == event then c.(groupEvents := c.groupEvents - {g})
          else c, w, g)
  }

  // ----- shutdown -----

  /** `_shorten_deadline` for every tracked task. */
  function ShortenAll(c: Cleanup, deadline: int): Cleanup {
    c.(tasks := map t | t in c.tasks :: c.tasks[t].(deadline := Min(c.tasks[t].deadline, deadline)),
       handles := map t | t in c.handles.Keys + c.tasks.Keys && (t in c.handles || c.tasks[t].deadline > deadline) ::
                    if t in c.tasks && c.tasks[t].deadline > deadline then Max(c.now, deadline) else c.handles[t])
  }

  /** `close` up to its first wait. */
  function CloseBegin(c: Cleanup, timeout: int): Cleanup {
    if timeout < 0 then c
    else
      var limit := if c.shutdown.Some? then Min(c.shutdown.value, c.now + timeout) else c.now + timeout;
      ShortenAll(c.(shutdown := Some(limit)), limit)
  }

  /** A later turn of the loop of `close`. */
  function CloseTurn(c: Cleanup): Cleanup {
    if c.shutdown == None then c else ShortenAll(c, c.shutdown.value)
  }

  /** The shutdown deadline has passed: everything still running counts as timed out. */
  function CloseGivesUp(c: Cleanup): Cleanup {
    if c.shutdown == None || c.now < c.shutdown.value then c
    else c.(timedOut := c.timedOut + set t | t in c.tasks && t !in c.done)
  }
}
