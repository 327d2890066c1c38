/** The cleanup supervisor as the object it is, updated in place: each method is one atomic section of
    camouflare/cleanup.py and is proved to be the function of that name in CleanupState. */
module CleanupSupervisors {
  import opened Basics
  import opened CleanupState
  import opened CleanupRuns

  class CleanupSupervisor {
    var tasks: map<nat, Tracked>
    var handles: map<nat, int>
    var timedOut: set<nat>
    var runWaiters: map<nat, nat>
    var groupTasks: map<nat, set<nat>>
    var groupHolds: map<nat, nat>
    var groupEvents: map<nat, Event>
    var shutdown: Option<int>
    var done: set<nat>
    var fired: set<Event>
    var holds: map<nat, Hold>
    var sleepers: map<nat, Event>
    var now: int
    var nextGroup: nat
    var nextEvent: nat
    var nextHold: nat

    ghost function State(): Cleanup
      reads this
    {
      Cleanup(tasks, handles, timedOut, runWaiters, groupTasks, groupHolds, groupEvents, shutdown, done, fired, holds,
              sleepers, false, now, nextGroup, nextEvent, nextHold)
    }

    constructor (now: int)
      ensures State() == NewCleanup(now)
    {
      tasks, handles, timedOut, runWaiters := map[], map[], {}, map[];
      groupTasks, groupHolds, groupEvents, shutdown := map[], map[], map[], None;
      done, fired, holds, sleepers := {}, {}, map[], map[];
      this.now, nextGroup, nextEvent, nextHold := now, 0, 0, 0;
    }

    // ----- groups -----

    /** A group that gains work must not keep an event that is already set. */
    method RenewEvent(g: nat)
      modifies this`groupEvents
      ensures groupEvents == Renewed(old(groupEvents), fired, {g}, nextEvent)
    {
      if g in groupEvents && groupEvents[g] in fired {
        groupEvents := groupEvents[g := (g, nextEvent)];
      }
    }

    /** `_add_task_to_group`. */
    method AddTaskToGroup(g: nat, t: nat)
      modifies this`groupEvents, this`groupTasks
      ensures groupEvents == Renewed(old(groupEvents), fired, {g}, nextEvent)
      ensures groupTasks == Joined(old(groupTasks), t, {g})
    {
      RenewEvent(g);
      groupTasks := groupTasks[g := TasksOf(groupTasks, g) + {t}];
    }

    method AddTaskToGroups(t: nat, groups: set<nat>)
      modifies this`groupEvents, this`groupTasks, this`nextEvent
      ensures State() == JoinGroups(old(State()), t, groups)
    {
      hide Renewed, Joined;
      JoinedNone(groupTasks, groupEvents, fired, t, nextEvent);
      var todo := groups;
      assert groups - todo == {};
      while todo != {}
        invariant todo <= groups && nextEvent == old(nextEvent)
        invariant groupEvents == Renewed(old(groupEvents), fired, groups - todo, nextEvent)
        invariant groupTasks == Joined(old(groupTasks), t, groups - todo)
        decreases |todo|
      {
        var g :| g in todo;
        assert groups - (todo - {g}) == (groups - todo) + {g};
        RenewedMore(old(groupEvents), fired, groups - todo, g, nextEvent);
        JoinedMore(old(groupTasks), t, groups - todo, g);
        AddTaskToGroup(g, t);
        todo := todo - {g};
      }
      assert groups - todo == groups;
      nextEvent := nextEvent + 1;
    }

    /** `_finish_group_if_idle`. */
    method FinishGroupIfIdle(g: nat)
      modifies this`fired
      ensures fired == old(fired) + IdleEvents(groupTasks, groupHolds, groupEvents, {g})
    {
      if TasksOf(groupTasks, g) != {} || HoldsOf(groupHolds, g) > 0 {
        return;
      }
      if g in groupEvents {
        fired := fired + {groupEvents[g]};
      }
    }

    /** `_group_task_finished`. */
    method GroupTaskFinished(g: nat, t: nat)
      requires NoEmpty(groupTasks)
      modifies this`fired, this`groupTasks
      ensures groupTasks == TasksLeft(old(groupTasks), t, {g})
      ensures fired == old(fired) + if g in old(groupTasks) && g !in groupTasks
              then IdleEvents(groupTasks, groupHolds, groupEvents, {g}) else {}
    {
      if g !in groupTasks {
        return;
      }
      var left := groupTasks[g] - {t};
      if left != {} {
        groupTasks := groupTasks[g := left];
      } else {
        groupTasks := groupTasks - {g};
        FinishGroupIfIdle(g);
      }
    }

    method LeaveEach(t: nat, groups: set<nat>)
      requires NoEmpty(groupTasks)
      modifies this`fired, this`groupTasks
      ensures groupTasks == TasksLeft(old(groupTasks), t, groups)
      ensures fired == old(fired) + IdleEvents(groupTasks, groupHolds, groupEvents, Emptied(old(groupTasks), t, groups))
    {
      hide IdleEvents, TasksLeft, Emptied, IdleIn, TasksOf, HoldsOf, NoEmpty;
      ghost var before := groupTasks;
      NoneLeft(groupTasks, groupHolds, groupEvents, t);
      ghost var events: set<Event> := {};
      var todo := groups;
      assert groups - todo == {};
      while todo != {}
        invariant todo <= groups
        invariant groupTasks == TasksLeft(before, t, groups - todo)
        invariant events == IdleEvents(groupTasks, groupHolds, groupEvents, Emptied(before, t, groups - todo))
        invariant fired == old(fired) + events
        decreases |todo|
      {
        var g :| g in todo;
        ghost var seen, partial, already := groups - todo, groupTasks, fired;
        assert groups - (todo - {g}) == seen + {g};
        LeftMore(before, t, seen, g);
        GroupTaskFinished(g, t);
        EventsMore(before, partial, groupHolds, groupEvents, t, seen, g);
        ghost var more := if g in partial && g !in groupTasks then IdleEvents(groupTasks, groupHolds, groupEvents, {g})
            else {};
        assert fired == already + more;
        events := events + more;
        todo := todo - {g};
      }
      assert groups - todo == groups;
    }

    method LeaveAll(t: nat, groups: set<nat>)
      requires NoEmpty(groupTasks)
      modifies this`fired, this`groupTasks
      ensures State() == LeaveGroups(old(State()), t, groups)
    {
      hide IdleEvents, TasksLeft, Emptied;
      LeaveEach(t, groups);
    }

    // ----- holds -----

    method RetainGroups(groups: set<nat>)
      modifies this`groupEvents, this`groupHolds
      ensures groupEvents == Renewed(old(groupEvents), fired, groups, nextEvent)
      ensures groupHolds == HoldsMore(old(groupHolds), groups)
    {
      hide Renewed, HoldsMore;
      RetainedNone(groupHolds, groupEvents, fired, nextEvent);
      var todo := groups;
      assert groups - todo == {};
      while todo != {}
        invariant todo <= groups
        invariant groupEvents == Renewed(old(groupEvents), fired, groups - todo, nextEvent)
        invariant groupHolds == HoldsMore(old(groupHolds), groups - todo)
        decreases |todo|
      {
        var g :| g in todo;
        assert groups - (todo - {g}) == (groups - todo) + {g};
        RenewedMore(old(groupEvents), fired, groups - todo, g, nextEvent);
        RetainedMore(old(groupHolds), groups - todo, g);
        RenewEvent(g);
        groupHolds := groupHolds[g := HoldsOf(groupHolds, g) + 1];
        todo := todo - {g};
      }
      assert groups - todo == groups;
    }

    method AddHold(groups: set<nat>) returns (h: nat)
      modifies this`holds, this`nextHold, this`nextEvent
      ensures h == old(nextHold)
      ensures State() == old(State()).(holds := old(holds)[h := Hold(groups, false)], nextHold := h + 1,
              nextEvent := old(nextEvent) + 1)
    {
      h := nextHold;
      holds := holds[h := Hold(groups, false)];
      nextHold := nextHold + 1;
      nextEvent := nextEvent + 1;
    }

    /** `retain_scope`. */
    method RetainScope(scope: Scope) returns (h: nat)
      requires Inv(State()) && Known(State(), scope)
      modifies this`groupEvents, this`groupHolds, this`nextEvent, this`holds, this`nextHold
      ensures Inv(State()) && State() == CleanupState.RetainScope(old(State()), scope) && h == old(nextHold)
    {
      hide Inv, Known, Renewed, HoldsMore;
      RetainInv(State(), scope);
      RetainGroups(scope.Ownership());
      h := AddHold(scope.Ownership());
    }

    /** `_release_scope_hold`; the source raises when the group is not held. */
    method ReleaseScopeHold(g: nat)
      requires HoldsOf(groupHolds, g) > 0
      modifies this`groupHolds, this`fired
      ensures groupHolds == HoldsLeft(old(groupHolds), {g})
      ensures fired == old(fired) + IdleEvents(groupTasks, groupHolds, groupEvents, {g})
    {
      hide IdleEvents;
      if groupHolds[g] == 1 {
        groupHolds := groupHolds - {g};
      } else {
        groupHolds := groupHolds[g := groupHolds[g] - 1];
      }
      FinishGroupIfIdle(g);
    }

    method ReleaseGroups(groups: set<nat>)
      requires forall g :: g in groups ==> HoldsOf(groupHolds, g) > 0
      modifies this`groupHolds, this`fired
      ensures groupHolds == HoldsLeft(old(groupHolds), groups)
      ensures fired == old(fired) + IdleEvents(groupTasks, groupHolds, groupEvents, groups)
    {
      hide IdleEvents, HoldsLeft, HoldsOf;
      ghost var before := groupHolds;
      NoneReleased(groupTasks, groupHolds, groupEvents);
      ghost var events: set<Event> := {};
      var todo := groups;
      assert groups - todo == {};
      while todo != {}
        invariant todo <= groups
        invariant groupHolds == HoldsLeft(before, groups - todo)
        invariant events == IdleEvents(groupTasks, groupHolds, groupEvents, groups - todo)
        invariant fired == old(fired) + events
        decreases |todo|
      {
        var g :| g in todo;
        ghost var seen, partial, already := groups - todo, groupHolds, fired;
        assert groups - (todo - {g}) == seen + {g};
        ReleasedMore(groupTasks, before, groupEvents, seen, g);
        ReleaseScopeHold(g);
        ghost var more := IdleEvents(groupTasks, groupHolds, groupEvents, {g});
        assert fired == already + more;
        events := events + more;
        todo := todo - {g};
      }
      assert groups - todo == groups;
    }

    method MarkReleased(h: nat)
      requires h in holds
      modifies this`holds
      ensures State() == old(State()).(holds := old(holds)[h := Hold(old(holds)[h].groups, true)])
    {
      holds := holds[h := Hold(holds[h].groups, true)];
    }

    /** `CleanupScopeHold.release`: the second release of a hold does nothing. */
    method ReleaseHold(h: nat)
      requires Inv(State()) && h in holds
      modifies this`holds, this`groupHolds, this`fired
      ensures Inv(State()) && State() == CleanupState.ReleaseHold(old(State()), h)
    {
      hide Inv, IdleEvents, HoldsLeft, HoldsOf;
      ReleaseInv(State(), h);
      if holds[h].released {
        return;
      }
      HeldGroups(State(), h);
      MarkReleased(h);
      ReleaseGroups(holds[h].groups);
    }

    // ----- tracking -----

    /** `current_scope` inside task `current`. */
    function CurrentScope(current: Option<nat>): (scope: Option<Scope>)
      reads this
      ensures scope == CleanupState.CurrentScope(State(), current)
    {
      if current.Some? && current.value in tasks
      then Some(Scope(tasks[current.value].deadline, tasks[current.value].group, tasks[current.value].groups))
      else None
    }

    /** `_shorten_deadline`. */
    method ShortenDeadline(t: nat, deadline: int)
      modifies this`tasks, this`handles
      ensures State() == Shorten(old(State()), t, deadline)
    {
      if t !in tasks || tasks[t].deadline <= deadline {
        return;
      }
      tasks := tasks[t := tasks[t].(deadline := deadline)];
      handles := handles[t := Max(now, deadline)];
    }

    method TrackAgain(t: nat, deadline: int, inherited: Option<Scope>)
      requires t in tasks
      modifies this`tasks, this`handles, this`groupEvents, this`groupTasks, this`nextEvent
      ensures State() == CleanupState.TrackAgain(old(State()), t, deadline, inherited)
    {
      hide Shorten, JoinGroups;
      ShortenKeeps(State(), t, deadline);
      ShortenDeadline(t, deadline);
      if inherited.Some? && !(inherited.value.Ownership() <= tasks[t].groups) {
        var more := inherited.value.Ownership() - tasks[t].groups;
        tasks := tasks[t := tasks[t].(groups := tasks[t].groups + more)];
        AddTaskToGroups(t, more);
      }
    }

    method AddEntry(t: nat, tracked: Tracked)
      modifies this`tasks, this`handles, this`nextGroup
      ensures State() == old(State()).(tasks := old(tasks)[t := tracked],
                                       handles := old(handles)[t := Max(now, tracked.deadline)],
                                       nextGroup := old(nextGroup) + 1)
    {
      tasks := tasks[t := tracked];
      handles := handles[t := Max(now, tracked.deadline)];
      nextGroup := nextGroup + 1;
    }

    method TrackNew(t: nat, deadline: int, inherited: Option<Scope>)
      modifies this`tasks, this`handles, this`groupEvents, this`groupTasks, this`nextEvent, this`nextGroup
      ensures State() == CleanupState.TrackNew(old(State()), t, deadline, inherited)
    {
      hide JoinGroups;
      var group := if inherited.Some? then inherited.value.group else nextGroup;
      var groups := if inherited.Some? then inherited.value.Ownership() else {nextGroup};
      AddEntry(t, Tracked(now, deadline, group, groups));
      AddTaskToGroups(t, groups);
    }

    /** `track`: false when the timeout is refused. */
    method Track(t: nat, timeout: int, current: Option<nat>, scope: Option<Scope>) returns (accepted: bool)
      requires Inv(State()) && KnownIfAny(State(), scope)
      modifies this`tasks, this`handles, this`groupEvents, this`groupTasks, this`nextEvent, this`nextGroup
      ensures Inv(State()) && accepted == (timeout > 0)
      ensures State() == CleanupState.Track(old(State()), t, timeout, current, scope)
    {
      hide Inv, KnownIfAny, CleanupState.TrackAgain, CleanupState.TrackNew;
      TrackInv(State(), t, timeout, current, scope);
      if timeout <= 0 {
        return false;
      }
      var deadline := now + timeout;
      var inherited := if scope.Some? then scope else CurrentScope(current);
      if inherited.Some? {
        deadline := Min(deadline, inherited.value.deadline);
      }
      if shutdown.Some? {
        deadline := Min(deadline, shutdown.value);
      }
      if t in tasks {
        TrackAgain(t, deadline, inherited);
      } else {
        TrackNew(t, deadline, inherited);
      }
      return true;
    }

    /** `_mark_timed_out`. */
    method MarkTimedOut(t: nat)
      modifies this`timedOut
      ensures State() == CleanupState.MarkTimedOut(old(State()), t)
    {
      if t !in tasks || t in done || t in timedOut {
        assert t in timedOut ==> timedOut + {t} == timedOut;
        return;
      }
      timedOut := timedOut + {t};
    }

    /** `_deadline_expired`. */
    method DeadlineExpired(t: nat)
      requires Inv(State()) && t in handles && handles[t] <= now
      modifies this`handles, this`timedOut
      ensures Inv(State()) && State() == CleanupState.DeadlineExpired(old(State()), t)
    {
      hide Inv;
      TimerFiresInv(State(), t);
      handles := handles - {t};
      MarkTimedOut(t);
    }

    method DropEntry(t: nat)
      modifies this`tasks, this`handles, this`timedOut
      ensures var waited := t in runWaiters && runWaiters[t] != 0;
              State() == old(State()).(tasks := old(tasks) - {t}, handles := old(handles) - {t},
                                       timedOut := if waited then old(timedOut) else old(timedOut) - {t})
    {
      tasks := tasks - {t};
      handles := handles - {t};
      if !(t in runWaiters && runWaiters[t] != 0) {
        timedOut := timedOut - {t};
      }
    }

    /** `_task_finished`. */
    method TaskFinished(t: nat)
      requires Inv(State()) && t in done
      modifies this`tasks, this`handles, this`timedOut, this`groupTasks, this`fired
      ensures Inv(State()) && State() == CleanupState.TaskFinished(old(State()), t)
    {
      hide Inv, LeaveGroups;
      TaskFinishedInv(State(), t);
      if t !in tasks {
        return;
      }
      NoEmptyGroups(State());
      var groups := tasks[t].groups;
      DropEntry(t);
      LeaveAll(t, groups);
    }

    /** `run` up to its wait. */
    method RunBegin(t: nat, timeout: int, current: Option<nat>, scope: Option<Scope>)
      requires Inv(State()) && KnownIfAny(State(), scope)
      modifies this`tasks, this`handles, this`groupEvents, this`groupTasks, this`nextEvent, this`nextGroup,
        this`runWaiters
      ensures Inv(State()) && State() == CleanupState.RunBegin(old(State()), t, timeout, current, scope)
    {
      hide Inv, KnownIfAny, CleanupState.Track;
      RunBeginInv(State(), t, timeout, current, scope);
      if timeout > 0 {
        var _ := Track(t, timeout, current, scope);
        runWaiters := runWaiters[t := (if t in runWaiters then runWaiters[t] else 0) + 1];
      }
    }

    method DropRunner(t: nat)
      requires t in runWaiters
      modifies this`timedOut, this`runWaiters
      ensures State() == CleanupState.RunEnd(old(State()), t, false)
    {
      if runWaiters[t] > 1 {
        runWaiters := runWaiters[t := runWaiters[t] - 1];
      } else {
        runWaiters := runWaiters - {t};
        if t in done {
          timedOut := timedOut - {t};
        }
      }
    }

    /** The end of `run`, with the mark it leaves when it gives the task up. */
    method RunEnd(t: nat, gaveUp: bool)
      requires Inv(State()) && t in runWaiters
      modifies this`timedOut, this`runWaiters
      ensures Inv(State()) && State() == CleanupState.RunEnd(old(State()), t, gaveUp)
    {
      hide Inv;
      RunEndInv(State(), t, gaveUp);
      if gaveUp {
        MarkTimedOut(t);
      }
      DropRunner(t);
    }

    // ----- waiting for a group -----

    /** One test of the loop of `wait_for_group`: true when it returns. */
    method WaitTurn(w: nat, g: nat) returns (returned: bool)
      modifies this`groupEvents, this`nextEvent, this`sleepers
      ensures State() == CleanupState.WaitTurn(old(State()), w, g) && returned == Idle(old(State()), g)
    {
      if TasksOf(groupTasks, g) == {} && HoldsOf(groupHolds, g) == 0 {
        sleepers := sleepers - {w};
        return true;
      }
      SleepOnEvent(w, g, if g in groupEvents then groupEvents[g] else (g, nextEvent));
      return false;
    }

    method SleepOnEvent(w: nat, g: nat, event: Event)
      modifies this`groupEvents, this`nextEvent, this`sleepers
      ensures State() == old(State()).(groupEvents := old(groupEvents)[g := event], nextEvent := old(nextEvent) + 1,
              sleepers := old(sleepers)[w := event])
    {
      groupEvents := groupEvents[g := event];
      sleepers := sleepers[w := event];
      nextEvent := nextEvent + 1;
    }

    /** `wait_for_group` resumes from its sleep. */
    method Wake(w: nat) returns (returned: bool)
      requires Inv(State()) && w in sleepers && sleepers[w] in fired
      modifies this`groupEvents, this`nextEvent, this`sleepers
      ensures Inv(State()) && State() == CleanupState.Wake(old(State()), w)
      ensures returned <==> !Busy(old(State()), old(sleepers)[w].0)
    {
      hide Inv, CleanupState.WaitTurn, Idle, Busy;
      WakeInv(State(), w);
      var event := sleepers[w];
      var g := event.0;
      BusyExactly(State(), g);
      ghost var before := State();
      if g in groupEvents && groupEvents[g] == event {
        groupEvents := groupEvents - {g};
      }
      SameIdle(before, State(), g);
      returned := WaitTurn(w, g);
    }

    // ----- shutdown -----

    /** One pass of the loop of `close` over the tracked tasks. */
    method ShortenEach(limit: int)
      requires forall t :: t in handles ==> t in tasks
      modifies this`tasks, this`handles
      ensures State() == ShortenAll(old(State()), limit)
    {
      hide State, Shorten, ShortenAll, PartlyShortened;
      ghost var before := State();
      StateTimers();
      var todo := tasks.Keys;
      NoneShortened(before, limit);
      while todo != {}
        invariant todo <= tasks.Keys && PartlyShortened(before, tasks, handles, todo, limit)
        decreases |todo|
      {
        var t :| t in todo;
        StateTimers();
        ghost var partial := State();
        ShortenDeadline(t, limit);
        StateTimers();
        OneMoreShortened(before, partial, t, todo, limit);
        todo := todo - {t};
      }
      AllShortened(before, tasks, handles, limit);
      ShortenedState(limit);
    }

    lemma StateTimers()
      ensures State().tasks == tasks && State().handles == handles && State().now == now
    {
    }

    twostate lemma ShortenedState(limit: int)
      requires unchanged(`timedOut, `runWaiters, `groupTasks, `groupHolds, `groupEvents, `shutdown, `done, `fired,
                         `holds, `sleepers, `now, `nextGroup, `nextEvent, `nextHold)
      requires tasks.Keys == old(tasks).Keys
               && forall t :: t in tasks ==> ShortenedTo(old(State()), tasks, handles, t, limit)
      requires forall t :: t in old(handles) || t in handles ==> t in tasks
      ensures State() == ShortenAll(old(State()), limit)
    {
      ShortenedAll(old(State()), State(), limit);
    }

    method SetShutdown(deadline: int)
      modifies this`shutdown
      ensures State() == old(State()).(shutdown :=
              Some(if old(shutdown).Some? then Min(old(shutdown).value, deadline) else deadline))
    {
      shutdown := Some(if shutdown.Some? then Min(shutdown.value, deadline) else deadline);
    }

    /** `close` up to its first wait. */
    method CloseBegin(timeout: int)
      requires Inv(State()) && timeout >= 0
      modifies this`shutdown, this`tasks, this`handles
      ensures Inv(State()) && State() == CleanupState.CloseBegin(old(State()), timeout)
    {
      hide Inv, ShortenAll;
      CloseInv(State(), timeout);
      TimersTracked(State());
      SetShutdown(now + timeout);
      ShortenEach(shutdown.value);
    }

    method CloseTurn()
      requires Inv(State()) && shutdown.Some?
      modifies this`tasks, this`handles
      ensures Inv(State()) && State() == CleanupState.CloseTurn(old(State()))
    {
      hide Inv, ShortenAll;
      CloseInv(State(), 0);
      TimersTracked(State());
      ShortenEach(shutdown.value);
    }
  }

  lemma JoinedNone(groupTasks: map<nat, set<nat>>, groupEvents: map<nat, Event>, fired: set<Event>, t: nat, stamp: nat)
    ensures Joined(groupTasks, t, {}) == groupTasks && Renewed(groupEvents, fired, {}, stamp) == groupEvents
  {
  }

  lemma RenewedMore(groupEvents: map<nat, Event>, fired: set<Event>, seen: set<nat>, g: nat, stamp: nat)
    requires g !in seen
    ensures Renewed(Renewed(groupEvents, fired, seen, stamp), fired, {g}, stamp)
            == Renewed(groupEvents, fired, seen + {g}, stamp)
  {
  }

  lemma JoinedMore(groupTasks: map<nat, set<nat>>, t: nat, seen: set<nat>, g: nat)
    requires g !in seen
    ensures Joined(Joined(groupTasks, t, seen), t, {g}) == Joined(groupTasks, t, seen + {g})
  {
  }

  ghost predicate NoEmpty(groupTasks: map<nat, set<nat>>) {
    forall g :: g in groupTasks ==> groupTasks[g] != {}
  }

  lemma NoneLeft(groupTasks: map<nat, set<nat>>, groupHolds: map<nat, nat>, groupEvents: map<nat, Event>, t: nat)
    ensures TasksLeft(groupTasks, t, {}) == groupTasks
    ensures IdleEvents(groupTasks, groupHolds, groupEvents, Emptied(groupTasks, t, {})) == {}
  {
  }

  lemma LeftMore(groupTasks: map<nat, set<nat>>, t: nat, seen: set<nat>, g: nat)
    requires g !in seen && NoEmpty(groupTasks)
    ensures TasksLeft(TasksLeft(groupTasks, t, seen), t, {g}) == TasksLeft(groupTasks, t, seen + {g})
    ensures NoEmpty(TasksLeft(groupTasks, t, seen))
  {
  }

  /** One more group left: its event is set if that made it idle, and no other group is affected. */
  lemma EventsMore(before: map<nat, set<nat>>, partial: map<nat, set<nat>>, groupHolds: map<nat, nat>,
                   groupEvents: map<nat, Event>, t: nat, seen: set<nat>, g: nat)
    requires g !in seen && partial == TasksLeft(before, t, seen)
    requires NoEmpty(before)
    ensures var after := TasksLeft(before, t, seen + {g});
            IdleEvents(partial, groupHolds, groupEvents, Emptied(before, t, seen))
            + (if g in partial && g !in after then IdleEvents(after, groupHolds, groupEvents, {g}) else {})
            == IdleEvents(after, groupHolds, groupEvents, Emptied(before, t, seen + {g}))
  {
    var after := TasksLeft(before, t, seen + {g});
    assert forall x :: x != g ==> TasksOf(after, x) == TasksOf(partial, x);
    assert g in partial <==> g in before;
    assert g in after <==> g in before && before[g] - {t} != {};
  }

  lemma RetainedNone(groupHolds: map<nat, nat>, groupEvents: map<nat, Event>, fired: set<Event>, stamp: nat)
    ensures HoldsMore(groupHolds, {}) == groupHolds && Renewed(groupEvents, fired, {}, stamp) == groupEvents
  {
  }

  lemma RetainedMore(groupHolds: map<nat, nat>, seen: set<nat>, g: nat)
    requires g !in seen
    ensures var partial := HoldsMore(groupHolds, seen);
            partial[g := HoldsOf(partial, g) + 1] == HoldsMore(groupHolds, seen + {g})
  {
  }

  lemma NoneReleased(groupTasks: map<nat, set<nat>>, groupHolds: map<nat, nat>, groupEvents: map<nat, Event>)
    ensures HoldsLeft(groupHolds, {}) == groupHolds
    ensures IdleEvents(groupTasks, groupHolds, groupEvents, {}) == {}
  {
  }

  lemma ReleasedMore(groupTasks: map<nat, set<nat>>, before: map<nat, nat>, groupEvents: map<nat, Event>,
                     seen: set<nat>, g: nat)
    requires g !in seen && HoldsOf(before, g) > 0
    ensures var partial, after := HoldsLeft(before, seen), HoldsLeft(before, seen + {g});
            && HoldsOf(partial, g) > 0 && HoldsLeft(partial, {g}) == after
            && IdleEvents(groupTasks, partial, groupEvents, seen) + IdleEvents(groupTasks, after, groupEvents, {g})
               == IdleEvents(groupTasks, after, groupEvents, seen + {g})
  {
    var partial, after := HoldsLeft(before, seen), HoldsLeft(before, seen + {g});
    assert HoldsLeft(partial, {g}) == after;
    assert forall x :: x != g ==> HoldsOf(partial, x) == HoldsOf(after, x);
  }

  lemma HeldGroups(c: Cleanup, h: nat)
    requires Inv(c) && h in c.holds && !c.holds[h].released
    ensures forall g :: g in c.holds[h].groups ==> HoldsOf(c.groupHolds, g) > 0
  {
    hide Wakeful, GroupsExact, TimersSound, NamesKnown;
    ReleaseHolders(c.holds, c.groupHolds, h);
  }

  lemma ShortenKeeps(c: Cleanup, t: nat, deadline: int)
    requires t in c.tasks
    ensures t in Shorten(c, t, deadline).tasks && Shorten(c, t, deadline).tasks[t].groups == c.tasks[t].groups
  {
  }

  lemma NoEmptyGroups(c: Cleanup)
    requires Inv(c)
    ensures NoEmpty(c.groupTasks)
  {
    hide Wakeful, HoldsExact, TimersSound, NamesKnown;
  }

  lemma TimersTracked(c: Cleanup)
    requires Inv(c)
    ensures forall t :: t in c.handles ==> t in c.tasks
  {
    hide Wakeful, HoldsExact, GroupsExact, NamesKnown;
  }

  /** Task `t` has been brought within the limit. */
  ghost predicate ShortenedTo(c: Cleanup, tasks: map<nat, Tracked>, handles: map<nat, int>, t: nat, limit: int) {
    && t in c.tasks && t in tasks
    && tasks[t] == c.tasks[t].(deadline := Min(c.tasks[t].deadline, limit))
    && Armed(handles, t) == if c.tasks[t].deadline > limit then Some(Max(c.now, limit)) else Armed(c.handles, t)
  }

  /** The loop over the tracked tasks has reached all of them but `todo`. */
  ghost predicate PartlyShortened(c: Cleanup, tasks: map<nat, Tracked>, handles: map<nat, int>, todo: set<nat>,
                                  limit: int) {
    && tasks.Keys == c.tasks.Keys
    && (forall t :: t in todo && t in tasks ==> tasks[t] == c.tasks[t] && Armed(handles, t) == Armed(c.handles, t))
    && (forall t :: t in tasks && t !in todo ==> ShortenedTo(c, tasks, handles, t, limit))
    && (forall t :: t in handles ==> t in tasks)
  }

  lemma NoneShortened(c: Cleanup, limit: int)
    requires forall t :: t in c.handles ==> t in c.tasks
    ensures PartlyShortened(c, c.tasks, c.handles, c.tasks.Keys, limit)
  {
  }

  lemma OneMoreShortened(c: Cleanup, partial: Cleanup, t: nat, todo: set<nat>, limit: int)
    requires PartlyShortened(c, partial.tasks, partial.handles, todo, limit) && t in todo && t in partial.tasks
    requires partial.now == c.now
    ensures var d := Shorten(partial, t, limit);
            PartlyShortened(c, d.tasks, d.handles, todo - {t}, limit) && d.tasks.Keys == partial.tasks.Keys
  {
    hide Shorten;
    ShortenEffect(partial, t, limit);
  }

  lemma AllShortened(c: Cleanup, tasks: map<nat, Tracked>, handles: map<nat, int>, limit: int)
    requires PartlyShortened(c, tasks, handles, {}, limit)
    ensures tasks.Keys == c.tasks.Keys && forall t :: t in tasks ==> ShortenedTo(c, tasks, handles, t, limit)
    ensures forall t :: t in handles ==> t in tasks
  {
  }

  lemma ShortenEffect(c: Cleanup, t: nat, limit: int)
    requires t in c.tasks
    ensures var d := Shorten(c, t, limit);
            && d.tasks.Keys == c.tasks.Keys && ShortenedTo(c, d.tasks, d.handles, t, limit)
            && (forall x :: x in c.tasks && x != t ==>
                  d.tasks[x] == c.tasks[x] && Armed(d.handles, x) == Armed(c.handles, x))
            && (forall x :: x in d.handles ==> x in c.handles || x == t)
  {
  }

  lemma ShortenedAll(c: Cleanup, d: Cleanup, limit: int)
    requires d == c.(tasks := d.tasks, handles := d.handles) && d.tasks.Keys == c.tasks.Keys
    requires forall t :: t in d.tasks ==> ShortenedTo(c, d.tasks, d.handles, t, limit)
    requires forall t :: t in c.handles || t in d.handles ==> t in c.tasks
    ensures d == ShortenAll(c, limit)
  {
    var e := ShortenAll(c, limit);
    assert e.tasks == d.tasks;
    forall t ensures t in e.handles <==> t in d.handles
             ensures t in e.handles ==> e.handles[t] == d.handles[t] {
      if t in c.tasks {
        assert Armed(e.handles, t) == Armed(d.handles, t);
      }
    }
    assert e.handles == d.handles;
  }
}
