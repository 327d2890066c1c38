/** What each operation of the cleanup supervisor does to the work it tracks, written out: when it happens,
    what it changes, and that it changes nothing else. */
module CleanupPromises {
  import opened Basics
  import opened CleanupState
  import opened CleanupRuns

  // ----- tracking -----

  function Earlier(a: int, b: Option<int>): int {
    if b.Some? && b.value < a then b.value else a
  }

  /** New work of its own is the only task of a new group. Its deadline is the end of its budget, or of the
      supervisor's if that is sooner, and a timer is armed for it, or for at once if it has passed. */
  lemma NewWorkIsItsOwnGroup(c: Cleanup, t: nat, timeout: int)
    requires Reachable(c) && t !in c.tasks && timeout > 0
    ensures var d, deadline := Step(c, Tracks(t, timeout, None, None)), Earlier(c.now + timeout, c.shutdown);
            && t in d.tasks && var g := d.tasks[t].group;
            && d.tasks == c.tasks[t := Tracked(c.now, deadline, g, {g})]
            && d.handles == c.handles[t := if deadline > c.now then deadline else c.now]
            && TasksOf(d.groupTasks, g) == {t} && HoldsOf(d.groupHolds, g) == 0
            && (forall x :: x in c.tasks ==> g !in c.tasks[x].groups)
            && (forall h :: h in c.holds ==> g !in c.holds[h].groups)
            && (forall x :: x != g ==> TasksOf(d.groupTasks, x) == TasksOf(c.groupTasks, x))
            && d == c.(tasks := d.tasks, handles := d.handles, groupTasks := d.groupTasks, groupEvents := d.groupEvents,
                       nextGroup := d.nextGroup, nextEvent := d.nextEvent)
  {
    hide Reachable, Inv;
    ReachableInv(c);
    FreshGroup(c);
  }

  lemma FreshGroup(c: Cleanup)
    requires Inv(c)
    ensures forall x :: x in c.tasks ==> c.nextGroup !in c.tasks[x].groups
    ensures forall h :: h in c.holds ==> c.nextGroup !in c.holds[h].groups
    ensures TasksOf(c.groupTasks, c.nextGroup) == {} && HoldsOf(c.groupHolds, c.nextGroup) == 0
  {
    hide Wakeful, TimersSound, ShutdownBounds, MarksOwned;
    assert HoldersOf(c.holds, c.nextGroup) == {};
    forall t ensures t !in TasksOf(c.groupTasks, c.nextGroup) {
      assert t in TasksOf(c.groupTasks, c.nextGroup) <==> t in c.tasks && c.nextGroup in c.tasks[t].groups;
    }
  }

  /** Work without a positive budget is refused; work that is tracked already only gets an earlier deadline, if
      the new one is, and the groups of the scope it is given besides its own. */
  lemma TrackedWorkIsShortened(c: Cleanup, t: nat, timeout: int)
    requires Reachable(c)
    ensures timeout <= 0 ==> Step(c, Tracks(t, timeout, None, None)) == c
    ensures timeout > 0 && t in c.tasks ==>
              var d, deadline := Step(c, Tracks(t, timeout, None, None)), Earlier(c.now + timeout, c.shutdown);
              if deadline < c.tasks[t].deadline then
                d == c.(tasks := c.tasks[t := c.tasks[t].(deadline := deadline)],
                        handles := c.handles[t := if deadline > c.now then deadline else c.now])
              else d == c
  {
    hide Reachable;
  }

  // ----- expiry -----

  /** A timer that is due is used up, and marks its task exactly if that is not finished. */
  lemma ExpiryMarksTheUnfinished(c: Cleanup, t: nat)
    requires Reachable(c)
    ensures var d := Step(c, TimerFires(t));
            if t in c.handles && c.handles[t] <= c.now then
              d == c.(handles := c.handles - {t}, timedOut := if t in c.done then c.timedOut else c.timedOut + {t})
            else d == c
  {
    hide Reachable, Inv;
    ReachableInv(c);
    TimedTasks(c);
  }

  lemma TimedTasks(c: Cleanup)
    requires Inv(c)
    ensures forall t :: t in c.handles ==> t in c.tasks
  {
    hide GroupsExact, HoldsExact, Wakeful, NamesKnown, ShutdownBounds, MarksOwned;
  }

  /** The callback of a finished task forgets the task and its timer, and its mark unless a caller of `run` has
      yet to read it; and the task leaves every group it was in. */
  lemma FinishedWorkIsForgotten(c: Cleanup, t: nat)
    requires Reachable(c)
    ensures var d := Step(c, CalledBack(t));
            if t in c.done && t in c.tasks then
              && (forall g :: TasksOf(d.groupTasks, g) == TasksOf(c.groupTasks, g) - {t})
              && d == c.(tasks := c.tasks - {t}, handles := c.handles - {t},
                         timedOut := if t in c.runWaiters then c.timedOut else c.timedOut - {t},
                         groupTasks := d.groupTasks, fired := d.fired)
            else d == c
  {
    hide Reachable, Inv;
    ReachableInv(c);
    if t in c.done && t in c.tasks {
      GroupsOf(c, t);
      LeavingIsExact(c, t);
    }
  }

  lemma GroupsOf(c: Cleanup, t: nat)
    requires Inv(c) && t in c.tasks
    ensures forall g :: t in TasksOf(c.groupTasks, g) <==> g in c.tasks[t].groups
    ensures forall g :: g in c.groupTasks ==> c.groupTasks[g] != {}
    ensures t in c.runWaiters ==> c.runWaiters[t] > 0
  {
    hide HoldsExact, Wakeful, NamesKnown, TimersSound, ShutdownBounds;
  }

  lemma LeavingIsExact(c: Cleanup, t: nat)
    requires t in c.tasks && (t in c.runWaiters ==> c.runWaiters[t] > 0)
    requires forall g :: t in TasksOf(c.groupTasks, g) <==> g in c.tasks[t].groups
    requires forall g :: g in c.groupTasks ==> c.groupTasks[g] != {}
    ensures var d := TaskFinished(c, t);
            && (forall g :: TasksOf(d.groupTasks, g) == TasksOf(c.groupTasks, g) - {t})
            && d == c.(tasks := c.tasks - {t}, handles := c.handles - {t},
                       timedOut := if t in c.runWaiters then c.timedOut else c.timedOut - {t},
                       groupTasks := d.groupTasks, fired := d.fired)
  {
    hide IdleEvents;
    var d := TaskFinished(c, t);
    forall g ensures TasksOf(d.groupTasks, g) == TasksOf(c.groupTasks, g) - {t} {
      if g in c.groupTasks {
        assert TasksOf(c.groupTasks, g) == c.groupTasks[g];
      }
    }
  }

  // ----- callers of run -----

  /** A caller of `run` tracks its work and is counted; when it ends it is counted out, marks the work if it
      gave it up unfinished, and, as the last one, takes the mark of finished work with it. */
  lemma RunsAreCounted(c: Cleanup, t: nat, timeout: int, gaveUp: bool)
    requires Reachable(c)
    ensures var d, p := Step(c, RunBegins(t, timeout, None, None)), Step(c, Tracks(t, timeout, None, None));
            if timeout <= 0 then d == c
            else d == p.(runWaiters := p.runWaiters[t := if t in p.runWaiters then p.runWaiters[t] + 1 else 1])
    ensures var d := Step(c, RunEnds(t, gaveUp));
            var marks := if gaveUp && t in c.tasks && t !in c.done then c.timedOut + {t} else c.timedOut;
            if t !in c.runWaiters then d == c
            else if c.runWaiters[t] > 1 then
              d == c.(timedOut := marks, runWaiters := c.runWaiters[t := c.runWaiters[t] - 1])
            else d == c.(timedOut := if t in c.done then marks - {t} else marks, runWaiters := c.runWaiters - {t})
  {
    hide Reachable, Inv, Step, RunBegin, RunEnd, Track;
    RunEvents(c, t, timeout, gaveUp);
    RunBeginPlain(c, t, timeout);
    RunEndPlain(c, t, gaveUp);
  }

  lemma RunEvents(c: Cleanup, t: nat, timeout: int, gaveUp: bool)
    ensures Step(c, RunBegins(t, timeout, None, None)) == RunBegin(c, t, timeout, None, None)
    ensures Step(c, Tracks(t, timeout, None, None)) == Track(c, t, timeout, None, None)
    ensures Step(c, RunEnds(t, gaveUp)) == RunEnd(c, t, gaveUp)
  {
    hide RunBegin, Track, RunEnd;
  }

  lemma RunBeginPlain(c: Cleanup, t: nat, timeout: int)
    ensures var d, p := RunBegin(c, t, timeout, None, None), Track(c, t, timeout, None, None);
            if timeout <= 0 then d == c
            else d == p.(runWaiters := p.runWaiters[t := if t in p.runWaiters then p.runWaiters[t] + 1 else 1])
  {
    hide Track;
  }

  lemma RunEndPlain(c: Cleanup, t: nat, gaveUp: bool)
    ensures var d := RunEnd(c, t, gaveUp);
            var marks := if gaveUp && t in c.tasks && t !in c.done then c.timedOut + {t} else c.timedOut;
            if t !in c.runWaiters then d == c
            else if c.runWaiters[t] > 1 then
              d == c.(timedOut := marks, runWaiters := c.runWaiters[t := c.runWaiters[t] - 1])
            else d == c.(timedOut := if t in c.done then marks - {t} else marks, runWaiters := c.runWaiters - {t})
  {
    hide RunEnd, MarkTimedOut;
    var marked := if gaveUp then MarkTimedOut(c, t) else c;
    var marks := if gaveUp && t in c.tasks && t !in c.done then c.timedOut + {t} else c.timedOut;
    MarkPlain(c, t);
    assert marked == c.(timedOut := marks);
    RunEndMarks(c, t, gaveUp);
    CallerLeaves(marked, t);
  }

  lemma MarkPlain(c: Cleanup, t: nat)
    ensures t in c.tasks && t !in c.done ==> MarkTimedOut(c, t) == c.(timedOut := c.timedOut + {t})
    ensures t !in c.tasks || t in c.done ==> MarkTimedOut(c, t) == c
  {
  }

  lemma RunEndMarks(c: Cleanup, t: nat, gaveUp: bool)
    ensures t !in c.runWaiters ==> RunEnd(c, t, gaveUp) == c
    ensures t in c.runWaiters && gaveUp ==> RunEnd(c, t, true) == RunEnd(MarkTimedOut(c, t), t, false)
  {
    hide MarkTimedOut;
    assert MarkTimedOut(c, t).runWaiters == c.runWaiters by { MarkPlain(c, t); }
  }

  lemma CallerLeaves(c: Cleanup, t: nat)
    ensures t in c.runWaiters && c.runWaiters[t] > 1 ==>
              RunEnd(c, t, false) == c.(runWaiters := c.runWaiters[t := c.runWaiters[t] - 1])
    ensures t in c.runWaiters && c.runWaiters[t] <= 1 ==>
              RunEnd(c, t, false) == c.(runWaiters := c.runWaiters - {t},
                                        timedOut := if t in c.done then c.timedOut - {t} else c.timedOut)
  {
    hide MarkTimedOut;
    if t in c.runWaiters {
      var marks := if t in c.done then c.timedOut - {t} else c.timedOut;
      if c.runWaiters[t] > 1 {
        assert RunEnd(c, t, false) == c.(runWaiters := c.runWaiters[t := c.runWaiters[t] - 1]);
      } else {
        assert RunEnd(c, t, false) == c.(runWaiters := c.runWaiters - {t}, timedOut := marks);
      }
    }
  }

  // ----- holds and waiting -----

  /** A hold is on every group of its scope, and each of them counts one hold more; releasing it takes exactly
      those back, once. */
  lemma HoldsAreExact(c: Cleanup, scope: Scope, h: nat)
    requires Reachable(c)
    ensures var d, groups := Step(c, Retains(scope)), if scope.groups == {} then {scope.group} else scope.groups;
            if Known(c, scope) then
              && d.holds == c.holds[c.nextHold := Hold(groups, false)] && c.nextHold !in c.holds
              && (forall g ::
                    HoldsOf(d.groupHolds, g) == HoldsOf(c.groupHolds, g) + if g in groups then 1 else 0)
              && d == c.(holds := d.holds, groupHolds := d.groupHolds, groupEvents := d.groupEvents,
                         nextHold := c.nextHold + 1, nextEvent := d.nextEvent)
            else d == c
    ensures var d := Step(c, Releases(h));
            if h in c.holds && !c.holds[h].released then
              && (forall g :: HoldsOf(d.groupHolds, g) ==
                              HoldsOf(c.groupHolds, g) - if g in c.holds[h].groups then 1 else 0)
              && d == c.(holds := c.holds[h := Hold(c.holds[h].groups, true)], groupHolds := d.groupHolds,
                         fired := d.fired)
            else d == c
  {
    hide Reachable, Inv, Step, RetainScope, ReleaseHold, Known;
    ReachableInv(c);
    HoldEvents(c, scope, h);
    HoldFacts(c, h);
    RetainPlain(c, scope);
    if h in c.holds && !c.holds[h].released {
      ReleasePlain(c, h);
    } else {
      NothingReleased(c, h);
    }
  }

  lemma HoldEvents(c: Cleanup, scope: Scope, h: nat)
    ensures Step(c, Retains(scope)) == if Known(c, scope) then RetainScope(c, scope) else c
    ensures Step(c, Releases(h)) == ReleaseHold(c, h)
  {
    hide RetainScope, ReleaseHold, Known;
  }

  lemma NothingReleased(c: Cleanup, h: nat)
    requires h !in c.holds || c.holds[h].released
    ensures ReleaseHold(c, h) == c
  {
  }

  lemma HoldFacts(c: Cleanup, h: nat)
    requires Inv(c)
    ensures c.nextHold !in c.holds
    ensures forall g :: g in c.groupHolds ==> c.groupHolds[g] > 0
    ensures h in c.holds && !c.holds[h].released ==>
              forall g :: g in c.holds[h].groups ==> HoldsOf(c.groupHolds, g) > 0
  {
    hide GroupsExact, Wakeful, TimersSound, ShutdownBounds, MarksOwned;
    if h in c.holds && !c.holds[h].released {
      forall g | g in c.holds[h].groups ensures HoldsOf(c.groupHolds, g) > 0 {
        assert h in HoldersOf(c.holds, g);
      }
    }
  }

  lemma RetainPlain(c: Cleanup, scope: Scope)
    ensures var d, groups := RetainScope(c, scope), if scope.groups == {} then {scope.group} else scope.groups;
            && d.holds == c.holds[c.nextHold := Hold(groups, false)]
            && (forall g :: HoldsOf(d.groupHolds, g) == HoldsOf(c.groupHolds, g) + if g in groups then 1 else 0)
            && d == c.(holds := d.holds, groupHolds := d.groupHolds, groupEvents := d.groupEvents,
                       nextHold := c.nextHold + 1, nextEvent := d.nextEvent)
  {
    hide Renewed;
  }

  lemma ReleasePlain(c: Cleanup, h: nat)
    requires h in c.holds && !c.holds[h].released && forall g :: g in c.groupHolds ==> c.groupHolds[g] > 0
    requires forall g :: g in c.holds[h].groups ==> HoldsOf(c.groupHolds, g) > 0
    ensures var d := ReleaseHold(c, h);
            && (forall g :: HoldsOf(d.groupHolds, g) ==
                            HoldsOf(c.groupHolds, g) - if g in c.holds[h].groups then 1 else 0)
            && d == c.(holds := c.holds[h := Hold(c.holds[h].groups, true)], groupHolds := d.groupHolds,
                       fired := d.fired)
  {
    hide IdleEvents;
  }

  /** A caller that begins to wait for a group sleeps exactly if the group has a task or a hold that is not
      released, and then on an event that is not set. */
  lemma WaitingBeginsExactly(c: Cleanup, w: nat, g: nat)
    requires Reachable(c) && w !in c.sleepers
    ensures var d := Step(c, WaitBegins(w, g));
            && (w in d.sleepers <==>
                  || (exists t :: t in c.tasks && g in c.tasks[t].groups)
                  || (exists h :: h in c.holds && !c.holds[h].released && g in c.holds[h].groups))
            && (w in d.sleepers ==> d.sleepers[w].0 == g && d.sleepers[w] !in d.fired)
            && d.tasks == c.tasks && d.holds == c.holds && d.fired == c.fired
  {
    hide Reachable, Inv, Idle, WaitTurn;
    ReachableInv(c);
    BusyExactly(c, g);
    WaitTurnInv(c, w, g);
    TurnApart(c, w, g);
  }

  lemma TurnApart(c: Cleanup, w: nat, g: nat)
    ensures WaitTurn(c, w, g).tasks == c.tasks && WaitTurn(c, w, g).holds == c.holds
    ensures WaitTurn(c, w, g).fired == c.fired
  {
    hide Idle;
    if Idle(c, g) {
      assert WaitTurn(c, w, g) == c.(sleepers := c.sleepers - {w});
    } else {
      var event := if g in c.groupEvents then c.groupEvents[g] else (g, c.nextEvent);
      assert WaitTurn(c, w, g) == c.(groupEvents := c.groupEvents[g := event], nextEvent := c.nextEvent + 1,
                                     sleepers := c.sleepers[w := event]);
    }
  }

  // ----- shutdown -----

  /** Shutdown ends at the budget given, or at the end of an earlier one if that is sooner; every tracked
      deadline that is later is moved there, and every other stays. Later turns do the same to what has been
      tracked since, and once the time has come all unfinished work is marked. */
  lemma ShutdownIsExact(c: Cleanup, timeout: nat, t: nat)
    requires Reachable(c)
    ensures var d, limit := Step(c, CloseBegins(timeout)), Earlier(c.now + timeout, c.shutdown);
            && d.shutdown == Some(limit) && d.tasks.Keys == c.tasks.Keys && d.timedOut == c.timedOut
            && (t in c.tasks ==>
                  d.tasks[t] == c.tasks[t].(deadline := if c.tasks[t].deadline > limit then limit
                                                        else c.tasks[t].deadline))
    ensures c.shutdown.Some? ==>
              var d, limit := Step(c, CloseTurns), c.shutdown.value;
              && d.shutdown == c.shutdown && d.tasks.Keys == c.tasks.Keys && d.timedOut == c.timedOut
              && (t in c.tasks ==>
                    d.tasks[t] == c.tasks[t].(deadline := if c.tasks[t].deadline > limit then limit
                                                        else c.tasks[t].deadline))
    ensures var d := Step(c, CloseGaveUp);
            if c.shutdown.Some? && c.now >= c.shutdown.value then
              d == c.(timedOut := c.timedOut + set x | x in c.tasks && x !in c.done)
            else d == c
  {
    hide Reachable;
  }
}
