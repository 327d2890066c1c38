/** Launches and closes: every section that starts, finishes, abandons or reaps one keeps the
    pool's invariant. */
module PoolLaunching {
  import opened Basics
  import opened PoolState
  import opened PoolInvariant
  import opened PoolSettling
  import opened PoolFrames

  /** Puts the invariant of the next state together. */
  lemma Assemble(p: Pool, q: Pool)
    requires Inv(p) && Held(q, {}) && LeasesKept(p, q) && StartupsKept(p, q, {}) && Attended(q) && Draining(q)
    ensures Inv(q)
  {
    hide Held, Leases, LeasesKept, StartupsSound, StartupsKept, Attended, Draining;
    LeasesCarry(p, q);
    StartupsCarryAll(p, q);
  }

  lemma InvParts(p: Pool)
    requires Inv(p)
    ensures Held(p, {}) && OpenOwned(p, {}) && ClosingOwned(p) && Draining(p) && Attended(p)
    ensures LaunchesKnown(p.table, p.launches, p.nextLaunch, p.nextStartup)
    ensures TasksKnown(p.createTasks, p.watchers, p.launches)
    ensures SlotsKnown(p.slots, p.table)
    ensures Leases(p) && StartupsSound(p)
  {
  }

  // ----- starting launches -----

  lemma StartCreateGrows(p: Pool, startup: Option<nat>)
    requires LaunchesKnown(p.table, p.launches, p.nextLaunch, p.nextStartup)
    requires TasksKnown(p.createTasks, p.watchers, p.launches)
    ensures Physical(StartCreate(p, startup)) == Physical(p) + 1
  {
    assert p.nextLaunch !in p.createTasks;
  }

  lemma StartCreateInv(p: Pool)
    requires Inv(p) && !p.closed && Physical(p) < p.cfg.Ceiling()
    ensures Inv(StartCreate(p, None)) && Evolves(p, StartCreate(p, None))
    ensures Physical(StartCreate(p, None)) == Physical(p) + 1
  {
    hide Inv, Held, LeasesKept, StartupsKept, Attended, Draining, OpenOwned, ClosingOwned, SlotsKnown, Leases,
      StartupsSound, LaunchesKnown, TasksKnown, StartCreate, Evolves;
    var q := StartCreate(p, None);
    InvParts(p);
    StartCreateHeld(p, None, {});
    StartCreateGrows(p, None);
    StartCreateFrames(p);
    Assemble(p, q);
  }

  lemma StartCreateFrames(p: Pool)
    requires LaunchesKnown(p.table, p.launches, p.nextLaunch, p.nextStartup) && Attended(p) && !p.closed
    ensures var q := StartCreate(p, None);
            LeasesKept(p, q) && StartupsKept(p, q, {}) && Attended(q) && Draining(q) && Evolves(p, q)
  {
    assert p.nextLaunch !in p.launches;
    StartCreateEvolves(p);
    hide Evolves;
  }

  lemma StartCreateEvolves(p: Pool)
    requires p.nextLaunch !in p.launches && !p.closed
    ensures Evolves(p, StartCreate(p, None))
  {
  }

  lemma {:induction false} LaunchManyInv(p: Pool, count: int)
    requires Inv(p) && !p.closed && (count > 0 ==> Physical(p) + count <= p.cfg.Ceiling())
    ensures Inv(LaunchMany(p, count, None)) && Evolves(p, LaunchMany(p, count, None))
    ensures Physical(LaunchMany(p, count, None)) == Physical(p) + (if count > 0 then count else 0)
    decreases count
  {
    hide Inv, Evolves, Physical;
    if count <= 0 {
      EvolvesSelf(p);
    } else {
      var q := StartCreate(p, None);
      StartCreateInv(p);
      LaunchManyInv(q, count - 1);
      EvolvesTransitive(p, q, LaunchMany(q, count - 1, None));
    }
  }

  /** What launching in a row changes. */
  lemma {:induction false} LaunchManyFacts(p: Pool, count: nat, startup: Option<nat>)
    ensures var q := LaunchMany(p, count, startup);
            && q == p.(launches := q.launches, createTasks := q.createTasks, nextLaunch := p.nextLaunch + count)
            && (forall t :: t in q.createTasks <==> t in p.createTasks || p.nextLaunch <= t < p.nextLaunch + count)
            && (forall t :: t in q.launches <==> t in p.launches || p.nextLaunch <= t < p.nextLaunch + count)
            && (forall t :: t in q.launches ==>
                  q.launches[t] == if p.nextLaunch <= t < p.nextLaunch + count then Launch(startup, Running)
                                   else p.launches[t])
    decreases count
  {
    if count != 0 {
      LaunchManyFacts(StartCreate(p, startup), count - 1, startup);
    }
  }

  lemma {:induction false} LaunchManyHeld(p: Pool, count: nat, startup: Option<nat>)
    requires Held(p, {}) && (startup.Some? ==> startup.value < p.nextStartup)
    requires p.closed || Physical(p) + count <= p.cfg.Ceiling()
    ensures Held(LaunchMany(p, count, startup), {})
    decreases count
  {
    hide Held, Physical;
    if count != 0 {
      HeldKnown(p, {});
      StartCreateHeld(p, startup, {});
      StartCreateGrows(p, startup);
      LaunchManyHeld(StartCreate(p, startup), count - 1, startup);
    }
  }

  lemma HeldKnown(p: Pool, hand: set<nat>)
    requires Held(p, hand)
    ensures LaunchesKnown(p.table, p.launches, p.nextLaunch, p.nextStartup)
    ensures TasksKnown(p.createTasks, p.watchers, p.launches)
    ensures SlotsKnown(p.slots, p.table) && ClosingOwned(p) && OpenOwned(p, hand)
  {
  }

  lemma ReplenishInv(p: Pool, now: int)
    requires Inv(p)
    ensures Inv(Replenish(p, now)) && Evolves(p, Replenish(p, now))
  {
    hide Inv, Evolves, Physical, Missing, LaunchMany;
    if !MayReplenish(p) || |p.watchers| >= p.cfg.Ceiling() {
      EvolvesSelf(p);
    } else {
      LaunchManyInv(p, Min(Missing(p, now), p.cfg.maxBrowsers - Physical(p)));
    }
  }

  // ----- maintenance -----

  lemma RefreshRecyclingInv(p: Pool, now: int)
    requires Inv(p)
    ensures Inv(RefreshRecycling(p, now)) && Evolves(p, RefreshRecycling(p, now))
    ensures forall s :: s in RefreshRecycling(p, now).slots ==> Refreshed(RefreshRecycling(p, now), s, now)
  {
    hide Inv, Held, Settles, Evolves, RefreshRecycling, Refreshed;
    InvParts(p);
    RefreshRecyclingHeld(p, now);
    SettlesInv(p, RefreshRecycling(p, now));
  }

  lemma MaintainInv(p: Pool, now: int)
    requires Inv(p)
    ensures Inv(Maintain(p, now)) && Evolves(p, Maintain(p, now))
    ensures Inv(Refresh(p, now)) && Evolves(p, Refresh(p, now))
  {
    hide Inv, Evolves, RefreshRecycling, Replenish;
    EvolvesSelf(p);
    var q := RefreshRecycling(p, now);
    RefreshRecyclingInv(p, now);
    ReplenishInv(q, now);
    EvolvesTransitive(p, q, Replenish(q, now));
  }

  // ----- finishing a close -----

  lemma CloseAcceptedOwned(p: Pool, s: nat)
    requires ClosingOwned(p) && OpenOwned(p, {}) && Bounded(p, {}) && s in p.closeTasks
    ensures var q := CloseAccepted(p, s);
            ClosingOwned(q) && OpenOwned(q, {}) && Bounded(q, {})
  {
    var q := CloseAccepted(p, s);
    assert forall x :: IsClosing(q, x) <==> IsClosing(p, x);
    assert q.closeTasks.Keys == p.closeTasks.Keys - {s};
    CardSubset(q.failedCloses, p.failedCloses);
  }

  lemma CloseAcceptedHeld(p: Pool, s: nat)
    requires Held(p, {}) && s in p.closeTasks
    ensures Held(CloseAccepted(p, s), {}) && Settles(p, CloseAccepted(p, s))
  {
    CloseAcceptedSettles(p, s);
    CloseAcceptedOwned(p, s);
    hide SlotsKnown, LaunchesKnown, Lifecycle, TasksKnown, ClosingOwned, OpenOwned, Bounded, Settles;
  }

  lemma CloseAcceptedSettles(p: Pool, s: nat)
    ensures Settles(p, CloseAccepted(p, s))
  {
  }

  lemma CloseRefusedClosing(p: Pool, s: nat, now: int)
    requires ClosingOwned(p) && s in p.closeTasks && s in p.table
    ensures ClosingOwned(CloseRefused(p, s, now))
  {
    hide Backoff;
    assert forall x :: IsClosing(CloseRefused(p, s, now), x) <==> IsClosing(p, x);
  }

  lemma OpenOwnedCarries(p: Pool, q: Pool, hand: set<nat>)
    requires OpenOwned(p, hand)
    requires q.slots == p.slots && q.createTasks == p.createTasks && q.watchers == p.watchers && q.closed == p.closed
    requires forall x :: x in q.table <==> x in p.table
    requires forall x :: IsClosing(q, x) <==> IsClosing(p, x)
    requires forall x :: x in q.table ==> q.table[x].activeContexts == p.table[x].activeContexts
    ensures OpenOwned(q, hand)
  {
  }

  lemma CloseRefusedOpen(p: Pool, s: nat, now: int)
    requires OpenOwned(p, {}) && s in p.table
    ensures OpenOwned(CloseRefused(p, s, now), {})
  {
    hide Backoff, OpenOwned;
    OpenOwnedCarries(p, CloseRefused(p, s, now), {});
  }

  lemma CloseRefusedBounded(p: Pool, s: nat, now: int)
    requires Bounded(p, {}) && s in p.closeTasks && s in p.table && s !in p.failedCloses
    ensures Bounded(CloseRefused(p, s, now), {})
  {
    hide Backoff;
    var q := CloseRefused(p, s, now);
    assert q.closeTasks.Keys == p.closeTasks.Keys - {s};
  }

  lemma CloseRefusedSettles(p: Pool, s: nat, now: int)
    requires s in p.table
    ensures Settles(p, CloseRefused(p, s, now))
  {
    hide Backoff;
  }

  lemma CloseRefusedHeld(p: Pool, s: nat, now: int)
    requires Held(p, {}) && s in p.closeTasks && s in p.table
    ensures Held(CloseRefused(p, s, now), {}) && Settles(p, CloseRefused(p, s, now))
  {
    hide ClosingOwned, OpenOwned, Bounded, TasksKnown, Settles, LaunchesKnown, SlotsKnown, Lifecycle, CloseRefused;
    NotFailedWhileClosing(p, s);
    CloseRefusedClosing(p, s, now);
    CloseRefusedOpen(p, s, now);
    CloseRefusedBounded(p, s, now);
    CloseRefusedSettles(p, s, now);
    CloseRefusedKnown(p, s, now);
  }

  lemma CloseRefusedKnown(p: Pool, s: nat, now: int)
    requires LaunchesKnown(p.table, p.launches, p.nextLaunch, p.nextStartup) && SlotsKnown(p.slots, p.table)
    requires Lifecycle(p.table) && s in p.table && TasksKnown(p.createTasks, p.watchers, p.launches)
    ensures var q := CloseRefused(p, s, now);
            && LaunchesKnown(q.table, q.launches, q.nextLaunch, q.nextStartup) && SlotsKnown(q.slots, q.table)
            && Lifecycle(q.table) && TasksKnown(q.createTasks, q.watchers, q.launches)
  {
    hide Backoff, TasksKnown;
    assert SlotSound(p.table[s]);
  }

  lemma NotFailedWhileClosing(p: Pool, s: nat)
    requires ClosingOwned(p) && s in p.closeTasks
    ensures s !in p.failedCloses
  {
  }

  lemma FinishCloseInv(p: Pool, s: nat, succeeded: bool, saysClosed: bool, now: int)
    requires Inv(p) && s in p.closeTasks
    ensures var q := FinishClose(p, s, succeeded, saysClosed, now);
            Inv(q) && Evolves(p, q)
  {
    hide Inv, Held, Settles, Evolves, CloseAccepted, CloseRefused, Replenish, ClosingOwned, OpenOwned;
    ClosingIsKnown(p, s);
    InvParts(p);
    var q := if succeeded || s in p.physicallyClosed || saysClosed then CloseAccepted(p, s)
        else CloseRefused(p, s, now);
    CloseAcceptedHeld(p, s);
    CloseRefusedHeld(p, s, now);
    SettlesInv(p, q);
    ReplenishInv(q, now);
    EvolvesTransitive(p, q, Replenish(q, now));
  }

  lemma ClosingIsKnown(p: Pool, s: nat)
    requires Inv(p) && s in p.closeTasks
    ensures s in p.table
  {
    assert IsClosing(p, s);
  }

  /** Marking a close task dead, or a process gone, moves nothing. */
  lemma MarksInv(p: Pool, aborted: set<(nat, nat)>, gone: set<nat>)
    requires Inv(p)
    ensures var q := p.(abortedCloses := aborted, physicallyClosed := gone);
            Inv(q) && Evolves(p, q)
  {
    hide Inv, Evolves, Held, Settles;
    var q := p.(abortedCloses := aborted, physicallyClosed := gone);
    InvParts(p);
    HeldSame(p, q, {});
    MarksSettle(p, aborted, gone);
    SettlesInv(p, q);
  }

  lemma MarksSettle(p: Pool, aborted: set<(nat, nat)>, gone: set<nat>)
    ensures Settles(p, p.(abortedCloses := aborted, physicallyClosed := gone))
  {
  }

  lemma LateReconcileInv(p: Pool, s: nat)
    requires Inv(p)
    ensures Inv(LateReconcile(p, s)) && Evolves(p, LateReconcile(p, s))
  {
    hide Inv, Evolves, SlotsKnown, LaunchesKnown, Lifecycle, TasksKnown, CloseRunning, Held, Settles;
    if s !in p.table || p.table[s].state != Closing || CloseRunning(p, s) {
      EvolvesSelf(p);
    } else {
      InvParts(p);
      LateReconcileHeld(p, s);
      SettlesInv(p, LateReconcile(p, s));
    }
  }

  lemma LateAcceptHeld(p: Pool, s: nat)
    requires Held(p, {}) && s in p.failedCloses
    ensures var q := p.(failedCloses := p.failedCloses - {s}, physicallyClosed := p.physicallyClosed - {s},
                        accepted := p.accepted + {s});
            Held(q, {}) && Settles(p, q)
  {
    hide SlotsKnown, LaunchesKnown, Lifecycle, TasksKnown, ClosingOwned, OpenOwned, Bounded, Settles, Physical;
    var q := p.(failedCloses := p.failedCloses - {s}, physicallyClosed := p.physicallyClosed - {s},
                accepted := p.accepted + {s});
    LateAcceptClosing(p, q, s);
    OpenSame(p, q, {});
    LateAcceptCounts(p, q, s);
    BoundedSame(p, q, {});
  }

  lemma LateAcceptClosing(p: Pool, q: Pool, s: nat)
    requires ClosingOwned(p) && s in p.failedCloses
    requires q.table == p.table && q.closeTasks == p.closeTasks
    requires q.failedCloses == p.failedCloses - {s} && q.accepted == p.accepted + {s}
    ensures ClosingOwned(q)
  {
    assert forall x :: IsClosing(q, x) <==> IsClosing(p, x);
  }

  lemma LateAcceptCounts(p: Pool, q: Pool, s: nat)
    requires q == p.(failedCloses := p.failedCloses - {s}, physicallyClosed := p.physicallyClosed - {s},
                     accepted := p.accepted + {s})
    ensures Physical(q) <= Physical(p) && Settles(p, q)
  {
    CardSubset(q.failedCloses, p.failedCloses);
  }

  lemma LateReconcileHeld(p: Pool, s: nat)
    requires Held(p, {}) && IsClosing(p, s) && !CloseRunning(p, s)
    ensures Held(LateReconcile(p, s), {}) && Settles(p, LateReconcile(p, s))
  {
    hide Held, Settles, CloseRunning;
    if s in p.failedCloses {
      LateAcceptHeld(p, s);
    } else {
      assert p.failedCloses - {s} == p.failedCloses;
      HeldSame(p, LateReconcile(p, s), {});
      MarksSettle(p, p.abortedCloses, p.physicallyClosed - {s});
      assert LateReconcile(p, s) == p.(abortedCloses := p.abortedCloses, physicallyClosed := p.physicallyClosed - {s});
    }
  }

  lemma BrowserDiesInv(p: Pool, s: nat)
    requires Inv(p)
    ensures Inv(BrowserDies(p, s)) && Evolves(p, BrowserDies(p, s))
  {
    hide Inv, Evolves, Held, Settles, SlotsKnown, LaunchesKnown, OpenOwned, ClosingOwned, TasksKnown;
    if s in p.table {
      InvParts(p);
      var slot := p.table[s].(connected := false);
      HeldBasics(p, {});
      assert SlotSound(p.table[s]);
      SetSlotHeld(p, s, slot, {});
      SettlesInv(p, BrowserDies(p, s));
    } else {
      EvolvesSelf(p);
    }
  }

  // ----- a launch ends -----

  lemma LaunchReturnsOwned(p: Pool, t: nat, now: int)
    requires ClosingOwned(p) && OpenOwned(p, {})
    requires t in p.launches && p.launches[t].outcome == Running && t !in p.table
    requires (t in p.createTasks || t in p.watchers) && t !in p.slots
    ensures ClosingOwned(LaunchReturns(p, t, now)) && OpenOwned(LaunchReturns(p, t, now), {})
  {
    hide LaunchReturns, ClosingOwned, OpenOwned;
    var q := p.(table := p.table[t := FreshSlot(now)]);
    LaunchReturnsShape(p, t, now);
    JoinsOwned(p, q, t, now);
    ClosingSame(q, LaunchReturns(p, t, now));
    OpenSame(q, LaunchReturns(p, t, now), {});
  }

  lemma LaunchReturnsShape(p: Pool, t: nat, now: int)
    requires t in p.launches && p.launches[t].outcome == Running
    ensures LaunchReturns(p, t, now) == p.(launches := p.launches[t := p.launches[t].(outcome := Returned)],
                                           table := p.table[t := FreshSlot(now)])
  {
  }

  lemma JoinsOwned(p: Pool, q: Pool, t: nat, now: int)
    requires ClosingOwned(p) && OpenOwned(p, {}) && q == p.(table := p.table[t := FreshSlot(now)])
    requires t !in p.table && (t in p.createTasks || t in p.watchers) && t !in p.slots
    ensures ClosingOwned(q) && OpenOwned(q, {})
  {
    assert !IsClosing(p, t);
    assert forall x :: IsClosing(q, x) <==> IsClosing(p, x);
  }

  lemma LaunchReturnsKnown(p: Pool, t: nat, now: int)
    requires LaunchesKnown(p.table, p.launches, p.nextLaunch, p.nextStartup) && SlotsKnown(p.slots, p.table)
    requires TasksKnown(p.createTasks, p.watchers, p.launches) && Lifecycle(p.table)
    requires t in p.launches && p.launches[t].outcome == Running
    ensures t !in p.table && t !in p.slots && (t in p.createTasks || t in p.watchers)
    ensures var q := LaunchReturns(p, t, now);
            && LaunchesKnown(q.table, q.launches, q.nextLaunch, q.nextStartup) && SlotsKnown(q.slots, q.table)
            && TasksKnown(q.createTasks, q.watchers, q.launches) && Lifecycle(q.table)
  {
  }

  lemma LaunchReturnsHeld(p: Pool, t: nat, now: int)
    requires Held(p, {}) && t in p.launches && p.launches[t].outcome == Running
    ensures Held(LaunchReturns(p, t, now), {})
  {
    hide ClosingOwned, OpenOwned, LaunchesKnown, SlotsKnown, TasksKnown, Lifecycle;
    LaunchReturnsKnown(p, t, now);
    LaunchReturnsOwned(p, t, now);
  }

  lemma LaunchReturnsFrames(p: Pool, t: nat, now: int)
    requires t !in p.table && t in p.launches && p.launches[t].outcome == Running && Attended(p) && Draining(p)
    requires t !in p.slots
    ensures var q := LaunchReturns(p, t, now);
            LeasesKept(p, q) && StartupsKept(p, q, {}) && Attended(q) && Draining(q) && Evolves(p, q)
  {
    hide Evolves, Attended, Draining, StartupsKept, LeasesKept;
    var q := LaunchReturns(p, t, now);
    assert LeasesKept(p, q) by { LaunchReturnsLeases(p, t, now); }
    assert StartupsKept(p, q, {}) by { LaunchReturnsStartups(p, t, now); }
    assert Attended(q) && Draining(q) && Evolves(p, q) by { LaunchReturnsRest(p, t, now); }
  }

  lemma LaunchReturnsLeases(p: Pool, t: nat, now: int)
    requires t !in p.table && t in p.launches && p.launches[t].outcome == Running
    ensures LeasesKept(p, LaunchReturns(p, t, now))
  {
  }

  lemma LaunchReturnsStartups(p: Pool, t: nat, now: int)
    requires t !in p.table && t in p.launches && p.launches[t].outcome == Running
    ensures StartupsKept(p, LaunchReturns(p, t, now), {})
  {
    assert forall x :: IsClosing(p, x) ==> IsClosing(LaunchReturns(p, t, now), x);
  }

  lemma LaunchReturnsRest(p: Pool, t: nat, now: int)
    requires t !in p.table && t in p.launches && p.launches[t].outcome == Running && t !in p.slots
    requires Attended(p) && Draining(p)
    ensures Attended(LaunchReturns(p, t, now)) && Draining(LaunchReturns(p, t, now))
            && Evolves(p, LaunchReturns(p, t, now))
  {
  }

  lemma LaunchFailsStartups(p: Pool, t: nat)
    requires t in p.launches && p.launches[t].outcome == Running
    ensures StartupsKept(p, LaunchFails(p, t), {})
  {
    assert forall x :: IsClosing(p, x) ==> IsClosing(LaunchFails(p, t), x);
  }

  lemma LaunchFailsRest(p: Pool, t: nat)
    requires t in p.launches && p.launches[t].outcome == Running && Attended(p) && Draining(p)
    ensures var q := LaunchFails(p, t);
            LeasesKept(p, q) && Attended(q) && Draining(q) && Evolves(p, q)
  {
  }

  lemma LaunchReturnsInv(p: Pool, t: nat, now: int)
    requires Inv(p)
    ensures Inv(LaunchReturns(p, t, now)) && Evolves(p, LaunchReturns(p, t, now))
  {
    hide Inv, Held, LeasesKept, StartupsKept, Attended, Draining, Evolves, OpenOwned, ClosingOwned;
    if t in p.launches && p.launches[t].outcome == Running {
      InvParts(p);
      LaunchReturnsHeld(p, t, now);
      LaunchReturnsFrames(p, t, now);
      Assemble(p, LaunchReturns(p, t, now));
    } else {
      EvolvesSelf(p);
    }
  }

  lemma LaunchFailsHeld(p: Pool, t: nat)
    requires Held(p, {}) && t in p.launches && p.launches[t].outcome == Running
    ensures Held(LaunchFails(p, t), {})
  {
    var q := LaunchFails(p, t);
    assert t !in p.table;
    assert forall x :: IsClosing(q, x) <==> IsClosing(p, x);
  }

  lemma LaunchFailsInv(p: Pool, t: nat)
    requires Inv(p)
    ensures Inv(LaunchFails(p, t)) && Evolves(p, LaunchFails(p, t))
  {
    hide Inv, Held, LeasesKept, StartupsKept, Attended, Draining, Evolves, OpenOwned, ClosingOwned;
    if t in p.launches && p.launches[t].outcome == Running {
      InvParts(p);
      LaunchFailsHeld(p, t);
      LaunchFailsStartups(p, t);
      LaunchFailsRest(p, t);
      Assemble(p, LaunchFails(p, t));
    } else {
      EvolvesSelf(p);
    }
  }

  // ----- supervisors and watchers -----

  lemma SuperviseTimedOutInv(p: Pool, t: nat)
    requires Inv(p)
    ensures Inv(SuperviseTimedOut(p, t)) && Evolves(p, SuperviseTimedOut(p, t))
  {
    hide Inv, Held, LeasesKept, StartupsKept, Attended, Draining, Evolves, OpenOwned, ClosingOwned;
    if t in p.launches && p.launches[t].startup == None {
      InvParts(p);
      AbandonCreatesHeld(p, {t}, {});
      AbandonFrames(p, t);
      Assemble(p, AbandonCreates(p, {t}));
    } else {
      EvolvesSelf(p);
    }
  }

  lemma AbandonFrames(p: Pool, t: nat)
    requires t in p.launches && p.launches[t].startup == None && Attended(p) && Draining(p)
    ensures var q := AbandonCreates(p, {t});
            LeasesKept(p, q) && StartupsKept(p, q, {}) && Attended(q) && Draining(q) && Evolves(p, q)
  {
    hide LeasesKept, Evolves;
    PlainFrames(p, AbandonCreates(p, {t}));
  }

  lemma FailureRecordedHeld(p: Pool, t: nat)
    requires Held(p, {}) && t in p.launches && p.launches[t].outcome == Failed
    ensures Held(SuperviseSettled(p, t), {})
  {
    hide Held, FinishCreates, SuperviseSettled;
    FailureShape(p, t);
    if p.launches[t].startup == None && t in p.createTasks {
      var none: set<nat> := {};
      assert none + none == none;
      FailedIsUnknown(p, t);
      assert none == set x | x in {t} && x in p.createTasks && x in p.table;
      FinishCreatesHeld(p, {t}, none, none);
      HeldSame(FinishCreates(p, {t}), SuperviseSettled(p, t), {});
    }
  }

  lemma FailedIsUnknown(p: Pool, t: nat)
    requires Held(p, {}) && t in p.launches && p.launches[t].outcome == Failed
    ensures t !in p.table
  {
    hide ClosingOwned, OpenOwned, SlotsKnown, Lifecycle, TasksKnown, Bounded;
  }

  lemma FailureShape(p: Pool, t: nat)
    requires t in p.launches && p.launches[t].outcome == Failed
    ensures SuperviseSettled(p, t)
            == if p.launches[t].startup != None || t !in p.createTasks then p
               else FinishCreates(p, {t}).(failureGeneration := p.failureGeneration + 1, lastFailure := true)
  {
    hide FinishCreates;
  }

  /** `Held` reads nothing else. */
  lemma HeldSame(p: Pool, q: Pool, hand: set<nat>)
    requires Held(p, hand)
    requires q.cfg == p.cfg && q.table == p.table && q.slots == p.slots && q.launches == p.launches
    requires q.createTasks == p.createTasks && q.watchers == p.watchers && q.closeTasks == p.closeTasks
    requires q.failedCloses == p.failedCloses && q.accepted == p.accepted && (p.closed ==> q.closed)
    requires q.nextLaunch == p.nextLaunch && q.nextStartup >= p.nextStartup
    ensures Held(q, hand)
  {
    hide SlotsKnown, Lifecycle, TasksKnown, ClosingOwned, OpenOwned, Bounded;
    ClosingSame(p, q);
    OpenSame(p, q, hand);
    BoundedSame(p, q, hand);
  }

  lemma ClosingSame(p: Pool, q: Pool)
    requires ClosingOwned(p)
    requires q.table == p.table && q.closeTasks == p.closeTasks && q.failedCloses == p.failedCloses
             && q.accepted == p.accepted
    ensures ClosingOwned(q)
  {
    assert forall x :: IsClosing(q, x) <==> IsClosing(p, x);
  }

  lemma OpenSame(p: Pool, q: Pool, hand: set<nat>)
    requires OpenOwned(p, hand)
    requires q.table == p.table && q.slots == p.slots && q.createTasks == p.createTasks && q.watchers == p.watchers
    requires p.closed ==> q.closed
    ensures OpenOwned(q, hand)
  {
    assert forall x :: IsClosing(q, x) <==> IsClosing(p, x);
  }

  lemma BoundedSame(p: Pool, q: Pool, hand: set<nat>)
    requires Bounded(p, hand)
    requires q.cfg == p.cfg && Physical(q) <= Physical(p) && (p.closed ==> q.closed)
    ensures Bounded(q, hand)
  {
  }

  lemma AdoptHeld(p: Pool, t: nat)
    requires Held(p, {}) && t in p.createTasks && t in p.launches && p.launches[t].outcome == Returned
    ensures var q := FinishCreates(p, {t});
            Held(q.(slots := q.slots + [t]), {})
  {
    hide Held, FinishCreates;
    KnownReturned(p, t);
    var more := set x | x in {t} && x in p.createTasks && x in p.table;
    assert more == {t};
    FinishCreatesHeld(p, {t}, {}, more);
    var none: set<nat> := {};
    assert none + more == {t};
    assert Elements([t]) == {t};
    AppendHeld(FinishCreates(p, {t}), [t], {t});
    assert {t} - Elements([t]) == none;
  }

  lemma KnownReturned(p: Pool, t: nat)
    requires Held(p, {}) && t in p.launches && p.launches[t].outcome == Returned
    ensures t in p.table
  {
    hide ClosingOwned, OpenOwned, SlotsKnown, Lifecycle, TasksKnown, Bounded;
  }

  /** The task of a supervisor leaves the launches in flight; it may enter the slot list. */
  lemma SupervisedFrames(p: Pool, q: Pool, t: nat)
    requires t in p.launches && p.launches[t].startup == None && Attended(p) && !p.closed
    requires Plain(p, q) && q.startups == p.startups && q.createTasks == p.createTasks - {t} && q.closed == p.closed
    requires q.slots == p.slots || q.slots == p.slots + [t]
    ensures LeasesKept(p, q) && StartupsKept(p, q, {}) && Attended(q) && Draining(q) && Evolves(p, q)
  {
    hide LeasesKept, Evolves;
    PlainFrames(p, q);
  }

  lemma SuperviseFailedInv(p: Pool, t: nat)
    requires Inv(p) && t in p.launches && p.launches[t].startup == None && p.launches[t].outcome == Failed
    requires t in p.createTasks && !p.closed
    ensures Inv(SuperviseSettled(p, t)) && Evolves(p, SuperviseSettled(p, t))
  {
    hide Inv, Held, LeasesKept, StartupsKept, Attended, Evolves, OpenOwned, ClosingOwned, Leases, StartupsSound,
      LaunchesKnown, TasksKnown, SlotsKnown, Draining;
    InvParts(p);
    FailureRecordedHeld(p, t);
    SupervisedFrames(p, SuperviseSettled(p, t), t);
    Assemble(p, SuperviseSettled(p, t));
  }

  lemma SuperviseReturnedInv(p: Pool, t: nat)
    requires Inv(p) && t in p.launches && p.launches[t].startup == None && p.launches[t].outcome == Returned
    requires t in p.createTasks && !p.closed
    ensures Inv(SuperviseSettled(p, t)) && Evolves(p, SuperviseSettled(p, t))
  {
    hide Inv, Held, LeasesKept, StartupsKept, Attended, Evolves, OpenOwned, ClosingOwned, Leases, StartupsSound,
      LaunchesKnown, TasksKnown, SlotsKnown, Draining;
    InvParts(p);
    AdoptHeld(p, t);
    SupervisedFrames(p, SuperviseSettled(p, t), t);
    Assemble(p, SuperviseSettled(p, t));
  }

  lemma SuperviseSettledInv(p: Pool, t: nat)
    requires Inv(p)
    ensures Inv(SuperviseSettled(p, t)) && Evolves(p, SuperviseSettled(p, t))
  {
    hide Inv, Held, LeasesKept, StartupsKept, Attended, Evolves, OpenOwned, ClosingOwned, Leases, StartupsSound,
      LaunchesKnown, TasksKnown, SlotsKnown, Draining;
    if t !in p.launches || p.launches[t].startup != None || t !in p.createTasks || p.launches[t].outcome == Running {
      EvolvesSelf(p);
    } else {
      InvParts(p);
      NoneInFlightOnceClosed(p);
      hide SuperviseSettled;
      if p.launches[t].outcome == Failed {
        SuperviseFailedInv(p, t);
      } else {
        SuperviseReturnedInv(p, t);
      }
    }
  }

  lemma NoneInFlightOnceClosed(p: Pool)
    requires Draining(p)
    ensures p.closed ==> p.createTasks == {}
  {
  }

  // ----- watchers -----

  lemma UnwatchHeld(p: Pool, t: nat, hand: set<nat>)
    requires Held(p, {}) && t in p.watchers && t in p.launches && p.launches[t].outcome != Running
    requires hand == if t in p.table && !IsClosing(p, t) then {t} else {}
    ensures Held(p.(watchers := p.watchers - {t}), hand)
  {
    hide SlotsKnown, LaunchesKnown, Lifecycle, ClosingOwned, OpenOwned, TasksKnown, Bounded, IsClosing;
    var q := p.(watchers := p.watchers - {t});
    ClosingSame(p, q);
    UnwatchOpen(p, q, t, hand);
    UnwatchTasks(p.createTasks, p.watchers, p.launches, t);
    UnwatchBounded(p, q, t, hand);
  }

  lemma UnwatchOpen(p: Pool, q: Pool, t: nat, hand: set<nat>)
    requires OpenOwned(p, {}) && t in p.watchers
    requires q == p.(watchers := p.watchers - {t})
    requires hand == if t in p.table && !IsClosing(p, t) then {t} else {}
    ensures OpenOwned(q, hand)
  {
    assert forall x :: IsClosing(q, x) <==> IsClosing(p, x);
  }

  lemma UnwatchTasks(createTasks: set<nat>, watchers: set<nat>, launches: map<nat, Launch>, t: nat)
    requires TasksKnown(createTasks, watchers, launches) && t in launches && launches[t].outcome != Running
    ensures TasksKnown(createTasks, watchers - {t}, launches)
  {
  }

  lemma UnwatchBounded(p: Pool, q: Pool, t: nat, hand: set<nat>)
    requires Bounded(p, {}) && t in p.watchers && |hand| <= 1
    requires q == p.(watchers := p.watchers - {t})
    ensures Bounded(q, hand)
  {
    assert |p.watchers - {t}| == |p.watchers| - 1;
  }

  lemma UnwatchFrames(p: Pool, t: nat)
    requires Attended(p) && Draining(p)
    ensures var q := p.(watchers := p.watchers - {t});
            LeasesKept(p, q) && StartupsKept(p, q, {}) && Attended(q) && Draining(q) && Evolves(p, q)
  {
    hide LeasesKept, Evolves;
    PlainFrames(p, p.(watchers := p.watchers - {t}));
  }

  /** Frames compose with a settling step. */
  lemma FramesThenSettles(p: Pool, q: Pool, r: Pool)
    requires LeasesKept(p, q) && StartupsKept(p, q, {}) && Attended(q) && Draining(q) && Evolves(p, q)
    requires Settles(q, r) && OpenOwned(r, {})
    ensures LeasesKept(p, r) && StartupsKept(p, r, {}) && Attended(r) && Draining(r) && Evolves(p, r)
  {
    hide Settles, OpenOwned, Attended, Draining, Evolves, LeasesKept, StartupsKept;
    SettlesEvolves(q, r);
    EvolvesTransitive(p, q, r);
    SettlesKeepsLeases(q, r);
    SettlesKeepsStartups(q, r);
    SettlesAttended(q, r);
    SettlesDraining(q, r);
    LeasesKeptTransitive(p, q, r);
    StartupsKeptTransitive(p, q, r);
  }

  lemma LeasesKeptTransitive(p: Pool, q: Pool, r: Pool)
    requires LeasesKept(p, q) && LeasesKept(q, r)
    ensures LeasesKept(p, r)
  {
  }

  lemma StartupsKeptTransitive(p: Pool, q: Pool, r: Pool)
    requires StartupsKept(p, q, {}) && StartupsKept(q, r, {})
    ensures StartupsKept(p, r, {})
  {
    forall t | t in p.launches && OutsideOf(p, t, {}) ensures OutsideOf(q, t, {}) {
    }
  }

  lemma UnwatchThenClose(p: Pool, t: nat, reason: Reason)
    requires Inv(p) && t in p.watchers && t in p.launches && p.launches[t].outcome == Returned
    ensures var q := p.(watchers := p.watchers - {t});
            Held(ScheduleClose(q, t, reason), {}) && Settles(q, ScheduleClose(q, t, reason))
  {
    hide Inv, Held, Attended, OpenOwned, ClosingOwned, Leases, StartupsSound, LaunchesKnown, TasksKnown, SlotsKnown,
      Draining, Settles, ScheduleClose, Lifecycle, Distinct;
    var q := p.(watchers := p.watchers - {t});
    var hand := if IsClosing(p, t) then {} else {t};
    InvParts(p);
    WatchedFacts(p, t);
    UnwatchHeld(p, t, hand);
    HeldBasics(q, hand);
    ScheduleCloseHeld(q, t, reason, hand);
    assert hand - {t} == {};
    ScheduleCloseSettles(q, t, reason);
  }

  lemma WatcherFinishedInv(p: Pool, t: nat)
    requires Inv(p)
    ensures Inv(WatcherFinished(p, t)) && Evolves(p, WatcherFinished(p, t))
  {
    hide Inv, Held, LeasesKept, StartupsKept, Attended, Evolves, OpenOwned, ClosingOwned, Leases, StartupsSound,
      LaunchesKnown, TasksKnown, SlotsKnown, Draining, Settles, ScheduleClose, Lifecycle, Distinct;
    if t !in p.watchers || t !in p.launches || p.launches[t].outcome == Running {
      EvolvesSelf(p);
    } else {
      var q := p.(watchers := p.watchers - {t});
      InvParts(p);
      WatchedFacts(p, t);
      UnwatchFrames(p, t);
      if p.launches[t].outcome == Returned {
        var reason := if p.closed then Shutdown else Error;
        UnwatchThenClose(p, t, reason);
        var r := ScheduleClose(q, t, reason);
        HeldOpen(r, {});
        FramesThenSettles(p, q, r);
        Assemble(p, r);
      } else {
        UnwatchHeld(p, t, {});
        Assemble(p, q);
      }
    }
  }

  lemma WatchedFacts(p: Pool, t: nat)
    requires OpenOwned(p, {}) && t in p.watchers && t in p.launches
    requires LaunchesKnown(p.table, p.launches, p.nextLaunch, p.nextStartup)
    ensures t in p.table <==> p.launches[t].outcome == Returned
    ensures t !in p.createTasks
    ensures t in p.table ==> IsClosing(p, t) || p.table[t].activeContexts == 0
  {
    assert t !in p.slots;
  }
}
