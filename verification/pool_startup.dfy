/** Startup, its cancellation and recovery, and shutdown keep the pool's invariant. */
module PoolStartup {
  import opened Basics
  import opened PoolState
  import opened PoolInvariant
  import opened PoolSettling
  import opened PoolFrames
  import opened PoolLaunching

  /** What carries the leases and the startups outside `except` from `p` to `q`. */
  ghost predicate Framed(p: Pool, q: Pool, except: set<nat>) {
    LeasesKept(p, q) && StartupsKept(p, q, except) && Evolves(p, q)
  }

  lemma FramedTransitive(p: Pool, q: Pool, r: Pool, except: set<nat>)
    requires Framed(p, q, except) && Framed(q, r, except)
    ensures Framed(p, r, except)
  {
    hide Evolves, LeasesKept, StartupsKept;
    EvolvesTransitive(p, q, r);
    LeasesKeptTransitive(p, q, r);
    StartupsKeptExceptTransitive(p, q, r, except);
  }

  lemma StartupsKeptExceptTransitive(p: Pool, q: Pool, r: Pool, except: set<nat>)
    requires StartupsKept(p, q, except) && StartupsKept(q, r, except)
    ensures StartupsKept(p, r, except)
  {
    forall t | t in p.launches && OutsideOf(p, t, except) ensures OutsideOf(q, t, except) {
    }
  }

  lemma SettlesFramed(p: Pool, q: Pool, except: set<nat>)
    requires Settles(p, q)
    ensures Framed(p, q, except)
  {
    hide Evolves, LeasesKept, Settles;
    SettlesEvolves(p, q);
    SettlesKeepsLeases(p, q);
    SettlesKeepsStartups(p, q);
    SettlesKeepsAll(p, q);
  }

  lemma SettlesKeepsAll(p: Pool, q: Pool)
    requires Settles(p, q)
    ensures q.startups == p.startups && q.launches == p.launches && q.nextStartup == p.nextStartup
    ensures q.closed == p.closed && q.started == p.started && q.starting == p.starting
  {
  }

  /** A plain change of the task sets and of startup `st` alone. */
  lemma PlainFramed(p: Pool, q: Pool, except: set<nat>)
    requires Plain(p, q)
    requires forall st :: st in p.startups && st !in except ==> st in q.startups && q.startups[st] == p.startups[st]
    requires forall st :: st in q.startups && st !in except ==> st in p.startups
    requires forall t :: OutsideOf(p, t, except) ==>
               (t in q.slots <==> t in p.slots) && (t in p.createTasks ==> t in q.createTasks || q.closed)
    ensures Framed(p, q, except)
  {
    hide Evolves, LeasesKept;
    PlainFrames(p, q);
  }

  lemma AssembleExcept(p: Pool, q: Pool, st: nat)
    requires Inv(p) && Held(q, {}) && Framed(p, q, {st}) && Attended(q) && Draining(q)
    requires StartupSound(q, st)
    ensures Inv(q) && Evolves(p, q)
  {
    hide Held, Leases, LeasesKept, StartupsKept, Attended, Draining, StartupSound, Evolves;
    InvParts(p);
    LeasesCarry(p, q);
    StartupsCarry(p, q, {st});
  }

  lemma SoundStartup(p: Pool, st: nat)
    requires Inv(p) && st in p.startups
    ensures StartupSound(p, st)
  {
    hide Core, Attended, Draining, StartupSound;
  }

  // ----- _start_once, first section -----

  lemma StartOnceHeld(p: Pool)
    requires Held(p, {}) && StartOnceResult(p) == Started && p.cfg.minBrowsers > 0
    ensures Held(StartOnce(p), {})
  {
    hide Held, LaunchMany, Physical;
    var st := p.nextStartup;
    var q := p.(started := true, starting := true, nextStartup := st + 1,
                startups := p.startups[st := Startup(Fresh(p.nextLaunch, p.cfg.minBrowsers), Waiting, false)]);
    HeldSame(p, q, {});
    SamePhysical(p, q);
    LaunchManyHeld(q, p.cfg.minBrowsers, Some(st));
  }

  lemma SamePhysical(p: Pool, q: Pool)
    requires q.slots == p.slots && q.createTasks == p.createTasks && q.watchers == p.watchers
    requires q.closeTasks == p.closeTasks && q.failedCloses == p.failedCloses
    ensures Physical(q) == Physical(p)
  {
  }

  lemma StartOnceFrames(p: Pool)
    requires LaunchesKnown(p.table, p.launches, p.nextLaunch, p.nextStartup) && SlotsKnown(p.slots, p.table)
    requires forall st :: st in p.startups ==> st < p.nextStartup
    requires Attended(p) && StartOnceResult(p) == Started && p.cfg.minBrowsers > 0
    ensures Framed(p, StartOnce(p), {p.nextStartup}) && Attended(StartOnce(p))
    ensures Draining(StartOnce(p)) && StartupSound(StartOnce(p), p.nextStartup)
  {
    hide LaunchMany, Physical, Evolves, StartupsKept, LeasesKept;
    var st := p.nextStartup;
    var tasks := Fresh(p.nextLaunch, p.cfg.minBrowsers);
    var m := p.(started := true, starting := true, nextStartup := st + 1,
                startups := p.startups[st := Startup(tasks, Waiting, false)]);
    var q := StartOnce(p);
    LaunchManyFacts(m, p.cfg.minBrowsers, Some(st));
    forall t ensures t in tasks <==> p.nextLaunch <= t < p.nextLaunch + p.cfg.minBrowsers {
      if p.nextLaunch <= t < p.nextLaunch + p.cfg.minBrowsers {
        assert tasks[t - p.nextLaunch] == t;
      }
    }
    LaunchedFramed(p, m, q, tasks);
  }

  lemma LaunchedFramed(p: Pool, m: Pool, q: Pool, tasks: seq<nat>)
    requires LaunchesKnown(p.table, p.launches, p.nextLaunch, p.nextStartup)
    requires m == p.(started := true, starting := true, nextStartup := p.nextStartup + 1,
                     startups := p.startups[p.nextStartup := Startup(tasks, Waiting, false)])
    requires q == m.(launches := q.launches, createTasks := q.createTasks, nextLaunch := q.nextLaunch) && !p.closed
    requires forall t :: t in p.createTasks ==> t in q.createTasks
    requires forall t :: t in q.createTasks ==> t in p.createTasks || t !in p.launches
    requires forall t :: t in p.launches ==> t in q.launches && q.launches[t] == p.launches[t]
    requires p.nextStartup !in p.startups
    ensures Framed(p, q, {p.nextStartup})
  {
    assert forall x :: IsClosing(q, x) <==> IsClosing(p, x);
  }

  lemma StartOnceInv(p: Pool)
    requires Inv(p)
    ensures Inv(StartOnce(p)) && Evolves(p, StartOnce(p))
  {
    hide Inv, Held, Framed, Attended, Draining, StartupSound, Evolves, LaunchMany, Physical, OpenOwned, ClosingOwned,
      Leases, StartupsSound, LaunchesKnown, TasksKnown, SlotsKnown;
    InvParts(p);
    if StartOnceResult(p) != Started {
      EvolvesSelf(p);
    } else if p.cfg.minBrowsers == 0 {
      FlagsInv(p, true, false);
    } else {
      StartOnceHeld(p);
      StartupNumbers(p);
      StartOnceFrames(p);
      AssembleExcept(p, StartOnce(p), p.nextStartup);
    }
  }

  lemma StartupNumbers(p: Pool)
    requires Inv(p)
    ensures forall st :: st in p.startups ==> st < p.nextStartup
  {
    hide Core, Attended, Draining;
  }

  lemma FlagsInv(p: Pool, started: bool, starting: bool)
    requires Inv(p)
    ensures var q := p.(started := started, starting := starting);
            Inv(q) && Evolves(p, q)
  {
    hide Inv, Held, LeasesKept, StartupsKept, Evolves, OpenOwned, ClosingOwned, Leases, StartupsSound,
      LaunchesKnown, TasksKnown, SlotsKnown;
    var q := p.(started := started, starting := starting);
    InvParts(p);
    HeldSame(p, q, {});
    PlainFrames(p, q);
    FlagsStartups(p, q);
    Assemble(p, q);
  }

  lemma FlagsStartups(p: Pool, q: Pool)
    requires q == p.(started := q.started, starting := q.starting)
    ensures StartupsKept(p, q, {})
  {
    assert forall x :: IsClosing(q, x) <==> IsClosing(p, x);
  }

  // ----- the wait for the launches is interrupted, or some launch did not succeed -----

  /** Every launch in flight of a startup is one of its tasks, and nobody else's. */
  lemma OwnTasks(p: Pool, st: nat)
    requires Inv(p) && st in p.startups
    ensures forall t :: t in p.createTasks && t in p.launches && p.launches[t].startup == Some(st) ==>
              t in p.startups[st].tasks
    ensures forall t :: t in p.startups[st].tasks ==> t in p.launches && p.launches[t].startup == Some(st)
    ensures forall t :: t in p.createTasks ==> t !in p.watchers && t in p.launches
  {
    assert StartupSound(p, st);
  }

  lemma StartupAbortedInv(p: Pool, st: nat)
    requires Inv(p)
    ensures Inv(StartupAborted(p, st)) && Evolves(p, StartupAborted(p, st))
  {
    hide Inv, Held, Framed, Attended, Draining, StartupSound, Evolves, OpenOwned, ClosingOwned, Leases, StartupsSound,
      LaunchesKnown, TasksKnown, SlotsKnown, StartupAborted;
    if !InPhase(p, st, Waiting) {
      StaysPut(p, st);
      EvolvesSelf(p);
    } else {
      InvParts(p);
      StartupAbortedHeld(p, st);
      OwnTasks(p, st);
      SoundStartup(p, st);
      StartupAbortedFrames(p, st);
      AssembleExcept(p, StartupAborted(p, st), st);
    }
  }

  lemma StaysPut(p: Pool, st: nat)
    requires !InPhase(p, st, Waiting)
    ensures StartupAborted(p, st) == p
  {
  }

  lemma StartupAbortedHeld(p: Pool, st: nat)
    requires Held(p, {}) && InPhase(p, st, Waiting)
    ensures Held(StartupAborted(p, st), {})
  {
    hide Held, AbandonCreates;
    var m := SetPhase(p, st, Finished);
    HeldSame(p, m, {});
    AbandonCreatesHeld(m, Elements(p.startups[st].tasks), {});
    HeldSame(AbandonCreates(m, Elements(p.startups[st].tasks)), StartupAborted(p, st), {});
  }

  lemma StartupAbortedFrames(p: Pool, st: nat)
    requires InPhase(p, st, Waiting) && Attended(p) && Draining(p) && StartupSound(p, st)
    requires forall t :: t in p.createTasks && t in p.launches && p.launches[t].startup == Some(st) ==>
               t in p.startups[st].tasks
    requires forall t :: t in p.createTasks ==> t !in p.watchers && t in p.launches
    ensures Framed(p, StartupAborted(p, st), {st}) && Attended(StartupAborted(p, st))
    ensures Draining(StartupAborted(p, st)) && StartupSound(StartupAborted(p, st), st)
  {
    hide Framed, Draining, StartupSound;
    var q := StartupAborted(p, st);
    AbortedShape(p, st);
    PlainFramed(p, q, {st});
  }

  lemma AbortedShape(p: Pool, st: nat)
    requires InPhase(p, st, Waiting) && Draining(p) && StartupSound(p, st)
    ensures Draining(StartupAborted(p, st)) && StartupSound(StartupAborted(p, st), st)
    ensures forall t :: t in p.startups[st].tasks ==> t in p.launches && p.launches[t].startup == Some(st)
  {
  }

  /** The launches of a startup that is still owed a registration are all free to be closed once
      they have left the launches in flight. */
  lemma OwedTasks(p: Pool, st: nat)
    requires OpenOwned(p, {}) && StartupSound(p, st) && p.startups[st].phase !in {Finished, Deserted}
    ensures forall t :: t in p.startups[st].tasks && t in p.table ==>
              (t in p.watchers ==> p.closed)
              && (p.startups[st].phase != Registered ==> IsClosing(p, t) || p.table[t].activeContexts == 0)
    ensures forall t :: t in p.startups[st].tasks && t in p.table && !p.closed && p.startups[st].phase != Registered ==>
              t in p.createTasks && !IsClosing(p, t)
  {
  }

  /** A plain change that takes tasks of startup `st` out of the launches in flight. */
  lemma OwnChangeFramed(p: Pool, q: Pool, st: nat)
    requires Plain(p, q) && StartupSound(p, st)
    requires q.startups.Keys == p.startups.Keys
    requires forall x :: x in p.startups && x != st ==> q.startups[x] == p.startups[x]
    requires forall t :: t !in p.startups[st].tasks ==> (t in q.slots <==> t in p.slots)
    requires forall t :: t in p.createTasks && t !in p.startups[st].tasks ==> t in q.createTasks
    ensures Framed(p, q, {st})
  {
    hide Framed, Plain;
    PlainKeeps(p, q);
    forall t | OutsideOf(p, t, {st})
      ensures (t in q.slots <==> t in p.slots) && (t in p.createTasks ==> t in q.createTasks || q.closed)
    {
      assert t !in p.startups[st].tasks;
    }
    PlainFramed(p, q, {st});
  }

  lemma PlainKeeps(p: Pool, q: Pool)
    requires Plain(p, q)
    ensures q.launches == p.launches && q.table == p.table
  {
  }

  predicate AwaitsLaunches(phase: Phase) {
    phase == Waiting || phase == Registering || phase == Deserted
  }

  /** A change of phase alone. */
  lemma PhaseInv(p: Pool, q: Pool, st: nat)
    requires Inv(p) && st in p.startups && q == p.(startups := q.startups, started := q.started, starting := q.starting)
    requires q.startups.Keys == p.startups.Keys
    requires forall x :: x in p.startups && x != st ==> q.startups[x] == p.startups[x]
    requires Elements(q.startups[st].tasks) == Elements(p.startups[st].tasks)
    requires AwaitsLaunches(p.startups[st].phase) ==> AwaitsLaunches(q.startups[st].phase)
    requires StartupSound(q, st)
    ensures Inv(q) && Evolves(p, q)
  {
    hide Inv, Held, Framed, Draining, StartupSound, Evolves, OpenOwned, ClosingOwned, Leases, StartupsSound,
      LaunchesKnown, TasksKnown, SlotsKnown, Attended;
    InvParts(p);
    HeldSame(p, q, {});
    SoundStartup(p, st);
    assert forall t :: t in q.startups[st].tasks ==> t in Elements(q.startups[st].tasks);
    assert forall t :: t in p.startups[st].tasks <==> t in Elements(p.startups[st].tasks);
    OwnChangeFramed(p, q, st);
    PhaseAttended(p, q, st);
    PhaseDraining(p, q);
    AssembleExcept(p, q, st);
  }

  lemma PhaseAttended(p: Pool, q: Pool, st: nat)
    requires Attended(p) && q.launches == p.launches && q.createTasks == p.createTasks && st in p.startups
    requires q.startups.Keys == p.startups.Keys
    requires forall x :: x in p.startups && x != st ==> q.startups[x] == p.startups[x]
    requires forall t :: t in p.startups[st].tasks ==> t in q.startups[st].tasks
    requires AwaitsLaunches(p.startups[st].phase) ==> AwaitsLaunches(q.startups[st].phase)
    ensures Attended(q)
  {
  }

  lemma PhaseDraining(p: Pool, q: Pool)
    requires Draining(p) && q.closed == p.closed && q.createTasks == p.createTasks && q.slots == p.slots
             && q.table == p.table
    ensures Draining(q)
  {
  }

  lemma StartupDesertedInv(p: Pool, st: nat)
    requires Inv(p)
    ensures Inv(StartupDeserted(p, st)) && Evolves(p, StartupDeserted(p, st))
  {
    hide Inv, Evolves, StartupSound;
    if InPhase(p, st, Waiting) {
      SoundStartup(p, st);
      DesertedSound(p, st);
      PhaseInv(p, StartupDeserted(p, st), st);
    } else {
      EvolvesSelf(p);
    }
  }

  lemma DesertedSound(p: Pool, st: nat)
    requires StartupSound(p, st)
    ensures StartupSound(SetPhase(p, st, Deserted), st)
  {
  }

  lemma StartupCompletedInv(p: Pool, st: nat, order: seq<nat>)
    requires Inv(p)
    ensures Inv(StartupCompleted(p, st, order)) && Evolves(p, StartupCompleted(p, st, order))
  {
    hide Inv, Evolves, StartupSound;
    var q := StartupCompleted(p, st, order);
    if InPhase(p, st, Waiting) && Elements(order) == Elements(p.startups[st].tasks) && Distinct(order)
       && (forall t :: t in p.startups[st].tasks ==> t in p.table) {
      SoundStartup(p, st);
      CompletedSound(p, st, order);
      PhaseInv(p, q, st);
    } else {
      EvolvesSelf(p);
    }
  }

  lemma CompletedSound(p: Pool, st: nat, order: seq<nat>)
    requires StartupSound(p, st) && p.startups[st].phase == Waiting
    requires Elements(order) == Elements(p.startups[st].tasks) && Distinct(order)
    requires forall t :: t in p.startups[st].tasks ==> t in p.table
    ensures StartupSound(p.(startups := p.startups[st := Startup(order, Registering, p.startups[st].cancelled)]), st)
  {
    assert forall t :: t in order ==> t in Elements(order);
    assert forall t :: t in Elements(p.startups[st].tasks) ==> t in p.startups[st].tasks;
  }

  lemma StartupReturnedInv(p: Pool, st: nat)
    requires Inv(p)
    ensures Inv(StartupReturned(p, st)) && Evolves(p, StartupReturned(p, st))
  {
    hide Inv, Evolves, StartupSound;
    if InPhase(p, st, Registered) && !p.startups[st].cancelled {
      SoundStartup(p, st);
      assert StartupSound(StartupReturned(p, st), st) by { FinishedSound(p, st); }
      PhaseInv(p, StartupReturned(p, st), st);
    } else {
      EvolvesSelf(p);
    }
  }

  lemma FinishedSound(p: Pool, st: nat)
    requires StartupSound(p, st)
    ensures forall flag :: StartupSound(SetPhase(p, st, Finished).(starting := flag), st)
  {
  }

  lemma StartupCancelledInv(p: Pool, st: nat)
    requires Inv(p)
    ensures Inv(StartupCancelled(p, st)) && Evolves(p, StartupCancelled(p, st))
  {
    hide Inv, Evolves, StartupSound;
    if (InPhase(p, st, Registering) || InPhase(p, st, Registered)) && !p.startups[st].cancelled {
      SoundStartup(p, st);
      CancelledSound(p, st);
      PhaseInv(p, StartupCancelled(p, st), st);
    } else {
      EvolvesSelf(p);
    }
  }

  lemma CancelledSound(p: Pool, st: nat)
    requires StartupSound(p, st)
    ensures StartupSound(StartupCancelled(p, st), st)
  {
  }
}
