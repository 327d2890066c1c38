/** The pool's wake-ups: a section after which a parked caller could be served, and that does not notify,
    is an acquisition that retired a ready browser. */
module PoolWakeups {
  import opened Basics
  import opened PoolState
  import opened PoolInvariant
  import opened PoolSettling
  import opened PoolFrames
  import opened PoolLaunching
  import opened PoolHandoff
  import opened PoolLeases
  import opened PoolRuns
  import opened PoolClosing

  /** The sections that end with `notify_all`. */
  predicate Notifies(e: Event) {
    || e.StartAborted? || e.StartFails? || e.Registers? || e.StartRecovers? || e.Refreshes? || e.Maintains?
    || e.Quiesces? || e.CloseBegins? || e.SlotReleased? || e.PersistentReleased? || e.SupervisorTimesOut?
    || e.SupervisorSettles? || e.WatcherFinishes? || e.CloseEnds? || e.CloseReconciled? || e.ProcessExitReconciled?
  }

  /** A browser in service has room for a context. */
  predicate HasRoom(p: Pool, s: nat) {
    s in p.slots && s in p.table && InService(p.table[s]) && p.table[s].activeContexts < p.cfg.maxContexts
  }

  predicate Room(p: Pool) {
    exists s :: s in p.slots && HasRoom(p, s)
  }

  /** A caller that has not launched yet could launch. */
  predicate Gate(p: Pool) {
    Usable(p) < p.cfg.maxBrowsers && Physical(p) < p.cfg.Ceiling() && |p.watchers| < p.cfg.Ceiling()
  }

  // ----- sections that offer nothing new -----

  predicate SameService(a: Slot, b: Slot) {
    b.state == a.state && b.retireReason == a.retireReason && b.activeContexts == a.activeContexts
  }

  /** The listed browsers serve as before, and launches are only added. */
  ghost predicate Offerless(p: Pool, q: Pool) {
    && q.cfg == p.cfg && q.slots == p.slots && q.watchers == p.watchers && p.createTasks <= q.createTasks
    && q.closeTasks.Keys == p.closeTasks.Keys && q.failedCloses == p.failedCloses
    && q.closed == p.closed && q.failureGeneration == p.failureGeneration
    && (forall s :: s in p.slots ==> s in p.table && s in q.table && SameService(p.table[s], q.table[s]))
  }

  lemma NothingOffered(p: Pool, q: Pool)
    requires Offerless(p, q)
    ensures Room(q) ==> Room(p)
    ensures Gate(q) ==> Gate(p)
  {
    if Room(q) {
      var s :| s in q.slots && HasRoom(q, s);
      assert HasRoom(p, s);
    }
    assert ReadyIds(q) == ReadyIds(p);
    CardSubset(p.createTasks, q.createTasks);
  }

  ghost predicate Listed(p: Pool) {
    forall s :: s in p.slots ==> s in p.table
  }

  lemma StartOffersNothing(p: Pool)
    requires Listed(p)
    ensures Offerless(p, StartOnce(p))
  {
    hide LaunchMany, Physical, Fresh;
    if StartOnceResult(p) == Started && p.cfg.minBrowsers != 0 {
      var q := p.(started := true, starting := true, nextStartup := p.nextStartup + 1,
                  startups := p.startups[p.nextStartup :=
                      Startup(Fresh(p.nextLaunch, p.cfg.minBrowsers), Waiting, false)]);
      LaunchManyFacts(q, p.cfg.minBrowsers, Some(p.nextStartup));
    }
  }

  lemma StartupsApart(p: Pool, startups: map<nat, Startup>, started: bool, starting: bool)
    requires Listed(p)
    ensures Offerless(p, p)
    ensures Offerless(p, p.(startups := startups, started := started, starting := starting))
  {
  }

  lemma StartupOffersNothing(p: Pool, st: nat)
    requires Listed(p)
    ensures Offerless(p, StartupDeserted(p, st))
    ensures Offerless(p, StartupReturned(p, st))
    ensures Offerless(p, StartupCancelled(p, st))
  {
    hide Offerless;
    StartupsApart(p, p.startups, p.started, p.starting);
    if st in p.startups {
      var s := p.startups[st];
      StartupsApart(p, p.startups[st := s.(phase := Deserted)], p.started, p.starting);
      StartupsApart(p, p.startups[st := s.(phase := Finished)], p.started, false);
      StartupsApart(p, p.startups[st := s.(cancelled := true)], false, false);
    }
  }

  lemma CompletionOffersNothing(p: Pool, st: nat, order: seq<nat>)
    requires Listed(p)
    ensures Offerless(p, StartupCompleted(p, st, order))
  {
    hide Elements, Distinct, Offerless;
    StartupsApart(p, p.startups, p.started, p.starting);
    if st in p.startups {
      StartupsApart(p, p.startups[st := Startup(order, Registering, p.startups[st].cancelled)], p.started, p.starting);
    }
  }

  lemma CallersApart(p: Pool, persistent: int, tickets: map<nat, Ticket>, nextTicket: nat, waiters: map<nat, Waiter>,
                     nextWaiter: nat)
    requires Listed(p)
    ensures Offerless(p, p)
    ensures Offerless(p, p.(persistent := persistent, tickets := tickets, nextTicket := nextTicket))
    ensures Offerless(p, p.(tickets := tickets, waiters := waiters, nextWaiter := nextWaiter))
  {
  }

  lemma CallersOfferNothing(p: Pool, kind: Kind, deadline: int)
    requires Listed(p)
    ensures Offerless(p, AcquireBegin(p, kind, deadline))
    ensures Offerless(p, PersistentOpen(p))
  {
    hide Offerless;
    var w := Waiter(kind, deadline, p.failureGeneration, false, false);
    CallersApart(p, p.persistent + 1, p.tickets[p.nextTicket := Ticket(false, false)], p.nextTicket + 1, p.waiters,
        p.nextWaiter);
    CallersApart(p, p.persistent, if kind.Persistent? then p.tickets[kind.ticket := Ticket(false, true)] else p.tickets,
                 p.nextTicket, p.waiters[p.nextWaiter := w], p.nextWaiter + 1);
  }

  lemma UnparkOffersNothing(p: Pool, id: nat, leaves: bool)
    requires Listed(p)
    ensures Offerless(p, Unpark(p, id, leaves))
  {
    hide StopWaiting, Offerless;
    if id in p.waiters {
      StopShape(p, id);
      var left := p.waiters - {id};
      var awake := p.waiters[id := p.waiters[id].(parked := false)];
      FewerWaiters(p, p, left);
      FewerWaiters(p, p, awake);
      FewerWaiters(p, p.(raised := true), left);
      FewerWaiters(p, p.(raised := true), awake);
      FewerWaiters(p, p.(waiting := p.waiting - 1), left);
      FewerWaiters(p, p.(waiting := p.waiting - 1), awake);
    } else {
      SelfOffersNothing(p);
    }
  }

  lemma SelfOffersNothing(p: Pool)
    requires Listed(p)
    ensures Offerless(p, p)
  {
  }

  lemma FewerWaiters(p: Pool, q: Pool, waiters: map<nat, Waiter>)
    requires Listed(p) && q == p.(raised := q.raised, waiting := q.waiting)
    ensures Offerless(p, q.(waiters := waiters))
  {
  }

  lemma LaunchesOfferNothing(p: Pool, t: nat, now: int)
    requires Inv(p)
    ensures Offerless(p, LaunchReturns(p, t, now))
    ensures Offerless(p, LaunchFails(p, t))
  {
    hide Inv;
    NoNegativeSlots(p);
    if t in p.launches && p.launches[t].outcome == Running {
      RunningIsNew(p, t);
    }
  }

  lemma MarksApart(p: Pool, abortedCloses: set<(nat, nat)>, physicallyClosed: set<nat>, s: nat)
    requires Listed(p)
    ensures Offerless(p, p)
    ensures Offerless(p, p.(abortedCloses := abortedCloses)) && Offerless(p, p.(physicallyClosed := physicallyClosed))
    ensures s in p.table ==> Offerless(p, p.(table := p.table[s := p.table[s].(connected := false)]))
  {
  }

  lemma MarksOfferNothing(p: Pool, s: nat)
    requires Listed(p)
    ensures Offerless(p, CloseAborted(p, s))
    ensures Offerless(p, PhysicalCloseFinished(p, s))
    ensures Offerless(p, BrowserDies(p, s))
  {
    hide Offerless;
    MarksApart(p, p.abortedCloses, p.physicallyClosed + {s}, s);
    if s in p.closeTasks {
      MarksApart(p, p.abortedCloses + {(s, p.closeTasks[s])}, p.physicallyClosed, s);
    }
  }

  lemma SilentOffersNothing(p: Pool, e: Event)
    requires Inv(p) && !Notifies(e) && !e.AcquireTurns?
    ensures Offerless(p, Step(p, e))
  {
    hide Inv, Offerless, StartOnce, StartupDeserted, StartupCompleted, StartupReturned, StartupCancelled, AcquireBegin,
      Unpark, PersistentOpen, LaunchReturns, LaunchFails, CloseAborted, PhysicalCloseFinished, BrowserDies;
    NoNegativeSlots(p);
    match e
    case StartBegins => StartOffersNothing(p);
    case StartDeserted(st) => StartupOffersNothing(p, st);
    case StartCompletes(st, order) => CompletionOffersNothing(p, st, order);
    case StartReturns(st) => StartupOffersNothing(p, st);
    case StartIsCancelled(st) => StartupOffersNothing(p, st);
    case AcquireBegins(kind, deadline) => CallersOfferNothing(p, kind, deadline);
    case WaiterWakes(w) => UnparkOffersNothing(p, w, false);
    case WaiterLeaves(w) => UnparkOffersNothing(p, w, true);
    case PersistentOpens => CallersOfferNothing(p, Transient, 0);
    case BrowserLaunched(t, now) => LaunchesOfferNothing(p, t, now);
    case BrowserFailed(t) => LaunchesOfferNothing(p, t, 0);
    case CloseDies(s) => MarksOfferNothing(p, s);
    case ProcessExits(s) => MarksOfferNothing(p, s);
    case Disconnects(s) => MarksOfferNothing(p, s);
  }

  // ----- an acquisition -----

  /** Every browser in the list or closing. */
  function Bodies(p: Pool): set<nat> {
    Elements(p.slots) + p.closeTasks.Keys + p.failedCloses
  }

  lemma BodiesCount(p: Pool)
    requires SlotsKnown(p.slots, p.table) && ClosingOwned(p) && OpenOwned(p, {})
    ensures |Bodies(p)| == |p.slots| + |p.closeTasks| + |p.failedCloses|
  {
    SlotsAreDistinct(p);
    ElementsCard(p.slots);
    var slots, tasks := Elements(p.slots), p.closeTasks.Keys;
    forall s | s in slots ensures s !in tasks && s !in p.failedCloses {
      assert s in p.slots && !IsClosing(p, s);
    }
    assert |slots + tasks| == |slots| + |tasks|;
    assert |slots + tasks + p.failedCloses| == |slots + tasks| + |p.failedCloses|;
  }

  /** A section that only settles slots, and accepts no close, loses no browser. */
  lemma SettlingKeepsBodies(p: Pool, q: Pool)
    requires Settles(p, q) && q.accepted == p.accepted && ClosingOwned(p) && ClosingOwned(q) && OpenOwned(p, {})
    ensures Bodies(p) <= Bodies(q)
  {
    forall s | s in Bodies(p) ensures s in Bodies(q) {
      if s in p.slots {
        assert s in q.slots || IsClosing(q, s);
        assert !IsClosing(p, s);
      } else {
        assert IsClosing(p, s) && s in p.table && SlotSettles(p.table[s], q.table[s]);
        assert IsClosing(q, s);
      }
    }
  }

  /** `q` offers no room that `p` lacks, has no fewer browsers, and as many launches at least. */
  ghost predicate NoMore(p: Pool, q: Pool) {
    && q.cfg == p.cfg && q.watchers == p.watchers && p.createTasks <= q.createTasks
    && q.closed == p.closed && q.failureGeneration == p.failureGeneration
    && Physical(p) <= Physical(q)
    && (Room(q) ==> Room(p))
  }

  lemma RefreshOffersNothing(p: Pool, now: int)
    requires Inv(p)
    ensures NoMore(p, RefreshRecycling(p, now))
  {
    hide Inv, RefreshRecycling, Held, Evolves, SlotsKnown, ClosingOwned, OpenOwned, Quiet, RetriesBounded, Hard;
    var q := RefreshRecycling(p, now);
    InvParts(p);
    RefreshRecyclingHeld(p, now);
    RefreshRecyclingInv(p, now);
    InvParts(q);
    RefreshAccepts(p, now);
    SettlingKeepsBodies(p, q) by { hide Bodies; }
    BodiesCount(p);
    BodiesCount(q);
    CardSubset(Bodies(p), Bodies(q));
    SettlingKeepsRoom(p, q);
  }

  lemma RefreshAccepts(p: Pool, now: int)
    ensures RefreshRecycling(p, now).accepted == p.accepted
  {
    hide RefreshRecycling;
    RefreshRecyclingQuiet(p, now);
  }

  lemma SettlingKeepsRoom(p: Pool, q: Pool)
    requires Settles(p, q)
    ensures Room(q) ==> Room(p)
  {
    if Room(q) {
      var s :| s in q.slots && HasRoom(q, s);
      assert s in p.slots && s in p.table && SlotSettles(p.table[s], q.table[s]);
      assert HasRoom(p, s);
    }
  }

  lemma ReserveOffersNothing(p: Pool, s: nat, kind: Kind, now: int)
    requires s in p.table && p.table[s].state != Closing && !Hard(p.table[s])
             && p.table[s].activeContexts < p.cfg.maxContexts
    ensures NoMore(p, Reserve(p, s, kind, now))
  {
    hide Reserve, ReservedSlot;
    var q := Reserve(p, s, kind, now);
    ReserveShape(p, s, kind, now);
    ReserveCounts(p.cfg, p.table[s], now);
    if Room(q) {
      var x :| x in q.slots && HasRoom(q, x);
      assert HasRoom(p, x);
    }
  }

  lemma ParkOffersNothing(p: Pool, id: nat, w: Waiter, later: int)
    requires Inv(p)
    ensures NoMore(p, AcquireOrPark(p, id, w, later).0)
  {
    hide Inv, MayLaunch, NoMore, StartCreate;
    LaunchOffersNothing(p);
    WaitersNoMore(p, p.waiters);
    WaitersNoMore(p, p.waiters - {id});
    if p.failureGeneration == w.generation || !p.lastFailure {
      var launch := MayLaunch(p, w);
      var q := if launch then StartCreate(p, None) else p;
      assert NoMore(p, q);
      WaitingNoMore(q, q.waiting, q.waiters - {id});
      NoMoreTransitive(p, q, q.(waiters := q.waiters - {id}));
      var waiters := q.waiters[id := w.(launched := w.launched || launch, parked := true)];
      WaitingNoMore(q, q.waiting + 1, waiters);
      NoMoreTransitive(p, q, q.(waiting := q.waiting + 1, waiters := waiters));
    }
  }

  lemma LaunchOffersNothing(p: Pool)
    requires Inv(p)
    ensures NoMore(p, StartCreate(p, None))
  {
    hide Inv;
    NoNegativeSlots(p);
    InvParts(p);
    StartCreateGrows(p, None);
    LaunchKeepsService(p);
    NothingOffered(p, StartCreate(p, None));
  }

  lemma LaunchKeepsService(p: Pool)
    requires Listed(p)
    ensures Offerless(p, StartCreate(p, None))
  {
  }

  lemma WaitingNoMore(p: Pool, waiting: int, waiters: map<nat, Waiter>)
    ensures NoMore(p, p.(waiting := waiting, waiters := waiters)) && NoMore(p, p.(waiters := waiters))
  {
    WaitersNoMore(p, waiters);
    var q := p.(waiting := waiting, waiters := waiters);
    if Room(q) {
      var s :| s in q.slots && HasRoom(q, s);
      assert HasRoom(p, s);
    }
  }

  lemma NoMoreTransitive(p: Pool, q: Pool, r: Pool)
    requires NoMore(p, q) && NoMore(q, r)
    ensures NoMore(p, r)
  {
    hide Room, Physical;
  }

  lemma WaitersNoMore(p: Pool, waiters: map<nat, Waiter>)
    ensures NoMore(p, p.(waiters := waiters))
  {
    assert Room(p.(waiters := waiters)) ==> Room(p) by {
      if Room(p.(waiters := waiters)) {
        var s :| s in p.slots && HasRoom(p.(waiters := waiters), s);
        assert HasRoom(p, s);
      }
    }
  }

  lemma TurnOffersNothing(p: Pool, id: nat, now: int, check: int, later: int)
    requires Inv(p) && id in p.waiters
    ensures NoMore(p, AcquireTurn(p, id, now, check, later).0)
  {
    hide Inv, NoMore, RefreshRecycling, Reserve, AcquireOrPark, Evolves, ShouldRecycle;
    var w := p.waiters[id];
    WaitersNoMore(p, p.waiters - {id});
    if !p.closed && now < w.deadline {
      var q := RefreshRecycling(p, now);
      RefreshOffersNothing(p, now);
      RefreshRecyclingInv(p, now);
      ServeOffersNothing(q, id, w, check, later);
      NoMoreTransitive(p, q, ServeOrPark(q, id, w, check, later).0);
    }
  }

  lemma ServeOffersNothing(q: Pool, id: nat, w: Waiter, check: int, later: int)
    requires Inv(q)
    ensures NoMore(q, ServeOrPark(q, id, w, check, later).0)
  {
    hide Inv, NoMore, Reserve, AcquireOrPark, ShouldRecycle;
    var healthy := FirstHealthy(q, q.slots, check);
    var found := if healthy.Some? then healthy else FirstSoft(q, q.slots);
    if found.Some? {
      var m := Reserve(q, found.value, w.kind, check);
      ReserveOffersNothing(q, found.value, w.kind, check);
      WaitersNoMore(m, q.waiters - {id});
      NoMoreTransitive(q, m, m.(waiters := q.waiters - {id}));
    } else {
      ParkOffersNothing(q, id, w, later);
    }
  }

  // ----- the theorem -----

  lemma FewerReady(p: Pool, q: Pool)
    requires NoMore(p, q) && Gate(q) && !Gate(p)
    ensures exists s :: s in ReadyIds(p) && s !in ReadyIds(q)
  {
    hide ReadyIds, Room, Physical;
    CardSubset(p.createTasks, q.createTasks);
    if ReadyIds(p) <= ReadyIds(q) {
      CardSubset(ReadyIds(p), ReadyIds(q));
    }
  }

  /** Whatever a parked caller could be served by comes with a notification: no section without one makes
      room on a browser in service, closes the pool or reports a failed launch; and only an acquisition
      that retires a ready browser lets a caller launch that could not. */
  lemma OpportunitiesAreAnnounced(p: Pool, e: Event)
    requires Reachable(p) && !Notifies(e)
    ensures var q := Step(p, e);
            && q.closed == p.closed && q.failureGeneration == p.failureGeneration
            && (Room(q) ==> Room(p))
            && (Gate(q) && !Gate(p) ==> e.AcquireTurns? && exists s :: s in ReadyIds(p) && s !in ReadyIds(q))
  {
    hide Inv, Reachable, Room, Gate, ReadyIds, Physical;
    ReachableInv(p);
    if e.AcquireTurns? {
      TurnStep(p, e);
      if Gate(Step(p, e)) && !Gate(p) {
        FewerReady(p, Step(p, e));
      }
    } else {
      SilentOffersNothing(p, e);
      NothingOffered(p, Step(p, e));
    }
  }

  lemma TurnStep(p: Pool, e: Event)
    requires Inv(p) && e.AcquireTurns?
    ensures NoMore(p, Step(p, e))
  {
    hide Inv, NoMore, AcquireTurn;
    WaitersNoMore(p, p.waiters);
    if e.waiter in p.waiters && !p.waiters[e.waiter].parked {
      TurnOffersNothing(p, e.waiter, e.now, e.check, e.later);
    }
  }

  /** That happens: the caller that leases the only browser uses it up, so that it counts as capacity no
      longer. Another caller could now launch one, and nobody is told. */
  lemma LastUseOpensTheGate()
    ensures var p := Serving();
            var (after, result) := AcquireTurn(p, 0, 4, 4, 4);
            && Reachable(p) && 0 in p.waiters && !p.waiters[0].parked && result.Leased?
            && !Gate(p) && Gate(after)
  {
    hide Reachable, RefreshRecycling, ServeOrPark, AcquireTurn, Gate;
    ServingIsReachable();
    ServingStays();
    TurnServes(Serving(), 0, 4, 4, 4);
    ServingIsUsedUp();
    ServingIsFull();
  }

  lemma ServingIsFull()
    ensures !Gate(Serving())
  {
    assert ReadyIds(Serving()) == {0};
  }

  lemma ServingIsUsedUp()
    ensures var p := Serving();
            var (after, result) := ServeOrPark(p, 0, p.waiters[0], 4, 4);
            result.Leased? && Gate(after)
  {
    hide Reserve;
    var p := Serving();
    var m := Reserve(p, 0, Transient, 4);
    assert FirstHealthy(p, [0], 4) == Some(0);
    UsedUpOpens(p.waiters - {0});
  }

  lemma UsedUpOpens(waiters: map<nat, Waiter>)
    ensures Gate(Reserve(Serving(), 0, Transient, 4).(waiters := waiters))
  {
    var m := Reserve(Serving(), 0, Transient, 4).(waiters := waiters);
    assert ReadyIds(m) == {};
  }
}
