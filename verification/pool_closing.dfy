/** How closes of browsers end: one is accepted only for a reason, and while the pool serves a browser
    that will not close is retried a bounded number of times, each time later. */
module PoolClosing {
  import opened Basics
  import opened PoolState
  import opened PoolInvariant
  import opened PoolFrames
  import opened PoolLaunching
  import opened PoolHandoff
  import opened PoolLeases
  import opened PoolRuns

  /** A slot's failed closes are counted from its first close, and a slot that used up its retries has no
      close task. */
  predicate FewFailures(p: Pool, s: nat)
    requires s in p.table
  {
    && p.table[s].closeFailures <= MAX_CLOSE_RETRIES
    && (p.table[s].state != Closing ==> p.table[s].closeFailures == 0)
    && (s in p.closeTasks ==> p.table[s].closeFailures < MAX_CLOSE_RETRIES)
  }

  ghost predicate RetriesBounded(p: Pool) {
    forall s :: s in p.table ==> FewFailures(p, s)
  }

  /** Closing slot `s` goes on closing, with its failures and the time of its next retry as they were. */
  predicate SameWait(p: Pool, q: Pool, s: nat)
    requires s in p.table
  {
    && s in q.table && q.table[s].state == Closing
    && q.table[s].closeFailures == p.table[s].closeFailures
    && q.table[s].nextCloseRetryAt == p.table[s].nextCloseRetryAt
  }

  /** It is taken up again. */
  predicate TakenUp(p: Pool, q: Pool, s: nat) {
    s in q.closeTasks && s !in p.closeTasks
  }

  /** Nothing is accepted or found gone, the bound on retries is kept, and no failed close is taken up. */
  ghost predicate Quiet(p: Pool, q: Pool) {
    && q.accepted == p.accepted && q.physicallyClosed == p.physicallyClosed
    && (RetriesBounded(p) ==> RetriesBounded(q))
    && forall s :: IsClosing(p, s) ==> SameWait(p, q, s) && !TakenUp(p, q, s)
  }

  /** The same, but for failed closes whose time has come at `now`. */
  ghost predicate QuietAt(p: Pool, q: Pool, now: int) {
    && q.accepted == p.accepted && q.physicallyClosed == p.physicallyClosed
    && (RetriesBounded(p) ==> RetriesBounded(q))
    && forall s :: IsClosing(p, s) ==> SameWait(p, q, s) && (TakenUp(p, q, s) ==> now >= p.table[s].nextCloseRetryAt)
  }

  lemma QuietAnytime(p: Pool, q: Pool, now: int)
    requires Quiet(p, q)
    ensures QuietAt(p, q, now)
  {
  }

  lemma QuietAtTransitive(p: Pool, q: Pool, r: Pool, now: int)
    requires QuietAt(p, q, now) && QuietAt(q, r, now)
    ensures QuietAt(p, r, now)
  {
    forall s | IsClosing(p, s) ensures SameWait(p, r, s) && (TakenUp(p, r, s) ==> now >= p.table[s].nextCloseRetryAt) {
      assert SameWait(p, q, s) && IsClosing(q, s);
    }
  }

  // ----- the parts of the sections -----

  /** Slots and close tasks as before: nothing happens to any close. */
  predicate SameCloses(p: Pool, q: Pool) {
    && q.table == p.table && q.closeTasks == p.closeTasks && q.accepted == p.accepted
    && q.physicallyClosed == p.physicallyClosed
  }

  lemma Untouched(p: Pool, q: Pool)
    requires SameCloses(p, q)
    ensures Quiet(p, q)
  {
    if RetriesBounded(p) {
      forall s | s in q.table ensures FewFailures(q, s) {
        assert FewFailures(p, s);
      }
    }
  }

  lemma QuietTransitive(p: Pool, q: Pool, r: Pool)
    requires Quiet(p, q) && Quiet(q, r)
    ensures Quiet(p, r)
  {
    forall s | IsClosing(p, s) ensures SameWait(p, r, s) && !TakenUp(p, r, s) {
      assert SameWait(p, q, s) && IsClosing(q, s);
    }
  }

  /** One slot is changed and closed at most for the first time. */
  lemma SlotQuiet(p: Pool, q: Pool, s: nat)
    requires s in p.table && q.table.Keys == p.table.Keys && q.table[s].closeFailures == p.table[s].closeFailures
    requires forall x :: x in p.table && x != s ==>
               q.table[x] == p.table[x] && (x in q.closeTasks ==> x in p.closeTasks)
    requires p.table[s].state == Closing ==>
               q.table[s].state == Closing && (s in q.closeTasks ==> s in p.closeTasks)
               && q.table[s].nextCloseRetryAt == p.table[s].nextCloseRetryAt
    requires q.accepted == p.accepted && q.physicallyClosed == p.physicallyClosed
    ensures Quiet(p, q)
  {
    if RetriesBounded(p) {
      forall x | x in q.table ensures FewFailures(q, x) {
        assert FewFailures(p, x);
      }
    }
  }

  lemma MarkRetiringQuiet(p: Pool, s: nat, reason: Reason)
    ensures Quiet(p, MarkRetiring(p, s, reason))
  {
    hide Quiet;
    if s in p.table {
      SlotQuiet(p, MarkRetiring(p, s, reason), s);
    } else {
      Untouched(p, p);
    }
  }

  lemma ScheduleCloseQuiet(p: Pool, s: nat, reason: Reason)
    ensures Quiet(p, ScheduleClose(p, s, reason))
  {
    hide Quiet, Without, ScheduleClose;
    ScheduleCloseIdle(p, s, reason);
    if s in p.table && p.table[s].state != Closing && p.table[s].activeContexts == 0 {
      ScheduleCloseShape(p, s, reason);
      SlotQuiet(p, ScheduleClose(p, s, reason), s);
    } else {
      Untouched(p, ScheduleClose(p, s, reason));
    }
  }

  lemma {:induction false} CloseAllQuiet(p: Pool, todo: seq<nat>, reason: Reason)
    ensures Quiet(p, CloseAll(p, todo, reason))
    decreases |todo|
  {
    hide Quiet, ScheduleClose;
    if todo == [] {
      Untouched(p, p);
    } else {
      var q := ScheduleClose(p, todo[0], reason);
      ScheduleCloseQuiet(p, todo[0], reason);
      CloseAllQuiet(q, todo[1..], reason);
      QuietTransitive(p, q, CloseAll(q, todo[1..], reason));
    }
  }

  lemma RetireOneQuiet(p: Pool, s: nat, reason: Reason)
    ensures Quiet(p, RetireOne(p, s, reason))
  {
    hide Quiet, MarkRetiring, ScheduleClose;
    if s in p.table {
      MarkRetiringQuiet(p, s, reason);
      ScheduleCloseQuiet(MarkRetiring(p, s, reason), s, reason);
      QuietTransitive(p, MarkRetiring(p, s, reason), ScheduleClose(MarkRetiring(p, s, reason), s, reason));
    } else {
      Untouched(p, p);
    }
  }

  lemma {:induction false} RetireAllQuiet(p: Pool, todo: seq<nat>, reason: Reason)
    ensures Quiet(p, RetireAll(p, todo, reason))
    decreases |todo|
  {
    hide Quiet, RetireOne;
    if todo == [] {
      Untouched(p, p);
    } else {
      var q := RetireOne(p, todo[0], reason);
      RetireOneQuiet(p, todo[0], reason);
      RetireAllQuiet(q, todo[1..], reason);
      QuietTransitive(p, q, RetireAll(q, todo[1..], reason));
    }
  }

  lemma RefreshMarkQuiet(p: Pool, s: nat, now: int)
    ensures Quiet(p, RefreshMark(p, s, now))
  {
    hide Quiet, ShouldRecycle, RecycleReason;
    if s in p.table {
      SlotQuiet(p, RefreshMark(p, s, now), s);
    } else {
      Untouched(p, p);
    }
  }

  lemma RefreshOneQuiet(p: Pool, s: nat, now: int)
    ensures Quiet(p, RefreshOne(p, s, now))
  {
    hide Quiet, RefreshMark, ScheduleClose;
    var q := RefreshMark(p, s, now);
    RefreshMarkQuiet(p, s, now);
    if s in q.table {
      ScheduleCloseQuiet(q, s, ReasonOr(q.table[s].retireReason));
      QuietTransitive(p, q, ScheduleClose(q, s, ReasonOr(q.table[s].retireReason)));
    }
  }

  lemma {:induction false} RefreshAllQuiet(p: Pool, todo: seq<nat>, now: int)
    ensures Quiet(p, RefreshAll(p, todo, now))
    decreases |todo|
  {
    hide Quiet, RefreshOne;
    if todo == [] {
      Untouched(p, p);
    } else {
      var q := RefreshOne(p, todo[0], now);
      RefreshOneQuiet(p, todo[0], now);
      RefreshAllQuiet(q, todo[1..], now);
      QuietTransitive(p, q, RefreshAll(q, todo[1..], now));
    }
  }

  /** A background retry goes to slots with retries left. */
  lemma RetryClosesQuiet(p: Pool, now: int)
    ensures QuietAt(p, RetryCloses(p, RetryEligible(p, now)), now)
  {
    var q := RetryCloses(p, RetryEligible(p, now));
    if RetriesBounded(p) {
      forall s | s in q.table ensures FewFailures(q, s) {
        assert FewFailures(p, s);
      }
    }
  }

  lemma RefreshRecyclingQuiet(p: Pool, now: int)
    ensures QuietAt(p, RefreshRecycling(p, now), now)
  {
    hide Quiet, QuietAt, RefreshAll, RetryCloses, RetryEligible;
    var q := RefreshAll(p, p.slots, now);
    RefreshAllQuiet(p, p.slots, now);
    QuietAnytime(p, q, now);
    RetryClosesQuiet(q, now);
    QuietAtTransitive(p, q, RefreshRecycling(p, now), now);
  }

  lemma {:induction false} LaunchManyQuiet(p: Pool, count: int, startup: Option<nat>)
    ensures Quiet(p, LaunchMany(p, count, startup))
    decreases count
  {
    hide Quiet;
    if count <= 0 {
      Untouched(p, p);
    } else {
      var q := StartCreate(p, startup);
      Untouched(p, q);
      hide StartCreate;
      LaunchManyQuiet(q, count - 1, startup);
      QuietTransitive(p, q, LaunchMany(q, count - 1, startup));
    }
  }

  lemma ReplenishQuiet(p: Pool, now: int)
    ensures Quiet(p, Replenish(p, now))
  {
    hide Quiet, LaunchMany, Missing, Physical, MayReplenish;
    Untouched(p, p);
    LaunchManyQuiet(p, Min(Missing(p, now), p.cfg.maxBrowsers - Physical(p)), None);
  }

  // ----- the sections -----

  lemma StartupFailedQuiet(p: Pool, st: nat, done: set<nat>)
    ensures Quiet(p, StartupFailed(p, st, done))
  {
    hide Quiet, CloseAll, ReturnedOf, StartupFailed;
    if FailedWait(p, st, done) {
      StartupFailedShape(p, st, done);
      var m := Dismissed(p, st, done);
      var todo := ReturnedOf(p, p.startups[st].tasks, FinishedOf(p, p.startups[st].tasks, done));
      var q := CloseAll(m, todo, Error);
      Untouched(p, m);
      CloseAllQuiet(m, todo, Error);
      QuietTransitive(p, m, q);
      Untouched(q, StartupFailed(p, st, done));
      QuietTransitive(p, q, StartupFailed(p, st, done));
    } else {
      NotFailed(p, st, done);
      Untouched(p, p);
    }
  }

  lemma DiscardedSame(p: Pool, st: nat)
    requires st in p.startups
    ensures SameCloses(p, Discarded(p, st))
  {
  }

  lemma PhaseSame(p: Pool, st: nat, phase: Phase)
    ensures SameCloses(p, SetPhase(p, st, phase))
  {
  }

  lemma RegisterStartedQuiet(p: Pool, st: nat)
    ensures Quiet(p, RegisterStarted(p, st))
  {
    hide Quiet, CloseAll, RegisterStarted, Discarded, SetPhase;
    if InPhase(p, st, Registering) {
      RegisterShape(p, st);
      DiscardedSame(p, st);
      var m := Discarded(p, st);
      var reason := if p.closed then Shutdown else Error;
      var q := if p.closed || p.startups[st].cancelled then CloseAll(m, p.startups[st].tasks, reason)
               else m.(slots := m.slots + p.startups[st].tasks);
      Untouched(p, m);
      if p.closed || p.startups[st].cancelled {
        CloseAllQuiet(m, p.startups[st].tasks, reason);
      } else {
        Untouched(m, q);
      }
      QuietTransitive(p, m, q);
      PhaseSame(q, st, Registered);
      Untouched(q, SetPhase(q, st, Registered));
      QuietTransitive(p, q, RegisterStarted(p, st));
    } else {
      NotRegistering(p, st);
      Untouched(p, p);
    }
  }

  lemma NotRegistering(p: Pool, st: nat)
    requires !InPhase(p, st, Registering)
    ensures RegisterStarted(p, st) == p
  {
  }

  lemma RecoverStartQuiet(p: Pool, st: nat)
    ensures Quiet(p, RecoverStart(p, st))
  {
    hide Quiet, RetireAll, RecoverStart;
    RecoverShape(p, st);
    Untouched(p, p);
    if Owed(p, st) && p.startups[st].cancelled {
      var m := Discarded(p, st);
      Untouched(p, m);
      RetireAllQuiet(m, p.startups[st].tasks, Error);
      QuietTransitive(p, m, RecoverStart(p, st));
    }
  }

  lemma StartOnceQuiet(p: Pool)
    ensures Quiet(p, StartOnce(p))
  {
    hide Quiet, LaunchMany, Physical, Fresh;
    if StartOnceResult(p) == Started && p.cfg.minBrowsers != 0 {
      var q := p.(started := true, starting := true, nextStartup := p.nextStartup + 1,
                  startups := p.startups[p.nextStartup :=
                                           Startup(Fresh(p.nextLaunch, p.cfg.minBrowsers), Waiting, false)]);
      Untouched(p, q);
      LaunchManyQuiet(q, p.cfg.minBrowsers, Some(p.nextStartup));
      QuietTransitive(p, q, StartOnce(p));
    } else {
      Untouched(p, StartOnce(p));
    }
  }

  lemma MaintainQuiet(p: Pool, now: int)
    ensures QuietAt(p, Refresh(p, now), now) && QuietAt(p, Maintain(p, now), now)
  {
    hide Quiet, QuietAt, RefreshRecycling, Replenish;
    var q := RefreshRecycling(p, now);
    Untouched(p, p);
    QuietAnytime(p, p, now);
    RefreshRecyclingQuiet(p, now);
    ReplenishQuiet(q, now);
    QuietAnytime(q, Replenish(q, now), now);
    QuietAtTransitive(p, q, Replenish(q, now), now);
  }

  lemma AcquireTurnQuiet(p: Pool, id: nat, now: int, check: int, later: int)
    requires id in p.waiters
    ensures QuietAt(p, AcquireTurn(p, id, now, check, later).0, now)
  {
    hide Quiet, QuietAt, RefreshRecycling, ServeOrPark;
    if p.closed || now >= p.waiters[id].deadline {
      Untouched(p, p.(waiters := p.waiters - {id}));
      QuietAnytime(p, p.(waiters := p.waiters - {id}), now);
    } else {
      var q := RefreshRecycling(p, now);
      RefreshRecyclingQuiet(p, now);
      ServeOrParkQuiet(q, id, p.waiters[id], check, later);
      QuietAnytime(q, ServeOrPark(q, id, p.waiters[id], check, later).0, now);
      QuietAtTransitive(p, q, ServeOrPark(q, id, p.waiters[id], check, later).0, now);
    }
  }

  lemma ServeOrParkQuiet(p: Pool, id: nat, w: Waiter, now: int, later: int)
    ensures Quiet(p, ServeOrPark(p, id, w, now, later).0)
  {
    hide Quiet, Reserve, AcquireOrPark, Healthy, SoftAvailable;
    var healthy := FirstHealthy(p, p.slots, now);
    var found := if healthy.Some? then healthy else FirstSoft(p, p.slots);
    if found.Some? {
      var q := Reserve(p, found.value, w.kind, now);
      ReserveQuiet(p, found.value, w.kind, now);
      Untouched(q, q.(waiters := p.waiters - {id}));
      QuietTransitive(p, q, q.(waiters := p.waiters - {id}));
    } else {
      ParkQuiet(p, id, w, later);
    }
  }

  lemma ParkQuiet(p: Pool, id: nat, w: Waiter, later: int)
    ensures Quiet(p, AcquireOrPark(p, id, w, later).0)
  {
    hide Quiet, MayLaunch, StartCreate, AcquireOrPark;
    ParkSame(p, id, w, later);
    Untouched(p, AcquireOrPark(p, id, w, later).0);
  }

  lemma ParkSame(p: Pool, id: nat, w: Waiter, later: int)
    ensures SameCloses(p, AcquireOrPark(p, id, w, later).0)
  {
    hide MayLaunch, StartCreate, SameCloses;
    LaunchSame(p);
    var q := if MayLaunch(p, w) then StartCreate(p, None) else p;
    if p.failureGeneration != w.generation && p.lastFailure {
      assert SameCloses(p, p.(waiters := p.waiters - {id})) by { WaitersSame(p, p, p.waiters - {id}, p.waiting); }
    } else if later >= w.deadline {
      WaitersSame(p, q, q.waiters - {id}, q.waiting);
    } else {
      WaitersSame(p, q, q.waiters[id := w.(launched := w.launched || MayLaunch(p, w), parked := true)], q.waiting + 1);
    }
  }

  lemma WaitersSame(p: Pool, q: Pool, waiters: map<nat, Waiter>, waiting: int)
    ensures SameCloses(p, p)
    ensures SameCloses(p, q) ==>
              SameCloses(p, q.(waiters := waiters)) && SameCloses(p, q.(waiting := waiting, waiters := waiters))
  {
    hide SameCloses;
    NothingSame(p);
    if SameCloses(p, q) {
      WaitApart(q, waiters, waiting);
      SameThenSame(p, q, q.(waiters := waiters));
      SameThenSame(p, q, q.(waiting := waiting, waiters := waiters));
    }
  }

  lemma WaitApart(q: Pool, waiters: map<nat, Waiter>, waiting: int)
    ensures SameCloses(q, q.(waiters := waiters)) && SameCloses(q, q.(waiting := waiting, waiters := waiters))
  {
  }

  lemma SameThenSame(p: Pool, q: Pool, r: Pool)
    requires SameCloses(p, q) && SameCloses(q, r)
    ensures SameCloses(p, r)
  {
  }

  lemma LaunchSame(p: Pool)
    ensures SameCloses(p, StartCreate(p, None))
  {
  }

  lemma ReserveQuiet(p: Pool, s: nat, kind: Kind, now: int)
    ensures Quiet(p, Reserve(p, s, kind, now))
  {
    hide Quiet, ReservedSlot, Reserve;
    if s in p.table && p.table[s].state != Closing && p.table[s].activeContexts < p.cfg.maxContexts {
      ReserveShape(p, s, kind, now);
      ReservedFailures(p.cfg, p.table[s], now);
      SlotQuiet(p, Reserve(p, s, kind, now), s);
    } else {
      NotReserved(p, s, kind, now);
      Untouched(p, Reserve(p, s, kind, now));
    }
  }

  lemma NotReserved(p: Pool, s: nat, kind: Kind, now: int)
    requires s !in p.table || p.table[s].state == Closing || p.table[s].activeContexts >= p.cfg.maxContexts
    ensures Reserve(p, s, kind, now) == p.(raised := true)
  {
  }

  lemma ReservedFailures(cfg: Config, slot: Slot, now: int)
    ensures ReservedSlot(cfg, slot, now).closeFailures == slot.closeFailures
  {
  }

  lemma ReleaseSlotQuiet(p: Pool, r: nat, discard: bool, reason: Reason, now: int)
    requires Inv(p)
    ensures Quiet(p, ReleaseSlot(p, r, discard, reason, now))
  {
    hide Inv, Quiet, ReleaseSlot, ScheduleClose, ReleasedSlot, GivenBack;
    if r in p.reservations && !p.reservations[r].released {
      var s := p.reservations[r].slot;
      LiveIsListed(p, r);
      ReleaseShape(p, r, discard, reason, now);
      var left := ReleasedSlot(p.cfg, p.table[s], discard, reason, now);
      var m := GivenBack(p, r, left);
      ReleasedFailures(p.cfg, p.table[s], discard, reason, now);
      GivenBackQuiet(p, r, left);
      if left.state == Retiring && left.activeContexts == 0 {
        ScheduleCloseQuiet(m, s, ReasonOr(left.retireReason));
        QuietTransitive(p, m, ScheduleClose(m, s, ReasonOr(left.retireReason)));
      }
    } else {
      NothingToRelease(p, r, discard, reason, now);
      Untouched(p, p);
    }
  }

  lemma GivenBackQuiet(p: Pool, r: nat, left: Slot)
    requires r in p.reservations && p.reservations[r].slot in p.table
    requires left.closeFailures == p.table[p.reservations[r].slot].closeFailures
    requires p.table[p.reservations[r].slot].state != Closing
    ensures Quiet(p, GivenBack(p, r, left))
  {
    hide Quiet;
    SlotQuiet(p, GivenBack(p, r, left), p.reservations[r].slot);
  }

  lemma ReleasedFailures(cfg: Config, slot: Slot, discard: bool, reason: Reason, now: int)
    ensures ReleasedSlot(cfg, slot, discard, reason, now).closeFailures == slot.closeFailures
  {
  }

  lemma LaunchReturnsQuiet(p: Pool, t: nat, now: int)
    requires Inv(p)
    ensures Quiet(p, LaunchReturns(p, t, now))
  {
    hide Inv;
    if t in p.launches && p.launches[t].outcome == Running {
      RunningIsNew(p, t);
      var q := LaunchReturns(p, t, now);
      if RetriesBounded(p) {
        forall s | s in q.table ensures FewFailures(q, s) {
          if s != t {
            assert FewFailures(p, s);
          }
        }
      }
    }
  }

  lemma RunningIsNew(p: Pool, t: nat)
    requires Inv(p) && t in p.launches && p.launches[t].outcome == Running
    ensures t !in p.table && t !in p.closeTasks
  {
    InvParts(p);
    hide Inv, Held, OpenOwned, Leases, StartupsSound, Attended, Draining;
    assert !IsClosing(p, t);
  }

  lemma SuperviseSettledQuiet(p: Pool, t: nat)
    ensures Quiet(p, SuperviseSettled(p, t))
  {
    hide Quiet, ScheduleClose;
    var q := FinishCreates(p, {t});
    Untouched(p, p);
    Untouched(p, q);
    Untouched(p, q.(failureGeneration := p.failureGeneration + 1, lastFailure := true));
    Untouched(p, q.(slots := q.slots + [t]));
    ScheduleCloseQuiet(q, t, Shutdown);
    QuietTransitive(p, q, ScheduleClose(q, t, Shutdown));
  }

  lemma WatcherFinishedQuiet(p: Pool, t: nat)
    ensures Quiet(p, WatcherFinished(p, t))
  {
    hide Quiet, ScheduleClose;
    var q := p.(watchers := p.watchers - {t});
    var reason := if p.closed then Shutdown else Error;
    Untouched(p, p);
    Untouched(p, q);
    ScheduleCloseQuiet(q, t, reason);
    QuietTransitive(p, q, ScheduleClose(q, t, reason));
  }

  lemma BrowserDiesQuiet(p: Pool, s: nat)
    ensures Quiet(p, BrowserDies(p, s))
  {
    hide Quiet;
    if s in p.table {
      SlotQuiet(p, BrowserDies(p, s), s);
    } else {
      Untouched(p, p);
    }
  }

  // ----- the ends of closes -----

  lemma AcceptBounded(p: Pool, s: nat)
    requires RetriesBounded(p)
    ensures RetriesBounded(PoolState.CloseAccepted(p, s))
  {
    forall x | x in p.table ensures FewFailures(PoolState.CloseAccepted(p, s), x) {
      assert FewFailures(p, x);
    }
  }

  lemma RefuseBounded(p: Pool, s: nat, now: int)
    requires RetriesBounded(p) && s in p.table && s in p.closeTasks && p.table[s].state == Closing
    ensures RetriesBounded(CloseRefused(p, s, now))
  {
    hide Backoff, CloseRefused, FewFailures;
    RefuseShape(p, s, now);
    forall x | x in p.table ensures FewFailures(CloseRefused(p, s, now), x) {
      assert FewFailures(p, x);
      RefuseOne(p, CloseRefused(p, s, now), s, x);
    }
  }

  lemma RefuseShape(p: Pool, s: nat, now: int)
    requires s in p.table
    ensures var q := CloseRefused(p, s, now);
            && q.table.Keys == p.table.Keys && q.closeTasks == p.closeTasks - {s}
            && q.table[s].closeFailures == p.table[s].closeFailures + 1 && q.table[s].state == p.table[s].state
            && q.table[s].nextCloseRetryAt == now + Backoff(p.table[s].closeFailures + 1)
            && forall x :: x in p.table && x != s ==> q.table[x] == p.table[x]
  {
    hide Backoff;
  }

  lemma RefuseOne(p: Pool, q: Pool, s: nat, x: nat)
    requires s in p.table && x in p.table && x in q.table && s in q.table && FewFailures(p, x)
    requires s in p.closeTasks && p.table[s].state == Closing && q.closeTasks == p.closeTasks - {s}
    requires if x == s then q.table[s].closeFailures == p.table[s].closeFailures + 1 && q.table[s].state == Closing
             else q.table[x] == p.table[x]
    ensures FewFailures(q, x)
  {
  }

  lemma RefuseMarks(p: Pool, s: nat, now: int)
    requires s in p.table
    ensures CloseRefused(p, s, now).accepted == p.accepted
            && CloseRefused(p, s, now).physicallyClosed == p.physicallyClosed
  {
    hide Backoff;
  }

  predicate Accepts(p: Pool, s: nat, succeeded: bool, saysClosed: bool) {
    succeeded || s in p.physicallyClosed || saysClosed
  }

  /** The other closes wait as before; that of `s` does too if it is accepted, and else its wait is set. */
  lemma FinishCloseWaits(p: Pool, s: nat, succeeded: bool, saysClosed: bool, now: int, x: nat)
    requires s in p.table && s in p.closeTasks && p.table[s].state == Closing && IsClosing(p, x)
    ensures var q := FinishClose(p, s, succeeded, saysClosed, now);
            && IsClosing(q, x) && !TakenUp(p, q, x)
            && if x != s || Accepts(p, s, succeeded, saysClosed) then SameWait(p, q, x) else Postponed(p, q, s, now)
  {
    hide Replenish, CloseRefused, RetriesBounded, Backoff;
    var m := if Accepts(p, s, succeeded, saysClosed) then PoolState.CloseAccepted(p, s) else CloseRefused(p, s, now);
    RefuseShape(p, s, now);
    assert IsClosing(m, x) && !TakenUp(p, m, x);
    ReplenishQuiet(m, now);
    assert SameWait(m, Replenish(m, now), x);
    assert FinishClose(p, s, succeeded, saysClosed, now) == Replenish(m, now);
    if x == s && !Accepts(p, s, succeeded, saysClosed) {
      assert s !in m.closeTasks;
    }
  }

  /** The close of `s` failed at `now`: it is counted, put off, and has no close task. */
  predicate Postponed(p: Pool, q: Pool, s: nat, now: int) {
    && s in p.table && s in q.table && q.table[s].state == Closing && s !in q.closeTasks
    && q.table[s].closeFailures == p.table[s].closeFailures + 1
    && q.table[s].nextCloseRetryAt == now + Backoff(q.table[s].closeFailures)
  }

  /** A refused close counts; it leaves the close task only below the retry limit. */
  lemma FinishCloseEnds(p: Pool, s: nat, succeeded: bool, saysClosed: bool, now: int)
    requires s in p.table && s in p.closeTasks && p.table[s].state == Closing
    ensures var q := FinishClose(p, s, succeeded, saysClosed, now);
            && (RetriesBounded(p) ==> RetriesBounded(q))
            && q.physicallyClosed <= p.physicallyClosed
            && q.accepted == if succeeded || s in p.physicallyClosed || saysClosed then p.accepted + {s} else p.accepted
  {
    hide Replenish, CloseRefused, RetriesBounded, PoolState.CloseAccepted;
    var m := if succeeded || s in p.physicallyClosed || saysClosed then PoolState.CloseAccepted(p, s)
        else CloseRefused(p, s, now);
    AcceptMarks(p, s);
    RefuseMarks(p, s, now);
    if RetriesBounded(p) {
      AcceptBounded(p, s);
      RefuseBounded(p, s, now);
    }
    ReplenishQuiet(m, now);
  }

  lemma AcceptMarks(p: Pool, s: nat)
    ensures PoolState.CloseAccepted(p, s).accepted == p.accepted + {s}
    ensures PoolState.CloseAccepted(p, s).physicallyClosed == p.physicallyClosed - {s}
  {
  }

  /** What a close task or a reconciliation knew when it accepted the close of `s`. */
  predicate Cause(p: Pool, e: Event, s: nat) {
    match e
    case CloseEnds(x, succeeded, saysClosed, _) => x == s && (succeeded || saysClosed || s in p.physicallyClosed)
    case CloseReconciled(x, _, saysClosed, _) => x == s && (saysClosed || s in p.physicallyClosed)
    case ProcessExitReconciled(x) => x == s
    case _ => false
  }

  /** The event ends a close of `s` that is not accepted. */
  predicate Fails(p: Pool, e: Event, s: nat) {
    match e
    case CloseEnds(x, succeeded, saysClosed, _) => x == s && CloseRunning(p, s) && !Accepts(p, s, succeeded, saysClosed)
    case CloseReconciled(x, attempt, saysClosed, _) =>
      x == s && (s, attempt) in p.abortedCloses && s in p.closeTasks && p.closeTasks[s] == attempt
          && !Accepts(p, s, false, saysClosed)
    case _ => false
  }

  /** The clock of a refresh, which takes up failed closes. */
  function RefreshedAt(e: Event): Option<int> {
    match e
    case Refreshes(now) => Some(now)
    case Maintains(now) => Some(now)
    case AcquireTurns(_, now, _, _) => Some(now)
    case _ => None
  }

  /** What one event does to the wait of a closing slot. */
  predicate Waits(p: Pool, e: Event, q: Pool, s: nat)
    requires s in p.table
  {
    && (if Fails(p, e, s) then Postponed(p, q, s, ReplenishedAt(e)) else SameWait(p, q, s))
    && (TakenUp(p, q, s) && !q.closed ==> RefreshedAt(e).Some? && RefreshedAt(e).value >= p.table[s].nextCloseRetryAt)
  }

  /** How one event changes what is known of closes. */
  ghost predicate Justified(p: Pool, e: Event, q: Pool) {
    && (forall s :: s in q.accepted && s !in p.accepted ==> Cause(p, e, s))
    && (forall s :: s in q.physicallyClosed && s !in p.physicallyClosed ==> e == ProcessExits(s))
    && (!q.closed && RetriesBounded(p) ==> RetriesBounded(q))
    && (forall s :: IsClosing(p, s) ==> Waits(p, e, q, s))
  }

  lemma QuietJustified(p: Pool, e: Event, q: Pool)
    requires Quiet(p, q) && forall s :: !Fails(p, e, s)
    ensures Justified(p, e, q)
  {
  }

  lemma QuietAtJustified(p: Pool, e: Event, q: Pool, now: int)
    requires QuietAt(p, q, now) && RefreshedAt(e) == Some(now)
    ensures Justified(p, e, q)
  {
  }

  lemma QuiesceJustified(p: Pool, e: Event)
    requires e.Quiesces? || e.CloseBegins?
    ensures Justified(p, e, Quiesce(p))
  {
    hide RetryCloses, RetriesBounded, RetireAll, Stopped, Quiesce, CloseBegin, Quiet, Justified;
    var q := Stopped(p);
    StoppedMarks(p);
    RetireAllQuiet(q, q.slots, Shutdown);
    RetireAllCloses(q, q.slots, Shutdown);
    QuiesceShape(p);
    ShutdownJustified(p, e, q, Quiesce(p));
  }

  lemma CloseBeginJustified(p: Pool, e: Event)
    requires e.Quiesces? || e.CloseBegins?
    ensures Justified(p, e, CloseBegin(p))
  {
    hide RetryCloses, RetriesBounded, RetireAll, Stopped, Quiesce, CloseBegin, Quiet, Justified;
    var r := RetryCloses(Stopped(p), Stopped(p).failedCloses);
    StoppedMarks(p);
    RetryMarks(Stopped(p));
    RetireAllQuiet(r, r.slots, Shutdown);
    RetireAllCloses(r, r.slots, Shutdown);
    QuiesceShape(p);
    ShutdownJustified(p, e, r, CloseBegin(p));
  }

  lemma ShutdownJustified(p: Pool, e: Event, m: Pool, q: Pool)
    requires e.Quiesces? || e.CloseBegins?
    requires m.table == p.table && m.accepted == p.accepted && m.physicallyClosed == p.physicallyClosed
    requires Quiet(m, q) && q.closed
    ensures Justified(p, e, q)
  {
    forall s | IsClosing(p, s) ensures Waits(p, e, q, s) {
      assert IsClosing(m, s);
    }
  }

  lemma StoppedMarks(p: Pool)
    ensures Stopped(p).accepted == p.accepted && Stopped(p).physicallyClosed == p.physicallyClosed && Stopped(p).closed
    ensures Stopped(p).table == p.table && Stopped(p).closeTasks == p.closeTasks
  {
  }

  lemma RetryMarks(p: Pool)
    ensures var r := RetryCloses(p, p.failedCloses);
            r.accepted == p.accepted && r.physicallyClosed == p.physicallyClosed && r.closed == p.closed
                && r.table == p.table
  {
  }

  lemma {:induction false} RetireAllCloses(p: Pool, todo: seq<nat>, reason: Reason)
    ensures RetireAll(p, todo, reason).closed == p.closed
    decreases |todo|
  {
    if todo != [] {
      RetireOneCloses(p, todo[0], reason);
      hide RetireOne;
      RetireAllCloses(RetireOne(p, todo[0], reason), todo[1..], reason);
    }
  }

  lemma RetireOneCloses(p: Pool, s: nat, reason: Reason)
    ensures RetireOne(p, s, reason).closed == p.closed
  {
    hide ScheduleClose, Retired;
    ScheduleCloses(MarkRetiring(p, s, reason), s, reason);
  }

  lemma ScheduleCloses(p: Pool, s: nat, reason: Reason)
    ensures ScheduleClose(p, s, reason).closed == p.closed
  {
    hide ScheduleClose, Retired, Without;
    ScheduleCloseIdle(p, s, reason);
    if s in p.table && p.table[s].state != Closing && p.table[s].activeContexts == 0 {
      ScheduleCloseShape(p, s, reason);
    }
  }

  lemma ClosingState(p: Pool, s: nat)
    requires Inv(p) && s in p.closeTasks
    ensures s in p.table && p.table[s].state == Closing
  {
    assert IsClosing(p, s);
  }

  lemma FinishWaits(p: Pool, e: Event, s: nat, succeeded: bool, saysClosed: bool, now: int, x: nat)
    requires s in p.table && s in p.closeTasks && p.table[s].state == Closing && IsClosing(p, x)
    requires ReplenishedAt(e) == now && (Fails(p, e, x) <==> x == s && !Accepts(p, s, succeeded, saysClosed))
    ensures Waits(p, e, FinishClose(p, s, succeeded, saysClosed, now), x)
  {
    hide FinishClose, Fails, SameWait, Postponed, TakenUp, Accepts;
    FinishCloseWaits(p, s, succeeded, saysClosed, now, x);
  }

  lemma EndJustified(p: Pool, e: Event, s: nat, succeeded: bool, saysClosed: bool, now: int)
    requires Inv(p) && s in p.closeTasks
    requires Accepts(p, s, succeeded, saysClosed) ==> Cause(p, e, s)
    requires ReplenishedAt(e) == now && forall x :: Fails(p, e, x) <==> x == s && !Accepts(p, s, succeeded, saysClosed)
    ensures Justified(p, e, FinishClose(p, s, succeeded, saysClosed, now))
  {
    hide Inv, FinishClose, RetriesBounded, Cause, Fails, SameWait, Postponed, TakenUp;
    hide Waits;
    ClosingState(p, s);
    FinishCloseEnds(p, s, succeeded, saysClosed, now);
    forall x | IsClosing(p, x) ensures Waits(p, e, FinishClose(p, s, succeeded, saysClosed, now), x) {
      FinishWaits(p, e, s, succeeded, saysClosed, now, x);
    }
  }

  lemma ExitJustified(p: Pool, s: nat)
    ensures Justified(p, ProcessExits(s), PhysicalCloseFinished(p, s))
  {
    hide RetriesBounded;
    if IsClosing(p, s) {
      SameFailures(p, p.(physicallyClosed := p.physicallyClosed + {s}));
    }
  }

  lemma LateJustified(p: Pool, s: nat)
    ensures Justified(p, ProcessExitReconciled(s), LateReconcile(p, s))
  {
    hide RetriesBounded, LateReconcile;
    LateShape(p, s);
    if IsClosing(p, s) && !CloseRunning(p, s) {
      SameFailures(p, LateReconcile(p, s));
    }
  }

  lemma LateShape(p: Pool, s: nat)
    ensures if IsClosing(p, s) && !CloseRunning(p, s)
            then LateReconcile(p, s) == p.(failedCloses := p.failedCloses - {s},
                                           physicallyClosed := p.physicallyClosed - {s},
                                           accepted := if s in p.failedCloses then p.accepted + {s} else p.accepted)
            else LateReconcile(p, s) == p
  {
    hide CloseRunning;
  }

  lemma DiesSame(p: Pool, s: nat)
    ensures SameCloses(p, CloseAborted(p, s))
  {
    hide SameCloses;
    AbortsApart(p, p.abortedCloses);
    if CloseRunning(p, s) {
      AbortsApart(p, p.abortedCloses + {(s, p.closeTasks[s])});
    }
  }

  lemma AbortsApart(p: Pool, abortedCloses: set<(nat, nat)>)
    ensures SameCloses(p, p.(abortedCloses := abortedCloses))
  {
  }

  lemma ReconciledJustified(p: Pool, e: Event, s: nat, attempt: nat, saysClosed: bool, now: int)
    requires Inv(p) && e == CloseReconciled(s, attempt, saysClosed, now)
    ensures Justified(p, e, ReconcileAborted(p, s, attempt, saysClosed, now))
  {
    hide Inv, FinishClose, Justified, Quiet;
    if (s, attempt) in p.abortedCloses && s in p.closeTasks && p.closeTasks[s] == attempt {
      EndJustified(p, e, s, false, saysClosed, now);
    } else {
      Untouched(p, p);
      QuietJustified(p, e, p);
    }
  }

  lemma EndedJustified(p: Pool, e: Event, s: nat, succeeded: bool, saysClosed: bool, now: int)
    requires Inv(p) && e == CloseEnds(s, succeeded, saysClosed, now)
    ensures Justified(p, e, CloseEnded(p, s, succeeded, saysClosed, now))
  {
    hide Inv, FinishClose, Justified, Quiet;
    if CloseRunning(p, s) {
      EndJustified(p, e, s, succeeded, saysClosed, now);
    } else {
      Untouched(p, p);
      QuietJustified(p, e, p);
    }
  }

  lemma CloseJustified(p: Pool, e: Event)
    requires Inv(p) && (e.CloseEnds? || e.CloseReconciled? || e.CloseDies? || e.ProcessExits?
             || e.ProcessExitReconciled?)
    ensures Justified(p, e, Step(p, e))
  {
    hide Inv, Justified, Quiet, SameCloses, CloseEnded, ReconcileAborted, CloseAborted, PhysicalCloseFinished,
      LateReconcile;
    match e
    case CloseEnds(s, succeeded, saysClosed, now) => EndedJustified(p, e, s, succeeded, saysClosed, now);
    case CloseReconciled(s, attempt, saysClosed, now) => ReconciledJustified(p, e, s, attempt, saysClosed, now);
    case CloseDies(s) =>
      DiesSame(p, s);
      Untouched(p, CloseAborted(p, s));
      QuietJustified(p, e, CloseAborted(p, s));
    case ProcessExits(s) => ExitJustified(p, s);
    case ProcessExitReconciled(s) => LateJustified(p, s);
  }

  lemma SameFailures(p: Pool, q: Pool)
    requires q.table == p.table && q.closeTasks == p.closeTasks
    ensures RetriesBounded(p) ==> RetriesBounded(q)
  {
    if RetriesBounded(p) {
      forall s | s in q.table ensures FewFailures(q, s) {
        assert FewFailures(p, s);
      }
    }
  }

  lemma AbortedSame(p: Pool, st: nat)
    ensures SameCloses(p, StartupAborted(p, st))
  {
  }

  lemma ReturnedStartSame(p: Pool, st: nat)
    ensures SameCloses(p, StartupReturned(p, st))
  {
  }

  lemma DesertedSame(p: Pool, st: nat)
    ensures SameCloses(p, StartupDeserted(p, st))
  {
    hide SameCloses;
    StartsApart(p, p.startups, p.started, p.starting);
    if st in p.startups {
      StartsApart(p, p.startups[st := p.startups[st].(phase := Deserted)], p.started, p.starting);
    }
  }

  lemma CompletedSame(p: Pool, st: nat, order: seq<nat>)
    ensures SameCloses(p, StartupCompleted(p, st, order))
  {
    hide SameCloses, Distinct, Elements;
    StartsApart(p, p.startups, p.started, p.starting);
    if InPhase(p, st, Waiting) {
      StartsApart(p, p.startups[st := Startup(order, Registering, p.startups[st].cancelled)], p.started, p.starting);
    }
  }

  lemma CancelledSame(p: Pool, st: nat)
    ensures SameCloses(p, StartupCancelled(p, st))
  {
    hide SameCloses;
    StartsApart(p, p.startups, p.started, p.starting);
    if st in p.startups {
      StartsApart(p, p.startups[st := p.startups[st].(cancelled := true)], false, false);
    }
  }

  /** Closes do not depend on the startups. */
  lemma StartsApart(p: Pool, startups: map<nat, Startup>, started: bool, starting: bool)
    ensures SameCloses(p, p.(startups := startups, started := started, starting := starting))
  {
  }

  lemma StartupQuiet(p: Pool, e: Event)
    requires OfStartup(e) && !e.Quiesces? && !e.CloseBegins? && RefreshedAt(e) == None
    ensures Quiet(p, Step(p, e))
  {
    hide Quiet, SameCloses, StartOnce, StartupAborted, StartupDeserted, StartupFailed, StartupCompleted,
      RegisterStarted, StartupReturned, StartupCancelled, RecoverStart, Refresh, Maintain;
    match e
    case StartBegins => StartOnceQuiet(p);
    case StartAborted(st) =>
      AbortedSame(p, st);
      Untouched(p, StartupAborted(p, st));
    case StartDeserted(st) =>
      DesertedSame(p, st);
      Untouched(p, StartupDeserted(p, st));
    case StartFails(st, done) => StartupFailedQuiet(p, st, done);
    case StartCompletes(st, order) =>
      CompletedSame(p, st, order);
      Untouched(p, StartupCompleted(p, st, order));
    case Registers(st) => RegisterStartedQuiet(p, st);
    case StartReturns(st) =>
      ReturnedStartSame(p, st);
      Untouched(p, StartupReturned(p, st));
    case StartIsCancelled(st) =>
      CancelledSame(p, st);
      Untouched(p, StartupCancelled(p, st));
    case StartRecovers(st) => RecoverStartQuiet(p, st);
  }

  lemma RefreshJustified(p: Pool, e: Event)
    requires RefreshedAt(e).Some?
    ensures Justified(p, e, Step(p, e))
  {
    hide Quiet, QuietAt, Justified, AcquireTurn, Refresh, Maintain;
    match e
    case Refreshes(now) =>
      MaintainQuiet(p, now);
      QuietAtJustified(p, e, Refresh(p, now), now);
    case Maintains(now) =>
      MaintainQuiet(p, now);
      QuietAtJustified(p, e, Maintain(p, now), now);
    case AcquireTurns(w, now, check, later) =>
      if w in p.waiters && !p.waiters[w].parked {
        AcquireTurnQuiet(p, w, now, check, later);
        QuietAtJustified(p, e, AcquireTurn(p, w, now, check, later).0, now);
      } else {
        Untouched(p, p);
        QuietAnytime(p, p, now);
        QuietAtJustified(p, e, p, now);
      }
  }

  lemma StartupJustified(p: Pool, e: Event)
    requires OfStartup(e) && RefreshedAt(e) == None
    ensures Justified(p, e, Step(p, e))
  {
    hide Quiet, Justified, Quiesce, CloseBegin, StartOnce, StartupAborted, StartupDeserted, StartupFailed,
      StartupCompleted, RegisterStarted, StartupReturned, StartupCancelled, RecoverStart, Refresh, Maintain;
    if e.Quiesces? {
      QuiesceJustified(p, e);
    } else if e.CloseBegins? {
      CloseBeginJustified(p, e);
    } else {
      StartupQuiet(p, e);
      QuietJustified(p, e, Step(p, e));
    }
  }

  /** Closes do not depend on callers and tickets. */
  lemma LeasesApart(p: Pool, raised: bool, persistent: int, waiting: int, tickets: map<nat, Ticket>, nextTicket: nat,
                    waiters: map<nat, Waiter>, nextWaiter: nat)
    ensures SameCloses(p, p.(raised := raised, persistent := persistent, waiting := waiting, tickets := tickets,
                             nextTicket := nextTicket, waiters := waiters, nextWaiter := nextWaiter))
  {
  }

  lemma BeginSame(p: Pool, kind: Kind, deadline: int)
    ensures SameCloses(p, AcquireBegin(p, kind, deadline))
  {
    hide SameCloses;
    LeasesApart(p, p.raised, p.persistent, p.waiting, p.tickets, p.nextTicket, p.waiters, p.nextWaiter);
    var w := Waiter(kind, deadline, p.failureGeneration, false, false);
    LeasesApart(p, p.raised, p.persistent, p.waiting,
                if kind.Persistent? then p.tickets[kind.ticket := Ticket(false, true)] else p.tickets, p.nextTicket,
                p.waiters[p.nextWaiter := w], p.nextWaiter + 1);
  }

  lemma WaitingApart(p: Pool, q: Pool, waiters: map<nat, Waiter>)
    requires q == p.(raised := q.raised, waiting := q.waiting)
    ensures SameCloses(p, q.(waiters := waiters))
  {
  }

  lemma StopShape(p: Pool, id: nat)
    requires id in p.waiters
    ensures StopWaiting(p, id) == p || StopWaiting(p, id) == p.(raised := true)
            || StopWaiting(p, id) == p.(waiting := p.waiting - 1)
  {
  }

  lemma StopWaitingSame(p: Pool, id: nat, waiters: map<nat, Waiter>)
    requires id in p.waiters
    ensures SameCloses(p, StopWaiting(p, id).(waiters := waiters))
  {
    hide SameCloses, StopWaiting;
    StopShape(p, id);
    WaitingApart(p, p, waiters);
    WaitingApart(p, p.(raised := true), waiters);
    WaitingApart(p, p.(waiting := p.waiting - 1), waiters);
  }

  lemma UnparkSame(p: Pool, id: nat, leaves: bool)
    ensures SameCloses(p, Unpark(p, id, leaves))
  {
    hide SameCloses, StopWaiting;
    if id in p.waiters {
      StopWaitingSame(p, id, p.waiters - {id});
      StopWaitingSame(p, id, p.waiters[id := p.waiters[id].(parked := false)]);
    } else {
      NothingSame(p);
    }
  }

  lemma OpenTicketSame(p: Pool)
    ensures SameCloses(p, PersistentOpen(p))
  {
    hide SameCloses, PersistentAdmitted;
    LeasesApart(p, p.raised, p.persistent, p.waiting, p.tickets, p.nextTicket, p.waiters, p.nextWaiter);
    LeasesApart(p, p.raised, p.persistent + 1, p.waiting, p.tickets[p.nextTicket := Ticket(false, false)],
                p.nextTicket + 1, p.waiters, p.nextWaiter);
  }

  lemma ReleaseTicketSame(p: Pool, k: nat)
    ensures SameCloses(p, PersistentRelease(p, k))
  {
    hide SameCloses;
    LeasesApart(p, p.raised, p.persistent, p.waiting, p.tickets, p.nextTicket, p.waiters, p.nextWaiter);
    if k in p.tickets && !p.tickets[k].released {
      LeasesApart(p, true, p.persistent, p.waiting, p.tickets, p.nextTicket, p.waiters, p.nextWaiter);
      LeasesApart(p, p.raised, p.persistent - 1, p.waiting, p.tickets[k := p.tickets[k].(released := true)],
                  p.nextTicket, p.waiters, p.nextWaiter);
    }
  }

  lemma LeaseQuiet(p: Pool, e: Event)
    requires Inv(p) && OfLease(e) && RefreshedAt(e) == None
    ensures Quiet(p, Step(p, e))
  {
    hide Inv, Quiet, SameCloses, AcquireTurn, ReleaseSlot, TicketIdle, AcquireBegin, Unpark, PersistentOpen,
      PersistentRelease;
    assert SameCloses(p, p) by { NothingSame(p); }
    Untouched(p, p);
    match e
    case AcquireBegins(kind, deadline) =>
      BeginSame(p, kind, deadline);
      Untouched(p, AcquireBegin(p, kind, deadline));
    case WaiterWakes(w) =>
      UnparkSame(p, w, false);
      Untouched(p, Unpark(p, w, false));
    case WaiterLeaves(w) =>
      UnparkSame(p, w, true);
      Untouched(p, Unpark(p, w, true));
    case SlotReleased(r, discard, reason, now) => ReleaseSlotQuiet(p, r, discard, reason, now);
    case PersistentOpens =>
      OpenTicketSame(p);
      Untouched(p, PersistentOpen(p));
    case PersistentReleased(k) =>
      ReleaseTicketSame(p, k);
      Untouched(p, PersistentRelease(p, k));
  }

  lemma NothingSame(p: Pool)
    ensures SameCloses(p, p)
  {
  }

  lemma LaunchQuiet(p: Pool, e: Event)
    requires Inv(p)
    requires e.BrowserLaunched? || e.BrowserFailed? || e.SupervisorTimesOut? || e.SupervisorSettles?
             || e.WatcherFinishes? || e.Disconnects?
    ensures Quiet(p, Step(p, e))
  {
    hide Inv, Quiet, SameCloses, LaunchReturns, LaunchFails, SuperviseTimedOut, SuperviseSettled, WatcherFinished,
      BrowserDies;
    match e
    case BrowserLaunched(t, now) => LaunchReturnsQuiet(p, t, now);
    case BrowserFailed(t) =>
      FailsSame(p, t);
      Untouched(p, LaunchFails(p, t));
    case SupervisorTimesOut(t) =>
      TimedOutSame(p, t);
      Untouched(p, SuperviseTimedOut(p, t));
    case SupervisorSettles(t) => SuperviseSettledQuiet(p, t);
    case WatcherFinishes(t) => WatcherFinishedQuiet(p, t);
    case Disconnects(s) => BrowserDiesQuiet(p, s);
  }

  lemma FailsSame(p: Pool, t: nat)
    ensures SameCloses(p, LaunchFails(p, t))
  {
  }

  lemma TimedOutSame(p: Pool, t: nat)
    ensures SameCloses(p, SuperviseTimedOut(p, t))
  {
  }

  /** Every event accepts a close only for a cause, and keeps the bound on retries of a serving pool. */
  lemma StepJustified(p: Pool, e: Event)
    requires Inv(p)
    ensures Justified(p, e, Step(p, e))
  {
    hide Inv, Step, Quiet, Justified;
    if RefreshedAt(e).Some? {
      RefreshJustified(p, e);
    } else if OfStartup(e) {
      StartupJustified(p, e);
    } else if OfLease(e) {
      LeaseQuiet(p, e);
      QuietJustified(p, e, Step(p, e));
    } else if e.CloseEnds? || e.CloseReconciled? || e.CloseDies? || e.ProcessExits? || e.ProcessExitReconciled? {
      CloseJustified(p, e);
    } else {
      LaunchQuiet(p, e);
      QuietJustified(p, e, Step(p, e));
    }
  }

  // ----- runs -----

  lemma {:induction false} RetriesStayBounded(p: Pool, events: seq<Event>)
    requires Inv(p) && RetriesBounded(p)
    ensures !Run(p, events).closed ==> RetriesBounded(Run(p, events))
    decreases |events|
  {
    hide Inv, Step, Evolves, RetriesBounded;
    if events != [] {
      var q := Step(p, events[0]);
      StepInv(p, events[0]);
      StepJustified(p, events[0]);
      RunInv(q, events[1..]);
      StaysClosed(q, Run(q, events[1..]));
      if !q.closed {
        RetriesStayBounded(q, events[1..]);
      }
    }
  }

  lemma StaysClosed(p: Pool, q: Pool)
    requires Evolves(p, q)
    ensures p.closed ==> q.closed
  {
  }

  /** While the pool serves, no browser's close has failed more often than the retry limit, and one that
      failed so often is not tried again: a browser that will not close cannot keep the pool busy. */
  lemma BackgroundRetriesEnd(p: Pool, s: nat)
    requires Reachable(p) && !p.closed && s in p.table
    ensures p.table[s].closeFailures <= 3
    ensures p.table[s].closeFailures == 3 ==>
              s !in p.closeTasks && forall now :: s !in RetryEligible(p, now)
  {
    hide Inv, Run;
    var cfg, events :| p == Run(NewPool(cfg), events);
    NewPoolInv(cfg);
    RetriesStayBounded(NewPool(cfg), events);
    assert FewFailures(p, s);
  }

  /** No close of `s` fails along the run. */
  ghost predicate NoFailure(p: Pool, events: seq<Event>, s: nat)
    decreases |events|
  {
    events == [] || (!Fails(p, events[0], s) && NoFailure(Step(p, events[0]), events[1..], s))
  }

  /** Whatever takes `s` up again along the run of a serving pool is a refresh that reads a clock of `due`
      or later. */
  ghost predicate TakenUpInTime(p: Pool, events: seq<Event>, s: nat, due: int)
    decreases |events|
  {
    events == [] ||
    var e, q := events[0], Step(p, events[0]);
    && (TakenUp(p, q, s) && !q.closed ==> RefreshedAt(e).Some? && RefreshedAt(e).value >= due)
    && TakenUpInTime(q, events[1..], s, due)
  }

  lemma {:induction false} WaitHolds(p: Pool, events: seq<Event>, s: nat)
    requires Inv(p) && IsClosing(p, s) && NoFailure(p, events, s)
    ensures SameWait(p, Run(p, events), s)
    ensures TakenUpInTime(p, events, s, p.table[s].nextCloseRetryAt)
    decreases |events|
  {
    hide Inv, Step, Evolves, Fails, Justified;
    if events != [] {
      StepInv(p, events[0]);
      JustifiedWaits(p, events[0], s);
      WaitHolds(Step(p, events[0]), events[1..], s);
    }
  }

  lemma JustifiedWaits(p: Pool, e: Event, s: nat)
    requires Inv(p) && IsClosing(p, s)
    ensures Waits(p, e, Step(p, e), s)
  {
    hide Inv, Step, Waits;
    StepJustified(p, e);
  }

  lemma FailsClosing(p: Pool, e: Event, s: nat)
    requires Inv(p) && Fails(p, e, s)
    ensures IsClosing(p, s) && s in p.closeTasks
  {
    hide Inv;
    ClosingState(p, s);
  }

  /** Two failures of one browser's close, one after the other along any run. The first puts the close off
      by two to the power of its failures, a minute at most, and leaves it without a close task; while the
      pool serves only a refresh takes it up again, and none before that time; and the second puts it off
      twice as long, up to that minute. */
  lemma FailedClosesWait(p: Pool, first: Event, between: seq<Event>, second: Event, s: nat)
    requires Reachable(p) && Fails(p, first, s)
    requires NoFailure(Step(p, first), between, s) && Fails(Run(Step(p, first), between), second, s)
    ensures var p1 := Step(p, first);
            var p2 := Run(p1, between);
            var p3 := Step(p2, second);
            && s in p1.table && s in p3.table
            && var wait, due := Backoff(p1.table[s].closeFailures), p1.table[s].nextCloseRetryAt;
            && due == ReplenishedAt(first) + wait && 2 <= wait <= 60
            && s !in p1.closeTasks && s in p2.closeTasks && TakenUpInTime(p1, between, s, due)
            && p3.table[s].nextCloseRetryAt == ReplenishedAt(second) + Min(2 * wait, 60)
  {
    hide Inv, Step, Reachable, Evolves, Fails, Run, NoFailure, TakenUpInTime, Backoff;
    var p1 := Step(p, first);
    var p2 := Run(p1, between);
    ReachableInv(p);
    StepInv(p, first);
    RunInv(p1, between);
    FailsClosing(p, first, s);
    JustifiedWaits(p, first, s);
    WaitHolds(p1, between, s);
    FailsClosing(p2, second, s);
    JustifiedWaits(p2, second, s);
    BackoffDoubles(p1.table[s].closeFailures);
  }

  lemma BackoffDoubles(n: nat)
    requires n >= 1
    ensures 2 <= Backoff(n) <= CLOSE_RETRY_MAX_BACKOFF_SECONDS
    ensures Backoff(n + 1) == Min(2 * Backoff(n), CLOSE_RETRY_MAX_BACKOFF_SECONDS)
  {
    PowersGrow(n - 1);
  }

  lemma PowersGrow(n: nat)
    ensures Pow2(n) >= 1 && Pow2(n + 1) == 2 * Pow2(n) && Pow2(n + 2) == 2 * Pow2(n + 1)
  {
    if n > 0 {
      PowersGrow(n - 1);
    }
  }

  /** Reconciliation of a process exit follows such an exit. */
  ghost predicate Orderly(events: seq<Event>) {
    forall i :: 0 <= i < |events| && events[i].ProcessExitReconciled? ==> ProcessExits(events[i].slot) in events[..i]
  }

  /** Some event said that the browser is gone: its close succeeded, the browser itself reported it, or its
      process ended. */
  predicate Confirms(e: Event, s: nat) {
    || (e.CloseEnds? && e.slot == s && (e.succeeded || e.saysClosed))
    || (e.CloseReconciled? && e.slot == s && e.saysClosed)
    || e == ProcessExits(s)
  }

  ghost predicate Confirmed(events: seq<Event>, s: nat) {
    exists e :: e in events && Confirms(e, s)
  }

  lemma RunLast(p: Pool, events: seq<Event>)
    requires events != []
    ensures Run(p, events) == Step(Run(p, events[..|events| - 1]), events[|events| - 1])
    decreases |events|
  {
    hide Step;
    var n := |events| - 1;
    if n == 0 {
      assert Run(p, events[..0]) == p;
      assert Run(Step(p, events[0]), events[1..]) == Step(p, events[0]);
    } else {
      assert events[..n][0] == events[0] && events[..n][1..] == events[1..][..n - 1];
      RunLast(Step(p, events[0]), events[1..]);
    }
  }

  /** A browser leaves the pool only once something said that it is gone. */
  lemma {:induction false} AcceptedMeansGone(cfg: Config, events: seq<Event>)
    requires Orderly(events)
    ensures var p := Run(NewPool(cfg), events);
            && (forall s :: s in p.accepted ==> Confirmed(events, s))
            && (forall s :: s in p.physicallyClosed ==> ProcessExits(s) in events)
    decreases |events|
  {
    hide Inv, Step, Evolves, Run, Cause, Confirmed;
    if events == [] {
      assert Run(NewPool(cfg), events) == NewPool(cfg) by { RunNothing(NewPool(cfg)); }
    } else {
      var n := |events| - 1;
      var before, e := events[..n], events[n];
      assert forall i :: 0 <= i <= n ==> before[..i] == events[..i];
      AcceptedMeansGone(cfg, before);
      var p := Run(NewPool(cfg), before);
      NewPoolInv(cfg);
      RunInv(NewPool(cfg), before);
      RunLast(NewPool(cfg), events);
      StepJustified(p, e);
      assert forall x :: x in before ==> x in events;
      forall s | s in Step(p, e).accepted ensures Confirmed(events, s) {
        if s in p.accepted {
          MoreEvents(before, events, s);
        } else {
          CauseConfirms(p, e, before, events, s);
        }
      }
    }
  }

  lemma RunNothing(p: Pool)
    ensures Run(p, []) == p
  {
  }

  lemma MoreEvents(before: seq<Event>, events: seq<Event>, s: nat)
    requires Confirmed(before, s) && forall x :: x in before ==> x in events
    ensures Confirmed(events, s)
  {
  }

  lemma CauseConfirms(p: Pool, e: Event, before: seq<Event>, events: seq<Event>, s: nat)
    requires Cause(p, e, s) && e in events && forall x :: x in before ==> x in events
    requires forall x :: x in p.physicallyClosed ==> ProcessExits(x) in before
    requires e.ProcessExitReconciled? ==> ProcessExits(e.slot) in before
    ensures Confirmed(events, s)
  {
    if s in p.physicallyClosed || e.ProcessExitReconciled? {
      assert Confirms(ProcessExits(s), s);
    } else {
      assert Confirms(e, s);
    }
  }
}
