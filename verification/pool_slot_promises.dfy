/** What the sections of the pool make of one browser, written out: when it retires and why, when it is
    closed, and who may lease it. */
module PoolSlotPromises {
  import opened Basics
  import opened PoolState
  import opened PoolInvariant
  import opened PoolSettling
  import opened PoolFrames
  import opened PoolLaunching
  import opened PoolLeases
  import opened PoolRuns
  import opened PoolClosing
  import opened PoolWakeups

  /** The browser has served its uses or its time. */
  predicate Worn(cfg: Config, slot: Slot, now: int) {
    slot.uses >= cfg.maxUses || now - slot.createdAt >= cfg.maxAge
  }

  /** A reason that lets a browser serve on what it holds. */
  predicate Gentle(reason: Option<Reason>) {
    reason == Some(MaxUses) || reason == Some(MaxAge)
  }

  /** Retired for `reason`: out of the ready ones, recorded once; a gentle reason never replaces another. */
  predicate RetiredFor(a: Slot, b: Slot, reason: Reason) {
    && b.state != Ready && b.recycleRecorded && b.recycles == (if a.recycleRecorded then a.recycles else a.recycles + 1)
    && b.retireReason == (if a.retireReason != None && Gentle(Some(reason)) then a.retireReason else Some(reason))
  }

  /** Its life so far is the same. */
  predicate SameLife(a: Slot, b: Slot) {
    && b.createdAt == a.createdAt && b.connected == a.connected
    && b.closeFailures == a.closeFailures && b.nextCloseRetryAt == a.nextCloseRetryAt
  }

  // ----- giving a lease back -----

  /** A slot as its release leaves it, before it may be closed. */
  lemma ReleasedSlotMeans(cfg: Config, slot: Slot, discard: bool, reason: Reason, now: int)
    requires SlotSound(slot) && slot.state != Closing
    ensures var b := ReleasedSlot(cfg, slot, discard, reason, now);
            && SameLife(slot, b) && b.uses == slot.uses && b.activeContexts == slot.activeContexts - 1
            && b.state != Closing
            && (discard ==> RetiredFor(slot, b, reason))
            && (!discard && Worn(cfg, slot, now) ==>
                  RetiredFor(slot, b, if slot.uses >= cfg.maxUses then MaxUses else MaxAge))
            && (!discard && !Worn(cfg, slot, now) ==> b == slot.(activeContexts := slot.activeContexts - 1))
  {
  }

  /** Closing an idle listed slot: it leaves the list for a close task, retired for the reason it had. */
  lemma ClosedSlotMeans(p: Pool, s: nat, reason: Reason)
    requires s in p.table && s in p.slots && Distinct(p.slots) && SlotSound(p.table[s])
    requires p.table[s].state == Retiring && p.table[s].activeContexts == 0 && p.table[s].retireReason == Some(reason)
    ensures var q := ScheduleClose(p, s, reason);
            && q.table == p.table[s := p.table[s].(state := Closing)]
            && s !in q.slots && s in q.closeTasks && (forall x :: x != s ==> (x in q.slots <==> x in p.slots))
            && q == p.(table := q.table, slots := q.slots, closeTasks := q.closeTasks)
            && q.closeTasks == p.closeTasks[s := p.table[s].closeFailures]
  {
    hide ScheduleClose, Without, Distinct;
    ScheduleCloseShape(p, s, reason);
    WithoutFacts(p.slots, s);
  }

  /** What a release does to the slot it releases. */
  predicate Released(cfg: Config, a: Slot, b: Slot, discard: bool, reason: Reason, now: int) {
    && SameLife(a, b) && b.uses == a.uses && b.activeContexts == a.activeContexts - 1
    && (discard ==> RetiredFor(a, b, reason))
    && (!discard && Worn(cfg, a, now) ==> RetiredFor(a, b, if a.uses >= cfg.maxUses then MaxUses else MaxAge))
    && (!discard && !Worn(cfg, a, now) ==> b == a.(activeContexts := b.activeContexts, state := b.state))
    && (b.state == Closing <==> a.activeContexts == 1 && (discard || a.state == Retiring || Worn(cfg, a, now)))
    && (b.state == Ready <==> a.state == Ready && !discard && !Worn(cfg, a, now))
  }

  /** Only the slot of lease `r`, its place, the lease and its counter are different in `q`. */
  ghost predicate OnlyLeaseOf(p: Pool, q: Pool, r: nat)
    requires r in p.reservations
  {
    var s := p.reservations[r].slot;
    && s in p.table && s in q.table && s in p.slots
    && (s in q.slots <==> q.table[s].state != Closing)
    && (s in q.closeTasks <==> q.table[s].state == Closing)
    && (forall x :: x != s ==> (x in q.slots <==> x in p.slots) && (x in q.closeTasks <==> x in p.closeTasks))
    && q == p.(table := p.table[s := q.table[s]], slots := q.slots, closeTasks := q.closeTasks,
               transient := if p.reservations[r].kind == Transient then p.transient - 1 else p.transient,
               reservations := p.reservations[r := p.reservations[r].(released := true)])
  }

  /** Releasing a live lease. A discarded browser is never ready again, and hard-retired if the reason is hard;
      any other browser stops being ready exactly if it has reached its uses or its age. It is closed, off
      the list and with a close task, exactly if it is not ready and this was its last context. The lease is
      given back, and nothing else changes. */
  lemma ReleaseIsExact(p: Pool, r: nat, discard: bool, reason: Reason, now: int)
    requires Reachable(p) && r in p.reservations && !p.reservations[r].released
    ensures var s, q := p.reservations[r].slot, Step(p, SlotReleased(r, discard, reason, now));
            && OnlyLeaseOf(p, q, r)
            && Released(p.cfg, p.table[s], q.table[s], discard, reason, now)
            && (discard && !Gentle(Some(reason)) ==> !Gentle(q.table[s].retireReason))
  {
    hide Reachable, Inv, Step, ReleaseSlot, ReleasedSlot, GivenBack, ScheduleClose, OnlyLeaseOf, Released;
    ReachableInv(p);
    ReleaseStep(p, r, discard, reason, now);
    LiveIsListed(p, r);
    var s := p.reservations[r].slot;
    SlotFacts(p, s);
    ReleaseShape(p, r, discard, reason, now);
    var left := ReleasedSlot(p.cfg, p.table[s], discard, reason, now);
    LeftSlotMeans(p.cfg, p.table[s], left, discard, reason, now);
    if left.state == Retiring && left.activeContexts == 0 {
      LastOneCloses(p, r, left);
    } else {
      LeaseGoes(p, r, left);
    }
  }

  lemma LeaseGoes(p: Pool, r: nat, left: Slot)
    requires r in p.reservations && p.reservations[r].slot in p.table && p.reservations[r].slot in p.slots
    requires p.reservations[r].slot !in p.closeTasks && left.state != Closing
    ensures OnlyLeaseOf(p, GivenBack(p, r, left), r) && GivenBack(p, r, left).table[p.reservations[r].slot] == left
  {
  }

  lemma LastOneCloses(p: Pool, r: nat, left: Slot)
    requires r in p.reservations && p.reservations[r].slot in p.table && p.reservations[r].slot in p.slots
    requires p.reservations[r].slot !in p.closeTasks && Distinct(p.slots) && SlotSound(left)
    requires left.state == Retiring && left.activeContexts == 0
    ensures var q := ScheduleClose(GivenBack(p, r, left), p.reservations[r].slot, ReasonOr(left.retireReason));
            OnlyLeaseOf(p, q, r) && q.table[p.reservations[r].slot] == left.(state := Closing)
  {
    hide ScheduleClose, Distinct;
    ClosedSlotMeans(GivenBack(p, r, left), p.reservations[r].slot, ReasonOr(left.retireReason));
  }

  lemma SlotFacts(p: Pool, s: nat)
    requires Inv(p) && s in p.slots
    ensures s in p.table && SlotSound(p.table[s]) && Distinct(p.slots) && p.table[s].state != Closing
    ensures s !in p.closeTasks && s !in p.failedCloses && s !in p.accepted
  {
    InvParts(p);
    hide Inv, Leases, StartupsSound, Attended, Draining;
    HeldBasics(p, {});
    assert !IsClosing(p, s);
  }

  lemma LeftSlotMeans(cfg: Config, a: Slot, left: Slot, discard: bool, reason: Reason, now: int)
    requires SlotSound(a) && a.state != Closing && a.activeContexts > 0
    requires left == ReleasedSlot(cfg, a, discard, reason, now)
    ensures SlotSound(left) && left.state != Closing && left.activeContexts == a.activeContexts - 1
    ensures left.state == Retiring ==> left.retireReason.Some? && ReasonOr(left.retireReason) == left.retireReason.value
    ensures left.state == Retiring && left.activeContexts == 0 ==>
              Released(cfg, a, left.(state := Closing), discard, reason, now)
    ensures left.state != Retiring || left.activeContexts != 0 ==> Released(cfg, a, left, discard, reason, now)
    ensures discard && !Gentle(Some(reason)) ==> !Gentle(left.retireReason)
  {
  }

  // ----- refreshing -----

  /** What a refresh makes of a listed slot: a dead browser is retired for that, an old or worn ready one for
      its uses or its age, and a retiring one stays as it is; an idle one of these closes. Any other is left
      alone. */
  predicate RefreshedTo(cfg: Config, a: Slot, b: Slot, now: int) {
    var out := !a.connected || a.state == Retiring || Worn(cfg, a, now);
    && SameLife(a, b) && b.uses == a.uses && b.activeContexts == a.activeContexts
    && (!out ==> b == a)
    && (!a.connected ==> RetiredFor(a, b, Disconnected))
    && (a.connected && a.state == Ready && Worn(cfg, a, now) ==>
          RetiredFor(a, b, if a.uses >= cfg.maxUses then MaxUses else MaxAge))
    && (a.connected && a.state == Retiring ==> b == a.(state := b.state))
    && (out ==> b.state == if a.activeContexts == 0 then Closing else Retiring)
  }

  lemma RefreshedSlotMeans(cfg: Config, a: Slot, now: int)
    requires SlotSound(a) && a.state != Closing
    ensures var b := RefreshedSlot(cfg, a, now);
            && SlotSound(b) && b.state != Closing
            && (b.state == Retiring ==> b.retireReason.Some?)
            && (b.state == Retiring && b.activeContexts == 0 ==> RefreshedTo(cfg, a, b.(state := Closing), now))
            && (b.state != Retiring || b.activeContexts != 0 ==> RefreshedTo(cfg, a, b, now))
  {
  }

  lemma RefreshOneMeans(p: Pool, s: nat, now: int)
    requires s in p.table && s in p.slots && Distinct(p.slots) && SlotSound(p.table[s]) && p.table[s].state != Closing
    ensures var q := RefreshOne(p, s, now);
            s in q.table && RefreshedTo(p.cfg, p.table[s], q.table[s], now) && q.failedCloses == p.failedCloses
  {
    hide RefreshedSlot, ScheduleClose, SlotSound, RefreshedTo, Distinct;
    RefreshedSlotMeans(p.cfg, p.table[s], now);
    var m := RefreshMark(p, s, now);
    if m.table[s].state == Retiring && m.table[s].activeContexts == 0 {
      ClosedSlotMeans(m, s, ReasonOr(m.table[s].retireReason));
    }
  }

  lemma RefreshOneFailed(p: Pool, s: nat, now: int)
    ensures RefreshOne(p, s, now).failedCloses == p.failedCloses
  {
    hide RefreshedSlot, ScheduleClose, Retired;
    var m := RefreshMark(p, s, now);
    if s in m.table {
      FailedApart(m, s, ReasonOr(m.table[s].retireReason));
    }
  }

  lemma FailedApart(p: Pool, s: nat, reason: Reason)
    ensures ScheduleClose(p, s, reason).failedCloses == p.failedCloses
  {
    hide ScheduleClose, Without, Retired;
    ScheduleCloseIdle(p, s, reason);
    if s in p.table && p.table[s].state != Closing && p.table[s].activeContexts == 0 {
      ScheduleCloseShape(p, s, reason);
    }
  }

  lemma {:induction false} RefreshAllMeans(p: Pool, todo: seq<nat>, now: int, s: nat)
    requires Held(p, {}) && Distinct(todo) && (forall t :: t in todo ==> Free(p, t) && t in p.slots)
    ensures var q := RefreshAll(p, todo, now);
            && q.failedCloses == p.failedCloses
            && (s in todo && s in p.table ==> s in q.table && RefreshedTo(p.cfg, p.table[s], q.table[s], now))
    decreases |todo|
  {
    hide Held, Settles, RefreshOne, Free, SlotSound, RefreshedTo;
    if todo != [] {
      var q := RefreshOne(p, todo[0], now);
      var rest := todo[1..];
      assert todo == [todo[0]] + rest;
      assert todo[0] !in rest;
      HeldSlot(p, todo[0]);
      RefreshOneHeld(p, todo[0], now);
      RefreshOneMeans(p, todo[0], now);
      SameKeys(p, q);
      FewerSlots(p, q);
      forall t | t in rest ensures Free(q, t) && t in q.slots {
        assert t in todo && t != todo[0];
        SettlesOne(p, q, t);
        HeldSlot(p, t);
        StaysListed(p, q, t);
      }
      RefreshAllHeld(q, rest, now);
      RefreshAllMeans(q, rest, now, s);
    }
  }

  lemma HeldSlot(p: Pool, s: nat)
    requires Held(p, {}) && s in p.slots
    ensures s in p.table && SlotSound(p.table[s]) && Distinct(p.slots) && p.table[s].state != Closing
  {
    assert !IsClosing(p, s);
  }

  lemma StaysListed(p: Pool, q: Pool, t: nat)
    requires Held(p, {}) && Settles(p, q) && t in p.slots && t in p.table && t in q.table && q.table[t] == p.table[t]
    ensures t in q.slots
  {
    assert !IsClosing(p, t);
  }

  /** A refresh: every listed slot as `RefreshedTo` says, listed exactly if it is not closing, and then with a
      close task exactly if it is; and of the closes that failed exactly those are tried again that failed
      fewer than three times and whose time has come. */
  lemma RefreshIsExact(p: Pool, now: int, s: nat)
    requires Reachable(p)
    ensures var q := RefreshRecycling(p, now);
            && (s in p.slots ==>
                  && s in p.table && s in q.table && RefreshedTo(p.cfg, p.table[s], q.table[s], now)
                  && (s in q.slots <==> q.table[s].state != Closing)
                  && (s in q.closeTasks <==> q.table[s].state == Closing))
            && (s in p.failedCloses ==>
                  && s in p.table
                  && (s in q.closeTasks <==> p.table[s].closeFailures < 3 && now >= p.table[s].nextCloseRetryAt)
                  && (s in q.failedCloses <==> s !in q.closeTasks))
  {
    hide Reachable, Inv, RefreshRecycling, RefreshedTo, Held, Settles, OpenOwned, ClosingOwned, Evolves, Leases,
      StartupsSound, LaunchesKnown, TasksKnown, SlotsKnown, Attended, Draining;
    ReachableInv(p);
    InvParts(p);
    RefreshRecyclingInv(p, now);
    RefreshRecyclingHeld(p, now);
    var q := RefreshRecycling(p, now);
    InvParts(q);
    RefreshAccepts(p, now);
    RefreshShape(p, now, s);
    RefreshRecyclingQuiet(p, now);
    if s in p.slots {
      SlotFacts(p, s);
      ListedOrClosing(p, q, s);
    }
  }

  /** The parts of a refresh that concern `s`. */
  lemma RefreshShape(p: Pool, now: int, s: nat)
    requires Held(p, {}) && ClosingOwned(p)
    ensures var q := RefreshRecycling(p, now);
            && (s in p.slots ==> s in p.table && s in q.table && RefreshedTo(p.cfg, p.table[s], q.table[s], now))
            && q.failedCloses <= p.failedCloses
            && (s in p.failedCloses ==>
                  && s in p.table
                  && (s in q.closeTasks <==> p.table[s].closeFailures < 3 && now >= p.table[s].nextCloseRetryAt)
                  && (s in q.failedCloses <==> s !in q.closeTasks))
  {
    hide Held, Settles, RefreshAll, Free, RefreshedTo, OpenOwned;
    HeldBasics(p, {});
    RefreshAllMeans(p, p.slots, now, s);
    RefreshAllHeld(p, p.slots, now);
    RefreshAllQuiet(p, p.slots, now);
    var m := RefreshAll(p, p.slots, now);
    if s in p.failedCloses {
      assert IsClosing(p, s);
      QuietOne(p, m, s);
    }
  }

  lemma QuietOne(p: Pool, q: Pool, s: nat)
    requires Quiet(p, q) && IsClosing(p, s)
    ensures SameWait(p, q, s) && !TakenUp(p, q, s)
  {
  }

  lemma ListedOrClosing(p: Pool, q: Pool, s: nat)
    requires Settles(p, q) && OpenOwned(q, {}) && ClosingOwned(q) && s in p.slots && s in q.table
    requires q.accepted == p.accepted && s !in p.accepted && q.failedCloses <= p.failedCloses && s !in p.failedCloses
    ensures s in q.slots <==> q.table[s].state != Closing
    ensures s in q.closeTasks <==> q.table[s].state == Closing
  {
    assert s in q.slots || IsClosing(q, s);
    assert IsClosing(q, s) <==> s in q.closeTasks || s in q.failedCloses || s in q.accepted;
  }

  // ----- leasing -----

  /** A slot can take one more context at `check`: a ready one with room that is neither worn nor old, or one
      retired gently that is in use and has room. */
  predicate CanServe(p: Pool, s: nat, check: int) {
    && s in p.slots && s in p.table && p.table[s].activeContexts < p.cfg.maxContexts
    && var slot := p.table[s];
       || (slot.state == Ready && !Worn(p.cfg, slot, check))
       || (slot.state == Retiring && slot.activeContexts > 0 && Gentle(slot.retireReason))
  }

  lemma ServesExactly(p: Pool, s: nat, check: int)
    ensures Available(p, s, check) <==> CanServe(p, s, check)
    ensures s in p.slots && s in p.table ==>
              (Healthy(p.cfg, p.table[s], check) <==> CanServe(p, s, check) && p.table[s].state == Ready)
  {
  }

  /** The leased slot: one context and one use more, and retired for it exactly if that wore it out. */
  predicate LeasedTo(cfg: Config, a: Slot, b: Slot, check: int) {
    && SameLife(a, b) && b.activeContexts == a.activeContexts + 1 && b.uses == a.uses + 1
    && (a.state == Ready && Worn(cfg, b, check) ==>
          b.state == Retiring && RetiredFor(a, b, if b.uses >= cfg.maxUses then MaxUses else MaxAge))
    && (a.state != Ready || !Worn(cfg, b, check) ==> b == a.(activeContexts := b.activeContexts, uses := b.uses))
  }

  lemma LeasedSlotMeans(cfg: Config, a: Slot, check: int)
    ensures a.state != Closing ==> LeasedTo(cfg, a, ReservedSlot(cfg, a, check), check)
  {
  }

  /** How one turn of a caller ends, each way exactly when. After a refresh, with `check` read for the choice of
      a slot and `later` for the time left: it leases if some slot can serve, and a healthy one if there is
      one; otherwise it fails if a launch failed since it began, or its time is up, or it parks. */
  lemma TurnIsExact(p: Pool, w: nat, now: int, check: int, later: int)
    requires Reachable(p) && w in p.waiters && !p.waiters[w].parked
    ensures var q := RefreshRecycling(p, now);
            var (after, result) := AcquireTurn(p, w, now, check, later);
            var me := p.waiters[w];
            var open := !p.closed && now < me.deadline;
            var served := exists s :: CanServe(q, s, check);
            var failed := p.lastFailure && p.failureGeneration != me.generation;
            && (result == PoolClosed <==> p.closed)
            && (result.Leased? <==> open && served)
            && (result == LaunchFailed <==> open && !served && failed)
            && (result == TimedOut <==>
                  !p.closed && (now >= me.deadline || (!served && !failed && later >= me.deadline)))
            && (result == Parked <==> open && !served && !failed && later < me.deadline)
            && (w in after.waiters <==> result == Parked)
  {
    hide Reachable, Inv, RefreshRecycling, ServeOrPark, CanServe;
    ReachableInv(p);
    RefreshKeepsCounts(p, now);
    RefreshKeepsFailure(p, now);
    if !p.closed && now < p.waiters[w].deadline {
      TurnServes(p, w, now, check, later);
      ServeIsExact(RefreshRecycling(p, now), w, p.waiters[w], check, later);
    }
  }

  lemma RefreshKeepsFailure(p: Pool, now: int)
    requires Inv(p)
    ensures RefreshRecycling(p, now).lastFailure == p.lastFailure
  {
    hide Inv, RefreshRecycling, Held;
    InvParts(p);
    RefreshRecyclingHeld(p, now);
  }

  lemma ServeIsExact(q: Pool, w: nat, me: Waiter, check: int, later: int)
    requires w in q.waiters
    ensures var (after, result) := ServeOrPark(q, w, me, check, later);
            var served := exists s :: CanServe(q, s, check);
            var failed := q.lastFailure && q.failureGeneration != me.generation;
            && (result.Leased? <==> served)
            && (result == LaunchFailed <==> !served && failed)
            && (result == TimedOut <==> !served && !failed && later >= me.deadline)
            && (result == Parked <==> !served && !failed && later < me.deadline)
            && result != PoolClosed && (w in after.waiters <==> result == Parked)
  {
    hide CanServe, Healthy, SoftAvailable, Reserve, AcquireOrPark;
    ServedIff(q, check);
    ParkIsExact(q, w, me, later);
  }

  lemma ServedIff(q: Pool, check: int)
    ensures (exists s :: CanServe(q, s, check)) <==>
              FirstHealthy(q, q.slots, check).Some? || FirstSoft(q, q.slots).Some?
  {
    hide CanServe, Healthy, SoftAvailable, FirstHealthy, FirstSoft;
    AvailableIff(q, check);
    forall s ensures Available(q, s, check) <==> CanServe(q, s, check) {
      ServesExactly(q, s, check);
    }
  }

  lemma ParkIsExact(q: Pool, w: nat, me: Waiter, later: int)
    ensures var (after, result) := AcquireOrPark(q, w, me, later);
            var failed := q.lastFailure && q.failureGeneration != me.generation;
            && (result == LaunchFailed <==> failed)
            && (result == TimedOut <==> !failed && later >= me.deadline)
            && (result == Parked <==> !failed && later < me.deadline)
            && !result.Leased? && result != PoolClosed
            && (w in after.waiters <==> result == Parked)
  {
    hide MayLaunch, StartCreate;
    LaunchWaiters(q);
  }

  lemma LaunchWaiters(q: Pool)
    ensures StartCreate(q, None).waiters == q.waiters
  {
  }

  /** What a turn that leases does to the refreshed pool: one slot that can serve, a ready one whenever one can,
      takes the context, the lease and its counter are recorded, the caller is gone, and nothing else
      changes. */
  lemma LeaseIsExact(p: Pool, w: nat, now: int, check: int, later: int)
    requires Reachable(p) && w in p.waiters && !p.waiters[w].parked && !p.closed && now < p.waiters[w].deadline
    requires AcquireTurn(p, w, now, check, later).1.Leased?
    ensures var q := RefreshRecycling(p, now);
            var (after, result) := AcquireTurn(p, w, now, check, later);
            var me, r := p.waiters[w], result.reservation;
            && r !in p.reservations && r in after.reservations
            && var s := after.reservations[r].slot;
               && CanServe(q, s, check) && s in after.table && LeasedTo(q.cfg, q.table[s], after.table[s], check)
               && ((exists x :: CanServe(q, x, check) && x in q.table && q.table[x].state == Ready) ==>
                     q.table[s].state == Ready)
               && after == q.(table := q.table[s := after.table[s]], waiters := q.waiters - {w},
                              transient := if me.kind == Transient then q.transient + 1 else q.transient,
                              reservations := p.reservations[r := Reservation(s, me.kind, false)],
                              nextReservation := after.nextReservation)
  {
    hide Reachable, Inv, RefreshRecycling, ServeOrPark, CanServe, Evolves;
    ReachableInv(p);
    RefreshKeepsCounts(p, now);
    RefreshKeepsLeases(p, now);
    RefreshRecyclingInv(p, now);
    NoNegativeSlots(RefreshRecycling(p, now));
    TurnServes(p, w, now, check, later);
    ServesOne(RefreshRecycling(p, now), w, p.waiters[w], check, later);
  }

  lemma ServesOne(q: Pool, w: nat, me: Waiter, check: int, later: int)
    requires q.nextReservation !in q.reservations && ServeOrPark(q, w, me, check, later).1.Leased?
    ensures var (after, result) := ServeOrPark(q, w, me, check, later);
            var r := result.reservation;
            && r == q.nextReservation && r in after.reservations
            && var s := after.reservations[r].slot;
               && CanServe(q, s, check) && s in after.table && LeasedTo(q.cfg, q.table[s], after.table[s], check)
               && ((exists x :: CanServe(q, x, check) && x in q.table && q.table[x].state == Ready) ==>
                     q.table[s].state == Ready)
               && after == q.(table := q.table[s := after.table[s]], waiters := q.waiters - {w},
                              transient := if me.kind == Transient then q.transient + 1 else q.transient,
                              reservations := q.reservations[r := Reservation(s, me.kind, false)],
                              nextReservation := after.nextReservation)
  {
    hide Reserve, ReservedSlot, Healthy, SoftAvailable, CanServe, AcquireOrPark, LeasedTo;
    var healthy := FirstHealthy(q, q.slots, check);
    var found := if healthy.Some? then healthy else FirstSoft(q, q.slots);
    ParkIsExact(q, w, me, later);
    var s := found.value;
    assert Available(q, s, check);
    ServesExactly(q, s, check);
    ServingIsOpen(q, s, check);
    ReserveShape(q, s, me.kind, check);
    LeasedSlotMeans(q.cfg, q.table[s], check);
    forall x | CanServe(q, x, check) && x in q.table && q.table[x].state == Ready ensures healthy.Some? {
      ReadyOneServes(q, x, check);
    }
  }

  lemma ReadyOneServes(q: Pool, x: nat, check: int)
    requires CanServe(q, x, check) && x in q.table && q.table[x].state == Ready
    ensures FirstHealthy(q, q.slots, check).Some?
  {
    hide FirstHealthy, Healthy;
    ServesExactly(q, x, check);
  }

  lemma ServingIsOpen(q: Pool, s: nat, check: int)
    requires CanServe(q, s, check)
    ensures s in q.table && s in q.slots && q.table[s].state != Closing && q.table[s].activeContexts < q.cfg.maxContexts
  {
  }

  /** A caller may launch: it has not yet, fewer than `max_browsers` are ready or being launched, and all
      browsers together and the abandoned launches are below max(1, 2 * max_browsers). */
  predicate LaunchOpen(q: Pool, me: Waiter) {
    var ready := set s | s in q.slots && s in q.table && q.table[s].state == Ready;
    var ceiling := if q.cfg.maxBrowsers == 0 then 1 else 2 * q.cfg.maxBrowsers;
    && !me.launched
    && |ready| + |q.createTasks| < q.cfg.maxBrowsers
    && |q.slots| + |q.createTasks| + |q.watchers| + |q.closeTasks| + |q.failedCloses| < ceiling
    && |q.watchers| < ceiling
  }

  /** One launch more is in flight. */
  function OneMoreLaunch(q: Pool): Pool {
    q.(launches := q.launches[q.nextLaunch := Launch(None, Running)],
       createTasks := q.createTasks + {q.nextLaunch}, nextLaunch := q.nextLaunch + 1)
  }

  /** `after` is `m` with the caller gone, or counted as waiting. */
  ghost predicate GoneOrParked(m: Pool, after: Pool, w: nat, me: Waiter, parked: bool) {
    && (!parked ==> after == m.(waiters := m.waiters - {w}))
    && (parked ==> after == m.(waiting := m.waiting + 1, waiters := m.waiters[w := me]))
  }

  /** A turn that neither leases nor reports a failed launch starts a launch exactly if `LaunchOpen` says so.
      The caller is gone or parked, it remembers its launch, and nothing else changes. */
  lemma LaunchIsExact(p: Pool, w: nat, now: int, check: int, later: int)
    requires Reachable(p) && w in p.waiters && !p.waiters[w].parked && !p.closed && now < p.waiters[w].deadline
    requires AcquireTurn(p, w, now, check, later).1 in {TimedOut, Parked}
    ensures var q, me := RefreshRecycling(p, now), p.waiters[w];
            var (after, result) := AcquireTurn(p, w, now, check, later);
            var parked := me.(launched := me.launched || LaunchOpen(q, me), parked := true);
            && (LaunchOpen(q, me) ==> GoneOrParked(OneMoreLaunch(q), after, w, parked, result == Parked))
            && (!LaunchOpen(q, me) ==> GoneOrParked(q, after, w, parked, result == Parked))
  {
    hide Reachable, Inv, RefreshRecycling, ServeOrPark, AcquireTurn, LaunchOpen, OneMoreLaunch, GoneOrParked;
    ReachableInv(p);
    RefreshKeepsCounts(p, now);
    TurnServes(p, w, now, check, later);
    ParksOrLaunches(RefreshRecycling(p, now), w, p.waiters[w], check, later);
  }

  lemma ParksOrLaunches(q: Pool, w: nat, me: Waiter, check: int, later: int)
    requires ServeOrPark(q, w, me, check, later).1 in {TimedOut, Parked}
    ensures var (after, result) := ServeOrPark(q, w, me, check, later);
            var parked := me.(launched := me.launched || LaunchOpen(q, me), parked := true);
            && (LaunchOpen(q, me) ==> GoneOrParked(OneMoreLaunch(q), after, w, parked, result == Parked))
            && (!LaunchOpen(q, me) ==> GoneOrParked(q, after, w, parked, result == Parked))
  {
    hide Reserve, FirstHealthy, FirstSoft, MayLaunch, LaunchOpen, StartCreate, OneMoreLaunch;
    LaunchesIf(q, me);
    if MayLaunch(q, me) {
    } else {
    }
  }

  lemma LaunchesIf(q: Pool, me: Waiter)
    ensures MayLaunch(q, me) <==> LaunchOpen(q, me)
    ensures StartCreate(q, None) == OneMoreLaunch(q)
  {
    assert ReadyIds(q) == set s | s in q.slots && s in q.table && q.table[s].state == Ready;
    assert |q.closeTasks.Keys| == |q.closeTasks|;
  }
}
