/** Acquiring and releasing contexts keeps the pool's invariant: every count is the number of
    reservations behind it. */
module PoolLeases {
  import opened Basics
  import opened PoolState
  import opened PoolInvariant
  import opened PoolSettling
  import opened PoolFrames
  import opened PoolLaunching
  import opened PoolStartup

  /** A section that touches only tickets, waiters and their counters. */
  lemma CountersInv(p: Pool, q: Pool)
    requires Inv(p) && Leases(q)
    requires q == p.(persistent := q.persistent, waiting := q.waiting, tickets := q.tickets, waiters := q.waiters,
                     nextTicket := q.nextTicket, nextWaiter := q.nextWaiter)
    requires p.closed ==> q.tickets.Keys == p.tickets.Keys
    ensures Inv(q) && Evolves(p, q)
  {
    InvParts(p);
    hide Inv, Held, StartupsSound, StartupsKept, Attended, Leases, Draining, OpenOwned, ClosingOwned, LaunchesKnown,
      TasksKnown, SlotsKnown, Evolves;
    HeldSame(p, q, {});
    CountersStartups(p, q);
    StartupsCarryAll(p, q);
    CountersRest(p, q);
    assert Inv(q) by { InvFrom(q); }
  }

  lemma InvFrom(q: Pool)
    requires Held(q, {}) && Leases(q) && StartupsSound(q) && Attended(q) && Draining(q)
    ensures Inv(q)
  {
    hide Held, Leases, StartupsSound, Attended, Draining;
  }

  lemma CountersStartups(p: Pool, q: Pool)
    requires q.table == p.table && q.slots == p.slots && q.createTasks == p.createTasks && q.startups == p.startups
    requires q.launches == p.launches && q.closed == p.closed && q.nextStartup == p.nextStartup
    ensures StartupsKept(p, q, {})
  {
    assert forall x :: IsClosing(q, x) <==> IsClosing(p, x);
  }

  lemma CountersRest(p: Pool, q: Pool)
    requires Attended(p) && Draining(p)
    requires q == p.(persistent := q.persistent, waiting := q.waiting, tickets := q.tickets, waiters := q.waiters,
                     nextTicket := q.nextTicket, nextWaiter := q.nextWaiter)
    requires p.closed ==> q.tickets.Keys == p.tickets.Keys
    ensures Attended(q) && Draining(q) && Evolves(p, q)
  {
  }

  // ----- waiters and tickets -----

  lemma DroppedWaiter(p: Pool, id: nat)
    requires Leases(p) && id in p.waiters && !p.waiters[id].parked
    ensures Leases(p.(waiters := p.waiters - {id}))
  {
    hide SlotsCounted, ReservationsKnown, TransientsCounted, TicketsCounted, LeasesTicketed, LeasesApart;
    assert ParkedWaiters(p.waiters - {id}) == ParkedWaiters(p.waiters);
  }

  lemma DropWaiterInv(p: Pool, id: nat)
    requires Inv(p) && id in p.waiters && !p.waiters[id].parked
    ensures Inv(p.(waiters := p.waiters - {id})) && Evolves(p, p.(waiters := p.waiters - {id}))
  {
    hide Inv, Evolves, Leases;
    HasLeases(p);
    DroppedWaiter(p, id);
    CountersInv(p, p.(waiters := p.waiters - {id}));
  }

  lemma HasLeases(p: Pool)
    requires Inv(p)
    ensures Leases(p)
  {
    hide Held, Leases, StartupsSound, Attended, Draining;
  }

  lemma ParkedCounted(p: Pool, id: nat, w: Waiter)
    requires WaitersCounted(p.waiting, p.waiters) && id in p.waiters
    ensures WaitersCounted(ParkedCount(p, id, w), p.waiters[id := w])
    ensures p.waiters[id].parked ==> p.waiting > 0
  {
    var before := ParkedWaiters(p.waiters);
    if w.parked {
      assert ParkedWaiters(p.waiters[id := w]) == before + {id};
    } else {
      assert ParkedWaiters(p.waiters[id := w]) == before - {id};
    }
    assert p.waiters[id].parked <==> id in before;
  }

  lemma ParkedTicketed(p: Pool, id: nat, w: Waiter)
    requires Ticketed(p) && id in p.waiters && w.kind == p.waiters[id].kind
    ensures NumbersKnown(p.tickets, p.nextTicket, p.waiters[id := w], p.nextWaiter)
    ensures WaitersTicketed(p.waiters[id := w], p.tickets)
    ensures WaitersApart(p.waiters[id := w], p.reservations)
  {
    hide LeasesTicketed, LeasesApart;
  }

  lemma ParkedLeases(p: Pool, id: nat, w: Waiter)
    requires Leases(p) && id in p.waiters && w.kind == p.waiters[id].kind
    ensures Leases(p.(waiters := p.waiters[id := w], waiting := ParkedCount(p, id, w)))
    ensures p.waiters[id].parked ==> p.waiting > 0
  {
    hide SlotsCounted, ReservationsKnown, TransientsCounted, TicketsCounted, LeasesTicketed, LeasesApart,
      NumbersKnown, WaitersTicketed, WaitersApart, WaitersCounted, ParkedCount;
    ParkedCounted(p, id, w);
    ParkedTicketed(p, id, w);
  }

  function ParkedCount(p: Pool, id: nat, w: Waiter): int
    requires id in p.waiters
  {
    p.waiting + (if w.parked then 1 else 0) - (if p.waiters[id].parked then 1 else 0)
  }

  lemma ParkInv(p: Pool, id: nat, w: Waiter)
    requires Inv(p) && id in p.waiters && w.kind == p.waiters[id].kind
    ensures Inv(p.(waiters := p.waiters[id := w], waiting := ParkedCount(p, id, w)))
    ensures Evolves(p, p.(waiters := p.waiters[id := w], waiting := ParkedCount(p, id, w)))
    ensures p.waiters[id].parked ==> p.waiting > 0
  {
    hide Inv, Evolves, Leases;
    HasLeases(p);
    ParkedLeases(p, id, w);
    CountersInv(p, p.(waiters := p.waiters[id := w], waiting := ParkedCount(p, id, w)));
  }

  lemma UnparkInv(p: Pool, id: nat, leaves: bool)
    requires Inv(p)
    ensures Inv(Unpark(p, id, leaves)) && Evolves(p, Unpark(p, id, leaves))
  {
    hide Inv, Evolves;
    if id !in p.waiters {
      EvolvesSelf(p);
    } else {
      var w := p.waiters[id].(parked := false);
      ParkInv(p, id, w);
      var q := p.(waiters := p.waiters[id := w], waiting := ParkedCount(p, id, w));
      UnparkShape(p, id, leaves, q);
      if leaves {
        DropWaiterInv(q, id);
        EvolvesTransitive(p, q, q.(waiters := q.waiters - {id}));
      }
    }
  }

  lemma UnparkShape(p: Pool, id: nat, leaves: bool, q: Pool)
    requires id in p.waiters && (p.waiters[id].parked ==> p.waiting > 0)
    requires var w := p.waiters[id].(parked := false);
             q == p.(waiters := p.waiters[id := w], waiting := ParkedCount(p, id, w))
    ensures Unpark(p, id, leaves) == if leaves then q.(waiters := q.waiters - {id}) else q
  {
    assert q.waiters - {id} == p.waiters - {id};
    if leaves {
    } else {
    }
  }

  /** The state after `AcquireBegin`, once the call is admitted. */
  lemma AcquireBeginLeases(p: Pool, kind: Kind, deadline: int)
    requires Leases(p)
    requires kind.Persistent? ==> kind.ticket in p.tickets && p.tickets[kind.ticket] == Ticket(false, false)
    ensures Leases(AcquireBegin(p, kind, deadline))
  {
    hide SlotsCounted, ReservationsKnown, TransientsCounted, LeasesApart, LeasesTicketed, WaitersTicketed, WaitersApart,
      TicketsCounted;
    var w := Waiter(kind, deadline, p.failureGeneration, false, false);
    var waiters := p.waiters[p.nextWaiter := w];
    assert ParkedWaiters(waiters) == ParkedWaiters(p.waiters);
    if kind.Persistent? {
      TicketTaken(p, kind.ticket, w);
    } else {
      NewWaiter(p, w);
    }
  }

  lemma NewWaiter(p: Pool, w: Waiter)
    requires Ticketed(p) && w.kind == Transient
    ensures WaitersTicketed(p.waiters[p.nextWaiter := w], p.tickets)
    ensures WaitersApart(p.waiters[p.nextWaiter := w], p.reservations)
  {
  }

  lemma TicketTaken(p: Pool, k: nat, w: Waiter)
    requires Ticketed(p) && k in p.tickets && p.tickets[k] == Ticket(false, false) && w.kind == Persistent(k)
    requires TicketsCounted(p.persistent, p.tickets, p.cfg.MaxPersistent())
    ensures var tickets := p.tickets[k := Ticket(false, true)];
            && TicketsCounted(p.persistent, tickets, p.cfg.MaxPersistent())
            && LeasesTicketed(p.reservations, tickets)
            && WaitersTicketed(p.waiters[p.nextWaiter := w], tickets)
            && WaitersApart(p.waiters[p.nextWaiter := w], p.reservations)
  {
    assert LiveTickets(p.tickets[k := Ticket(false, true)]) == LiveTickets(p.tickets);
    assert forall x :: x in p.waiters ==> p.waiters[x].kind != w.kind;
    assert forall r :: r in p.reservations ==> p.reservations[r].kind != w.kind;
  }

  lemma AcquireBeginInv(p: Pool, kind: Kind, deadline: int)
    requires Inv(p)
    ensures Inv(AcquireBegin(p, kind, deadline)) && Evolves(p, AcquireBegin(p, kind, deadline))
  {
    hide Inv, Evolves, Leases;
    if kind.Persistent? && (kind.ticket !in p.tickets || p.tickets[kind.ticket].released
        || p.tickets[kind.ticket].used) {
      EvolvesSelf(p);
    } else {
      HasLeases(p);
      AcquireBeginLeases(p, kind, deadline);
      CountersInv(p, AcquireBegin(p, kind, deadline));
    }
  }

  lemma PersistentOpenLeases(p: Pool)
    requires Leases(p) && PersistentAdmitted(p)
    ensures Leases(PersistentOpen(p))
  {
    hide SlotsCounted, ReservationsKnown, TransientsCounted, WaitersCounted, LeasesApart, WaitersApart;
    var tickets := p.tickets[p.nextTicket := Ticket(false, false)];
    assert LiveTickets(tickets) == LiveTickets(p.tickets) + {p.nextTicket};
  }

  lemma PersistentOpenInv(p: Pool)
    requires Inv(p)
    ensures Inv(PersistentOpen(p)) && Evolves(p, PersistentOpen(p))
  {
    hide Inv, Evolves, Leases;
    if PersistentAdmitted(p) {
      HasLeases(p);
      PersistentOpenLeases(p);
      CountersInv(p, PersistentOpen(p));
    } else {
      EvolvesSelf(p);
    }
  }

  /** Nobody waits with the ticket, and the slot it leased is released: the order in which
      `_finalize_persistent_accounting` gives the two back. */
  ghost predicate TicketIdle(p: Pool, k: nat) {
    && (forall w :: w in p.waiters ==> p.waiters[w].kind != Persistent(k))
    && (forall r :: r in p.reservations && p.reservations[r].kind == Persistent(k) ==> p.reservations[r].released)
  }

  lemma PersistentReleaseLeases(p: Pool, k: nat)
    requires Leases(p) && TicketIdle(p, k) && k in p.tickets && !p.tickets[k].released
    ensures Leases(PersistentRelease(p, k)) && p.persistent > 0
  {
    hide SlotsCounted, ReservationsKnown, TransientsCounted, WaitersCounted, LeasesApart, WaitersApart;
    var tickets := p.tickets[k := p.tickets[k].(released := true)];
    assert k in LiveTickets(p.tickets);
    assert LiveTickets(tickets) == LiveTickets(p.tickets) - {k};
  }

  lemma PersistentReleaseInv(p: Pool, k: nat)
    requires Inv(p) && TicketIdle(p, k)
    ensures Inv(PersistentRelease(p, k)) && Evolves(p, PersistentRelease(p, k))
  {
    hide Inv, Evolves, Leases, TicketIdle;
    if k !in p.tickets || p.tickets[k].released {
      EvolvesSelf(p);
    } else {
      HasLeases(p);
      PersistentReleaseLeases(p, k);
      CountersInv(p, PersistentRelease(p, k));
    }
  }

  // ----- leasing a slot -----

  /** A listed slot is replaced by one that is still in the pool. */
  lemma ListedSlotHeld(p: Pool, s: nat, slot: Slot)
    requires Held(p, {}) && s in p.slots && s in p.table
    requires slot.state != Closing && slot.closeFailures == p.table[s].closeFailures && SlotSound(slot)
    ensures Held(p.(table := p.table[s := slot]), {})
  {
    var q := p.(table := p.table[s := slot]);
    ListedSlotOwned(p, s, slot);
    hide OpenOwned, ClosingOwned, TasksKnown;
  }

  lemma ListedSlotOwned(p: Pool, s: nat, slot: Slot)
    requires OpenOwned(p, {}) && ClosingOwned(p) && s in p.slots && s in p.table
    requires slot.state != Closing && slot.closeFailures == p.table[s].closeFailures
    ensures OpenOwned(p.(table := p.table[s := slot]), {}) && ClosingOwned(p.(table := p.table[s := slot]))
  {
    var q := p.(table := p.table[s := slot]);
    assert forall x :: IsClosing(q, x) <==> IsClosing(p, x);
  }

  lemma LiveAfterLease(reservations: map<nat, Reservation>, n: nat, r: Reservation)
    requires n !in reservations && !r.released
    ensures var more := reservations[n := r];
            && (forall s :: LiveOn(more, s) == if s == r.slot then LiveOn(reservations, s) + {n}
               else LiveOn(reservations, s))
            && LiveTransient(more) == (if r.kind == Transient then LiveTransient(reservations) + {n}
               else LiveTransient(reservations))
  {
    var more := reservations[n := r];
    forall s ensures LiveOn(more, s) == if s == r.slot then LiveOn(reservations, s) + {n} else LiveOn(reservations, s) {
    }
  }

  lemma LeasedSlotsCounted(p: Pool, s: nat, slot: Slot, kind: Kind)
    requires SlotsCounted(p.table, p.reservations, p.cfg.maxContexts) && s in p.table
    requires p.nextReservation !in p.reservations
    requires slot.activeContexts == p.table[s].activeContexts + 1 <= p.cfg.maxContexts
    ensures SlotsCounted(p.table[s := slot], p.reservations[p.nextReservation := Reservation(s, kind, false)],
                         p.cfg.maxContexts)
  {
    LiveAfterLease(p.reservations, p.nextReservation, Reservation(s, kind, false));
    assert p.nextReservation !in LiveOn(p.reservations, s);
    hide LiveOn;
  }

  lemma LeasedCounts(p: Pool, s: nat, slot: Slot, kind: Kind)
    requires Counted(p) && s in p.table && p.nextReservation !in p.reservations
    requires slot.activeContexts == p.table[s].activeContexts + 1 <= p.cfg.maxContexts
    ensures var more := p.reservations[p.nextReservation := Reservation(s, kind, false)];
            var table := p.table[s := slot];
            && SlotsCounted(table, more, p.cfg.maxContexts)
            && ReservationsKnown(more, table, p.nextReservation + 1)
            && TransientsCounted(if kind == Transient then p.transient + 1 else p.transient, more)
  {
    hide WaitersCounted, TicketsCounted, SlotsCounted;
    LeasedSlotsCounted(p, s, slot, kind);
    LiveAfterLease(p.reservations, p.nextReservation, Reservation(s, kind, false));
  }

  lemma LeasedTickets(p: Pool, id: nat, s: nat)
    requires Ticketed(p) && id in p.waiters && p.nextReservation !in p.reservations
    ensures var more := p.reservations[p.nextReservation := Reservation(s, p.waiters[id].kind, false)];
            && LeasesTicketed(more, p.tickets) && LeasesApart(more)
            && WaitersTicketed(p.waiters - {id}, p.tickets) && WaitersApart(p.waiters - {id}, more)
            && NumbersKnown(p.tickets, p.nextTicket, p.waiters - {id}, p.nextWaiter)
  {
    var kind := p.waiters[id].kind;
    if kind.Persistent? {
      assert forall r :: r in p.reservations ==> p.reservations[r].kind != kind;
      assert forall w :: w in p.waiters && w != id ==> p.waiters[w].kind != kind;
    }
  }

  /** The slot as `_reserve_slot_unlocked` leaves it. */
  function ReservedSlot(cfg: Config, slot: Slot, now: int): Slot {
    var used := slot.(activeContexts := slot.activeContexts + 1, uses := slot.uses + 1);
    if used.state == Ready && ShouldRecycle(cfg, used, now) then Retired(used, RecycleReason(cfg, used, now)) else used
  }

  lemma ReservedSlotEvolves(cfg: Config, slot: Slot, now: int)
    requires SlotSound(slot) && slot.state != Closing && !Hard(slot)
    ensures var b := ReservedSlot(cfg, slot, now);
            && SlotSound(b) && SlotEvolves(slot, b) && b.state != Closing && b.closeFailures == slot.closeFailures
            && b.activeContexts == slot.activeContexts + 1
            && (slot.state == Retiring ==> b.state == Retiring)
  {
  }

  lemma ReserveShape(p: Pool, s: nat, kind: Kind, now: int)
    requires s in p.table && p.table[s].state != Closing && p.table[s].activeContexts < p.cfg.maxContexts
    ensures Reserve(p, s, kind, now)
            == p.(table := p.table[s := ReservedSlot(p.cfg, p.table[s], now)],
                  transient := if kind == Transient then p.transient + 1 else p.transient,
                  reservations := p.reservations[p.nextReservation := Reservation(s, kind, false)],
                  nextReservation := p.nextReservation + 1)
  {
    hide ShouldRecycle, RecycleReason;
  }

  lemma FreshReservation(p: Pool)
    requires Leases(p)
    ensures p.nextReservation !in p.reservations
  {
    hide SlotsCounted, TransientsCounted, TicketsCounted, WaitersCounted, Ticketed;
  }

  /** What leasing or releasing one listed slot leaves alone. */
  lemma ListedSlotRest(p: Pool, q: Pool, s: nat)
    requires q == p.(table := q.table, transient := q.transient, reservations := q.reservations,
                     nextReservation := q.nextReservation, waiters := q.waiters)
    requires s in p.table && s in p.slots && s in q.table && q.table == p.table[s := q.table[s]]
    requires p.table[s].state != Closing && q.table[s].state != Closing && SlotEvolves(p.table[s], q.table[s])
    requires forall r :: r in p.reservations ==> r in q.reservations
    requires forall r :: r in p.reservations ==>
               q.reservations[r].slot == p.reservations[r].slot && q.reservations[r].kind == p.reservations[r].kind
               && (p.reservations[r].released ==> q.reservations[r].released)
    requires p.closed ==> q.reservations.Keys == p.reservations.Keys
    requires forall r :: r in q.reservations && r !in p.reservations && q.reservations[r].slot in p.table ==>
               InService(p.table[q.reservations[r].slot])
    requires Attended(p)
    ensures StartupsKept(p, q, {}) && Attended(q) && Evolves(p, q)
  {
    hide Attended;
    assert forall x :: IsClosing(q, x) <==> IsClosing(p, x);
    assert Attended(q) by { SameAttended(p, q); }
  }

  lemma SameAttended(p: Pool, q: Pool)
    requires q.createTasks == p.createTasks && q.launches == p.launches && q.startups == p.startups
    ensures Attended(q) == Attended(p)
  {
  }

  /** Leasing slot `s` to the waiting caller `id`. */
  lemma LeaseInv(p: Pool, id: nat, s: nat, now: int)
    requires Inv(p) && !p.closed && id in p.waiters && !p.waiters[id].parked
    requires s in p.slots && s in p.table && p.table[s].state != Closing && !Hard(p.table[s])
    requires p.table[s].activeContexts < p.cfg.maxContexts
    ensures var q := Reserve(p, s, p.waiters[id].kind, now).(waiters := p.waiters - {id});
            Inv(q) && Evolves(p, q)
  {
    hide Inv, Held, Leases, StartupsSound, Attended, Draining, Evolves, StartupsKept, OpenOwned, ClosingOwned,
      LaunchesKnown, TasksKnown, SlotsKnown, Reserve, ReservedSlot, SlotEvolves, SlotSound, Hard, Lifecycle, Distinct;
    var kind := p.waiters[id].kind;
    var slot := ReservedSlot(p.cfg, p.table[s], now);
    var m := p.(table := p.table[s := slot]);
    var q := Reserve(p, s, kind, now).(waiters := p.waiters - {id});
    InvParts(p);
    HeldBasics(p, {});
    SoundSlot(p, s);
    ReservedSlotEvolves(p.cfg, p.table[s], now);
    ReserveShape(p, s, kind, now);
    ListedSlotHeld(p, s, slot);
    HeldSame(m, q, {});
    LeasedLeases(p, id, s, slot, q);
    FreshReservation(p);
    ListedSlotRest(p, q, s);
    StartupsCarryAll(p, q);
    OpenDrains(q);
    InvFrom(q);
  }

  lemma SoundSlot(p: Pool, s: nat)
    requires Lifecycle(p.table) && s in p.table
    ensures SlotSound(p.table[s])
  {
  }

  lemma OpenDrains(p: Pool)
    requires !p.closed
    ensures Draining(p)
  {
  }

  lemma LeasedLeases(p: Pool, id: nat, s: nat, slot: Slot, q: Pool)
    requires Leases(p) && id in p.waiters && !p.waiters[id].parked && s in p.table
    requires slot.activeContexts == p.table[s].activeContexts + 1 <= p.cfg.maxContexts
    requires q == p.(table := p.table[s := slot],
                     transient := if p.waiters[id].kind == Transient then p.transient + 1 else p.transient,
                     reservations := p.reservations[p.nextReservation := Reservation(s, p.waiters[id].kind, false)],
                     nextReservation := p.nextReservation + 1,
                     waiters := p.waiters - {id})
    ensures Leases(q)
  {
    hide SlotsCounted, ReservationsKnown, TransientsCounted, TicketsCounted, WaitersCounted, LeasesTicketed,
      LeasesApart, NumbersKnown, WaitersTicketed, WaitersApart;
    FreshReservation(p);
    LeasedCounts(p, s, slot, p.waiters[id].kind);
    LeasedTickets(p, id, s);
    UnparkedGone(p, id);
  }

  lemma UnparkedGone(p: Pool, id: nat)
    requires WaitersCounted(p.waiting, p.waiters) && id in p.waiters && !p.waiters[id].parked
    ensures WaitersCounted(p.waiting, p.waiters - {id})
  {
    assert ParkedWaiters(p.waiters - {id}) == ParkedWaiters(p.waiters);
  }

  // ----- releasing a slot -----

  lemma LiveAfterRelease(reservations: map<nat, Reservation>, r: nat)
    requires r in reservations && !reservations[r].released
    ensures var less := reservations[r := reservations[r].(released := true)];
            && (forall s :: LiveOn(less, s) == LiveOn(reservations, s) - {r})
            && LiveTransient(less) == LiveTransient(reservations) - {r}
            && (forall s :: r in LiveOn(reservations, s) <==> s == reservations[r].slot)
            && (r in LiveTransient(reservations) <==> reservations[r].kind == Transient)
  {
    var less := reservations[r := reservations[r].(released := true)];
    forall s ensures LiveOn(less, s) == LiveOn(reservations, s) - {r} {
    }
  }

  /** A live reservation is on a listed, busy slot: no release can find a counter at zero. */
  lemma LiveIsListed(p: Pool, r: nat)
    requires Inv(p) && r in p.reservations && !p.reservations[r].released
    ensures var s := p.reservations[r].slot;
            && s in p.table && s in p.slots && p.table[s].activeContexts > 0 && p.table[s].state != Closing
            && (p.reservations[r].kind == Transient ==> p.transient > 0)
  {
    InvParts(p);
    hide Inv, Held, StartupsSound, Attended, Draining, Ticketed, ClosingOwned, LaunchesKnown, TasksKnown, SlotsKnown;
    LiveAfterRelease(p.reservations, r);
    var s := p.reservations[r].slot;
    assert r in LiveOn(p.reservations, s);
    assert !IsClosing(p, s);
  }

  lemma ReleasedSlotsCounted(p: Pool, r: nat, s: nat, slot: Slot)
    requires SlotsCounted(p.table, p.reservations, p.cfg.maxContexts) && s in p.table
    requires r in p.reservations && !p.reservations[r].released && s == p.reservations[r].slot
    requires slot.activeContexts == p.table[s].activeContexts - 1
    ensures SlotsCounted(p.table[s := slot], p.reservations[r := p.reservations[r].(released := true)],
            p.cfg.maxContexts)
  {
    hide LiveOn;
    LiveAfterRelease(p.reservations, r);
    var less := p.reservations[r := p.reservations[r].(released := true)];
    assert |LiveOn(p.reservations, s) - {r}| == |LiveOn(p.reservations, s)| - 1;
    forall x | x in p.table && x != s ensures LiveOn(less, x) == LiveOn(p.reservations, x) {
      assert LiveOn(less, x) == LiveOn(p.reservations, x) - {r};
    }
  }

  lemma ReleasedCounts(p: Pool, r: nat, s: nat, slot: Slot)
    requires Counted(p) && r in p.reservations && !p.reservations[r].released && s == p.reservations[r].slot
             && s in p.table
    requires slot.activeContexts == p.table[s].activeContexts - 1
    ensures var less := p.reservations[r := p.reservations[r].(released := true)];
            var table := p.table[s := slot];
            && SlotsCounted(table, less, p.cfg.maxContexts)
            && ReservationsKnown(less, table, p.nextReservation)
            && TransientsCounted(if p.reservations[r].kind == Transient then p.transient - 1 else p.transient, less)
  {
    hide WaitersCounted, TicketsCounted, SlotsCounted;
    ReleasedSlotsCounted(p, r, s, slot);
    LiveAfterRelease(p.reservations, r);
    if p.reservations[r].kind != Transient {
      assert LiveTransient(p.reservations) - {r} == LiveTransient(p.reservations);
    }
  }

  lemma ReleasedTickets(p: Pool, r: nat)
    requires Ticketed(p) && r in p.reservations
    ensures var less := p.reservations[r := p.reservations[r].(released := true)];
            LeasesTicketed(less, p.tickets) && LeasesApart(less) && WaitersApart(p.waiters, less)
  {
    hide WaitersTicketed, NumbersKnown;
    var less := p.reservations[r := p.reservations[r].(released := true)];
    assert forall x :: x in less <==> x in p.reservations;
    assert forall x :: x in less ==> less[x].kind == p.reservations[x].kind;
  }

  /** The pool once the reservation is given back and before the slot may be closed. */
  function GivenBack(p: Pool, r: nat, slot: Slot): Pool
    requires r in p.reservations
  {
    p.(table := p.table[p.reservations[r].slot := slot],
       transient := if p.reservations[r].kind == Transient then p.transient - 1 else p.transient,
       reservations := p.reservations[r := p.reservations[r].(released := true)])
  }

  /** The slot as `_release_slot` leaves it before it may be closed. */
  function ReleasedSlot(cfg: Config, slot: Slot, discard: bool, reason: Reason, now: int): Slot {
    var less := slot.(activeContexts := slot.activeContexts - 1);
    if discard then Retired(less, reason)
    else if ShouldRecycle(cfg, less, now) then Retired(less, RecycleReason(cfg, less, now)) else less
  }

  lemma ReleasedSlotEvolves(cfg: Config, slot: Slot, discard: bool, reason: Reason, now: int)
    requires SlotSound(slot) && slot.state != Closing
    ensures var b := ReleasedSlot(cfg, slot, discard, reason, now);
            && SlotSound(b) && SlotEvolves(slot, b) && b.state != Closing && b.closeFailures == slot.closeFailures
            && b.activeContexts == slot.activeContexts - 1
            && (slot.state == Retiring ==> b.state == Retiring)
  {
  }

  lemma ReleaseShape(p: Pool, r: nat, discard: bool, reason: Reason, now: int)
    requires r in p.reservations && !p.reservations[r].released && p.reservations[r].slot in p.table
    requires p.table[p.reservations[r].slot].activeContexts > 0
    requires p.reservations[r].kind == Transient ==> p.transient > 0
    ensures var s := p.reservations[r].slot;
            var left := ReleasedSlot(p.cfg, p.table[s], discard, reason, now);
            ReleaseSlot(p, r, discard, reason, now)
            == if left.state == Retiring && left.activeContexts == 0
               then ScheduleClose(GivenBack(p, r, left), s, ReasonOr(left.retireReason)) else GivenBack(p, r, left)
  {
    hide ShouldRecycle, RecycleReason, ScheduleClose, Retired;
  }

  lemma GivenBackLeases(p: Pool, r: nat, slot: Slot)
    requires Leases(p) && r in p.reservations && !p.reservations[r].released && p.reservations[r].slot in p.table
    requires slot.activeContexts == p.table[p.reservations[r].slot].activeContexts - 1
    ensures Leases(GivenBack(p, r, slot))
  {
    hide SlotsCounted, ReservationsKnown, TransientsCounted, TicketsCounted, WaitersCounted, LeasesTicketed,
      LeasesApart, NumbersKnown, WaitersTicketed, WaitersApart;
    ReleasedCounts(p, r, p.reservations[r].slot, slot);
    ReleasedTickets(p, r);
  }

  /** The reservation is given back; who holds the browsers is unchanged. */
  lemma GivenBackFrames(p: Pool, r: nat, slot: Slot)
    requires Inv(p) && r in p.reservations && !p.reservations[r].released
    requires p.reservations[r].slot in p.table && SlotEvolves(p.table[p.reservations[r].slot], slot)
    requires slot.state != Closing && SlotSound(slot)
    requires slot.closeFailures == p.table[p.reservations[r].slot].closeFailures
    requires slot.activeContexts == p.table[p.reservations[r].slot].activeContexts - 1
    ensures var m := GivenBack(p, r, slot);
            Held(m, {}) && Leases(m) && StartupsKept(p, m, {}) && Attended(m) && Evolves(p, m)
  {
    hide Inv, Held, Leases, StartupsSound, Attended, Draining, Evolves, StartupsKept, OpenOwned, ClosingOwned,
      LaunchesKnown, TasksKnown, SlotsKnown, SlotEvolves, SlotSound;
    var s := p.reservations[r].slot;
    var m := GivenBack(p, r, slot);
    InvParts(p);
    LiveIsListed(p, r);
    ListedSlotHeld(p, s, slot);
    HeldSame(p.(table := p.table[s := slot]), m, {});
    GivenBackLeases(p, r, slot);
    ListedSlotRest(p, m, s);
  }

  /** A release that leaves the slot listed. */
  lemma KeptDrains(p: Pool, m: Pool, s: nat)
    requires Draining(p) && m.closed == p.closed && m.createTasks == p.createTasks && m.slots == p.slots
    requires s in p.table && s in m.table && m.table == p.table[s := m.table[s]]
    requires p.table[s].state == Retiring ==> m.table[s].state == Retiring
    requires !(m.table[s].state == Retiring && m.table[s].activeContexts == 0) && m.table[s].activeContexts >= 0
    ensures Draining(m)
  {
  }

  /** A release that closes the slot. */
  lemma ClosedDrains(p: Pool, m: Pool, q: Pool, s: nat)
    requires Draining(p) && m.closed == p.closed && m.createTasks == p.createTasks && m.slots == p.slots
    requires s in p.table && s in m.table && m.table == p.table[s := m.table[s]]
    requires Settles(m, q) && IsClosing(q, s) && OpenOwned(q, {})
    requires forall x :: x in m.table && x != s ==> x in q.table && q.table[x] == m.table[x]
    ensures Draining(q)
  {
    if p.closed {
      forall x | x in q.slots ensures x in q.table && q.table[x].state == Retiring && q.table[x].activeContexts > 0 {
        assert x in m.slots && !IsClosing(q, x);
      }
    }
  }

  lemma ReleaseInv(p: Pool, r: nat, discard: bool, reason: Reason, now: int)
    requires Inv(p)
    ensures Inv(ReleaseSlot(p, r, discard, reason, now)) && Evolves(p, ReleaseSlot(p, r, discard, reason, now))
  {
    hide Inv, Held, Leases, StartupsSound, Attended, Draining, Evolves, StartupsKept, OpenOwned, ClosingOwned,
      LaunchesKnown, TasksKnown, SlotsKnown, SlotEvolves, SlotSound, Lifecycle, ReleasedSlot, ReleaseSlot,
      ScheduleClose, Settles, Distinct, LeasesKept;
    if r !in p.reservations || p.reservations[r].released {
      NothingToRelease(p, r, discard, reason, now);
      EvolvesSelf(p);
    } else {
      var s := p.reservations[r].slot;
      InvParts(p);
      LiveIsListed(p, r);
      HeldBasics(p, {});
      SoundSlot(p, s);
      var left := ReleasedSlot(p.cfg, p.table[s], discard, reason, now);
      ReleasedSlotEvolves(p.cfg, p.table[s], discard, reason, now);
      var m := GivenBack(p, r, left);
      GivenBackFrames(p, r, left);
      ReleaseShape(p, r, discard, reason, now);
      if left.state == Retiring && left.activeContexts == 0 {
        GivenBackCloses(p, r, left);
      } else {
        KeptDrains(p, m, s);
        StartupsCarryAll(p, m);
        InvFrom(m);
      }
    }
  }

  lemma NothingToRelease(p: Pool, r: nat, discard: bool, reason: Reason, now: int)
    requires r !in p.reservations || p.reservations[r].released
    ensures ReleaseSlot(p, r, discard, reason, now) == p
  {
  }

  lemma GivenBackCloses(p: Pool, r: nat, left: Slot)
    requires Inv(p) && r in p.reservations && !p.reservations[r].released && p.reservations[r].slot in p.table
    requires left.state == Retiring && left.activeContexts == 0
    requires var m := GivenBack(p, r, left);
             Held(m, {}) && Leases(m) && StartupsKept(p, m, {}) && Attended(m) && Evolves(p, m)
    ensures var q := ScheduleClose(GivenBack(p, r, left), p.reservations[r].slot, ReasonOr(left.retireReason));
            Inv(q) && Evolves(p, q)
  {
    hide Inv, Held, Leases, StartupsSound, Attended, Draining, Evolves, StartupsKept, OpenOwned, ClosingOwned,
      LaunchesKnown, TasksKnown, SlotsKnown, Lifecycle, ScheduleClose, Settles, Distinct, LeasesKept;
    var s := p.reservations[r].slot;
    var m := GivenBack(p, r, left);
    var reason := ReasonOr(left.retireReason);
    var q := ScheduleClose(m, s, reason);
    InvParts(p);
    LiveIsListed(p, r);
    HeldBasics(m, {});
    assert Free(m, s);
    var none: set<nat> := {};
    assert none - {s} == none;
    ScheduleCloseHeld(m, s, reason, none);
    ScheduleCloseSettles(m, s, reason);
    SettlesEvolves(m, q);
    EvolvesTransitive(p, m, q);
    SettlesKeepsLeases(m, q);
    LeasesCarry(m, q);
    SettlesKeepsStartups(m, q);
    StartupsKeptTransitive(p, m, q);
    StartupsCarryAll(p, q);
    SettlesAttended(m, q);
    HeldOpen(q, {});
    SameKeys(m, q);
    ClosedDrains(p, m, q, s);
    InvFrom(q);
  }

  // ----- one turn of the acquire loop -----

  lemma LaunchForWaiterInv(p: Pool, w: Waiter)
    requires Inv(p) && !p.closed
    ensures var q := if MayLaunch(p, w) then StartCreate(p, None) else p;
            Inv(q) && Evolves(p, q) && q.waiters == p.waiters && q.waiting == p.waiting && q.closed == p.closed
  {
    hide Inv, Evolves, Physical, Usable;
    EvolvesSelf(p);
    if MayLaunch(p, w) {
      StartCreateInv(p);
    }
  }

  lemma AcquireOrParkInv(p: Pool, id: nat, w: Waiter, later: int)
    requires Inv(p) && !p.closed && id in p.waiters && p.waiters[id] == w && !w.parked
    ensures Inv(AcquireOrPark(p, id, w, later).0) && Evolves(p, AcquireOrPark(p, id, w, later).0)
  {
    hide Inv, Evolves, MayLaunch, StartCreate;
    if p.failureGeneration != w.generation && p.lastFailure {
      DropWaiterInv(p, id);
    } else {
      LaunchForWaiterInv(p, w);
      var launch := MayLaunch(p, w);
      var q := if launch then StartCreate(p, None) else p;
      if later >= w.deadline {
        DropWaiterInv(q, id);
        EvolvesTransitive(p, q, q.(waiters := q.waiters - {id}));
      } else {
        var parked := w.(launched := w.launched || launch, parked := true);
        ParkInv(q, id, parked);
        EvolvesTransitive(p, q, q.(waiters := q.waiters[id := parked], waiting := ParkedCount(q, id, parked)));
      }
    }
  }

  lemma AcquireTurnInv(p: Pool, id: nat, now: int, check: int, later: int)
    requires Inv(p) && id in p.waiters && !p.waiters[id].parked
    ensures Inv(AcquireTurn(p, id, now, check, later).0) && Evolves(p, AcquireTurn(p, id, now, check, later).0)
  {
    hide Inv, Evolves, RefreshRecycling, Reserve, AcquireOrPark, ShouldRecycle;
    var w := p.waiters[id];
    if p.closed || now >= w.deadline {
      DropWaiterInv(p, id);
    } else {
      var q := RefreshRecycling(p, now);
      RefreshRecyclingInv(p, now);
      RefreshKeepsWaiters(p, now);
      var healthy := FirstHealthy(q, q.slots, check);
      var soft := FirstSoft(q, q.slots);
      if healthy.Some? {
        LeaseInv(q, id, healthy.value, check);
        EvolvesTransitive(p, q, Reserve(q, healthy.value, w.kind, check).(waiters := q.waiters - {id}));
      } else if soft.Some? {
        LeaseInv(q, id, soft.value, check);
        EvolvesTransitive(p, q, Reserve(q, soft.value, w.kind, check).(waiters := q.waiters - {id}));
      } else {
        AcquireOrParkInv(q, id, w, later);
        EvolvesTransitive(p, q, AcquireOrPark(q, id, w, later).0);
      }
    }
  }

  lemma RefreshKeepsWaiters(p: Pool, now: int)
    requires Inv(p)
    ensures RefreshRecycling(p, now).waiters == p.waiters && RefreshRecycling(p, now).closed == p.closed
    ensures RefreshRecycling(p, now).cfg == p.cfg
  {
    hide Inv, RefreshRecycling, Held;
    InvParts(p);
    RefreshRecyclingHeld(p, now);
  }
}
