/** What a critical section must leave alone so that the rest of the pool's invariant carries over,
    and the relation between the states before and after any section. */
module PoolFrames {
  import opened Basics
  import opened PoolState
  import opened PoolInvariant
  import opened PoolSettling

  /** Still to be leased: in service, or retired softly. */
  predicate InService(slot: Slot) {
    slot.state != Closing && !Hard(slot)
  }

  /** How the pool may change over one section, and so over any run. */
  ghost predicate Evolves(p: Pool, q: Pool) {
    && q.cfg == p.cfg
    && (forall s :: s in p.table ==> s in q.table && SlotEvolves(p.table[s], q.table[s]))
    && (forall s :: s in p.accepted ==> s in q.accepted)
    && (forall t :: t in p.launches ==>
          t in q.launches && q.launches[t].startup == p.launches[t].startup
          && (p.launches[t].outcome != Running ==> q.launches[t] == p.launches[t]))
    && (forall r :: r in p.reservations ==>
          r in q.reservations && q.reservations[r].slot == p.reservations[r].slot
          && q.reservations[r].kind == p.reservations[r].kind
          && (p.reservations[r].released ==> q.reservations[r].released))
    && (forall r :: r in q.reservations && r !in p.reservations && q.reservations[r].slot in p.table ==>
          InService(p.table[q.reservations[r].slot]))
    && (forall t :: t in q.createTasks ==> t in p.createTasks || t !in p.launches)
    && (forall t :: t in q.watchers ==> t in p.watchers || t in p.createTasks || t !in p.launches)
    && (p.closed ==>
          q.closed && q.launches.Keys == p.launches.Keys && q.reservations.Keys == p.reservations.Keys
          && q.tickets.Keys == p.tickets.Keys)
  }

  lemma EvolvesTransitive(p: Pool, q: Pool, r: Pool)
    requires Evolves(p, q) && Evolves(q, r)
    ensures Evolves(p, r)
  {
    forall s | s in p.table ensures s in r.table && SlotEvolves(p.table[s], r.table[s]) {
      assert s in q.table;
    }
    forall t | t in p.launches
      ensures t in r.launches && r.launches[t].startup == p.launches[t].startup
      ensures p.launches[t].outcome != Running ==> r.launches[t] == p.launches[t]
    {
      assert t in q.launches;
    }
    forall x | x in r.reservations && x !in p.reservations && r.reservations[x].slot in p.table
      ensures InService(p.table[r.reservations[x].slot])
    {
      var s := r.reservations[x].slot;
      assert s in q.table && SlotEvolves(p.table[s], q.table[s]);
    }
    forall x | x in p.reservations
      ensures x in r.reservations && r.reservations[x].slot == p.reservations[x].slot
      ensures r.reservations[x].kind == p.reservations[x].kind
      ensures p.reservations[x].released ==> r.reservations[x].released
    {
      assert x in q.reservations;
    }
  }

  lemma EvolvesSelf(p: Pool)
    ensures Evolves(p, p)
  {
  }

  lemma SettlesEvolves(p: Pool, q: Pool)
    requires Settles(p, q)
    ensures Evolves(p, q)
  {
    forall s | s in p.table ensures s in q.table && SlotEvolves(p.table[s], q.table[s]) {
      assert SlotSettles(p.table[s], q.table[s]);
    }
  }

  // ----- leases -----

  /** No lease, ticket or waiter changes, and no slot's number of contexts. */
  ghost predicate LeasesKept(p: Pool, q: Pool) {
    && q.cfg == p.cfg && q.raised == p.raised
    && q.transient == p.transient && q.persistent == p.persistent && q.waiting == p.waiting
    && q.reservations == p.reservations && q.tickets == p.tickets && q.waiters == p.waiters
    && q.nextReservation == p.nextReservation && q.nextTicket == p.nextTicket && q.nextWaiter == p.nextWaiter
    && (forall s :: s in p.table ==> s in q.table && q.table[s].activeContexts == p.table[s].activeContexts)
    && (forall s :: s in q.table && s !in p.table ==> q.table[s].activeContexts == 0)
  }

  lemma LeasesCarry(p: Pool, q: Pool)
    requires Leases(p) && LeasesKept(p, q)
    ensures Leases(q)
  {
    hide Ticketed;
    TicketedCarries(p, q);
    forall s | s in q.table && s !in p.table ensures LiveOn(q.reservations, s) == {} {
    }
  }

  lemma TicketedCarries(p: Pool, q: Pool)
    requires q.reservations == p.reservations && q.tickets == p.tickets && q.waiters == p.waiters
    requires q.nextTicket == p.nextTicket && q.nextWaiter == p.nextWaiter
    ensures Ticketed(q) == Ticketed(p)
  {
  }

  lemma SettlesKeepsLeases(p: Pool, q: Pool)
    requires Settles(p, q)
    ensures LeasesKept(p, q)
  {
    forall s | s in p.table ensures s in q.table && q.table[s].activeContexts == p.table[s].activeContexts {
      assert SlotSettles(p.table[s], q.table[s]);
    }
  }

  // ----- startups -----

  /** The launches of the startups outside `except` are where they were, or have been shut down. */
  ghost predicate StartupsKept(p: Pool, q: Pool, except: set<nat>) {
    && (p.closed ==> q.closed) && p.nextStartup <= q.nextStartup
    && (forall st :: st in p.startups && st !in except ==> st in q.startups && q.startups[st] == p.startups[st])
    && (forall st :: st in q.startups && st !in except ==> st in p.startups)
    && (forall t :: t in p.launches && OutsideOf(p, t, except) ==>
          && t in q.launches && q.launches[t].startup == p.launches[t].startup
          && (t in p.table ==> t in q.table)
          && (t in q.slots ==> t in p.slots)
          && (t in p.createTasks ==> t in q.createTasks || q.closed)
          && (t in p.slots || IsClosing(p, t) ==> t in q.slots || IsClosing(q, t)))
  }

  predicate OutsideOf(p: Pool, t: nat, except: set<nat>) {
    t in p.launches && p.launches[t].startup.Some? && p.launches[t].startup.value !in except
  }

  lemma StartupsCarry(p: Pool, q: Pool, except: set<nat>)
    requires StartupsSound(p) && StartupsKept(p, q, except)
    ensures forall st :: st in q.startups && st !in except ==> StartupSound(q, st)
  {
    hide StartupSound;
    forall st | st in q.startups && st !in except ensures StartupSound(q, st) {
      StartupCarries(p, q, st, except);
    }
  }

  lemma StartupCarries(p: Pool, q: Pool, st: nat, except: set<nat>)
    requires StartupSound(p, st) && StartupsKept(p, q, except) && st !in except
    ensures StartupSound(q, st)
  {
    forall t | t in p.startups[st].tasks ensures OutsideOf(p, t, except) {
    }
  }

  lemma SettlesKeepsStartups(p: Pool, q: Pool)
    requires Settles(p, q)
    ensures StartupsKept(p, q, {})
  {
    forall t | IsClosing(p, t) ensures IsClosing(q, t) {
      assert SlotSettles(p.table[t], q.table[t]);
    }
  }

  lemma SettlesAttended(p: Pool, q: Pool)
    requires Settles(p, q)
    ensures Attended(q) == Attended(p)
  {
  }

  lemma SettlesDraining(p: Pool, q: Pool)
    requires Settles(p, q) && Draining(p) && OpenOwned(q, {})
    ensures Draining(q)
  {
    if p.closed {
      forall s | s in q.slots
        ensures s in q.table && q.table[s].state == Retiring && q.table[s].activeContexts > 0
      {
        assert s in p.slots && SlotSettles(p.table[s], q.table[s]) && !IsClosing(q, s);
      }
    }
  }

  /** A section that only settles slots keeps the whole invariant. */
  lemma SettlesInv(p: Pool, q: Pool)
    requires Inv(p) && Settles(p, q) && Held(q, {})
    ensures Inv(q) && Evolves(p, q)
  {
    hide Settles, Leases, StartupsSound, Attended, Draining, Held, LeasesKept, StartupsKept, Evolves;
    SettlesEvolves(p, q);
    SettlesKeepsLeases(p, q);
    LeasesCarry(p, q);
    SettlesKeepsStartups(p, q);
    StartupsCarryAll(p, q);
    SettlesAttended(p, q);
    HeldOpen(q, {});
    SettlesDraining(p, q);
  }

  lemma StartupsCarryAll(p: Pool, q: Pool)
    requires StartupsSound(p) && StartupsKept(p, q, {})
    ensures StartupsSound(q)
  {
    StartupsCarry(p, q, {});
  }

  lemma HeldOpen(p: Pool, hand: set<nat>)
    requires Held(p, hand)
    ensures OpenOwned(p, hand)
  {
  }

  /** Only the task sets, the slot list, the startups and the flags may differ. */
  ghost predicate Plain(p: Pool, q: Pool) {
    && q.cfg == p.cfg && q.table == p.table && q.launches == p.launches && q.accepted == p.accepted
    && q.reservations == p.reservations && q.tickets == p.tickets && q.waiters == p.waiters
    && q.transient == p.transient && q.persistent == p.persistent && q.waiting == p.waiting
    && q.nextReservation == p.nextReservation && q.nextTicket == p.nextTicket && q.nextWaiter == p.nextWaiter
    && q.raised == p.raised && (p.closed ==> q.closed) && p.nextStartup <= q.nextStartup
    && q.createTasks <= p.createTasks && q.watchers <= p.watchers + p.createTasks
  }

  lemma PlainFrames(p: Pool, q: Pool)
    requires Plain(p, q)
    ensures LeasesKept(p, q) && Evolves(p, q)
    ensures forall x :: IsClosing(q, x) <==> IsClosing(p, x)
  {
  }
}
