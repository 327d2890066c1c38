/** The invariant of the pool, stated for a state in the middle of a critical section: `hand` is the
    set of browsers held only by local variables of the section that is running. */
module PoolInvariant {
  import opened Basics
  import opened PoolState

  predicate IsClosing(p: Pool, s: nat) {
    s in p.table && p.table[s].state == Closing
  }

  /** A browser exists for each launch that returned one; launches are numbered in order. */
  ghost predicate LaunchesKnown(table: map<nat, Slot>, launches: map<nat, Launch>, nextLaunch: nat, nextStartup: nat) {
    && (forall t :: t in table <==> t in launches && launches[t].outcome == Returned)
    && (forall t :: t in launches ==> t < nextLaunch)
    && (forall t :: t in launches && launches[t].startup.Some? ==> launches[t].startup.value < nextStartup)
  }

  /** Launches in flight and watched are known, and a launch still running is one or the other. */
  ghost predicate TasksKnown(createTasks: set<nat>, watchers: set<nat>, launches: map<nat, Launch>) {
    && (forall t :: t in createTasks || t in watchers ==> t in launches)
    && (forall t :: t in launches && launches[t].outcome == Running ==> t in createTasks || t in watchers)
  }

  ghost predicate SlotsKnown(slots: seq<nat>, table: map<nat, Slot>) {
    Distinct(slots) && forall s :: s in slots ==> s in table
  }

  /** A browser is closing exactly while a close task, the failed closes or the accepted closes hold it,
      and only one of the three does. */
  ghost predicate ClosingOwned(p: Pool) {
    && (forall s :: IsClosing(p, s) <==> s in p.closeTasks || s in p.failedCloses || s in p.accepted)
    && (forall s :: s in p.closeTasks ==> s !in p.failedCloses && s !in p.accepted)
    && (forall s :: s in p.failedCloses ==> s !in p.accepted)
    && (forall s :: s in p.closeTasks ==> p.closeTasks[s] == p.table[s].closeFailures)
  }

  /** Every browser that is not closing is held by a launch, a watcher, the slot list or the hand. */
  ghost predicate OpenOwned(p: Pool, hand: set<nat>) {
    && (forall s :: s in p.table && !IsClosing(p, s) ==>
          s in p.slots || s in p.createTasks || s in p.watchers || s in hand)
    && (forall s :: s in p.slots ==> !IsClosing(p, s) && s !in p.createTasks && s !in p.watchers && s !in hand)
    && (forall s :: s in p.createTasks ==> !IsClosing(p, s) && s !in p.watchers && s !in hand)
    && (forall s :: s in hand ==> s in p.table && !IsClosing(p, s) && s !in p.watchers)
    && (forall s :: s in p.watchers && !p.closed ==> !IsClosing(p, s))
    && (forall s :: s in p.table && s !in p.slots ==> p.table[s].activeContexts == 0)
  }

  predicate SlotSound(slot: Slot) {
    && (slot.state == Ready <==> !slot.recycleRecorded)
    && (slot.state == Ready <==> slot.retireReason == None)
    && slot.recycles == (if slot.recycleRecorded then 1 else 0)
  }

  ghost predicate Lifecycle(table: map<nat, Slot>) {
    forall s :: s in table ==> SlotSound(table[s])
  }

  ghost predicate Bounded(p: Pool, hand: set<nat>) {
    p.closed || Physical(p) + |hand| <= p.cfg.Ceiling()
  }

  // ----- accounting -----

  function LiveOn(reservations: map<nat, Reservation>, s: nat): set<nat> {
    set r | r in reservations && !reservations[r].released && reservations[r].slot == s
  }

  function LiveTransient(reservations: map<nat, Reservation>): set<nat> {
    set r | r in reservations && !reservations[r].released && reservations[r].kind == Transient
  }

  function LivePersistent(reservations: map<nat, Reservation>): set<nat> {
    set r | r in reservations && !reservations[r].released && reservations[r].kind.Persistent?
  }

  function LiveTickets(tickets: map<nat, Ticket>): set<nat> {
    set k | k in tickets && !tickets[k].released
  }

  function ParkedWaiters(waiters: map<nat, Waiter>): set<nat> {
    set w | w in waiters && waiters[w].parked
  }

  /** A slot's context count is the number of unreleased reservations on it. */
  ghost predicate SlotsCounted(table: map<nat, Slot>, reservations: map<nat, Reservation>, maxContexts: nat) {
    forall s :: s in table ==>
      table[s].activeContexts == |LiveOn(reservations, s)| && table[s].activeContexts <= maxContexts
  }

  ghost predicate ReservationsKnown(reservations: map<nat, Reservation>, table: map<nat, Slot>, nextReservation: nat) {
    forall r :: r in reservations ==> r < nextReservation && reservations[r].slot in table
  }

  ghost predicate TransientsCounted(transient: int, reservations: map<nat, Reservation>) {
    transient == |LiveTransient(reservations)|
  }

  ghost predicate TicketsCounted(persistent: int, tickets: map<nat, Ticket>, cap: nat) {
    persistent == |LiveTickets(tickets)| <= cap
  }

  ghost predicate WaitersCounted(waiting: int, waiters: map<nat, Waiter>) {
    waiting == |ParkedWaiters(waiters)|
  }

  ghost predicate Counted(p: Pool) {
    && SlotsCounted(p.table, p.reservations, p.cfg.maxContexts)
    && ReservationsKnown(p.reservations, p.table, p.nextReservation)
    && TransientsCounted(p.transient, p.reservations)
    && TicketsCounted(p.persistent, p.tickets, p.cfg.MaxPersistent())
    && WaitersCounted(p.waiting, p.waiters)
  }

  predicate NumbersKnown(tickets: map<nat, Ticket>, nextTicket: nat, waiters: map<nat, Waiter>, nextWaiter: nat) {
    (forall k :: k in tickets ==> k < nextTicket) && (forall w :: w in waiters ==> w < nextWaiter)
  }

  /** A persistent lease has a ticket, and the ticket outlives it. */
  ghost predicate LeasesTicketed(reservations: map<nat, Reservation>, tickets: map<nat, Ticket>) {
    forall r :: r in reservations && reservations[r].kind.Persistent? ==>
      var k := reservations[r].kind.ticket;
      k in tickets && tickets[k].used && (!reservations[r].released ==> !tickets[k].released)
  }

  /** A ticket leases one slot in its life. */
  ghost predicate LeasesApart(reservations: map<nat, Reservation>) {
    forall r, r' {:trigger reservations[r], reservations[r']} ::
      (r in reservations && r' in reservations && reservations[r].kind.Persistent?
       && reservations[r].kind == reservations[r'].kind) ==> r == r'
  }

  ghost predicate WaitersTicketed(waiters: map<nat, Waiter>, tickets: map<nat, Ticket>) {
    forall w :: w in waiters && waiters[w].kind.Persistent? ==>
      var k := waiters[w].kind.ticket;
      k in tickets && tickets[k].used && !tickets[k].released
  }

  /** A ticket still waiting has leased nothing, and waits once. */
  ghost predicate WaitersApart(waiters: map<nat, Waiter>, reservations: map<nat, Reservation>) {
    && (forall w, r :: w in waiters && r in reservations && waiters[w].kind.Persistent? ==>
          waiters[w].kind != reservations[r].kind)
    && (forall w, w' {:trigger waiters[w], waiters[w']} ::
          (w in waiters && w' in waiters && waiters[w].kind.Persistent?
           && waiters[w].kind == waiters[w'].kind) ==> w == w')
  }

  ghost predicate Ticketed(p: Pool) {
    && NumbersKnown(p.tickets, p.nextTicket, p.waiters, p.nextWaiter)
    && LeasesTicketed(p.reservations, p.tickets)
    && LeasesApart(p.reservations)
    && WaitersTicketed(p.waiters, p.tickets)
    && WaitersApart(p.waiters, p.reservations)
  }

  // ----- startups -----

  ghost predicate StartupSound(p: Pool, st: nat) {
    st in p.startups && st < p.nextStartup &&
    var s := p.startups[st];
    && Distinct(s.tasks)
    && (forall t :: t in s.tasks ==> t in p.launches && p.launches[t].startup == Some(st))
    && (s.phase == Waiting || s.phase == Registering ==>
          forall t :: t in s.tasks ==> t !in p.slots && (t in p.createTasks || p.closed))
    && (s.phase == Registering || s.phase == Registered ==> forall t :: t in s.tasks ==> t in p.table)
    && (s.phase == Registered ==> forall t :: t in s.tasks ==> t in p.slots || IsClosing(p, t))
  }

  ghost predicate StartupsSound(p: Pool) {
    forall st :: st in p.startups ==> StartupSound(p, st)
  }

  /** Every launch in flight has someone waiting for it, its supervisor or its startup, unless its startup
      was deserted. */
  ghost predicate Attended(p: Pool) {
    forall t :: t in p.createTasks && t in p.launches && p.launches[t].startup.Some? ==>
      var st := p.launches[t].startup.value;
      st in p.startups && t in p.startups[st].tasks
          && (p.startups[st].phase == Waiting || p.startups[st].phase == Registering
          || p.startups[st].phase == Deserted)
  }

  /** After shutdown began: no launch is in flight, and only busy retiring slots remain. */
  ghost predicate Draining(p: Pool) {
    p.closed ==>
      && p.createTasks == {}
      && (forall s :: s in p.slots ==> s in p.table && p.table[s].state == Retiring && p.table[s].activeContexts > 0)
  }

  /** Who holds every browser, and how many there are. */
  ghost predicate Held(p: Pool, hand: set<nat>) {
    && LaunchesKnown(p.table, p.launches, p.nextLaunch, p.nextStartup)
    && TasksKnown(p.createTasks, p.watchers, p.launches)
    && SlotsKnown(p.slots, p.table)
    && ClosingOwned(p)
    && OpenOwned(p, hand)
    && Lifecycle(p.table)
    && Bounded(p, hand)
  }

  /** Who holds every context. */
  ghost predicate Leases(p: Pool) {
    && Counted(p)
    && Ticketed(p)
    && !p.raised
  }

  ghost predicate Core(p: Pool, hand: set<nat>) {
    Held(p, hand) && Leases(p)
  }

  ghost predicate Inv(p: Pool) {
    && Core(p, {})
    && StartupsSound(p)
    && Attended(p)
    && Draining(p)
  }

  // ----- the slot list as a set -----

  lemma WithoutFacts(xs: seq<nat>, x: nat)
    requires Distinct(xs)
    ensures Distinct(Without(xs, x))
    ensures forall y :: y in Without(xs, x) <==> y in xs && y != x
    ensures |Without(xs, x)| == |xs| - (if x in xs then 1 else 0)
  {
    if xs == [] {
    } else if xs[0] == x {
      assert xs == [x] + xs[1..];
    } else {
      WithoutFacts(xs[1..], x);
      assert xs == [xs[0]] + xs[1..];
      assert Without(xs, x) == [xs[0]] + Without(xs[1..], x);
      assert xs[0] !in xs[1..];
    }
  }

  lemma ElementsCard(xs: seq<nat>)
    requires Distinct(xs)
    ensures |Elements(xs)| == |xs|
  {
    if xs != [] {
      ElementsCard(xs[1..]);
      assert xs == [xs[0]] + xs[1..];
      assert Elements(xs) == {xs[0]} + Elements(xs[1..]);
      assert xs[0] !in xs[1..];
    }
  }

  // ----- primitives keep track of every browser -----

  lemma MarkRetiringOwned(p: Pool, s: nat, reason: Reason, hand: set<nat>)
    requires ClosingOwned(p) && OpenOwned(p, hand)
    ensures ClosingOwned(MarkRetiring(p, s, reason)) && OpenOwned(MarkRetiring(p, s, reason), hand)
  {
    assert forall x :: IsClosing(MarkRetiring(p, s, reason), x) <==> IsClosing(p, x);
  }

  lemma MarkRetiringHeld(p: Pool, s: nat, reason: Reason, hand: set<nat>)
    requires Held(p, hand)
    ensures Held(MarkRetiring(p, s, reason), hand)
  {
    hide ClosingOwned, OpenOwned, TasksKnown;
    MarkRetiringOwned(p, s, reason, hand);
  }

  lemma ScheduleCloseClosing(p: Pool, s: nat, reason: Reason)
    requires s in p.table && !IsClosing(p, s) && p.table[s].activeContexts == 0
    requires ClosingOwned(p)
    ensures ClosingOwned(ScheduleClose(p, s, reason))
  {
    var q := ScheduleClose(p, s, reason);
    assert forall x :: IsClosing(q, x) <==> IsClosing(p, x) || x == s;
  }

  lemma ScheduleCloseOpen(p: Pool, s: nat, reason: Reason, hand: set<nat>)
    requires s in p.table && !IsClosing(p, s) && p.table[s].activeContexts == 0
    requires s !in p.createTasks && (s in p.watchers ==> p.closed)
    requires Distinct(p.slots) && OpenOwned(p, hand)
    ensures OpenOwned(ScheduleClose(p, s, reason), hand - {s})
  {
    var q := ScheduleClose(p, s, reason);
    WithoutFacts(p.slots, s);
    assert forall x :: IsClosing(q, x) <==> IsClosing(p, x) || x == s;
  }

  lemma ScheduleCloseBounded(p: Pool, s: nat, reason: Reason, hand: set<nat>)
    requires s in p.table && !IsClosing(p, s) && p.table[s].activeContexts == 0
    requires s !in p.createTasks && (s in p.watchers ==> p.closed)
    requires Distinct(p.slots) && ClosingOwned(p) && OpenOwned(p, hand) && Bounded(p, hand)
    ensures Bounded(ScheduleClose(p, s, reason), hand - {s})
  {
    WithoutFacts(p.slots, s);
    assert s !in p.closeTasks;
    assert s in p.slots || s in hand || p.closed;
  }

  lemma ScheduleCloseKnown(p: Pool, s: nat, reason: Reason)
    requires SlotsKnown(p.slots, p.table) && Lifecycle(p.table)
    requires s in p.table && !IsClosing(p, s) && p.table[s].activeContexts == 0
    ensures SlotsKnown(ScheduleClose(p, s, reason).slots, ScheduleClose(p, s, reason).table)
    ensures Lifecycle(ScheduleClose(p, s, reason).table)
  {
    WithoutFacts(p.slots, s);
  }

  lemma ScheduleCloseHeld(p: Pool, s: nat, reason: Reason, hand: set<nat>)
    requires Held(p, hand)
    requires s in p.table && (IsClosing(p, s) || p.table[s].activeContexts == 0)
    requires s !in p.createTasks && (s in p.watchers ==> p.closed)
    ensures Held(ScheduleClose(p, s, reason), hand - {s})
  {
    if IsClosing(p, s) {
      ClosingNotInHand(p, s, hand);
    } else {
      hide ClosingOwned, OpenOwned, Bounded, TasksKnown, SlotsKnown, Lifecycle;
      assert SlotsKnown(p.slots, p.table) ==> Distinct(p.slots) by { SlotsAreDistinct(p); }
      ScheduleCloseClosing(p, s, reason);
      ScheduleCloseOpen(p, s, reason, hand);
      ScheduleCloseBounded(p, s, reason, hand);
      ScheduleCloseKnown(p, s, reason);
    }
  }

  lemma SlotsAreDistinct(p: Pool)
    ensures SlotsKnown(p.slots, p.table) ==> Distinct(p.slots)
  {
  }

  lemma ClosingNotInHand(p: Pool, s: nat, hand: set<nat>)
    requires OpenOwned(p, hand) && IsClosing(p, s)
    ensures hand - {s} == hand
  {
  }

  lemma StartCreateClosing(p: Pool, startup: Option<nat>)
    requires ClosingOwned(p)
    ensures ClosingOwned(StartCreate(p, startup))
  {
    assert forall x :: IsClosing(StartCreate(p, startup), x) <==> IsClosing(p, x);
  }

  lemma FreshLaunch(p: Pool, hand: set<nat>)
    requires LaunchesKnown(p.table, p.launches, p.nextLaunch, p.nextStartup)
    requires TasksKnown(p.createTasks, p.watchers, p.launches) && SlotsKnown(p.slots, p.table)
    ensures p.nextLaunch !in p.table && p.nextLaunch !in p.slots
    ensures p.nextLaunch !in p.createTasks && p.nextLaunch !in p.watchers
  {
  }

  lemma StartCreateOpen(p: Pool, startup: Option<nat>, hand: set<nat>)
    requires p.nextLaunch !in p.table && p.nextLaunch !in p.slots && p.nextLaunch !in p.watchers
    requires OpenOwned(p, hand)
    ensures OpenOwned(StartCreate(p, startup), hand)
  {
    assert forall x :: IsClosing(StartCreate(p, startup), x) <==> IsClosing(p, x);
  }

  lemma StartCreateHeld(p: Pool, startup: Option<nat>, hand: set<nat>)
    requires Held(p, hand)
    requires startup.Some? ==> startup.value < p.nextStartup
    requires p.closed || Physical(p) + |hand| < p.cfg.Ceiling()
    ensures Held(StartCreate(p, startup), hand)
  {
    hide ClosingOwned, OpenOwned, SlotsKnown, Lifecycle;
    FreshLaunch(p, hand);
    StartCreateClosing(p, startup);
    StartCreateOpen(p, startup, hand);
    assert p.nextLaunch !in p.createTasks;
  }

  lemma FinishCreatesOwned(p: Pool, tasks: set<nat>, hand: set<nat>, more: set<nat>)
    requires ClosingOwned(p) && OpenOwned(p, hand)
    requires more == set t | t in tasks && t in p.createTasks && t in p.table
    ensures ClosingOwned(FinishCreates(p, tasks)) && OpenOwned(FinishCreates(p, tasks), hand + more)
  {
    assert forall x :: IsClosing(FinishCreates(p, tasks), x) <==> IsClosing(p, x);
  }

  lemma FinishCreatesBounded(p: Pool, tasks: set<nat>, hand: set<nat>, more: set<nat>)
    requires Bounded(p, hand)
    requires more == set t | t in tasks && t in p.createTasks && t in p.table
    ensures Bounded(FinishCreates(p, tasks), hand + more)
  {
    CardSum(p.createTasks - tasks, more, p.createTasks);
    CardUnion(hand, more);
  }

  lemma FinishCreatesHeld(p: Pool, tasks: set<nat>, hand: set<nat>, more: set<nat>)
    requires Held(p, hand)
    requires forall t :: t in tasks && t in p.launches ==> p.launches[t].outcome != Running
    requires more == set t | t in tasks && t in p.createTasks && t in p.table
    ensures Held(FinishCreates(p, tasks), hand + more)
  {
    hide ClosingOwned, OpenOwned, SlotsKnown, Lifecycle, LaunchesKnown, Bounded;
    FinishCreatesOwned(p, tasks, hand, more);
    FinishCreatesBounded(p, tasks, hand, more);
  }

  lemma CardSum(a: set<nat>, b: set<nat>, c: set<nat>)
    requires a !! b && a + b <= c
    ensures |a| + |b| <= |c|
  {
    assert |a + b| == |a| + |b|;
    CardSubset(a + b, c);
  }

  lemma CardSubset(a: set<nat>, b: set<nat>)
    requires a <= b
    ensures |a| <= |b|
  {
    assert b == a + (b - a);
  }

  lemma CardUnion(a: set<nat>, b: set<nat>)
    ensures |a + b| <= |a| + |b|
  {
    assert a + b == a + (b - a);
    assert b == (b - a) + (a * b);
  }

  function Moved(p: Pool, tasks: set<nat>): set<nat> {
    set t | t in tasks && t in p.createTasks && t !in p.watchers
  }

  lemma AbandonCreatesOwned(p: Pool, tasks: set<nat>, hand: set<nat>)
    requires ClosingOwned(p) && OpenOwned(p, hand)
    ensures ClosingOwned(AbandonCreates(p, tasks)) && OpenOwned(AbandonCreates(p, tasks), hand)
  {
    assert forall x :: IsClosing(AbandonCreates(p, tasks), x) <==> IsClosing(p, x);
  }

  lemma AbandonCreatesHeld(p: Pool, tasks: set<nat>, hand: set<nat>)
    requires Held(p, hand)
    ensures Held(AbandonCreates(p, tasks), hand)
  {
    hide ClosingOwned, OpenOwned, SlotsKnown, Lifecycle, LaunchesKnown;
    AbandonCreatesOwned(p, tasks, hand);
    CardSum(p.createTasks - Moved(p, tasks), Moved(p, tasks), p.createTasks);
    CardUnion(p.watchers, Moved(p, tasks));
  }

  lemma AppendOwned(p: Pool, more: seq<nat>, hand: set<nat>)
    requires ClosingOwned(p) && OpenOwned(p, hand) && Elements(more) <= hand
    ensures ClosingOwned(p.(slots := p.slots + more))
    ensures OpenOwned(p.(slots := p.slots + more), hand - Elements(more))
  {
    var q := p.(slots := p.slots + more);
    assert forall t :: t in more ==> t in Elements(more);
    assert forall x :: IsClosing(q, x) <==> IsClosing(p, x);
  }

  lemma AppendKnown(p: Pool, more: seq<nat>, hand: set<nat>)
    requires SlotsKnown(p.slots, p.table) && OpenOwned(p, hand)
    requires Distinct(more) && Elements(more) <= hand
    ensures SlotsKnown(p.slots + more, p.table)
  {
    assert forall t :: t in more ==> t in Elements(more);
    assert forall t :: t in more ==> t !in p.slots;
    var both := p.slots + more;
    forall i, j | 0 <= i < j < |both| ensures both[i] != both[j] {
      if i < |p.slots| <= j {
        assert both[i] in p.slots && both[j] in more;
      }
    }
  }

  lemma AppendHeld(p: Pool, more: seq<nat>, hand: set<nat>)
    requires Held(p, hand)
    requires Distinct(more) && Elements(more) <= hand
    ensures Held(p.(slots := p.slots + more), hand - Elements(more))
  {
    hide ClosingOwned, OpenOwned, SlotsKnown, TasksKnown, LaunchesKnown, Lifecycle;
    AppendOwned(p, more, hand);
    AppendKnown(p, more, hand);
    ElementsCard(more);
    CardSum(hand - Elements(more), Elements(more), hand);
  }
}
