/** The composite pieces of the pool's critical sections that only retire and close browsers:
    they keep every browser held, touch no lease, and never move a browser back. */
module PoolSettling {
  import opened Basics
  import opened PoolState
  import opened PoolInvariant

  function Rank(state: SlotState): nat {
    match state
    case Ready => 0
    case Retiring => 1
    case Closing => 2
  }

  /** Retired for a reason that takes the browser out of service at once. */
  predicate Hard(slot: Slot) {
    slot.state != Ready && !IsSoft(slot.retireReason)
  }

  /** What any step may do to a slot: never back, a hard reason stays hard, a browser that is hard
      retired or closing is never leased again, and a recycle is recorded at most once. */
  predicate SlotEvolves(a: Slot, b: Slot) {
    && Rank(a.state) <= Rank(b.state)
    && (Hard(a) ==> Hard(b))
    && a.uses <= b.uses
    && (Hard(a) || a.state == Closing ==> b.uses == a.uses)
    && (a.recycleRecorded ==> b.recycleRecorded && b.recycles == a.recycles)
  }

  predicate SlotSettles(a: Slot, b: Slot) {
    && SlotEvolves(a, b)
    && b.activeContexts == a.activeContexts
    && b.uses == a.uses
  }

  /** Slots only move towards closing and closes towards acceptance; the rest is as before. */
  ghost predicate Settles(p: Pool, q: Pool) {
    && q == p.(table := q.table, slots := q.slots, closeTasks := q.closeTasks, abortedCloses := q.abortedCloses,
               failedCloses := q.failedCloses, physicallyClosed := q.physicallyClosed, accepted := q.accepted)
    && (forall s :: s in p.accepted ==> s in q.accepted)
    && q.table.Keys == p.table.Keys
    && (forall s :: s in p.table ==> SlotSettles(p.table[s], q.table[s]))
    && (forall s :: s in q.slots ==> s in p.slots)
    && (forall s :: s in p.slots ==> s in q.slots || IsClosing(q, s))
  }

  lemma SettlesTransitive(p: Pool, q: Pool, r: Pool)
    requires Settles(p, q) && Settles(q, r)
    ensures Settles(p, r)
  {
    forall s | s in p.table ensures SlotSettles(p.table[s], r.table[s]) {
      assert SlotSettles(p.table[s], q.table[s]) && SlotSettles(q.table[s], r.table[s]);
    }
    forall s | s in p.slots ensures s in r.slots || IsClosing(r, s) {
      if s !in q.slots {
        assert IsClosing(q, s) && s in q.table && SlotSettles(q.table[s], r.table[s]);
      }
    }
  }

  lemma MarkRetiringSettles(p: Pool, s: nat, reason: Reason)
    requires Lifecycle(p.table)
    ensures Settles(p, MarkRetiring(p, s, reason))
  {
    if s in p.table {
      assert SlotSound(p.table[s]);
    }
  }

  lemma ScheduleCloseSettles(p: Pool, s: nat, reason: Reason)
    requires Lifecycle(p.table) && Distinct(p.slots)
    requires s in p.table && (IsClosing(p, s) || p.table[s].activeContexts == 0)
    ensures Settles(p, ScheduleClose(p, s, reason))
    ensures IsClosing(ScheduleClose(p, s, reason), s)
    ensures forall x :: x in p.table && x != s ==> ScheduleClose(p, s, reason).table[x] == p.table[x]
  {
    if IsClosing(p, s) {
    } else {
      assert SlotSound(p.table[s]);
      WithoutFacts(p.slots, s);
    }
  }

  /** A browser that a critical section may close: no launch in flight holds it. */
  predicate Free(p: Pool, s: nat) {
    s in p.table && s !in p.createTasks && (s in p.watchers ==> p.closed)
  }

  lemma {:induction false} CloseAllHeld(p: Pool, todo: seq<nat>, reason: Reason, hand: set<nat>)
    requires Held(p, hand)
    requires forall t :: t in todo ==> Free(p, t) && (IsClosing(p, t) || p.table[t].activeContexts == 0)
    ensures Held(CloseAll(p, todo, reason), hand - Elements(todo))
    ensures Settles(p, CloseAll(p, todo, reason))
    ensures forall t :: t in todo ==> IsClosing(CloseAll(p, todo, reason), t)
    decreases |todo|
  {
    hide Held, Settles, ScheduleClose, IsClosing;
    if todo == [] {
      assert hand - Elements(todo) == hand;
      SettlesSelf(p);
    } else {
      var q := ScheduleClose(p, todo[0], reason);
      var rest := todo[1..];
      assert todo == [todo[0]] + rest;
      assert Free(p, todo[0]);
      HeldBasics(p, hand);
      ScheduleCloseHeld(p, todo[0], reason, hand);
      ScheduleCloseSettles(p, todo[0], reason);
      forall t | t in rest ensures Free(q, t) && (IsClosing(q, t) || q.table[t].activeContexts == 0) {
        assert t in todo;
        SettlesOne(p, q, t);
      }
      CloseAllHeld(q, rest, reason, hand - {todo[0]});
      var r := CloseAll(q, rest, reason);
      SettlesTransitive(p, q, r);
      SettlesOne(q, r, todo[0]);
      assert hand - {todo[0]} - Elements(rest) == hand - Elements(todo);
    }
  }

  lemma SettlesSelf(p: Pool)
    ensures Settles(p, p)
  {
  }

  lemma HeldBasics(p: Pool, hand: set<nat>)
    requires Held(p, hand)
    ensures Lifecycle(p.table) && Distinct(p.slots)
    ensures forall s :: s in p.slots ==> s in p.table && Free(p, s)
    ensures forall s :: s in hand ==> s in p.table && Free(p, s) && p.table[s].activeContexts == 0
  {
  }

  lemma SettlesOne(p: Pool, q: Pool, s: nat)
    requires Settles(p, q)
    ensures Free(q, s) == Free(p, s)
    ensures s in p.table ==> s in q.table && SlotSettles(p.table[s], q.table[s])
    ensures IsClosing(p, s) ==> IsClosing(q, s)
  {
  }

  // ----- retiring a list of slots -----

  /** After a retiring pass a slot is closing, or retiring because it is still busy. */
  predicate Withdrawn(p: Pool, s: nat) {
    s in p.table && (p.table[s].state == Closing || (p.table[s].state == Retiring && p.table[s].activeContexts != 0))
  }

  lemma RetireOneHeld(p: Pool, s: nat, reason: Reason, hand: set<nat>)
    requires Held(p, hand) && Free(p, s)
    ensures var q := RetireOne(p, s, reason);
            Held(q, hand - {s}) && Settles(p, q) && Withdrawn(q, s)
  {
    hide Held, Settles, MarkRetiring, ScheduleClose, Lifecycle, Distinct;
    var m := MarkRetiring(p, s, reason);
    HeldBasics(p, hand);
    MarkRetiringHeld(p, s, reason, hand);
    MarkRetiringSettles(p, s, reason);
    MarkedWithdraws(p, s, reason);
    if p.table[s].activeContexts == 0 {
      assert RetireOne(p, s, reason) == ScheduleClose(m, s, reason);
      HeldBasics(m, hand);
      SettlesOne(p, m, s);
      ScheduleCloseHeld(m, s, reason, hand);
      ScheduleCloseSettles(m, s, reason);
      SettlesTransitive(p, m, ScheduleClose(m, s, reason));
    } else {
      BusyNotInHand(p, s, hand);
    }
  }

  lemma MarkedWithdraws(p: Pool, s: nat, reason: Reason)
    requires s in p.table
    ensures p.table[s].activeContexts != 0 ==> Withdrawn(MarkRetiring(p, s, reason), s)
  {
  }

  lemma BusyNotInHand(p: Pool, s: nat, hand: set<nat>)
    requires Held(p, hand) && s in p.table && p.table[s].activeContexts != 0
    ensures hand - {s} == hand && s in p.slots
  {
    assert s in hand ==> s !in p.slots;
  }

  lemma WithdrawnStays(p: Pool, q: Pool, s: nat)
    requires Settles(p, q) && Withdrawn(p, s)
    ensures Withdrawn(q, s)
  {
    assert SlotSettles(p.table[s], q.table[s]);
  }

  lemma {:induction false} RetireAllHeld(p: Pool, todo: seq<nat>, reason: Reason, hand: set<nat>)
    requires Held(p, hand)
    requires forall t :: t in todo ==> Free(p, t)
    ensures Held(RetireAll(p, todo, reason), hand - Elements(todo))
    ensures Settles(p, RetireAll(p, todo, reason))
    ensures forall t :: t in todo ==> Withdrawn(RetireAll(p, todo, reason), t)
    decreases |todo|
  {
    hide Held, Settles, RetireOne, Free, Withdrawn;
    if todo == [] {
      assert hand - Elements(todo) == hand;
      SettlesSelf(p);
    } else {
      var q := RetireOne(p, todo[0], reason);
      var rest := todo[1..];
      assert todo == [todo[0]] + rest;
      RetireOneHeld(p, todo[0], reason, hand);
      forall t | t in rest ensures Free(q, t) {
        assert t in todo;
        SettlesOne(p, q, t);
      }
      RetireAllHeld(q, rest, reason, hand - {todo[0]});
      var r := RetireAll(q, rest, reason);
      SettlesTransitive(p, q, r);
      WithdrawnStays(q, r, todo[0]);
      assert hand - {todo[0]} - Elements(rest) == hand - Elements(todo);
    }
  }

  // ----- refreshing -----

  /** After a refresh a listed slot is in service and within its limits, or retiring and busy; a dead
      browser is never in service. */
  predicate Refreshed(p: Pool, s: nat, now: int) {
    s in p.table &&
    (match p.table[s].state
     case Ready => p.table[s].connected && !ShouldRecycle(p.cfg, p.table[s], now)
     case Retiring => p.table[s].activeContexts != 0 && (p.table[s].connected || !IsSoft(p.table[s].retireReason))
     case Closing => true)
  }

  lemma RefreshMarkHeld(p: Pool, s: nat, now: int, hand: set<nat>)
    requires Held(p, hand) && s in p.table
    ensures var q := RefreshMark(p, s, now);
            Held(q, hand) && Settles(p, q)
            && (q.table[s].state == Ready || q.table[s].activeContexts != 0 ==> Refreshed(q, s, now))
            && forall x :: x in p.table && x != s ==> q.table[x] == p.table[x]
  {
    RefreshedSlotSettles(p.cfg, p.table[s], now);
    SetSlotHeld(p, s, RefreshedSlot(p.cfg, p.table[s], now), hand);
  }

  lemma RefreshedSlotSettles(cfg: Config, slot: Slot, now: int)
    requires SlotSound(slot)
    ensures var b := RefreshedSlot(cfg, slot, now);
            SlotSettles(slot, b) && SlotSound(b) && (b.state == Closing <==> slot.state == Closing)
            && b.closeFailures == slot.closeFailures
            && (b.state == Ready ==> b.connected && !ShouldRecycle(cfg, b, now))
            && (b.state == Retiring ==> b.connected || !IsSoft(b.retireReason))
  {
  }

  lemma SetSlotOwned(p: Pool, s: nat, slot: Slot, hand: set<nat>)
    requires ClosingOwned(p) && OpenOwned(p, hand)
    requires s in p.table && SlotSettles(p.table[s], slot)
    requires (slot.state == Closing <==> p.table[s].state == Closing) && slot.closeFailures == p.table[s].closeFailures
    ensures ClosingOwned(p.(table := p.table[s := slot])) && OpenOwned(p.(table := p.table[s := slot]), hand)
  {
    assert forall x :: IsClosing(p.(table := p.table[s := slot]), x) <==> IsClosing(p, x);
  }

  lemma SetSlotHeld(p: Pool, s: nat, slot: Slot, hand: set<nat>)
    requires Held(p, hand)
    requires s in p.table && SlotSettles(p.table[s], slot) && SlotSound(slot)
    requires (slot.state == Closing <==> p.table[s].state == Closing) && slot.closeFailures == p.table[s].closeFailures
    ensures Held(p.(table := p.table[s := slot]), hand) && Settles(p, p.(table := p.table[s := slot]))
  {
    hide ClosingOwned, OpenOwned, TasksKnown, SlotSettles, Settles;
    SetSlotOwned(p, s, slot, hand);
    SetSlotSettles(p, s, slot);
  }

  lemma SetSlotSettles(p: Pool, s: nat, slot: Slot)
    requires s in p.table && SlotSettles(p.table[s], slot)
    ensures Settles(p, p.(table := p.table[s := slot]))
  {
  }

  lemma RefreshOneHeld(p: Pool, s: nat, now: int)
    requires Held(p, {}) && Free(p, s)
    ensures var q := RefreshOne(p, s, now);
            Held(q, {}) && Settles(p, q) && Refreshed(q, s, now)
            && forall x :: x in p.table && x != s ==> q.table[x] == p.table[x]
  {
    var m := RefreshMark(p, s, now);
    hide Held, Settles, RefreshMark, ScheduleClose, ShouldRecycle;
    RefreshMarkHeld(p, s, now, {});
    SettlesOne(p, m, s);
    HeldBasics(m, {});
    if m.table[s].state == Retiring && m.table[s].activeContexts == 0 {
      var reason := ReasonOr(m.table[s].retireReason);
      var empty: set<nat> := {};
      ScheduleCloseHeld(m, s, reason, empty);
      assert empty - {s} == empty;
      ScheduleCloseSettles(m, s, reason);
      SettlesTransitive(p, m, ScheduleClose(m, s, reason));
    }
  }

  lemma {:induction false} RefreshAllHeld(p: Pool, todo: seq<nat>, now: int)
    requires Held(p, {}) && Distinct(todo)
    requires forall t :: t in todo ==> Free(p, t)
    ensures Held(RefreshAll(p, todo, now), {})
    ensures Settles(p, RefreshAll(p, todo, now))
    ensures forall t :: t in todo ==> Refreshed(RefreshAll(p, todo, now), t, now)
    ensures forall x :: x in p.table && x !in todo ==>
                          x in RefreshAll(p, todo, now).table && RefreshAll(p, todo, now).table[x] == p.table[x]
    decreases |todo|
  {
    hide Held, Settles, RefreshOne, Free, ShouldRecycle;
    if todo == [] {
      SettlesSelf(p);
    } else {
      var q := RefreshOne(p, todo[0], now);
      var rest := todo[1..];
      assert todo == [todo[0]] + rest;
      assert todo[0] !in rest;
      RefreshOneHeld(p, todo[0], now);
      SameKeys(p, q);
      forall t | t in rest ensures Free(q, t) {
        assert t in todo;
        SettlesOne(p, q, t);
      }
      assert Distinct(rest);
      RefreshAllHeld(q, rest, now);
      var r := RefreshAll(q, rest, now);
      SettlesTransitive(p, q, r);
      SameKeys(q, r);
      assert q.cfg == r.cfg;
    }
  }

  lemma SameKeys(p: Pool, q: Pool)
    requires Settles(p, q)
    ensures q.table.Keys == p.table.Keys && q.cfg == p.cfg
    ensures forall x :: x in p.table <==> x in q.table
  {
  }

  // ----- retrying failed closes -----

  lemma RetryClosesSettles(p: Pool, retry: set<nat>)
    requires ClosingOwned(p) && retry <= p.failedCloses
    ensures Settles(p, RetryCloses(p, retry))
    ensures RetryCloses(p, retry).table == p.table && RetryCloses(p, retry).slots == p.slots
    ensures RetryCloses(p, retry).failedCloses == p.failedCloses - retry
    ensures RetryCloses(p, retry).closeTasks.Keys == p.closeTasks.Keys + retry
  {
    var q := RetryCloses(p, retry);
    assert q.closeTasks.Keys == p.closeTasks.Keys + retry;
  }

  lemma RetryClosesOwned(p: Pool, retry: set<nat>)
    requires ClosingOwned(p) && retry <= p.failedCloses
    ensures ClosingOwned(RetryCloses(p, retry))
  {
    var q := RetryCloses(p, retry);
    assert forall x :: IsClosing(q, x) <==> IsClosing(p, x);
    assert q.closeTasks.Keys == p.closeTasks.Keys + retry;
    assert q.failedCloses == p.failedCloses - retry;
    forall s | s in q.closeTasks ensures q.closeTasks[s] == q.table[s].closeFailures {
      assert IsClosing(p, s);
    }
  }

  lemma RetryClosesHeld(p: Pool, retry: set<nat>, hand: set<nat>)
    requires Held(p, hand) && retry <= p.failedCloses
    ensures Held(RetryCloses(p, retry), hand) && Settles(p, RetryCloses(p, retry))
  {
    RetryClosesOwned(p, retry);
    RetryClosesSettles(p, retry);
    RetryClosesOpen(p, retry, hand);
    RetryClosesBounded(p, retry, hand);
    hide ClosingOwned, OpenOwned, SlotsKnown, TasksKnown, LaunchesKnown, Lifecycle, Settles, Bounded;
  }

  lemma RetryClosesBounded(p: Pool, retry: set<nat>, hand: set<nat>)
    requires ClosingOwned(p) && retry <= p.failedCloses && Bounded(p, hand)
    ensures Bounded(RetryCloses(p, retry), hand)
  {
    RetryClosesSettles(p, retry);
    var q := RetryCloses(p, retry);
    assert |q.closeTasks.Keys| == |p.closeTasks.Keys| + |retry|;
    assert |p.failedCloses - retry| == |p.failedCloses| - |retry|;
  }

  lemma RetryClosesOpen(p: Pool, retry: set<nat>, hand: set<nat>)
    requires OpenOwned(p, hand)
    ensures OpenOwned(RetryCloses(p, retry), hand)
  {
    assert forall x :: IsClosing(RetryCloses(p, retry), x) <==> IsClosing(p, x);
  }

  /** `_refresh_recycling_unlocked`: nothing is lost, and what stays listed is fit or busy. */
  lemma RefreshRecyclingHeld(p: Pool, now: int)
    requires Held(p, {})
    ensures var q := RefreshRecycling(p, now);
            Held(q, {}) && Settles(p, q) && forall s :: s in q.slots ==> Refreshed(q, s, now)
  {
    var m := RefreshAll(p, p.slots, now);
    var retry := RetryEligible(m, now);
    var q := RetryCloses(m, retry);
    hide Held, Settles, RefreshAll, RetryCloses, Free, ClosingOwned, ShouldRecycle;
    HeldBasics(p, {});
    RefreshAllHeld(p, p.slots, now);
    HeldClosing(m, {});
    RetryClosesHeld(m, retry, {});
    RetryClosesSettles(m, retry);
    SettlesTransitive(p, m, q);
    FewerSlots(p, m);
    SameKeys(m, q);
    forall s | s in q.slots ensures Refreshed(q, s, now) {
      assert Refreshed(m, s, now);
    }
  }

  lemma HeldClosing(p: Pool, hand: set<nat>)
    requires Held(p, hand)
    ensures ClosingOwned(p)
  {
  }

  lemma FewerSlots(p: Pool, q: Pool)
    requires Settles(p, q)
    ensures forall s :: s in q.slots ==> s in p.slots
    ensures forall s :: s in p.slots ==> s in q.slots || IsClosing(q, s)
  {
  }
}
