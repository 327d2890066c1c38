/** The browser pool as the object it is: slots and collections updated in place. Each method is one
    atomic section of camouflare/pool.py and is proved to be the function of that name in PoolState. */
module BrowserPools {
  import opened Basics
  import opened PoolState
  import opened PoolInvariant
  import opened PoolSettling
  import opened PoolLaunching
  import opened PoolStartup
  import opened PoolHandoff
  import opened PoolLeases
  import R = PoolRuns

  class BrowserSlot {
    const createdAt: int
    var connected: bool
    var activeContexts: int
    var uses: nat
    var state: SlotState
    var retireReason: Option<Reason>
    var recycleRecorded: bool
    var recycles: nat
    var closeFailures: nat
    var nextCloseRetryAt: int

    constructor (now: int)
      ensures Value() == FreshSlot(now)
    {
      createdAt := now;
      connected := true;
      activeContexts, uses := 0, 0;
      state := Ready;
      retireReason := None;
      recycleRecorded, recycles := false, 0;
      closeFailures, nextCloseRetryAt := 0, 0;
    }

    function Value(): Slot
      reads this
    {
      Slot(createdAt, connected, activeContexts, uses, state, retireReason, recycleRecorded, recycles, closeFailures,
           nextCloseRetryAt)
    }

    /** `_mark_retiring_unlocked`. */
    method MarkRetiring(reason: Reason)
      modifies this`state, this`retireReason, this`recycleRecorded, this`recycles
      ensures Value() == Retired(old(Value()), reason)
    {
      if state == Closing {
        return;
      }
      state := Retiring;
      if retireReason == None || !IsSoft(Some(reason)) {
        retireReason := Some(reason);
      }
      if !recycleRecorded {
        recycleRecorded := true;
        recycles := recycles + 1;
      }
    }

    /** What a refresh does to one slot before it looks whether to close it. */
    method Refresh(cfg: Config, now: int)
      modifies this
      ensures Value() == RefreshedSlot(cfg, old(Value()), now)
    {
      if state != Closing && !connected {
        MarkRetiring(Disconnected);
      }
      if state == Ready && ShouldRecycle(cfg, Value(), now) {
        MarkRetiring(RecycleReason(cfg, Value(), now));
      }
    }

    method Reserve(cfg: Config, now: int)
      modifies this
      ensures Value() == ReservedSlot(cfg, old(Value()), now)
    {
      activeContexts := activeContexts + 1;
      uses := uses + 1;
      if state == Ready && ShouldRecycle(cfg, Value(), now) {
        MarkRetiring(RecycleReason(cfg, Value(), now));
      }
    }

    method Release(cfg: Config, discard: bool, reason: Reason, now: int)
      modifies this
      ensures Value() == ReleasedSlot(cfg, old(Value()), discard, reason, now)
    {
      activeContexts := activeContexts - 1;
      if discard {
        MarkRetiring(reason);
      } else if ShouldRecycle(cfg, Value(), now) {
        MarkRetiring(RecycleReason(cfg, Value(), now));
      }
    }

    /** A close failed: note when it may be tried again. */
    method CloseFailed(now: int)
      modifies this
      ensures Value() == old(Value()).(closeFailures := old(closeFailures) + 1,
                                       nextCloseRetryAt := now + Backoff(old(closeFailures) + 1))
    {
      hide Backoff;
      closeFailures := closeFailures + 1;
      nextCloseRetryAt := now + Backoff(closeFailures);
    }

    /** Retire the slot and let it take nothing more. */
    method BeginClose(reason: Reason)
      modifies this
      ensures Value() == Retired(old(Value()), reason).(state := Closing)
    {
      MarkRetiring(reason);
      state := Closing;
    }
  }

  class BrowserPool {
    const cfg: Config
    var objects: map<nat, BrowserSlot>
    var slots: seq<nat>
    var launches: map<nat, Launch>
    var createTasks: set<nat>
    var watchers: set<nat>
    var closeTasks: map<nat, nat>
    var abortedCloses: set<(nat, nat)>
    var failedCloses: set<nat>
    var physicallyClosed: set<nat>
    ghost var accepted: set<nat>
    var transient: int
    var persistent: int
    var waiting: int
    var reservations: map<nat, Reservation>
    var tickets: map<nat, Ticket>
    var waiters: map<nat, Waiter>
    var startups: map<nat, Startup>
    var failureGeneration: nat
    var lastFailure: bool
    var started: bool
    var starting: bool
    var closed: bool
    var raised: bool
    var nextLaunch: nat
    var nextReservation: nat
    var nextTicket: nat
    var nextWaiter: nat
    var nextStartup: nat

    /** No two names share a slot object. */
    ghost predicate Valid()
      reads this`objects
    {
      forall a, b :: a in objects && b in objects && objects[a] == objects[b] ==> a == b
    }

    ghost function Table(): map<nat, Slot>
      reads this`objects, objects.Values
    {
      map s | s in objects :: objects[s].Value()
    }

    ghost function State(): Pool
      reads this, objects.Values
    {
      Pool(cfg, Table(), slots, launches, createTasks, watchers, closeTasks, abortedCloses, failedCloses,
           physicallyClosed, accepted, transient, persistent, waiting, reservations, tickets, waiters, startups,
           failureGeneration, lastFailure, started, starting, closed, raised, nextLaunch, nextReservation, nextTicket,
           nextWaiter, nextStartup)
    }

    constructor (cfg: Config)
      ensures Valid() && State() == NewPool(cfg)
    {
      this.cfg := cfg;
      objects, slots, launches := map[], [], map[];
      createTasks, watchers, closeTasks, abortedCloses := {}, {}, map[], {};
      failedCloses, physicallyClosed := {}, {};
      accepted := {};
      transient, persistent, waiting := 0, 0, 0;
      reservations, tickets, waiters, startups := map[], map[], map[], map[];
      failureGeneration, lastFailure := 0, false;
      started, starting, closed, raised := false, false, false, false;
      nextLaunch, nextReservation, nextTicket, nextWaiter, nextStartup := 0, 0, 0, 0, 0;
    }

    /** What every section relies on and keeps. */
    ghost predicate Sound()
      reads this, objects.Values
    {
      Valid() && Inv(State())
    }

    /** One slot object changed: so did its entry of the table, and nothing else. */
    twostate lemma SlotChanged(s: nat)
      requires old(Valid()) && objects == old(objects) && s in objects
      requires forall x :: x in objects && x != s ==> unchanged(objects[x])
      ensures Table() == old(Table())[s := objects[s].Value()]
    {
    }

    method MarkRetiring(s: nat, reason: Reason)
      requires Valid() && s in objects
      modifies objects[s]
      ensures State() == PoolState.MarkRetiring(old(State()), s, reason)
      ensures objects[s].activeContexts == old(objects[s].activeContexts)
    {
      hide Retired, Table;
      TableAt(s);
      objects[s].MarkRetiring(reason);
      SlotChanged(s);
    }

    method BeginClose(s: nat, reason: Reason)
      requires Valid() && s in objects
      modifies objects[s]
      ensures State() == old(State()).(table :=
              old(State()).table[s := Retired(old(State()).table[s], reason).(state := Closing)])
    {
      hide Retired, Table;
      TableAt(s);
      objects[s].BeginClose(reason);
      SlotChanged(s);
    }

    /** `_schedule_close_unlocked` for an idle slot. */
    method Unlist(s: nat, attempt: nat)
      modifies this`slots, this`closeTasks
      ensures State() == old(State()).(slots := Without(old(State()).slots, s),
              closeTasks := old(State()).closeTasks[s := attempt])
    {
      hide Table, Without;
      slots, closeTasks := Without(slots, s), closeTasks[s := attempt];
    }

    lemma BegunThenClosed(p: Pool, s: nat, reason: Reason)
      requires s in p.table && p.table[s].state != Closing && p.table[s].activeContexts == 0
      ensures var slot := Retired(p.table[s], reason).(state := Closing);
              var m := p.(table := p.table[s := slot]);
              PoolState.ScheduleClose(p, s, reason)
                  == m.(slots := Without(m.slots, s), closeTasks := m.closeTasks[s := slot.closeFailures])
    {
      hide Without, Retired, PoolState.ScheduleClose;
      ScheduleCloseShape(p, s, reason);
    }

    method CloseIdle(s: nat, reason: Reason)
      requires Valid() && s in objects && objects[s].state != Closing && objects[s].activeContexts == 0
      modifies this`slots, this`closeTasks, objects[s]
      ensures State() == PoolState.ScheduleClose(old(State()), s, reason)
    {
      hide Without, Retired, PoolState.ScheduleClose, Table, Valid;
      TableAt(s);
      BegunThenClosed(State(), s, reason);
      BeginClose(s, reason);
      TableAt(s);
      Unlist(s, objects[s].closeFailures);
    }

    method ScheduleClose(s: nat, reason: Reason)
      requires Valid() && s in objects
      modifies this`slots, this`closeTasks, this`raised, objects[s]
      ensures State() == PoolState.ScheduleClose(old(State()), s, reason)
    {
      hide PoolState.ScheduleClose, Table;
      TableAt(s);
      ScheduleCloseIdle(State(), s, reason);
      if objects[s].state == Closing {
        return;
      }
      if objects[s].activeContexts != 0 {
        raised := true;
        return;
      }
      CloseIdle(s, reason);
    }

    lemma TableAt(s: nat)
      ensures s in Table() <==> s in objects
      ensures s in objects ==> Table()[s] == objects[s].Value()
    {
    }

    lemma StateTable()
      ensures State().table.Keys == objects.Keys
      ensures State().slots == slots && State().failedCloses == failedCloses && State().createTasks == createTasks
      ensures State().startups == startups && State().closed == closed && State().started == started
      ensures State().launches == launches && State().closeTasks == closeTasks
              && State().physicallyClosed == physicallyClosed
    {
    }

    // ----- refreshing -----

    method RefreshMark(s: nat, now: int)
      requires Valid() && s in objects
      modifies objects[s]
      ensures State() == PoolState.RefreshMark(old(State()), s, now)
    {
      hide RefreshedSlot, Table;
      TableAt(s);
      objects[s].Refresh(cfg, now);
      SlotChanged(s);
    }

    method RefreshOne(s: nat, now: int)
      requires Valid() && s in objects
      modifies this`slots, this`closeTasks, this`raised, objects[s]
      ensures State() == PoolState.RefreshOne(old(State()), s, now)
    {
      hide PoolState.RefreshMark, PoolState.ScheduleClose, Table;
      RefreshMark(s, now);
      TableAt(s);
      if objects[s].state == Retiring && objects[s].activeContexts == 0 {
        ScheduleClose(s, ReasonOr(objects[s].retireReason));
      }
    }

    method RefreshAll(now: int)
      requires Valid() && forall s :: s in slots ==> s in objects
      modifies this`slots, this`closeTasks, this`raised, objects.Values
      ensures State() == PoolState.RefreshAll(old(State()), old(slots), now)
    {
      hide PoolState.RefreshOne, Table, State;
      var todo := slots;
      ghost var final := PoolState.RefreshAll(State(), todo, now);
      for i := 0 to |todo|
        invariant PoolState.RefreshAll(State(), todo[i..], now) == final
      {
        assert todo[i..][0] == todo[i] && todo[i..][1..] == todo[i + 1..];
        RefreshOne(todo[i], now);
      }
    }

    // ----- retrying failed closes -----

    /** `_schedule_failed_close_retry_unlocked`. */
    method RetryClose(s: nat)
      requires Valid() && s in objects
      modifies this`failedCloses, this`closeTasks
      ensures State() == RetryCloses(old(State()), {s})
    {
      hide Table, RetriedTasks, StillFailed;
      TableAt(s);
      RetriedOne(Table(), closeTasks, failedCloses, s);
      if s in closeTasks {
        return;
      }
      failedCloses := failedCloses - {s};
      closeTasks := closeTasks[s := objects[s].closeFailures];
    }

    method RetryAll(retry: set<nat>)
      requires Valid() && forall s :: s in retry ==> s in objects
      modifies this`failedCloses, this`closeTasks
      ensures State() == RetryCloses(old(State()), retry)
    {
      hide RetryCloses, State;
      ghost var before := State();
      StateTable();
      RetryNone(before);
      var todo := retry;
      assert retry - todo == {};
      while todo != {}
        invariant todo <= retry && State() == RetryCloses(before, retry - todo) && before.table.Keys == objects.Keys
        decreases |todo|
      {
        var s :| s in todo;
        assert retry - (todo - {s}) == (retry - todo) + {s};
        RetryMore(before, retry - todo, s);
        RetryClose(s);
        todo := todo - {s};
      }
      assert retry - todo == retry;
    }

    /** `_retry_failed_closes_unlocked`. */
    method RetryFailedCloses(now: int)
      requires Valid() && forall s :: s in failedCloses ==> s in objects
      modifies this`failedCloses, this`closeTasks
      ensures State() == RetryCloses(old(State()), RetryEligible(old(State()), now))
    {
      hide RetryCloses;
      var due := set s | s in failedCloses && objects[s].closeFailures < MAX_CLOSE_RETRIES
                         && now >= objects[s].nextCloseRetryAt;
      assert due == RetryEligible(State(), now);
      RetryAll(due);
    }

    method RefreshRecycling(now: int)
      requires Valid() && Listed()
      modifies this`slots, this`closeTasks, this`failedCloses, this`raised, objects.Values
      ensures State() == PoolState.RefreshRecycling(old(State()), now)
    {
      hide PoolState.RefreshAll, RetryCloses, RetryEligible, Table;
      RefreshAll(now);
      RetryFailedCloses(now);
    }

    // ----- launching -----

    method AddCreateTask(startup: Option<nat>)
      modifies this`launches, this`createTasks
      ensures var p := old(State());
              State() == p.(launches := p.launches[p.nextLaunch := Launch(startup, Running)],
                            createTasks := p.createTasks + {p.nextLaunch})
    {
      hide Table;
      launches := launches[nextLaunch := Launch(startup, Running)];
      createTasks := createTasks + {nextLaunch};
    }

    method StartCreate(startup: Option<nat>)
      modifies this`launches, this`createTasks, this`nextLaunch
      ensures State() == PoolState.StartCreate(old(State()), startup)
    {
      hide Table;
      AddCreateTask(startup);
      nextLaunch := nextLaunch + 1;
    }

    method LaunchMany(count: int, startup: Option<nat>)
      modifies this`launches, this`createTasks, this`nextLaunch
      ensures State() == PoolState.LaunchMany(old(State()), count, startup)
    {
      hide State, PoolState.StartCreate;
      ghost var final := PoolState.LaunchMany(State(), count, startup);
      var left := count;
      while left > 0
        invariant PoolState.LaunchMany(State(), left, startup) == final
        invariant left <= 0 ==> State() == final
      {
        StartCreate(startup);
        left := left - 1;
      }
    }

    /** How many browsers the pool keeps alive in any form. */
    function Occupied(): int
      reads this
    {
      |slots| + |createTasks| + |watchers| + |closeTasks| + |failedCloses|
    }

    ghost predicate Listed()
      reads this
    {
      Distinct(slots) && (forall s :: s in slots || s in failedCloses ==> s in objects)
    }

    lemma SoundLists()
      requires Sound()
      ensures Listed()
    {
      hide Inv, TasksKnown, LaunchesKnown, OpenOwned, StartupsSound, Attended, Draining, Lifecycle, Bounded, Leases;
      InvParts(State());
      assert forall s :: s in failedCloses ==> IsClosing(State(), s);
    }

    method CountHealthy(now: int) returns (n: nat)
      requires Listed()
      ensures n == |HealthyIds(State(), now)|
    {
      hide ShouldRecycle;
      n := 0;
      ghost var seen: set<nat> := {};
      for i := 0 to |slots|
        invariant n == |seen|
        invariant forall s :: s in seen <==>
          s in slots[..i] && objects[s].state == Ready && !ShouldRecycle(cfg, objects[s].Value(), now)
      {
        var s := slots[i];
        if objects[s].state == Ready && !ShouldRecycle(cfg, objects[s].Value(), now) {
          assert s !in slots[..i];
          n, seen := n + 1, seen + {s};
        }
      }
      assert slots[..|slots|] == slots;
      assert seen == HealthyIds(State(), now);
    }

    method Replenish(now: int)
      requires Listed()
      modifies this`launches, this`createTasks, this`nextLaunch
      ensures State() == PoolState.Replenish(old(State()), now)
    {
      hide Table, HealthyIds, PoolState.LaunchMany;
      if starting || !started || closed || waiting > 0 {
        return;
      }
      var healthy := CountHealthy(now);
      var missing := cfg.minBrowsers - healthy - |createTasks|;
      if |watchers| < cfg.Ceiling() {
        LaunchMany(Min(missing, cfg.maxBrowsers - Occupied()), None);
      }
    }

    method Refresh(now: int)
      requires Sound()
      modifies this`slots, this`closeTasks, this`failedCloses, this`raised, objects.Values
      ensures Sound() && State() == PoolState.Refresh(old(State()), now)
    {
      hide Inv, PoolState.RefreshRecycling, Table, Listed;
      SoundLists();
      MaintainInv(State(), now);
      if started && !closed {
        RefreshRecycling(now);
      }
    }

    method Maintain(now: int)
      requires Sound()
      modifies this`slots, this`closeTasks, this`failedCloses, this`raised, this`launches, this`createTasks,
        this`nextLaunch, objects.Values
      ensures Sound() && State() == PoolState.Maintain(old(State()), now)
    {
      hide Inv, PoolState.RefreshRecycling, PoolState.Replenish, Table, Listed;
      SoundLists();
      MaintainInv(State(), now);
      if started && !closed {
        RefreshRecyclingInv(State(), now);
        RefreshRecycling(now);
        SoundLists();
        Replenish(now);
      }
    }

    // ----- abandoning launches -----

    method AbandonCreate(t: nat)
      modifies this`createTasks, this`watchers
      ensures State() == AbandonCreates(old(State()), {t})
    {
      hide Table;
      if t !in createTasks || t in watchers {
        assert (set x | x in {t} && x in createTasks && x !in watchers) == {};
        return;
      }
      assert (set x | x in {t} && x in createTasks && x !in watchers) == {t};
      createTasks := createTasks - {t};
      watchers := watchers + {t};
    }

    method AbandonAll(tasks: set<nat>)
      modifies this`createTasks, this`watchers
      ensures State() == AbandonCreates(old(State()), tasks)
    {
      hide AbandonCreates, State;
      ghost var before := State();
      AbandonNone(before);
      var todo := tasks;
      assert tasks - todo == {};
      while todo != {}
        invariant todo <= tasks && State() == AbandonCreates(before, tasks - todo)
        decreases |todo|
      {
        var t :| t in todo;
        assert tasks - (todo - {t}) == (tasks - todo) + {t};
        AbandonMore(before, tasks - todo, t);
        AbandonCreate(t);
        todo := todo - {t};
      }
      assert tasks - todo == tasks;
    }

    // ----- shutdown -----

    method RetireOne(s: nat, reason: Reason)
      requires Valid() && s in objects
      modifies this`slots, this`closeTasks, this`raised, objects[s]
      ensures State() == PoolState.RetireOne(old(State()), s, reason)
    {
      hide PoolState.MarkRetiring, PoolState.ScheduleClose, Table;
      TableAt(s);
      MarkRetiring(s, reason);
      if objects[s].activeContexts == 0 {
        ScheduleClose(s, reason);
      }
    }

    method RetireAll(todo: seq<nat>, reason: Reason)
      requires Valid() && forall s :: s in todo ==> s in objects
      modifies this`slots, this`closeTasks, this`raised, objects.Values
      ensures State() == PoolState.RetireAll(old(State()), todo, reason)
    {
      hide PoolState.RetireOne, Table, State;
      ghost var final := PoolState.RetireAll(State(), todo, reason);
      for i := 0 to |todo|
        invariant PoolState.RetireAll(State(), todo[i..], reason) == final
      {
        assert todo[i..][0] == todo[i] && todo[i..][1..] == todo[i + 1..];
        RetireOne(todo[i], reason);
      }
    }

    /** New work is refused from here on and no launch in flight will be used. */
    method StopLaunching()
      modifies this`closed, this`createTasks, this`watchers
      ensures State() == Stopped(old(State()))
    {
      hide AbandonCreates, Table;
      closed := true;
      AbandonAll(createTasks);
    }

    method Quiesce()
      requires Sound()
      modifies this`closed, this`createTasks, this`watchers, this`slots, this`closeTasks, this`raised, objects.Values
      ensures Sound() && State() == PoolState.Quiesce(old(State()))
    {
      hide Inv, AbandonCreates, PoolState.RetireAll, Table, Valid;
      SoundLists();
      QuiesceInv(State());
      StopLaunching();
      RetireAll(slots, Shutdown);
    }

    /** The first section of `close`. */
    method CloseBegin()
      requires Sound()
      modifies this`closed, this`createTasks, this`watchers, this`slots, this`closeTasks, this`failedCloses,
        this`raised, objects.Values
      ensures Sound() && State() == PoolState.CloseBegin(old(State()))
    {
      hide Inv, AbandonCreates, RetryCloses, PoolState.RetireAll, Table, Valid;
      SoundLists();
      CloseBeginInv(State());
      StopLaunching();
      RetryAll(failedCloses);
      RetireAll(slots, Shutdown);
    }

    // ----- startup -----

    method SetPhase(st: nat, phase: Phase)
      requires st in startups
      modifies this`startups
      ensures State() == PoolState.SetPhase(old(State()), st, phase)
    {
      hide Table;
      startups := startups[st := startups[st].(phase := phase)];
    }

    method AddStartup()
      modifies this`startups, this`nextStartup
      ensures var p := old(State());
              State() == p.(startups :=
                            p.startups[p.nextStartup :=
                            Startup(Fresh(p.nextLaunch, p.cfg.minBrowsers), Waiting, false)],
                            nextStartup := p.nextStartup + 1)
    {
      hide Table, Fresh;
      startups := startups[nextStartup := Startup(Fresh(nextLaunch, cfg.minBrowsers), Waiting, false)];
      nextStartup := nextStartup + 1;
    }

    method SetStarting(value: bool)
      modifies this`started, this`starting
      ensures State() == old(State()).(started := value, starting := value)
    {
      hide Table;
      started := value;
      starting := value;
    }

    /** The admitted part of `_start_once`. */
    method LaunchStartup()
      requires StartOnceResult(State()) == Started
      modifies this`started, this`starting, this`startups, this`nextStartup, this`launches, this`createTasks,
        this`nextLaunch
      ensures State() == PoolState.StartOnce(old(State()))
    {
      hide Table, Fresh, StartOnceResult, PoolState.LaunchMany;
      SetStarting(true);
      if cfg.minBrowsers == 0 {
        starting := false;
        return;
      }
      AddStartup();
      LaunchMany(cfg.minBrowsers, Some(nextStartup - 1));
    }

    method StartOnce() returns (r: StartResult)
      requires Sound()
      modifies this`started, this`starting, this`startups, this`nextStartup, this`launches, this`createTasks,
        this`nextLaunch
      ensures Sound() && r == StartOnceResult(old(State())) && State() == PoolState.StartOnce(old(State()))
    {
      hide Inv, Table, Valid;
      StartOnceInv(State());
      r := if started then AlreadyStarted
           else if closed then StartClosed
           else if Occupied() + cfg.minBrowsers > cfg.Ceiling() then Quarantined
           else Started;
      if r == Started {
        LaunchStartup();
      }
    }

    /** A startup that did not succeed leaves the pool startable again, unless it is closed. */
    method StartOver()
      modifies this`started, this`starting
      ensures State() == old(State()).(started := old(State()).started && old(State()).closed, starting := false)
    {
      hide Table;
      if !closed {
        started := false;
      }
      starting := false;
    }

    method StartupAborted(st: nat)
      requires Sound() && InPhase(State(), st, Waiting)
      modifies this`startups, this`createTasks, this`watchers, this`started, this`starting
      ensures Sound() && State() == PoolState.StartupAborted(old(State()), st)
    {
      hide Inv, Table, Valid, Elements, AbandonCreates;
      StartupAbortedInv(State(), st);
      SetPhase(st, Finished);
      AbandonAll(Elements(startups[st].tasks));
      StartOver();
    }

    method FinishCreates(tasks: set<nat>)
      modifies this`createTasks
      ensures State() == PoolState.FinishCreates(old(State()), tasks)
    {
      hide Table;
      createTasks := createTasks - tasks;
    }

    /** Close the browsers that the finished launches among `tasks` returned. */
    method CloseReturned(tasks: seq<nat>, done: set<nat>, reason: Reason)
      requires Valid()
      modifies this`slots, this`closeTasks, this`raised, objects.Values
      ensures State() == CloseAll(old(State()), ReturnedOf(old(State()), tasks, done), reason)
    {
      hide PoolState.ScheduleClose, Table, State;
      ghost var before := State();
      ghost var final := CloseAll(before, ReturnedOf(before, tasks, done), reason);
      StateTable();
      for i := 0 to |tasks|
        invariant CloseAll(State(), ReturnedOf(before, tasks[i..], done), reason) == final
      {
        assert tasks[i..][0] == tasks[i] && tasks[i..][1..] == tasks[i + 1..];
        if tasks[i] in done && tasks[i] in objects {
          ScheduleClose(tasks[i], reason);
        }
      }
    }

    method Dismiss(st: nat, finished: set<nat>)
      requires st in startups
      modifies this`startups, this`createTasks, this`watchers
      ensures var p := old(State());
              State() == AbandonCreates(PoolState.FinishCreates(PoolState.SetPhase(p, st, Finished), finished),
                                        Elements(p.startups[st].tasks) - finished)
    {
      hide Table, AbandonCreates, PoolState.FinishCreates, PoolState.SetPhase, Elements;
      var tasks := startups[st].tasks;
      SetPhase(st, Finished);
      FinishCreates(finished);
      AbandonAll(Elements(tasks) - finished);
    }

    /** The wait for the launches of a startup ended with something pending or failed. */
    method StartupFailed(st: nat, done: set<nat>)
      requires Sound() && FailedWait(State(), st, done)
      modifies this`startups, this`createTasks, this`watchers, this`slots, this`closeTasks, this`raised, this`started,
        this`starting, objects.Values
      ensures Sound() && State() == PoolState.StartupFailed(old(State()), st, done)
    {
      hide Inv, Table, AbandonCreates, CloseAll, ReturnedOf, PoolState.FinishCreates, PoolState.SetPhase,
        PoolState.StartupFailed, State, Elements;
      StartupFailedInv(State(), st, done);
      StartupFailedShape(State(), st, done);
      StateTable();
      ghost var p := State();
      var tasks := startups[st].tasks;
      var finished := set t | t in tasks && t in done && t in launches && launches[t].outcome != Running;
      Dismiss(st, finished);
      StateTable();
      ReturnedSame(p, State(), tasks, finished);
      CloseReturned(tasks, finished, Error);
      StateTable();
      StartOver();
    }

    /** The startup is cancelled again before its cleanup holds the lock. */
    method StartupDeserted(st: nat)
      requires Sound() && InPhase(State(), st, Waiting)
      modifies this`startups
      ensures Sound() && State() == PoolState.StartupDeserted(old(State()), st)
    {
      hide Inv, Table;
      StartupDesertedInv(State(), st);
      SetPhase(st, Deserted);
    }

    /** Every launch of the startup returned a browser; `order` is the order the results came in. */
    method StartupCompleted(st: nat, order: seq<nat>)
      requires Sound() && InPhase(State(), st, Waiting)
      requires Elements(order) == Elements(startups[st].tasks) && Distinct(order)
               && forall t :: t in order ==> t in objects
      modifies this`startups
      ensures Sound() && State() == PoolState.StartupCompleted(old(State()), st, order)
    {
      hide Inv, Table;
      StartupCompletedInv(State(), st, order);
      StateTable();
      assert forall t :: t in startups[st].tasks ==> t in Elements(startups[st].tasks);
      assert forall t :: t in Elements(order) ==> t in order;
      startups := startups[st := Startup(order, Registering, startups[st].cancelled)];
    }

    method CloseEach(todo: seq<nat>, reason: Reason)
      requires Valid() && forall s :: s in todo ==> s in objects
      modifies this`slots, this`closeTasks, this`raised, objects.Values
      ensures State() == CloseAll(old(State()), todo, reason)
    {
      hide PoolState.ScheduleClose, Table, State;
      ghost var final := CloseAll(State(), todo, reason);
      for i := 0 to |todo|
        invariant CloseAll(State(), todo[i..], reason) == final
      {
        assert todo[i..][0] == todo[i] && todo[i..][1..] == todo[i + 1..];
        ScheduleClose(todo[i], reason);
      }
    }

    method Discard(st: nat)
      requires st in startups
      modifies this`startups, this`createTasks
      ensures st in startups && State() == Discarded(old(State()), st)
    {
      hide Table, PoolState.FinishCreates, Elements;
      var tasks := startups[st].tasks;
      SetPhase(st, Finished);
      FinishCreates(Elements(tasks));
    }

    method AppendSlots(more: seq<nat>)
      modifies this`slots
      ensures State() == old(State()).(slots := old(State()).slots + more)
    {
      hide Table;
      slots := slots + more;
    }

    /** `_register_started_slots`. */
    method RegisterStarted(st: nat)
      requires Sound() && InPhase(State(), st, Registering)
      modifies this`startups, this`createTasks, this`slots, this`closeTasks, this`raised, objects.Values
      ensures Sound() && State() == PoolState.RegisterStarted(old(State()), st)
    {
      hide Inv, Table, CloseAll, Discarded, PoolState.SetPhase, PoolState.RegisterStarted, State;
      RegisterStartedInv(State(), st);
      RegisterShape(State(), st);
      AllReturned(State(), st);
      StateTable();
      var tasks := startups[st].tasks;
      var cancelled := startups[st].cancelled;
      Discard(st);
      if closed || cancelled {
        CloseEach(tasks, if closed then Shutdown else Error);
      } else {
        AppendSlots(tasks);
      }
      SetPhase(st, Registered);
    }

    method StartupReturned(st: nat)
      requires Sound() && InPhase(State(), st, Registered) && !startups[st].cancelled
      modifies this`startups, this`starting
      ensures Sound() && State() == PoolState.StartupReturned(old(State()), st)
    {
      hide Inv, Table;
      StartupReturnedInv(State(), st);
      SetPhase(st, Finished);
      starting := false;
    }

    method StartupCancelled(st: nat)
      requires Sound() && (InPhase(State(), st, Registering) || InPhase(State(), st, Registered))
               && !startups[st].cancelled
      modifies this`startups, this`started, this`starting
      ensures Sound() && State() == PoolState.StartupCancelled(old(State()), st)
    {
      hide Inv, Table;
      StartupCancelledInv(State(), st);
      startups := startups[st := startups[st].(cancelled := true)];
      SetStarting(false);
    }

    /** `_recover_cancelled_start`. */
    method RecoverStart(st: nat)
      requires Sound() && (InPhase(State(), st, Registering) || InPhase(State(), st, Registered))
               && startups[st].cancelled
      modifies this`startups, this`createTasks, this`slots, this`closeTasks, this`raised, objects.Values
      ensures Sound() && State() == PoolState.RecoverStart(old(State()), st)
    {
      hide Inv, Table, PoolState.RetireAll, Discarded, PoolState.RecoverStart, State;
      RecoverStartInv(State(), st);
      RecoverShape(State(), st);
      AllReturned(State(), st);
      StateTable();
      var tasks := startups[st].tasks;
      Discard(st);
      RetireAll(tasks, Error);
    }

    // ----- leases -----

    method AcquireBegin(kind: Kind, deadline: int) returns (id: nat)
      requires Sound()
      requires kind.Persistent? ==>
                 kind.ticket in tickets && !tickets[kind.ticket].released && !tickets[kind.ticket].used
      modifies this`waiters, this`nextWaiter, this`tickets
      ensures Sound() && id == old(nextWaiter) && State() == PoolState.AcquireBegin(old(State()), kind, deadline)
    {
      hide Inv, Table;
      AcquireBeginInv(State(), kind, deadline);
      id := nextWaiter;
      AddWaiter(Waiter(kind, deadline, failureGeneration, false, false));
      if kind.Persistent? {
        tickets := tickets[kind.ticket := Ticket(false, true)];
      }
    }

    method AddWaiter(w: Waiter)
      modifies this`waiters, this`nextWaiter
      ensures State() == old(State()).(waiters := old(State()).waiters[old(State()).nextWaiter := w],
              nextWaiter := old(State()).nextWaiter + 1)
    {
      hide Table;
      waiters := waiters[nextWaiter := w];
      nextWaiter := nextWaiter + 1;
    }

    method DropWaiter(id: nat)
      modifies this`waiters
      ensures State() == old(State()).(waiters := old(State()).waiters - {id})
    {
      hide Table;
      waiters := waiters - {id};
    }

    method FindHealthy(now: int) returns (r: Option<nat>)
      requires Listed()
      ensures r == FirstHealthy(State(), slots, now)
    {
      hide Table, Healthy;
      for i := 0 to |slots|
        invariant FirstHealthy(State(), slots, now) == FirstHealthy(State(), slots[i..], now)
      {
        assert slots[i..][0] == slots[i] && slots[i..][1..] == slots[i + 1..];
        TableAt(slots[i]);
        if Healthy(cfg, objects[slots[i]].Value(), now) {
          return Some(slots[i]);
        }
      }
      return None;
    }

    method FindSoft() returns (r: Option<nat>)
      requires Listed()
      ensures r == FirstSoft(State(), slots)
    {
      hide Table, SoftAvailable;
      for i := 0 to |slots|
        invariant FirstSoft(State(), slots) == FirstSoft(State(), slots[i..])
      {
        assert slots[i..][0] == slots[i] && slots[i..][1..] == slots[i + 1..];
        TableAt(slots[i]);
        if SoftAvailable(cfg, objects[slots[i]].Value()) {
          return Some(slots[i]);
        }
      }
      return None;
    }

    method AddReservation(s: nat, kind: Kind)
      modifies this`reservations, this`nextReservation
      ensures State() == old(State()).(reservations :=
                                       old(State()).reservations[old(State()).nextReservation :=
                                       Reservation(s, kind, false)],
                                       nextReservation := old(State()).nextReservation + 1)
    {
      hide Table;
      reservations := reservations[nextReservation := Reservation(s, kind, false)];
      nextReservation := nextReservation + 1;
    }

    method TouchSlot(s: nat, now: int)
      requires Valid() && s in objects
      modifies objects[s]
      ensures State() == old(State()).(table := old(State()).table[s := ReservedSlot(cfg, old(State()).table[s], now)])
    {
      hide Table, ReservedSlot;
      TableAt(s);
      objects[s].Reserve(cfg, now);
      SlotChanged(s);
    }

    method CountLease(kind: Kind)
      modifies this`transient
      ensures State() == old(State()).(transient := old(State()).transient + if kind == Transient then 1 else 0)
    {
      hide Table;
      if kind == Transient {
        transient := transient + 1;
      }
    }

    /** `_reserve_slot_unlocked` for a slot with room: the source raises for any other. */
    method Reserve(s: nat, kind: Kind, now: int)
      requires Valid() && s in objects && objects[s].state != Closing && objects[s].activeContexts < cfg.maxContexts
      modifies this`transient, this`reservations, this`nextReservation, objects[s]
      ensures State() == PoolState.Reserve(old(State()), s, kind, now)
    {
      hide Table, ReservedSlot, PoolState.Reserve;
      TableAt(s);
      ReserveShape(State(), s, kind, now);
      TouchSlot(s, now);
      CountLease(kind);
      AddReservation(s, kind);
    }

    method ServeOrPark(id: nat, w: Waiter, now: int, later: int) returns (r: AcquireResult)
      requires Valid() && Listed()
      modifies this`waiters, this`transient, this`reservations, this`nextReservation, this`launches, this`createTasks,
        this`nextLaunch, this`waiting, objects.Values
      ensures (State(), r) == PoolState.ServeOrPark(old(State()), id, w, now, later)
    {
      hide Table, PoolState.Reserve, PoolState.AcquireOrPark, Listed;
      var found := FindHealthy(now);
      if found == None {
        found := FindSoft();
      }
      if found == None {
        r := AcquireOrPark(id, w, later);
      } else {
        TableAt(found.value);
        r := Leased(nextReservation);
        Reserve(found.value, w.kind, now);
        DropWaiter(id);
      }
    }

    /** One section of the retry loop of `_acquire_slot`, with its clock readings. */
    method AcquireTurn(id: nat, now: int, check: int, later: int) returns (r: AcquireResult)
      requires Sound() && id in waiters && !waiters[id].parked
      modifies this`waiters, this`slots, this`closeTasks, this`failedCloses, this`transient, this`reservations,
        this`nextReservation, this`launches, this`createTasks, this`nextLaunch, this`waiting, this`raised,
        objects.Values
      ensures Sound() && (State(), r) == PoolState.AcquireTurn(old(State()), id, now, check, later)
    {
      hide Inv, Table, PoolState.RefreshRecycling, PoolState.ServeOrPark, Listed;
      SoundLists();
      AcquireTurnInv(State(), id, now, check, later);
      var w := waiters[id];
      if closed {
        DropWaiter(id);
        return PoolClosed;
      }
      if now >= w.deadline {
        DropWaiter(id);
        return TimedOut;
      }
      RefreshRecyclingInv(State(), now);
      RefreshRecycling(now);
      SoundLists();
      r := ServeOrPark(id, w, check, later);
    }

    method CountReady() returns (n: nat)
      requires Listed()
      ensures n == |ReadyIds(State())|
    {
      n := 0;
      ghost var seen: set<nat> := {};
      for i := 0 to |slots|
        invariant n == |seen|
        invariant forall s :: s in seen <==> s in slots[..i] && objects[s].state == Ready
      {
        var s := slots[i];
        if objects[s].state == Ready {
          assert s !in slots[..i];
          n, seen := n + 1, seen + {s};
        }
      }
      assert slots[..|slots|] == slots;
      assert seen == ReadyIds(State());
    }

    method Park(id: nat, w: Waiter)
      modifies this`waiters, this`waiting
      ensures State() == old(State()).(waiting := old(State()).waiting + 1, waiters := old(State()).waiters[id := w])
    {
      hide Table;
      waiting := waiting + 1;
      waiters := waiters[id := w];
    }

    /** What is left of the section once no slot could be reserved. */
    method AcquireOrPark(id: nat, w: Waiter, later: int) returns (r: AcquireResult)
      requires Listed()
      modifies this`waiters, this`launches, this`createTasks, this`nextLaunch, this`waiting
      ensures (State(), r) == PoolState.AcquireOrPark(old(State()), id, w, later)
    {
      hide Table, PoolState.StartCreate, ReadyIds, Listed;
      if failureGeneration != w.generation && lastFailure {
        DropWaiter(id);
        return LaunchFailed;
      }
      var ready := CountReady();
      var launch := !w.launched && ready + |createTasks| < cfg.maxBrowsers
                    && Occupied() < cfg.Ceiling() && |watchers| < cfg.Ceiling();
      if launch {
        StartCreate(None);
      }
      if later >= w.deadline {
        DropWaiter(id);
        return TimedOut;
      }
      Park(id, w.(launched := w.launched || launch, parked := true));
      return Parked;
    }

    /** A parked caller stops waiting; `leaves` when it gives up altogether. */
    method Unpark(id: nat, leaves: bool)
      requires Sound() && id in waiters && waiters[id].parked
      modifies this`waiting, this`waiters
      ensures Sound() && State() == PoolState.Unpark(old(State()), id, leaves)
    {
      hide Inv, Table;
      UnparkInv(State(), id, leaves);
      SomeoneWaits(State(), id);
      StopWaiting();
      waiters := if leaves then waiters - {id} else waiters[id := waiters[id].(parked := false)];
    }

    method StopWaiting()
      modifies this`waiting
      ensures State() == old(State()).(waiting := old(State()).waiting - 1)
    {
      hide Table;
      waiting := waiting - 1;
    }

    method GiveBack(r: nat, left: Slot)
      requires Valid() && r in reservations && reservations[r].slot in objects
      requires objects[reservations[r].slot].Value() == left
      modifies this`transient, this`reservations
      ensures State() == GivenBack(old(State()), r, left)
    {
      hide Table;
      TableAt(reservations[r].slot);
      assert Table()[reservations[r].slot := left] == Table();
      if reservations[r].kind == Transient {
        transient := transient - 1;
      }
      reservations := reservations[r := reservations[r].(released := true)];
    }

    method ReleaseTouch(s: nat, discard: bool, reason: Reason, now: int)
      requires Valid() && s in objects
      modifies objects[s]
      ensures State() == old(State()).(table :=
              old(State()).table[s := ReleasedSlot(cfg, old(State()).table[s], discard, reason, now)])
      ensures objects[s].Value() == ReleasedSlot(cfg, old(State()).table[s], discard, reason, now)
    {
      hide Table, ReleasedSlot;
      TableAt(s);
      objects[s].Release(cfg, discard, reason, now);
      SlotChanged(s);
    }

    /** `_release_slot`: a second release of the same reservation does nothing. */
    method ReleaseSlot(r: nat, discard: bool, reason: Reason, now: int)
      requires Sound() && r in reservations
      modifies this`transient, this`reservations, this`slots, this`closeTasks, this`raised, objects.Values
      ensures Sound() && State() == PoolState.ReleaseSlot(old(State()), r, discard, reason, now)
    {
      hide Inv, Table, ReleasedSlot, PoolState.ReleaseSlot, PoolState.ScheduleClose, GivenBack;
      ReleaseInv(State(), r, discard, reason, now);
      if reservations[r].released {
        NothingToRelease(State(), r, discard, reason, now);
        return;
      }
      LiveIsListed(State(), r);
      TableAt(reservations[r].slot);
      ReleaseShape(State(), r, discard, reason, now);
      ReleaseLive(r, discard, reason, now);
    }

    lemma GivenBackTouched(p: Pool, r: nat, left: Slot)
      requires r in p.reservations
      ensures GivenBack(p.(table := p.table[p.reservations[r].slot := left]), r, left) == GivenBack(p, r, left)
    {
    }

    method ReleaseLive(r: nat, discard: bool, reason: Reason, now: int)
      requires Valid() && r in reservations && reservations[r].slot in objects
      modifies this`transient, this`reservations, this`slots, this`closeTasks, this`raised, objects.Values
      ensures var p := old(State());
              var s := p.reservations[r].slot;
              var left := ReleasedSlot(p.cfg, p.table[s], discard, reason, now);
              State() == if left.state == Retiring && left.activeContexts == 0
                         then PoolState.ScheduleClose(GivenBack(p, r, left), s, ReasonOr(left.retireReason))
                             else GivenBack(p, r, left)
    {
      hide Table, ReleasedSlot, PoolState.ScheduleClose, GivenBack, Valid;
      var s := reservations[r].slot;
      ghost var p := State();
      TableAt(s);
      ReleaseTouch(s, discard, reason, now);
      GivenBackTouched(p, r, objects[s].Value());
      GiveBack(r, objects[s].Value());
      if objects[s].state == Retiring && objects[s].activeContexts == 0 {
        ScheduleClose(s, ReasonOr(objects[s].retireReason));
      }
    }

    /** The first section of `create_persistent_context`. */
    method PersistentOpen() returns (ticket: Option<nat>)
      requires Sound()
      modifies this`persistent, this`tickets, this`nextTicket
      ensures Sound() && State() == PoolState.PersistentOpen(old(State()))
      ensures ticket == if PersistentAdmitted(old(State())) then Some(old(nextTicket)) else None
    {
      hide Inv, Table;
      PersistentOpenInv(State());
      if closed || persistent >= cfg.MaxPersistent() {
        return None;
      }
      ticket := Some(nextTicket);
      AddTicket();
      persistent := persistent + 1;
    }

    method AddTicket()
      modifies this`tickets, this`nextTicket
      ensures State() == old(State()).(tickets := old(State()).tickets[old(State()).nextTicket := Ticket(false, false)],
                                       nextTicket := old(State()).nextTicket + 1)
    {
      hide Table;
      tickets := tickets[nextTicket := Ticket(false, false)];
      nextTicket := nextTicket + 1;
    }

    /** `_release_persistent_reservation`; the source raises when the counter would go below zero. */
    method PersistentRelease(k: nat)
      requires Sound() && k in tickets && TicketIdle(State(), k)
      modifies this`persistent, this`tickets
      ensures Sound() && State() == PoolState.PersistentRelease(old(State()), k)
    {
      hide Inv, Table, TicketIdle, Leases;
      PersistentReleaseInv(State(), k);
      if tickets[k].released {
        return;
      }
      HasLeases(State());
      PersistentReleaseLeases(State(), k);
      tickets := tickets[k := tickets[k].(released := true)];
      persistent := persistent - 1;
    }

    // ----- launches ending -----

    /** The factory of launch `t` returns a browser. */
    method LaunchReturns(t: nat, now: int)
      requires Sound() && t in launches && launches[t].outcome == Running
      modifies this`launches, this`objects
      ensures Sound() && State() == PoolState.LaunchReturns(old(State()), t, now)
      ensures fresh(objects.Values - old(objects.Values))
    {
      hide Inv;
      LaunchReturnsInv(State(), t, now);
      AddObject(t, now);
      launches := launches[t := launches[t].(outcome := Returned)];
    }

    method AddObject(t: nat, now: int)
      requires Valid()
      modifies this`objects
      ensures Valid() && State() == old(State()).(table := old(State()).table[t := FreshSlot(now)])
      ensures fresh(objects.Values - old(objects.Values))
    {
      var slot := new BrowserSlot(now);
      objects := objects[t := slot];
      assert Table() == old(Table())[t := FreshSlot(now)];
    }

    method LaunchFails(t: nat)
      requires Sound() && t in launches && launches[t].outcome == Running
      modifies this`launches
      ensures Sound() && State() == PoolState.LaunchFails(old(State()), t)
    {
      hide Inv, Table;
      LaunchFailsInv(State(), t);
      launches := launches[t := launches[t].(outcome := Failed)];
    }

    /** The supervisor of `t` gave up waiting. */
    method SuperviseTimedOut(t: nat)
      requires Sound() && t in launches && launches[t].startup == None
      modifies this`createTasks, this`watchers
      ensures Sound() && State() == PoolState.SuperviseTimedOut(old(State()), t)
    {
      hide Inv, Table, AbandonCreates;
      SuperviseTimedOutInv(State(), t);
      AbandonCreate(t);
    }

    method RecordFailure()
      modifies this`failureGeneration, this`lastFailure
      ensures State() == old(State()).(failureGeneration := old(State()).failureGeneration + 1, lastFailure := true)
    {
      hide Table;
      failureGeneration := failureGeneration + 1;
      lastFailure := true;
    }

    /** The supervisor of `t` saw it finish: a shut pool cannot get here, its launches are abandoned. */
    method SuperviseSettled(t: nat)
      requires Sound() && t in launches && launches[t].startup == None && launches[t].outcome != Running
      modifies this`createTasks, this`failureGeneration, this`lastFailure, this`slots
      ensures Sound() && State() == PoolState.SuperviseSettled(old(State()), t)
    {
      hide Inv, Table, PoolState.FinishCreates;
      SuperviseSettledInv(State(), t);
      if t !in createTasks {
        return;
      }
      InFlightIsOpen(State(), t);
      FinishCreates({t});
      if launches[t].outcome == Failed {
        RecordFailure();
      } else {
        AppendSlots([t]);
      }
    }

    method DropWatcher(t: nat)
      modifies this`watchers
      ensures State() == old(State()).(watchers := old(State()).watchers - {t})
    {
      hide Table;
      watchers := watchers - {t};
    }

    /** `_finish_abandoned_creation`. */
    method WatcherFinished(t: nat)
      requires Sound() && t in watchers && t in launches && launches[t].outcome != Running
      modifies this`watchers, this`slots, this`closeTasks, this`raised, objects.Values
      ensures Sound() && State() == PoolState.WatcherFinished(old(State()), t)
    {
      hide Inv, Table, PoolState.ScheduleClose;
      WatcherFinishedInv(State(), t);
      if launches[t].outcome == Returned {
        ReturnedIsKnown(State(), t);
      }
      StateTable();
      DropWatcher(t);
      if launches[t].outcome == Returned {
        ScheduleClose(t, if closed then Shutdown else Error);
      }
    }

    // ----- closes ending -----

    method ForgetClose(s: nat)
      modifies this`closeTasks, this`failedCloses
      ensures State() == old(State()).(closeTasks := old(State()).closeTasks - {s},
              failedCloses := old(State()).failedCloses - {s})
    {
      hide Table;
      closeTasks := closeTasks - {s};
      failedCloses := failedCloses - {s};
    }

    method AcceptClose(s: nat)
      modifies this`closeTasks, this`failedCloses, this`physicallyClosed, this`accepted
      ensures State() == CloseAccepted(old(State()), s) && failedCloses <= old(failedCloses)
    {
      hide Table;
      ForgetClose(s);
      physicallyClosed := physicallyClosed - {s};
      accepted := accepted + {s};
    }

    method CountFailure(s: nat, now: int)
      requires Valid() && s in objects
      modifies objects[s]
      ensures var slot := old(State()).table[s];
              State() == old(State()).(table := old(State()).table[s := slot.(
                closeFailures := slot.closeFailures + 1, nextCloseRetryAt := now + Backoff(slot.closeFailures + 1))])
    {
      hide Table, Backoff;
      TableAt(s);
      objects[s].CloseFailed(now);
      SlotChanged(s);
    }

    method EndAttempt(s: nat)
      modifies this`closeTasks, this`failedCloses
      ensures State() == old(State()).(closeTasks := old(State()).closeTasks - {s},
              failedCloses := old(State()).failedCloses + {s})
      ensures failedCloses == old(failedCloses) + {s}
    {
      hide Table;
      closeTasks, failedCloses := closeTasks - {s}, failedCloses + {s};
    }

    lemma CountedThenRefused(p: Pool, s: nat, now: int)
      requires s in p.table
      ensures var slot := p.table[s];
              var counted := slot.(closeFailures := slot.closeFailures + 1,
                  nextCloseRetryAt := now + Backoff(slot.closeFailures + 1));
              var m := p.(table := p.table[s := counted]);
              CloseRefused(p, s, now) == m.(closeTasks := m.closeTasks - {s}, failedCloses := m.failedCloses + {s})
    {
      hide Backoff;
    }

    method RefuseClose(s: nat, now: int)
      requires Valid() && s in objects
      modifies this`closeTasks, this`failedCloses, objects[s]
      ensures State() == CloseRefused(old(State()), s, now) && failedCloses <= old(failedCloses) + {s}
    {
      hide Table, Backoff, Valid, CloseRefused;
      TableAt(s);
      CountedThenRefused(State(), s, now);
      CountFailure(s, now);
      EndAttempt(s);
    }

    method SettleClose(s: nat, succeeded: bool, saysClosed: bool, now: int)
      requires Valid() && Listed() && s in objects
      modifies this`closeTasks, this`failedCloses, this`physicallyClosed, this`accepted, objects[s]
      ensures var p := old(State());
              State() == if succeeded || s in p.physicallyClosed || saysClosed then CloseAccepted(p, s)
                  else CloseRefused(p, s, now)
      ensures Listed()
    {
      hide Table, CloseAccepted, CloseRefused, State;
      StateTable();
      if succeeded || s in physicallyClosed || saysClosed {
        AcceptClose(s);
      } else {
        RefuseClose(s, now);
      }
    }

    /** `_finish_close_slot_unlocked`. */
    method FinishClose(s: nat, succeeded: bool, saysClosed: bool, now: int)
      requires Sound() && s in closeTasks
      modifies this`closeTasks, this`failedCloses, this`physicallyClosed, this`accepted, this`launches,
        this`createTasks, this`nextLaunch, objects.Values
      ensures Sound() && State() == PoolState.FinishClose(old(State()), s, succeeded, saysClosed, now)
    {
      hide Inv, Table, CloseAccepted, CloseRefused, PoolState.Replenish, State, Listed;
      StateTable();
      FinishCloseInv(State(), s, succeeded, saysClosed, now);
      ClosingIsKnown(State(), s);
      SoundLists();
      SettleClose(s, succeeded, saysClosed, now);
      Replenish(now);
    }

    /** A close task dies before it could publish anything. */
    method CloseAborted(s: nat)
      requires Sound() && CloseRunning(State(), s)
      modifies this`abortedCloses
      ensures Sound() && State() == PoolState.CloseAborted(old(State()), s)
    {
      hide Inv, Table;
      R.CloseAbortedInv(State(), s);
      abortedCloses := abortedCloses + {(s, closeTasks[s])};
    }

    /** `_reconcile_aborted_close_task` for attempt `attempt` of closing `s`. */
    method ReconcileAborted(s: nat, attempt: nat, saysClosed: bool, now: int)
      requires Sound() && (s, attempt) in abortedCloses
      modifies this`closeTasks, this`failedCloses, this`physicallyClosed, this`accepted, this`launches,
        this`createTasks, this`nextLaunch, objects.Values
      ensures Sound() && State() == PoolState.ReconcileAborted(old(State()), s, attempt, saysClosed, now)
    {
      hide Inv, Table, PoolState.FinishClose;
      if s in closeTasks && closeTasks[s] == attempt {
        FinishClose(s, false, saysClosed, now);
      }
    }

    /** The close of the browser process itself finished. */
    method PhysicalCloseFinished(s: nat)
      requires Sound() && s in objects && objects[s].state == Closing
      modifies this`physicallyClosed
      ensures Sound() && State() == PoolState.PhysicalCloseFinished(old(State()), s)
    {
      hide Inv, Table;
      TableAt(s);
      R.PhysicalCloseFinishedInv(State(), s);
      physicallyClosed := physicallyClosed + {s};
    }

    /** `_reconcile_late_physical_close`: a close task still running will publish for itself. */
    method LateReconcile(s: nat)
      requires Sound() && s in objects && objects[s].state == Closing
      modifies this`failedCloses, this`physicallyClosed, this`accepted
      ensures Sound() && State() == PoolState.LateReconcile(old(State()), s)
    {
      hide Inv, Table;
      TableAt(s);
      LateReconcileInv(State(), s);
      if s in closeTasks && (s, closeTasks[s]) !in abortedCloses {
        return;
      }
      Reap(s);
    }

    method Reap(s: nat)
      modifies this`failedCloses, this`physicallyClosed, this`accepted
      ensures var p := old(State());
              State() == p.(failedCloses := p.failedCloses - {s}, physicallyClosed := p.physicallyClosed - {s},
                            accepted := if s in p.failedCloses then p.accepted + {s} else p.accepted)
    {
      hide Table;
      if s in failedCloses {
        accepted := accepted + {s};
      }
      failedCloses := failedCloses - {s};
      physicallyClosed := physicallyClosed - {s};
    }

    method BrowserDies(s: nat)
      requires Sound() && s in objects
      modifies objects[s]
      ensures Sound() && State() == PoolState.BrowserDies(old(State()), s)
    {
      hide Inv, Table;
      TableAt(s);
      BrowserDiesInv(State(), s);
      objects[s].connected := false;
      SlotChanged(s);
    }
  }

  lemma RetriedOne(table: map<nat, Slot>, closeTasks: map<nat, nat>, failed: set<nat>, s: nat)
    requires s in table
    ensures s in closeTasks ==>
              RetriedTasks(table, closeTasks, {s}) == closeTasks && StillFailed(closeTasks, failed, {s}) == failed
    ensures s !in closeTasks ==>
              && RetriedTasks(table, closeTasks, {s}) == closeTasks[s := table[s].closeFailures]
              && StillFailed(closeTasks, failed, {s}) == failed - {s}
  {
  }

  lemma RetriedMore(table: map<nat, Slot>, closeTasks: map<nat, nat>, failed: set<nat>, done: set<nat>, s: nat)
    requires s !in done && s in table
    ensures var q := RetriedTasks(table, closeTasks, done);
            && RetriedTasks(table, q, {s}) == RetriedTasks(table, closeTasks, done + {s})
            && StillFailed(q, StillFailed(closeTasks, failed, done), {s}) == StillFailed(closeTasks, failed, done + {s})
  {
  }

  lemma RetryNone(p: Pool)
    ensures RetryCloses(p, {}) == p
  {
    assert RetriedTasks(p.table, p.closeTasks, {}) == p.closeTasks by {
      assert forall s :: s in p.closeTasks <==> s in RetriedTasks(p.table, p.closeTasks, {});
    }
    assert StillFailed(p.closeTasks, p.failedCloses, {}) == p.failedCloses;
  }

  lemma RetryMore(p: Pool, done: set<nat>, s: nat)
    requires s !in done && s in p.table
    ensures RetryCloses(RetryCloses(p, done), {s}) == RetryCloses(p, done + {s})
  {
    hide RetriedTasks, StillFailed;
    RetriedMore(p.table, p.closeTasks, p.failedCloses, done, s);
  }

  lemma AbandonNone(p: Pool)
    ensures AbandonCreates(p, {}) == p
  {
    var none: set<nat> := {};
    assert (set t | t in none && t in p.createTasks && t !in p.watchers) == none;
    assert p.createTasks - none == p.createTasks && p.watchers + none == p.watchers;
  }

  lemma AbandonMore(p: Pool, done: set<nat>, t: nat)
    ensures AbandonCreates(AbandonCreates(p, done), {t}) == AbandonCreates(p, done + {t})
  {
    var q := AbandonCreates(p, done);
    var r := AbandonCreates(q, {t});
    var u := AbandonCreates(p, done + {t});
    assert r.createTasks == u.createTasks;
    assert r.watchers == u.watchers;
  }

  lemma ReturnedSame(p: Pool, q: Pool, tasks: seq<nat>, done: set<nat>)
    requires p.table.Keys == q.table.Keys
    ensures ReturnedOf(p, tasks, done) == ReturnedOf(q, tasks, done)
  {
  }

  lemma SomeoneWaits(p: Pool, id: nat)
    requires Inv(p) && id in p.waiters && p.waiters[id].parked
    ensures p.waiting > 0
  {
    hide Held, StartupsSound, Attended, Draining, Ticketed;
    assert id in ParkedWaiters(p.waiters);
  }

  lemma InFlightIsOpen(p: Pool, t: nat)
    requires Inv(p) && t in p.createTasks
    ensures !p.closed
  {
    hide Core, StartupsSound, Attended;
  }

  lemma ReturnedIsKnown(p: Pool, t: nat)
    requires Inv(p) && t in p.launches && p.launches[t].outcome == Returned
    ensures t in p.table
  {
    InvParts(p);
    hide Inv, Held, OpenOwned, ClosingOwned, Draining, Attended, TasksKnown, SlotsKnown, Leases, StartupsSound;
  }
}
