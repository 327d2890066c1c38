/** The state of the browser pool (camouflare/pool.py) and its atomic critical sections.

    Every `async with self._condition` body of the pool runs without awaiting, so each is one
    function from state to state here; which section runs next, and how every launch, close and
    cancellation ends, is left to the environment (module PoolRuns).

    A browser slot is named by the launch that produced it: a launch returns at most one browser.
    The defensive `RuntimeError`s of the source set the field `raised`. */
module PoolState {
  import opened Basics

  datatype Reason = MaxUses | MaxAge | Disconnected | Error | Shutdown | Other

  datatype SlotState = Ready | Retiring | Closing

  /** A `BrowserSlot`. `recycles` counts the recycles recorded in the metrics. */
  datatype Slot = Slot(
    createdAt: int,
    connected: bool,
    activeContexts: int,
    uses: nat,
    state: SlotState,
    retireReason: Option<Reason>,
    recycleRecorded: bool,
    recycles: nat,
    closeFailures: nat,
    nextCloseRetryAt: int)

  /** The two kinds of lease; a persistent one belongs to a `_PersistentReservation`. */
  datatype Kind = Transient | Persistent(ticket: nat)

  /** A `_SlotReservation`. */
  datatype Reservation = Reservation(slot: nat, kind: Kind, released: bool)

  /** A `_PersistentReservation`; `used` once its slot acquisition has begun. */
  datatype Ticket = Ticket(released: bool, used: bool)

  datatype Outcome = Running | Returned | Failed

  /** A launch task, owned by one startup or (None) by its own supervisor. */
  datatype Launch = Launch(startup: Option<nat>, outcome: Outcome)

  /** `Deserted`: cancelled again before its cleanup got the lock, so that nobody waits for its launches. */
  datatype Phase = Waiting | Registering | Registered | Finished | Deserted

  /** One run of `_start_once`: its tasks, how far it got, and the cancellation flag that its
      registration task reads. */
  datatype Startup = Startup(tasks: seq<nat>, phase: Phase, cancelled: bool)

  /** The locals of one `_acquire_slot` call between two of its critical sections. */
  datatype Waiter = Waiter(kind: Kind, deadline: int, generation: nat, launched: bool, parked: bool)

  datatype Config = Config(
    minBrowsers: nat,
    maxBrowsers: nat,
    maxContexts: nat,
    maxUses: int,
    maxAge: int,
    reservedTransient: nat)
  {
    /** `_max_abandoned_creations` and `_max_physical_generations`. */
    function Ceiling(): nat {
      if maxBrowsers * 2 > 1 then maxBrowsers * 2 else 1
    }

    /** `_max_persistent_contexts`. */
    function MaxPersistent(): nat {
      var total := maxBrowsers * maxContexts;
      if total > reservedTransient then total - reservedTransient else 0
    }
  }

  const MAX_CLOSE_RETRIES: nat := 3
  const CLOSE_RETRY_MAX_BACKOFF_SECONDS: int := 60

  datatype Pool = Pool(
    cfg: Config,
    table: map<nat, Slot>,
    slots: seq<nat>,
    launches: map<nat, Launch>,
    createTasks: set<nat>,
    watchers: set<nat>,
    closeTasks: map<nat, nat>,
    abortedCloses: set<(nat, nat)>,
    failedCloses: set<nat>,
    physicallyClosed: set<nat>,
    accepted: set<nat>,
    transient: int,
    persistent: int,
    waiting: int,
    reservations: map<nat, Reservation>,
    tickets: map<nat, Ticket>,
    waiters: map<nat, Waiter>,
    startups: map<nat, Startup>,
    failureGeneration: nat,
    lastFailure: bool,
    started: bool,
    starting: bool,
    closed: bool,
    raised: bool,
    nextLaunch: nat,
    nextReservation: nat,
    nextTicket: nat,
    nextWaiter: nat,
    nextStartup: nat)

  function NewPool(cfg: Config): Pool {
    Pool(cfg, map[], [], map[], {}, {}, map[], {}, {}, {}, {}, 0, 0, 0, map[], map[], map[], map[],
         0, false, false, false, false, false, 0, 0, 0, 0, 0)
  }

  function FreshSlot(now: int): Slot {
    Slot(now, true, 0, 0, Ready, None, false, 0, 0, 0)
  }

  // ----- small pieces -----

  predicate Distinct(xs: seq<nat>) {
    forall i, j :: 0 <= i < j < |xs| ==> xs[i] != xs[j]
  }

  function Elements(xs: seq<nat>): set<nat> {
    set x | x in xs
  }

  /** `list.remove`: the first occurrence goes. */
  function Without(xs: seq<nat>, x: nat): seq<nat> {
    if xs == [] then []
    else if xs[0] == x then xs[1..]
    else [xs[0]] + Without(xs[1..], x)
  }

  predicate IsSoft(reason: Option<Reason>) {
    reason == Some(MaxUses) || reason == Some(MaxAge)
  }

  function RecycleReason(cfg: Config, slot: Slot, now: int): Reason {
    if slot.uses >= cfg.maxUses then MaxUses
    else if now - slot.createdAt >= cfg.maxAge then MaxAge
    else Other
  }

  predicate ShouldRecycle(cfg: Config, slot: Slot, now: int) {
    RecycleReason(cfg, slot, now) != Other
  }

  predicate Healthy(cfg: Config, slot: Slot, now: int) {
    slot.state == Ready && slot.activeContexts < cfg.maxContexts && !ShouldRecycle(cfg, slot, now)
  }

  predicate SoftAvailable(cfg: Config, slot: Slot) {
    slot.state == Retiring && 0 < slot.activeContexts < cfg.maxContexts && IsSoft(slot.retireReason)
  }

  function ReadyIds(p: Pool): set<nat> {
    set s | s in p.slots && s in p.table && p.table[s].state == Ready
  }

  function HealthyIds(p: Pool, now: int): set<nat> {
    set s | s in p.slots && s in p.table && p.table[s].state == Ready
            && !ShouldRecycle(p.cfg, p.table[s], now)
  }

  function Usable(p: Pool): int {
    |ReadyIds(p)| + |p.createTasks|
  }

  function Physical(p: Pool): int {
    |p.slots| + |p.createTasks| + |p.watchers| + |p.closeTasks| + |p.failedCloses|
  }

  // ----- retiring and closing one slot -----

  function Retired(slot: Slot, reason: Reason): Slot {
    if slot.state == Closing then slot
    else slot.(
      state := Retiring,
      retireReason := if slot.retireReason == None || !IsSoft(Some(reason)) then Some(reason)
                      else slot.retireReason,
      recycles := if slot.recycleRecorded then slot.recycles else slot.recycles + 1,
      recycleRecorded := true)
  }

  function MarkRetiring(p: Pool, s: nat, reason: Reason): Pool {
    if s !in p.table then p else p.(table := p.table[s := Retired(p.table[s], reason)])
  }

  function ScheduleClose(p: Pool, s: nat, reason: Reason): Pool {
    if s !in p.table || p.table[s].state == Closing then p
    else if p.table[s].activeContexts != 0 then p.(raised := true)
    else
      var slot := Retired(p.table[s], reason).(state := Closing);
      p.(table := p.table[s := slot],
         slots := Without(p.slots, s),
         closeTasks := p.closeTasks[s := slot.closeFailures])
  }

  lemma ScheduleCloseShape(p: Pool, s: nat, reason: Reason)
    requires s in p.table && p.table[s].state != Closing && p.table[s].activeContexts == 0
    ensures var slot := Retired(p.table[s], reason).(state := Closing);
            ScheduleClose(p, s, reason)
            == p.(table := p.table[s := slot], slots := Without(p.slots, s),
                closeTasks := p.closeTasks[s := slot.closeFailures])
  {
  }

  lemma ScheduleCloseIdle(p: Pool, s: nat, reason: Reason)
    ensures s !in p.table || p.table[s].state == Closing ==> ScheduleClose(p, s, reason) == p
    ensures s in p.table && p.table[s].state != Closing && p.table[s].activeContexts != 0 ==>
              ScheduleClose(p, s, reason) == p.(raised := true)
  {
    hide Without, Retired;
  }

  /** `_schedule_close_unlocked` for each slot in turn. */
  function CloseAll(p: Pool, todo: seq<nat>, reason: Reason): Pool
    decreases |todo|
  {
    if todo == [] then p
    else CloseAll(ScheduleClose(p, todo[0], reason), todo[1..], reason)
  }

  /** Retire each slot and close those without a context: `quiesce`, `close` and recovery. */
  function RetireOne(p: Pool, s: nat, reason: Reason): Pool {
    if s !in p.table then p
    else if p.table[s].activeContexts == 0 then ScheduleClose(MarkRetiring(p, s, reason), s, reason)
    else MarkRetiring(p, s, reason)
  }

  function RetireAll(p: Pool, todo: seq<nat>, reason: Reason): Pool
    decreases |todo|
  {
    if todo == [] then p else RetireAll(RetireOne(p, todo[0], reason), todo[1..], reason)
  }

  // ----- refresh, failed-close retries, replenishment -----

  function ReasonOr(reason: Option<Reason>): Reason {
    if reason == None then Other else reason.value
  }

  /** What a refresh makes of one slot before it looks whether to close it. */
  function RefreshedSlot(cfg: Config, slot: Slot, now: int): Slot {
    var checked := if slot.state != Closing && !slot.connected then Retired(slot, Disconnected) else slot;
    if checked.state == Ready && ShouldRecycle(cfg, checked, now)
    then Retired(checked, RecycleReason(cfg, checked, now)) else checked
  }

  function RefreshMark(p: Pool, s: nat, now: int): Pool {
    if s !in p.table then p else p.(table := p.table[s := RefreshedSlot(p.cfg, p.table[s], now)])
  }

  function RefreshOne(p: Pool, s: nat, now: int): Pool {
    var q := RefreshMark(p, s, now);
    if s in q.table && q.table[s].state == Retiring && q.table[s].activeContexts == 0
    then ScheduleClose(q, s, ReasonOr(q.table[s].retireReason)) else q
  }

  function RefreshAll(p: Pool, todo: seq<nat>, now: int): Pool
    decreases |todo|
  {
    if todo == [] then p else RefreshAll(RefreshOne(p, todo[0], now), todo[1..], now)
  }

  function RetryEligible(p: Pool, now: int): set<nat> {
    set s | s in p.failedCloses && s in p.table && p.table[s].closeFailures < MAX_CLOSE_RETRIES
            && now >= p.table[s].nextCloseRetryAt
  }

  function RetriedTasks(table: map<nat, Slot>, closeTasks: map<nat, nat>, retry: set<nat>): map<nat, nat> {
    closeTasks + (map s | s in retry && s in table && s !in closeTasks :: table[s].closeFailures)
  }

  function StillFailed(closeTasks: map<nat, nat>, failedCloses: set<nat>, retry: set<nat>): set<nat> {
    failedCloses - (set s | s in retry && s !in closeTasks)
  }

  /** `_schedule_failed_close_retry_unlocked` for each slot of `retry`. */
  function RetryCloses(p: Pool, retry: set<nat>): Pool {
    p.(closeTasks := RetriedTasks(p.table, p.closeTasks, retry),
       failedCloses := StillFailed(p.closeTasks, p.failedCloses, retry))
  }

  function RefreshRecycling(p: Pool, now: int): Pool {
    var q := RefreshAll(p, p.slots, now);
    RetryCloses(q, RetryEligible(q, now))
  }

  function StartCreate(p: Pool, startup: Option<nat>): Pool {
    p.(launches := p.launches[p.nextLaunch := Launch(startup, Running)],
       createTasks := p.createTasks + {p.nextLaunch},
       nextLaunch := p.nextLaunch + 1)
  }

  function LaunchMany(p: Pool, count: int, startup: Option<nat>): Pool
    decreases count
  {
    if count <= 0 then p else LaunchMany(StartCreate(p, startup), count - 1, startup)
  }

  predicate MayReplenish(p: Pool) {
    !p.starting && p.started && !p.closed && p.waiting <= 0
  }

  function Missing(p: Pool, now: int): int {
    p.cfg.minBrowsers - |HealthyIds(p, now)| - |p.createTasks|
  }

  function Replenish(p: Pool, now: int): Pool {
    if !MayReplenish(p) || |p.watchers| >= p.cfg.Ceiling() then p
    else LaunchMany(p, Min(Missing(p, now), p.cfg.maxBrowsers - Physical(p)), None)
  }

  // ----- launches -----

  /** `_finish_create_task_unlocked` for each task. */
  function FinishCreates(p: Pool, tasks: set<nat>): Pool {
    p.(createTasks := p.createTasks - tasks)
  }

  /** `_abandon_create_task_unlocked` for each task. */
  function AbandonCreates(p: Pool, tasks: set<nat>): Pool {
    var moved := set t | t in tasks && t in p.createTasks && t !in p.watchers;
    p.(createTasks := p.createTasks - moved, watchers := p.watchers + moved)
  }

  function LaunchReturns(p: Pool, t: nat, now: int): Pool {
    if t in p.launches && p.launches[t].outcome == Running
    then p.(launches := p.launches[t := p.launches[t].(outcome := Returned)],
            table := p.table[t := FreshSlot(now)])
    else p
  }

  function LaunchFails(p: Pool, t: nat): Pool {
    if t in p.launches && p.launches[t].outcome == Running
    then p.(launches := p.launches[t := p.launches[t].(outcome := Failed)])
    else p
  }

  /** The supervisor of `task` gave up waiting. */
  function SuperviseTimedOut(p: Pool, t: nat): Pool {
    if t in p.launches && p.launches[t].startup == None then AbandonCreates(p, {t}) else p
  }

  /** The supervisor of `task` saw it finish. */
  function SuperviseSettled(p: Pool, t: nat): Pool {
    if t !in p.launches || p.launches[t].startup != None || t !in p.createTasks then p
    else match p.launches[t].outcome
      case Running => p
      case Failed =>
        FinishCreates(p, {t}).(failureGeneration := p.failureGeneration + 1, lastFailure := true)
      case Returned =>
        var q := FinishCreates(p, {t});
        if p.closed then ScheduleClose(q, t, Shutdown) else q.(slots := q.slots + [t])
  }

  /** The watcher of an abandoned launch saw it finish. */
  function WatcherFinished(p: Pool, t: nat): Pool {
    if t !in p.watchers || t !in p.launches || p.launches[t].outcome == Running then p
    else
      var q := p.(watchers := p.watchers - {t});
      if p.launches[t].outcome == Returned
      then ScheduleClose(q, t, if p.closed then Shutdown else Error) else q
  }

  // ----- startup -----

  datatype StartResult = Started | AlreadyStarted | StartClosed | Quarantined

  function StartOnceResult(p: Pool): StartResult {
    if p.started then AlreadyStarted
    else if p.closed then StartClosed
    else if Physical(p) + p.cfg.minBrowsers > p.cfg.Ceiling() then Quarantined
    else Started
  }

  function Fresh(from: nat, count: nat): (tasks: seq<nat>)
    ensures |tasks| == count
    ensures forall i :: 0 <= i < count ==> tasks[i] == from + i
  {
    seq(count, i requires 0 <= i => from + i)
  }

  function StartOnce(p: Pool): Pool {
    if StartOnceResult(p) != Started then p
    else if p.cfg.minBrowsers == 0 then p.(started := true, starting := false)
    else
      var q := p.(started := true, starting := true, nextStartup := p.nextStartup + 1,
                  startups := p.startups[p.nextStartup :=
                                           Startup(Fresh(p.nextLaunch, p.cfg.minBrowsers), Waiting, false)]);
      LaunchMany(q, p.cfg.minBrowsers, Some(p.nextStartup))
  }

  function SetPhase(p: Pool, st: nat, phase: Phase): Pool {
    if st !in p.startups then p
    else p.(startups := p.startups[st := p.startups[st].(phase := phase)])
  }

  predicate InPhase(p: Pool, st: nat, phase: Phase) {
    st in p.startups && p.startups[st].phase == phase
  }

  /** Waiting for the launches was interrupted: every launch is abandoned. */
  function StartupAborted(p: Pool, st: nat): Pool {
    if !InPhase(p, st, Waiting) then p
    else
      var q := AbandonCreates(SetPhase(p, st, Finished), Elements(p.startups[st].tasks));
      q.(started := p.started && p.closed, starting := false)
  }

  /** A second cancellation reaches the startup while its cleanup waits for the pool's lock: the cleanup
      never runs, and the launches and flags stay as they are. */
  function StartupDeserted(p: Pool, st: nat): Pool {
    if !InPhase(p, st, Waiting) then p else SetPhase(p, st, Deserted)
  }

  function ReturnedOf(p: Pool, tasks: seq<nat>, done: set<nat>): seq<nat> {
    if tasks == [] then []
    else if tasks[0] in done && tasks[0] in p.table then [tasks[0]] + ReturnedOf(p, tasks[1..], done)
    else ReturnedOf(p, tasks[1..], done)
  }

  /** The wait ended with `done` finished, and something pending or failed. */
  function StartupFailed(p: Pool, st: nat, done: set<nat>): Pool {
    if !InPhase(p, st, Waiting) then p
    else
      var tasks := p.startups[st].tasks;
      var finished := set t | t in tasks && t in done && t in p.launches && p.launches[t].outcome != Running;
      if finished == Elements(tasks) && (forall t :: t in tasks ==> t in p.table) then p
      else
        var q := FinishCreates(SetPhase(p, st, Finished), finished);
        var r := AbandonCreates(q, Elements(tasks) - finished);
        var s := CloseAll(r, ReturnedOf(p, tasks, finished), Error);
        s.(started := p.started && p.closed, starting := false)
  }

  /** Every launch returned a browser; `order` is the order they will be appended in. */
  function StartupCompleted(p: Pool, st: nat, order: seq<nat>): Pool {
    if !InPhase(p, st, Waiting) then p
    else
      var tasks := p.startups[st].tasks;
      if Elements(order) == Elements(tasks) && Distinct(order)
         && (forall t :: t in tasks ==> t in p.table)
      then p.(startups := p.startups[st := Startup(order, Registering, p.startups[st].cancelled)])
      else p
  }

  function RegisterStarted(p: Pool, st: nat): Pool {
    if !InPhase(p, st, Registering) then p
    else
      var tasks := p.startups[st].tasks;
      var q := FinishCreates(SetPhase(p, st, Finished), Elements(tasks));
      var r := if p.closed || p.startups[st].cancelled
               then CloseAll(q, tasks, if p.closed then Shutdown else Error)
               else q.(slots := q.slots + tasks);
      SetPhase(r, st, Registered)
  }

  /** The startup resumes after an undisturbed registration. */
  function StartupReturned(p: Pool, st: nat): Pool {
    if !InPhase(p, st, Registered) || p.startups[st].cancelled then p
    else SetPhase(p, st, Finished).(starting := false)
  }

  /** The startup is cancelled while its registration task is owed or done. */
  function StartupCancelled(p: Pool, st: nat): Pool {
    if !(InPhase(p, st, Registering) || InPhase(p, st, Registered)) || p.startups[st].cancelled then p
    else p.(startups := p.startups[st := p.startups[st].(cancelled := true)],
            started := false, starting := false)
  }

  /** Recovery after the registration task ended, whether or not it ever ran. */
  function RecoverStart(p: Pool, st: nat): Pool {
    if !(InPhase(p, st, Registering) || InPhase(p, st, Registered)) || !p.startups[st].cancelled then p
    else
      var tasks := p.startups[st].tasks;
      var q := FinishCreates(SetPhase(p, st, Finished), Elements(tasks));
      RetireAll(q, tasks, Error)
  }

  // ----- maintenance and shutdown -----

  function Refresh(p: Pool, now: int): Pool {
    if !p.started || p.closed then p else RefreshRecycling(p, now)
  }

  function Maintain(p: Pool, now: int): Pool {
    if !p.started || p.closed then p else Replenish(RefreshRecycling(p, now), now)
  }

  function Quiesce(p: Pool): Pool {
    var q := AbandonCreates(p.(closed := true), p.createTasks);
    RetireAll(q, q.slots, Shutdown)
  }

  /** The first critical section of `close`; a no-op once everything has drained. */
  function CloseBegin(p: Pool): Pool {
    var q := AbandonCreates(p.(closed := true), p.createTasks);
    var r := RetryCloses(q, q.failedCloses);
    RetireAll(r, r.slots, Shutdown)
  }

  // ----- leases -----

  datatype AcquireResult = Leased(reservation: nat) | PoolClosed | TimedOut | LaunchFailed | Parked

  function FirstHealthy(p: Pool, todo: seq<nat>, now: int): (r: Option<nat>)
    ensures r.Some? ==> r.value in todo && r.value in p.table && Healthy(p.cfg, p.table[r.value], now)
    ensures r == None ==> forall s :: s in todo && s in p.table ==> !Healthy(p.cfg, p.table[s], now)
  {
    if todo == [] then None
    else if todo[0] in p.table && Healthy(p.cfg, p.table[todo[0]], now) then Some(todo[0])
    else FirstHealthy(p, todo[1..], now)
  }

  function FirstSoft(p: Pool, todo: seq<nat>): (r: Option<nat>)
    ensures r.Some? ==> r.value in todo && r.value in p.table && SoftAvailable(p.cfg, p.table[r.value])
    ensures r == None ==> forall s :: s in todo && s in p.table ==> !SoftAvailable(p.cfg, p.table[s])
  {
    if todo == [] then None
    else if todo[0] in p.table && SoftAvailable(p.cfg, p.table[todo[0]]) then Some(todo[0])
    else FirstSoft(p, todo[1..])
  }

  function Reserve(p: Pool, s: nat, kind: Kind, now: int): Pool {
    if s !in p.table || p.table[s].state == Closing || p.table[s].activeContexts >= p.cfg.maxContexts
    then p.(raised := true)
    else
      var slot := p.table[s].(activeContexts := p.table[s].activeContexts + 1, uses := p.table[s].uses + 1);
      var used := if slot.state == Ready && ShouldRecycle(p.cfg, slot, now)
                  then Retired(slot, RecycleReason(p.cfg, slot, now)) else slot;
      p.(table := p.table[s := used],
         transient := if kind == Transient then p.transient + 1 else p.transient,
         reservations := p.reservations[p.nextReservation := Reservation(s, kind, false)],
         nextReservation := p.nextReservation + 1)
  }

  /** A call of `_acquire_slot` begins; it enters the pool's lock later. */
  function AcquireBegin(p: Pool, kind: Kind, deadline: int): Pool {
    if kind.Persistent? && (kind.ticket !in p.tickets || p.tickets[kind.ticket].released || p.tickets[kind.ticket].used)
    then p
    else
      var w := Waiter(kind, deadline, p.failureGeneration, false, false);
      p.(waiters := p.waiters[p.nextWaiter := w],
         nextWaiter := p.nextWaiter + 1,
         tickets := if kind.Persistent? then p.tickets[kind.ticket := Ticket(false, true)] else p.tickets)
  }

  predicate MayLaunch(p: Pool, w: Waiter) {
    !w.launched && Usable(p) < p.cfg.maxBrowsers && Physical(p) < p.cfg.Ceiling()
    && |p.watchers| < p.cfg.Ceiling()
  }

  /** What is left of the section once no slot could be reserved. */
  function AcquireOrPark(p: Pool, id: nat, w: Waiter, later: int): (Pool, AcquireResult) {
    if p.failureGeneration != w.generation && p.lastFailure then (p.(waiters := p.waiters - {id}), LaunchFailed)
    else
      var launch := MayLaunch(p, w);
      var q := if launch then StartCreate(p, None) else p;
      if later >= w.deadline then (q.(waiters := q.waiters - {id}), TimedOut)
      else (q.(waiting := q.waiting + 1,
               waiters := q.waiters[id := w.(launched := w.launched || launch, parked := true)]), Parked)
  }

  /** The refreshed pool serves the caller: a healthy slot first, then a softly retired one in use. */
  function ServeOrPark(p: Pool, id: nat, w: Waiter, now: int, later: int): (Pool, AcquireResult) {
    var healthy := FirstHealthy(p, p.slots, now);
    var found := if healthy.Some? then healthy else FirstSoft(p, p.slots);
    if found.Some? then (Reserve(p, found.value, w.kind, now).(waiters := p.waiters - {id}), Leased(p.nextReservation))
    else AcquireOrPark(p, id, w, later)
  }

  /** One critical section of the retry loop of `_acquire_slot`, with its clock readings: `now` for the
      refresh, `check` for the choice of a slot, `later` for the time left. */
  function AcquireTurn(p: Pool, id: nat, now: int, check: int, later: int): (Pool, AcquireResult)
    requires id in p.waiters
  {
    var w := p.waiters[id];
    var gone := p.waiters - {id};
    if p.closed then (p.(waiters := gone), PoolClosed)
    else if now >= w.deadline then (p.(waiters := gone), TimedOut)
    else ServeOrPark(RefreshRecycling(p, now), id, w, check, later)
  }

  /** The `finally` around the wait of a parked caller. */
  function StopWaiting(p: Pool, id: nat): Pool
    requires id in p.waiters
  {
    if !p.waiters[id].parked then p
    else if p.waiting <= 0 then p.(raised := true)
    else p.(waiting := p.waiting - 1)
  }

  /** A parked caller stops waiting: notified (and it will take another turn), timed out, or cancelled. */
  function Unpark(p: Pool, id: nat, leaves: bool): Pool {
    if id !in p.waiters then p
    else
      var q := StopWaiting(p, id);
      if leaves then q.(waiters := p.waiters - {id})
      else q.(waiters := p.waiters[id := p.waiters[id].(parked := false)])
  }

  function ReleaseSlot(p: Pool, r: nat, discard: bool, reason: Reason, now: int): Pool {
    if r !in p.reservations || p.reservations[r].released then p
    else
      var s := p.reservations[r].slot;
      if s !in p.table || p.table[s].activeContexts <= 0 then p.(raised := true)
      else if p.reservations[r].kind == Transient && p.transient <= 0 then p.(raised := true)
      else
        var slot := p.table[s].(activeContexts := p.table[s].activeContexts - 1);
        var left := if discard then Retired(slot, reason)
                    else if ShouldRecycle(p.cfg, slot, now) then Retired(slot, RecycleReason(p.cfg, slot, now))
                    else slot;
        var q := p.(table := p.table[s := left],
                    transient := if p.reservations[r].kind == Transient then p.transient - 1 else p.transient,
                    reservations := p.reservations[r := p.reservations[r].(released := true)]);
        if left.state == Retiring && left.activeContexts == 0
        then ScheduleClose(q, s, ReasonOr(left.retireReason)) else q
  }

  predicate PersistentAdmitted(p: Pool) {
    !p.closed && p.persistent < p.cfg.MaxPersistent()
  }

  /** The first section of `create_persistent_context`. */
  function PersistentOpen(p: Pool): Pool {
    if !PersistentAdmitted(p) then p
    else p.(persistent := p.persistent + 1,
            tickets := p.tickets[p.nextTicket := Ticket(false, false)],
            nextTicket := p.nextTicket + 1)
  }

  function PersistentRelease(p: Pool, k: nat): Pool {
    if k !in p.tickets || p.tickets[k].released then p
    else if p.persistent <= 0 then p.(raised := true)
    else p.(tickets := p.tickets[k := p.tickets[k].(released := true)], persistent := p.persistent - 1)
  }

  // ----- closes -----

  function Backoff(failures: nat): int {
    Min(CLOSE_RETRY_MAX_BACKOFF_SECONDS, Pow2(failures))
  }

  function Pow2(n: nat): nat {
    if n == 0 then 1 else 2 * Pow2(n - 1)
  }

  function CloseAccepted(p: Pool, s: nat): Pool {
    p.(closeTasks := p.closeTasks - {s}, failedCloses := p.failedCloses - {s},
       physicallyClosed := p.physicallyClosed - {s}, accepted := p.accepted + {s})
  }

  function CloseRefused(p: Pool, s: nat, now: int): Pool
    requires s in p.table
  {
    var failures := p.table[s].closeFailures + 1;
    p.(closeTasks := p.closeTasks - {s},
       table := p.table[s := p.table[s].(closeFailures := failures, nextCloseRetryAt := now + Backoff(failures))],
       failedCloses := p.failedCloses + {s})
  }

  /** `_finish_close_slot_unlocked`. */
  function FinishClose(p: Pool, s: nat, succeeded: bool, saysClosed: bool, now: int): Pool {
    if s !in p.table then p
    else Replenish(if succeeded || s in p.physicallyClosed || saysClosed then CloseAccepted(p, s)
                   else CloseRefused(p, s, now), now)
  }

  predicate CloseRunning(p: Pool, s: nat) {
    s in p.closeTasks && (s, p.closeTasks[s]) !in p.abortedCloses
  }

  /** `_run_close_slot` publishes how the running close of `s` ended. */
  function CloseEnded(p: Pool, s: nat, succeeded: bool, saysClosed: bool, now: int): Pool {
    if CloseRunning(p, s) then FinishClose(p, s, succeeded, saysClosed, now) else p
  }

  /** The running close task dies before it could publish anything. */
  function CloseAborted(p: Pool, s: nat): Pool {
    if CloseRunning(p, s) then p.(abortedCloses := p.abortedCloses + {(s, p.closeTasks[s])}) else p
  }

  /** `_reconcile_aborted_close_task` for attempt `attempt` of closing `s`. */
  function ReconcileAborted(p: Pool, s: nat, attempt: nat, saysClosed: bool, now: int): Pool {
    if (s, attempt) !in p.abortedCloses || s !in p.closeTasks || p.closeTasks[s] != attempt then p
    else FinishClose(p, s, false, saysClosed, now)
  }

  function PhysicalCloseFinished(p: Pool, s: nat): Pool {
    if s in p.table && p.table[s].state == Closing then p.(physicallyClosed := p.physicallyClosed + {s}) else p
  }

  function LateReconcile(p: Pool, s: nat): Pool {
    if s !in p.table || p.table[s].state != Closing || CloseRunning(p, s) then p
    else p.(failedCloses := p.failedCloses - {s},
            physicallyClosed := p.physicallyClosed - {s},
            accepted := if s in p.failedCloses then p.accepted + {s} else p.accepted)
  }

  function BrowserDies(p: Pool, s: nat): Pool {
    if s in p.table then p.(table := p.table[s := p.table[s].(connected := false)]) else p
  }
}
