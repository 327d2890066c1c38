/** The sections that take a startup's launches out of flight at once: failure, registration and
    recovery; and the two that begin a shutdown. */
module PoolHandoff {
  import opened Basics
  import opened PoolState
  import opened PoolInvariant
  import opened PoolSettling
  import opened PoolFrames
  import opened PoolLaunching
  import opened PoolStartup

  /** No launch of startup `st` is in flight. */
  ghost predicate NoneInFlight(p: Pool, st: nat) {
    forall t :: t in p.createTasks && t in p.launches ==> p.launches[t].startup != Some(st)
  }

  /** Launches of `st` leave flight (`m`), then slots settle (`q`). */
  lemma HandedOver(p: Pool, m: Pool, q: Pool, st: nat)
    requires Inv(p) && StartupSound(p, st) && Framed(p, m, {st}) && Plain(p, m)
    requires forall t :: t in m.createTasks ==> t in p.createTasks
    requires forall s :: s in m.slots ==> s in p.slots
    requires forall x :: x in p.startups && x != st ==> x in m.startups && m.startups[x] == p.startups[x]
    requires NoneInFlight(m, st) && m.closed == p.closed
    requires Settles(m, q) && Held(q, {})
    ensures Framed(p, q, {st}) && Attended(q) && Draining(q) && NoneInFlight(q, st)
  {
    hide Inv, Held, Framed, Plain, Attended, Draining, StartupSound, Settles, OpenOwned, ClosingOwned, Leases,
      StartupsSound, LaunchesKnown, TasksKnown, SlotsKnown, NoneInFlight;
    InvParts(p);
    SettlesFramed(m, q, {st});
    FramedTransitive(p, m, q, {st});
    PlainKeeps(p, m);
    HandoffAttended(p, m, st);
    SettlesAttended(m, q);
    ThinnerDraining(p, m);
    HeldOpen(q, {});
    SettlesDraining(m, q);
    SettlesInFlight(m, q, st);
  }

  lemma SettlesInFlight(p: Pool, q: Pool, st: nat)
    requires Settles(p, q)
    ensures NoneInFlight(q, st) == NoneInFlight(p, st)
  {
  }

  lemma HandoffAttended(p: Pool, m: Pool, st: nat)
    requires Attended(p) && m.launches == p.launches && NoneInFlight(m, st)
    requires forall t :: t in m.createTasks ==> t in p.createTasks
    requires forall x :: x in p.startups && x != st ==> x in m.startups && m.startups[x] == p.startups[x]
    ensures Attended(m)
  {
  }

  lemma ThinnerDraining(p: Pool, m: Pool)
    requires Draining(p) && m.closed == p.closed && m.table == p.table
    requires forall t :: t in m.createTasks ==> t in p.createTasks
    requires forall s :: s in m.slots ==> s in p.slots
    ensures Draining(m)
  {
  }

  /** The section ends by setting the startup's phase and the flags. */
  lemma Concluded(p: Pool, q: Pool, r: Pool, st: nat)
    requires Inv(p) && Framed(p, q, {st}) && Attended(q) && Draining(q) && NoneInFlight(q, st) && Held(q, {})
    requires r == q.(startups := r.startups, started := r.started, starting := r.starting)
    requires forall x :: x in q.startups && x != st ==> x in r.startups && r.startups[x] == q.startups[x]
    requires forall x :: x in r.startups && x != st ==> x in q.startups
    requires StartupSound(r, st)
    ensures Inv(r) && Evolves(p, r)
  {
    hide Inv, Held, Framed, Attended, Draining, StartupSound, NoneInFlight;
    HeldSame(q, r, {});
    PlainFramed(q, r, {st});
    FramedTransitive(p, q, r, {st});
    HandoffAttended(q, r, st) by { assert NoneInFlight(r, st) by { SameInFlight(q, r, st); } }
    ThinnerDraining(q, r);
    AssembleExcept(p, r, st);
  }

  lemma SameInFlight(p: Pool, q: Pool, st: nat)
    requires q.createTasks == p.createTasks && q.launches == p.launches
    ensures NoneInFlight(q, st) == NoneInFlight(p, st)
  {
  }

  // ----- some launch of a startup failed or is still pending -----

  lemma {:induction false} ReturnedOfFacts(p: Pool, tasks: seq<nat>, done: set<nat>)
    ensures forall t :: t in ReturnedOf(p, tasks, done) <==> t in tasks && t in done && t in p.table
  {
    if tasks != [] {
      ReturnedOfFacts(p, tasks[1..], done);
      assert tasks == [tasks[0]] + tasks[1..];
    }
  }

  function FinishedOf(p: Pool, tasks: seq<nat>, done: set<nat>): set<nat> {
    set t | t in tasks && t in done && t in p.launches && p.launches[t].outcome != Running
  }

  /** The state once the finished launches are discarded and the pending ones abandoned. */
  function Dismissed(p: Pool, st: nat, done: set<nat>): Pool
    requires st in p.startups
  {
    var tasks := p.startups[st].tasks;
    var finished := FinishedOf(p, tasks, done);
    AbandonCreates(FinishCreates(SetPhase(p, st, Finished), finished), Elements(tasks) - finished)
  }

  lemma DismissedHeld(p: Pool, st: nat, done: set<nat>, more: set<nat>)
    requires Held(p, {}) && st in p.startups
    requires more == set t | t in FinishedOf(p, p.startups[st].tasks, done) && t in p.createTasks && t in p.table
    ensures Held(Dismissed(p, st, done), more)
  {
    hide Held, SetPhase, FinishCreates, AbandonCreates;
    var tasks := p.startups[st].tasks;
    var finished := FinishedOf(p, tasks, done);
    var m := SetPhase(p, st, Finished);
    PhaseOnly(p, st, Finished);
    HeldSame(p, m, {});
    FinishCreatesHeld(m, finished, {}, more);
    var none: set<nat> := {};
    assert none + more == more;
    AbandonCreatesHeld(FinishCreates(m, finished), Elements(tasks) - finished, more);
  }

  lemma PhaseOnly(p: Pool, st: nat, phase: Phase)
    requires st in p.startups
    ensures SetPhase(p, st, phase) == p.(startups := p.startups[st := p.startups[st].(phase := phase)])
  {
  }

  lemma DismissedShape(p: Pool, st: nat, done: set<nat>)
    requires st in p.startups && Known(p, st)
    ensures var m := Dismissed(p, st, done);
            && Plain(p, m) && m.closed == p.closed && m.slots == p.slots
            && m.startups == p.startups[st := p.startups[st].(phase := Finished)]
            && NoneInFlight(m, st)
            && (forall t :: t in m.createTasks <==> t in p.createTasks && t !in p.startups[st].tasks)
            && (forall t :: t in m.watchers && t !in p.watchers ==>
                  t in p.startups[st].tasks && t !in FinishedOf(p, p.startups[st].tasks, done))
  {
    var tasks := p.startups[st].tasks;
    assert forall t :: t in tasks <==> t in Elements(tasks);
  }

  /** The launches in flight of `st` are its tasks, and none is being watched. */
  ghost predicate Known(p: Pool, st: nat)
    requires st in p.startups
  {
    && (forall t :: t in p.createTasks && t in p.launches && p.launches[t].startup == Some(st) ==>
          t in p.startups[st].tasks)
    && (forall t :: t in p.createTasks ==> t !in p.watchers)
  }

  lemma KnownHolds(p: Pool, st: nat)
    requires Inv(p) && st in p.startups
    ensures Known(p, st)
  {
    hide Inv;
    OwnTasks(p, st);
  }

  /** Whether `done` describes a wait that did not end with every launch succeeding. */
  predicate FailedWait(p: Pool, st: nat, done: set<nat>) {
    InPhase(p, st, Waiting) &&
    var tasks := p.startups[st].tasks;
    !(FinishedOf(p, tasks, done) == Elements(tasks) && (forall t :: t in tasks ==> t in p.table))
  }

  lemma StartupFailedCloses(p: Pool, st: nat, done: set<nat>)
    requires Inv(p) && InPhase(p, st, Waiting)
    ensures var m := Dismissed(p, st, done);
            var r := ReturnedOf(p, p.startups[st].tasks, FinishedOf(p, p.startups[st].tasks, done));
            Held(CloseAll(m, r, Error), {}) && Settles(m, CloseAll(m, r, Error))
  {
    hide Inv, Held, Settles, Dismissed, CloseAll, OpenOwned, ClosingOwned, Leases, StartupsSound, LaunchesKnown,
      TasksKnown, SlotsKnown, Attended, Draining, StartupSound, Plain, NoneInFlight;
    var tasks := p.startups[st].tasks;
    var finished := FinishedOf(p, tasks, done);
    var r := ReturnedOf(p, tasks, finished);
    var m := Dismissed(p, st, done);
    InvParts(p);
    SoundStartup(p, st);
    OwedTasks(p, st);
    var more := set t | t in finished && t in p.createTasks && t in p.table;
    DismissedHeld(p, st, done, more);
    KnownHolds(p, st);
    DismissedShape(p, st, done);
    PlainKeeps(p, m);
    ReturnedOfFacts(p, tasks, finished);
    forall t | t in r ensures Free(m, t) && (IsClosing(m, t) || m.table[t].activeContexts == 0) {
      assert t in tasks && t in finished && t in p.table;
    }
    CloseAllHeld(m, r, Error, more);
    assert forall t :: t in r <==> t in Elements(r);
    assert more - Elements(r) == {};
  }

  lemma StartupFailedHandsOver(p: Pool, st: nat, done: set<nat>, q: Pool)
    requires Inv(p) && InPhase(p, st, Waiting)
    requires var tasks := p.startups[st].tasks;
             q == CloseAll(Dismissed(p, st, done), ReturnedOf(p, tasks, FinishedOf(p, tasks, done)), Error)
    ensures Framed(p, q, {st}) && Attended(q) && Draining(q) && NoneInFlight(q, st) && Held(q, {})
    ensures q.launches == p.launches && q.startups == p.startups[st := p.startups[st].(phase := Finished)]
    ensures q.closed == p.closed && q.started == p.started && q.nextStartup >= p.nextStartup && StartupSound(p, st)
  {
    hide Inv, Held, Settles, Dismissed, CloseAll, Framed, Attended, Draining, StartupSound, Plain, NoneInFlight,
      Evolves, OpenOwned, ClosingOwned, Leases, StartupsSound, LaunchesKnown, TasksKnown, SlotsKnown, FinishedOf,
      ReturnedOf;
    var m := Dismissed(p, st, done);
    StartupFailedCloses(p, st, done);
    KnownHolds(p, st);
    DismissedShape(p, st, done);
    SoundStartup(p, st);
    OwnChangeFramed(p, m, st);
    HandedOver(p, m, q, st);
    SettlesKeepsAll(m, q);
    PlainKeeps(p, m);
    DismissedFlags(p, st, done);
  }

  lemma DismissedFlags(p: Pool, st: nat, done: set<nat>)
    requires st in p.startups
    ensures Dismissed(p, st, done).started == p.started && Dismissed(p, st, done).nextStartup == p.nextStartup
  {
  }

  lemma StartupFailedInv(p: Pool, st: nat, done: set<nat>)
    requires Inv(p)
    ensures Inv(StartupFailed(p, st, done)) && Evolves(p, StartupFailed(p, st, done))
  {
    hide Inv, Held, Settles, Dismissed, CloseAll, Framed, Attended, Draining, StartupSound, Plain, NoneInFlight,
      Evolves, StartupFailed, FinishedOf, ReturnedOf;
    if FailedWait(p, st, done) {
      var tasks := p.startups[st].tasks;
      var q := CloseAll(Dismissed(p, st, done), ReturnedOf(p, tasks, FinishedOf(p, tasks, done)), Error);
      StartupFailedHandsOver(p, st, done, q);
      StartupFailedShape(p, st, done);
      FinishedStays(p, StartupFailed(p, st, done), st);
      Concluded(p, q, StartupFailed(p, st, done), st);
    } else {
      NotFailed(p, st, done);
      EvolvesSelf(p);
    }
  }

  lemma NotFailed(p: Pool, st: nat, done: set<nat>)
    requires !FailedWait(p, st, done)
    ensures StartupFailed(p, st, done) == p
  {
  }

  lemma StartupFailedShape(p: Pool, st: nat, done: set<nat>)
    requires FailedWait(p, st, done)
    ensures var tasks := p.startups[st].tasks;
            var q := CloseAll(Dismissed(p, st, done), ReturnedOf(p, tasks, FinishedOf(p, tasks, done)), Error);
            StartupFailed(p, st, done) == q.(started := p.started && p.closed, starting := false)
  {
    hide CloseAll, AbandonCreates, FinishCreates, SetPhase, ReturnedOf;
  }

  lemma FinishedStays(p: Pool, r: Pool, st: nat)
    requires StartupSound(p, st) && r.launches == p.launches && r.nextStartup >= p.nextStartup
    requires st in r.startups && r.startups[st] == p.startups[st].(phase := Finished)
    ensures StartupSound(r, st)
  {
  }

  // ----- registration and recovery -----

  /** The state once every task of the startup has been taken out of flight. */
  function Discarded(p: Pool, st: nat): Pool
    requires st in p.startups
  {
    FinishCreates(SetPhase(p, st, Finished), Elements(p.startups[st].tasks))
  }

  /** What the section then holds only in its local variables. */
  function InHand(p: Pool, st: nat): set<nat>
    requires st in p.startups
  {
    set t | t in p.startups[st].tasks && t in p.createTasks && t in p.table
  }

  lemma DiscardedHeld(p: Pool, st: nat)
    requires Held(p, {}) && st in p.startups
    requires forall t :: t in p.startups[st].tasks && t in p.launches ==> p.launches[t].outcome != Running
    ensures Held(Discarded(p, st), InHand(p, st))
  {
    hide Held, SetPhase, FinishCreates;
    var tasks := p.startups[st].tasks;
    var m := SetPhase(p, st, Finished);
    PhaseOnly(p, st, Finished);
    HeldSame(p, m, {});
    var none: set<nat> := {};
    assert none + InHand(p, st) == InHand(p, st);
    assert forall t :: t in Elements(tasks) <==> t in tasks;
    FinishCreatesHeld(m, Elements(tasks), {}, InHand(p, st));
  }

  lemma DiscardedShape(p: Pool, st: nat)
    requires st in p.startups && Known(p, st)
    ensures var m := Discarded(p, st);
            && Plain(p, m) && m.closed == p.closed && m.slots == p.slots && m.watchers == p.watchers
            && m.startups == p.startups[st := p.startups[st].(phase := Finished)]
            && m.started == p.started && m.nextStartup == p.nextStartup && m.starting == p.starting
            && NoneInFlight(m, st)
            && (forall t :: t in m.createTasks <==> t in p.createTasks && t !in p.startups[st].tasks)
  {
    var tasks := p.startups[st].tasks;
    assert forall t :: t in tasks <==> t in Elements(tasks);
  }

  /** Owed a registration: all launches returned. */
  predicate Owed(p: Pool, st: nat) {
    InPhase(p, st, Registering) || InPhase(p, st, Registered)
  }

  lemma AllReturned(p: Pool, st: nat)
    requires Inv(p) && Owed(p, st)
    ensures forall t :: t in p.startups[st].tasks ==>
              t in p.table && t in p.launches && p.launches[t].outcome == Returned
    ensures forall t :: t in p.startups[st].tasks && !p.closed && InPhase(p, st, Registering) ==> t in p.createTasks
  {
    InvParts(p);
    SoundStartup(p, st);
    hide Inv, Core;
  }

  lemma DiscardedFree(p: Pool, st: nat)
    requires Inv(p) && Owed(p, st)
    ensures forall t :: t in p.startups[st].tasks ==> Free(Discarded(p, st), t)
    ensures InPhase(p, st, Registering) ==> forall t :: t in p.startups[st].tasks ==>
              IsClosing(Discarded(p, st), t) || Discarded(p, st).table[t].activeContexts == 0
  {
    hide Inv, Core, Discarded, OpenOwned, StartupSound;
    AllReturned(p, st);
    InvParts(p);
    SoundStartup(p, st);
    OwedTasks(p, st);
    KnownHolds(p, st);
    DiscardedShape(p, st);
  }

  lemma DiscardedReady(p: Pool, st: nat)
    requires Inv(p) && Owed(p, st)
    ensures Held(Discarded(p, st), InHand(p, st)) && Framed(p, Discarded(p, st), {st}) && Known(p, st)
            && StartupSound(p, st)
  {
    hide Inv, Held, Framed, StartupSound, Plain, Discarded, NoneInFlight, Known, InHand;
    InvParts(p);
    AllReturned(p, st);
    DiscardedHeld(p, st);
    KnownHolds(p, st);
    DiscardedShape(p, st);
    SoundStartup(p, st);
    OwnChangeFramed(p, Discarded(p, st), st);
  }

  /** Registration into a pool that is shutting down, or after a cancellation: every browser is closed. */
  lemma RegisterClosesInv(p: Pool, st: nat)
    requires Inv(p) && InPhase(p, st, Registering) && (p.closed || p.startups[st].cancelled)
    ensures Inv(RegisterStarted(p, st)) && Evolves(p, RegisterStarted(p, st))
  {
    hide Inv, Held, Framed, Attended, Draining, StartupSound, Plain, NoneInFlight, Evolves, Settles, CloseAll,
      Discarded, Known, InHand, OpenOwned, ClosingOwned, Leases, StartupsSound, LaunchesKnown, TasksKnown, SlotsKnown,
      RegisterStarted;
    var tasks := p.startups[st].tasks;
    var m := Discarded(p, st);
    var q := CloseAll(m, tasks, if p.closed then Shutdown else Error);
    DiscardedReady(p, st);
    DiscardedFree(p, st);
    CloseAllHeld(m, tasks, if p.closed then Shutdown else Error, InHand(p, st));
    HandIsTasks(p, st);
    DiscardedShape(p, st);
    HandedOver(p, m, q, st);
    SettlesKeepsAll(m, q);
    PlainKeeps(p, m);
    RegisterShape(p, st);
    RegisteredSound(p, RegisterStarted(p, st), st);
    Concluded(p, q, RegisterStarted(p, st), st);
  }

  lemma HandIsTasks(p: Pool, st: nat)
    requires st in p.startups
    ensures InHand(p, st) - Elements(p.startups[st].tasks) == {}
  {
  }

  lemma RegisterShape(p: Pool, st: nat)
    requires InPhase(p, st, Registering)
    ensures var m := Discarded(p, st);
            var q := if p.closed || p.startups[st].cancelled
                     then CloseAll(m, p.startups[st].tasks, if p.closed then Shutdown else Error)
                     else m.(slots := m.slots + p.startups[st].tasks);
            RegisterStarted(p, st) == SetPhase(q, st, Registered)
  {
    hide CloseAll, SetPhase, FinishCreates;
  }

  lemma RegisteredSound(p: Pool, r: Pool, st: nat)
    requires StartupSound(p, st) && r.launches == p.launches && r.nextStartup >= p.nextStartup
    requires st in r.startups && r.startups[st] == p.startups[st].(phase := Registered)
    requires forall t :: t in p.startups[st].tasks ==> t in r.table && (t in r.slots || IsClosing(r, t))
    ensures StartupSound(r, st)
  {
  }

  /** Registration into the open pool: every browser becomes a slot. */
  lemma RegisterAppendsInv(p: Pool, st: nat)
    requires Inv(p) && InPhase(p, st, Registering) && !p.closed && !p.startups[st].cancelled
    ensures Inv(RegisterStarted(p, st)) && Evolves(p, RegisterStarted(p, st))
  {
    hide Inv, Held, Framed, Attended, Draining, StartupSound, Plain, NoneInFlight, Evolves, Settles, CloseAll,
      Discarded, Known, InHand, OpenOwned, ClosingOwned, Leases, StartupsSound, LaunchesKnown, TasksKnown, SlotsKnown,
      RegisterStarted;
    var tasks := p.startups[st].tasks;
    var m := Discarded(p, st);
    var q := m.(slots := m.slots + tasks);
    DiscardedReady(p, st);
    AllReturned(p, st);
    HandIsAll(p, st);
    DistinctTasks(p, st);
    AppendHeld(m, tasks, InHand(p, st));
    HandIsTasks(p, st);
    DiscardedShape(p, st);
    AppendedFramed(p, m, st);
    OpenDraining(q);
    InvParts(p);
    HandoffAttended(p, m, st);
    PlainKeeps(p, m);
    SameInFlight(m, q, st);
    HandoffAttended(m, q, st);
    RegisterShape(p, st);
    RegisteredSound(p, RegisterStarted(p, st), st);
    Concluded(p, q, RegisterStarted(p, st), st);
  }

  lemma HandIsAll(p: Pool, st: nat)
    requires st in p.startups && forall t :: t in p.startups[st].tasks ==> t in p.table && t in p.createTasks
    ensures InHand(p, st) == Elements(p.startups[st].tasks)
  {
  }

  lemma DistinctTasks(p: Pool, st: nat)
    requires StartupSound(p, st)
    ensures Distinct(p.startups[st].tasks)
  {
  }

  lemma OpenDraining(p: Pool)
    requires !p.closed
    ensures Draining(p)
  {
  }

  lemma AppendedFramed(p: Pool, m: Pool, st: nat)
    requires st in p.startups && Plain(p, m) && StartupSound(p, st) && Framed(p, m, {st})
    requires m.startups == p.startups[st := p.startups[st].(phase := Finished)] && m.slots == p.slots
    requires forall t :: t in m.createTasks <==> t in p.createTasks && t !in p.startups[st].tasks
    ensures Framed(p, m.(slots := m.slots + p.startups[st].tasks), {st})
  {
    hide Framed, StartupSound;
    OwnChangeFramed(p, m.(slots := m.slots + p.startups[st].tasks), st);
  }

  lemma RegisterStartedInv(p: Pool, st: nat)
    requires Inv(p)
    ensures Inv(RegisterStarted(p, st)) && Evolves(p, RegisterStarted(p, st))
  {
    if !InPhase(p, st, Registering) {
      EvolvesSelf(p);
    } else if p.closed || p.startups[st].cancelled {
      hide *;
      RegisterClosesInv(p, st);
    } else {
      hide *;
      RegisterAppendsInv(p, st);
    }
  }

  lemma RecoverStartInv(p: Pool, st: nat)
    requires Inv(p)
    ensures Inv(RecoverStart(p, st)) && Evolves(p, RecoverStart(p, st))
  {
    hide Inv, Held, Framed, Attended, Draining, StartupSound, Plain, NoneInFlight, Evolves, Settles, RetireAll,
      Discarded, Known, InHand, OpenOwned, ClosingOwned, Leases, StartupsSound, LaunchesKnown, TasksKnown, SlotsKnown,
      RecoverStart;
    if !Owed(p, st) || !p.startups[st].cancelled {
      assert RecoverStart(p, st) == p by { RecoverShape(p, st); }
      EvolvesSelf(p);
    } else {
      var tasks := p.startups[st].tasks;
      var m := Discarded(p, st);
      var q := RetireAll(m, tasks, Error);
      DiscardedReady(p, st);
      DiscardedFree(p, st);
      RetireAllHeld(m, tasks, Error, InHand(p, st));
      HandIsTasks(p, st);
      DiscardedShape(p, st);
      HandedOver(p, m, q, st);
      SettlesKeepsAll(m, q);
      PlainKeeps(p, m);
      FinishedStays(p, q, st);
      RecoverShape(p, st);
      Concluded(p, q, q, st);
    }
  }

  lemma RecoverShape(p: Pool, st: nat)
    ensures RecoverStart(p, st) == if !Owed(p, st) || !p.startups[st].cancelled then p
                                   else RetireAll(Discarded(p, st), p.startups[st].tasks, Error)
  {
    hide RetireAll, SetPhase, FinishCreates;
  }

  // ----- shutdown -----

  /** The pool as shutdown finds it: closed, and no launch in flight. */
  function Stopped(p: Pool): Pool {
    AbandonCreates(p.(closed := true), p.createTasks)
  }

  lemma StoppedHeld(p: Pool)
    requires Held(p, {})
    ensures Held(Stopped(p), {})
  {
    hide Held, AbandonCreates;
    HeldSame(p, p.(closed := true), {});
    AbandonCreatesHeld(p.(closed := true), p.createTasks, {});
  }

  lemma StoppedFrames(p: Pool)
    requires OpenOwned(p, {})
    ensures Framed(p, Stopped(p), {}) && Attended(Stopped(p)) && Stopped(p).createTasks == {} && Stopped(p).closed
  {
    hide Framed;
    var q := Stopped(p);
    assert q.createTasks == {};
    PlainFramed(p, q, {});
  }

  /** Once every listed slot is withdrawn the pool is draining. */
  lemma WithdrawnDrains(m: Pool, q: Pool)
    requires Settles(m, q) && Held(q, {}) && Counted(q) && m.createTasks == {}
    requires forall s :: s in m.slots ==> Withdrawn(q, s)
    ensures Draining(q)
  {
    hide LaunchesKnown, TasksKnown, ClosingOwned, Lifecycle;
    forall s | s in q.slots
      ensures s in q.table && q.table[s].state == Retiring && q.table[s].activeContexts > 0
    {
      assert s in m.slots && !IsClosing(q, s) && Withdrawn(q, s);
    }
  }

  /** From the stopped pool, settling with every listed slot withdrawn completes the section. */
  lemma ShutdownInv(p: Pool, q: Pool)
    requires Inv(p) && Settles(Stopped(p), q) && Held(q, {})
    requires forall s :: s in Stopped(p).slots ==> Withdrawn(q, s)
    ensures Inv(q) && Evolves(p, q)
  {
    hide Inv, Held, Framed, Attended, Draining, Evolves, Settles, OpenOwned, ClosingOwned, StartupsSound,
      LaunchesKnown, TasksKnown, SlotsKnown, LeasesKept, StartupsKept, Stopped, Withdrawn, Counted, Ticketed;
    InvParts(p);
    StoppedFrames(p);
    SettlesFramed(Stopped(p), q, {});
    FramedTransitive(p, Stopped(p), q, {});
    SettlesAttended(Stopped(p), q);
    FramedParts(p, q);
    LeasesCarry(p, q);
    WithdrawnDrains(Stopped(p), q);
    Assemble(p, q);
  }

  lemma FramedParts(p: Pool, q: Pool)
    requires Framed(p, q, {})
    ensures LeasesKept(p, q) && StartupsKept(p, q, {}) && Evolves(p, q)
  {
  }

  lemma QuiesceInv(p: Pool)
    requires Inv(p)
    ensures Inv(Quiesce(p)) && Evolves(p, Quiesce(p))
  {
    hide Inv, Held, Settles, Stopped, RetireAll, Withdrawn, Evolves, OpenOwned, ClosingOwned, Leases, StartupsSound,
      LaunchesKnown, TasksKnown, SlotsKnown, Attended, Draining;
    var m := Stopped(p);
    InvParts(p);
    StoppedHeld(p);
    HeldBasics(m, {});
    RetireAllHeld(m, m.slots, Shutdown, {});
    var none: set<nat> := {};
    assert none - Elements(m.slots) == none;
    ShutdownInv(p, RetireAll(m, m.slots, Shutdown));
    QuiesceShape(p);
  }

  lemma QuiesceShape(p: Pool)
    ensures Quiesce(p) == RetireAll(Stopped(p), Stopped(p).slots, Shutdown)
    ensures CloseBegin(p) == var r := RetryCloses(Stopped(p), Stopped(p).failedCloses); RetireAll(r, r.slots, Shutdown)
  {
    hide RetireAll, AbandonCreates, RetryCloses;
  }

  lemma CloseBeginInv(p: Pool)
    requires Inv(p)
    ensures Inv(CloseBegin(p)) && Evolves(p, CloseBegin(p))
  {
    hide Inv, Held, Settles, Stopped, RetireAll, RetryCloses, Withdrawn, Evolves, OpenOwned, ClosingOwned, Leases,
      StartupsSound, LaunchesKnown, TasksKnown, SlotsKnown, Attended, Draining;
    var m := Stopped(p);
    var r := RetryCloses(m, m.failedCloses);
    InvParts(p);
    StoppedHeld(p);
    RetryClosesHeld(m, m.failedCloses, {});
    HeldClosing(m, {});
    RetryClosesSettles(m, m.failedCloses);
    HeldBasics(r, {});
    RetireAllHeld(r, r.slots, Shutdown, {});
    var none: set<nat> := {};
    assert none - Elements(r.slots) == none;
    SettlesTransitive(m, r, RetireAll(r, r.slots, Shutdown));
    ShutdownInv(p, RetireAll(r, r.slots, Shutdown));
    QuiesceShape(p);
  }
}
