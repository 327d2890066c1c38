/** What each operation of the session registry and its clients does, written out: when it happens, what it
    changes, and that it changes nothing else. */
module SessionPromises {
  import opened Basics
  import opened SessionState
  import opened SessionRuns

  /** The identity check asks whether the id still names this very session. */
  lemma IdentityCheck(c: Registry, s: nat)
    ensures IsCurrent(c, s) <==> s in c.sessions && c.sessions[s].id in c.live && c.live[c.sessions[s].id] == s
  {
  }

  // ----- registration -----

  /** A registration makes a new session live under its id exactly if the manager is open, the id neither live
      nor closing, and one more session fits; the session is open, unused and unheld, and nothing else
      changes. Otherwise nothing changes at all. */
  lemma RegistrationIsExact(c: Registry, id: string, expiresAt: Option<int>)
    requires Reachable(c)
    ensures var d := Step(c, Creates(id, expiresAt));
            if !c.closed && id !in c.live && id !in c.closing && |c.live| + |c.closing| < c.maxSessions then
              && id in d.live && d.live[id] !in c.sessions && d.live == c.live[id := d.live[id]]
              && d.sessions == c.sessions[d.live[id] := Session(id, expiresAt, None, 0, Open)]
              && d == c.(live := d.live, sessions := d.sessions, nextSession := d.nextSession)
            else d == c
  {
    hide Reachable, Inv;
    ReachableInv(c);
    NumbersKnown(c);
  }

  /** The answer to a registration: the live session if there is one, and each refusal under its own
      condition. */
  lemma RegistrationAnswers(c: Registry, id: string)
    ensures var r := RegisterResultOf(c, id);
            && (r == ManagerClosed <==> c.closed)
            && (r.Existing? <==> !c.closed && id in c.live) && (r.Existing? ==> r.session == c.live[id])
            && (r == StillClosing <==> !c.closed && id !in c.live && id in c.closing)
            && (r == AtCapacity <==>
                  !c.closed && id !in c.live && id !in c.closing && |c.live| + |c.closing| >= c.maxSessions)
            && (r.Registered? ==> r.session == c.nextSession)
  {
  }

  /** A request that brings a new context queues for the session it registered, or chooses the winner's, or is
      refused; a session it registered counts its use at once. */
  lemma NewcomerIsExact(c: Registry, r: nat, id: string, expiresAt: Option<int>)
    requires Reachable(c) && r !in c.clients
    ensures var d, p := Step(c, ArrivesNew(r, id, expiresAt)), Step(c, Creates(id, expiresAt));
            if !c.closed && id in c.live then d == c.(clients := c.clients[r := Client(c.live[id], Chosen)])
            else if p == c then d == c
            else d == p.(clients := c.clients[r := Client(p.live[id], Queued)],
                         sessions := p.sessions[p.live[id] := p.sessions[p.live[id]].(inUse := 1)])
  {
    hide Reachable, Inv;
    ReachableInv(c);
    NumbersKnown(c);
  }

  // ----- requests -----

  /** A request finds a session to share exactly if the id has a live one that has not expired, or whose lock
      is held, or that another request uses; it then queues and counts, and nothing else changes. */
  lemma ArrivalIsExact(c: Registry, r: nat, id: string, now: int)
    requires Reachable(c)
    ensures id in c.live ==> c.live[id] in c.sessions
    ensures var d := Step(c, Arrives(r, id, now));
            if r !in c.clients && id in c.live
               && var s := c.sessions[c.live[id]];
                  (s.expiresAt == None || now < s.expiresAt.value || s.holder != None || s.inUse > 0)
            then
              var s := c.live[id];
              d == c.(clients := c.clients[r := Client(s, Queued)],
                      sessions := c.sessions[s := c.sessions[s].(inUse := c.sessions[s].inUse + 1)])
            else d == c
  {
    hide Reachable, Inv;
    ReachableInv(c);
    LiveIsKnown(c);
  }

  lemma LiveIsKnown(c: Registry)
    requires Inv(c)
    ensures forall id :: id in c.live ==> c.live[id] in c.sessions && c.sessions[c.live[id]].inUse >= 0
    ensures forall s :: s in c.sessions ==> c.sessions[s].inUse >= 0
    ensures forall r :: r in c.clients ==> c.clients[r].session in c.sessions
  {
    hide TombsSound, ContextsSound, Numbered;
  }

  /** A request that lost the race to register resumes on the winner's session. */
  lemma ResumptionIsExact(c: Registry, r: nat)
    requires Reachable(c)
    ensures var d := Step(c, Resumes(r));
            if r in c.clients && c.clients[r].phase == Chosen then
              var s := c.clients[r].session;
              && s in c.sessions
              && d == c.(clients := c.clients[r := Client(s, Queued)],
                         sessions := c.sessions[s := c.sessions[s].(inUse := c.sessions[s].inUse + 1)])
            else d == c
  {
    hide Reachable, Inv;
    ReachableInv(c);
    LiveIsKnown(c);
  }

  /** A queued request takes the lock as soon as it is free. It gets inside exactly if the id still names its
      session; if not, it leaves, and gives its use back. */
  lemma EntryIsExact(c: Registry, r: nat)
    requires Reachable(c) && r in c.clients && c.clients[r].phase == Queued
    ensures var s, d := c.clients[r].session, Step(c, Enters(r));
            && s in c.sessions
            && var session := c.sessions[s];
               d == if session.holder != None then c
                    else if session.id in c.live && c.live[session.id] == s
                    then c.(clients := c.clients[r := Client(s, Inside)],
                            sessions := c.sessions[s := session.(holder := Some(Request(r)))])
                    else c.(clients := c.clients - {r},
                            sessions := c.sessions[s := session.(inUse := session.inUse - 1)])
  {
    hide Reachable, Inv;
    ReachableInv(c);
    LiveIsKnown(c);
    InUse(c, r);
  }

  /** A request that leaves gives its use back if it had one, and the lock if it was inside. */
  lemma LeavingIsExact(c: Registry, r: nat)
    requires Reachable(c) && r in c.clients
    ensures var s, d := c.clients[r].session, Step(c, Leaves(r));
            && s in c.sessions
            && d == c.(clients := c.clients - {r}, sessions :=
                         match c.clients[r].phase
                         case Chosen => c.sessions
                         case Queued => c.sessions[s := c.sessions[s].(inUse := c.sessions[s].inUse - 1)]
                         case Inside =>
                           c.sessions[s := c.sessions[s].(inUse := c.sessions[s].inUse - 1, holder := None)])
  {
    hide Reachable, Inv;
    ReachableInv(c);
    LiveIsKnown(c);
    if c.clients[r].phase != Chosen {
      InUse(c, r);
    }
  }

  // ----- removal -----

  /** Pruning an open manager removes exactly the sessions whose time is up and that no request uses, waits
      for or holds, apart from the excluded id. */
  lemma PruningIsExact(c: Registry, exclude: Option<string>, now: int, id: string)
    requires Reachable(c) && id in c.live
    ensures c.live[id] in c.sessions
    ensures var d, s := Step(c, Prunes(exclude, now)), c.sessions[c.live[id]];
            id !in d.live <==>
              !c.closed && Some(id) != exclude && s.expiresAt.Some? && now >= s.expiresAt.value
              && s.inUse == 0 && s.holder == None
  {
    hide Reachable, Inv, Started, Tombstones;
    ReachableInv(c);
    LiveIsKnown(c);
  }

  /** Destroying an id removes its live session, and closing the manager every live session and every later
      registration. */
  lemma DestroyingIsExact(c: Registry, id: string)
    requires Reachable(c)
    ensures var d := Step(c, Destroys(id));
            if id != "" && id in c.live then
              d.live == c.live - {id} && c.live[id] in d.sessions && Fates(d, c.live[id]) == {IsClosing}
            else d == c
    ensures var d := Step(c, Closes);
            && d.closed && d.live == map[]
            && (forall x :: x in c.live ==> c.live[x] in d.sessions && Fates(d, c.live[x]) == {IsClosing})
            && forall expiresAt :: Step(d, Creates(id, expiresAt)) == d
  {
    hide Reachable, Inv, Fates, Remove, Started, Tombstones, Register;
    ReachableInv(c);
    LiveIsKnown(c);
    LiveNamesItself(c);
    if id != "" && id in c.live {
      RemovalIsPrecise(c, {id});
      RemoveShape(c, {id});
    }
    ClosingTombstones(c);
    ClosedRefuses(Step(c, Closes), id);
  }

  lemma LiveNamesItself(c: Registry)
    requires Inv(c)
    ensures forall id :: id in c.live ==>
              c.live[id] in c.sessions && IsCurrent(c, c.live[id]) && c.sessions[c.live[id]].id == id
  {
    hide TombsSound, ContextsSound, LocksSound, UsesExact, Numbered;
  }

  lemma ClosedRefuses(d: Registry, id: string)
    requires d.closed
    ensures forall expiresAt :: Step(d, Creates(id, expiresAt)) == d
  {
  }

  lemma ClosingTombstones(c: Registry)
    requires Reachable(c)
    ensures var d := Step(c, Closes);
            && d.closed && d.live == map[]
            && forall x :: x in c.live ==> c.live[x] in d.sessions && Fates(d, c.live[x]) == {IsClosing}
  {
    hide Reachable, Inv, Remove, Fates;
    ReachableInv(c);
    LiveNamesItself(c);
    RemovalIsPrecise(c, c.live.Keys);
    RemoveShape(c, c.live.Keys);
    ClosedApart(c);
    RemoveShape(c.(closed := true), c.live.Keys);
  }

  lemma ClosedApart(c: Registry)
    ensures Remove(c.(closed := true), c.live.Keys) == Remove(c, c.live.Keys).(closed := true)
    ensures forall s :: s in c.sessions ==>
              Fates(Remove(c, c.live.Keys).(closed := true), s) == Fates(Remove(c, c.live.Keys), s)
  {
    assert Started(c.(closed := true), c.live.Keys) == Started(c, c.live.Keys);
  }

  // ----- closing a session -----

  /** The steps that are left of closing session `s`. */
  function Remaining(s: nat, phase: CloserPhase): seq<Action> {
    match phase
    case Waiting => [CloserEnters(s), CleanupSettles(s), CloserEnds(s), TombstoneGoes(s)]
    case Running => [CleanupSettles(s), CloserEnds(s), TombstoneGoes(s)]
    case Ended => [TombstoneGoes(s)]
  }

  /** Every closing can be completed: once no request is inside, the close task's own steps and the end of its
      cleanup lead to a session that is cleaned up, with the lock free and the id no longer closing. */
  lemma ClosingCanComplete(c: Registry, s: nat)
    requires Reachable(c) && s in c.closers && s in c.sessions
    requires c.sessions[s].holder == None || c.sessions[s].holder == Some(Closer)
    ensures var d := Run(c, Remaining(s, c.closers[s]));
            && s in d.sessions && Fates(d, s) == {IsCleaned} && d.sessions[s].holder == None
            && d.closing == c.closing - {c.sessions[s].id} && d.live == c.live
  {
    hide Reachable, Inv, Evolves;
    ReachableInv(c);
    CloserFacts(c, s);
    match c.closers[s]
    case Waiting =>
      var c1 := Step(c, CloserEnters(s));
      StepInv(c, CloserEnters(s));
      CloserFacts(c1, s);
      assert Remaining(s, Waiting)[1..] == Remaining(s, Running);
      RunningCompletes(c1, s);
    case Running => RunningCompletes(c, s);
    case Ended => EndedCompletes(c, s);
  }

  lemma CloserFacts(c: Registry, s: nat)
    requires Inv(c) && s in c.closers
    ensures s in c.sessions && c.sessions[s].id in c.closing && c.closing[c.sessions[s].id] == s
    ensures c.sessions[s].id !in c.live
    ensures c.sessions[s].holder == Some(Closer) <==> c.closers[s] == Running
    ensures c.closers[s] == Running ==> c.sessions[s].context != Open
    ensures c.closers[s] == Ended ==> c.sessions[s].context == Settled
  {
    hide UsesExact, Numbered;
    assert ContextSound(c.sessions[s], Current(c.live, s, c.sessions[s].id), CloserOf(c.closers, s));
  }

  lemma RunningCompletes(c: Registry, s: nat)
    requires Inv(c) && s in c.closers && s in c.sessions && c.closers[s] == Running
    ensures var d := Run(c, Remaining(s, Running));
            && s in d.sessions && Fates(d, s) == {IsCleaned} && d.sessions[s].holder == None
            && d.closing == c.closing - {c.sessions[s].id} && d.live == c.live
  {
    hide Inv, Evolves;
    CloserFacts(c, s);
    var c1 := Step(c, CleanupSettles(s));
    StepInv(c, CleanupSettles(s));
    var c2 := Step(c1, CloserEnds(s));
    StepInv(c1, CloserEnds(s));
    assert Remaining(s, Running)[1..] == [CloserEnds(s), TombstoneGoes(s)];
    assert [CloserEnds(s), TombstoneGoes(s)][1..] == Remaining(s, Ended);
    EndedCompletes(c2, s);
  }

  lemma EndedCompletes(c: Registry, s: nat)
    requires Inv(c) && s in c.closers && s in c.sessions && c.closers[s] == Ended
    ensures var d := Run(c, Remaining(s, Ended));
            && s in d.sessions && Fates(d, s) == {IsCleaned} && d.sessions[s].holder == c.sessions[s].holder == None
            && d.closing == c.closing - {c.sessions[s].id} && d.live == c.live
  {
    hide Inv, Evolves;
    CloserFacts(c, s);
    NobodyHolds(c, s);
    var d := Step(c, TombstoneGoes(s));
    assert Remaining(s, Ended)[1..] == [];
    assert Run(d, []) == d;
  }

  /** The lock of a session whose close task has ended is free: no request gets inside it. */
  lemma NobodyHolds(c: Registry, s: nat)
    requires Inv(c) && s in c.closers && s in c.sessions && c.closers[s] == Ended
    ensures c.sessions[s].holder == None
  {
    hide UsesExact, Numbered, LiveSound, TombsSound;
    assert ContextSound(c.sessions[s], Current(c.live, s, c.sessions[s].id), CloserOf(c.closers, s));
  }
}
