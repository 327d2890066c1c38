/** Runs of the session registry under any interleaving of requests, removals, close tasks and cleanup. */
module SessionRuns {
  import opened Basics
  import opened SessionState

  // ----- the invariant -----

  ghost predicate LiveSound(live: map<string, nat>, sessions: map<nat, Session>, closers: map<nat, CloserPhase>) {
    forall id :: id in live ==>
      && live[id] in sessions && sessions[live[id]].id == id && sessions[live[id]].context == Open
         && live[id] !in closers
  }

  /** Tombstones and close tasks match one to one. */
  ghost predicate TombsSound(closing: map<string, nat>, sessions: map<nat, Session>, closers: map<nat, CloserPhase>) {
    && (forall id :: id in closing ==>
          closing[id] in sessions && sessions[closing[id]].id == id && closing[id] in closers)
    && (forall s :: s in closers ==> s in sessions && sessions[s].id in closing && closing[sessions[s].id] == s)
  }

  ghost predicate Disjoint(live: map<string, nat>, closing: map<string, nat>, maxSessions: int) {
    && (forall id :: id in live ==> id !in closing)
    && (|live| + |closing| <= maxSessions || |live| + |closing| == 0)
  }

  /** How far the close task of a session got, and what has left both tables is cleaned up. */
  predicate ContextSound(s: Session, current: bool, closer: Option<CloserPhase>) {
    match closer
    case Some(Waiting) => s.context == Open
    case Some(Running) => s.context != Open
    case Some(Ended) => s.context == Settled
    case None => current || s.context == Settled
  }

  function CloserOf(closers: map<nat, CloserPhase>, s: nat): Option<CloserPhase> {
    if s in closers then Some(closers[s]) else None
  }

  ghost predicate ContextsSound(live: map<string, nat>, sessions: map<nat, Session>, closers: map<nat, CloserPhase>) {
    forall s :: s in sessions ==> ContextSound(sessions[s], Current(live, s, sessions[s].id), CloserOf(closers, s))
  }

  /** A lock is held by the close task that runs, or by the one request that is inside. */
  ghost predicate LocksSound(sessions: map<nat, Session>, closers: map<nat, CloserPhase>, clients: map<nat, Client>) {
    && (forall s :: s in sessions ==> (sessions[s].holder == Some(Closer) <==> CloserOf(closers, s) == Some(Running)))
    && (forall s :: s in sessions && sessions[s].holder.Some? && sessions[s].holder.value.Request? ==>
          var r := sessions[s].holder.value.request;
          r in clients && clients[r] == Client(s, Inside))
    && (forall r :: r in clients ==> clients[r].session in sessions)
    && (forall r :: r in clients && clients[r].phase == Inside ==>
          sessions[clients[r].session].holder == Some(Request(r)) && sessions[clients[r].session].context == Open)
  }

  function UsersOf(clients: map<nat, Client>, s: nat): set<nat> {
    set r | r in clients && clients[r].session == s && clients[r].phase != Chosen
  }

  ghost predicate UsesExact(sessions: map<nat, Session>, clients: map<nat, Client>) {
    forall s :: s in sessions ==> sessions[s].inUse == |UsersOf(clients, s)|
  }

  ghost predicate Numbered(sessions: map<nat, Session>, nextSession: nat) {
    forall s :: s in sessions ==> s < nextSession
  }

  ghost predicate Inv(c: Registry) {
    && LiveSound(c.live, c.sessions, c.closers)
    && TombsSound(c.closing, c.sessions, c.closers)
    && Disjoint(c.live, c.closing, c.maxSessions)
    && ContextsSound(c.live, c.sessions, c.closers)
    && LocksSound(c.sessions, c.closers, c.clients)
    && UsesExact(c.sessions, c.clients)
    && Numbered(c.sessions, c.nextSession)
    && (c.closed ==> c.live == map[])
    && !c.raised
  }

  /** A session keeps its id, and its context only moves on. */
  ghost predicate SessionsEvolve(before: map<nat, Session>, after: map<nat, Session>) {
    forall s :: s in before ==>
      && s in after && after[s].id == before[s].id
      && (before[s].context != Open ==> after[s].context != Open)
      && (before[s].context == Settled ==> after[s].context == Settled)
  }

  /** A session that is not registered does not become so again. */
  ghost predicate LeavesForGood(sessions: map<nat, Session>, before: map<string, nat>, after: map<string, nat>) {
    forall s :: s in sessions && Current(after, s, sessions[s].id) ==> Current(before, s, sessions[s].id)
  }

  /** No request gets inside a session that is not registered. */
  ghost predicate NobodyEnters(sessions: map<nat, Session>, live: map<string, nat>, before: map<nat, Client>,
                               after: map<nat, Client>) {
    forall r :: r in after && after[r].phase == Inside && after[r].session in sessions
                && !Current(live, after[r].session, sessions[after[r].session].id) ==>
      r in before && before[r] == after[r]
  }

  /** A session keeps its id; once it has left the registry it never returns, and from then on no
      request gets inside it. */
  ghost predicate Evolves(p: Registry, q: Registry) {
    && p.nextSession <= q.nextSession
    && q.maxSessions == p.maxSessions
    && (p.closed ==> q.closed)
    && SessionsEvolve(p.sessions, q.sessions)
    && LeavesForGood(p.sessions, p.live, q.live)
    && NobodyEnters(p.sessions, p.live, p.clients, q.clients)
  }

  // ----- runs -----

  datatype Action =
    | Arrives(r: nat, id: string, now: int)
    | ArrivesNew(r: nat, id: string, expiresAt: Option<int>)
    | Creates(id: string, expiresAt: Option<int>)
    | Resumes(r: nat)
    | Enters(r: nat)
    | Leaves(r: nat)
    | Prunes(exclude: Option<string>, now: int)
    | Evicts(s: nat)
    | Destroys(id: string)
    | Closes
    | CloserEnters(s: nat)
    | CleanupSettles(s: nat)
    | CloserEnds(s: nat)
    | TombstoneGoes(s: nat)

  function Step(c: Registry, a: Action): Registry {
    match a
    case Arrives(r, id, now) => Arrive(c, r, id, now)
    case ArrivesNew(r, id, expiresAt) => ArriveNew(c, r, id, expiresAt)
    case Creates(id, expiresAt) => Register(c, id, expiresAt)
    case Resumes(r) => Resume(c, r)
    case Enters(r) => Enter(c, r)
    case Leaves(r) => Leave(c, r)
    case Prunes(exclude, now) => Prune(c, exclude, now)
    case Evicts(s) => Evict(c, s)
    case Destroys(id) => Destroy(c, id)
    case Closes => Close(c)
    case CloserEnters(s) => CloserEnter(c, s)
    case CleanupSettles(s) => CleanupSettle(c, s)
    case CloserEnds(s) => CloserEnd(c, s)
    case TombstoneGoes(s) => ClosingDone(c, s)
  }

  function Run(c: Registry, actions: seq<Action>): Registry
    decreases |actions|
  {
    if actions == [] then c else Run(Step(c, actions[0]), actions[1..])
  }

  lemma EvolvesSelf(c: Registry)
    ensures Evolves(c, c)
  {
  }

  lemma EvolvesTransitive(p: Registry, q: Registry, r: Registry)
    requires Evolves(p, q) && Evolves(q, r)
    ensures Evolves(p, r)
  {
  }

  /** Nothing changes that `Evolves` looks at, apart from the sessions. */
  lemma OnlySessions(p: Registry, q: Registry)
    requires SessionsEvolve(p.sessions, q.sessions) && q.live == p.live && q.clients == p.clients
    requires q.nextSession == p.nextSession && q.closed == p.closed && q.maxSessions == p.maxSessions
    ensures Evolves(p, q)
  {
  }

  // ----- registration -----

  lemma RegisterTables(c: Registry, id: string, s: nat, session: Session)
    requires LiveSound(c.live, c.sessions, c.closers) && TombsSound(c.closing, c.sessions, c.closers)
    requires Disjoint(c.live, c.closing, c.maxSessions) && Numbered(c.sessions, c.nextSession)
    requires s == c.nextSession && session.id == id && session.context == Open
    requires id !in c.live && id !in c.closing && |c.live| + |c.closing| < c.maxSessions
    ensures s !in c.sessions
    ensures LiveSound(c.live[id := s], c.sessions[s := session], c.closers)
    ensures TombsSound(c.closing, c.sessions[s := session], c.closers)
    ensures Disjoint(c.live[id := s], c.closing, c.maxSessions)
    ensures Numbered(c.sessions[s := session], s + 1)
  {
    assert |c.live[id := s]| == |c.live| + 1;
  }

  lemma RegisterRest(c: Registry, id: string, s: nat, session: Session)
    requires ContextsSound(c.live, c.sessions, c.closers) && LocksSound(c.sessions, c.closers, c.clients)
    requires TombsSound(c.closing, c.sessions, c.closers) && UsesExact(c.sessions, c.clients)
    requires s !in c.sessions && session.id == id && session.holder == None && session.inUse == 0
             && session.context == Open
    requires id !in c.live
    ensures ContextsSound(c.live[id := s], c.sessions[s := session], c.closers)
    ensures LocksSound(c.sessions[s := session], c.closers, c.clients)
    ensures UsesExact(c.sessions[s := session], c.clients)
  {
    assert UsersOf(c.clients, s) == {};
  }

  lemma RegisterEvolves(c: Registry, id: string, s: nat, session: Session)
    requires s !in c.sessions && LocksSound(c.sessions, c.closers, c.clients)
    ensures SessionsEvolve(c.sessions, c.sessions[s := session])
    ensures LeavesForGood(c.sessions, c.live, c.live[id := s])
    ensures NobodyEnters(c.sessions, c.live, c.clients, c.clients)
  {
  }

  lemma RegisterInv(c: Registry, id: string, expiresAt: Option<int>)
    requires Inv(c)
    ensures Inv(Register(c, id, expiresAt)) && Evolves(c, Register(c, id, expiresAt))
  {
    hide LiveSound, TombsSound, Disjoint, ContextsSound, LocksSound, UsesExact, Numbered, SessionsEvolve, LeavesForGood,
      NobodyEnters;
    if RegisterResultOf(c, id).Registered? {
      var s, session := c.nextSession, Session(id, expiresAt, None, 0, Open);
      RegisterTables(c, id, s, session);
      RegisterRest(c, id, s, session);
      RegisterEvolves(c, id, s, session);
    } else {
      EvolvesSelf(c);
    }
  }

  // ----- counting uses -----

  lemma QueueUses(sessions: map<nat, Session>, clients: map<nat, Client>, r: nat, s: nat)
    requires UsesExact(sessions, clients) && s in sessions
    requires r in clients ==> clients[r].phase == Chosen
    ensures sessions[s].inUse >= 0
    ensures UsesExact(sessions[s := sessions[s].(inUse := sessions[s].inUse + 1)], clients[r := Client(s, Queued)])
  {
    var after := clients[r := Client(s, Queued)];
    assert UsersOf(after, s) == UsersOf(clients, s) + {r};
    assert r !in UsersOf(clients, s);
    assert forall x :: x in sessions && x != s ==> UsersOf(after, x) == UsersOf(clients, x);
  }

  lemma DropUses(sessions: map<nat, Session>, clients: map<nat, Client>, r: nat)
    requires UsesExact(sessions, clients) && r in clients && clients[r].phase != Chosen
             && clients[r].session in sessions
    ensures var s := clients[r].session;
            && sessions[s].inUse > 0
            && UsesExact(sessions[s := sessions[s].(inUse := sessions[s].inUse - 1)], clients - {r})
  {
    var s := clients[r].session;
    assert r in UsersOf(clients, s);
    assert UsersOf(clients - {r}, s) == UsersOf(clients, s) - {r};
    assert forall x :: x in sessions && x != s ==> UsersOf(clients - {r}, x) == UsersOf(clients, x);
  }

  lemma SameUses(sessions: map<nat, Session>, after: map<nat, Session>, clients: map<nat, Client>,
                 later: map<nat, Client>)
    requires UsesExact(sessions, clients) && after.Keys == sessions.Keys
    requires forall s :: s in sessions ==> after[s].inUse == sessions[s].inUse
    requires forall r :: (r in later && later[r].phase != Chosen <==> r in clients && clients[r].phase != Chosen)
                         && (r in later && r in clients ==> later[r].session == clients[r].session)
    ensures UsesExact(after, later)
  {
    assert forall s :: s in sessions ==> UsersOf(later, s) == UsersOf(clients, s);
  }

  /** The same sessions apart from how many use each. */
  predicate SameButUses(sessions: map<nat, Session>, after: map<nat, Session>) {
    && after.Keys == sessions.Keys
    && forall s :: s in sessions ==> after[s] == sessions[s].(inUse := after[s].inUse)
  }

  lemma UsesTables(c: Registry, after: map<nat, Session>)
    requires LiveSound(c.live, c.sessions, c.closers) && TombsSound(c.closing, c.sessions, c.closers)
    requires Numbered(c.sessions, c.nextSession) && SameButUses(c.sessions, after)
    ensures LiveSound(c.live, after, c.closers) && TombsSound(c.closing, after, c.closers)
    ensures Numbered(after, c.nextSession) && SessionsEvolve(c.sessions, after)
  {
  }

  lemma UsesLocks(c: Registry, after: map<nat, Session>)
    requires ContextsSound(c.live, c.sessions, c.closers) && LocksSound(c.sessions, c.closers, c.clients)
    requires SameButUses(c.sessions, after)
    ensures ContextsSound(c.live, after, c.closers) && LocksSound(after, c.closers, c.clients)
  {
  }

  /** A request that is not inside does not matter to the locks. */
  lemma ClientsMove(sessions: map<nat, Session>, closers: map<nat, CloserPhase>, clients: map<nat, Client>,
                    after: map<nat, Client>, r: nat)
    requires LocksSound(sessions, closers, clients) && (r in clients ==> clients[r].phase != Inside)
    requires forall x :: x != r ==> (x in clients <==> x in after) && (x in clients ==> after[x] == clients[x])
    requires r in after ==> after[r].phase != Inside && after[r].session in sessions
    ensures LocksSound(sessions, closers, after)
    ensures forall live :: NobodyEnters(sessions, live, clients, after)
  {
  }

  /** Requests that are not inside come, go and are counted. */
  lemma ClientsInv(c: Registry, d: Registry, r: nat)
    requires Inv(c) && d == c.(sessions := d.sessions, clients := d.clients)
    requires SameButUses(c.sessions, d.sessions) && UsesExact(d.sessions, d.clients)
    requires r in c.clients ==> c.clients[r].phase != Inside
    requires forall x :: x != r ==>
               (x in c.clients <==> x in d.clients) && (x in c.clients ==> d.clients[x] == c.clients[x])
    requires r in d.clients ==> d.clients[r].phase != Inside && d.clients[r].session in c.sessions
    ensures Inv(d) && Evolves(c, d)
  {
    hide LiveSound, TombsSound, Disjoint, ContextsSound, LocksSound, UsesExact, Numbered, SessionsEvolve, NobodyEnters;
    UsesTables(c, d.sessions);
    UsesLocks(c, d.sessions);
    ClientsMove(c.sessions, c.closers, c.clients, d.clients, r);
    ClientsMove(d.sessions, c.closers, c.clients, d.clients, r);
  }

  lemma QueueShape(c: Registry, r: nat, s: nat)
    requires s in c.sessions && c.sessions[s].inUse >= 0
    ensures Queue(c, r, s) == c.(sessions := c.sessions[s := c.sessions[s].(inUse := c.sessions[s].inUse + 1)],
                                 clients := c.clients[r := Client(s, Queued)])
  {
  }

  lemma QueueInv(c: Registry, r: nat, s: nat)
    requires Inv(c) && s in c.sessions && (r in c.clients ==> c.clients[r].phase == Chosen)
    ensures Inv(Queue(c, r, s)) && Evolves(c, Queue(c, r, s))
  {
    hide LiveSound, TombsSound, Disjoint, ContextsSound, LocksSound, UsesExact, Numbered, Evolves, Queue;
    QueueUses(c.sessions, c.clients, r, s);
    QueueShape(c, r, s);
    ClientsInv(c, Queue(c, r, s), r);
  }

  // ----- requests -----

  lemma ArriveInv(c: Registry, r: nat, id: string, now: int)
    requires Inv(c)
    ensures Inv(Arrive(c, r, id, now)) && Evolves(c, Arrive(c, r, id, now))
  {
    hide Inv, Evolves, Queue;
    EvolvesSelf(c);
    if r !in c.clients && id in c.live && c.live[id] in c.sessions {
      QueueInv(c, r, c.live[id]);
    }
  }

  lemma ResumeInv(c: Registry, r: nat)
    requires Inv(c)
    ensures Inv(Resume(c, r)) && Evolves(c, Resume(c, r))
  {
    hide Inv, Evolves, Queue;
    EvolvesSelf(c);
    if r in c.clients && c.clients[r].phase == Chosen {
      ClientKnown(c, r);
      QueueInv(c, r, c.clients[r].session);
    }
  }

  lemma ClientKnown(c: Registry, r: nat)
    requires Inv(c) && r in c.clients
    ensures c.clients[r].session in c.sessions
    ensures c.clients[r].phase == Inside ==>
              c.sessions[c.clients[r].session].holder == Some(Request(r))
                  && c.sessions[c.clients[r].session].context == Open
  {
    hide LiveSound, TombsSound, Disjoint, ContextsSound, UsesExact, Numbered;
  }

  lemma LiveKnown(c: Registry, id: string)
    requires Inv(c) && id in c.live
    ensures c.live[id] in c.sessions && c.sessions[c.live[id]].id == id && c.sessions[c.live[id]].context == Open
    ensures c.live[id] !in c.closers && id !in c.closing
  {
    hide TombsSound, ContextsSound, LocksSound, UsesExact, Numbered;
  }

  lemma ChooseInv(c: Registry, r: nat, s: nat)
    requires Inv(c) && r !in c.clients && s in c.sessions
    ensures var d := c.(clients := c.clients[r := Client(s, Chosen)]);
            Inv(d) && Evolves(c, d)
  {
    hide LiveSound, TombsSound, Disjoint, ContextsSound, LocksSound, UsesExact, Numbered, Evolves;
    var d := c.(clients := c.clients[r := Client(s, Chosen)]);
    SameUses(c.sessions, c.sessions, c.clients, d.clients);
    ClientsInv(c, d, r);
  }

  lemma ArriveNewInv(c: Registry, r: nat, id: string, expiresAt: Option<int>)
    requires Inv(c)
    ensures Inv(ArriveNew(c, r, id, expiresAt)) && Evolves(c, ArriveNew(c, r, id, expiresAt))
  {
    hide Inv, Evolves, Queue, Register;
    EvolvesSelf(c);
    if r !in c.clients {
      match RegisterResultOf(c, id)
      case Registered(s) =>
        var d := Register(c, id, expiresAt);
        RegisterInv(c, id, expiresAt);
        assert s in d.sessions && d.clients == c.clients by { RegisterShape(c, id, expiresAt); }
        QueueInv(d, r, s);
        EvolvesTransitive(c, d, Queue(d, r, s));
      case Existing(s) =>
        LiveKnown(c, id);
        ChooseInv(c, r, s);
      case _ =>
    }
  }

  lemma RegisterShape(c: Registry, id: string, expiresAt: Option<int>)
    requires RegisterResultOf(c, id).Registered?
    ensures Register(c, id, expiresAt)
            == c.(live := c.live[id := c.nextSession],
                  sessions := c.sessions[c.nextSession := Session(id, expiresAt, None, 0, Open)],
                  nextSession := c.nextSession + 1)
  {
  }

  lemma HeldLocks(c: Registry, r: nat, s: nat)
    requires LocksSound(c.sessions, c.closers, c.clients) && LiveSound(c.live, c.sessions, c.closers)
    requires r in c.clients && c.clients[r] == Client(s, Queued) && s in c.sessions && c.sessions[s].holder == None
    requires Current(c.live, s, c.sessions[s].id)
    ensures var sessions := c.sessions[s := c.sessions[s].(holder := Some(Request(r)))];
            && LocksSound(sessions, c.closers, c.clients[r := Client(s, Inside)])
            && NobodyEnters(c.sessions, c.live, c.clients, c.clients[r := Client(s, Inside)])
  {
  }

  /** The same sessions apart from who holds each lock. */
  predicate SameButHolder(sessions: map<nat, Session>, after: map<nat, Session>) {
    && after.Keys == sessions.Keys
    && forall s :: s in sessions ==> after[s] == sessions[s].(holder := after[s].holder, inUse := after[s].inUse)
  }

  lemma HolderTables(c: Registry, after: map<nat, Session>)
    requires LiveSound(c.live, c.sessions, c.closers) && TombsSound(c.closing, c.sessions, c.closers)
    requires ContextsSound(c.live, c.sessions, c.closers)
    requires Numbered(c.sessions, c.nextSession) && SameButHolder(c.sessions, after)
    ensures LiveSound(c.live, after, c.closers) && TombsSound(c.closing, after, c.closers)
    ensures Numbered(after, c.nextSession) && SessionsEvolve(c.sessions, after)
            && ContextsSound(c.live, after, c.closers)
  {
  }

  lemma GetInsideInv(c: Registry, r: nat)
    requires Inv(c) && r in c.clients && c.clients[r].phase == Queued
    requires var s := c.clients[r].session; s in c.sessions && c.sessions[s].holder == None && IsCurrent(c, s)
    ensures Inv(Enter(c, r)) && Evolves(c, Enter(c, r))
  {
    hide LiveSound, TombsSound, Disjoint, ContextsSound, LocksSound, UsesExact, Numbered, SessionsEvolve, NobodyEnters;
    var s := c.clients[r].session;
    var after := c.sessions[s := c.sessions[s].(holder := Some(Request(r)))];
    HeldLocks(c, r, s);
    HolderTables(c, after);
    SameUses(c.sessions, after, c.clients, c.clients[r := Client(s, Inside)]);
  }

  lemma TurnAwayInv(c: Registry, r: nat)
    requires Inv(c) && r in c.clients && c.clients[r].phase == Queued
    ensures var d := CountUse(c, c.clients[r].session, -1).(clients := c.clients - {r});
            Inv(d) && Evolves(c, d)
  {
    hide LiveSound, TombsSound, Disjoint, ContextsSound, LocksSound, UsesExact, Numbered, Evolves;
    ClientKnown(c, r);
    DropUses(c.sessions, c.clients, r);
    ClientsInv(c, CountUse(c, c.clients[r].session, -1).(clients := c.clients - {r}), r);
  }

  lemma EnterInv(c: Registry, r: nat)
    requires Inv(c)
    ensures Inv(Enter(c, r)) && Evolves(c, Enter(c, r))
  {
    hide Inv, Evolves, SetHolder, CountUse;
    EvolvesSelf(c);
    if r in c.clients && c.clients[r].phase == Queued {
      var s := c.clients[r].session;
      ClientKnown(c, r);
      if c.sessions[s].holder == None {
        if IsCurrent(c, s) {
          GetInsideInv(c, r);
        } else {
          TurnAwayInv(c, r);
        }
      }
    }
  }

  lemma FreedLocks(c: Registry, r: nat, after: map<nat, Session>)
    requires LocksSound(c.sessions, c.closers, c.clients)
    requires r in c.clients && c.clients[r].phase == Inside && c.clients[r].session in c.sessions
    requires SameButHolder(c.sessions, after)
    requires forall x :: x in after ==>
               after[x].holder == if x == c.clients[r].session then None else c.sessions[x].holder
    ensures LocksSound(after, c.closers, c.clients - {r})
    ensures NobodyEnters(c.sessions, c.live, c.clients, c.clients - {r})
  {
  }

  lemma GetOutInv(c: Registry, r: nat)
    requires Inv(c) && r in c.clients && c.clients[r].phase == Inside
    ensures Inv(Leave(c, r)) && Evolves(c, Leave(c, r))
  {
    hide LiveSound, TombsSound, Disjoint, ContextsSound, LocksSound, UsesExact, Numbered, SessionsEvolve, NobodyEnters,
      Leave;
    ClientKnown(c, r);
    var s := c.clients[r].session;
    var after := c.sessions[s := c.sessions[s].(holder := None, inUse := c.sessions[s].inUse - 1)];
    DropUses(c.sessions, c.clients, r);
    UsesAnyHolder(c.sessions[s := c.sessions[s].(inUse := c.sessions[s].inUse - 1)], after, c.clients - {r});
    FreedLocks(c, r, after);
    HolderTables(c, after);
    GetOutShape(c, r);
  }

  lemma GetOutShape(c: Registry, r: nat)
    requires r in c.clients && c.clients[r].phase == Inside && c.clients[r].session in c.sessions
    requires c.sessions[c.clients[r].session].inUse > 0
    ensures var s := c.clients[r].session;
            Leave(c, r) == c.(clients := c.clients - {r},
                              sessions := c.sessions[s :=
                                  c.sessions[s].(holder := None, inUse := c.sessions[s].inUse - 1)])
  {
    var s := c.clients[r].session;
    var p := c.(clients := c.clients - {r}, sessions := c.sessions[s := c.sessions[s].(holder := None)]);
    assert SetHolder(c.(clients := c.clients - {r}), s, None) == p;
    assert p.sessions[s := p.sessions[s].(inUse := p.sessions[s].inUse - 1)]
           == c.sessions[s := c.sessions[s].(holder := None, inUse := c.sessions[s].inUse - 1)];
  }

  lemma UsesAnyHolder(sessions: map<nat, Session>, after: map<nat, Session>, clients: map<nat, Client>)
    requires UsesExact(sessions, clients) && after.Keys == sessions.Keys
    requires forall s :: s in sessions ==> after[s].inUse == sessions[s].inUse
    ensures UsesExact(after, clients)
  {
  }

  lemma LeaveInv(c: Registry, r: nat)
    requires Inv(c)
    ensures Inv(Leave(c, r)) && Evolves(c, Leave(c, r))
  {
    hide Inv, Evolves, SetHolder, CountUse;
    EvolvesSelf(c);
    if r in c.clients {
      match c.clients[r].phase
      case Chosen => UnchooseInv(c, r);
      case Queued =>
        TurnAwayInv(c, r);
        assert Leave(c, r) == CountUse(c, c.clients[r].session, -1).(clients := c.clients - {r})
          by { CountUseOnly(c, r); }
      case Inside => GetOutInv(c, r);
    }
  }

  lemma CountUseOnly(c: Registry, r: nat)
    requires r in c.clients
    ensures CountUse(c.(clients := c.clients - {r}), c.clients[r].session, -1)
            == CountUse(c, c.clients[r].session, -1).(clients := c.clients - {r})
  {
    var s := c.clients[r].session;
    if s in c.sessions && c.sessions[s].inUse > 0 {
    }
  }

  lemma UnchooseInv(c: Registry, r: nat)
    requires Inv(c) && r in c.clients && c.clients[r].phase == Chosen
    ensures var d := c.(clients := c.clients - {r});
            Inv(d) && Evolves(c, d)
  {
    hide LiveSound, TombsSound, Disjoint, ContextsSound, LocksSound, UsesExact, Numbered, Evolves;
    var d := c.(clients := c.clients - {r});
    SameUses(c.sessions, c.sessions, c.clients, d.clients);
    ClientsInv(c, d, r);
  }

  // ----- removal -----

  /** A removed session gets a tombstone and a close task: none is dropped. */
  lemma RemoveTables(c: Registry, ids: set<string>)
    requires LiveSound(c.live, c.sessions, c.closers) && TombsSound(c.closing, c.sessions, c.closers)
    requires Disjoint(c.live, c.closing, c.maxSessions)
    ensures var d := Remove(c, ids);
            LiveSound(d.live, d.sessions, d.closers) && TombsSound(d.closing, d.sessions, d.closers)
  {
    var d := Remove(c, ids);
    forall id | id in d.closing
      ensures d.closing[id] in d.sessions && d.sessions[d.closing[id]].id == id && d.closing[id] in d.closers {
      if id !in c.closing {
        assert Starts(c, ids, c.live[id]);
      }
    }
    forall s | s in d.closers
      ensures s in d.sessions && d.sessions[s].id in d.closing && d.closing[d.sessions[s].id] == s {
      if s !in c.closers {
        assert Starts(c, ids, s);
      }
    }
  }

  lemma RemoveCounts(live: map<string, nat>, closing: map<string, nat>, maxSessions: int, ids: set<string>)
    requires Disjoint(live, closing, maxSessions)
    ensures Disjoint(live - ids, closing + Tombstones(live, closing, ids), maxSessions)
  {
    var more := Tombstones(live, closing, ids);
    RemovedKeys(live, closing, ids);
    MovedCount(live.Keys, closing.Keys, live.Keys * ids);
    assert |(live - ids).Keys| == |live - ids| && |(closing + more).Keys| == |closing + more|;
    assert |live.Keys| == |live| && |closing.Keys| == |closing|;
  }

  lemma RemovedKeys(live: map<string, nat>, closing: map<string, nat>, ids: set<string>)
    requires forall id :: id in live ==> id !in closing
    ensures (live - ids).Keys == live.Keys - live.Keys * ids
    ensures (closing + Tombstones(live, closing, ids)).Keys == closing.Keys + live.Keys * ids
  {
  }

  lemma MovedCount(a: set<string>, b: set<string>, gone: set<string>)
    requires gone <= a && a !! b
    ensures |a - gone| + |b + gone| == |a| + |b|
  {
    assert |a - gone| == |a| - |gone|;
    assert b !! gone;
  }

  lemma StartsWaiting(c: Registry, ids: set<string>, s: nat)
    requires LiveSound(c.live, c.sessions, c.closers) && Disjoint(c.live, c.closing, c.maxSessions) && s in c.sessions
    ensures var d := Remove(c, ids);
            if Current(c.live, s, c.sessions[s].id) && c.sessions[s].id in ids
            then CloserOf(d.closers, s) == Some(Waiting) && CloserOf(c.closers, s) == None
                && !Current(d.live, s, c.sessions[s].id)
                 && c.sessions[s].context == Open
            else CloserOf(d.closers, s) == CloserOf(c.closers, s)
                 && Current(d.live, s, c.sessions[s].id) == Current(c.live, s, c.sessions[s].id)
  {
    StartsExactly(c, ids, s);
    hide Started, Starts, LiveSound, Disjoint;
  }

  lemma StartsExactly(c: Registry, ids: set<string>, s: nat)
    requires LiveSound(c.live, c.sessions, c.closers) && Disjoint(c.live, c.closing, c.maxSessions) && s in c.sessions
    ensures s in Started(c, ids) <==> Current(c.live, s, c.sessions[s].id) && c.sessions[s].id in ids
    ensures s in Started(c, ids) ==> Started(c, ids)[s] == Waiting
    ensures Current(c.live, s, c.sessions[s].id) ==> s !in c.closers && c.sessions[s].context == Open
  {
  }

  lemma RemoveContexts(c: Registry, ids: set<string>)
    requires LiveSound(c.live, c.sessions, c.closers) && Disjoint(c.live, c.closing, c.maxSessions)
    requires ContextsSound(c.live, c.sessions, c.closers)
    ensures var d := Remove(c, ids);
            ContextsSound(d.live, c.sessions, d.closers) && LeavesForGood(c.sessions, c.live, d.live)
  {
    hide Remove, LiveSound, Disjoint, Current, CloserOf;
    forall s | s in c.sessions ensures ContextSound(c.sessions[s], Current(Remove(c, ids).live, s, c.sessions[s].id),
                                                    CloserOf(Remove(c, ids).closers, s))
                               ensures Current(Remove(c, ids).live, s, c.sessions[s].id)
                                       ==> Current(c.live, s, c.sessions[s].id) {
      StartsWaiting(c, ids, s);
    }
  }

  lemma RemoveLocks(c: Registry, ids: set<string>)
    requires LiveSound(c.live, c.sessions, c.closers) && Disjoint(c.live, c.closing, c.maxSessions)
    requires LocksSound(c.sessions, c.closers, c.clients)
    ensures LocksSound(c.sessions, Remove(c, ids).closers, c.clients)
    ensures NobodyEnters(c.sessions, c.live, c.clients, c.clients)
  {
    hide Remove, LiveSound, Disjoint, Current, CloserOf;
    forall s | s in c.sessions
      ensures c.sessions[s].holder == Some(Closer) <==> CloserOf(Remove(c, ids).closers, s) == Some(Running) {
      StartsWaiting(c, ids, s);
    }
  }

  lemma RemoveShape(c: Registry, ids: set<string>)
    ensures var d := Remove(c, ids);
            && d == c.(live := c.live - ids, closing := d.closing, closers := d.closers)
            && d.closing == c.closing + Tombstones(c.live, c.closing, ids)
  {
  }

  lemma RemoveInv(c: Registry, ids: set<string>)
    requires Inv(c)
    ensures Inv(Remove(c, ids)) && Evolves(c, Remove(c, ids))
  {
    hide LiveSound, TombsSound, Disjoint, ContextsSound, LocksSound, UsesExact, Numbered, LeavesForGood, NobodyEnters,
      Remove;
    RemoveTables(c, ids);
    RemoveCounts(c.live, c.closing, c.maxSessions, ids);
    RemoveContexts(c, ids);
    RemoveLocks(c, ids);
    RemoveShape(c, ids);
  }

  lemma CloseInv(c: Registry)
    requires Inv(c)
    ensures Inv(Close(c)) && Evolves(c, Close(c))
  {
    hide LiveSound, TombsSound, Disjoint, ContextsSound, LocksSound, UsesExact, Numbered, SessionsEvolve, LeavesForGood,
      NobodyEnters, Remove;
    RemoveInv(c, c.live.Keys);
    RemoveShape(c, c.live.Keys);
    assert c.live - c.live.Keys == map[];
    assert Close(c) == Remove(c, c.live.Keys).(closed := true) by { CloseShape(c); }
  }

  lemma CloseShape(c: Registry)
    ensures Close(c) == Remove(c, c.live.Keys).(closed := true)
  {
    assert forall s :: Starts(c.(closed := true), c.live.Keys, s) == Starts(c, c.live.Keys, s);
  }

  // ----- close tasks -----

  /** The close task of one session moves on. */
  lemma CloserTables(c: Registry, s: nat, phase: CloserPhase, session: Session)
    requires LiveSound(c.live, c.sessions, c.closers) && TombsSound(c.closing, c.sessions, c.closers)
    requires Numbered(c.sessions, c.nextSession) && UsesExact(c.sessions, c.clients)
    requires s in c.sessions && s in c.closers && session.id == c.sessions[s].id && session.inUse == c.sessions[s].inUse
    ensures var sessions, closers := c.sessions[s := session], c.closers[s := phase];
            && LiveSound(c.live, sessions, closers) && TombsSound(c.closing, sessions, closers)
            && Numbered(sessions, c.nextSession) && UsesExact(sessions, c.clients)
  {
  }

  lemma CloserLocks(c: Registry, s: nat, phase: CloserPhase, session: Session)
    requires LocksSound(c.sessions, c.closers, c.clients) && ContextsSound(c.live, c.sessions, c.closers)
    requires s in c.sessions && s in c.closers && session.id == c.sessions[s].id
    requires c.sessions[s].holder == None || c.sessions[s].holder == Some(Closer)
    requires session.holder == if phase == Running then Some(Closer) else None
    requires ContextSound(session, false, Some(phase)) && phase != Waiting
    requires c.sessions[s].context == Settled ==> session.context == Settled
    ensures var sessions, closers := c.sessions[s := session], c.closers[s := phase];
            && LocksSound(sessions, closers, c.clients) && ContextsSound(c.live, sessions, closers)
            && SessionsEvolve(c.sessions, sessions)
  {
  }

  lemma CloserMoves(c: Registry, s: nat, phase: CloserPhase, session: Session)
    requires Inv(c) && s in c.sessions && s in c.closers && session.id == c.sessions[s].id
             && session.inUse == c.sessions[s].inUse
    requires c.sessions[s].holder == None || c.sessions[s].holder == Some(Closer)
    requires session.holder == if phase == Running then Some(Closer) else None
    requires ContextSound(session, false, Some(phase)) && phase != Waiting
    requires c.sessions[s].context == Settled ==> session.context == Settled
    ensures var d := c.(sessions := c.sessions[s := session], closers := c.closers[s := phase]);
            Inv(d) && Evolves(c, d)
  {
    hide LiveSound, TombsSound, Disjoint, ContextsSound, LocksSound, UsesExact, Numbered, SessionsEvolve, Evolves;
    CloserTables(c, s, phase, session);
    CloserLocks(c, s, phase, session);
    OnlySessions(c, c.(sessions := c.sessions[s := session], closers := c.closers[s := phase]));
  }

  lemma CloserHolds(c: Registry, s: nat)
    requires Inv(c) && s in c.sessions
    ensures c.sessions[s].holder == Some(Closer) <==> CloserOf(c.closers, s) == Some(Running)
    ensures ContextSound(c.sessions[s], IsCurrent(c, s), CloserOf(c.closers, s))
    ensures IsCurrent(c, s) ==> s !in c.closers && c.sessions[s].context == Open
  {
    hide TombsSound, UsesExact, Numbered;
  }

  lemma CloserInv(c: Registry, s: nat)
    requires Inv(c)
    ensures Inv(CloserEnter(c, s)) && Evolves(c, CloserEnter(c, s))
    ensures Inv(CleanupSettle(c, s)) && Evolves(c, CleanupSettle(c, s))
    ensures Inv(CloserEnd(c, s)) && Evolves(c, CloserEnd(c, s))
  {
    hide Inv, Evolves, Current;
    EvolvesSelf(c);
    if s in c.sessions {
      CloserHolds(c, s);
      var session := c.sessions[s];
      if s in c.closers && c.closers[s] == Waiting && session.holder == None {
        CloserMoves(c, s, Running, session.(holder := Some(Closer), context := BeingClosed));
      }
      if session.context == BeingClosed {
        CloserMoves(c, s, Running, session.(context := Settled));
        assert c.closers[s := Running] == c.closers;
      }
      if s in c.closers && c.closers[s] == Running && session.context == Settled {
        CloserMoves(c, s, Ended, session.(holder := None));
      }
    }
  }

  lemma DoneTables(c: Registry, s: nat)
    requires LiveSound(c.live, c.sessions, c.closers) && TombsSound(c.closing, c.sessions, c.closers)
    requires ContextsSound(c.live, c.sessions, c.closers) && LocksSound(c.sessions, c.closers, c.clients)
    requires s in c.sessions && s in c.closers && c.closers[s] == Ended
    ensures var closers, closing := c.closers - {s}, c.closing - {c.sessions[s].id};
            && LiveSound(c.live, c.sessions, closers) && TombsSound(closing, c.sessions, closers)
            && ContextsSound(c.live, c.sessions, closers) && LocksSound(c.sessions, closers, c.clients)
            && c.sessions[s].id in c.closing && c.closing[c.sessions[s].id] == s
  {
  }

  lemma ClosingDoneInv(c: Registry, s: nat)
    requires Inv(c)
    ensures Inv(ClosingDone(c, s)) && Evolves(c, ClosingDone(c, s))
  {
    hide LiveSound, TombsSound, ContextsSound, LocksSound, UsesExact, Numbered, Evolves;
    EvolvesSelf(c);
    if s in c.closers && c.closers[s] == Ended && s in c.sessions {
      DoneTables(c, s);
      assert |c.closing - {c.sessions[s].id}| <= |c.closing| by {
        assert (c.closing - {c.sessions[s].id}).Keys == c.closing.Keys - {c.sessions[s].id};
      }
      assert SessionsEvolve(c.sessions, c.sessions);
      OnlySessions(c, ClosingDone(c, s));
    }
  }

  /** Every action keeps the invariant, and a session that left the registry stays out. */
  lemma StepInv(c: Registry, a: Action)
    requires Inv(c)
    ensures Inv(Step(c, a)) && Evolves(c, Step(c, a))
  {
    hide Inv, Evolves, Arrive, ArriveNew, Register, Resume, Enter, Leave, Remove, Close, CloserEnter, CleanupSettle,
      CloserEnd, ClosingDone, PrunedIds, IsCurrent;
    EvolvesSelf(c);
    match a
    case Arrives(r, id, now) => ArriveInv(c, r, id, now);
    case ArrivesNew(r, id, expiresAt) => ArriveNewInv(c, r, id, expiresAt);
    case Creates(id, expiresAt) => RegisterInv(c, id, expiresAt);
    case Resumes(r) => ResumeInv(c, r);
    case Enters(r) => EnterInv(c, r);
    case Leaves(r) => LeaveInv(c, r);
    case Prunes(exclude, now) => RemoveInv(c, PrunedIds(c, exclude, now));
    case Evicts(s) => if s in c.sessions { RemoveInv(c, {c.sessions[s].id}); }
        else { assert Evict(c, s) == c by { NotCurrent(c, s); } }
    case Destroys(id) => RemoveInv(c, {id});
    case Closes => CloseInv(c);
    case CloserEnters(s) => CloserInv(c, s);
    case CleanupSettles(s) => CloserInv(c, s);
    case CloserEnds(s) => CloserInv(c, s);
    case TombstoneGoes(s) => ClosingDoneInv(c, s);
  }

  lemma NotCurrent(c: Registry, s: nat)
    requires s !in c.sessions
    ensures !IsCurrent(c, s)
  {
  }

  lemma {:induction false} RunInv(c: Registry, actions: seq<Action>)
    requires Inv(c)
    ensures Inv(Run(c, actions)) && Evolves(c, Run(c, actions))
    decreases |actions|
  {
    hide Inv, Evolves, Step;
    EvolvesSelf(c);
    if actions != [] {
      StepInv(c, actions[0]);
      RunInv(Step(c, actions[0]), actions[1..]);
      EvolvesTransitive(c, Step(c, actions[0]), Run(c, actions));
    }
  }

  ghost predicate Reachable(c: Registry) {
    exists maxSessions, actions :: c == Run(NewRegistry(maxSessions), actions)
  }

  lemma ReachableInv(c: Registry)
    requires Reachable(c)
    ensures Inv(c)
  {
    hide Run, Evolves;
    var maxSessions, actions :| c == Run(NewRegistry(maxSessions), actions);
    RunInv(NewRegistry(maxSessions), actions);
  }

  // ----- the theorems -----

  datatype Fate = IsLive | IsClosing | IsCleaned

  /** Everything that can be said to hold session `s`: the registry, a tombstone with its close task, or
      nothing any more because its cleanup group is idle. */
  function Fates(c: Registry, s: nat): set<Fate>
    requires s in c.sessions
  {
    var id := c.sessions[s].id;
    (if Current(c.live, s, id) then {IsLive} else {})
    + (if Current(c.closing, s, id) && CloserOf(c.closers, s).Some? then {IsClosing} else {})
    + (if c.sessions[s].context == Settled && CloserOf(c.closers, s) == None then {IsCleaned} else {})
  }

  /** In every reachable state every session ever registered is live, or held by exactly one closing
      tombstone, or cleaned up, and never two of these: no removal drops a session. */
  lemma EverySessionIsAccountedFor(c: Registry, s: nat)
    requires Reachable(c) && s in c.sessions
    ensures exists fate :: Fates(c, s) == {fate}
    ensures forall id :: id in c.closing && c.closing[id] == s ==> id == c.sessions[s].id && s in c.closers
  {
    ReachableInv(c);
    hide Reachable, LocksSound, UsesExact, Numbered;
    assert ContextSound(c.sessions[s], Current(c.live, s, c.sessions[s].id), CloserOf(c.closers, s));
    var id := c.sessions[s].id;
    if Current(c.live, s, id) {
      assert Fates(c, s) == {IsLive};
    } else if s in c.closers {
      assert Fates(c, s) == {IsClosing};
    } else {
      assert Fates(c, s) == {IsCleaned};
    }
  }

  /** Live and closing ids are disjoint and together never exceed the limit. */
  lemma CapacityHolds(maxSessions: nat, actions: seq<Action>)
    ensures var c := Run(NewRegistry(maxSessions), actions);
            && c.live.Keys !! c.closing.Keys && |c.live| + |c.closing| <= maxSessions
  {
    RunInv(NewRegistry(maxSessions), actions);
    hide LiveSound, TombsSound, ContextsSound, LocksSound, UsesExact, Run, SessionsEvolve, LeavesForGood, NobodyEnters;
  }

  /** A context is open as long as a request that passed the identity check holds the session's lock:
      the close task can start closing it only afterwards. */
  lemma NoContextClosesUnderARequest(c: Registry, r: nat)
    requires Reachable(c) && r in c.clients && c.clients[r].phase == Inside
    ensures var s := c.clients[r].session;
            && s in c.sessions && c.sessions[s].context == Open && c.sessions[s].holder == Some(Request(r))
            && Step(c, CloserEnters(s)) == c
            && forall x :: x in c.clients && x != r && c.clients[x].phase == Inside ==> c.clients[x].session != s
  {
    hide Inv, Reachable;
    ReachableInv(c);
    ClientKnown(c, r);
    forall x | x in c.clients && x != r && c.clients[x].phase == Inside
      ensures c.clients[x].session != c.clients[r].session {
      ClientKnown(c, x);
    }
  }

  /** A queued request that gets the lock of a session that is not registered leaves without having
      touched the context. */
  lemma LateEntryLeaves(c: Registry, r: nat, s: nat)
    requires Inv(c) && r in c.clients && c.clients[r] == Client(s, Queued) && s in c.sessions
    requires c.sessions[s].holder == None && !IsCurrent(c, s)
    ensures var d := Step(c, Enters(r));
            r !in d.clients && s in d.sessions && d.sessions[s].context == c.sessions[s].context
                && d.sessions[s].holder == None
  {
    hide Inv, IsCurrent;
    InUse(c, r);
  }

  lemma InUse(c: Registry, r: nat)
    requires Inv(c) && r in c.clients && c.clients[r].phase != Chosen && c.clients[r].session in c.sessions
    ensures c.sessions[c.clients[r].session].inUse > 0
  {
    hide LiveSound, TombsSound, ContextsSound, LocksSound;
    DropUses(c.sessions, c.clients, r);
  }

  /** Once a session has left the registry it stays out, whatever happens, and nobody gets inside it any
      more: whoever is inside later already was, and a request still queued for it leaves again, without
      having touched the context, whenever it gets the lock. */
  lemma RemovedMeansUnreachable(c: Registry, actions: seq<Action>, s: nat)
    requires Reachable(c) && s in c.sessions && !IsCurrent(c, s)
    ensures var d := Run(c, actions);
            && s in d.sessions && !IsCurrent(d, s)
            && (forall r :: r in d.clients && d.clients[r] == Client(s, Inside) ==>
                  r in c.clients && c.clients[r] == Client(s, Inside))
            && (forall r :: r in d.clients && d.clients[r] == Client(s, Queued) && d.sessions[s].holder == None ==>
                  var e := Step(d, Enters(r));
                  && r !in e.clients && s in e.sessions
                  && e.sessions[s].context == d.sessions[s].context && e.sessions[s].holder == None)
  {
    hide Inv, Reachable, Run, Step;
    ReachableInv(c);
    RunInv(c, actions);
    var d := Run(c, actions);
    forall r | r in d.clients && d.clients[r] == Client(s, Queued) && d.sessions[s].holder == None
      ensures var e := Step(d, Enters(r));
              && r !in e.clients && s in e.sessions
              && e.sessions[s].context == d.sessions[s].context && e.sessions[s].holder == None
    {
      LateEntryLeaves(d, r, s);
    }
  }

  /** A late eviction of a session that is no longer registered changes nothing; an eviction removes that
      session and no other. */
  lemma EvictionIsPrecise(c: Registry, s: nat)
    requires Reachable(c)
    ensures !IsCurrent(c, s) ==> Step(c, Evicts(s)) == c
    ensures IsCurrent(c, s) ==>
              var d := Step(c, Evicts(s));
              && Fates(d, s) == {IsClosing}
              && d.live == c.live - {c.sessions[s].id}
              && forall x :: x in c.sessions && x != s ==> Fates(d, x) == Fates(c, x)
  {
    if IsCurrent(c, s) {
      RemovalIsPrecise(c, {c.sessions[s].id});
    }
  }

  /** Removing `ids` turns exactly their live sessions into closing ones. */
  lemma RemovalIsPrecise(c: Registry, ids: set<string>)
    requires Reachable(c)
    ensures var d := Remove(c, ids);
            forall x :: x in c.sessions ==>
              Fates(d, x) == if IsCurrent(c, x) && c.sessions[x].id in ids then {IsClosing} else Fates(c, x)
  {
    hide Reachable, Inv, Fates;
    ReachableInv(c);
    forall x | x in c.sessions
      ensures Fates(Remove(c, ids), x) == if IsCurrent(c, x) && c.sessions[x].id in ids then {IsClosing}
              else Fates(c, x) {
      RemovalOf(c, ids, x);
    }
  }

  lemma RemovalOf(c: Registry, ids: set<string>, x: nat)
    requires Inv(c) && x in c.sessions
    ensures Fates(Remove(c, ids), x) == if IsCurrent(c, x) && c.sessions[x].id in ids then {IsClosing} else Fates(c, x)
  {
    hide ContextsSound, LocksSound, UsesExact, Numbered, TombsSound;
    StartsWaiting(c, ids, x);
    TombstoneOf(c, ids, x);
    RemoveShape(c, ids);
    hide Remove, LiveSound, Disjoint, Inv, Current, CloserOf, Tombstones;
  }

  lemma TombstoneOf(c: Registry, ids: set<string>, x: nat)
    requires Inv(c) && x in c.sessions
    ensures var d, id := Remove(c, ids), c.sessions[x].id;
            if Current(c.live, x, id) && id in ids then Current(d.closing, x, id)
            else Current(d.closing, x, id) <==> Current(c.closing, x, id)
  {
    hide ContextsSound, LocksSound, UsesExact, Numbered, TombsSound, Started;
  }

  /** Pruning removes exactly the expired sessions that no request uses, holds or waits for, apart from
      the excluded id. */
  lemma PruneTakesOnlyIdle(c: Registry, exclude: Option<string>, now: int, s: nat)
    requires Reachable(c) && IsCurrent(c, s)
    ensures var d := Step(c, Prunes(exclude, now));
            var idle := forall r :: r in c.clients && c.clients[r].session == s ==> c.clients[r].phase == Chosen;
            !IsCurrent(d, s) <==>
              (!c.closed && Expired(c.sessions[s], now) && Some(c.sessions[s].id) != exclude
                  && c.sessions[s].holder == None && idle)
  {
    hide Reachable, Inv, Remove, Expired;
    ReachableInv(c);
    IdleExactly(c, s);
    RemoveShape(c, PrunedIds(c, exclude, now));
  }

  lemma IdleExactly(c: Registry, s: nat)
    requires Inv(c) && s in c.sessions
    ensures c.sessions[s].inUse == 0
            <==> forall r :: r in c.clients && c.clients[r].session == s ==> c.clients[r].phase == Chosen
  {
    hide LiveSound, TombsSound, ContextsSound, LocksSound;
    if c.sessions[s].inUse == 0 {
      assert forall r :: r in c.clients && c.clients[r].session == s && c.clients[r].phase != Chosen ==>
               r in UsersOf(c.clients, s);
    } else {
      var r :| r in UsersOf(c.clients, s);
    }
  }

  /** An id can be registered again only when every earlier session of that id is cleaned up: its whole
      cleanup group is idle and its close task is over. */
  lemma IdIsReusedOnlyAfterCleanup(c: Registry, id: string, expiresAt: Option<int>, s: nat)
    requires Reachable(c) && s in c.sessions && c.sessions[s].id == id
    requires RegisterResultOf(c, id).Registered?
    ensures Fates(c, s) == {IsCleaned} && c.sessions[s].context == Settled && s !in c.closers
    ensures var d := Step(c, Creates(id, expiresAt));
            id in d.live && d.live[id] !in c.sessions && |d.live| + |d.closing| <= c.maxSessions
  {
    hide Reachable, Inv, Evolves, Register;
    EverySessionIsAccountedFor(c, s);
    ReachableInv(c);
    RegisterInv(c, id, expiresAt);
    RegisterShape(c, id, expiresAt);
    NumbersKnown(c);
    var fate :| Fates(c, s) == {fate};
    assert IsLive !in Fates(c, s) && IsClosing !in Fates(c, s) && fate in Fates(c, s);
    RegisterCounts(c, id);
  }

  lemma NumbersKnown(c: Registry)
    requires Inv(c)
    ensures c.nextSession !in c.sessions
  {
    hide LiveSound, TombsSound, ContextsSound, LocksSound, UsesExact;
  }

  lemma RegisterCounts(c: Registry, id: string)
    requires RegisterResultOf(c, id).Registered?
    ensures |c.live[id := c.nextSession]| + |c.closing| <= c.maxSessions
  {
    assert |c.live[id := c.nextSession]| == |c.live| + 1;
  }

  /** Closing the manager tombstones every live session and refuses every later registration. */
  lemma CloseRemovesEverySession(c: Registry, actions: seq<Action>, id: string)
    requires Reachable(c)
    ensures var d := Run(Step(c, Closes), actions);
            d.closed && d.live == map[] && RegisterResultOf(d, id) == ManagerClosed
  {
    hide Inv, Reachable, Run, Step, Evolves;
    ReachableInv(c);
    StepInv(c, Closes);
    var p := Step(c, Closes);
    RunInv(p, actions);
    ClosedIsEmpty(Run(p, actions));
    StaysClosed(p, Run(p, actions));
    assert p.closed by { ClosesNow(c); }
  }

  lemma ClosesNow(c: Registry)
    ensures Step(c, Closes).closed
  {
    hide Started, Tombstones;
  }

  lemma StaysClosed(p: Registry, q: Registry)
    requires Evolves(p, q)
    ensures p.closed ==> q.closed
  {
  }

  lemma ClosedIsEmpty(c: Registry)
    requires Inv(c)
    ensures c.closed ==> c.live == map[]
  {
  }

  /** The use counts are exact, so `mark_released` never underflows, however requests end. */
  lemma UseCountsAreExact(c: Registry, s: nat)
    requires Reachable(c) && s in c.sessions
    ensures c.sessions[s].inUse == |UsersOf(c.clients, s)| && !c.raised
  {
    ReachableInv(c);
    hide Reachable, LiveSound, TombsSound, ContextsSound, LocksSound;
  }
}
