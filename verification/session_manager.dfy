/** The session manager and its sessions as objects updated in place. Each method is one atomic section
    of camouflare/sessions.py, or of the session path of camouflare/commands.py, and is proved to be the
    function of that name in SessionState. */
module SessionManagers {
  import opened Basics
  import opened SessionState
  import opened SessionRuns

  class SessionObject {
    const id: string
    const expiresAt: Option<int>
    var holder: Option<Holder>
    var inUse: int
    var context: Context

    constructor (id: string, expiresAt: Option<int>)
      ensures Value() == Session(id, expiresAt, None, 0, Open)
    {
      this.id, this.expiresAt := id, expiresAt;
      holder, inUse, context := None, 0, Open;
    }

    function Value(): Session
      reads this
    {
      Session(id, expiresAt, holder, inUse, context)
    }
  }

  class SessionManager {
    const maxSessions: int
    var live: map<string, nat>
    var closing: map<string, nat>
    var objects: map<nat, SessionObject>
    var closers: map<nat, CloserPhase>
    var clients: map<nat, Client>
    var closed: bool
    var raised: bool
    var nextSession: nat

    ghost predicate Valid()
      reads this`objects
    {
      forall a, b :: a in objects && b in objects && objects[a] == objects[b] ==> a == b
    }

    ghost function Table(): map<nat, Session>
      reads this`objects, objects.Values
    {
      map s | s in objects :: objects[s].Value()
    }

    ghost function State(): Registry
      reads this, objects.Values
    {
      Registry(maxSessions, live, closing, Table(), closers, clients, closed, raised, nextSession)
    }

    ghost predicate Sound()
      reads this, objects.Values
    {
      Valid() && Inv(State())
    }

    constructor (maxSessions: int)
      ensures Valid() && State() == NewRegistry(maxSessions)
    {
      this.maxSessions := maxSessions;
      live, closing, objects, closers, clients := map[], map[], map[], map[], map[];
      closed, raised, nextSession := false, false, 0;
    }

    lemma TableAt(s: nat)
      ensures s in Table() <==> s in objects
      ensures s in objects ==> Table()[s] == objects[s].Value()
    {
    }

    /** One session object changed: so did its entry of the table, and nothing else. */
    twostate lemma SessionChanged(s: nat)
      requires old(Valid()) && objects == old(objects) && s in objects
      requires forall x :: x in objects && x != s ==> unchanged(objects[x])
      ensures Table() == old(Table())[s := objects[s].Value()]
    {
    }

    // ----- registration -----

    method AddObject(session: SessionObject)
      requires Valid() && session !in objects.Values
      modifies this`objects
      ensures Valid() && objects == old(objects)[nextSession := session]
      ensures State() == old(State()).(sessions := old(State()).sessions[nextSession := session.Value()])
    {
      objects := objects[nextSession := session];
      ghost var after := old(Table())[nextSession := session.Value()];
      assert forall s: nat :: s in Table() <==> s in objects;
      assert forall s: nat :: s in old(Table()) <==> s in old(objects);
      assert forall s: nat :: s in after <==> s in old(Table()) || s == nextSession;
      SameTable(Table(), after);
    }

    method Insert(id: string, session: SessionObject)
      requires Valid() && session !in objects.Values
      modifies this`objects, this`live, this`nextSession
      ensures Valid() && objects == old(objects)[old(nextSession) := session]
      ensures var p := old(State());
              State() == p.(live := p.live[id := p.nextSession],
                            sessions := p.sessions[p.nextSession := session.Value()], nextSession := p.nextSession + 1)
    {
      hide Table;
      AddObject(session);
      live := live[id := nextSession];
      nextSession := nextSession + 1;
    }

    /** `register_or_get`. */
    method RegisterOrGet(id: string, expiresAt: Option<int>) returns (r: RegisterResult)
      requires Sound()
      modifies this`objects, this`live, this`nextSession
      ensures Sound() && r == RegisterResultOf(old(State()), id) && State() == Register(old(State()), id, expiresAt)
      ensures r.Registered? ==> r.session in objects && fresh(objects[r.session])
      ensures !r.Registered? ==> objects == old(objects)
    {
      hide Inv, Table;
      RegisterInv(State(), id, expiresAt);
      if closed {
        return ManagerClosed;
      }
      if id in live {
        return Existing(live[id]);
      }
      if id in closing {
        return StillClosing;
      }
      if |live| + |closing| >= maxSessions {
        return AtCapacity;
      }
      var session := new SessionObject(id, expiresAt);
      r := Registered(nextSession);
      Insert(id, session);
    }

    // ----- use counts and locks -----

    /** `mark_in_use`. */
    method MarkInUse(s: nat)
      requires Valid() && s in objects && objects[s].inUse >= 0
      modifies objects[s]
      ensures State() == CountUse(old(State()), s, 1)
    {
      hide Table;
      TableAt(s);
      objects[s].inUse := objects[s].inUse + 1;
      SessionChanged(s);
    }

    /** `mark_released`: the source raises on an underflow. */
    method MarkReleased(s: nat)
      requires Valid() && s in objects
      modifies objects[s], this`raised
      ensures State() == CountUse(old(State()), s, -1)
    {
      hide Table;
      TableAt(s);
      if objects[s].inUse <= 0 {
        raised := true;
        return;
      }
      objects[s].inUse := objects[s].inUse - 1;
      SessionChanged(s);
    }

    method Hold(s: nat, holder: Option<Holder>)
      requires Valid() && s in objects
      modifies objects[s]
      ensures State() == SetHolder(old(State()), s, holder)
    {
      hide Table;
      TableAt(s);
      objects[s].holder := holder;
      SessionChanged(s);
    }

    method SetClient(r: nat, client: Client)
      modifies this`clients
      ensures State() == old(State()).(clients := old(clients)[r := client])
    {
      hide Table;
      clients := clients[r := client];
    }

    method DropClient(r: nat)
      modifies this`clients
      ensures State() == old(State()).(clients := old(clients) - {r})
    {
      hide Table;
      clients := clients - {r};
    }

    method Queue(r: nat, s: nat)
      requires Valid() && s in objects && objects[s].inUse >= 0
      modifies this`clients, objects[s]
      ensures State() == SessionState.Queue(old(State()), r, s)
    {
      hide Table, CountUse;
      MarkInUse(s);
      SetClient(r, Client(s, Queued));
    }

    // ----- requests -----

    /** `session_for_request` finds a live session that is not expired, or is in use anyway. */
    method Arrive(r: nat, id: string, now: int) returns (found: bool)
      requires Sound() && r !in clients
      modifies this`clients, objects.Values
      ensures Sound() && State() == SessionState.Arrive(old(State()), r, id, now)
      ensures found <==> r in clients
    {
      hide Inv, Table, SessionState.Queue;
      ArriveInv(State(), r, id, now);
      if id !in live {
        return false;
      }
      var s := live[id];
      LiveKnown(State(), id);
      TableAt(s);
      CountedUse(State(), s);
      var session := objects[s];
      found := !Expired(session.Value(), now) || session.holder.Some? || session.inUse > 0;
      if found {
        Queue(r, s);
      }
      QueuedClient(old(State()), r, s);
    }

    /** A request registers the context it built, or will use the session that won the race. */
    method ArriveNew(r: nat, id: string, expiresAt: Option<int>) returns (outcome: RegisterResult)
      requires Sound() && r !in clients
      modifies this, objects.Values
      ensures Sound() && State() == SessionState.ArriveNew(old(State()), r, id, expiresAt)
      ensures outcome == RegisterResultOf(old(State()), id)
    {
      hide Inv, Table, SessionState.Queue, Register, RegisterResultOf;
      ArriveNewInv(State(), r, id, expiresAt);
      ghost var before := State();
      outcome := RegisterOrGet(id, expiresAt);
      if outcome.Registered? {
        RegisteredKnown(before, id, expiresAt);
        TableAt(outcome.session);
        CountedUse(State(), outcome.session);
        Queue(r, outcome.session);
      } else {
        NotRegistered(before, id, expiresAt);
        if outcome.Existing? {
          SetClient(r, Client(outcome.session, Chosen));
        }
      }
    }

    /** The request that lost the race has discarded its context. */
    method Resume(r: nat)
      requires Sound() && r in clients && clients[r].phase == Chosen
      modifies this`clients, objects.Values
      ensures Sound() && State() == SessionState.Resume(old(State()), r)
    {
      hide Inv, Table, SessionState.Queue;
      ResumeInv(State(), r);
      ClientKnown(State(), r);
      TableAt(clients[r].session);
      CountedUse(State(), clients[r].session);
      Queue(r, clients[r].session);
    }

    /** The request takes the session lock and checks that its session is still the registered one. */
    method Enter(r: nat) returns (admitted: bool)
      requires Sound() && r in clients && clients[r].phase == Queued
      requires clients[r].session in objects && objects[clients[r].session].holder == None
      modifies this`clients, this`raised, objects.Values
      ensures Sound() && State() == SessionState.Enter(old(State()), r)
      ensures admitted <==> IsCurrent(old(State()), old(clients)[r].session)
    {
      hide Inv, Table, CountUse, SetHolder;
      EnterInv(State(), r);
      var s := clients[r].session;
      TableAt(s);
      var id := objects[s].id;
      if id in live && live[id] == s {
        Hold(s, Some(Request(r)));
        SetClient(r, Client(s, Inside));
        return true;
      }
      MarkReleased(s);
      OnlyUses(old(State()), s);
      DropClient(r);
      return false;
    }

    /** The request ends, or is cancelled, wherever it is. */
    method Leave(r: nat)
      requires Sound() && r in clients
      modifies this`clients, this`raised, objects.Values
      ensures Sound() && State() == SessionState.Leave(old(State()), r)
    {
      hide Inv, Table, CountUse, SetHolder;
      LeaveInv(State(), r);
      ClientKnown(State(), r);
      var client := clients[r];
      TableAt(client.session);
      DropClient(r);
      if client.phase == Inside {
        Hold(client.session, None);
      }
      if client.phase != Chosen {
        MarkReleased(client.session);
      }
    }

    // ----- removal -----

    /** `_start_closing_unlocked` for the live session of `id`, popped from the registry. */
    method StartClosing(id: string)
      requires id in live && live[id] in objects && objects[live[id]].id == id
      modifies this`live, this`closing, this`closers
      ensures live == old(live) - {id}
      ensures closing == old(closing) + Tombstones(old(live), old(closing), {id})
      ensures closers == if id in old(closing) then old(closers) else old(closers)[old(live)[id] := Waiting]
    {
      var s := live[id];
      live := live - {id};
      if id in closing {
        return;
      }
      closing := closing[id := s];
      closers := closers[s := Waiting];
    }

    method RemoveEach(ids: set<string>)
      requires Valid() && forall id :: id in ids ==> id in live && live[id] in objects && objects[live[id]].id == id
      modifies this`live, this`closing, this`closers
      ensures State() == Remove(old(State()), ids)
    {
      StartedClosers(State(), ids);
      CloseEach(ids);
    }

    method CloseEach(ids: set<string>)
      requires forall id :: id in ids ==> id in live && live[id] in objects && objects[live[id]].id == id
      modifies this`live, this`closing, this`closers
      ensures live == old(live) - ids
      ensures closing == old(closing) + Tombstones(old(live), old(closing), ids)
      ensures closers == old(closers) + ClosersOf(old(live), old(closing), ids)
    {
      hide Tombstones, ClosersOf;
      ghost var live0, closing0, closers0 := live, closing, closers;
      NoneClosing(live0, closing0);
      var todo := ids;
      assert ids - todo == {};
      while todo != {}
        invariant todo <= ids
        invariant live == live0 - (ids - todo)
        invariant closing == closing0 + Tombstones(live0, closing0, ids - todo)
        invariant closers == closers0 + ClosersOf(live0, closing0, ids - todo)
        decreases |todo|
      {
        var id :| id in todo;
        ghost var seen := ids - todo;
        assert ids - (todo - {id}) == seen + {id};
        OneMoreTombstone(live0, closing0, seen, id);
        OneMoreCloser(live0, closing0, closers0, seen, id);
        StartClosing(id);
        todo := todo - {id};
      }
      assert ids - todo == ids;
    }

    /** `prune_expired`. */
    method PruneExpired(exclude: Option<string>, now: int) returns (ids: set<string>)
      requires Sound()
      modifies this`live, this`closing, this`closers
      ensures Sound() && State() == Prune(old(State()), exclude, now)
      ensures ids == if closed then {} else PrunedIds(old(State()), exclude, now)
    {
      hide Inv, Remove;
      LiveObjects();
      if closed {
        return {};
      }
      ids := set id | id in live && Some(id) != exclude && Expired(objects[live[id]].Value(), now)
                      && objects[live[id]].inUse == 0 && objects[live[id]].holder == None;
      assert ids == PrunedIds(State(), exclude, now);
      RemoveInv(State(), ids);
      RemoveEach(ids);
    }

    /** `evict_if_current`. */
    method EvictIfCurrent(s: nat) returns (evicted: bool)
      requires Sound() && s in objects
      modifies this`live, this`closing, this`closers
      ensures Sound() && State() == Evict(old(State()), s) && evicted == IsCurrent(old(State()), s)
    {
      hide Inv, Table, Remove;
      TableAt(s);
      LiveObjects();
      var id := objects[s].id;
      if id !in live || live[id] != s {
        return false;
      }
      RemoveInv(State(), {id});
      RemoveEach({id});
      return true;
    }

    /** The section of `destroy`: the session whose close task the caller then waits for, if any. */
    method Destroy(id: string) returns (found: Option<nat>)
      requires Sound()
      modifies this`live, this`closing, this`closers
      ensures Sound() && State() == SessionState.Destroy(old(State()), id)
      ensures id != "" && id in old(live) ==> found == Some(old(live)[id])
      ensures id != "" && id !in old(live) && id in old(closing) ==> found == Some(old(closing)[id])
      ensures id == "" || (id !in old(live) && id !in old(closing)) ==> found == None
    {
      hide Inv, Table, Remove;
      LiveObjects();
      if id == "" {
        return None;
      }
      if id in live {
        found := Some(live[id]);
        RemoveInv(State(), {id});
        RemoveEach({id});
      } else if id in closing {
        found := Some(closing[id]);
      } else {
        found := None;
      }
    }

    /** `close`. */
    method Close()
      requires Sound()
      modifies this`live, this`closing, this`closers, this`closed
      ensures Sound() && State() == SessionState.Close(old(State()))
    {
      hide Inv, Table, Remove;
      LiveObjects();
      CloseInv(State());
      closed := true;
      RemoveEach(live.Keys);
    }

    lemma LiveObjects()
      requires Sound()
      ensures forall id :: id in live ==> live[id] in objects && objects[live[id]].id == id
    {
      hide Inv;
      forall id | id in live ensures live[id] in objects && objects[live[id]].id == id {
        LiveKnown(State(), id);
      }
    }

    // ----- the close task -----

    method SetCloser(s: nat, phase: CloserPhase)
      modifies this`closers
      ensures State() == old(State()).(closers := old(closers)[s := phase])
    {
      hide Table;
      closers := closers[s := phase];
    }

    method Settle(s: nat, holder: Option<Holder>, context: Context)
      requires Valid() && s in objects
      modifies objects[s]
      ensures State() == old(State()).(sessions :=
              old(Table())[s := old(Table())[s].(holder := holder, context := context)])
    {
      hide Table;
      TableAt(s);
      objects[s].holder := holder;
      objects[s].context := context;
      SessionChanged(s);
    }

    /** `_close_session` gets the lock and starts the cleanup. */
    method CloserEnter(s: nat)
      requires Sound() && s in closers && closers[s] == Waiting && s in objects && objects[s].holder == None
      modifies this`closers, objects[s]
      ensures Sound() && State() == SessionState.CloserEnter(old(State()), s)
    {
      hide Inv, Table;
      TableAt(s);
      CloserInv(State(), s);
      Settle(s, Some(Closer), BeingClosed);
      SetCloser(s, Running);
    }

    /** The cleanup group of the session is idle. */
    method CleanupSettle(s: nat)
      requires Sound() && s in objects && objects[s].context == BeingClosed
      modifies objects[s]
      ensures Sound() && State() == SessionState.CleanupSettle(old(State()), s)
    {
      hide Inv, Table;
      TableAt(s);
      CloserInv(State(), s);
      objects[s].context := Settled;
      SessionChanged(s);
    }

    /** `_close_session` returns from `wait_for_group` and releases the lock. */
    method CloserEnd(s: nat)
      requires Sound() && s in closers && closers[s] == Running && s in objects && objects[s].context == Settled
      modifies this`closers, objects[s]
      ensures Sound() && State() == SessionState.CloserEnd(old(State()), s)
    {
      hide Inv, Table;
      TableAt(s);
      CloserInv(State(), s);
      Hold(s, None);
      SetCloser(s, Ended);
    }

    /** `_closing_done`. */
    method ClosingDone(s: nat)
      requires Sound() && s in closers && closers[s] == Ended && s in objects
      modifies this`closers, this`closing
      ensures Sound() && State() == SessionState.ClosingDone(old(State()), s)
    {
      hide Inv, Table;
      TableAt(s);
      ClosingDoneInv(State(), s);
      closers := closers - {s};
      if objects[s].id in closing && closing[objects[s].id] == s {
        closing := closing - {objects[s].id};
      }
    }
  }

  // ----- facts about the specification -----

  lemma SameTable(a: map<nat, Session>, b: map<nat, Session>)
    requires forall s: nat :: s in a <==> s in b
    requires forall s: nat :: s in a ==> a[s] == b[s]
    ensures a == b
  {
    assert forall s :: s in a.Keys <==> s in b.Keys;
  }

  lemma CountedUse(c: Registry, s: nat)
    requires Inv(c) && s in c.sessions
    ensures c.sessions[s].inUse >= 0
  {
    hide LiveSound, TombsSound, ContextsSound, LocksSound;
  }

  lemma QueuedClient(c: Registry, r: nat, s: nat)
    ensures SessionState.Queue(c, r, s).clients == c.clients[r := Client(s, Queued)]
  {
  }

  lemma RegisteredKnown(c: Registry, id: string, expiresAt: Option<int>)
    requires RegisterResultOf(c, id).Registered?
    ensures RegisterResultOf(c, id).session in Register(c, id, expiresAt).sessions
    ensures Register(c, id, expiresAt).clients == c.clients
  {
  }

  lemma NotRegistered(c: Registry, id: string, expiresAt: Option<int>)
    requires !RegisterResultOf(c, id).Registered?
    ensures Register(c, id, expiresAt) == c
  {
  }

  lemma OnlyUses(c: Registry, s: nat)
    ensures CountUse(c, s, -1).clients == c.clients
  {
  }

  function ClosersOf(live: map<string, nat>, closing: map<string, nat>, ids: set<string>): map<nat, CloserPhase> {
    map s | s in live.Values && (exists id :: id in ids && id in live && live[id] == s && id !in closing) :: Waiting
  }

  lemma NoneClosing(live: map<string, nat>, closing: map<string, nat>)
    ensures Tombstones(live, closing, {}) == map[] && ClosersOf(live, closing, {}) == map[]
  {
  }

  lemma OneMoreTombstone(live: map<string, nat>, closing: map<string, nat>, seen: set<string>, id: string)
    requires id in live && id !in seen
    ensures (live - seen) - {id} == live - (seen + {id})
    ensures id in closing + Tombstones(live, closing, seen) <==> id in closing
    ensures closing + Tombstones(live, closing, seen)
            + Tombstones(live - seen, closing + Tombstones(live, closing, seen), {id})
            == closing + Tombstones(live, closing, seen + {id})
  {
    var partial := closing + Tombstones(live, closing, seen);
    var more := Tombstones(live - seen, partial, {id});
    assert id in partial <==> id in closing;
    assert forall x :: x in more <==> x == id && id !in closing;
  }

  lemma OneMoreCloser(live: map<string, nat>, closing: map<string, nat>, closers: map<nat, CloserPhase>,
                      seen: set<string>, id: string)
    requires id in live && id !in seen
    ensures (if id in closing then closers + ClosersOf(live, closing, seen)
            else (closers + ClosersOf(live, closing, seen))[live[id] := Waiting])
            == closers + ClosersOf(live, closing, seen + {id})
  {
    var before, after := ClosersOf(live, closing, seen), ClosersOf(live, closing, seen + {id});
    assert live[id] in live.Values;
    forall s ensures s in after <==> s in before || (id !in closing && s == live[id]) {
      if s in after && s !in before {
        var x :| x in seen + {id} && x in live && live[x] == s && x !in closing;
        assert x == id;
      }
      if id !in closing && s == live[id] {
        assert id in seen + {id};
      }
    }
  }

  lemma StartedClosers(c: Registry, ids: set<string>)
    requires forall id :: id in ids ==> id in c.live && c.live[id] in c.sessions && c.sessions[c.live[id]].id == id
    ensures ClosersOf(c.live, c.closing, ids) == Started(c, ids)
  {
  }
}
