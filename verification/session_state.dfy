/** The session registry (camouflare/sessions.py) and its clients in camouflare/commands.py: atomic
    sections over live sessions, closing tombstones, session locks and requests. Session objects and
    requests are named by numbers, so that a replacement under the same id is a different object. */
module SessionState {
  import opened Basics

  /** The persistent browser context of a session: `Settled` once its whole cleanup group is idle. */
  datatype Context = Open | BeingClosed | Settled

  /** Who holds `session.lock`. */
  datatype Holder = Request(request: nat) | Closer

  datatype Session = Session(id: string, expiresAt: Option<int>, holder: Option<Holder>, inUse: int, context: Context)

  /** The manager-owned task `_close_session`. */
  datatype CloserPhase = Waiting | Running | Ended

  /** A request that has chosen its session; that counts itself in use and queues for the lock; that
      holds the lock and passed the identity check. */
  datatype Phase = Chosen | Queued | Inside

  datatype Client = Client(session: nat, phase: Phase)

  datatype Registry = Registry(
    maxSessions: int,
    live: map<string, nat>,
    closing: map<string, nat>,
    sessions: map<nat, Session>,
    closers: map<nat, CloserPhase>,
    clients: map<nat, Client>,
    closed: bool,
    raised: bool,
    nextSession: nat)

  function NewRegistry(maxSessions: int): Registry {
    Registry(maxSessions, map[], map[], map[], map[], map[], false, false, 0)
  }

  predicate Expired(s: Session, now: int) {
    s.expiresAt.Some? && now >= s.expiresAt.value
  }

  predicate Current(live: map<string, nat>, s: nat, id: string) {
    id in live && live[id] == s
  }

  /** `sessions.get(id) is session`. */
  predicate IsCurrent(c: Registry, s: nat) {
    s in c.sessions && Current(c.live, s, c.sessions[s].id)
  }

  // ----- registration -----

  datatype RegisterResult = Registered(session: nat) | Existing(session: nat) | ManagerClosed | StillClosing
      | AtCapacity

  function RegisterResultOf(c: Registry, id: string): RegisterResult {
    if c.closed then ManagerClosed
    else if id in c.live then Existing(c.live[id])
    else if id in c.closing then StillClosing
    else if |c.live| + |c.closing| >= c.maxSessions then AtCapacity
    else Registered(c.nextSession)
  }

  /** `register_or_get`. */
  function Register(c: Registry, id: string, expiresAt: Option<int>): Registry {
    if !RegisterResultOf(c, id).Registered? then c
    else c.(live := c.live[id := c.nextSession],
            sessions := c.sessions[c.nextSession := Session(id, expiresAt, None, 0, Open)],
            nextSession := c.nextSession + 1)
  }

  // ----- requests -----

  function CountUse(c: Registry, s: nat, more: int): Registry {
    if s !in c.sessions then c
    else if c.sessions[s].inUse + more < 0 then c.(raised := true)
    else c.(sessions := c.sessions[s := c.sessions[s].(inUse := c.sessions[s].inUse + more)])
  }

  function SetHolder(c: Registry, s: nat, holder: Option<Holder>): Registry {
    if s in c.sessions then c.(sessions := c.sessions[s := c.sessions[s].(holder := holder)]) else c
  }

  /** A request whose session is known: `mark_in_use`, then it queues for the lock. */
  function Queue(c: Registry, r: nat, s: nat): Registry {
    CountUse(c, s, 1).(clients := c.clients[r := Client(s, Queued)])
  }

  /** `session_for_request` finds a live session it may share. */
  function Arrive(c: Registry, r: nat, id: string, now: int): Registry {
    if r in c.clients || id !in c.live || c.live[id] !in c.sessions then c
    else
      var s := c.sessions[c.live[id]];
      if !Expired(s, now) || s.holder.Some? || s.inUse > 0 then Queue(c, r, c.live[id]) else c
  }

  /** A request registers the context it built; if it lost the race it first discards that context. */
  function ArriveNew(c: Registry, r: nat, id: string, expiresAt: Option<int>): Registry {
    if r in c.clients then c
    else match RegisterResultOf(c, id)
      case Registered(s) => Queue(Register(c, id, expiresAt), r, s)
      case Existing(s) => c.(clients := c.clients[r := Client(s, Chosen)])
      case _ => c
  }

  function Resume(c: Registry, r: nat): Registry {
    if r in c.clients && c.clients[r].phase == Chosen then Queue(c, r, c.clients[r].session) else c
  }

  /** The request takes the free lock; unless its session is still the registered one it leaves at once. */
  function Enter(c: Registry, r: nat): Registry {
    if r !in c.clients || c.clients[r].phase != Queued then c
    else
      var s := c.clients[r].session;
      if s !in c.sessions || c.sessions[s].holder.Some? then c
      else if IsCurrent(c, s)
      then SetHolder(c, s, Some(Request(r))).(clients := c.clients[r := Client(s, Inside)])
      else CountUse(c, s, -1).(clients := c.clients - {r})
  }

  /** The request is done, or is cancelled wherever it is. */
  function Leave(c: Registry, r: nat): Registry {
    if r !in c.clients then c
    else
      var s := c.clients[r].session;
      var p := c.(clients := c.clients - {r});
      match c.clients[r].phase
      case Chosen => p
      case Queued => CountUse(p, s, -1)
      case Inside => CountUse(SetHolder(p, s, None), s, -1)
  }

  // ----- removal -----

  /** Sessions that `_start_closing_unlocked` is called for and that get a close task. */
  predicate Starts(c: Registry, ids: set<string>, s: nat) {
    IsCurrent(c, s) && c.sessions[s].id in ids && c.sessions[s].id !in c.closing
  }

  function Tombstones(live: map<string, nat>, closing: map<string, nat>, ids: set<string>): map<string, nat> {
    map id | id in ids && id in live && id !in closing :: live[id]
  }

  function Started(c: Registry, ids: set<string>): map<nat, CloserPhase> {
    map s | s in c.sessions && Starts(c, ids, s) :: Waiting
  }

  /** Remove each session of `ids` and call `_start_closing_unlocked` for it. An id that already has a
      tombstone gets no second close task. */
  function Remove(c: Registry, ids: set<string>): Registry {
    c.(live := c.live - ids,
       closing := c.closing + Tombstones(c.live, c.closing, ids),
       closers := c.closers + Started(c, ids))
  }

  predicate Prunable(c: Registry, id: string, exclude: Option<string>, now: int) {
    && id in c.live && Some(id) != exclude && c.live[id] in c.sessions
    && var s := c.sessions[c.live[id]];
       Expired(s, now) && s.inUse == 0 && s.holder == None
  }

  function PrunedIds(c: Registry, exclude: Option<string>, now: int): set<string> {
    set id | id in c.live && Prunable(c, id, exclude, now)
  }

  /** `prune_expired`. */
  function Prune(c: Registry, exclude: Option<string>, now: int): Registry {
    if c.closed then c else Remove(c, PrunedIds(c, exclude, now))
  }

  /** `evict_if_current`. */
  function Evict(c: Registry, s: nat): Registry {
    if IsCurrent(c, s) then Remove(c, {c.sessions[s].id}) else c
  }

  /** `destroy`. */
  function Destroy(c: Registry, id: string): Registry {
    if id != "" && id in c.live then Remove(c, {id}) else c
  }

  /** `close`. */
  function Close(c: Registry): Registry {
    Remove(c.(closed := true), c.live.Keys)
  }

  // ----- the close task of a session -----

  /** `_close_session` takes the lock and starts closing the context. */
  function CloserEnter(c: Registry, s: nat): Registry {
    if s !in c.closers || c.closers[s] != Waiting || s !in c.sessions || c.sessions[s].holder.Some? then c
    else c.(closers := c.closers[s := Running],
            sessions := c.sessions[s := c.sessions[s].(holder := Some(Closer), context := BeingClosed)])
  }

  /** The cleanup group of the session goes idle: `wait_for_group` may return. */
  function CleanupSettle(c: Registry, s: nat): Registry {
    if s !in c.sessions || c.sessions[s].context != BeingClosed then c
    else c.(sessions := c.sessions[s := c.sessions[s].(context := Settled)])
  }

  /** `_close_session` ends and releases the lock. */
  function CloserEnd(c: Registry, s: nat): Registry {
    if s !in c.closers || c.closers[s] != Running || s !in c.sessions || c.sessions[s].context != Settled then c
    else SetHolder(c, s, None).(closers := c.closers[s := Ended])
  }

  /** `_closing_done`: the tombstone goes if it is this task's. */
  function ClosingDone(c: Registry, s: nat): Registry {
    if s !in c.closers || c.closers[s] != Ended || s !in c.sessions then c
    else
      var id := c.sessions[s].id;
      c.(closers := c.closers - {s}, closing := if id in c.closing && c.closing[id] == s then c.closing - {id}
          else c.closing)
  }
}
