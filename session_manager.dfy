/**
 * The per-node registry of clustered websocket sessions (ClusterSessionManager).
 *
 * A node keeps three maps: `sessionIndex` (session id to Local or Remote session),
 * `localSessions` (transport connection to the Local session it carries) and
 * `callbackMap` (message id to acknowledgement callback). It reacts to transport
 * connect and close events and to envelopes replicated by its peers, and it publishes
 * four kinds of envelope on the cluster topic.
 *
 * The pure part of this module describes each operation as a step on a `NodeState`
 * value; the class `ClusterSessionManager` performs the same operations in place and
 * its methods are proved to agree with those steps. Everything the node does to the
 * outside world (publishing on the topic, writing to a connection, closing a
 * connection, running a callback) is recorded as an `Effect`.
 */
module ClusterSessions {
  import opened Wrappers

  type SessionId = string
  type MessageId = string

  /** A JSON payload; its content never influences the registry. */
  type Message = string

  /** A transport (Jetty) websocket session, known to the registry only by identity. */
  datatype Connection = Connection(handle: nat)

  /** An acknowledgement callback, known to the registry only by identity. */
  datatype Callback = Callback(handle: nat)

  /** A session is Local when this node holds its connection, Remote when a peer does. */
  datatype Session =
    | Local(id: SessionId, conn: Connection)
    | Remote(id: SessionId)

  type RemoteSession = s: Session | s.Remote? witness Remote("")

  /** The four envelope kinds that travel on the cluster topic. */
  datatype Envelope =
    | SessionConnected(session: Session)
    | SessionClose(session: Session)
    | BroadcastMessage(payload: Message)
    | SendAcknowledgeMessage(messageId: MessageId)

  /** What an operation does outside the three maps, in the order it does it. */
  datatype Effect =
    | Published(envelope: Envelope)
    | Wrote(target: Session, message: Message)
    | TransportClosed(conn: Connection)
    | CallbackFired(callback: Callback)

  /**
   * The runtime exceptions the registry raises: the two consistency violations, and the
   * fail-fast `ConcurrentModificationException` of a walk over `localSessions` whose
   * map was changed during the walk.
   */
  datatype Failure =
    | UnknownConnection
    | UnauthorizedRemoval(id: SessionId)
    | ConcurrentModification

  /** How the future returned by `send(id, message)` is completed. */
  datatype Completion = Completed | IoFailure

  datatype NodeState = NodeState(
    sessionIndex: map<SessionId, Session>,
    localSessions: map<Connection, Session>,
    callbackMap: map<MessageId, Callback>)

  /** The new state, the value returned and the effects of one operation. */
  datatype Step<+T> = Step(state: NodeState, out: T, effects: seq<Effect>)

  const Empty := NodeState(map[], map[], map[])

  /**
   * The two session maps agree: every connection carries a Local session for itself,
   * every index entry is filed under its own id, a Local index entry is reachable from
   * its connection, a connection's session is either missing from the index or is the
   * entry filed there, and no two connections carry the same id.
   */
  ghost predicate Consistent(st: NodeState) {
    && (forall c | c in st.localSessions :: st.localSessions[c].Local? && st.localSessions[c].conn == c)
    && (forall id | id in st.sessionIndex :: st.sessionIndex[id].id == id)
    && (forall id | id in st.sessionIndex && st.sessionIndex[id].Local? ::
          st.sessionIndex[id].conn in st.localSessions && st.localSessions[st.sessionIndex[id].conn] == st.sessionIndex[id])
    && (forall c | c in st.localSessions && st.localSessions[c].id in st.sessionIndex ::
          st.sessionIndex[st.localSessions[c].id] == st.localSessions[c])
    && (forall c, d | c in st.localSessions && d in st.localSessions && c != d ::
          st.localSessions[c].id != st.localSessions[d].id)
  }

  /** An id that no session known to this node carries (the id generator's promise). */
  predicate FreshId(st: NodeState, id: SessionId) {
    id !in st.sessionIndex && forall c | c in st.localSessions :: st.localSessions[c].id != id
  }

  /** `get(connection)`. */
  function LookupConnection(st: NodeState, c: Connection): Option<Session> {
    if c in st.localSessions then Some(st.localSessions[c]) else None
  }

  /** `get(id)`. */
  function LookupId(st: NodeState, id: SessionId): Option<Session> {
    if id in st.sessionIndex then Some(st.sessionIndex[id]) else None
  }

  /** The connection of `id` when the index holds it as a Local session (the `instanceof LocalSession` test). */
  function LocalOwner(st: NodeState, id: SessionId): Option<Connection> {
    if id in st.sessionIndex && st.sessionIndex[id].Local? then Some(st.sessionIndex[id].conn) else None
  }

  /** `sessionConnected(connection)`: a new Local session under a fresh id. */
  function ConnectStep(st: NodeState, c: Connection, id: SessionId): (r: Step<Session>)
    requires Consistent(st) && c !in st.localSessions && FreshId(st, id)
    ensures Consistent(r.state)
    ensures r.out == Local(id, c)
    ensures LookupConnection(r.state, c) == Some(r.out) && LookupId(r.state, id) == Some(r.out)
    ensures forall d | d != c :: LookupConnection(r.state, d) == LookupConnection(st, d)
    ensures forall other | other != id :: LookupId(r.state, other) == LookupId(st, other)
    ensures r.state.callbackMap == st.callbackMap
    ensures r.effects == [Published(SessionConnected(r.out))]
  {
    var s := Local(id, c);
    Step(st.(sessionIndex := st.sessionIndex[id := s], localSessions := st.localSessions[c := s]),
         s, [Published(SessionConnected(s))])
  }

  /** `sessionClosed(connection)`: fails on an unknown connection, otherwise drops the session from both maps. */
  function CloseLocalStep(st: NodeState, c: Connection): (r: Step<Result<Session, Failure>>)
    requires Consistent(st)
    ensures Consistent(r.state)
    ensures r.out.Err? <==> c !in st.localSessions
    ensures r.out.Err? ==> r.out.error == UnknownConnection && r.state == st && r.effects == []
    ensures r.out.Ok? ==>
      var s := r.out.value;
      && LookupConnection(st, c) == Some(s) && s == Local(s.id, c)
      // the entry removed from the index, if any, is this very session: the cast cannot fail
      && (s.id in st.sessionIndex ==> st.sessionIndex[s.id] == s)
      && LookupConnection(r.state, c) == None && LookupId(r.state, s.id) == None
      && r.state.sessionIndex == st.sessionIndex - {s.id}
      && r.state.localSessions == st.localSessions - {c}
      && r.state.callbackMap == st.callbackMap
      && r.effects == [Published(SessionClose(Remote(s.id)))]
  {
    if c !in st.localSessions then Step(st, Err(UnknownConnection), [])
    else
      var s := st.localSessions[c];
      Step(st.(sessionIndex := st.sessionIndex - {s.id}, localSessions := st.localSessions - {c}),
           Ok(s), [Published(SessionClose(Remote(s.id)))])
  }

  /**
   * `sessionClosed(remoteSession)`: removes the id from the index first, and only then
   * fails when the removed entry was a Local session; the connection map is never touched.
   */
  function CloseRemoteStep(st: NodeState, remote: RemoteSession): (r: Step<Result<Session, Failure>>)
    requires Consistent(st)
    ensures Consistent(r.state)
    ensures LookupId(r.state, remote.id) == None
    ensures r.state.sessionIndex == st.sessionIndex - {remote.id}
    ensures r.state.localSessions == st.localSessions && r.state.callbackMap == st.callbackMap
    ensures r.out.Err? <==> LocalOwner(st, remote.id).Some?
    ensures r.out.Err? ==> r.out.error == UnauthorizedRemoval(remote.id)
    ensures r.out.Ok? ==> r.out.value == remote
    ensures r.effects == []
  {
    var removed := LookupId(st, remote.id);
    var st' := st.(sessionIndex := st.sessionIndex - {remote.id});
    if removed.Some? && removed.value.Local? then Step(st', Err(UnauthorizedRemoval(remote.id)), [])
    else Step(st', Ok(remote), [])
  }

  /**
   * `send(session, message)`: true exactly when the write succeeds; a failed write
   * closes the session through the local close path when its id is still held as Local.
   */
  function SendStep(st: NodeState, session: Session, m: Message, writeOk: bool): (r: Step<bool>)
    requires Consistent(st)
    ensures Consistent(r.state)
    ensures r.out == writeOk
    ensures |r.effects| >= 1 && r.effects[0] == Wrote(session, m)
    ensures writeOk ==> r.state == st && r.effects == [Wrote(session, m)]
    ensures !writeOk && LocalOwner(st, session.id).None? ==> r.state == st && r.effects == [Wrote(session, m)]
    ensures !writeOk && LocalOwner(st, session.id).Some? ==>
      var c := LocalOwner(st, session.id).value;
      var closed := CloseLocalStep(st, c);
      && closed.out == Ok(Local(session.id, c))
      && r.state == closed.state
      && r.effects == [Wrote(session, m)] + closed.effects
  {
    var wrote := [Wrote(session, m)];
    if writeOk then Step(st, true, wrote)
    else
      match LocalOwner(st, session.id)
      case None => Step(st, false, wrote)
      case Some(c) =>
        var closed := CloseLocalStep(st, c);
        Step(closed.state, false, wrote + closed.effects)
  }

  /**
   * `send(id, message)`: an id that is absent or not Local completes successfully with
   * no write and no change; a Local id completes as `send(session, message)` reports.
   */
  function SendByIdStep(st: NodeState, id: SessionId, m: Message, writeOk: bool): (r: Step<Completion>)
    requires Consistent(st)
    ensures Consistent(r.state)
    ensures LocalOwner(st, id).None? ==> r == Step(st, Completed, [])
    ensures LocalOwner(st, id).Some? ==>
      var sent := SendStep(st, st.sessionIndex[id], m, writeOk);
      && r.state == sent.state && r.effects == sent.effects
      && (r.out == Completed <==> writeOk)
  {
    match LookupId(st, id)
    case Some(s) =>
      if s.Local? then
        var sent := SendStep(st, s, m, writeOk);
        Step(sent.state, if sent.out then Completed else IoFailure, sent.effects)
      else Step(st, Completed, [])
    case None => Step(st, Completed, [])
  }

  /**
   * `addSession(remote)`: replaces an existing non-Local entry by the remote proxy; a
   * Local entry wins, and an id the index does not hold is not added.
   */
  function AddSessionStep(st: NodeState, remote: RemoteSession): (r: NodeState)
    requires Consistent(st)
    ensures Consistent(r)
    ensures r.sessionIndex.Keys == st.sessionIndex.Keys
    ensures forall id | id in st.sessionIndex && st.sessionIndex[id].Local? :: r.sessionIndex[id] == st.sessionIndex[id]
    ensures remote.id in st.sessionIndex && !st.sessionIndex[remote.id].Local? ==> r.sessionIndex[remote.id] == remote
    ensures forall id | id in st.sessionIndex && id != remote.id :: r.sessionIndex[id] == st.sessionIndex[id]
    ensures r.localSessions == st.localSessions && r.callbackMap == st.callbackMap
  {
    if remote.id in st.sessionIndex && !st.sessionIndex[remote.id].Local? then
      st.(sessionIndex := st.sessionIndex[remote.id := remote])
    else st
  }

  /**
   * `closeSession(remote)`: actionable only when the id is Local here; then the
   * connection is closed and the local close path runs.
   */
  function CloseSessionStep(st: NodeState, remote: RemoteSession): (r: Step<bool>)
    requires Consistent(st)
    ensures Consistent(r.state)
    ensures r.out <==> LocalOwner(st, remote.id).Some?
    ensures !r.out ==> r.state == st && r.effects == []
    ensures r.out ==>
      var c := LocalOwner(st, remote.id).value;
      var closed := CloseLocalStep(st, c);
      && closed.out == Ok(Local(remote.id, c))
      && r.state == closed.state
      && r.effects == [TransportClosed(c)] + closed.effects
  {
    match LocalOwner(st, remote.id)
    case None => Step(st, false, [])
    case Some(c) =>
      var closed := CloseLocalStep(st, c);
      Step(closed.state, true, [TransportClosed(c)] + closed.effects)
  }

  /** `registerMessageCallback(id, callback)`: a later registration for the same id overwrites. */
  function RegisterCallbackStep(st: NodeState, id: MessageId, cb: Callback): (r: NodeState)
    ensures id in r.callbackMap && r.callbackMap[id] == cb
    ensures forall other | other != id :: (other in r.callbackMap <==> other in st.callbackMap)
    ensures forall other | other != id && other in st.callbackMap :: r.callbackMap[other] == st.callbackMap[other]
    ensures r.sessionIndex == st.sessionIndex && r.localSessions == st.localSessions
  {
    st.(callbackMap := st.callbackMap[id := cb])
  }

  /** `messageAcknowledged(id)`: runs the registered callback, if any; the map is left as it is. */
  function AcknowledgedEffects(st: NodeState, id: MessageId): (r: seq<Effect>)
    ensures |r| <= 1
    ensures r == [] <==> id !in st.callbackMap
    ensures id in st.callbackMap ==> r == [CallbackFired(st.callbackMap[id])]
  {
    if id in st.callbackMap then [CallbackFired(st.callbackMap[id])] else []
  }

  /** The connections among `among` whose write fails and whose id is still in the index. */
  ghost function DroppedAmong(st: NodeState, failing: set<Connection>, among: set<Connection>): set<Connection> {
    set c | c in among && c in st.localSessions && c in failing && st.localSessions[c].id in st.sessionIndex
  }

  /** The connections among `among` whose write succeeds. */
  ghost function DeliveredAmong(ls: map<Connection, Session>, failing: set<Connection>, among: set<Connection>): set<Connection> {
    set c | c in among && c in ls && c !in failing
  }

  /** The ids of the sessions carried by `conns`. */
  ghost function IdsOf(ls: map<Connection, Session>, conns: set<Connection>): set<SessionId> {
    set c | c in conns && c in ls :: ls[c].id
  }

  // ---------------------------------------------------------------------------
  // Properties of the steps
  // ---------------------------------------------------------------------------

  /** Connecting and then closing the same connection restores the maps and reports the session. */
  lemma ConnectThenCloseRestores(st: NodeState, c: Connection, id: SessionId)
    requires Consistent(st) && c !in st.localSessions && FreshId(st, id)
    ensures var connected := ConnectStep(st, c, id);
            var closed := CloseLocalStep(connected.state, c);
            && closed.out == Ok(connected.out)
            && closed.state == st
            && closed.effects == [Published(SessionClose(Remote(id)))]
  {
    var connected := ConnectStep(st, c, id);
    assert connected.state.sessionIndex - {id} == st.sessionIndex;
    assert connected.state.localSessions - {c} == st.localSessions;
  }

  /** Local wins: a node that receives its own `SessionConnected` echo keeps its state. */
  lemma OwnEchoKeepsLocal(st: NodeState, c: Connection, id: SessionId)
    requires Consistent(st) && c !in st.localSessions && FreshId(st, id)
    ensures var connected := ConnectStep(st, c, id).state;
            AddSessionStep(connected, Remote(id)) == connected
  {
  }

  /** Index entries that are all Local: what a node holds when it starts from `Empty`. */
  ghost predicate AllLocal(st: NodeState) {
    forall id | id in st.sessionIndex :: st.sessionIndex[id].Local?
  }

  /**
   * Because `addSession` never inserts, a node whose index holds only Local entries
   * ignores every replicated session: the index never holds a Remote proxy.
   */
  lemma ReplicationIgnoredWhenAllLocal(st: NodeState, remote: RemoteSession)
    requires Consistent(st) && AllLocal(st)
    ensures AddSessionStep(st, remote) == st
    ensures remote.id !in st.sessionIndex ==> LookupId(AddSessionStep(st, remote), remote.id) == None
  {
  }

  /** The local connection events keep the index free of Remote entries. */
  lemma AllLocalPreserved(st: NodeState, c: Connection, id: SessionId, remote: RemoteSession)
    requires Consistent(st) && AllLocal(st)
    ensures c !in st.localSessions && FreshId(st, id) ==> AllLocal(ConnectStep(st, c, id).state)
    ensures AllLocal(CloseLocalStep(st, c).state)
    ensures AllLocal(CloseRemoteStep(st, remote).state)
  {
  }

  /**
   * Writes, the fan-out, the replicated events and callback registration keep the index
   * free of Remote entries as well (the remaining operations leave the maps unchanged).
   */
  lemma AllLocalPreservedBySends(
    st: NodeState, c: Connection, id: SessionId, remote: RemoteSession, m: Message, ok: bool,
    failing: set<Connection>, mid: MessageId, cb: Callback)
    requires Consistent(st) && AllLocal(st)
    ensures AllLocal(SendStep(st, Local(id, c), m, ok).state)
    ensures AllLocal(SendByIdStep(st, id, m, ok).state)
    ensures AllLocal(AddSessionStep(st, remote))
    ensures AllLocal(CloseSessionStep(st, remote).state)
    ensures AllLocal(FannedOut(st, failing, st.localSessions.Keys))
    ensures AllLocal(RegisterCallbackStep(st, mid, cb))
  {
  }

  /**
   * A remote close aimed at a Local session fails only after dropping the id from the
   * index: the connection still maps to the session, and a later transport close of
   * that connection still succeeds and publishes a close.
   */
  lemma RemoteCloseOfLocalLeavesConnection(st: NodeState, id: SessionId, c: Connection)
    requires Consistent(st) && LocalOwner(st, id) == Some(c)
    ensures var r := CloseRemoteStep(st, Remote(id));
            && r.out == Err(UnauthorizedRemoval(id))
            && LookupId(r.state, id) == None
            && LookupConnection(r.state, c) == Some(Local(id, c))
            && CloseLocalStep(r.state, c).out == Ok(Local(id, c))
            && CloseLocalStep(r.state, c).effects == [Published(SessionClose(Remote(id)))]
  {
    var r := CloseRemoteStep(st, Remote(id));
    assert c in r.state.localSessions;
  }

  /** Close-on-failure happens at most once: a second failed write to the same session only writes. */
  lemma SecondFailedSendOnlyWrites(st: NodeState, s: Session, m: Message, m': Message)
    requires Consistent(st)
    ensures var first := SendStep(st, s, m, false);
            var second := SendStep(first.state, s, m', false);
            && second.state == first.state
            && second.effects == [Wrote(s, m')]
  {
    var first := SendStep(st, s, m, false);
    assert LocalOwner(first.state, s.id).None?;
  }

  /** `send(id, message)` to an id this node does not hold completes with no write at all. */
  lemma SendToUnknownIdIsNoop(st: NodeState, id: SessionId, m: Message, ok: bool)
    requires Consistent(st) && id !in st.sessionIndex
    ensures SendByIdStep(st, id, m, ok) == Step(st, Completed, [])
  {
  }

  /**
   * The callback an acknowledgement fires is the latest registered for its id: after a
   * registration the acknowledgement fires it, and a second registration replaces it.
   * That it is not consumed is `MessageAcknowledged`'s unchanged state.
   */
  lemma AcknowledgeFiresLatestRegistration(st: NodeState, id: MessageId, first: Callback, second: Callback)
    ensures AcknowledgedEffects(RegisterCallbackStep(st, id, first), id) == [CallbackFired(first)]
    ensures var twice := RegisterCallbackStep(RegisterCallbackStep(st, id, first), id, second);
            && twice == RegisterCallbackStep(st, id, second)
            && AcknowledgedEffects(twice, id) == [CallbackFired(second)]
  {
  }

  // ---------------------------------------------------------------------------
  // The registry object
  // ---------------------------------------------------------------------------

  class ClusterSessionManager {
    var sessionIndex: map<SessionId, Session>
    var localSessions: map<Connection, Session>
    var callbackMap: map<MessageId, Callback>
    /** Everything published, written, closed and fired so far, in order. */
    ghost var trace: seq<Effect>

    function State(): NodeState
      reads this
    {
      NodeState(sessionIndex, localSessions, callbackMap)
    }

    ghost predicate Valid()
      reads this
    {
      Consistent(State())
    }

    constructor ()
      ensures Valid() && State() == Empty && trace == []
    {
      sessionIndex, localSessions, callbackMap := map[], map[], map[];
      trace := [];
    }

    /** `get(connection)`: the session a connection carries, always a Local one for that connection. */
    function GetByConnection(c: Connection): (r: Option<Session>)
      reads this
      ensures r.Some? <==> c in localSessions
      ensures Valid() && r.Some? ==>
        && r.value == Local(r.value.id, c)
        && (r.value.id in sessionIndex ==> sessionIndex[r.value.id] == r.value)
    {
      LookupConnection(State(), c)
    }

    /** `get(id)`: the session filed under an id; a Local answer is reachable from its connection. */
    function GetById(id: SessionId): (r: Option<Session>)
      reads this
      ensures r.Some? <==> id in sessionIndex
      ensures Valid() && r.Some? ==>
        && r.value.id == id
        && (r.value.Local? ==> r.value.conn in localSessions && localSessions[r.value.conn] == r.value)
    {
      LookupId(State(), id)
    }

    method SessionConnected(c: Connection, id: SessionId) returns (s: Session)
      requires Valid() && c !in localSessions && FreshId(State(), id)
      modifies this
      ensures Valid()
      ensures var step := ConnectStep(old(State()), c, id);
              State() == step.state && s == step.out && trace == old(trace) + step.effects
    {
      s := Local(id, c);
      sessionIndex := sessionIndex[id := s];
      localSessions := localSessions[c := s];
      trace := trace + [Published(Envelope.SessionConnected(s))];
    }

    method SessionClosedByConnection(c: Connection) returns (r: Result<Session, Failure>)
      requires Valid()
      modifies this
      ensures Valid()
      ensures var step := CloseLocalStep(old(State()), c);
              State() == step.state && r == step.out && trace == old(trace) + step.effects
    {
      var found := GetByConnection(c);
      if found.None? {
        return Err(UnknownConnection);
      }
      var s := found.value;
      sessionIndex := sessionIndex - {s.id};
      localSessions := localSessions - {c};
      trace := trace + [Published(SessionClose(Remote(s.id)))];
      r := Ok(s);
    }

    method SessionClosedByRemote(remote: RemoteSession) returns (r: Result<Session, Failure>)
      requires Valid()
      modifies this
      ensures Valid()
      ensures var step := CloseRemoteStep(old(State()), remote);
              State() == step.state && r == step.out && trace == old(trace) + step.effects
    {
      var removed := GetById(remote.id);
      sessionIndex := sessionIndex - {remote.id};
      if removed.Some? && removed.value.Local? {
        return Err(UnauthorizedRemoval(remote.id));
      }
      r := Ok(remote);
    }

    method SendToSession(session: Session, m: Message, writeOk: bool) returns (ok: bool)
      requires Valid()
      modifies this
      ensures Valid()
      ensures var step := SendStep(old(State()), session, m, writeOk);
              State() == step.state && ok == step.out && trace == old(trace) + step.effects
    {
      trace := trace + [Wrote(session, m)];
      if writeOk {
        return true;
      }
      var current := GetById(session.id);
      if current.Some? && current.value.Local? {
        var closed := SessionClosedByConnection(current.value.conn);
      }
      ok := false;
    }

    method SendToId(id: SessionId, m: Message, writeOk: bool) returns (done: Completion)
      requires Valid()
      modifies this
      ensures Valid()
      ensures var step := SendByIdStep(old(State()), id, m, writeOk);
              State() == step.state && done == step.out && trace == old(trace) + step.effects
    {
      var s := GetById(id);
      if s.Some? && s.value.Local? {
        var ok := SendToSession(s.value, m, writeOk);
        return if ok then Completed else IoFailure;
      }
      done := Completed;
    }

    /** `broadcast(message)`: only publishes; delivery happens when the envelope comes back. */
    method Broadcast(m: Message)
      requires Valid()
      modifies this
      ensures Valid()
      ensures State() == old(State())
      ensures trace == old(trace) + [Published(BroadcastMessage(m))]
    {
      trace := trace + [Published(BroadcastMessage(m))];
    }

    method AddSession(remote: RemoteSession)
      requires Valid()
      modifies this
      ensures Valid()
      ensures State() == AddSessionStep(old(State()), remote) && trace == old(trace)
    {
      var current := GetById(remote.id);
      if current.Some? && !current.value.Local? {
        sessionIndex := sessionIndex[remote.id := remote];
      }
    }

    method CloseSession(remote: RemoteSession) returns (ok: bool)
      requires Valid()
      modifies this
      ensures Valid()
      ensures var step := CloseSessionStep(old(State()), remote);
              State() == step.state && ok == step.out && trace == old(trace) + step.effects
    {
      var current := GetById(remote.id);
      if current.Some? && current.value.Local? {
        trace := trace + [TransportClosed(current.value.conn)];
        var closed := SessionClosedByConnection(current.value.conn);
        return true;
      }
      ok := false;
    }

    method RegisterMessageCallback(id: MessageId, cb: Callback)
      requires Valid()
      modifies this
      ensures Valid()
      ensures State() == RegisterCallbackStep(old(State()), id, cb) && trace == old(trace)
    {
      callbackMap := callbackMap[id := cb];
    }

    /** `messageAcknowledged(id)`: fires the callback and leaves it registered. */
    method MessageAcknowledged(id: MessageId)
      requires Valid()
      modifies this
      ensures Valid()
      ensures State() == old(State())
      ensures trace == old(trace) + AcknowledgedEffects(old(State()), id)
    {
      if id in callbackMap {
        trace := trace + [CallbackFired(callbackMap[id])];
      }
    }

    method SendAcknowledgeMessage(id: MessageId)
      requires Valid()
      modifies this
      ensures Valid()
      ensures State() == old(State())
      ensures trace == old(trace) + [Published(Envelope.SendAcknowledgeMessage(id))]
    {
      trace := trace + [Published(Envelope.SendAcknowledgeMessage(id))];
    }

    /**
     * `send(message)` as written: the stream over the values of the live `localSessions`
     * map writes to every session the map held when the walk began, and a failed write
     * closes its session when the index still holds it. Such a close removes an entry
     * from the map being walked, so the walk's fail-fast check then throws instead of
     * returning the count.
     */
    method SendToLocalSessions(m: Message, failing: set<Connection>) returns (r: Result<nat, Failure>, ghost order: seq<Connection>)
      requires Valid()
      modifies this
      ensures Valid()
      ensures State() == FannedOut(old(State()), failing, old(localSessions).Keys)
      ensures r.Err? <==> DroppedAmong(old(State()), failing, old(localSessions).Keys) != {}
      ensures r.Err? ==> r.error == ConcurrentModification
      ensures r.Ok? ==> r.value == |DeliveredAmong(old(localSessions), failing, old(localSessions).Keys)|
      ensures Lists(order, old(localSessions).Keys)
      ensures trace == old(trace) + FanOutTrace(old(State()), failing, m, order)
      ensures old(trace) <= trace && FanOutSuffix(old(State()), failing, m, trace[|old(trace)|..])
    {
      var walked := localSessions;
      var count;
      count, order := SendToLocalSnapshot(m, failing);
      FanOutShrinksExactlyWhenDropped(old(State()), failing);
      if localSessions != walked {
        r := Err(ConcurrentModification);
      } else {
        r := Ok(count);
      }
    }

    /**
     * `send(message)` as intended: the same writes over a copy of the local sessions,
     * one after the other in an unspecified order, returning the number of successful
     * writes. A failed write closes its session when the index still holds it.
     */
    method SendToLocalSnapshot(m: Message, failing: set<Connection>) returns (count: nat, ghost order: seq<Connection>)
      requires Valid()
      modifies this
      ensures Valid()
      ensures count == |DeliveredAmong(old(localSessions), failing, old(localSessions).Keys)|
      ensures State() == FannedOut(old(State()), failing, old(localSessions).Keys)
      ensures Lists(order, old(localSessions).Keys)
      ensures trace == old(trace) + FanOutTrace(old(State()), failing, m, order)
      ensures old(trace) <= trace && FanOutSuffix(old(State()), failing, m, trace[|old(trace)|..])
    {
      ghost var st0 := State();
      var snapshot := localSessions;
      var pending := snapshot.Keys;
      ghost var done: set<Connection> := {};
      order := [];
      var delivered: set<Connection> := {};
      WalkedNone(st0, failing);
      FannedOutNone(st0, failing);
      while pending != {}
        invariant Walked(st0, failing, pending, done, order, delivered)
        invariant State() == FannedOut(st0, failing, done)
        invariant trace == old(trace) + FanOutTrace(st0, failing, m, order)
        decreases pending
      {
        pending, done, order, delivered := NextRound(st0, old(trace), snapshot, pending, done, order, delivered, m, failing);
      }
      WalkedAll(st0, failing, done, order, delivered);
      FannedOutConsistent(st0, failing, done);
      FanOutSuffixOf(st0, failing, m, old(trace), order);
      count := |delivered|;
    }

    /** Picks a connection still to be written to and runs its round. */
    method NextRound(
      ghost st0: NodeState, ghost before: seq<Effect>, snapshot: map<Connection, Session>, pending: set<Connection>,
      ghost done: set<Connection>, ghost order: seq<Connection>, delivered: set<Connection>, m: Message, failing: set<Connection>)
      returns (pending': set<Connection>, ghost done': set<Connection>, ghost order': seq<Connection>, delivered': set<Connection>)
      requires Consistent(st0) && snapshot == st0.localSessions && pending != {}
      requires Walked(st0, failing, pending, done, order, delivered)
      requires State() == FannedOut(st0, failing, done)
      requires trace == before + FanOutTrace(st0, failing, m, order)
      modifies this
      ensures Walked(st0, failing, pending', done', order', delivered') && pending' < pending
      ensures State() == FannedOut(st0, failing, done')
      ensures trace == before + FanOutTrace(st0, failing, m, order')
    {
      var c :| c in pending;
      delivered' := WriteOne(st0, done, before, order, delivered, c, snapshot[c], m, failing);
      WalkedStep(st0, failing, pending, done, order, delivered', c);
      done', order', pending' := done + {c}, order + [c], pending - {c};
    }

    /** One round of `send(message)`: the write to connection `c`, with its close on failure. */
    method WriteOne(
      ghost st0: NodeState, ghost done: set<Connection>, ghost before: seq<Effect>, ghost order: seq<Connection>,
      delivered: set<Connection>, c: Connection, s: Session, m: Message, failing: set<Connection>)
      returns (delivered': set<Connection>)
      requires Consistent(st0) && c in st0.localSessions && c !in done && s == st0.localSessions[c]
      requires State() == FannedOut(st0, failing, done)
      requires delivered == DeliveredAmong(st0.localSessions, failing, done)
      requires trace == before + FanOutTrace(st0, failing, m, order)
      modifies this
      ensures delivered' == DeliveredAmong(st0.localSessions, failing, done + {c})
      ensures trace == before + FanOutTrace(st0, failing, m, order + [c])
      ensures State() == FannedOut(st0, failing, done + {c})
    {
      FanOutTraceGrows(st0, failing, m, order, c);
      AppendAssociates(before, FanOutTrace(st0, failing, m, order), RoundEffects(st0, failing, m, c));
      FannedOutConsistent(st0, failing, done);
      FanOutStep(st0, State(), m, failing, done, c);
      DeliveredGrows(st0.localSessions, failing, done, c);
      var ok := SendToSession(s, m, c !in failing);
      delivered' := if ok then delivered + {c} else delivered;
    }
  }

  /**
   * The effects of the fan-out's round on connection `c`: the write to its session, then
   * the `SessionClose` published when the write fails while the index holds the id.
   */
  ghost function RoundEffects(st0: NodeState, failing: set<Connection>, m: Message, c: Connection): seq<Effect> {
    if c !in st0.localSessions then []
    else
      var s := st0.localSessions[c];
      [Wrote(s, m)] + (if c in failing && s.id in st0.sessionIndex then [Published(SessionClose(Remote(s.id)))] else [])
  }

  /** The effects of the fan-out when it visits the connections in `order`. */
  ghost function FanOutTrace(st0: NodeState, failing: set<Connection>, m: Message, order: seq<Connection>): seq<Effect>
    decreases |order|
  {
    if order == [] then []
    else FanOutTrace(st0, failing, m, order[..|order| - 1]) + RoundEffects(st0, failing, m, order[|order| - 1])
  }

  lemma FanOutTraceGrows(st0: NodeState, failing: set<Connection>, m: Message, order: seq<Connection>, c: Connection)
    ensures FanOutTrace(st0, failing, m, order + [c]) == FanOutTrace(st0, failing, m, order) + RoundEffects(st0, failing, m, c)
  {
    assert (order + [c])[..|order|] == order;
  }

  /**
   * What the fan-out tells the world, whatever its order: one write of the message to
   * the session of every visited connection, one `SessionClose` for the id of every
   * session it closed, and nothing else.
   */
  lemma FanOutTraceContents(
    st0: NodeState, failing: set<Connection>, m: Message, order: seq<Connection>, done: set<Connection>)
    requires Consistent(st0) && Lists(order, done) && done <= st0.localSessions.Keys
    ensures |FanOutTrace(st0, failing, m, order)| == |done| + |DroppedAmong(st0, failing, done)|
    ensures forall c | c in done :: Wrote(st0.localSessions[c], m) in FanOutTrace(st0, failing, m, order)
    ensures forall c | c in DroppedAmong(st0, failing, done) ::
              Published(SessionClose(Remote(st0.localSessions[c].id))) in FanOutTrace(st0, failing, m, order)
    ensures forall e | e in FanOutTrace(st0, failing, m, order) :: FanOutEffect(st0, failing, m, done, e)
  {
    FanOutTraceLength(st0, failing, m, order, done);
    FanOutTraceHas(st0, failing, m, order, done);
    FanOutTraceOnly(st0, failing, m, order, done);
  }

  /**
   * The effects of a fan-out over all of `st0`'s local sessions, up to their order:
   * exactly one write per session and one `SessionClose` per dropped session.
   */
  ghost predicate FanOutSuffix(st0: NodeState, failing: set<Connection>, m: Message, effects: seq<Effect>) {
    var keys := st0.localSessions.Keys;
    && |effects| == |keys| + |DroppedAmong(st0, failing, keys)|
    && (forall c | c in keys :: Wrote(st0.localSessions[c], m) in effects)
    && (forall c | c in DroppedAmong(st0, failing, keys) :: Published(SessionClose(Remote(st0.localSessions[c].id))) in effects)
    && (forall e | e in effects :: FanOutEffect(st0, failing, m, keys, e))
  }

  /** The trace a complete fan-out appends satisfies `FanOutSuffix`. */
  lemma FanOutSuffixOf(st0: NodeState, failing: set<Connection>, m: Message, before: seq<Effect>, order: seq<Connection>)
    requires Consistent(st0) && Lists(order, st0.localSessions.Keys)
    ensures before <= before + FanOutTrace(st0, failing, m, order)
    ensures FanOutSuffix(st0, failing, m, (before + FanOutTrace(st0, failing, m, order))[|before|..])
  {
    var t := FanOutTrace(st0, failing, m, order);
    assert (before + t)[|before|..] == t;
    FanOutTraceContents(st0, failing, m, order, st0.localSessions.Keys);
  }

  /** An effect the fan-out over `done` may have: a write to a visited session, or the close of a dropped one. */
  ghost predicate FanOutEffect(st0: NodeState, failing: set<Connection>, m: Message, done: set<Connection>, e: Effect) {
    || (e.Wrote? && e.message == m && e.target.Local? && e.target.conn in done
        && e.target.conn in st0.localSessions && st0.localSessions[e.target.conn] == e.target)
    || (e.Published? && e.envelope.SessionClose? && e.envelope.session.Remote?
        && e.envelope.session.id in IdsOf(st0.localSessions, DroppedAmong(st0, failing, done)))
  }

  /** Removing the last visited connection leaves a listing of the others. */
  lemma ListsLast(order: seq<Connection>, done: set<Connection>)
    requires Lists(order, done) && order != []
    ensures order[|order| - 1] in done
    ensures Lists(order[..|order| - 1], done - {order[|order| - 1]})
    ensures done == (done - {order[|order| - 1]}) + {order[|order| - 1]}
  {
    var p, c := order[..|order| - 1], order[|order| - 1];
    assert order == p + [c];
    assert c !in p;
    forall x ensures x in p <==> x in done - {c} {
      assert x in p ==> x in order;
      assert x in order && x != c ==> x in p;
    }
  }

  lemma {:induction false} FanOutTraceLength(
    st0: NodeState, failing: set<Connection>, m: Message, order: seq<Connection>, done: set<Connection>)
    requires Lists(order, done) && done <= st0.localSessions.Keys
    ensures |FanOutTrace(st0, failing, m, order)| == |done| + |DroppedAmong(st0, failing, done)|
    decreases |order|
  {
    if order == [] {
      assert done == {};
      assert DroppedAmong(st0, failing, done) == {};
    } else {
      var p, c := order[..|order| - 1], order[|order| - 1];
      ListsLast(order, done);
      var rest := done - {c};
      FanOutTraceLength(st0, failing, m, p, rest);
      DroppedGrows(st0, failing, rest, c);
      assert c !in DroppedAmong(st0, failing, rest);
    }
  }

  lemma {:induction false} FanOutTraceHas(
    st0: NodeState, failing: set<Connection>, m: Message, order: seq<Connection>, done: set<Connection>)
    requires Lists(order, done) && done <= st0.localSessions.Keys
    ensures forall c | c in done :: Wrote(st0.localSessions[c], m) in FanOutTrace(st0, failing, m, order)
    ensures forall c | c in DroppedAmong(st0, failing, done) ::
              Published(SessionClose(Remote(st0.localSessions[c].id))) in FanOutTrace(st0, failing, m, order)
    decreases |order|
  {
    if order == [] {
      assert done == {};
    } else {
      var p, c := order[..|order| - 1], order[|order| - 1];
      ListsLast(order, done);
      var rest := done - {c};
      FanOutTraceHas(st0, failing, m, p, rest);
      DroppedGrows(st0, failing, rest, c);
      var tp, round := FanOutTrace(st0, failing, m, p), RoundEffects(st0, failing, m, c);
      assert FanOutTrace(st0, failing, m, order) == tp + round;
      assert Wrote(st0.localSessions[c], m) in round;
    }
  }

  lemma {:induction false} FanOutTraceOnly(
    st0: NodeState, failing: set<Connection>, m: Message, order: seq<Connection>, done: set<Connection>)
    requires Consistent(st0) && Lists(order, done) && done <= st0.localSessions.Keys
    ensures forall e | e in FanOutTrace(st0, failing, m, order) :: FanOutEffect(st0, failing, m, done, e)
    decreases |order|
  {
    if order != [] {
      var p, c := order[..|order| - 1], order[|order| - 1];
      ListsLast(order, done);
      var rest := done - {c};
      FanOutTraceOnly(st0, failing, m, p, rest);
      var tp, round := FanOutTrace(st0, failing, m, p), RoundEffects(st0, failing, m, c);
      assert FanOutTrace(st0, failing, m, order) == tp + round;
      forall e | e in tp ensures FanOutEffect(st0, failing, m, done, e) {
        FanOutEffectGrows(st0, failing, m, rest, c, e);
      }
      RoundEffectsAllowed(st0, failing, m, rest, c);
    }
  }

  /** An effect allowed for the connections in `done` stays allowed once `c` is handled too. */
  lemma FanOutEffectGrows(
    st0: NodeState, failing: set<Connection>, m: Message, done: set<Connection>, c: Connection, e: Effect)
    requires c in st0.localSessions && FanOutEffect(st0, failing, m, done, e)
    ensures FanOutEffect(st0, failing, m, done + {c}, e)
  {
    DroppedGrows(st0, failing, done, c);
    IdsOfAdd(st0.localSessions, DroppedAmong(st0, failing, done), c);
  }

  /** The effects of handling `c` are allowed for the connections in `done + {c}`. */
  lemma RoundEffectsAllowed(
    st0: NodeState, failing: set<Connection>, m: Message, done: set<Connection>, c: Connection)
    requires Consistent(st0) && c in st0.localSessions
    ensures forall e | e in RoundEffects(st0, failing, m, c) :: FanOutEffect(st0, failing, m, done + {c}, e)
  {
    DroppedGrows(st0, failing, done, c);
    IdsOfAdd(st0.localSessions, DroppedAmong(st0, failing, done), c);
  }

  lemma AppendAssociates<T>(a: seq<T>, b: seq<T>, c: seq<T>)
    ensures a + b + c == a + (b + c)
  {
  }

  /**
   * The fan-out's bookkeeping: the local sessions of `st0` split into the connections
   * `done` and those `pending`; `order` lists each connection of `done` exactly once;
   * `delivered` holds the connections of `done` whose write succeeded.
   */
  ghost predicate Walked(
    st0: NodeState, failing: set<Connection>, pending: set<Connection>,
    done: set<Connection>, order: seq<Connection>, delivered: set<Connection>)
  {
    && done !! pending
    && done + pending == st0.localSessions.Keys
    && delivered == DeliveredAmong(st0.localSessions, failing, done)
    && Lists(order, done)
  }

  /** `order` lists each connection of `done` exactly once. */
  ghost predicate Lists(order: seq<Connection>, done: set<Connection>) {
    && (forall i, j | 0 <= i < j < |order| :: order[i] != order[j])
    && (forall c :: c in order <==> c in done)
  }

  lemma OneMoreVisited(order: seq<Connection>, done: set<Connection>, c: Connection)
    requires Lists(order, done) && c !in done
    ensures Lists(order + [c], done + {c})
  {
  }

  lemma WalkedStep(
    st0: NodeState, failing: set<Connection>, pending: set<Connection>,
    done: set<Connection>, order: seq<Connection>, delivered': set<Connection>, c: Connection)
    requires Walked(st0, failing, pending, done, order, DeliveredAmong(st0.localSessions, failing, done))
    requires c in pending && delivered' == DeliveredAmong(st0.localSessions, failing, done + {c})
    ensures Walked(st0, failing, pending - {c}, done + {c}, order + [c], delivered')
  {
    OneMoreVisited(order, done, c);
  }

  lemma WalkedNone(st0: NodeState, failing: set<Connection>)
    ensures Walked(st0, failing, st0.localSessions.Keys, {}, [], {})
  {
    assert DeliveredAmong(st0.localSessions, failing, {}) == {};
  }

  lemma FannedOutNone(st0: NodeState, failing: set<Connection>)
    ensures FannedOut(st0, failing, {}) == st0
  {
    assert DroppedAmong(st0, failing, {}) == {};
    assert IdsOf(st0.localSessions, {}) == {};
    assert st0.localSessions - {} == st0.localSessions;
    assert st0.sessionIndex - {} == st0.sessionIndex;
  }

  lemma WalkedAll(st0: NodeState, failing: set<Connection>, done: set<Connection>, order: seq<Connection>, delivered: set<Connection>)
    requires Walked(st0, failing, {}, done, order, delivered)
    ensures done == st0.localSessions.Keys
    ensures Lists(order, st0.localSessions.Keys)
    ensures delivered == DeliveredAmong(st0.localSessions, failing, st0.localSessions.Keys)
  {
  }

  /** The node's state once the connections in `done` have been written to, starting from `st0`. */
  ghost function FannedOut(st0: NodeState, failing: set<Connection>, done: set<Connection>): NodeState {
    var dropped := DroppedAmong(st0, failing, done);
    NodeState(st0.sessionIndex - IdsOf(st0.localSessions, dropped), st0.localSessions - dropped, st0.callbackMap)
  }

  /**
   * What `send(message)` leaves behind. A connection stays exactly when its write
   * succeeded or its id had already left the index; an id leaves the index exactly when
   * it is Local here and its write failed; and the count never exceeds the number of
   * local sessions.
   */
  lemma FanOutOutcome(st0: NodeState, failing: set<Connection>)
    requires Consistent(st0)
    ensures forall c | c in st0.localSessions ::
              (c in FannedOut(st0, failing, st0.localSessions.Keys).localSessions
               <==> c !in failing || st0.localSessions[c].id !in st0.sessionIndex)
    ensures FannedOut(st0, failing, st0.localSessions.Keys).localSessions.Keys <= st0.localSessions.Keys
    ensures forall id ::
              (id in FannedOut(st0, failing, st0.localSessions.Keys).sessionIndex
               <==> id in st0.sessionIndex && !(LocalOwner(st0, id).Some? && LocalOwner(st0, id).value in failing))
    ensures FannedOut(st0, failing, st0.localSessions.Keys).callbackMap == st0.callbackMap
    ensures |DeliveredAmong(st0.localSessions, failing, st0.localSessions.Keys)| <= |st0.localSessions|
  {
    var keys := st0.localSessions.Keys;
    var dropped := DroppedAmong(st0, failing, keys);
    forall id | id in st0.sessionIndex && LocalOwner(st0, id).Some? && LocalOwner(st0, id).value in failing
      ensures id in IdsOf(st0.localSessions, dropped)
    {
      var c := LocalOwner(st0, id).value;
      assert c in dropped && st0.localSessions[c].id == id;
    }
    DeliveredBound(st0.localSessions, failing);
  }

  /** When no write fails, `send(message)` changes nothing and counts every local session. */
  lemma FanOutWithoutFailures(st0: NodeState, failing: set<Connection>)
    requires Consistent(st0) && failing !! st0.localSessions.Keys
    ensures FannedOut(st0, failing, st0.localSessions.Keys) == st0
    ensures |DeliveredAmong(st0.localSessions, failing, st0.localSessions.Keys)| == |st0.localSessions|
  {
    var keys := st0.localSessions.Keys;
    var dropped := DroppedAmong(st0, failing, keys);
    assert dropped == {};
    assert IdsOf(st0.localSessions, dropped) == {};
    assert st0.localSessions - dropped == st0.localSessions;
    assert st0.sessionIndex - {} == st0.sessionIndex;
    assert DeliveredAmong(st0.localSessions, failing, keys) == keys;
  }

  /** Closing the sessions whose writes failed keeps the node's maps consistent. */
  lemma FannedOutConsistent(st0: NodeState, failing: set<Connection>, done: set<Connection>)
    requires Consistent(st0)
    ensures Consistent(FannedOut(st0, failing, done))
  {
    var dropped := DroppedAmong(st0, failing, done);
    var st := FannedOut(st0, failing, done);
    forall id | id in st.sessionIndex && st.sessionIndex[id].Local?
      ensures st.sessionIndex[id].conn in st.localSessions
    {
      var c := st0.sessionIndex[id].conn;
      assert c in st0.localSessions && st0.localSessions[c].id == id;
    }
  }

  /** One round of the fan-out keeps the loop's description of the node's state. */
  lemma FanOutStep(st0: NodeState, st: NodeState, m: Message, failing: set<Connection>, done: set<Connection>, c: Connection)
    requires Consistent(st0) && Consistent(st)
    requires c in st0.localSessions && c !in done
    requires st == FannedOut(st0, failing, done)
    ensures SendStep(st, st0.localSessions[c], m, c !in failing).state == FannedOut(st0, failing, done + {c})
    ensures SendStep(st, st0.localSessions[c], m, c !in failing).effects == RoundEffects(st0, failing, m, c)
  {
    var s := st0.localSessions[c];
    DroppedGrows(st0, failing, done, c);
    if c in failing && s.id in st0.sessionIndex {
      FanOutDrop(st0, st, m, failing, done, c);
    } else {
      assert DroppedAmong(st0, failing, done + {c}) == DroppedAmong(st0, failing, done);
      assert c !in failing ==> SendStep(st, s, m, c !in failing).state == st;
      assert s.id !in st0.sessionIndex ==> LocalOwner(st, s.id).None?;
    }
  }

  /** The round whose write fails on a session the index still holds: the session leaves both maps. */
  lemma FanOutDrop(st0: NodeState, st: NodeState, m: Message, failing: set<Connection>, done: set<Connection>, c: Connection)
    requires Consistent(st0) && Consistent(st)
    requires c in st0.localSessions && c !in done
    requires c in failing && st0.localSessions[c].id in st0.sessionIndex
    requires st == FannedOut(st0, failing, done)
    ensures SendStep(st, st0.localSessions[c], m, false).state == FannedOut(st0, failing, done + {c})
    ensures SendStep(st, st0.localSessions[c], m, false).effects == RoundEffects(st0, failing, m, c)
  {
    var s := st0.localSessions[c];
    var dropped := DroppedAmong(st0, failing, done);
    DroppedGrows(st0, failing, done, c);
    IdNotDropped(st0, failing, done, c);
    IdsOfAdd(st0.localSessions, dropped, c);
    assert c in st.localSessions && st.localSessions[c] == s;
    assert st.sessionIndex[s.id] == s;
    assert LocalOwner(st, s.id) == Some(c);
    MinusOneMore(st0.localSessions, dropped, c);
    MinusOneMore(st0.sessionIndex, IdsOf(st0.localSessions, dropped), s.id);
  }

  /**
   * The fan-out changes the map it walks exactly when some failed write closes a
   * session, which is when the as-written `send(message)` throws.
   */
  lemma FanOutShrinksExactlyWhenDropped(st0: NodeState, failing: set<Connection>)
    ensures FannedOut(st0, failing, st0.localSessions.Keys).localSessions != st0.localSessions
            <==> DroppedAmong(st0, failing, st0.localSessions.Keys) != {}
  {
    var dropped := DroppedAmong(st0, failing, st0.localSessions.Keys);
    if dropped != {} {
      var c :| c in dropped;
      assert c !in FannedOut(st0, failing, st0.localSessions.Keys).localSessions;
    } else {
      assert st0.localSessions - dropped == st0.localSessions;
    }
  }

  /**
   * A single failed write to a session the index holds is enough for the as-written
   * `send(message)` to throw, although all but that one write succeeded.
   */
  lemma OneFailedWriteThrows(st0: NodeState, failing: set<Connection>, c: Connection)
    requires Consistent(st0) && c in st0.localSessions && c in failing
    requires st0.localSessions[c].id in st0.sessionIndex
    ensures DroppedAmong(st0, failing, st0.localSessions.Keys) != {}
    ensures failing * st0.localSessions.Keys == {c} ==>
              |DeliveredAmong(st0.localSessions, failing, st0.localSessions.Keys)| == |st0.localSessions| - 1
  {
    assert c in DroppedAmong(st0, failing, st0.localSessions.Keys);
    if failing * st0.localSessions.Keys == {c} {
      var keys := st0.localSessions.Keys;
      assert DeliveredAmong(st0.localSessions, failing, keys) == keys - {c};
    }
  }

  lemma MinusOneMore<K, V>(m: map<K, V>, keys: set<K>, k: K)
    ensures m - (keys + {k}) == (m - keys) - {k}
  {
  }

  /** The dropped set grows by `c` exactly when `c`'s write fails while its id is indexed. */
  lemma DroppedGrows(st0: NodeState, failing: set<Connection>, done: set<Connection>, c: Connection)
    requires c in st0.localSessions
    ensures DroppedAmong(st0, failing, done + {c})
            == DroppedAmong(st0, failing, done)
               + (if c in failing && st0.localSessions[c].id in st0.sessionIndex then {c} else {})
  {
  }

  /** No connection already handled carries the id of a connection not yet handled. */
  lemma IdNotDropped(st0: NodeState, failing: set<Connection>, done: set<Connection>, c: Connection)
    requires Consistent(st0) && c in st0.localSessions && c !in done
    ensures st0.localSessions[c].id !in IdsOf(st0.localSessions, DroppedAmong(st0, failing, done))
  {
  }

  lemma IdsOfAdd(ls: map<Connection, Session>, conns: set<Connection>, c: Connection)
    requires c in ls
    ensures IdsOf(ls, conns + {c}) == IdsOf(ls, conns) + {ls[c].id}
  {
  }

  /** The delivered set grows by `c` exactly when `c`'s write succeeds. */
  lemma DeliveredGrows(ls: map<Connection, Session>, failing: set<Connection>, done: set<Connection>, c: Connection)
    requires c in ls && c !in done
    ensures c !in DeliveredAmong(ls, failing, done)
    ensures DeliveredAmong(ls, failing, done + {c}) == DeliveredAmong(ls, failing, done) + (if c !in failing then {c} else {})
  {
  }

  /** The fan-out count never exceeds the number of sessions held by this node. */
  lemma DeliveredBound(ls: map<Connection, Session>, failing: set<Connection>)
    ensures |DeliveredAmong(ls, failing, ls.Keys)| <= |ls|
  {
    SubsetCardinality(DeliveredAmong(ls, failing, ls.Keys), ls.Keys);
  }

  lemma {:induction false} SubsetCardinality<T>(a: set<T>, b: set<T>)
    requires a <= b
    ensures |a| <= |b|
    decreases b
  {
    if a != {} {
      var x :| x in a;
      SubsetCardinality(a - {x}, b - {x});
    }
  }
}
