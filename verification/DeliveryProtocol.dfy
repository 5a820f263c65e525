/** The store-and-forward protocol as a transition system.

    One step is one database call, one hub call, or one piece of task-local work. Connections,
    HTTP handlers, the FCM ingest tasks and the UnifiedPush deliverer interleave freely. */
module DeliveryProtocol {
  import opened Types
  import opened Tables

  datatype Event = Wake | Replaced(install: InstallId)

  datatype AttachmentState = Ready(cursor: int) | AwaitingAck(id: nat)

  // `sent` and `resumed` are history: the ids read on this attachment, and the cursor it was
  // resumed with if the client had really received that id.
  datatype Attachment = Attachment(state: AttachmentState, sent: seq<nat>, resumed: Option<int>)

  datatype Frame = Frame(install: InstallId, id: nat)

  // Where a connection's task stands in its event loop.
  datatype Pc =
    | Scan(todo: set<InstallId>, frames: seq<Frame>)
    | Parked
    | Clamping(install: InstallId, presented: int, honest: bool)
    | Applying(install: InstallId, presented: int, honest: bool, cursor: int)
    | Joining(install: InstallId, presented: int, honest: bool, cursor: int)
    | Refused(install: InstallId)
    | Closing

  datatype Conn = Conn(attachments: map<InstallId, Attachment>, events: seq<Event>, pc: Pc)

  // Why a row left the outbox.
  datatype Cause =
    | Acked(install: InstallId, honest: bool)
    | Resumed(install: InstallId, presented: int, honest: bool)
    | Unregistered(install: InstallId, app: AppId)
    | Disconnected(install: InstallId, app: AppId, token: ConnectorToken)
    | Reconciled(install: InstallId, retained: set<ConnectorToken>)
    | Forwarded

  // `log` is in the order of the outbox queries, `received` holds the frames written to a client.
  datatype History = History(
    log: seq<Frame>, received: set<Frame>, inserted: map<nat, Row>, removed: map<nat, Cause>)

  // `inflight` counts the enqueuers between their insert and their wake; `held` the rows the
  // UnifiedPush deliverer has loaded.
  datatype State = State(
    db: Db, hub: map<InstallId, nat>, conns: map<nat, Conn>, nextConn: nat,
    inflight: multiset<InstallId>, held: set<nat>, past: History)

  const INITIAL := State(EMPTY_DB, map[], map[], 1, multiset{}, {}, History([], {}, map[], map[]))

  // ----- steps -----

  datatype Operation =
    | FcmArrives(install: InstallId, app: AppId, transport: Transport, pid: Option<PersistentId>, payload: seq<Byte>)
    | PushArrives(install: InstallId, app: AppId, token: ConnectorToken, payload: seq<Byte>)
    | Connect(install: InstallId, app: AppId, token: ConnectorToken, candidate: EndpointToken, vapid: Option<string>)
    | Unregister(install: InstallId, app: AppId) // also one pair of a prune
    | Disconnect(install: InstallId, app: AppId, token: ConnectorToken)
    | Reconcile(install: InstallId, retained: set<ConnectorToken>)
    | LoadDue(id: nat)
    | FinishForward(id: nat)

  datatype Action =
    | Visit(install: InstallId)
    | SendFrame
    | Park
    | Tick
    | BeginAttach(install: InstallId, presented: int)
    | ReadMaximum
    | ApplyCursor
    | Join
    | ClientDetach(install: InstallId)
    | ClientAck(install: InstallId, id: nat)
    | FinishRefused
    | TakeEvent
    | Fail
    | Release(install: InstallId)
    | Close

  datatype Label =
    | Outside(op: Operation)
    | WakeOwner(install: InstallId)
    | Open
    | Act(conn: nat, action: Action)
    | Crash

  // ----- effects -----

  /** The history of an outbox change: which rows came, which went, and why. */
  function Record(past: History, before: Outbox, after: Outbox, cause: Cause): History {
    past.(inserted := past.inserted + Added(before, after),
          removed := past.removed + (map id | id in before.rows && id !in after.rows :: cause))
  }

  function Added(before: Outbox, after: Outbox): map<nat, Row> {
    map id | id in after.rows && id !in before.rows :: after.rows[id]
  }

  function SetOutbox(s: State, outbox: Outbox, cause: Cause): State {
    s.(db := s.db.(outbox := outbox), past := Record(s.past, s.db.outbox, outbox, cause))
  }

  function SetDb(s: State, db: Db, cause: Cause): State {
    SetOutbox(s, db.outbox, cause).(db := db)
  }

  function SetConn(s: State, k: nat, c: Conn): State {
    s.(conns := s.conns[k := c])
  }

  function SetPc(s: State, k: nat, pc: Pc): State
    requires k in s.conns
  {
    SetConn(s, k, s.conns[k].(pc := pc))
  }

  /** Back to the top of the loop: scan every attached install. */
  function Restart(s: State, k: nat): State
    requires k in s.conns
  {
    SetPc(s, k, Scan(s.conns[k].attachments.Keys, []))
  }

  function Post(s: State, k: nat, e: Event): State {
    if k in s.conns then SetConn(s, k, s.conns[k].(events := s.conns[k].events + [e])) else s
  }

  /** The hub hands the install to `k` and tells the connection it took it from. */
  function HubAttach(s: State, k: nat, install: InstallId): State {
    var told := if install in s.hub && s.hub[install] != k then Post(s, s.hub[install], Replaced(install)) else s;
    told.(hub := s.hub[install := k])
  }

  /** Forget the attachment, and give up the install only if `k` still owns it. */
  function Drop(s: State, k: nat, install: InstallId): State
    requires k in s.conns
  {
    var c := s.conns[k];
    if install !in c.attachments then s
    else
      var hub := if install in s.hub && s.hub[install] == k then s.hub - {install} else s.hub;
      SetConn(s.(hub := hub), k, c.(attachments := c.attachments - {install}))
  }

  predicate HasReceived(past: History, install: InstallId, id: int) {
    id <= 0 || Frame(install, id) in past.received
  }

  ghost function Outcome(s: State, op: Operation): Option<State> {
    match op
    case FcmArrives(install, app, transport, pid, payload) =>
      var e := EnqueueFcm(s.db, install, app, transport, pid, payload);
      var woken := if e.id.Some? && transport.WebSocket? then multiset{install} else multiset{};
      Some(SetDb(s, e.db, Forwarded).(inflight := s.inflight + woken))
    case PushArrives(install, app, token, payload) =>
      var e := EnqueueUnifiedPush(s.db, install, app, token, payload);
      Some(SetDb(s, e.db, Forwarded).(inflight := s.inflight + multiset{install}))
    case Connect(install, app, token, candidate, vapid) =>
      var r := RegisterConnector(s.db, install, app, token, candidate, vapid);
      Some(if r.Registered? then s.(db := r.db) else s)
    case Unregister(install, app) =>
      Some(SetDb(s, DeleteRegistration(s.db, install, app), Unregistered(install, app)))
    case Disconnect(install, app, token) =>
      Some(SetDb(s, UnregisterConnector(s.db, install, app, token), Disconnected(install, app, token)))
    case Reconcile(install, retained) =>
      Some(SetDb(s, DeleteStale(s.db, install, retained), Reconciled(install, retained)))
    case LoadDue(id) =>
      if id in s.db.outbox.rows && s.db.outbox.rows[id].transport.UnifiedPush? then Some(s.(held := s.held + {id}))
      else None
    case FinishForward(id) =>
      if id in s.held then Some(SetOutbox(s, Delete(s.db.outbox, {id}), Forwarded)) else None
  }

  /** One install's turn in `pending_messages`. */
  ghost function VisitInstall(s: State, k: nat, install: InstallId): State
    requires k in s.conns && s.conns[k].pc.Scan?
  {
    var c := s.conns[k];
    var pc := c.pc.(todo := c.pc.todo - {install});
    if install in c.attachments && c.attachments[install].state.Ready? then
      var a := c.attachments[install];
      var next := NextSocketMessage(s.db.outbox, install, a.state.cursor);
      if next.None? then SetPc(s, k, pc)
      else
        var id := next.value;
        var frame := Frame(install, id);
        var read := a.(state := AwaitingAck(id), sent := a.sent + [id]);
        SetConn(s.(past := s.past.(log := s.past.log + [frame])), k,
                c.(attachments := c.attachments[install := read], pc := pc.(frames := pc.frames + [frame])))
    else SetPc(s, k, pc)
  }

  function JoinHub(s: State, k: nat): State
    requires k in s.conns && s.conns[k].pc.Joining?
  {
    var Joining(install, presented, honest, cursor) := s.conns[k].pc;
    var owned := HubAttach(s, k, install);
    var attachment := Attachment(Ready(cursor), [], if honest then Some(presented) else None);
    var c := owned.conns[k];
    Restart(SetConn(owned, k, c.(attachments := c.attachments[install := attachment])), k)
  }

  function Acknowledge(s: State, k: nat, install: InstallId, id: nat): State
    requires k in s.conns
  {
    var c := s.conns[k];
    if install in c.attachments && c.attachments[install].state == AwaitingAck(id) then
      if id in s.db.outbox.rows && ForSocket(s.db.outbox.rows[id], install) then
        var acked := SetOutbox(s, Delete(s.db.outbox, {id}), Acked(install, HasReceived(s.past, install, id)));
        var ready := c.attachments[install].(state := Ready(id));
        Restart(SetConn(acked, k, c.(attachments := c.attachments[install := ready])), k)
      else SetPc(s, k, Refused(install))
    else Restart(Drop(s, k, install), k)
  }

  ghost function Proceed(s: State, k: nat, action: Action): Option<State>
    requires k in s.conns
  {
    var c := s.conns[k];
    match action
    case Visit(install) =>
      if c.pc.Scan? && install in c.pc.todo then Some(VisitInstall(s, k, install)) else None
    case SendFrame =>
      if c.pc.Scan? && c.pc.todo == {} && c.pc.frames != [] then
        Some(SetPc(s.(past := s.past.(received := s.past.received + {c.pc.frames[0]})), k,
                   Scan({}, c.pc.frames[1..])))
      else None
    case Park =>
      if c.pc == Scan({}, []) then Some(SetPc(s, k, Parked)) else None
    case Tick => // heartbeat, a refused proof, a frame that changes nothing
      if c.pc.Parked? then Some(Restart(s, k)) else None
    case BeginAttach(install, presented) =>
      if c.pc.Parked? then
        Some(SetPc(s, k, Clamping(install, presented, HasReceived(s.past, install, presented))))
      else None
    case ReadMaximum =>
      if c.pc.Clamping? then
        var cursor := Clamp(c.pc.presented, MaxId(s.db.outbox));
        Some(SetPc(s, k, Applying(c.pc.install, c.pc.presented, c.pc.honest, cursor)))
      else None
    case ApplyCursor =>
      if c.pc.Applying? then
        var Applying(install, presented, honest, cursor) := c.pc;
        var outbox := Delete(s.db.outbox, SocketUpTo(s.db.outbox, install, cursor));
        Some(SetPc(SetOutbox(s, outbox, Resumed(install, presented, honest)), k,
                   Joining(install, presented, honest, cursor)))
      else None
    case Join =>
      if c.pc.Joining? then Some(JoinHub(s, k)) else None
    case ClientDetach(install) =>
      if c.pc.Parked? then Some(Restart(Drop(s, k, install), k)) else None
    case ClientAck(install, id) =>
      if c.pc.Parked? then Some(Acknowledge(s, k, install, id)) else None
    case FinishRefused =>
      if c.pc.Refused? then Some(Restart(Drop(s, k, c.pc.install), k)) else None
    case TakeEvent =>
      if c.pc.Parked? && c.events != [] then
        var taken := SetConn(s, k, c.(events := c.events[1..]));
        Some(Restart(if c.events[0].Wake? then taken else Drop(taken, k, c.events[0].install), k))
      else None
    case Fail => // a failed write, a database error, a close from the client
      Some(SetPc(s, k, Closing))
    case Release(install) =>
      if c.pc.Closing? && install in c.attachments then Some(Drop(s, k, install)) else None
    case Close =>
      if c.pc.Closing? && c.attachments == map[] then Some(s.(conns := s.conns - {k})) else None
  }

  /** The bridge stops and starts again: only the tables are left, and the history. */
  function Restarted(s: State): State {
    State(s.db, map[], map[], INITIAL.nextConn, multiset{}, {}, s.past)
  }

  /** The state after a step, or `None` when the step is not possible. */
  ghost function Step(s: State, l: Label): Option<State> {
    match l
    case Outside(op) => Outcome(s, op)
    case WakeOwner(install) =>
      if install in s.inflight then
        var rest := s.(inflight := s.inflight - multiset{install});
        Some(if install in s.hub then Post(rest, s.hub[install], Wake) else rest)
      else None
    case Open =>
      Some(SetConn(s, s.nextConn, Conn(map[], [], Scan({}, []))).(nextConn := s.nextConn + 1))
    case Act(k, action) =>
      if k in s.conns then Proceed(s, k, action) else None
    case Crash => Some(Restarted(s))
  }

  /** The state a run ends in, or `None` when some step of it is not possible. */
  ghost function Run(s: State, steps: seq<Label>): Option<State>
    decreases |steps|
  {
    if steps == [] then Some(s)
    else
      var t := Step(s, steps[0]);
      if t.None? then None else Run(t.value, steps[1..])
  }

  ghost predicate Reachable(s: State) {
    exists steps :: Run(INITIAL, steps) == Some(s)
  }
}
