/** The ingest task of one (install, app) pair: log in with the known ids, persist, then acknowledge. */
module FcmListener {
  import opened Types
  import opened Tables
  import opened McsStream
  import opened McsMessages
  import opened DedupWindow
  import D = Database
  import P = DeliveryProtocol
  import Delivery

  const MAX_PERSISTENT_IDS: nat := 500
  const MAX_PERSISTENT_ID_BYTES: nat := 4096

  /** The check at the start of `connect`. */
  predicate LoginAccepts(ids: seq<PersistentId>) {
    |ids| <= MAX_PERSISTENT_IDS && forall p :: p in ids ==> |p| <= MAX_PERSISTENT_ID_BYTES
  }

  datatype Config = Config(
    install: InstallId, app: AppId, target: Delivery.DeliveryTarget, render: DataMessage -> seq<Byte>)

  // One turn of the receive loop: an item of the stream, the tables as other tasks have left them by
  // the time of the ingest transaction, whether that transaction commits, and whether the answer is
  // written. The turns end where the connection does.
  datatype Turn = Turn(item: Item, tables: Db, commits: bool, writes: bool) | StopRequest

  // A stop request can also be found between two connections.
  datatype Session = StopFound | Unreachable | Session(turns: seq<Turn>)

  // What the task does that the server or the database can see.
  datatype Deed =
    | Login(ids: seq<PersistentId>)
    | Commit(session: nat, streamId: int, pid: Option<PersistentId>)
    | StreamAck(session: nat, streamId: int)
    | HeartbeatAck(session: nat, streamId: int)

  datatype Listener = Listener(db: Db, queue: seq<PersistentId>, log: seq<Deed>)

  datatype Next = Continue | Reconnect | Stop

  // ----- what the task computes -----

  /** Other tasks may do anything but ingest for this pair or delete it. */
  function Interfered(cfg: Config, db: Db, tables: Db): Db {
    if AckedFor(tables.acked, cfg.install, cfg.app) == AckedFor(db.acked, cfg.install, cfg.app) then tables else db
  }

  ghost function Ingest(cfg: Config, c: nat, st: Listener, streamId: int, data: DataMessage): Listener {
    Listener(
      EnqueueFcm(st.db, cfg.install, cfg.app, cfg.target.Transport(), data.persistentId, cfg.render(data)).db,
      Learn(st.queue, data.persistentId),
      st.log + [Commit(c, streamId, data.persistentId)] + [StreamAck(c, streamId)])
  }

  /** A task that read its history from the table when it started. */
  function Seeded(cfg: Config, db: Db): Listener {
    Listener(db, LastOf(AckedFor(db.acked, cfg.install, cfg.app), MAX_ACK_HISTORY), [])
  }

  /** The id under which the turn's message is stored or known, if the turn ingests one. */
  ghost function StoredId(cfg: Config, db: Db, t: Turn): Option<nat> {
    if t.Turn? && t.commits && t.item.result.Ok? && t.item.result.value.Data? then
      var data := t.item.result.value.message;
      EnqueueFcm(Interfered(cfg, db, t.tables), cfg.install, cfg.app, cfg.target.Transport(), data.persistentId,
                 cfg.render(data)).id
    else None
  }

  ghost function TurnAfter(cfg: Config, c: nat, st: Listener, t: Turn): (Listener, Next) {
    if t.StopRequest? then (st, Stop)
    else
      var now := st.(db := Interfered(cfg, st.db, t.tables));
      var answered := if t.writes then Continue else Reconnect;
      match t.item.result
      case Ok(Data(data)) =>
        if t.commits then (Ingest(cfg, c, now, t.item.streamId, data), answered) else (now, Reconnect)
      case Ok(Ping) => (now.(log := now.log + [HeartbeatAck(c, t.item.streamId)]), answered)
      case Ok(Other(_, _)) => (now, Continue)
      case Err(_) => (now, Reconnect)
  }

  ghost function Listen(cfg: Config, c: nat, st: Listener, turns: seq<Turn>, n: nat): (Listener, bool)
    requires n <= |turns|
    decreases |turns| - n
  {
    if n == |turns| then (st, false)
    else
      var (next, how) := TurnAfter(cfg, c, st, turns[n]);
      if how.Continue? then Listen(cfg, c, next, turns, n + 1) else (next, how.Stop?)
  }

  ghost function SessionAfter(cfg: Config, c: nat, st: Listener, session: Session): (Listener, bool) {
    if session.StopFound? then (st, true)
    else if session.Unreachable? || !LoginAccepts(st.queue) then (st, false)
    else Listen(cfg, c, st.(log := st.log + [Login(st.queue)]), session.turns, 0)
  }

  ghost function Sessions(cfg: Config, st: Listener, sessions: seq<Session>, c: nat): Listener
    requires c <= |sessions|
    decreases |sessions| - c
  {
    if c == |sessions| then st
    else
      var (next, stopped) := SessionAfter(cfg, c, st, sessions[c]);
      if stopped then next else Sessions(cfg, next, sessions, c + 1)
  }

  // ----- what a turn calls for, read off the turn alone -----

  /** Whether the connection goes on after the turn. */
  predicate GoesOn(t: Turn) {
    t.Turn? && t.item.result.Ok?
    && match t.item.result.value
       case Data(_) => t.commits && t.writes
       case Ping => t.writes
       case Other(_, _) => true
  }

  /** A committed message is acknowledged with its stream id, and so is a heartbeat. */
  function TurnDeeds(c: nat, t: Turn): seq<Deed> {
    if t.StopRequest? || t.item.result.Err? then []
    else
      match t.item.result.value
      case Data(data) =>
        if t.commits then [Commit(c, t.item.streamId, data.persistentId), StreamAck(c, t.item.streamId)] else []
      case Ping => [HeartbeatAck(c, t.item.streamId)]
      case Other(_, _) => []
  }

  /** The turn stores a message that nobody has seen before: one with a payload, and with an id, if it has
      any, that the history does not hold. */
  predicate BringsNews(cfg: Config, history: seq<PersistentId>, t: Turn) {
    t.Turn? && t.commits && t.item.result.Ok? && t.item.result.value.Data?
    && IsNews(cfg, history, t.item.result.value.message)
  }

  predicate IsNews(cfg: Config, history: seq<PersistentId>, data: DataMessage) {
    cfg.render(data) != [] && !(data.persistentId.Some? && data.persistentId.value in history)
  }

  datatype Wakes = Wakes(events: map<nat, seq<P.Event>>, permit: bool)

  /** News wakes the side that delivers for the pair, once: the owner of the install by an event, or the
      UnifiedPush deliverer by its permit. */
  function Roused(cfg: Config, owner: Option<nat>, w: Wakes, news: bool): Wakes {
    Wakes(map k | k in w.events ::
            w.events[k] + if news && cfg.target.ToWebSocket? && owner == Some(k) then [P.Wake] else [],
          w.permit || (news && cfg.target.ToUnifiedPush?))
  }

  lemma RousedMeans(cfg: Config, owner: Option<nat>, w: Wakes, news: bool, after: Wakes)
    requires after.events.Keys == w.events.Keys && after.permit == (w.permit || (news && cfg.target.ToUnifiedPush?))
    requires forall k :: k in w.events ==>
               after.events[k]
               == w.events[k] + if news && cfg.target.ToWebSocket? && owner == Some(k) then [P.Wake] else []
    ensures after == Roused(cfg, owner, w, news)
  {
  }

  lemma NotRoused(cfg: Config, owner: Option<nat>, w: Wakes)
    ensures Roused(cfg, owner, w, false) == w
  {
    forall k | k in w.events ensures Roused(cfg, owner, w, false).events[k] == w.events[k] {
      assert w.events[k] + [] == w.events[k];
    }
    assert Roused(cfg, owner, w, false).events == w.events;
  }

  lemma NewsMeans(cfg: Config, history: seq<PersistentId>, data: DataMessage)
    ensures IsNews(cfg, history, data) <==>
              cfg.render(data) != [] && !(data.persistentId.Some? && data.persistentId.value in history)
  {
  }

  lemma SameHistory(cfg: Config, db: Db, tables: Db)
    ensures AckedFor(Interfered(cfg, db, tables).acked, cfg.install, cfg.app)
         == AckedFor(db.acked, cfg.install, cfg.app)
    ensures AckedFor(tables.acked, cfg.install, cfg.app) == AckedFor(db.acked, cfg.install, cfg.app) ==>
              Interfered(cfg, db, tables) == tables
  {
  }

  // ----- the task -----

  /** What other tasks leave in the tables at a point where this one waits for the database. */
  method OthersRun(db: D.Database, tables: Db)
    modifies db`outbox, db`acked, db`connectors
    ensures db.View() == tables
  {
    db.outbox, db.acked, db.connectors := tables.outbox, tables.acked, tables.connectors;
  }

  class FcmListener {
    const cfg: Config
    const db: D.Database
    const delivery: Delivery.DeliveryManager
    var persistentIds: seq<PersistentId>
    var log: seq<Deed>

    function State(): Listener
      reads this, db
    {
      Listener(db.View(), persistentIds, log)
    }

    ghost predicate Valid()
      reads this, delivery, delivery.hub
    {
      delivery.db == db && delivery.hub.Valid() && |persistentIds| <= MAX_ACK_HISTORY
    }

    /** The queue is seeded from the table, unless reading it fails. */
    constructor (cfg: Config, delivery: Delivery.DeliveryManager, readable: bool)
      requires delivery.hub.Valid()
      ensures this.cfg == cfg && this.delivery == delivery && Valid()
      ensures readable ==> State() == Seeded(cfg, delivery.db.View())
      ensures !readable ==> State() == Listener(delivery.db.View(), [], [])
    {
      hide AckedFor, D.Reverse;
      this.cfg := cfg;
      this.db := delivery.db;
      this.delivery := delivery;
      var ids := [];
      if readable {
        ids := delivery.db.RecentAcks(cfg.install, cfg.app, MAX_ACK_HISTORY);
        D.ReverseTwice(LastOf(AckedFor(delivery.db.acked, cfg.install, cfg.app), MAX_ACK_HISTORY));
      }
      persistentIds := D.Reverse(ids);
      log := [];
    }

    method Remember(pid: Option<PersistentId>)
      requires |persistentIds| <= MAX_ACK_HISTORY
      modifies this`persistentIds
      ensures persistentIds == Learn(old(persistentIds), pid)
      ensures |persistentIds| <= MAX_ACK_HISTORY
    {
      if pid.Some? && pid.value !in persistentIds {
        persistentIds := persistentIds + [pid.value];
        if |persistentIds| > MAX_ACK_HISTORY {
          persistentIds := persistentIds[1..];
        }
      }
    }

    lemma WaitingMeans()
      ensures Waiting().permit == delivery.upWake && Waiting().events.Keys == delivery.hub.queues.Keys
      ensures forall k :: k in delivery.hub.queues ==> Waiting().events[k] == delivery.hub.queues[k].events
      ensures forall k :: Owner() == Some(k) <==>
                cfg.install in delivery.hub.attachments && delivery.hub.attachments[cfg.install].connectionId == k
    {
    }

    /** Persists the message of a data turn, and wakes the side that delivers it. */
    method Enqueue(data: DataMessage, ghost s: P.State)
      requires delivery.db == db && delivery.hub.Valid() && delivery.hub.Matches(s)
      modifies delivery`upWake, db`outbox, db`acked, delivery.hub.queues.Values
      ensures delivery.hub.Valid()
      ensures var e := EnqueueFcm(old(db.View()), cfg.install, cfg.app, cfg.target.Transport(), data.persistentId,
                                  cfg.render(data));
              db.View() == e.db && delivery.hub.Matches(Delivery.Told(s, cfg.install, cfg.target, e.id))
              && delivery.upWake == (old(delivery.upWake) || (e.id.Some? && cfg.target.ToUnifiedPush?))
              && (e.id.Some? <==> IsNews(cfg, AckedFor(old(db.acked), cfg.install, cfg.app), data))
      ensures Waiting() == Roused(cfg, Owner(), old(Waiting()),
                                  IsNews(cfg, AckedFor(old(db.acked), cfg.install, cfg.app), data))
    {
      hide *;
      WaitingMeans();
      ghost var before := Waiting();
      NewsMeans(cfg, AckedFor(db.acked, cfg.install, cfg.app), data);
      ghost var now := s.(db := db.View());
      Delivery.TablesAreNotSeen(s, now);
      delivery.hub.MatchesSame(s, now);
      delivery.MatchesMeans(now);
      var id := delivery.EnqueueFcm(cfg.install, cfg.app, cfg.target, data.persistentId, cfg.render(data), now);
      Delivery.ToldAlike(now, s, cfg.install, cfg.target, id);
      delivery.hub.MatchesSame(
        Delivery.Told(now, cfg.install, cfg.target, id), Delivery.Told(s, cfg.install, cfg.target, id));
      WaitingMeans();
      RousedMeans(cfg, Owner(), before, IsNews(cfg, AckedFor(old(db.acked), cfg.install, cfg.app), data), Waiting());
    }

    /** What waits in the connections' queues, and whether the UnifiedPush deliverer has a permit. */
    ghost function Waiting(): Wakes
      reads delivery, delivery.hub, delivery.hub.queues.Values
    {
      Wakes(map k | k in delivery.hub.queues :: delivery.hub.queues[k].events, delivery.upWake)
    }

    /** The connection that owns the install. */
    ghost function Owner(): Option<nat>
      reads delivery.hub
    {
      if cfg.install in delivery.hub.attachments then Some(delivery.hub.attachments[cfg.install].connectionId) else None
    }

    /** Persists, remembers, and only then acknowledges. */
    method TakeData(c: nat, streamId: int, data: DataMessage, ghost s: P.State)
      requires Valid() && delivery.hub.Matches(s)
      modifies this`persistentIds, this`log, delivery`upWake, db`outbox, db`acked, delivery.hub.queues.Values
      ensures Valid() && State() == Ingest(cfg, c, old(State()), streamId, data)
      ensures log == old(log) + [Commit(c, streamId, data.persistentId), StreamAck(c, streamId)]
      ensures var e := EnqueueFcm(old(db.View()), cfg.install, cfg.app, cfg.target.Transport(), data.persistentId,
                                  cfg.render(data));
              delivery.hub.Matches(Delivery.Told(s, cfg.install, cfg.target, e.id))
      ensures Waiting() == Roused(cfg, Owner(), old(Waiting()),
                                  IsNews(cfg, AckedFor(old(db.acked), cfg.install, cfg.app), data))
    {
      hide EnqueueFcm, Delivery.Told, Learn, Roused, IsNews, AckedFor;
      Enqueue(data, s);
      log := log + [Commit(c, streamId, data.persistentId)];
      Remember(data.persistentId);
      log := log + [StreamAck(c, streamId)];
      assert log == old(log) + [Commit(c, streamId, data.persistentId), StreamAck(c, streamId)];
    }

    /** One turn of the receive loop; the hub is told of a stored message, and of nothing else. */
    method TakeTurn(c: nat, t: Turn) returns (next: Next)
      requires Valid()
      modifies this`persistentIds, this`log, delivery`upWake
      modifies db`outbox, db`acked, db`connectors, delivery.hub.queues.Values
      ensures Valid() && (State(), next) == TurnAfter(cfg, c, old(State()), t)
      ensures delivery.hub.Matches(
                Delivery.Told(old(delivery.Snapshot()), cfg.install, cfg.target, StoredId(cfg, old(db.View()), t)))
      ensures log == old(log) + TurnDeeds(c, t)
      ensures (next.Continue? <==> GoesOn(t)) && (next.Stop? <==> t.StopRequest?)
      ensures Waiting() == Roused(cfg, Owner(), old(Waiting()),
                                  BringsNews(cfg, AckedFor(old(db.acked), cfg.install, cfg.app), t))
    {
      hide EnqueueFcm, Ingest, IsNews, Roused, Waiting, Owner, AckedFor, Delivery.Told;
      NotRoused(cfg, Owner(), Waiting());
      delivery.SnapshotMatches();
      Delivery.NothingTold(delivery.Snapshot(), cfg.install, cfg.target);
      if t.StopRequest? {
        return Stop;
      }
      ghost var before := delivery.Snapshot();
      SameHistory(cfg, db.View(), t.tables);
      OthersRun(db, Interfered(cfg, db.View(), t.tables));
      next := Continue;
      match t.item.result {
        case Ok(Data(data)) =>
          if !t.commits {
            return Reconnect;
          }
          TakeData(c, t.item.streamId, data, before);
          if !t.writes {
            return Reconnect;
          }
        case Ok(Ping) =>
          log := log + [HeartbeatAck(c, t.item.streamId)];
          if !t.writes {
            return Reconnect;
          }
        case Ok(Other(_, _)) =>
        case Err(_) =>
          return Reconnect;
      }
    }

    method RunSession(c: nat, session: Session) returns (stopped: bool)
      requires Valid()
      modifies this`persistentIds, this`log, delivery`upWake
      modifies db`outbox, db`acked, db`connectors, delivery.hub.queues.Values
      ensures Valid() && (State(), stopped) == SessionAfter(cfg, c, old(State()), session)
    {
      if session.StopFound? {
        return true;
      }
      if session.Unreachable? || !LoginAccepts(persistentIds) {
        return false;
      }
      log := log + [Login(persistentIds)];
      ghost var start := State();
      var n := 0;
      while n < |session.turns|
        invariant n <= |session.turns| && Valid()
        invariant Listen(cfg, c, State(), session.turns, n) == Listen(cfg, c, start, session.turns, 0)
      {
        var next := TakeTurn(c, session.turns[n]);
        n := n + 1;
        if !next.Continue? {
          return next.Stop?;
        }
      }
      stopped := false;
    }

    /** The whole task, until it is stopped or the script ends. */
    method Run(sessions: seq<Session>)
      requires Valid()
      modifies this`persistentIds, this`log, delivery`upWake
      modifies db`outbox, db`acked, db`connectors, delivery.hub.queues.Values
      ensures Valid() && State() == Sessions(cfg, old(State()), sessions, 0)
    {
      var c := 0;
      while c < |sessions|
        invariant c <= |sessions| && Valid()
        invariant Sessions(cfg, State(), sessions, c) == Sessions(cfg, old(State()), sessions, 0)
      {
        var stopped := RunSession(c, sessions[c]);
        c := c + 1;
        if stopped {
          return;
        }
      }
    }
  }
}
