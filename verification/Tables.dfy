/** The meaning of the bridge's SQL statements, on table values. */
module Tables {
  import opened Types

  const MAX_ACK_HISTORY: nat := 500

  datatype Row = Row(
    install: InstallId,
    app: AppId,
    kind: MessageKind,
    transport: Transport,
    connector: Option<ConnectorToken>,
    pid: Option<PersistentId>,
    payload: seq<Byte>)

  // `lastId` is the AUTOINCREMENT high-water mark: it never goes down, so ids are never reused.
  datatype Outbox = Outbox(rows: map<nat, Row>, lastId: nat)

  // One entry of acked_messages; the sequence holding them is in rowid order.
  datatype Ack = Ack(install: InstallId, app: AppId, pid: PersistentId)

  datatype Connector = Connector(app: AppId, endpoint: EndpointToken, vapid: Option<string>)

  type Connectors = map<(InstallId, ConnectorToken), Connector>

  datatype Db = Db(outbox: Outbox, acked: seq<Ack>, connectors: Connectors)

  const EMPTY_DB := Db(Outbox(map[], 0), [], map[])

  // ----- outbox -----

  predicate ForSocket(row: Row, install: InstallId) {
    row.install == install && row.transport.WebSocket?
  }

  ghost predicate IdsIssued(o: Outbox) {
    forall id :: id in o.rows ==> 0 < id <= o.lastId
  }

  /** What any number of statements may do to the outbox: drop rows, and add rows with fresh ids. */
  ghost predicate Evolves(before: Outbox, after: Outbox) {
    && before.lastId <= after.lastId
    && forall id :: id in after.rows ==>
         (id in before.rows && before.rows[id] == after.rows[id]) || before.lastId < id <= after.lastId
  }

  function Insert(o: Outbox, row: Row): (r: Outbox)
    ensures Evolves(o, r) && r.lastId in r.rows && r.lastId > o.lastId
    ensures r.rows[r.lastId] == row && r.rows.Keys == o.rows.Keys + {r.lastId}
  {
    Outbox(o.rows[o.lastId + 1 := row], o.lastId + 1)
  }

  function Delete(o: Outbox, ids: set<nat>): (r: Outbox)
    ensures Evolves(o, r) && r.rows.Keys == o.rows.Keys - ids
  {
    o.(rows := o.rows - ids)
  }

  function SocketUpTo(o: Outbox, install: InstallId, cursor: int): set<nat> {
    set id | id in o.rows && ForSocket(o.rows[id], install) && id <= cursor
  }

  function SocketAfter(o: Outbox, install: InstallId, cursor: int): set<nat> {
    set id | id in o.rows && ForSocket(o.rows[id], install) && id > cursor
  }

  function FcmRows(o: Outbox, install: InstallId, app: AppId): set<nat> {
    set id | id in o.rows && o.rows[id].install == install && o.rows[id].app == app && o.rows[id].kind == Fcm
  }

  function ConnectorRows(o: Outbox, install: InstallId, tokens: set<ConnectorToken>): set<nat> {
    set id | id in o.rows && o.rows[id].install == install
             && o.rows[id].connector.Some? && o.rows[id].connector.value in tokens
  }

  function AppConnectorRows(o: Outbox, install: InstallId, app: AppId, token: ConnectorToken): set<nat> {
    set id | id in ConnectorRows(o, install, {token}) && o.rows[id].app == app
  }

  ghost predicate IsLeast(m: nat, s: set<nat>) {
    m in s && forall x :: x in s ==> m <= x
  }

  lemma LeastExists(s: set<nat>)
    requires s != {}
    ensures exists m :: IsLeast(m, s)
    decreases |s|
  {
    var x :| x in s;
    var rest := s - {x};
    if rest == {} {
      assert s == {x};
      assert IsLeast(x, s);
    } else {
      LeastExists(rest);
      var m :| IsLeast(m, rest);
      var least := if x < m then x else m;
      forall y | y in s ensures least <= y {
        assert y == x || y in rest;
      }
      assert IsLeast(least, s);
    }
  }

  /** The lowest id after the cursor that waits for the install's socket. */
  ghost function NextSocketMessage(o: Outbox, install: InstallId, cursor: int): (next: Option<nat>)
    ensures next.None? <==> SocketAfter(o, install, cursor) == {}
    ensures next.Some? ==> IsLeast(next.value, SocketAfter(o, install, cursor))
  {
    var waiting := SocketAfter(o, install, cursor);
    if waiting == {} then None
    else
      LeastExists(waiting);
      var m :| IsLeast(m, waiting);
      Some(m)
  }

  ghost predicate IsGreatest(m: nat, s: set<nat>) {
    m in s && forall x :: x in s ==> x <= m
  }

  lemma GreatestExists(s: set<nat>)
    requires s != {}
    ensures exists m :: IsGreatest(m, s)
    decreases |s|
  {
    var x :| x in s;
    var rest := s - {x};
    if rest == {} {
      assert s == {x};
      assert IsGreatest(x, s);
    } else {
      GreatestExists(rest);
      var m :| IsGreatest(m, rest);
      var most := if x > m then x else m;
      forall y | y in s ensures y <= most {
        assert y == x || y in rest;
      }
      assert IsGreatest(most, s);
    }
  }

  ghost function Greatest(s: set<nat>): (m: nat)
    requires s != {}
    ensures IsGreatest(m, s)
  {
    GreatestExists(s);
    var m :| IsGreatest(m, s);
    m
  }

  /** COALESCE(MAX(id), 0) */
  ghost function MaxId(o: Outbox): (m: nat)
    ensures o.rows.Keys == {} ==> m == 0
    ensures o.rows.Keys != {} ==> m in o.rows
    ensures forall id :: id in o.rows ==> id <= m
  {
    if o.rows.Keys == {} then 0 else Greatest(o.rows.Keys)
  }

  // ----- acknowledged persistent ids -----

  predicate Owns(ack: Ack, install: InstallId, app: AppId) {
    ack.install == install && ack.app == app
  }

  /** The pair's acknowledged ids, oldest first. */
  function AckedFor(acked: seq<Ack>, install: InstallId, app: AppId): (pids: seq<PersistentId>)
    ensures forall p :: p in pids <==> Ack(install, app, p) in acked
  {
    if acked == [] then []
    else if Owns(acked[0], install, app) then [acked[0].pid] + AckedFor(acked[1..], install, app)
    else AckedFor(acked[1..], install, app)
  }

  /** Drops the pair's oldest entries until at most `limit` are left. */
  function KeepNewest(acked: seq<Ack>, install: InstallId, app: AppId, limit: nat): seq<Ack> {
    if acked == [] then []
    else if Owns(acked[0], install, app) && |AckedFor(acked, install, app)| > limit
    then KeepNewest(acked[1..], install, app, limit)
    else [acked[0]] + KeepNewest(acked[1..], install, app, limit)
  }

  function Forget(acked: seq<Ack>, install: InstallId, app: AppId): seq<Ack> {
    if acked == [] then []
    else (if Owns(acked[0], install, app) then [] else [acked[0]]) + Forget(acked[1..], install, app)
  }

  function Remember(acked: seq<Ack>, install: InstallId, app: AppId, pid: PersistentId): seq<Ack> {
    if Ack(install, app, pid) in acked then acked else acked + [Ack(install, app, pid)]
  }

  function LastOf<T>(s: seq<T>, limit: nat): seq<T> {
    if |s| > limit then s[|s| - limit..] else s
  }

  lemma {:induction false} AckedForAppend(acked: seq<Ack>, ack: Ack, install: InstallId, app: AppId)
    ensures AckedFor(acked + [ack], install, app)
         == AckedFor(acked, install, app) + if Owns(ack, install, app) then [ack.pid] else []
  {
    if acked == [] {
      assert acked + [ack] == [ack];
    } else {
      assert (acked + [ack])[1..] == acked[1..] + [ack];
      AckedForAppend(acked[1..], ack, install, app);
    }
  }

  lemma {:induction false} KeepNewestKeepsLast(acked: seq<Ack>, install: InstallId, app: AppId, limit: nat)
    ensures AckedFor(KeepNewest(acked, install, app, limit), install, app)
         == LastOf(AckedFor(acked, install, app), limit)
  {
    if acked != [] {
      var kept := KeepNewest(acked[1..], install, app, limit);
      KeepNewestKeepsLast(acked[1..], install, app, limit);
      assert ([acked[0]] + kept)[1..] == kept;
    }
  }

  lemma {:induction false} KeepNewestSparesOthers(
      acked: seq<Ack>, install: InstallId, app: AppId, limit: nat, other: InstallId, otherApp: AppId)
    requires (other, otherApp) != (install, app)
    ensures AckedFor(KeepNewest(acked, install, app, limit), other, otherApp) == AckedFor(acked, other, otherApp)
  {
    if acked != [] {
      var kept := KeepNewest(acked[1..], install, app, limit);
      KeepNewestSparesOthers(acked[1..], install, app, limit, other, otherApp);
      assert ([acked[0]] + kept)[1..] == kept;
    }
  }

  lemma {:induction false} ForgetIsExact(
      acked: seq<Ack>, install: InstallId, app: AppId, other: InstallId, otherApp: AppId)
    ensures AckedFor(Forget(acked, install, app), other, otherApp)
         == if (other, otherApp) == (install, app) then [] else AckedFor(acked, other, otherApp)
  {
    if acked != [] {
      var kept := Forget(acked[1..], install, app);
      ForgetIsExact(acked[1..], install, app, other, otherApp);
      assert ([acked[0]] + kept)[1..] == kept;
      assert [] + kept == kept;
    }
  }

  // ----- statements over several tables -----

  datatype Enqueued = Enqueued(db: Db, id: Option<nat>)

  /** The live rows the partial unique index would clash with. */
  function Duplicates(o: Outbox, install: InstallId, app: AppId, pid: Option<PersistentId>): set<nat> {
    set id | id in o.rows && pid.Some? && o.rows[id].install == install
             && o.rows[id].app == app && o.rows[id].pid == pid
  }

  predicate SamePersistentId(a: Row, b: Row) {
    a.pid.Some? && a.pid == b.pid && a.install == b.install && a.app == b.app
  }

  /** What the partial unique index enforces. */
  ghost predicate PersistentIdsUnique(o: Outbox) {
    forall x, y :: x in o.rows && y in o.rows && SamePersistentId(o.rows[x], o.rows[y]) ==> x == y
  }

  function EnqueueUnifiedPush(
      db: Db, install: InstallId, app: AppId, token: ConnectorToken, payload: seq<Byte>): Enqueued
  {
    var row := Row(install, app, Distributor, WebSocket, Some(token), None, payload);
    var outbox := Insert(db.outbox, row);
    Enqueued(db.(outbox := outbox), Some(outbox.lastId))
  }

  function AckedAfter(acked: seq<Ack>, install: InstallId, app: AppId, pid: Option<PersistentId>): seq<Ack> {
    if pid.None? then acked
    else KeepNewest(Remember(acked, install, app, pid.value), install, app, MAX_ACK_HISTORY)
  }

  predicate AlreadyAcked(db: Db, install: InstallId, app: AppId, pid: Option<PersistentId>) {
    pid.Some? && Ack(install, app, pid.value) in db.acked
  }

  predicate CreatesRow(
      db: Db, install: InstallId, app: AppId, pid: Option<PersistentId>, payload: seq<Byte>)
  {
    !AlreadyAcked(db, install, app, pid) && payload != [] && Duplicates(db.outbox, install, app, pid) == {}
  }

  /** The ingest transaction: deduplicate, insert, then remember the id and trim the history. */
  ghost function EnqueueFcm(
      db: Db, install: InstallId, app: AppId, transport: Transport,
      pid: Option<PersistentId>, payload: seq<Byte>): Enqueued
  {
    var acked := AckedAfter(db.acked, install, app, pid);
    if CreatesRow(db, install, app, pid, payload) then
      var outbox := Insert(db.outbox, Row(install, app, Fcm, transport, None, pid, payload));
      Enqueued(db.(outbox := outbox, acked := acked), Some(outbox.lastId))
    else if AlreadyAcked(db, install, app, pid) || payload == [] then
      Enqueued(db.(acked := acked), None)
    else
      // INSERT OR IGNORE kept the row already there, and the query finds its id.
      Enqueued(db.(acked := acked), Some(Greatest(Duplicates(db.outbox, install, app, pid))))
  }

  function DeleteRegistration(db: Db, install: InstallId, app: AppId): Db {
    db.(outbox := Delete(db.outbox, FcmRows(db.outbox, install, app)), acked := Forget(db.acked, install, app))
  }

  predicate OwnsConnector(cs: Connectors, install: InstallId, app: AppId, token: ConnectorToken) {
    (install, token) in cs && cs[(install, token)].app == app
  }

  function UnregisterConnector(db: Db, install: InstallId, app: AppId, token: ConnectorToken): Db {
    if OwnsConnector(db.connectors, install, app, token) then
      db.(connectors := db.connectors - {(install, token)},
          outbox := Delete(db.outbox, AppConnectorRows(db.outbox, install, app, token)))
    else db
  }

  function StoredTokens(cs: Connectors, install: InstallId): set<ConnectorToken> {
    set key | key in cs && key.0 == install :: key.1
  }

  function ConnectorKeys(install: InstallId, tokens: set<ConnectorToken>): set<(InstallId, ConnectorToken)> {
    set token | token in tokens :: (install, token)
  }

  function DeleteStale(db: Db, install: InstallId, retained: set<ConnectorToken>): Db {
    var stale := StoredTokens(db.connectors, install) - retained;
    db.(connectors := db.connectors - ConnectorKeys(install, stale),
        outbox := Delete(db.outbox, ConnectorRows(db.outbox, install, stale)))
  }

  datatype Registered = Registered(db: Db, endpoint: Option<EndpointToken>) | EndpointTaken

  function RegisterConnector(
      db: Db, install: InstallId, app: AppId, token: ConnectorToken,
      candidate: EndpointToken, vapid: Option<string>): Registered
  {
    var key := (install, token);
    if key in db.connectors then
      var existing := db.connectors[key];
      if existing.app == app then
        Registered(db.(connectors := db.connectors[key := existing.(vapid := vapid)]), Some(existing.endpoint))
      else Registered(db, None)
    else if exists other :: other in db.connectors && db.connectors[other].endpoint == candidate then
      EndpointTaken // the UNIQUE constraint fails the insert
    else
      Registered(db.(connectors := db.connectors[key := Connector(app, candidate, vapid)]), Some(candidate))
  }

  // ----- what the statements promise, read off the tables -----

  /** A live row carries this persistent id of the pair. */
  predicate Waits(o: Outbox, install: InstallId, app: AppId, pid: PersistentId, id: nat) {
    id in o.rows && o.rows[id].install == install && o.rows[id].app == app && o.rows[id].pid == Some(pid)
  }

  /** An ingest returns an id exactly for a message with a payload whose persistent id the history does
      not hold: that of the row it adds, or of the newest live row with the same persistent id. */
  lemma IngestIdIsExact(
      db: Db, install: InstallId, app: AppId, transport: Transport, pid: Option<PersistentId>, payload: seq<Byte>)
    ensures var e := EnqueueFcm(db, install, app, transport, pid, payload);
            var known := pid.Some? && pid.value in AckedFor(db.acked, install, app);
            var waits := exists id: nat :: pid.Some? && Waits(db.outbox, install, app, pid.value, id);
            && e.db.connectors == db.connectors
            && (e.id.Some? <==> payload != [] && !known)
            && (e.id.Some? && !waits ==>
                  && e.id.value == e.db.outbox.lastId > db.outbox.lastId
                  && e.db.outbox.rows.Keys == db.outbox.rows.Keys + {e.id.value}
                  && e.db.outbox.rows[e.id.value] == Row(install, app, Fcm, transport, None, pid, payload)
                  && forall id :: id in db.outbox.rows && id != e.id.value ==>
                       e.db.outbox.rows[id] == db.outbox.rows[id])
            && (e.id.Some? && waits ==>
                  && Waits(db.outbox, install, app, pid.value, e.id.value)
                  && forall other: nat :: Waits(db.outbox, install, app, pid.value, other) ==> other <= e.id.value)
            && (e.id.None? || waits ==> e.db.outbox == db.outbox)
  {
    var same := Duplicates(db.outbox, install, app, pid);
    forall id: nat ensures id in same <==> pid.Some? && Waits(db.outbox, install, app, pid.value, id) {
    }
  }

  /** Unregistering removes the connector exactly if the app owns it, with exactly its messages of that
      app, and touches no other connector and no other message. */
  lemma UnregisterIsExact(db: Db, install: InstallId, app: AppId, token: ConnectorToken)
    ensures var after, key := UnregisterConnector(db, install, app, token), (install, token);
            var owned := key in db.connectors && db.connectors[key].app == app;
            && (key !in after.connectors <==> owned || key !in db.connectors)
            && (forall other :: other in after.connectors <==> other in db.connectors && !(owned && other == key))
            && (forall other :: other in after.connectors ==> after.connectors[other] == db.connectors[other])
            && (forall id :: id in after.outbox.rows <==>
                  id in db.outbox.rows
                  && !(owned && db.outbox.rows[id].install == install && db.outbox.rows[id].app == app
                       && db.outbox.rows[id].connector == Some(token)))
            && (forall id :: id in after.outbox.rows ==> after.outbox.rows[id] == db.outbox.rows[id])
            && after.outbox.lastId == db.outbox.lastId && after.acked == db.acked
  {
  }
}
