/** The inductive invariant of the delivery protocol. */
module DeliveryInvariant {
  import opened Types
  import opened Tables
  import opened DeliveryProtocol

  // ----- the invariant -----

  /** No row waiting for the install's socket has an id up to `bound`. */
  ghost predicate LowWater(o: Outbox, install: InstallId, bound: int) {
    bound <= o.lastId && forall id :: id in o.rows && ForSocket(o.rows[id], install) ==> id > bound
  }

  function Position(a: Attachment): int {
    match a.state
    case Ready(cursor) => cursor
    case AwaitingAck(id) => id
  }

  ghost predicate AttachmentOk(o: Outbox, past: History, install: InstallId, a: Attachment) {
    && (a.state.Ready? ==> LowWater(o, install, a.state.cursor))
    && (a.state.AwaitingAck? ==> Frame(install, a.state.id) in past.log)
    && (a.resumed.Some? ==> LowWater(o, install, a.resumed.value))
    && (forall x :: x in a.sent ==> x <= Position(a) && (a.resumed.Some? ==> x > a.resumed.value))
    && (forall x :: x in a.sent ==> Frame(install, x) in past.log)
    && (forall p, q :: 0 <= p < q < |a.sent| ==> a.sent[p] < a.sent[q])
  }

  ghost predicate PcOk(o: Outbox, past: History, pc: Pc) {
    match pc
    case Scan(_, frames) => forall f :: f in frames ==> f in past.log
    case Clamping(install, presented, honest) => honest ==> HasReceived(past, install, presented)
    case Applying(install, presented, honest, cursor) =>
      && cursor <= o.lastId
      && (cursor <= presented || cursor == 0)
      && (honest ==>
            && HasReceived(past, install, presented)
            && presented <= o.lastId
            && forall id :: id in o.rows && ForSocket(o.rows[id], install) && id <= presented ==> id <= cursor)
    case Joining(install, presented, honest, cursor) =>
      && LowWater(o, install, cursor)
      && (honest ==> LowWater(o, install, presented))
    case _ => true
  }

  ghost predicate ConnOk(o: Outbox, past: History, c: Conn) {
    && PcOk(o, past, c.pc)
    && (forall i :: i in c.attachments ==> AttachmentOk(o, past, i, c.attachments[i]))
  }

  ghost predicate ConnsOk(s: State) {
    forall k :: k in s.conns ==> k < s.nextConn && ConnOk(s.db.outbox, s.past, s.conns[k])
  }

  /** Every id ever read is issued, and nothing older than it waits for that install any more. */
  ghost predicate LogOk(o: Outbox, past: History) {
    && (forall f :: f in past.log ==> f.id <= o.lastId && LowWater(o, f.install, f.id - 1))
    && (forall p, q :: 0 <= p < q < |past.log| && past.log[p].install == past.log[q].install
          ==> past.log[p].id <= past.log[q].id)
    && (forall f :: f in past.received ==> f in past.log)
  }

  /** The owner of an install has it attached; any other connection that has it will be told. */
  ghost predicate HubOk(s: State) {
    && (forall i :: i in s.hub ==> s.hub[i] in s.conns && i in s.conns[s.hub[i]].attachments)
    && (forall k, i :: k in s.conns && i in s.conns[k].attachments
          ==> (i in s.hub && s.hub[i] == k) || Replaced(i) in s.conns[k].events)
  }

  /** The connection will not look at the install again unless an event makes it. */
  predicate Settled(pc: Pc, install: InstallId) {
    pc.Parked? || (pc.Scan? && install !in pc.todo)
  }

  predicate Roused(s: State, c: Conn, install: InstallId) {
    install in s.inflight || Wake in c.events || Replaced(install) in c.events
  }

  ghost predicate Unread(o: Outbox, install: InstallId, a: Attachment) {
    a.state.Ready? && SocketAfter(o, install, a.state.cursor) != {}
  }

  ghost predicate Covered(s: State, c: Conn, install: InstallId)
    requires install in c.attachments
  {
    Settled(c.pc, install) && Unread(s.db.outbox, install, c.attachments[install]) ==> Roused(s, c, install)
  }

  ghost predicate WakeOk(s: State) {
    forall k, i :: k in s.conns && i in s.conns[k].attachments ==> Covered(s, s.conns[k], i)
  }

  /** Each removed row was one its cause is allowed to remove. */
  ghost predicate Justified(id: nat, row: Row, cause: Cause, past: History) {
    match cause
    case Acked(install, honest) =>
      && ForSocket(row, install)
      && Frame(row.install, id) in past.log
      && (honest ==> Frame(row.install, id) in past.received)
    case Resumed(install, presented, honest) =>
      && ForSocket(row, install)
      && (0 <= presented ==> id <= presented)
      && (honest ==> id == presented && Frame(row.install, id) in past.received)
    case Unregistered(install, app) => row.install == install && row.app == app && row.kind == Fcm
    case Disconnected(install, app, token) =>
      row.install == install && row.app == app && row.connector == Some(token)
    case Reconciled(install, retained) =>
      row.install == install && row.connector.Some? && row.connector.value !in retained
    case Forwarded => row.transport.UnifiedPush?
  }

  ghost predicate RowsAccounted(o: Outbox, past: History) {
    && past.inserted.Keys == o.rows.Keys + past.removed.Keys
    && o.rows.Keys !! past.removed.Keys
    && (forall id :: id in o.rows ==> past.inserted[id] == o.rows[id])
    && (forall id :: id in past.inserted ==> 0 < id <= o.lastId)
    && (forall id :: id in past.removed ==> Justified(id, past.inserted[id], past.removed[id], past))
  }

  ghost predicate HeldOk(s: State) {
    forall id :: id in s.held ==>
      id <= s.db.outbox.lastId && (id in s.db.outbox.rows ==> s.db.outbox.rows[id].transport.UnifiedPush?)
  }

  ghost predicate Inv(s: State) {
    && ConnsOk(s) && LogOk(s.db.outbox, s.past) && HubOk(s) && WakeOk(s)
    && RowsAccounted(s.db.outbox, s.past) && HeldOk(s)
  }

  // ----- what outbox changes and growing histories keep -----

  ghost predicate Grows(before: History, after: History) {
    && (forall f :: f in before.log ==> f in after.log)
    && before.received <= after.received
  }

  lemma ConnOkKept(o: Outbox, o': Outbox, past: History, past': History, c: Conn)
    requires ConnOk(o, past, c) && Evolves(o, o') && Grows(past, past')
    ensures ConnOk(o', past', c)
  {
    forall i | i in c.attachments ensures AttachmentOk(o', past', i, c.attachments[i]) {
      assert AttachmentOk(o, past, i, c.attachments[i]);
    }
  }

  lemma LogOkKept(o: Outbox, o': Outbox, past: History, past': History)
    requires LogOk(o, past) && Evolves(o, o') && past'.log == past.log && past'.received == past.received
    ensures LogOk(o', past')
  {
    forall f | f in past'.log ensures f.id <= o'.lastId && LowWater(o', f.install, f.id - 1) {
      assert LowWater(o, f.install, f.id - 1);
    }
  }

  // ----- steps that only touch the tables -----

  /** `t` is `s` after an outbox change for the given reason, made outside the connections. */
  ghost predicate Replaces(s: State, t: State, cause: Cause) {
    && Evolves(s.db.outbox, t.db.outbox)
    && t.past == Record(s.past, s.db.outbox, t.db.outbox, cause)
    && (forall id :: id in s.db.outbox.rows && id !in t.db.outbox.rows ==>
          Justified(id, s.db.outbox.rows[id], cause, s.past))
  }

  /** Every new socket row still has its enqueuer's wake to come. */
  ghost predicate Announced(before: Outbox, after: Outbox, inflight: multiset<InstallId>) {
    forall id :: id in after.rows && id !in before.rows ==>
      (after.rows[id].transport.WebSocket? ==> after.rows[id].install in inflight)
  }

  lemma RecordedRows(s: State, t: State, cause: Cause)
    requires RowsAccounted(s.db.outbox, s.past) && Replaces(s, t, cause)
    ensures t.past.inserted.Keys == t.db.outbox.rows.Keys + t.past.removed.Keys
    ensures t.db.outbox.rows.Keys !! t.past.removed.Keys
    ensures forall id :: id in t.db.outbox.rows ==> t.past.inserted[id] == t.db.outbox.rows[id]
    ensures forall id :: id in t.past.inserted ==> 0 < id <= t.db.outbox.lastId
  {
    hide Justified;
  }

  lemma RemovalJustified(s: State, t: State, cause: Cause, id: nat)
    requires RowsAccounted(s.db.outbox, s.past) && Replaces(s, t, cause)
    requires id in t.past.removed && id in t.past.inserted
    ensures Justified(id, t.past.inserted[id], t.past.removed[id], t.past)
  {
    if id in s.past.removed {
      assert Justified(id, s.past.inserted[id], s.past.removed[id], s.past);
    }
  }

  lemma RowsAccountedKept(s: State, t: State, cause: Cause)
    requires RowsAccounted(s.db.outbox, s.past) && Replaces(s, t, cause)
    ensures RowsAccounted(t.db.outbox, t.past)
  {
    hide Replaces, Justified;
    RecordedRows(s, t, cause);
    forall id | id in t.past.removed ensures Justified(id, t.past.inserted[id], t.past.removed[id], t.past) {
      RemovalJustified(s, t, cause, id);
    }
  }

  lemma ConnsOkKept(s: State, t: State)
    requires ConnsOk(s) && Evolves(s.db.outbox, t.db.outbox) && Grows(s.past, t.past)
    requires t.conns == s.conns && t.nextConn >= s.nextConn
    ensures ConnsOk(t)
  {
    forall k | k in t.conns ensures ConnOk(t.db.outbox, t.past, t.conns[k]) {
      ConnOkKept(s.db.outbox, t.db.outbox, s.past, t.past, s.conns[k]);
    }
  }

  lemma WakeOkKept(s: State, t: State)
    requires WakeOk(s) && IdsIssued(s.db.outbox) && Evolves(s.db.outbox, t.db.outbox)
    requires t.conns == s.conns && s.inflight <= t.inflight
    requires Announced(s.db.outbox, t.db.outbox, t.inflight)
    ensures WakeOk(t)
  {
    forall k, i | k in t.conns && i in t.conns[k].attachments ensures Covered(t, t.conns[k], i) {
      assert Covered(s, s.conns[k], i);
      var a := t.conns[k].attachments[i];
      if Unread(t.db.outbox, i, a) && i !in t.inflight {
        var id :| id in SocketAfter(t.db.outbox, i, a.state.cursor);
        assert id in s.db.outbox.rows;
        assert id in SocketAfter(s.db.outbox, i, a.state.cursor);
      }
    }
  }

  lemma TablesKeepInv(s: State, t: State, cause: Cause)
    requires Inv(s) && Replaces(s, t, cause)
    requires t.conns == s.conns && t.hub == s.hub && t.nextConn == s.nextConn && t.held == s.held
    requires s.inflight <= t.inflight
    requires Announced(s.db.outbox, t.db.outbox, t.inflight)
    ensures Inv(t)
  {
    ConnsOkKept(s, t);
    LogOkKept(s.db.outbox, t.db.outbox, s.past, t.past);
    RowsAccountedKept(s, t, cause);
    WakeOkKept(s, t);
  }

  lemma InsertKeepsInv(s: State, t: State, row: Row)
    requires Inv(s) && t.conns == s.conns && t.hub == s.hub && t.nextConn == s.nextConn && t.held == s.held
    requires s.inflight <= t.inflight && (row.transport.WebSocket? ==> row.install in t.inflight)
    requires t.db.outbox == Insert(s.db.outbox, row)
    requires t.past == Record(s.past, s.db.outbox, t.db.outbox, Forwarded)
    ensures Inv(t)
  {
    TablesKeepInv(s, t, Forwarded);
  }

  lemma DeleteKeepsInv(s: State, t: State, ids: set<nat>, cause: Cause)
    requires Inv(s) && t.conns == s.conns && t.hub == s.hub && t.nextConn == s.nextConn && t.held == s.held
    requires t.inflight == s.inflight && t.db.outbox == Delete(s.db.outbox, ids)
    requires t.past == Record(s.past, s.db.outbox, t.db.outbox, cause)
    requires forall id :: id in ids && id in s.db.outbox.rows ==> Justified(id, s.db.outbox.rows[id], cause, s.past)
    ensures Inv(t)
  {
    TablesKeepInv(s, t, cause);
  }

  lemma UnchangedOutboxRecordsNothing(past: History, o: Outbox, cause: Cause)
    ensures Record(past, o, o, cause) == past
  {
    assert Added(o, o) == map[];
    assert past.removed + (map id | id in o.rows && id !in o.rows :: cause) == past.removed;
  }

  lemma SameOutboxKeepsInv(s: State, t: State)
    requires Inv(s) && t.conns == s.conns && t.hub == s.hub && t.nextConn == s.nextConn && t.past == s.past
    requires t.db.outbox == s.db.outbox && s.inflight <= t.inflight
    requires HeldOk(t)
    ensures Inv(t)
  {
    ConnsOkKept(s, t);
    WakeOkKept(s, t);
  }

  lemma FcmArrivesKeepsInv(
      s: State, install: InstallId, app: AppId, transport: Transport,
      pid: Option<PersistentId>, payload: seq<Byte>, t: State)
    requires Inv(s) && Outcome(s, FcmArrives(install, app, transport, pid, payload)) == Some(t)
    ensures Inv(t)
  {
    if CreatesRow(s.db, install, app, pid, payload) {
      InsertKeepsInv(s, t, Row(install, app, Fcm, transport, None, pid, payload));
    } else {
      UnchangedOutboxRecordsNothing(s.past, s.db.outbox, Forwarded);
      SameOutboxKeepsInv(s, t);
    }
  }

  lemma PushArrivesKeepsInv(
      s: State, install: InstallId, app: AppId, token: ConnectorToken, payload: seq<Byte>, t: State)
    requires Inv(s) && Outcome(s, PushArrives(install, app, token, payload)) == Some(t)
    ensures Inv(t)
  {
    InsertKeepsInv(s, t, Row(install, app, Distributor, WebSocket, Some(token), None, payload));
  }

  lemma DisconnectKeepsInv(s: State, install: InstallId, app: AppId, token: ConnectorToken, t: State)
    requires Inv(s) && Outcome(s, Disconnect(install, app, token)) == Some(t)
    ensures Inv(t)
  {
    hide ConnsOk, LogOk, HubOk, WakeOk, RowsAccounted, HeldOk;
    if OwnsConnector(s.db.connectors, install, app, token) {
      DeleteKeepsInv(s, t, AppConnectorRows(s.db.outbox, install, app, token), Disconnected(install, app, token));
    } else {
      UnchangedOutboxRecordsNothing(s.past, s.db.outbox, Disconnected(install, app, token));
      SameOutboxKeepsInv(s, t);
    }
  }

  lemma ReconcileKeepsInv(s: State, install: InstallId, retained: set<ConnectorToken>, t: State)
    requires Inv(s) && Outcome(s, Reconcile(install, retained)) == Some(t)
    ensures Inv(t)
  {
    hide ConnsOk, LogOk, HubOk, WakeOk, RowsAccounted, HeldOk;
    var stale := StoredTokens(s.db.connectors, install) - retained;
    DeleteKeepsInv(s, t, ConnectorRows(s.db.outbox, install, stale), Reconciled(install, retained));
  }

  lemma UnregisterKeepsInv(s: State, install: InstallId, app: AppId, t: State)
    requires Inv(s) && Outcome(s, Unregister(install, app)) == Some(t)
    ensures Inv(t)
  {
    DeleteKeepsInv(s, t, FcmRows(s.db.outbox, install, app), Unregistered(install, app));
  }

  lemma FinishForwardKeepsInv(s: State, id: nat, t: State)
    requires Inv(s) && Outcome(s, FinishForward(id)) == Some(t)
    ensures Inv(t)
  {
    hide ConnsOk, LogOk, HubOk, WakeOk, RowsAccounted;
    DeleteKeepsInv(s, t, {id}, Forwarded);
  }

  lemma QuietOperationsKeepInv(s: State, op: Operation, t: State)
    requires Inv(s) && Outcome(s, op) == Some(t) && (op.Connect? || op.LoadDue?)
    ensures Inv(t)
  {
    hide ConnsOk, LogOk, HubOk, WakeOk;
    SameOutboxKeepsInv(s, t);
  }

  lemma OutsideKeepsInv(s: State, op: Operation, t: State)
    requires Inv(s) && Outcome(s, op) == Some(t)
    ensures Inv(t)
  {
    match op
    case FcmArrives(install, app, transport, pid, payload) =>
      FcmArrivesKeepsInv(s, install, app, transport, pid, payload, t);
    case PushArrives(install, app, token, payload) =>
      PushArrivesKeepsInv(s, install, app, token, payload, t);
    case Unregister(install, app) => UnregisterKeepsInv(s, install, app, t);
    case Disconnect(install, app, token) => DisconnectKeepsInv(s, install, app, token, t);
    case Reconcile(install, retained) => ReconcileKeepsInv(s, install, retained, t);
    case FinishForward(id) => FinishForwardKeepsInv(s, id, t);
    case _ => QuietOperationsKeepInv(s, op, t);
  }

  // ----- steps of one connection -----

  /** Apart from connection `k` (and the hub), `t` is `s`. */
  ghost predicate OnlyConn(s: State, t: State, k: nat, c: Conn) {
    && k in s.conns && t.conns == s.conns[k := c]
    && t.nextConn == s.nextConn && t.inflight == s.inflight && t.held == s.held
  }

  lemma ConnsOkStep(s: State, t: State, k: nat, c: Conn)
    requires ConnsOk(s) && OnlyConn(s, t, k, c)
    requires Evolves(s.db.outbox, t.db.outbox) && Grows(s.past, t.past)
    requires ConnOk(t.db.outbox, t.past, c)
    ensures ConnsOk(t)
  {
    forall j | j in t.conns ensures ConnOk(t.db.outbox, t.past, t.conns[j]) {
      if j != k {
        ConnOkKept(s.db.outbox, t.db.outbox, s.past, t.past, s.conns[j]);
      }
    }
  }

  lemma WakeOkStep(s: State, t: State, k: nat, c: Conn)
    requires WakeOk(s) && OnlyConn(s, t, k, c)
    requires t.db.outbox.rows.Keys <= s.db.outbox.rows.Keys
    requires forall id :: id in t.db.outbox.rows ==> t.db.outbox.rows[id] == s.db.outbox.rows[id]
    requires forall i :: i in c.attachments ==> Covered(t, c, i)
    ensures WakeOk(t)
  {
    forall j, i | j in t.conns && i in t.conns[j].attachments ensures Covered(t, t.conns[j], i) {
      if j != k {
        assert Covered(s, s.conns[j], i);
        var a := s.conns[j].attachments[i];
        if Unread(t.db.outbox, i, a) {
          var id :| id in SocketAfter(t.db.outbox, i, a.state.cursor);
          assert id in SocketAfter(s.db.outbox, i, a.state.cursor);
        }
      }
    }
  }

  lemma ReceivingKeepsAccounts(o: Outbox, past: History, past': History)
    requires RowsAccounted(o, past) && Grows(past, past')
    requires past'.inserted == past.inserted && past'.removed == past.removed
    ensures RowsAccounted(o, past')
  {
    forall id | id in past'.removed ensures Justified(id, past'.inserted[id], past'.removed[id], past') {
      assert Justified(id, past.inserted[id], past.removed[id], past);
    }
  }

  /** A step that only moves the connection's program counter, and may hand a frame to the client. */
  lemma MoveKeepsInv(s: State, t: State, k: nat, pc: Pc)
    requires Inv(s) && k in s.conns && OnlyConn(s, t, k, s.conns[k].(pc := pc))
    requires t.db == s.db && t.hub == s.hub
    requires Grows(s.past, t.past) && LogOk(t.db.outbox, t.past)
    requires t.past.inserted == s.past.inserted && t.past.removed == s.past.removed
    requires PcOk(t.db.outbox, t.past, pc)
    requires forall i :: i in s.conns[k].attachments && Settled(pc, i) ==> Settled(s.conns[k].pc, i)
    ensures Inv(t)
  {
    hide LowWater, AttachmentOk, LogOk, RowsAccounted, PcOk, Unread;
    var c := s.conns[k].(pc := pc);
    ConnOkKept(s.db.outbox, t.db.outbox, s.past, t.past, s.conns[k]);
    ConnsOkStep(s, t, k, c);
    ReceivingKeepsAccounts(s.db.outbox, s.past, t.past);
    forall i | i in c.attachments ensures Covered(t, c, i) {
      assert Covered(s, s.conns[k], i);
    }
    WakeOkStep(s, t, k, c);
  }

  lemma SendFrameKeepsInv(s: State, t: State, k: nat)
    requires Inv(s) && k in s.conns && Proceed(s, k, SendFrame) == Some(t)
    ensures Inv(t)
  {
    var frames := s.conns[k].pc.frames;
    assert frames[0] in s.past.log;
    MoveKeepsInv(s, t, k, Scan({}, frames[1..]));
  }

  lemma ReadMaximumKeepsInv(s: State, t: State, k: nat)
    requires Inv(s) && k in s.conns && Proceed(s, k, ReadMaximum) == Some(t)
    ensures Inv(t)
  {
    hide HubOk, WakeOk, HeldOk;
    MoveKeepsInv(s, t, k, t.conns[k].pc);
  }

  lemma QuietActionsKeepInv(s: State, t: State, k: nat, action: Action)
    requires Inv(s) && k in s.conns && Proceed(s, k, action) == Some(t)
    requires action.Park? || action.BeginAttach? || action.Fail? || action.Tick?
    ensures Inv(t)
  {
    hide ConnsOk, HubOk, WakeOk, RowsAccounted, HeldOk;
    MoveKeepsInv(s, t, k, t.conns[k].pc);
  }

  // ----- reading the outbox -----

  lemma VisitWithoutMessageKeepsInv(s: State, t: State, k: nat, i: InstallId)
    requires Inv(s) && k in s.conns && s.conns[k].pc.Scan?
    requires i in s.conns[k].attachments ==> !Unread(s.db.outbox, i, s.conns[k].attachments[i])
    requires t == SetPc(s, k, s.conns[k].pc.(todo := s.conns[k].pc.todo - {i}))
    ensures Inv(t)
  {
    hide LowWater, AttachmentOk, LogOk, RowsAccounted;
    var c := t.conns[k];
    ConnsOkStep(s, t, k, c);
    forall j | j in c.attachments ensures Covered(t, c, j) {
      assert Covered(s, s.conns[k], j);
    }
    WakeOkStep(s, t, k, c);
  }

  /** The row just read is the oldest one the install has waiting. */
  lemma ReadIsOldest(s: State, k: nat, i: InstallId, id: nat)
    requires Inv(s) && k in s.conns && i in s.conns[k].attachments
    requires s.conns[k].attachments[i].state.Ready?
    requires NextSocketMessage(s.db.outbox, i, s.conns[k].attachments[i].state.cursor) == Some(id)
    ensures id in s.db.outbox.rows && id <= s.db.outbox.lastId && LowWater(s.db.outbox, i, id - 1)
    ensures id > s.conns[k].attachments[i].state.cursor
    ensures forall f :: f in s.past.log && f.install == i ==> f.id <= id
  {
    var a := s.conns[k].attachments[i];
    assert AttachmentOk(s.db.outbox, s.past, i, a);
    assert IsLeast(id, SocketAfter(s.db.outbox, i, a.state.cursor));
    forall x | x in s.db.outbox.rows && ForSocket(s.db.outbox.rows[x], i) ensures x >= id {
      assert x in SocketAfter(s.db.outbox, i, a.state.cursor);
    }
    forall f | f in s.past.log && f.install == i ensures f.id <= id {
      assert LowWater(s.db.outbox, f.install, f.id - 1);
    }
  }

  ghost predicate Reads(s: State, t: State, k: nat, i: InstallId, id: nat) {
    && k in s.conns && s.conns[k].pc.Scan? && i in s.conns[k].attachments
    && s.conns[k].attachments[i].state.Ready?
    && NextSocketMessage(s.db.outbox, i, s.conns[k].attachments[i].state.cursor) == Some(id)
    && t == VisitInstall(s, k, i)
  }

  /** What reading a row does to the attachment and the log. */
  lemma ReadShape(s: State, t: State, k: nat, i: InstallId, id: nat)
    requires Reads(s, t, k, i, id)
    ensures var a := s.conns[k].attachments[i];
            && t.db == s.db && t.past == s.past.(log := s.past.log + [Frame(i, id)])
            && t.conns.Keys == s.conns.Keys && i in t.conns[k].attachments
            && t.conns[k].attachments[i] == a.(state := AwaitingAck(id), sent := a.sent + [id])
  {
    hide NextSocketMessage;
  }

  lemma ReadKeepsAttachment(s: State, t: State, k: nat, i: InstallId, id: nat)
    requires Inv(s) && Reads(s, t, k, i, id)
    ensures i in t.conns[k].attachments && AttachmentOk(t.db.outbox, t.past, i, t.conns[k].attachments[i])
  {
    ReadShape(s, t, k, i, id);
    ReadIsOldest(s, k, i, id);
    ResumedBelow(s, t, k, i, id);
    ReadAttachmentWasOk(s, t, k, i, id);
    AttachmentAfterRead(s.db.outbox, s.past, i, s.conns[k].attachments[i], id);
  }

  lemma ReadAttachmentWasOk(s: State, t: State, k: nat, i: InstallId, id: nat)
    requires Inv(s) && Reads(s, t, k, i, id)
    ensures AttachmentOk(s.db.outbox, s.past, i, s.conns[k].attachments[i])
  {
    hide AttachmentOk;
    assert ConnOk(s.db.outbox, s.past, s.conns[k]);
  }

  lemma AttachmentAfterRead(o: Outbox, past: History, i: InstallId, a: Attachment, id: nat)
    requires AttachmentOk(o, past, i, a) && a.state.Ready? && id > a.state.cursor
    requires a.resumed.Some? ==> id > a.resumed.value
    ensures AttachmentOk(o, past.(log := past.log + [Frame(i, id)]), i,
                         a.(state := AwaitingAck(id), sent := a.sent + [id]))
  {
    hide LowWater;
    forall p | 0 <= p < |a.sent| ensures a.sent[p] < id {
      assert a.sent[p] in a.sent;
    }
  }

  lemma ResumedBelow(s: State, t: State, k: nat, i: InstallId, id: nat)
    requires Inv(s) && Reads(s, t, k, i, id)
    ensures s.conns[k].attachments[i].resumed.Some? ==> id > s.conns[k].attachments[i].resumed.value
  {
    ReadIsOldest(s, k, i, id);
    assert ConnOk(s.db.outbox, s.past, s.conns[k]);
    assert AttachmentOk(s.db.outbox, s.past, i, s.conns[k].attachments[i]);
    hide Reads;
  }

  lemma ReadKeepsConns(s: State, t: State, k: nat, i: InstallId, id: nat)
    requires Inv(s) && Reads(s, t, k, i, id)
    ensures ConnsOk(t) && Grows(s.past, t.past)
  {
    ReadKeepsAttachment(s, t, k, i, id);
    assert t.past.log == s.past.log + [Frame(i, id)];
    ConnOkKept(s.db.outbox, t.db.outbox, s.past, t.past, s.conns[k]);
    ConnsOkStep(s, t, k, t.conns[k]);
  }

  lemma ReadKeepsLog(s: State, t: State, k: nat, i: InstallId, id: nat)
    requires Inv(s) && Reads(s, t, k, i, id)
    ensures LogOk(t.db.outbox, t.past)
  {
    ReadIsOldest(s, k, i, id);
    assert t.past.log == s.past.log + [Frame(i, id)];
    forall p | 0 <= p < |s.past.log| && s.past.log[p].install == i ensures s.past.log[p].id <= id {
      assert s.past.log[p] in s.past.log;
    }
  }

  lemma ReadKeepsHub(s: State, t: State, k: nat, i: InstallId, id: nat)
    requires HubOk(s) && HeldOk(s) && Reads(s, t, k, i, id)
    ensures HubOk(t) && HeldOk(t)
  {
    hide NextSocketMessage;
    forall j, x | j in t.conns && x in t.conns[j].attachments
      ensures (x in t.hub && t.hub[x] == j) || Replaced(x) in t.conns[j].events
    {
      assert x in s.conns[j].attachments;
    }
  }

  lemma ReadKeepsWake(s: State, t: State, k: nat, i: InstallId, id: nat)
    requires WakeOk(s) && Reads(s, t, k, i, id)
    ensures WakeOk(t)
  {
    hide NextSocketMessage, SocketAfter;
    forall j | j in t.conns[k].attachments ensures Covered(t, t.conns[k], j) {
      assert Covered(s, s.conns[k], j);
    }
    WakeOkStep(s, t, k, t.conns[k]);
  }

  lemma VisitWithMessageKeepsInv(s: State, t: State, k: nat, i: InstallId, id: nat)
    requires Inv(s) && Reads(s, t, k, i, id)
    ensures Inv(t)
  {
    hide ConnsOk, LogOk, HubOk, WakeOk, RowsAccounted, HeldOk;
    ReadKeepsConns(s, t, k, i, id);
    ReadKeepsLog(s, t, k, i, id);
    ReadKeepsHub(s, t, k, i, id);
    ReadKeepsWake(s, t, k, i, id);
    ReceivingKeepsAccounts(s.db.outbox, s.past, t.past);
  }

  lemma VisitKeepsInv(s: State, t: State, k: nat, i: InstallId)
    requires Inv(s) && k in s.conns && Proceed(s, k, Visit(i)) == Some(t)
    ensures Inv(t)
  {
    var c := s.conns[k];
    if i in c.attachments && Unread(s.db.outbox, i, c.attachments[i]) {
      var next := NextSocketMessage(s.db.outbox, i, c.attachments[i].state.cursor);
      VisitWithMessageKeepsInv(s, t, k, i, next.value);
    } else {
      VisitWithoutMessageKeepsInv(s, t, k, i);
    }
  }

  // ----- applying a resume cursor -----

  /** A resume with an id the client has received can only remove that one row. */
  lemma HonestResumeRemovesOne(s: State, k: nat, id: nat)
    requires Inv(s) && k in s.conns && s.conns[k].pc.Applying? && s.conns[k].pc.honest
    requires id in SocketUpTo(s.db.outbox, s.conns[k].pc.install, s.conns[k].pc.cursor)
    ensures id == s.conns[k].pc.presented && Frame(s.conns[k].pc.install, id) in s.past.received
  {
    var Applying(i, presented, honest, cursor) := s.conns[k].pc;
    assert ConnOk(s.db.outbox, s.past, s.conns[k]);
    if 0 < presented {
      assert Frame(i, presented) in s.past.log;
      assert LowWater(s.db.outbox, i, presented - 1);
    }
  }

  lemma ResumeJustified(s: State, k: nat, id: nat)
    requires Inv(s) && k in s.conns && s.conns[k].pc.Applying?
    requires id in SocketUpTo(s.db.outbox, s.conns[k].pc.install, s.conns[k].pc.cursor)
    ensures var pc := s.conns[k].pc;
            Justified(id, s.db.outbox.rows[id], Resumed(pc.install, pc.presented, pc.honest), s.past)
  {
    assert ConnOk(s.db.outbox, s.past, s.conns[k]);
    if s.conns[k].pc.honest {
      HonestResumeRemovesOne(s, k, id);
    }
  }

  lemma ApplyCursorKeepsConns(s: State, t: State, k: nat)
    requires ConnsOk(s) && WakeOk(s) && k in s.conns && Proceed(s, k, ApplyCursor) == Some(t)
    ensures ConnsOk(t) && WakeOk(t)
  {
    hide AttachmentOk, Unread;
    ConnOkKept(s.db.outbox, t.db.outbox, s.past, t.past, s.conns[k]);
    assert PcOk(s.db.outbox, s.past, s.conns[k].pc);
    ConnsOkStep(s, t, k, t.conns[k]);
    WakeOkStep(s, t, k, t.conns[k]);
  }

  lemma ApplyCursorShape(s: State, t: State, k: nat)
    requires k in s.conns && Proceed(s, k, ApplyCursor) == Some(t)
    ensures s.conns[k].pc.Applying?
    ensures var pc := s.conns[k].pc;
            && t.db.outbox == Delete(s.db.outbox, SocketUpTo(s.db.outbox, pc.install, pc.cursor))
            && t.past == Record(s.past, s.db.outbox, t.db.outbox, Resumed(pc.install, pc.presented, pc.honest))
            && t.hub == s.hub && t.held == s.held && t.conns.Keys == s.conns.Keys
    ensures forall j :: j in s.conns ==>
              t.conns[j].attachments == s.conns[j].attachments && t.conns[j].events == s.conns[j].events
  {
  }

  lemma ApplyCursorReplaces(s: State, t: State, k: nat)
    requires Inv(s) && k in s.conns && Proceed(s, k, ApplyCursor) == Some(t)
    ensures var pc := s.conns[k].pc; pc.Applying? && Replaces(s, t, Resumed(pc.install, pc.presented, pc.honest))
    ensures t.past.log == s.past.log && t.past.received == s.past.received
    ensures HubOk(t) && HeldOk(t)
  {
    hide Proceed, Justified, ConnsOk, LogOk, WakeOk, RowsAccounted;
    ApplyCursorShape(s, t, k);
    var pc := s.conns[k].pc;
    forall id | id in SocketUpTo(s.db.outbox, pc.install, pc.cursor)
      ensures Justified(id, s.db.outbox.rows[id], Resumed(pc.install, pc.presented, pc.honest), s.past)
    {
      ResumeJustified(s, k, id);
    }
  }

  lemma ApplyCursorKeepsInv(s: State, t: State, k: nat)
    requires Inv(s) && k in s.conns && Proceed(s, k, ApplyCursor) == Some(t)
    ensures Inv(t)
  {
    hide ConnsOk, LogOk, HubOk, WakeOk, RowsAccounted, HeldOk, Proceed;
    var pc := s.conns[k].pc;
    ApplyCursorReplaces(s, t, k);
    ApplyCursorKeepsConns(s, t, k);
    RowsAccountedKept(s, t, Resumed(pc.install, pc.presented, pc.honest));
    LogOkKept(s.db.outbox, t.db.outbox, s.past, t.past);
  }

  // ----- joining and leaving the hub -----

  /** What joining does to the connections, apart from the events. */
  lemma JoinShape(s: State, k: nat)
    requires k in s.conns && s.conns[k].pc.Joining?
    ensures var t, pc, m := JoinHub(s, k), s.conns[k].pc, s.conns[k].attachments;
            var joined := Attachment(Ready(pc.cursor), [], if pc.honest then Some(pc.presented) else None);
            && t.db == s.db && t.past == s.past && t.nextConn == s.nextConn && t.conns.Keys == s.conns.Keys
            && t.inflight == s.inflight && t.held == s.held
            && t.conns[k].attachments == m[pc.install := joined]
            && t.conns[k].pc == Scan(t.conns[k].attachments.Keys, [])
            && (forall j :: j in s.conns ==> s.conns[j].events <= t.conns[j].events)
            && (forall j :: j in s.conns && j != k ==>
                  t.conns[j].attachments == s.conns[j].attachments && t.conns[j].pc == s.conns[j].pc)
  {
  }

  lemma JoinConnOk(s: State, t: State, k: nat, i: InstallId)
    requires ConnsOk(s) && k in s.conns && s.conns[k].pc.Joining? && s.conns[k].pc.install == i
    requires t == JoinHub(s, k)
    ensures ConnsOk(t)
  {
    JoinShape(s, k);
    hide JoinHub, LowWater;
    assert ConnOk(s.db.outbox, s.past, s.conns[k]);
    forall j | j in t.conns[k].attachments ensures AttachmentOk(t.db.outbox, t.past, j, t.conns[k].attachments[j]) {
      if j != i {
        assert AttachmentOk(s.db.outbox, s.past, j, s.conns[k].attachments[j]);
      }
    }
    hide AttachmentOk;
    forall j | j in t.conns ensures ConnOk(t.db.outbox, t.past, t.conns[j]) && j < t.nextConn {
      if j != k {
        assert ConnOk(s.db.outbox, s.past, s.conns[j]);
      }
    }
  }

  lemma JoinTellsPrevious(s: State, k: nat)
    requires k in s.conns && s.conns[k].pc.Joining?
    ensures var t, i := JoinHub(s, k), s.conns[k].pc.install;
            && t.hub == s.hub[i := k]
            && (i in s.hub && s.hub[i] != k && s.hub[i] in s.conns ==> Replaced(i) in t.conns[s.hub[i]].events)
  {
  }

  /** Any attachment after a join was there before, or is the one just made. */
  lemma JoinHubAt(s: State, t: State, k: nat, j: nat, x: InstallId)
    requires HubOk(s) && k in s.conns && s.conns[k].pc.Joining? && t == JoinHub(s, k)
    requires j in t.conns && x in t.conns[j].attachments
    ensures (x in t.hub && t.hub[x] == j) || Replaced(x) in t.conns[j].events
  {
    hide JoinHub;
    JoinShape(s, k);
    JoinTellsPrevious(s, k);
    if j != k || x != s.conns[k].pc.install {
      assert x in s.conns[j].attachments;
    }
  }

  lemma JoinHubOk(s: State, t: State, k: nat)
    requires HubOk(s) && k in s.conns && s.conns[k].pc.Joining? && t == JoinHub(s, k)
    ensures HubOk(t)
  {
    hide JoinHub;
    forall j, x | j in t.conns && x in t.conns[j].attachments
      ensures (x in t.hub && t.hub[x] == j) || Replaced(x) in t.conns[j].events
    {
      JoinHubAt(s, t, k, j, x);
    }
    JoinShape(s, k);
    JoinTellsPrevious(s, k);
  }

  lemma JoinWakeOk(s: State, t: State, k: nat)
    requires WakeOk(s) && k in s.conns && s.conns[k].pc.Joining? && t == JoinHub(s, k)
    ensures WakeOk(t)
  {
    hide JoinHub, Unread;
    JoinShape(s, k);
    forall j, x | j in t.conns && x in t.conns[j].attachments ensures Covered(t, t.conns[j], x) {
      if j != k {
        assert Covered(s, s.conns[j], x);
      }
    }
  }

  lemma JoinKeepsInv(s: State, t: State, k: nat)
    requires Inv(s) && k in s.conns && Proceed(s, k, Join) == Some(t)
    ensures Inv(t)
  {
    hide JoinHub, ConnsOk, LogOk, HubOk, WakeOk, RowsAccounted;
    JoinShape(s, k);
    JoinConnOk(s, t, k, s.conns[k].pc.install);
    JoinHubOk(s, t, k);
    JoinWakeOk(s, t, k);
  }

  /** Dropping one attachment, with the event that asked for it if there was one. */
  ghost predicate Drops(s: State, t: State, k: nat, i: InstallId, events: seq<Event>, pc: Pc) {
    && k in s.conns
    && (forall x :: x != i && Replaced(x) in s.conns[k].events ==> Replaced(x) in events)
    && (pc == Scan(s.conns[k].attachments.Keys - {i}, []) || pc.Closing?)
    && t == SetConn(Drop(s, k, i), k, Conn(s.conns[k].attachments - {i}, events, pc))
  }

  lemma DropKeepsHub(s: State, t: State, k: nat, i: InstallId, events: seq<Event>, pc: Pc)
    requires HubOk(s) && Drops(s, t, k, i, events, pc)
    ensures HubOk(t)
  {
    forall j, x | j in t.conns && x in t.conns[j].attachments
      ensures (x in t.hub && t.hub[x] == j) || Replaced(x) in t.conns[j].events
    {
      assert x in s.conns[j].attachments;
    }
  }

  lemma DropKeepsConns(s: State, t: State, k: nat, i: InstallId, events: seq<Event>, pc: Pc)
    requires ConnsOk(s) && WakeOk(s) && Drops(s, t, k, i, events, pc)
    ensures ConnsOk(t) && WakeOk(t)
  {
    var c := t.conns[k];
    assert ConnOk(s.db.outbox, s.past, s.conns[k]);
    forall j | j in c.attachments ensures AttachmentOk(t.db.outbox, t.past, j, c.attachments[j]) {
      assert AttachmentOk(s.db.outbox, s.past, j, s.conns[k].attachments[j]);
    }
    ConnsOkStep(s, t, k, c);
    WakeOkStep(s, t, k, c);
  }

  lemma DropKeepsInv(s: State, t: State, k: nat, i: InstallId, events: seq<Event>, pc: Pc)
    requires Inv(s) && Drops(s, t, k, i, events, pc)
    ensures Inv(t)
  {
    DropKeepsHub(s, t, k, i, events, pc);
    DropKeepsConns(s, t, k, i, events, pc);
  }

  lemma LeaveKeepsInv(s: State, t: State, k: nat, i: InstallId)
    requires Inv(s) && k in s.conns && t == Restart(Drop(s, k, i), k)
    ensures Inv(t)
  {
    var c := s.conns[k];
    assert i !in c.attachments ==> c.attachments - {i} == c.attachments;
    assert t.conns == Drop(s, k, i).conns[k := Conn(c.attachments - {i}, c.events, Scan(c.attachments.Keys - {i}, []))];
    DropKeepsInv(s, t, k, i, c.events, Scan(c.attachments.Keys - {i}, []));
  }

  lemma TakeWakeKeepsInv(s: State, t: State, k: nat)
    requires Inv(s) && k in s.conns && s.conns[k].events != [] && s.conns[k].events[0].Wake?
    requires Proceed(s, k, TakeEvent) == Some(t)
    ensures Inv(t)
  {
    hide AttachmentOk, LogOk, RowsAccounted, Unread, LowWater;
    var c := s.conns[k];
    assert c.events == [c.events[0]] + c.events[1..];
    assert ConnOk(s.db.outbox, s.past, c);
    assert ConnOk(t.db.outbox, t.past, t.conns[k]);
    ConnsOkStep(s, t, k, t.conns[k]);
    WakeOkStep(s, t, k, t.conns[k]);
  }

  lemma TakeReplacedDrops(s: State, t: State, k: nat)
    requires k in s.conns && s.conns[k].events != [] && s.conns[k].events[0].Replaced?
    requires Proceed(s, k, TakeEvent) == Some(t)
    ensures var i := s.conns[k].events[0].install;
            Drops(s, t, k, i, s.conns[k].events[1..], Scan(s.conns[k].attachments.Keys - {i}, []))
  {
    var c := s.conns[k];
    var i := c.events[0].install;
    var rest := c.events[1..];
    assert c.events == [c.events[0]] + rest;
    assert i !in c.attachments ==> c.attachments - {i} == c.attachments;
    assert t.conns == Drop(s, k, i).conns[k := Conn(c.attachments - {i}, rest, Scan(c.attachments.Keys - {i}, []))];
  }

  lemma TakeEventKeepsInv(s: State, t: State, k: nat)
    requires Inv(s) && k in s.conns && Proceed(s, k, TakeEvent) == Some(t)
    ensures Inv(t)
  {
    var c := s.conns[k];
    if c.events[0].Wake? {
      TakeWakeKeepsInv(s, t, k);
    } else {
      var i := c.events[0].install;
      TakeReplacedDrops(s, t, k);
      DropKeepsInv(s, t, k, i, c.events[1..], Scan(c.attachments.Keys - {i}, []));
    }
  }

  lemma ReleaseKeepsInv(s: State, t: State, k: nat, i: InstallId)
    requires Inv(s) && k in s.conns && Proceed(s, k, Release(i)) == Some(t)
    ensures Inv(t)
  {
    hide ConnsOk, LogOk, HubOk, WakeOk, RowsAccounted, HeldOk;
    DropKeepsInv(s, t, k, i, s.conns[k].events, Closing);
  }

  lemma CloseKeepsInv(s: State, t: State, k: nat)
    requires Inv(s) && k in s.conns && Proceed(s, k, Close) == Some(t)
    ensures Inv(t)
  {
    hide ConnOk, LogOk, RowsAccounted, Unread;
    forall j, x | j in t.conns && x in t.conns[j].attachments ensures Covered(t, t.conns[j], x) {
      assert Covered(s, s.conns[j], x);
    }
  }

  // ----- acknowledgements -----

  ghost predicate AcksRow(s: State, t: State, k: nat, i: InstallId, id: nat) {
    && k in s.conns && i in s.conns[k].attachments
    && s.conns[k].attachments[i].state == AwaitingAck(id)
    && id in s.db.outbox.rows && ForSocket(s.db.outbox.rows[id], i)
    && t == Acknowledge(s, k, i, id)
  }

  lemma AckKeepsAccounts(s: State, t: State, k: nat, i: InstallId, id: nat)
    requires Inv(s) && AcksRow(s, t, k, i, id)
    ensures RowsAccounted(t.db.outbox, t.past) && LogOk(t.db.outbox, t.past)
  {
    hide HubOk, WakeOk, HeldOk;
    var cause := Acked(i, HasReceived(s.past, i, id));
    assert AttachmentOk(s.db.outbox, s.past, i, s.conns[k].attachments[i]);
    assert Justified(id, s.db.outbox.rows[id], cause, s.past);
    assert Replaces(s, t, cause);
    RowsAccountedKept(s, t, cause);
    LogOkKept(s.db.outbox, t.db.outbox, s.past, t.past);
  }

  lemma AckKeepsOthers(s: State, t: State, k: nat, i: InstallId, id: nat, j: InstallId)
    requires AcksRow(s, t, k, i, id) && ConnOk(s.db.outbox, s.past, s.conns[k])
    requires j in s.conns[k].attachments && j != i
    ensures j in t.conns[k].attachments && AttachmentOk(t.db.outbox, t.past, j, t.conns[k].attachments[j])
  {
    assert AttachmentOk(s.db.outbox, s.past, j, s.conns[k].attachments[j]);
  }

  lemma AckKeepsAcked(s: State, t: State, k: nat, i: InstallId, id: nat)
    requires AcksRow(s, t, k, i, id) && ConnOk(s.db.outbox, s.past, s.conns[k]) && LogOk(s.db.outbox, s.past)
    ensures i in t.conns[k].attachments && AttachmentOk(t.db.outbox, t.past, i, t.conns[k].attachments[i])
  {
    assert AttachmentOk(s.db.outbox, s.past, i, s.conns[k].attachments[i]);
    assert LowWater(s.db.outbox, i, id - 1);
  }

  lemma AckKeepsConn(s: State, t: State, k: nat, i: InstallId, id: nat)
    requires ConnsOk(s) && LogOk(s.db.outbox, s.past) && AcksRow(s, t, k, i, id)
    ensures ConnOk(t.db.outbox, t.past, t.conns[k]) && Evolves(s.db.outbox, t.db.outbox)
  {
    hide AttachmentOk, LowWater, LogOk;
    AckKeepsAcked(s, t, k, i, id);
    forall j | j in t.conns[k].attachments ensures AttachmentOk(t.db.outbox, t.past, j, t.conns[k].attachments[j]) {
      if j != i {
        AckKeepsOthers(s, t, k, i, id, j);
      }
    }
  }

  lemma AckKeepsConns(s: State, t: State, k: nat, i: InstallId, id: nat)
    requires ConnsOk(s) && LogOk(s.db.outbox, s.past) && WakeOk(s) && AcksRow(s, t, k, i, id)
    ensures ConnsOk(t) && WakeOk(t)
  {
    AckKeepsConn(s, t, k, i, id);
    ConnsOkStep(s, t, k, t.conns[k]);
    WakeOkStep(s, t, k, t.conns[k]);
  }

  lemma AckKeepsHub(s: State, t: State, k: nat, i: InstallId, id: nat)
    requires HubOk(s) && HeldOk(s) && AcksRow(s, t, k, i, id)
    ensures HubOk(t) && HeldOk(t)
  {
    forall j, x | j in t.conns && x in t.conns[j].attachments
      ensures (x in t.hub && t.hub[x] == j) || Replaced(x) in t.conns[j].events
    {
      assert x in s.conns[j].attachments;
    }
  }

  lemma AckRowKeepsInv(s: State, t: State, k: nat, i: InstallId, id: nat)
    requires Inv(s) && AcksRow(s, t, k, i, id)
    ensures Inv(t)
  {
    AckKeepsAccounts(s, t, k, i, id);
    AckKeepsConns(s, t, k, i, id);
    AckKeepsHub(s, t, k, i, id);
  }

  lemma ClientAckKeepsInv(s: State, t: State, k: nat, i: InstallId, id: nat)
    requires Inv(s) && k in s.conns && Proceed(s, k, ClientAck(i, id)) == Some(t)
    ensures Inv(t)
  {
    hide ConnsOk, LogOk, HubOk, WakeOk, RowsAccounted, HeldOk;
    var c := s.conns[k];
    if i in c.attachments && c.attachments[i].state == AwaitingAck(id) {
      if id in s.db.outbox.rows && ForSocket(s.db.outbox.rows[id], i) {
        AckRowKeepsInv(s, t, k, i, id);
      } else {
        MoveKeepsInv(s, t, k, Refused(i));
      }
    } else {
      LeaveKeepsInv(s, t, k, i);
    }
  }

  // ----- every step, every run -----

  lemma OpenShape(s: State, t: State)
    requires Step(s, Open) == Some(t)
    ensures t == s.(conns := s.conns[s.nextConn := Conn(map[], [], Scan({}, []))], nextConn := s.nextConn + 1)
  {
  }

  lemma OpenKeepsConns(s: State, t: State)
    requires ConnsOk(s) && HubOk(s) && Step(s, Open) == Some(t)
    ensures ConnsOk(t) && HubOk(t)
  {
    hide Step, AttachmentOk;
    OpenShape(s, t);
  }

  lemma OpenKeepsWake(s: State, t: State)
    requires ConnsOk(s) && WakeOk(s) && Step(s, Open) == Some(t)
    ensures WakeOk(t)
  {
    hide Step, ConnOk, Unread;
    OpenShape(s, t);
    forall j, x | j in t.conns && x in t.conns[j].attachments ensures Covered(t, t.conns[j], x) {
      assert Covered(s, s.conns[j], x);
    }
  }

  lemma OpenKeepsInv(s: State, t: State)
    requires Inv(s) && Step(s, Open) == Some(t)
    ensures Inv(t)
  {
    hide Step, ConnsOk, LogOk, HubOk, WakeOk, RowsAccounted;
    OpenShape(s, t);
    OpenKeepsConns(s, t);
    OpenKeepsWake(s, t);
  }

  /** What a wake does to the connections: at most one queue grows. */
  lemma WakeOwnerShape(s: State, t: State, i: InstallId)
    requires Step(s, WakeOwner(i)) == Some(t)
    ensures t.db == s.db && t.past == s.past && t.hub == s.hub && t.nextConn == s.nextConn && t.held == s.held
    ensures t.inflight == s.inflight - multiset{i} && t.conns.Keys == s.conns.Keys
    ensures forall j :: j in s.conns ==>
              t.conns[j].attachments == s.conns[j].attachments && t.conns[j].pc == s.conns[j].pc
              && s.conns[j].events <= t.conns[j].events
    ensures i in s.hub && s.hub[i] in s.conns ==> Wake in t.conns[s.hub[i]].events
  {
  }

  lemma WakeOwnerKeepsHub(s: State, t: State, i: InstallId)
    requires HubOk(s) && Step(s, WakeOwner(i)) == Some(t)
    ensures HubOk(t)
  {
    hide Step;
    WakeOwnerShape(s, t, i);
    forall j, x | j in t.conns && x in t.conns[j].attachments
      ensures (x in t.hub && t.hub[x] == j) || Replaced(x) in t.conns[j].events
    {
      assert x in s.conns[j].attachments;
    }
  }

  lemma WakeOwnerCovers(s: State, t: State, i: InstallId)
    requires HubOk(s) && WakeOk(s) && Step(s, WakeOwner(i)) == Some(t)
    ensures WakeOk(t)
  {
    hide Step, Unread;
    WakeOwnerShape(s, t, i);
    forall j, x | j in t.conns && x in t.conns[j].attachments ensures Covered(t, t.conns[j], x) {
      assert Covered(s, s.conns[j], x);
    }
  }

  lemma WakeOwnerKeepsConns(s: State, t: State, i: InstallId)
    requires ConnsOk(s) && Step(s, WakeOwner(i)) == Some(t)
    ensures ConnsOk(t)
  {
    hide Step, AttachmentOk, PcOk;
    WakeOwnerShape(s, t, i);
    forall j | j in t.conns ensures ConnOk(t.db.outbox, t.past, t.conns[j]) {
      assert ConnOk(s.db.outbox, s.past, s.conns[j]);
    }
  }

  lemma WakeOwnerKeepsInv(s: State, t: State, i: InstallId)
    requires Inv(s) && Step(s, WakeOwner(i)) == Some(t)
    ensures Inv(t)
  {
    hide Step, ConnsOk, LogOk, HubOk, WakeOk, RowsAccounted;
    WakeOwnerShape(s, t, i);
    WakeOwnerKeepsHub(s, t, i);
    WakeOwnerCovers(s, t, i);
    WakeOwnerKeepsConns(s, t, i);
  }

  lemma ProceedKeepsInv(s: State, t: State, k: nat, action: Action)
    requires Inv(s) && k in s.conns && Proceed(s, k, action) == Some(t)
    ensures Inv(t)
  {
    match action
    case Visit(install) => VisitKeepsInv(s, t, k, install);
    case SendFrame => SendFrameKeepsInv(s, t, k);
    case ReadMaximum => ReadMaximumKeepsInv(s, t, k);
    case ApplyCursor => ApplyCursorKeepsInv(s, t, k);
    case Join => JoinKeepsInv(s, t, k);
    case ClientDetach(install) => LeaveKeepsInv(s, t, k, install);
    case ClientAck(install, id) => ClientAckKeepsInv(s, t, k, install, id);
    case FinishRefused => LeaveKeepsInv(s, t, k, s.conns[k].pc.install);
    case TakeEvent => TakeEventKeepsInv(s, t, k);
    case Release(install) => ReleaseKeepsInv(s, t, k, install);
    case Close => CloseKeepsInv(s, t, k);
    case _ => QuietActionsKeepInv(s, t, k, action);
  }

  /** A restart leaves nobody to be told, and no attachment to be behind. */
  lemma CrashKeepsInv(s: State)
    requires Inv(s)
    ensures Inv(Restarted(s))
  {
    hide LogOk, RowsAccounted;
  }

  lemma StepKeepsInv(s: State, l: Label, t: State)
    requires Inv(s) && Step(s, l) == Some(t)
    ensures Inv(t)
  {
    match l
    case Outside(op) => OutsideKeepsInv(s, op, t);
    case WakeOwner(install) => WakeOwnerKeepsInv(s, t, install);
    case Open => OpenKeepsInv(s, t);
    case Act(k, action) => ProceedKeepsInv(s, t, k, action);
    case Crash => CrashKeepsInv(s);
  }

  lemma {:induction false} RunKeepsInv(s: State, steps: seq<Label>, t: State)
    requires Inv(s) && Run(s, steps) == Some(t)
    ensures Inv(t)
    decreases |steps|
  {
    if steps != [] {
      var mid := Step(s, steps[0]).value;
      StepKeepsInv(s, steps[0], mid);
      RunKeepsInv(mid, steps[1..], t);
    }
  }

  lemma ReachableInv(s: State)
    requires Reachable(s)
    ensures Inv(s)
  {
    var steps :| Run(INITIAL, steps) == Some(s);
    RunKeepsInv(INITIAL, steps, s);
  }
}
