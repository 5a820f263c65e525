/** Why the ingest task's acknowledgements and logins are safe, on every run of it. */
module FcmListenerProofs {
  import opened Types
  import opened Tables
  import opened McsStream
  import opened McsStreamProofs
  import opened McsMessages
  import opened DedupWindow
  import opened FcmListener
  import P = DeliveryProtocol

  // ----- the queue mirrors the table -----

  function History(cfg: Config, db: Db): seq<PersistentId> {
    AckedFor(db.acked, cfg.install, cfg.app)
  }

  ghost predicate Mirrors(cfg: Config, st: Listener) {
    HistoryOk(History(cfg, st.db)) && st.queue == History(cfg, st.db)
  }

  lemma IngestLearns(cfg: Config, db: Db, pid: Option<PersistentId>, payload: seq<Byte>)
    requires HistoryOk(History(cfg, db))
    ensures History(cfg, EnqueueFcm(db, cfg.install, cfg.app, cfg.target.Transport(), pid, payload).db)
         == Learn(History(cfg, db), pid)
    ensures HistoryOk(Learn(History(cfg, db), pid))
  {
    AckedAfterIsLearn(db.acked, cfg.install, cfg.app, pid);
    LearnKeepsShape(History(cfg, db), pid);
  }

  lemma TurnKeepsMirror(cfg: Config, c: nat, st: Listener, t: Turn)
    requires Mirrors(cfg, st)
    ensures Mirrors(cfg, TurnAfter(cfg, c, st, t).0)
  {
    if t.Turn? && t.item.result.Ok? && t.item.result.value.Data? {
      var data := t.item.result.value.message;
      IngestLearns(cfg, Interfered(cfg, st.db, t.tables), data.persistentId, cfg.render(data));
    }
  }

  lemma {:induction false} ListenKeepsMirror(cfg: Config, c: nat, st: Listener, turns: seq<Turn>, n: nat)
    requires Mirrors(cfg, st) && n <= |turns|
    ensures Mirrors(cfg, Listen(cfg, c, st, turns, n).0)
    decreases |turns| - n
  {
    hide Mirrors, TurnAfter;
    if n < |turns| {
      TurnKeepsMirror(cfg, c, st, turns[n]);
      if TurnAfter(cfg, c, st, turns[n]).1.Continue? {
        ListenKeepsMirror(cfg, c, TurnAfter(cfg, c, st, turns[n]).0, turns, n + 1);
      }
    }
  }

  /** After every message, on any number of connections, the queue equals the table's entries in
      rowid order, and has at most 500. */
  lemma {:induction false} QueueMirrorsTable(cfg: Config, st: Listener, sessions: seq<Session>, c: nat)
    requires Mirrors(cfg, st) && c <= |sessions|
    ensures Mirrors(cfg, Sessions(cfg, st, sessions, c))
    ensures |Sessions(cfg, st, sessions, c).queue| <= MAX_ACK_HISTORY
    decreases |sessions| - c
  {
    if c < |sessions| {
      if sessions[c].Session? && LoginAccepts(st.queue) {
        ListenKeepsMirror(cfg, c, st.(log := st.log + [Login(st.queue)]), sessions[c].turns, 0);
      }
      QueueMirrorsTable(cfg, SessionAfter(cfg, c, st, sessions[c]).0, sessions, c + 1);
    }
  }

  /** The in-memory redelivery test asks what the ingest transaction will ask the table. */
  lemma RedeliveryTestIsExact(cfg: Config, st: Listener, pid: PersistentId)
    requires Mirrors(cfg, st)
    ensures pid in st.queue <==> AlreadyAcked(st.db, cfg.install, cfg.app, Some(pid))
  {
    hide HistoryOk;
    assert forall p :: p in History(cfg, st.db) <==> Ack(cfg.install, cfg.app, p) in st.db.acked;
  }

  /** A task seeded from any database a run of the bridge can reach starts out mirroring the table. */
  lemma SeededTaskMirrors(cfg: Config, s: P.State)
    requires P.Reachable(s)
    ensures Mirrors(cfg, Seeded(cfg, s.db))
  {
    HistoriesAreSmallAndDistinct(s, cfg.install, cfg.app);
  }

  // ----- what an acknowledgement stands for -----

  /** Once a message is acknowledged its id is in the table's history, and its row is there unless the
      message was empty or known: its id acknowledged before, or its row still waiting. */
  lemma AckedMessageIsStored(cfg: Config, c: nat, st: Listener, t: Turn, streamId: int)
    requires HistoryOk(History(cfg, st.db))
    requires var log := TurnAfter(cfg, c, st, t).0.log; st.log < log && log[|log| - 1] == StreamAck(c, streamId)
    ensures t.Turn? && t.item.result.Ok? && t.item.result.value.Data? && t.commits && t.item.streamId == streamId
    ensures var before, after := Interfered(cfg, st.db, t.tables), TurnAfter(cfg, c, st, t).0.db;
            var data := t.item.result.value.message;
            var pid, payload := data.persistentId, cfg.render(data);
            && (pid.Some? ==> pid.value in History(cfg, after))
            && if CreatesRow(before, cfg.install, cfg.app, pid, payload) then
                 && after.outbox.lastId > before.outbox.lastId && after.outbox.lastId in after.outbox.rows
                 && after.outbox.rows[after.outbox.lastId]
                    == Row(cfg.install, cfg.app, Fcm, cfg.target.Transport(), None, pid, payload)
               else
                 after.outbox == before.outbox
                 && (payload == [] || AlreadyAcked(before, cfg.install, cfg.app, pid)
                     || Duplicates(before.outbox, cfg.install, cfg.app, pid) != {})
  {
    var data := t.item.result.value.message;
    var before := Interfered(cfg, st.db, t.tables);
    IngestLearns(cfg, before, data.persistentId, cfg.render(data));
    LearnKnows(History(cfg, before), data.persistentId);
  }

  lemma LearnKnows(h: seq<PersistentId>, pid: Option<PersistentId>)
    ensures pid.Some? ==> pid.value in Learn(h, pid)
  {
    if pid.Some? && pid.value !in h {
      assert Learn(h, pid)[|Learn(h, pid)| - 1] == pid.value;
    }
  }

  // ----- the login check -----

  /** The count part of the check never fails; the login is refused exactly if an id is too long. */
  lemma LoginRefusedOnlyForLongIds(cfg: Config, st: Listener)
    requires Mirrors(cfg, st)
    ensures LoginAccepts(st.queue) <==> forall p :: p in History(cfg, st.db) ==> |p| <= MAX_PERSISTENT_ID_BYTES
  {
  }

  /** At every login the run attempts, the queue equals the table, and the check refuses it exactly for
      an over-long id. */
  ghost predicate RefusedOnlyForLongIds(cfg: Config, st: Listener, sessions: seq<Session>, c: nat)
    requires c <= |sessions|
    decreases |sessions| - c
  {
    c < |sessions| ==>
      && st.queue == History(cfg, st.db)
      && (LoginAccepts(st.queue) <==> forall p :: p in History(cfg, st.db) ==> |p| <= MAX_PERSISTENT_ID_BYTES)
      && RefusedOnlyForLongIds(cfg, SessionAfter(cfg, c, st, sessions[c]).0, sessions, c + 1)
  }

  lemma SessionKeepsMirror(cfg: Config, c: nat, st: Listener, session: Session)
    requires Mirrors(cfg, st)
    ensures Mirrors(cfg, SessionAfter(cfg, c, st, session).0)
  {
    if session.Session? && LoginAccepts(st.queue) {
      ListenKeepsMirror(cfg, c, st.(log := st.log + [Login(st.queue)]), session.turns, 0);
    }
  }

  lemma {:induction false} MirroringRunIsRefusedOnlyForLongIds(
      cfg: Config, st: Listener, sessions: seq<Session>, c: nat)
    requires Mirrors(cfg, st) && c <= |sessions|
    ensures RefusedOnlyForLongIds(cfg, st, sessions, c)
    decreases |sessions| - c
  {
    if c < |sessions| {
      LoginRefusedOnlyForLongIds(cfg, st);
      SessionKeepsMirror(cfg, c, st, sessions[c]);
      hide Mirrors, SessionAfter;
      MirroringRunIsRefusedOnlyForLongIds(cfg, SessionAfter(cfg, c, st, sessions[c]).0, sessions, c + 1);
    }
  }

  /** For every database a run can reach, a task seeded from it keeps its queue equal to the table over
      all its connections, and each of its logins is refused exactly for an over-long id. */
  lemma SeededTaskFollowsTable(cfg: Config, s: P.State, sessions: seq<Session>)
    requires P.Reachable(s)
    ensures var end := Sessions(cfg, Seeded(cfg, s.db), sessions, 0);
            end.queue == History(cfg, end.db) && |end.queue| <= MAX_ACK_HISTORY
    ensures RefusedOnlyForLongIds(cfg, Seeded(cfg, s.db), sessions, 0)
  {
    hide Seeded, P.Reachable;
    SeededTaskMirrors(cfg, s);
    QueueMirrorsTable(cfg, Seeded(cfg, s.db), sessions, 0);
    MirroringRunIsRefusedOnlyForLongIds(cfg, Seeded(cfg, s.db), sessions, 0);
  }

  /** A history the check refuses is never logged in with, and so never changes. */
  lemma {:induction false} RefusedHistoryIsFinal(cfg: Config, st: Listener, sessions: seq<Session>, c: nat)
    requires !LoginAccepts(st.queue) && c <= |sessions|
    ensures Sessions(cfg, st, sessions, c) == st
    decreases |sessions| - c
  {
    if c < |sessions| {
      RefusedHistoryIsFinal(cfg, st, sessions, c + 1);
    }
  }

  /** The id that the turn adds to the queue, if it adds one. */
  function NewId(queue: seq<PersistentId>, t: Turn): seq<PersistentId> {
    if t.Turn? && t.commits && t.item.result.Ok? && t.item.result.value.Data?
       && t.item.result.value.message.persistentId.Some?
       && t.item.result.value.message.persistentId.value !in queue
    then [t.item.result.value.message.persistentId.value] else []
  }

  /** The ids newly accepted on a connection, from its n-th turn to its end. */
  function NewIds(queue: seq<PersistentId>, turns: seq<Turn>, n: nat): seq<PersistentId>
    requires n <= |turns|
    decreases |turns| - n
  {
    if n == |turns| then []
    else
      var learned := NewId(queue, turns[n]);
      learned + if GoesOn(turns[n]) then NewIds(LastOf(queue + learned, MAX_ACK_HISTORY), turns, n + 1) else []
  }

  lemma LastOfTwice<T>(a: seq<T>, b: seq<T>, limit: nat)
    ensures LastOf(LastOf(a, limit) + b, limit) == LastOf(a + b, limit)
  {
  }

  lemma TurnLearns(cfg: Config, c: nat, st: Listener, t: Turn)
    requires |st.queue| <= MAX_ACK_HISTORY
    ensures TurnAfter(cfg, c, st, t).0.queue == LastOf(st.queue + NewId(st.queue, t), MAX_ACK_HISTORY)
    ensures TurnAfter(cfg, c, st, t).1.Continue? <==> GoesOn(t)
    ensures TurnAfter(cfg, c, st, t).1.Stop? <==> t.StopRequest?
    ensures TurnAfter(cfg, c, st, t).0.log == st.log + TurnDeeds(c, t)
  {
    assert st.queue + [] == st.queue && st.log + [] == st.log;
    if t.Turn? && t.item.result.Ok? && t.item.result.value.Data? {
      var commit := Commit(c, t.item.streamId, t.item.result.value.message.persistentId);
      var ack := StreamAck(c, t.item.streamId);
      assert st.log + [commit] + [ack] == st.log + [commit, ack];
    }
  }

  /** What is done on a connection, from its n-th turn to the first that ends it. */
  function ConnectionDeeds(c: nat, turns: seq<Turn>, n: nat): seq<Deed>
    requires n <= |turns|
    decreases |turns| - n
  {
    if n == |turns| then []
    else TurnDeeds(c, turns[n]) + if GoesOn(turns[n]) then ConnectionDeeds(c, turns, n + 1) else []
  }

  /** The connection is ended by a stop request. */
  predicate Stops(turns: seq<Turn>, n: nat)
    requires n <= |turns|
    decreases |turns| - n
  {
    n < |turns| && (turns[n].StopRequest? || (GoesOn(turns[n]) && Stops(turns, n + 1)))
  }

  /** A connection leaves the newest 500 of the ids it started with and those it accepted, and does for
      each turn what that turn calls for. */
  lemma {:induction false} ListenLearns(cfg: Config, c: nat, st: Listener, turns: seq<Turn>, n: nat)
    requires |st.queue| <= MAX_ACK_HISTORY && n <= |turns|
    ensures Listen(cfg, c, st, turns, n).0.queue == LastOf(st.queue + NewIds(st.queue, turns, n), MAX_ACK_HISTORY)
    ensures Listen(cfg, c, st, turns, n).0.log == st.log + ConnectionDeeds(c, turns, n)
    ensures Listen(cfg, c, st, turns, n).1 <==> Stops(turns, n)
    decreases |turns| - n
  {
    hide TurnAfter, NewId, GoesOn, TurnDeeds;
    if n == |turns| {
      assert st.queue + [] == st.queue && st.log + [] == st.log;
    } else {
      TurnLearns(cfg, c, st, turns[n]);
      var (next, how) := TurnAfter(cfg, c, st, turns[n]);
      var learned := NewId(st.queue, turns[n]);
      if how.Continue? {
        var later := NewIds(next.queue, turns, n + 1);
        ListenLearns(cfg, c, next, turns, n + 1);
        LastOfTwice(st.queue + learned, later, MAX_ACK_HISTORY);
        assert st.queue + learned + later == st.queue + (learned + later);
        var deeds := TurnDeeds(c, turns[n]);
        assert st.log + deeds + ConnectionDeeds(c, turns, n + 1) == st.log + (deeds + ConnectionDeeds(c, turns, n + 1));
      } else {
        assert learned + [] == learned && TurnDeeds(c, turns[n]) + [] == TurnDeeds(c, turns[n]);
      }
    }
  }

  /** All that a task does, from its c-th connection on: it tries one after the other, logs in with its queue
      if that is accepted, answers, and goes on until it is stopped. */
  function TaskDeeds(queue: seq<PersistentId>, sessions: seq<Session>, c: nat): seq<Deed>
    requires c <= |sessions|
    decreases |sessions| - c
  {
    if c == |sessions| then []
    else
      match sessions[c]
      case StopFound => []
      case Unreachable => TaskDeeds(queue, sessions, c + 1)
      case Session(turns) =>
        if !LoginAccepts(queue) then TaskDeeds(queue, sessions, c + 1)
        else
          var next := LastOf(queue + NewIds(queue, turns, 0), MAX_ACK_HISTORY);
          [Login(queue)] + ConnectionDeeds(c, turns, 0)
          + if Stops(turns, 0) then [] else TaskDeeds(next, sessions, c + 1)
  }

  /** The task's log is exactly that: every heartbeat and every committed message on every connection is
      answered once, in order, with its own stream id, and nothing else is. */
  lemma {:induction false} EveryTurnIsAnswered(cfg: Config, st: Listener, sessions: seq<Session>, c: nat)
    requires |st.queue| <= MAX_ACK_HISTORY && c <= |sessions|
    ensures Sessions(cfg, st, sessions, c).log == st.log + TaskDeeds(st.queue, sessions, c)
    decreases |sessions| - c
  {
    hide Listen, NewIds, ConnectionDeeds, Stops, LoginAccepts;
    if c == |sessions| || sessions[c].StopFound? {
      assert st.log + [] == st.log;
    } else if sessions[c].Unreachable? || !LoginAccepts(st.queue) {
      EveryTurnIsAnswered(cfg, st, sessions, c + 1);
    } else {
      var turns := sessions[c].turns;
      ListenLearns(cfg, c, st.(log := st.log + [Login(st.queue)]), turns, 0);
      var (next, stopped) := SessionAfter(cfg, c, st, sessions[c]);
      var here := [Login(st.queue)] + ConnectionDeeds(c, turns, 0);
      assert next.log == st.log + here;
      if stopped {
        assert here + [] == here;
      } else {
        EveryTurnIsAnswered(cfg, next, sessions, c + 1);
        assert st.log + here + TaskDeeds(next.queue, sessions, c + 1)
            == st.log + (here + TaskDeeds(next.queue, sessions, c + 1));
      }
    }
  }

  /** Some over-long id was accepted with fewer than 500 new ids behind it. */
  ghost predicate LongIdLingers(ids: seq<PersistentId>) {
    exists k :: 0 <= k < |ids| && |ids[k]| > MAX_PERSISTENT_ID_BYTES && |ids| - 1 - k < MAX_ACK_HISTORY
  }

  lemma LingersExactly(queue: seq<PersistentId>, ids: seq<PersistentId>)
    requires LoginAccepts(queue)
    ensures LoginAccepts(LastOf(queue + ids, MAX_ACK_HISTORY)) <==> !LongIdLingers(ids)
  {
    var all := queue + ids;
    var kept := LastOf(all, MAX_ACK_HISTORY);
    var gone := |all| - |kept|;
    if k :| 0 <= k < |ids| && |ids[k]| > MAX_PERSISTENT_ID_BYTES && |ids| - 1 - k < MAX_ACK_HISTORY {
      assert kept[|queue| + k - gone] == ids[k];
    }
    if p :| p in kept && |p| > MAX_PERSISTENT_ID_BYTES {
      var j :| 0 <= j < |kept| && kept[j] == p;
      assert all[j + gone] == p;
      assert j + gone < |queue| ==> p in queue;
      assert ids[j + gone - |queue|] == p;
    }
  }

  /** After a connection, the next login is refused exactly if an over-long id was accepted on it with
      fewer than 500 new ids behind it. Then no later login of the task succeeds, and nothing changes
      any more; otherwise the task logs in again. */
  lemma LongIdStopsTheTask(cfg: Config, c: nat, st: Listener, sessions: seq<Session>)
    requires c < |sessions| && sessions[c].Session? && LoginAccepts(st.queue)
    ensures var end, ids := SessionAfter(cfg, c, st, sessions[c]).0, NewIds(st.queue, sessions[c].turns, 0);
            && (LoginAccepts(end.queue) <==> !LongIdLingers(ids))
            && (LongIdLingers(ids) ==> Sessions(cfg, end, sessions, c + 1) == end)
            && (!LongIdLingers(ids) && c + 1 < |sessions| && sessions[c + 1].Session? ==>
                  end.log + [Login(end.queue)] <= SessionAfter(cfg, c + 1, end, sessions[c + 1]).0.log)
  {
    hide LoginAccepts, LongIdLingers, NewIds, Listen;
    AcceptedAreFew(st.queue);
    ListenLearns(cfg, c, st.(log := st.log + [Login(st.queue)]), sessions[c].turns, 0);
    LingersExactly(st.queue, NewIds(st.queue, sessions[c].turns, 0));
    var end := SessionAfter(cfg, c, st, sessions[c]).0;
    if !LoginAccepts(end.queue) {
      RefusedHistoryIsFinal(cfg, end, sessions, c + 1);
    } else if c + 1 < |sessions| && sessions[c + 1].Session? {
      AcceptedAreFew(end.queue);
      ListenLearns(cfg, c + 1, end.(log := end.log + [Login(end.queue)]), sessions[c + 1].turns, 0);
    }
  }

  lemma AcceptedAreFew(queue: seq<PersistentId>)
    requires LoginAccepts(queue)
    ensures |queue| <= MAX_ACK_HISTORY
  {
  }

  /** A task started from a history that holds an over-long id never logs in at all. */
  lemma LongIdStopsLaterTasks(cfg: Config, db: Db, sessions: seq<Session>)
    requires HistoryOk(History(cfg, db))
    requires exists p :: p in History(cfg, db) && |p| > MAX_PERSISTENT_ID_BYTES
    ensures Sessions(cfg, Seeded(cfg, db), sessions, 0) == Seeded(cfg, db)
  {
    assert Seeded(cfg, db).queue == History(cfg, db);
    RefusedHistoryIsFinal(cfg, Seeded(cfg, db), sessions, 0);
  }

  // ----- acknowledgements are cumulative -----

  predicate IsAck(a: Deed) {
    a.StreamAck? || a.HeartbeatAck?
  }

  /** The turn brought a well-formed frame, and if that was a data message, its ingest has committed. */
  predicate Done(log: seq<Deed>, c: nat, t: Turn, streamId: int) {
    t.Turn? && t.item.result.Ok?
    && (t.item.result.value.Data? ==> Commit(c, streamId, t.item.result.value.message.persistentId) in log)
  }

  ghost predicate AllDone(log: seq<Deed>, c: nat, turns: seq<Turn>, n: nat)
    requires n <= |turns|
  {
    forall m :: 0 <= m < n ==> Done(log, c, turns[m], m + 1)
  }

  ghost predicate Covers(log: seq<Deed>, sessions: seq<Session>, c: nat, streamId: int) {
    && c < |sessions| && sessions[c].Session? && 1 <= streamId <= |sessions[c].turns|
    && AllDone(log, c, sessions[c].turns, streamId)
  }

  /** Whatever id is acknowledged, all data frames up to it were committed before. */
  ghost predicate AcksCovered(log: seq<Deed>, sessions: seq<Session>) {
    forall p :: 0 <= p < |log| && IsAck(log[p]) ==> Covers(log[..p], sessions, log[p].session, log[p].streamId)
  }

  ghost predicate Numbered(turns: seq<Turn>) {
    forall n :: 0 <= n < |turns| && turns[n].Turn? && turns[n].item.result.Ok? ==> turns[n].item.streamId == n + 1
  }

  ghost predicate AllNumbered(sessions: seq<Session>) {
    forall c :: 0 <= c < |sessions| && sessions[c].Session? ==> Numbered(sessions[c].turns)
  }

  lemma AppendKeepsCover(log: seq<Deed>, sessions: seq<Session>, a: Deed)
    requires AcksCovered(log, sessions)
    requires IsAck(a) ==> Covers(log, sessions, a.session, a.streamId)
    ensures AcksCovered(log + [a], sessions)
  {
    hide Covers;
    var more := log + [a];
    forall p | 0 <= p < |more| && IsAck(more[p])
      ensures Covers(more[..p], sessions, more[p].session, more[p].streamId)
    {
      if p < |log| {
        assert more[..p] == log[..p];
      } else {
        assert more[..p] == log;
      }
    }
  }

  lemma DoneGrows(log: seq<Deed>, a: Deed, c: nat, turns: seq<Turn>, n: nat)
    requires n <= |turns| && AllDone(log, c, turns, n)
    ensures AllDone(log + [a], c, turns, n)
  {
    forall m | 0 <= m < n ensures Done(log + [a], c, turns[m], m + 1) {
      assert Done(log, c, turns[m], m + 1);
    }
  }

  lemma DataTurnKeepsCover(
      cfg: Config, c: nat, st: Listener, sessions: seq<Session>, n: nat, data: DataMessage)
    requires c < |sessions| && sessions[c].Session? && n < |sessions[c].turns|
    requires var t := sessions[c].turns[n]; t.Turn? && t.item.result == Ok(Data(data)) && t.item.streamId == n + 1
    requires AcksCovered(st.log, sessions) && AllDone(st.log, c, sessions[c].turns, n)
    ensures var log := Ingest(cfg, c, st, n + 1, data).log;
            AcksCovered(log, sessions) && AllDone(log, c, sessions[c].turns, n + 1)
  {
    var turns := sessions[c].turns;
    var commit := Commit(c, n + 1, data.persistentId);
    AppendKeepsCover(st.log, sessions, commit);
    DoneGrows(st.log, commit, c, turns, n);
    assert Done(st.log + [commit], c, turns[n], n + 1);
    AppendKeepsCover(st.log + [commit], sessions, StreamAck(c, n + 1));
    DoneGrows(st.log + [commit], StreamAck(c, n + 1), c, turns, n + 1);
  }

  lemma PingTurnKeepsCover(c: nat, log: seq<Deed>, sessions: seq<Session>, n: nat)
    requires c < |sessions| && sessions[c].Session? && n < |sessions[c].turns|
    requires var t := sessions[c].turns[n]; t.Turn? && t.item.result == Ok(Ping)
    requires AcksCovered(log, sessions) && AllDone(log, c, sessions[c].turns, n)
    ensures AcksCovered(log + [HeartbeatAck(c, n + 1)], sessions)
    ensures AllDone(log + [HeartbeatAck(c, n + 1)], c, sessions[c].turns, n + 1)
  {
    assert Done(log, c, sessions[c].turns[n], n + 1);
    assert AllDone(log, c, sessions[c].turns, n + 1);
    AppendKeepsCover(log, sessions, HeartbeatAck(c, n + 1));
    DoneGrows(log, HeartbeatAck(c, n + 1), c, sessions[c].turns, n + 1);
  }

  lemma TurnKeepsCover(cfg: Config, c: nat, st: Listener, sessions: seq<Session>, n: nat)
    requires c < |sessions| && sessions[c].Session? && n < |sessions[c].turns| && Numbered(sessions[c].turns)
    requires AcksCovered(st.log, sessions) && AllDone(st.log, c, sessions[c].turns, n)
    ensures var (next, how) := TurnAfter(cfg, c, st, sessions[c].turns[n]);
            AcksCovered(next.log, sessions)
            && (how.Continue? ==> AllDone(next.log, c, sessions[c].turns, n + 1))
  {
    hide AcksCovered, Ingest;
    var t := sessions[c].turns[n];
    if t.Turn? {
      match t.item.result
      case Ok(Data(data)) =>
        DataTurnKeepsCover(cfg, c, st.(db := Interfered(cfg, st.db, t.tables)), sessions, n, data);
      case Ok(Ping) =>
        PingTurnKeepsCover(c, st.log, sessions, n);
      case _ =>
    }
  }

  lemma {:induction false} ListenKeepsCover(cfg: Config, c: nat, st: Listener, sessions: seq<Session>, n: nat)
    requires c < |sessions| && sessions[c].Session? && n <= |sessions[c].turns| && Numbered(sessions[c].turns)
    requires AcksCovered(st.log, sessions) && AllDone(st.log, c, sessions[c].turns, n)
    ensures AcksCovered(Listen(cfg, c, st, sessions[c].turns, n).0.log, sessions)
    decreases |sessions[c].turns| - n
  {
    hide AcksCovered, AllDone, Numbered, TurnAfter;
    if n < |sessions[c].turns| {
      TurnKeepsCover(cfg, c, st, sessions, n);
      var (next, how) := TurnAfter(cfg, c, st, sessions[c].turns[n]);
      if how.Continue? {
        ListenKeepsCover(cfg, c, next, sessions, n + 1);
      }
    }
  }

  lemma {:induction false} SessionsKeepCover(cfg: Config, st: Listener, sessions: seq<Session>, c: nat)
    requires c <= |sessions| && AllNumbered(sessions) && AcksCovered(st.log, sessions)
    ensures AcksCovered(Sessions(cfg, st, sessions, c).log, sessions)
    decreases |sessions| - c
  {
    hide AcksCovered, Numbered, Listen;
    if c < |sessions| {
      if sessions[c].Session? && LoginAccepts(st.queue) {
        AppendKeepsCover(st.log, sessions, Login(st.queue));
        ListenKeepsCover(cfg, c, st.(log := st.log + [Login(st.queue)]), sessions, 0);
      }
      SessionsKeepCover(cfg, SessionAfter(cfg, c, st, sessions[c]).0, sessions, c + 1);
    }
  }

  // ----- logins -----

  predicate CommittedIn(log: seq<Deed>, id: PersistentId) {
    exists q :: 0 <= q < |log| && log[q].Commit? && log[q].pid == Some(id)
  }

  ghost predicate Known(log: seq<Deed>, seed: seq<PersistentId>, ids: seq<PersistentId>) {
    forall id :: id in ids ==> id in seed || CommittedIn(log, id)
  }

  /** Every id sent in a login was committed before that login, by this task or before it was seeded. */
  ghost predicate LoginsCommitted(log: seq<Deed>, seed: seq<PersistentId>) {
    forall p :: 0 <= p < |log| && log[p].Login? ==> LoginAccepts(log[p].ids) && Known(log[..p], seed, log[p].ids)
  }

  lemma KnownGrows(
      log: seq<Deed>, a: Deed, seed: seq<PersistentId>, ids: seq<PersistentId>)
    requires Known(log, seed, ids)
    ensures Known(log + [a], seed, ids)
  {
    forall id | id in ids && id !in seed ensures CommittedIn(log + [a], id) {
      var q :| 0 <= q < |log| && log[q].Commit? && log[q].pid == Some(id);
      assert (log + [a])[q] == log[q];
    }
  }

  lemma AppendKeepsLogins(log: seq<Deed>, a: Deed, seed: seq<PersistentId>)
    requires LoginsCommitted(log, seed)
    requires a.Login? ==> LoginAccepts(a.ids) && Known(log, seed, a.ids)
    ensures LoginsCommitted(log + [a], seed)
  {
    hide Known, LoginAccepts;
    var more := log + [a];
    forall p | 0 <= p < |more| && more[p].Login?
      ensures LoginAccepts(more[p].ids) && Known(more[..p], seed, more[p].ids)
    {
      if p < |log| {
        assert more[..p] == log[..p];
      } else {
        assert more[..p] == log;
      }
    }
  }

  lemma LearnedIsKnown(
      log: seq<Deed>, c: nat, streamId: int, pid: Option<PersistentId>, seed: seq<PersistentId>,
      queue: seq<PersistentId>)
    requires Known(log, seed, queue)
    ensures Known(log + [Commit(c, streamId, pid)], seed, Learn(queue, pid))
  {
    var more := log + [Commit(c, streamId, pid)];
    KnownGrows(log, Commit(c, streamId, pid), seed, queue);
    assert pid.Some? ==> CommittedIn(more, pid.value) by {
      assert more[|log|] == Commit(c, streamId, pid);
    }
    hide CommittedIn;
    assert forall id :: id in Learn(queue, pid) ==> id in queue || Some(id) == pid;
  }

  ghost predicate LoginInv(st: Listener, seed: seq<PersistentId>) {
    LoginsCommitted(st.log, seed) && Known(st.log, seed, st.queue)
  }

  lemma TurnKeepsLogins(cfg: Config, c: nat, st: Listener, t: Turn, seed: seq<PersistentId>)
    requires LoginInv(st, seed)
    ensures LoginInv(TurnAfter(cfg, c, st, t).0, seed)
  {
    hide LoginsCommitted, Known, Learn;
    if t.Turn? {
      match t.item.result
      case Ok(Data(data)) =>
        var commit, ack := Commit(c, t.item.streamId, data.persistentId), StreamAck(c, t.item.streamId);
        AppendKeepsLogins(st.log, commit, seed);
        LearnedIsKnown(st.log, c, t.item.streamId, data.persistentId, seed, st.queue);
        AppendKeepsLogins(st.log + [commit], ack, seed);
        KnownGrows(st.log + [commit], ack, seed, Learn(st.queue, data.persistentId));
      case Ok(Ping) =>
        AppendKeepsLogins(st.log, HeartbeatAck(c, t.item.streamId), seed);
        KnownGrows(st.log, HeartbeatAck(c, t.item.streamId), seed, st.queue);
      case _ =>
    }
  }

  lemma {:induction false} ListenKeepsLogins(
      cfg: Config, c: nat, st: Listener, turns: seq<Turn>, n: nat, seed: seq<PersistentId>)
    requires LoginInv(st, seed) && n <= |turns|
    ensures LoginInv(Listen(cfg, c, st, turns, n).0, seed)
    decreases |turns| - n
  {
    hide LoginInv, TurnAfter;
    if n < |turns| {
      TurnKeepsLogins(cfg, c, st, turns[n], seed);
      if TurnAfter(cfg, c, st, turns[n]).1.Continue? {
        ListenKeepsLogins(cfg, c, TurnAfter(cfg, c, st, turns[n]).0, turns, n + 1, seed);
      }
    }
  }

  lemma {:induction false} SessionsKeepLogins(
      cfg: Config, st: Listener, sessions: seq<Session>, c: nat, seed: seq<PersistentId>)
    requires LoginInv(st, seed) && c <= |sessions|
    ensures LoginInv(Sessions(cfg, st, sessions, c), seed)
    decreases |sessions| - c
  {
    hide LoginsCommitted, Known, Listen;
    if c < |sessions| {
      if sessions[c].Session? && LoginAccepts(st.queue) {
        AppendKeepsLogins(st.log, Login(st.queue), seed);
        KnownGrows(st.log, Login(st.queue), seed, st.queue);
        ListenKeepsLogins(cfg, c, st.(log := st.log + [Login(st.queue)]), sessions[c].turns, 0, seed);
      }
      SessionsKeepLogins(cfg, SessionAfter(cfg, c, st, sessions[c]).0, sessions, c + 1, seed);
    }
  }

  // ----- all together -----

  /** The items of the session are what the decoder yields for some behaviour of the socket. */
  ghost predicate FromWire(turns: seq<Turn>, script: Script) {
    forall n :: 0 <= n < |turns| && turns[n].Turn? ==>
      n < |Drain(FRESH, script)| && turns[n].item == Drain(FRESH, script)[n]
  }

  lemma WireItemsAreNumbered(turns: seq<Turn>, script: Script)
    requires FromWire(turns, script)
    ensures Numbered(turns)
  {
    hide Drain;
    forall n | 0 <= n < |turns| && turns[n].Turn? && turns[n].item.result.Ok? ensures turns[n].item.streamId == n + 1 {
      DrainIsNumbered(FRESH, script, n);
    }
  }

  /** From a fresh start, over any connections and any chunking of their bytes: an acknowledged stream
      id covers only committed data frames, and a login carries only committed ids. */
  lemma AcksAndLoginsAreSafe(
      cfg: Config, st: Listener, sessions: seq<Session>, scripts: seq<Script>)
    requires st.log == [] && |scripts| == |sessions|
    requires forall c :: 0 <= c < |sessions| && sessions[c].Session? ==> FromWire(sessions[c].turns, scripts[c])
    ensures AcksCovered(Sessions(cfg, st, sessions, 0).log, sessions)
    ensures LoginsCommitted(Sessions(cfg, st, sessions, 0).log, st.queue)
  {
    assert AcksCovered(st.log, sessions) && LoginInv(st, st.queue);
    hide FromWire, Sessions, AcksCovered;
    forall c | 0 <= c < |sessions| && sessions[c].Session? ensures Numbered(sessions[c].turns) {
      WireItemsAreNumbered(sessions[c].turns, scripts[c]);
    }
    SessionsKeepCover(cfg, st, sessions, 0);
    SessionsKeepLogins(cfg, st, sessions, 0, st.queue);
  }
}
