/** One WebSocket connection: the code that runs between two waits, as methods.

    Each method is shown to do what the protocol's steps do, when no other task runs in between:
    `s` is the protocol state it starts from, and the state after it matches the one those steps reach. */
module SocketConnection {
  import opened Types
  import opened Tables
  import opened DeliveryProtocol
  import opened SocketHub
  import opened Database
  import I = Installations

  type Proof = string

  function States(m: map<InstallId, Attachment>): map<InstallId, AttachmentState> {
    map i | i in m :: m[i].state
  }

  /** The event loop drops an attachment whose ack was refused. */
  function AfterAck(s: State, k: nat, install: InstallId, id: nat): State
    requires k in s.conns
  {
    var t := DeliveryProtocol.Acknowledge(s, k, install, id);
    if t.conns[k].pc.Refused? then Restart(Drop(t, k, install), k) else t
  }

  lemma AckOkAt(s: State, k: nat, install: InstallId, id: nat)
    requires k in s.conns
    ensures AckOk(s, k, install, id) <==>
              install in States(s.conns[k].attachments) && States(s.conns[k].attachments)[install] == AwaitingAck(id)
              && id in s.db.outbox.rows && ForSocket(s.db.outbox.rows[id], install)
  {
  }

  lemma StatesAt(m: map<InstallId, Attachment>, i: InstallId)
    ensures i in States(m) <==> i in m
    ensures i in m ==> States(m)[i] == m[i].state
  {
  }

  /** What dropping an attachment does, as far as the connection can see. */
  lemma DropView(s: State, k: nat, i: InstallId)
    requires k in s.conns
    ensures var t := Drop(s, k, i);
            && k in t.conns && t.db == s.db
            && SameHub(if i in s.conns[k].attachments then HubDetach(s, k, i) else s, t)
            && States(t.conns[k].attachments) == States(s.conns[k].attachments) - {i}
  {
  }

  predicate AckOk(s: State, k: nat, install: InstallId, id: nat)
    requires k in s.conns
  {
    var m := s.conns[k].attachments;
    install in m && m[install].state == AwaitingAck(id)
    && id in s.db.outbox.rows && ForSocket(s.db.outbox.rows[id], install)
  }

  lemma AckedView(s: State, k: nat, install: InstallId, id: nat)
    requires k in s.conns && AckOk(s, k, install, id)
    ensures var t := AfterAck(s, k, install, id);
            k in t.conns && SameHub(s, t) && t.db == s.db.(outbox := Delete(s.db.outbox, {id}))
            && States(t.conns[k].attachments) == States(s.conns[k].attachments)[install := Ready(id)]
  {
  }

  lemma PcIsNotSeen(s: State, k: nat, pc: Pc)
    requires k in s.conns
    ensures var t := SetPc(s, k, pc);
            k in t.conns && SameHub(s, t) && t.db == s.db && t.conns[k].attachments == s.conns[k].attachments
  {
  }

  lemma DropIgnoresPc(s: State, k: nat, pc: Pc, install: InstallId)
    requires k in s.conns
    ensures var d, t := Drop(s, k, install), Drop(SetPc(s, k, pc), k, install);
            && k in t.conns && k in d.conns && SameHub(d, t) && t.db == d.db
            && t.conns[k].attachments == d.conns[k].attachments
  {
  }

  lemma RefusedView(s: State, k: nat, install: InstallId, id: nat)
    requires k in s.conns && !AckOk(s, k, install, id)
    ensures var t, d := AfterAck(s, k, install, id), Drop(s, k, install);
            k in t.conns && k in d.conns && SameHub(d, t) && t.db == d.db
            && t.conns[k].attachments == d.conns[k].attachments
  {
    hide Drop, SameHub;
    DropIgnoresPc(s, k, Refused(install), install);
    var d, r := Drop(s, k, install), Drop(SetPc(s, k, Refused(install)), k, install);
    PcIsNotSeen(d, k, Scan(d.conns[k].attachments.Keys, []));
    PcIsNotSeen(r, k, Scan(r.conns[k].attachments.Keys, []));
    SameHubTransitively(d, r, SetPc(r, k, Scan(r.conns[k].attachments.Keys, [])));
  }

  function Taken(s: State, k: nat): State
    requires k in s.conns && s.conns[k].events != []
  {
    SetConn(s, k, s.conns[k].(events := s.conns[k].events[1..]))
  }

  lemma EventTaken(s: State, k: nat)
    requires k in s.conns && s.conns[k].pc.Parked? && s.conns[k].events != []
    ensures Step(s, Act(k, TakeEvent)).Some?
    ensures var t, taken, e := Step(s, Act(k, TakeEvent)).value, Taken(s, k), s.conns[k].events[0];
            var d := if e.Wake? then taken else Drop(taken, k, e.install);
            k in taken.conns && k in d.conns && k in t.conns && SameHub(d, t) && t.db == d.db
            && t.conns[k].attachments == d.conns[k].attachments
  {
  }

  /** The steps of an accepted attach. */
  function AttachSteps(k: nat, install: InstallId, presented: int): seq<Label> {
    [Act(k, BeginAttach(install, presented)), Act(k, ReadMaximum), Act(k, ApplyCursor), Act(k, Join)]
  }

  /** Where they stand before the hub call. */
  ghost function Applied(s: State, k: nat, install: InstallId, presented: int): State
    requires k in s.conns
  {
    var cursor := Clamp(presented, MaxId(s.db.outbox));
    var honest := HasReceived(s.past, install, presented);
    var outbox := Delete(s.db.outbox, SocketUpTo(s.db.outbox, install, cursor));
    SetPc(SetOutbox(s, outbox, Resumed(install, presented, honest)), k, Joining(install, presented, honest, cursor))
  }

  lemma BeginStep(s: State, k: nat, install: InstallId, presented: int)
    requires k in s.conns && s.conns[k].pc.Parked?
    ensures Step(s, Act(k, BeginAttach(install, presented)))
         == Some(SetPc(s, k, Clamping(install, presented, HasReceived(s.past, install, presented))))
  {
  }

  lemma ReadStep(s: State, k: nat, install: InstallId, presented: int, honest: bool)
    requires k in s.conns && s.conns[k].pc == Clamping(install, presented, honest)
    ensures Step(s, Act(k, ReadMaximum))
         == Some(SetPc(s, k, Applying(install, presented, honest, Clamp(presented, MaxId(s.db.outbox)))))
  {
  }

  lemma ApplyStep(s: State, k: nat, install: InstallId, presented: int, honest: bool, cursor: int)
    requires k in s.conns && s.conns[k].pc == Applying(install, presented, honest, cursor)
    ensures var outbox := Delete(s.db.outbox, SocketUpTo(s.db.outbox, install, cursor));
            Step(s, Act(k, ApplyCursor))
            == Some(SetPc(SetOutbox(s, outbox, Resumed(install, presented, honest)), k,
                          Joining(install, presented, honest, cursor)))
  {
  }

  lemma JoinStep(s: State, k: nat)
    requires k in s.conns && s.conns[k].pc.Joining?
    ensures Step(s, Act(k, Join)) == Some(JoinHub(s, k))
  {
  }

  lemma ApplyingSteps(s: State, k: nat, install: InstallId, presented: int)
    returns (s1: State, s2: State)
    requires k in s.conns && s.conns[k].pc.Parked?
    ensures Step(s, Act(k, BeginAttach(install, presented))) == Some(s1) && Step(s1, Act(k, ReadMaximum)) == Some(s2)
    ensures Step(s2, Act(k, ApplyCursor)) == Some(Applied(s, k, install, presented))
  {
    hide Step, MaxId, HasReceived, SocketUpTo, Delete;
    var honest := HasReceived(s.past, install, presented);
    var cursor := Clamp(presented, MaxId(s.db.outbox));
    BeginStep(s, k, install, presented);
    s1 := SetPc(s, k, Clamping(install, presented, honest));
    ReadStep(s1, k, install, presented, honest);
    s2 := SetPc(s1, k, Applying(install, presented, honest, cursor));
    ApplyStep(s2, k, install, presented, honest, cursor);
    assert Step(s2, Act(k, ApplyCursor)).value.conns == Applied(s, k, install, presented).conns;
  }

  /** An attach that no other step interrupts is the run of its four steps. */
  lemma AttachIsARun(s: State, k: nat, install: InstallId, presented: int)
    requires k in s.conns && s.conns[k].pc.Parked?
    ensures var t := Applied(s, k, install, presented);
            k in t.conns && t.conns[k].pc.Joining? && Run(s, AttachSteps(k, install, presented)) == Some(JoinHub(t, k))
  {
    hide Step, Applied, JoinHub, Run;
    AppliedView(s, k, install, presented);
    var s1, s2 := ApplyingSteps(s, k, install, presented);
    var t := Applied(s, k, install, presented);
    JoinStep(t, k);
    RunFour(s, Act(k, BeginAttach(install, presented)), s1, Act(k, ReadMaximum), s2, Act(k, ApplyCursor), t,
            Act(k, Action.Join), JoinHub(t, k));
  }

  lemma RunFour(
      s0: State, a: Label, s1: State, b: Label, s2: State, c: Label, s3: State, d: Label, s4: State)
    requires Step(s0, a) == Some(s1) && Step(s1, b) == Some(s2) && Step(s2, c) == Some(s3) && Step(s3, d) == Some(s4)
    ensures Run(s0, [a, b, c, d]) == Some(s4)
  {
    hide Step;
    assert [a, b, c, d][1..] == [b, c, d] && [b, c, d][1..] == [c, d] && [c, d][1..] == [d] && [d][1..] == [];
    assert Run(s4, []) == Some(s4);
    assert Run(s3, [d]) == Some(s4);
    assert Run(s2, [c, d]) == Some(s4);
    assert Run(s1, [b, c, d]) == Some(s4);
  }

  lemma AppliedView(s: State, k: nat, install: InstallId, presented: int)
    requires k in s.conns
    ensures var t, cursor := Applied(s, k, install, presented), Clamp(presented, MaxId(s.db.outbox));
            k in t.conns && SameHub(s, t)
            && t.db == s.db.(outbox := Delete(s.db.outbox, SocketUpTo(s.db.outbox, install, cursor)))
            && t.conns[k].attachments == s.conns[k].attachments
            && t.conns[k].pc.Joining? && t.conns[k].pc.install == install && t.conns[k].pc.cursor == cursor
  {
  }

  lemma JoinedView(s: State, k: nat)
    requires k in s.conns && s.conns[k].pc.Joining?
    ensures var t, h, pc := JoinHub(s, k), HubAttach(s, k, s.conns[k].pc.install), s.conns[k].pc;
            SameHub(h, t) && t.db == s.db && k in t.conns
            && States(t.conns[k].attachments) == States(s.conns[k].attachments)[pc.install := Ready(pc.cursor)]
  {
  }

  lemma VisitView(s: State, k: nat, install: InstallId)
    requires k in s.conns && s.conns[k].pc.Scan?
    ensures var c, t := s.conns[k], VisitInstall(s, k, install);
            var ready := install in c.attachments && c.attachments[install].state.Ready?;
            var next := if ready
                        then NextSocketMessage(s.db.outbox, install, c.attachments[install].state.cursor) else None;
            k in t.conns && SameHub(s, t) && t.db == s.db
            && States(t.conns[k].attachments)
               == (if next.Some? then States(c.attachments)[install := AwaitingAck(next.value)]
                   else States(c.attachments))
            && (install in c.pc.todo ==> Step(s, Act(k, Visit(install))) == Some(t))
            && t.conns[k].pc == Scan(c.pc.todo - {install},
                                     c.pc.frames + if next.Some? then [Frame(install, next.value)] else [])
  {
  }

  lemma ReleaseIsDrop(s: State, k: nat, install: InstallId)
    requires k in s.conns && s.conns[k].pc.Closing? && install in s.conns[k].attachments
    ensures var t := Drop(s, k, install);
            Step(s, Act(k, Release(install))) == Some(t) && k in t.conns && t.conns[k].pc.Closing?
  {
  }

  lemma RunNothing(s: State)
    ensures Run(s, []) == Some(s)
  {
  }

  lemma {:induction false} RunOneMore(s: State, steps: seq<Label>, t: State, l: Label, next: State)
    requires Run(s, steps) == Some(t) && Step(t, l) == Some(next)
    ensures Run(s, steps + [l]) == Some(next)
    decreases |steps|
  {
    hide Step;
    if steps == [] {
      assert [] + [l] == [l] && [l][1..] == [];
      assert Run(next, []) == Some(next);
    } else {
      assert (steps + [l])[1..] == steps[1..] + [l];
      RunOneMore(Step(s, steps[0]).value, steps[1..], t, l, next);
    }
  }

  class V2Connection {
    const db: Database
    const hub: SocketHub
    const connectionId: nat
    const eventSender: EventQueue
    const accepts: (I.Secret, InstallId, Proof) -> bool // the keyed proof over this connection's nonce
    var attachments: map<InstallId, AttachmentState>

    /** The protocol state agrees with everything this connection can see. */
    ghost predicate Matches(s: State)
      reads this, db, hub, hub.queues.Values
    {
      && hub.Valid() && hub.Matches(s) && s.db == db.View()
      && connectionId in s.conns && hub.queues[connectionId] == eventSender
      && States(s.conns[connectionId].attachments) == attachments
    }

    constructor (db: Database, hub: SocketHub, accepts: (I.Secret, InstallId, Proof) -> bool, ghost s: State)
      requires hub.Valid() && hub.Matches(s) && s.db == db.View()
      modifies hub`nextId, hub`queues
      ensures this.db == db && this.hub == hub && connectionId == s.nextConn
      ensures Step(s, Open).Some? && Matches(Step(s, Open).value)
    {
      OpenAdds(s);
      hide Step;
      var id, queue := hub.NewConnection(s);
      this.db := db;
      this.hub := hub;
      this.accepts := accepts;
      connectionId := id;
      eventSender := queue;
      attachments := map[];
    }

    /** The queue holds the events that the protocol state says are waiting. */
    lemma EventsWaiting(s: State)
      requires Matches(s)
      ensures s.conns[connectionId].events == eventSender.events
      ensures eventSender in hub.queues.Values
    {
      assert connectionId in hub.queues;
    }

    lemma MatchesMeans(s: State)
      ensures Matches(s) <==>
                && hub.Valid() && hub.Matches(s) && s.db == Db(db.outbox, db.acked, db.connectors)
                && connectionId in s.conns && hub.queues[connectionId] == eventSender
                && States(s.conns[connectionId].attachments) == attachments
    {
    }

    method Detach(install: InstallId, ghost s: State) returns (removed: bool)
      requires Matches(s)
      modifies this`attachments, hub`attachments
      ensures Matches(Drop(s, connectionId, install))
      ensures removed <==> install in old(attachments)
      ensures attachments == old(attachments) - {install}
    {
      hide *;
      MatchesMeans(s);
      DropView(s, connectionId, install);
      StatesAt(s.conns[connectionId].attachments, install);
      ghost var t := Drop(s, connectionId, install);
      removed := install in attachments;
      if removed {
        attachments := attachments - {install};
        hub.Detach(install, connectionId, s);
        hub.MatchesSame(HubDetach(s, connectionId, install), t);
      } else {
        hub.MatchesSame(s, t);
      }
      MatchesMeans(t);
    }

    /** Succeeds exactly for the id this attachment waits for, while its row is still there. */
    method Acknowledge(install: InstallId, id: nat) returns (ok: bool)
      modifies this`attachments, db`outbox
      ensures ok <==> install in old(attachments) && old(attachments)[install] == AwaitingAck(id)
                      && id in old(db.outbox).rows && ForSocket(old(db.outbox).rows[id], install)
      ensures db.outbox == if ok then Delete(old(db.outbox), {id}) else old(db.outbox)
      ensures attachments == if ok then old(attachments)[install := Ready(id)] else old(attachments)
    {
      if install !in attachments || attachments[install] != AwaitingAck(id) {
        return false;
      }
      ok := db.AckSocketMessage(install, id);
      if ok {
        attachments := attachments[install := Ready(id)];
      }
    }

    lemma MatchesSame(s: State, t: State)
      requires Matches(s) && SameHub(s, t) && t.db == s.db
      requires States(t.conns[connectionId].attachments) == attachments
      ensures Matches(t)
    {
      hub.MatchesSame(s, t);
    }

    /** The event loop's turn for an ack frame. */
    method HandleAck(install: InstallId, id: nat, ghost s: State)
      requires Matches(s)
      modifies this`attachments, hub`attachments, db`outbox
      ensures Matches(AfterAck(s, connectionId, install, id))
    {
      hide *;
      MatchesMeans(s);
      AckOkAt(s, connectionId, install, id);
      var ok := Acknowledge(install, id);
      ghost var t := AfterAck(s, connectionId, install, id);
      if ok {
        AckedView(s, connectionId, install, id);
        hub.MatchesSame(s, t);
        MatchesMeans(t);
      } else {
        RefusedView(s, connectionId, install, id);
        MatchesMeans(s);
        var _ := Detach(install, s);
        MatchesMeans(Drop(s, connectionId, install));
        MatchesSame(Drop(s, connectionId, install), t);
      }
    }

    method NextEvent(ghost s: State) returns (e: Event)
      requires Matches(s) && eventSender.events != []
      modifies eventSender
      ensures s.conns[connectionId].events != [] && e == s.conns[connectionId].events[0]
      ensures Matches(Taken(s, connectionId))
    {
      EventsWaiting(s);
      e := eventSender.Receive();
    }

    /** The event loop's turn for an event from the hub. */
    method HandleEvent(ghost s: State)
      requires Matches(s) && s.conns[connectionId].pc.Parked? && eventSender.events != []
      modifies this`attachments, hub`attachments, eventSender
      ensures Step(s, Act(connectionId, TakeEvent)).Some?
      ensures Matches(Step(s, Act(connectionId, TakeEvent)).value)
    {
      hide *;
      MatchesMeans(s);
      EventsWaiting(s);
      EventTaken(s, connectionId);
      var e := NextEvent(s);
      ghost var t := Step(s, Act(connectionId, TakeEvent)).value;
      ghost var taken := Taken(s, connectionId);
      MatchesMeans(taken);
      if e.Replaced? {
        var _ := Detach(e.install, taken);
        MatchesMeans(Drop(taken, connectionId, e.install));
        MatchesSame(Drop(taken, connectionId, e.install), t);
      } else {
        MatchesSame(taken, t);
      }
    }

    /** A refused proof changes nothing; an accepted one does what the four steps of an attach do. */
    method Attach(install: InstallId, proof: Proof, presented: int, ghost s: State) returns (ok: bool)
      requires Matches(s) && s.conns[connectionId].pc.Parked?
      modifies this`attachments, db`outbox, hub`attachments, hub.queues.Values
      ensures ok <==> install in db.installs && db.installs[install].secret.Some?
                      && accepts(db.installs[install].secret.value, install, proof)
      ensures !ok ==> Matches(s)
      ensures ok ==> Applied(s, connectionId, install, presented).conns[connectionId].pc.Joining?
      ensures ok ==> Matches(JoinHub(Applied(s, connectionId, install, presented), connectionId))
    {
      hide *;
      ok := Authenticate(install, proof);
      if ok {
        Accept(install, presented, s);
      }
    }

    method Accept(install: InstallId, presented: int, ghost s: State)
      requires Matches(s)
      modifies this`attachments, db`outbox, hub`attachments, hub.queues.Values
      ensures Applied(s, connectionId, install, presented).conns[connectionId].pc.Joining?
      ensures Matches(JoinHub(Applied(s, connectionId, install, presented), connectionId))
    {
      hide *;
      MatchesMeans(s);
      AppliedView(s, connectionId, install, presented);
      var cursor := Resume(install, presented, s);
      Join(install, cursor, Applied(s, connectionId, install, presented));
    }

    method Authenticate(install: InstallId, proof: Proof) returns (ok: bool)
      ensures ok <==> install in db.installs && db.installs[install].secret.Some?
                      && accepts(db.installs[install].secret.value, install, proof)
    {
      if install !in db.installs || db.installs[install].secret.None? {
        return false;
      }
      ok := accepts(db.installs[install].secret.value, install, proof);
    }

    /** Clamps the presented cursor and deletes what it proves received. */
    method Resume(install: InstallId, presented: int, ghost s: State) returns (cursor: int)
      requires Matches(s)
      modifies db`outbox
      ensures cursor == Clamp(presented, MaxId(old(db.outbox)))
      ensures db.outbox == Delete(old(db.outbox), SocketUpTo(old(db.outbox), install, cursor))
      ensures var t := Applied(s, connectionId, install, presented);
              Matches(t) && t.conns[connectionId].pc.Joining?
              && t.conns[connectionId].pc.install == install && t.conns[connectionId].pc.cursor == cursor
    {
      hide *;
      MatchesMeans(s);
      AppliedView(s, connectionId, install, presented);
      ghost var t := Applied(s, connectionId, install, presented);
      hub.MatchesSame(s, t);
      var maximum := db.MaxOutboxId();
      cursor := Clamp(presented, maximum);
      var _ := db.AckSocketThrough(install, cursor);
      MatchesMeans(t);
    }

    method Join(install: InstallId, cursor: int, ghost s: State)
      requires Matches(s)
      requires s.conns[connectionId].pc.Joining? && s.conns[connectionId].pc.install == install
      requires s.conns[connectionId].pc.cursor == cursor
      modifies this`attachments, hub`attachments, hub.queues.Values
      ensures Matches(JoinHub(s, connectionId))
    {
      hide *;
      MatchesMeans(s);
      JoinedView(s, connectionId);
      ghost var t := JoinHub(s, connectionId);
      hub.Knows(s, connectionId);
      hub.Attach(install, connectionId, eventSender, s);
      attachments := attachments[install := Ready(cursor)];
      hub.MatchesSame(HubAttach(s, connectionId, install), t);
      MatchesMeans(t);
    }

    /** Reads the next message of every install that is not waiting for an ack; `steps` is the order taken. */
    method PendingMessages(ghost s: State) returns (frames: seq<Frame>, ghost steps: seq<Label>)
      requires Matches(s) && s.conns[connectionId].pc == Scan(attachments.Keys, [])
      modifies this`attachments
      ensures forall l :: l in steps ==> l.Act? && l.conn == connectionId && l.action.Visit?
      ensures Run(s, steps).Some? && Scanned(Run(s, steps).value, {}, frames)
    {
      hide Run, Matches, Step;
      var todo := attachments.Keys;
      frames, steps := [], [];
      ghost var t := s;
      assert Run(s, steps) == Some(t) by { RunNothing(s); }
      while todo != {}
        invariant forall l :: l in steps ==> l.Act? && l.conn == connectionId && l.action.Visit?
        invariant Run(s, steps) == Some(t) && Scanned(t, todo, frames)
        decreases todo
      {
        var install :| install in todo;
        ghost var next;
        frames, next := VisitOne(install, t, todo, frames);
        RunOneMore(s, steps, t, Act(connectionId, Visit(install)), next);
        t, steps, todo := next, steps + [Act(connectionId, Visit(install))], todo - {install};
      }
    }

    ghost predicate Scanned(t: State, todo: set<InstallId>, frames: seq<Frame>)
      reads this, db, hub, hub.queues.Values
    {
      Matches(t) && t.conns[connectionId].pc == Scan(todo, frames)
    }

    lemma ScannedMeans(t: State, todo: set<InstallId>, frames: seq<Frame>)
      ensures Scanned(t, todo, frames) <==>
                && hub.Valid() && hub.Matches(t) && t.db == Db(db.outbox, db.acked, db.connectors)
                && connectionId in t.conns && hub.queues[connectionId] == eventSender
                && States(t.conns[connectionId].attachments) == attachments
                && t.conns[connectionId].pc == Scan(todo, frames)
    {
    }

    method VisitOne(install: InstallId, ghost t: State, ghost todo: set<InstallId>, frames: seq<Frame>)
      returns (more: seq<Frame>, ghost next: State)
      requires Scanned(t, todo, frames) && install in todo
      modifies this`attachments
      ensures Step(t, Act(connectionId, Visit(install))) == Some(next) && Scanned(next, todo - {install}, more)
    {
      hide *;
      ScannedMeans(t, todo, frames);
      VisitView(t, connectionId, install);
      StatesAt(t.conns[connectionId].attachments, install);
      next := VisitInstall(t, connectionId, install);
      hub.MatchesSame(t, next);
      more := frames;
      if install in attachments && attachments[install].Ready? {
        var message := db.NextSocketMessage(install, attachments[install].cursor);
        if message.Some? {
          attachments := attachments[install := AwaitingAck(message.value)];
          more := frames + [Frame(install, message.value)];
        }
      }
      ScannedMeans(next, todo - {install}, more);
    }

    /** Gives up every attachment; `steps` is the order taken. */
    method Shutdown(ghost s: State) returns (ghost steps: seq<Label>)
      requires Matches(s) && s.conns[connectionId].pc.Closing?
      modifies this`attachments, hub`attachments
      ensures attachments == map[]
      ensures forall l :: l in steps ==> l.Act? && l.conn == connectionId && l.action.Release?
      ensures Run(s, steps).Some? && Matches(Run(s, steps).value)
    {
      hide Run, Step;
      var todo := attachments.Keys;
      steps := [];
      ghost var t := s;
      assert Run(s, steps) == Some(t) by { RunNothing(s); }
      while todo != {}
        invariant forall l :: l in steps ==> l.Act? && l.conn == connectionId && l.action.Release?
        invariant Run(s, steps) == Some(t) && Matches(t) && t.conns[connectionId].pc.Closing?
        invariant todo == attachments.Keys
        decreases todo
      {
        var install :| install in todo;
        var _ := Detach(install, t);
        ghost var next := Drop(t, connectionId, install);
        ReleaseIsDrop(t, connectionId, install);
        RunOneMore(s, steps, t, Act(connectionId, Release(install)), next);
        t, steps, todo := next, steps + [Act(connectionId, Release(install))], todo - {install};
      }
    }
  }
}
