/** What the delivery protocol guarantees, over every run of it. */
module DeliveryTheorems {
  import opened Types
  import opened Tables
  import opened DeliveryProtocol
  import opened DeliveryInvariant

  // ----- delivery never goes backwards -----

  /** The ids read for one install never go down, over all its connections; within one attachment
      they go up strictly; and nothing older than an id already read is still waiting. */
  lemma DeliveryNeverGoesBackwards(s: State)
    requires Reachable(s)
    ensures forall p, q :: 0 <= p < q < |s.past.log| && s.past.log[p].install == s.past.log[q].install
              ==> s.past.log[p].id <= s.past.log[q].id
    ensures forall k, i :: k in s.conns && i in s.conns[k].attachments ==>
              var sent := s.conns[k].attachments[i].sent;
              && (forall p, q :: 0 <= p < q < |sent| ==> sent[p] < sent[q])
              && (forall x :: x in sent ==> Frame(i, x) in s.past.log)
    ensures forall f, id :: f in s.past.log && id in s.db.outbox.rows ==>
              (ForSocket(s.db.outbox.rows[id], f.install) ==> f.id <= id)
  {
    ReachableInv(s);
    forall k, i | k in s.conns && i in s.conns[k].attachments
      ensures AttachmentOk(s.db.outbox, s.past, i, s.conns[k].attachments[i])
    {
      assert ConnOk(s.db.outbox, s.past, s.conns[k]);
    }
    forall f, id | f in s.past.log && id in s.db.outbox.rows && ForSocket(s.db.outbox.rows[id], f.install)
      ensures f.id <= id
    {
      assert LowWater(s.db.outbox, f.install, f.id - 1);
    }
  }

  /** `Ready(c)` means no row up to c is left, `AwaitingAck(m)` that none before m is. */
  lemma AttachmentsSitAtLowWater(s: State, k: nat, i: InstallId)
    requires Reachable(s) && k in s.conns && i in s.conns[k].attachments
    ensures match s.conns[k].attachments[i].state
            case Ready(cursor) => SocketUpTo(s.db.outbox, i, cursor) == {}
            case AwaitingAck(id) => SocketUpTo(s.db.outbox, i, id - 1) == {}
  {
    ReachableInv(s);
    var a := s.conns[k].attachments[i];
    assert ConnOk(s.db.outbox, s.past, s.conns[k]);
    assert AttachmentOk(s.db.outbox, s.past, i, a);
    if a.state.AwaitingAck? {
      assert LowWater(s.db.outbox, i, a.state.id - 1);
    }
  }

  /** History is never rewritten: a run only appends to the read log and only adds ids. */
  lemma {:induction false} RunsExtendHistory(s: State, steps: seq<Label>, t: State)
    requires Inv(s) && Run(s, steps) == Some(t)
    ensures s.past.log <= t.past.log && s.past.received <= t.past.received
    ensures s.db.outbox.lastId <= t.db.outbox.lastId
    decreases |steps|
  {
    if steps != [] {
      var mid := Step(s, steps[0]).value;
      StepKeepsInv(s, steps[0], mid);
      StepExtendsHistory(s, steps[0], mid);
      RunsExtendHistory(mid, steps[1..], t);
    }
  }

  ghost predicate Extends(s: State, t: State) {
    s.past.log <= t.past.log && s.past.received <= t.past.received && s.db.outbox.lastId <= t.db.outbox.lastId
  }

  lemma OutsideExtendsHistory(s: State, op: Operation, t: State)
    requires Outcome(s, op) == Some(t)
    ensures Extends(s, t)
  {
  }

  lemma ActionExtendsHistory(s: State, k: nat, action: Action, t: State)
    requires k in s.conns && Proceed(s, k, action) == Some(t)
    ensures Extends(s, t)
  {
    match action
    case ClientAck(install, id) => AckExtendsHistory(s, k, install, id);
    case Join => JoinExtendsHistory(s, k);
    case _ =>
  }

  lemma AckExtendsHistory(s: State, k: nat, i: InstallId, id: nat)
    requires k in s.conns
    ensures Extends(s, Acknowledge(s, k, i, id))
  {
  }

  lemma JoinExtendsHistory(s: State, k: nat)
    requires k in s.conns && s.conns[k].pc.Joining?
    ensures Extends(s, JoinHub(s, k))
  {
  }

  lemma StepExtendsHistory(s: State, l: Label, t: State)
    requires Step(s, l) == Some(t)
    ensures Extends(s, t)
  {
    match l
    case Outside(op) => OutsideExtendsHistory(s, op, t);
    case Act(k, action) => ActionExtendsHistory(s, k, action, t);
    case _ =>
  }

  // ----- ids -----

  /** Rows keep their ids, and ids their rows. */
  ghost predicate IdsKept(s: State, t: State) {
    && Evolves(s.db.outbox, t.db.outbox)
    && forall id :: id in s.past.inserted ==> id in t.past.inserted && t.past.inserted[id] == s.past.inserted[id]
  }

  lemma RecordKeepsIds(s: State, t: State, cause: Cause)
    requires RowsAccounted(s.db.outbox, s.past) && Evolves(s.db.outbox, t.db.outbox)
    requires t.past == Record(s.past, s.db.outbox, t.db.outbox, cause)
    ensures IdsKept(s, t)
  {
    hide Justified;
  }

  lemma OutsideKeepsIds(s: State, op: Operation, t: State)
    requires RowsAccounted(s.db.outbox, s.past) && Outcome(s, op) == Some(t)
    ensures IdsKept(s, t)
  {
    hide Justified, RowsAccounted, Record;
    match op
    case Connect(_, _, _, _, _) =>
    case LoadDue(_) =>
    case FcmArrives(_, _, _, _, _) => RecordKeepsIds(s, t, Forwarded);
    case PushArrives(_, _, _, _) => RecordKeepsIds(s, t, Forwarded);
    case FinishForward(_) => RecordKeepsIds(s, t, Forwarded);
    case Unregister(install, app) => RecordKeepsIds(s, t, Unregistered(install, app));
    case Disconnect(install, app, token) => RecordKeepsIds(s, t, Disconnected(install, app, token));
    case Reconcile(install, retained) => RecordKeepsIds(s, t, Reconciled(install, retained));
  }

  lemma AckKeepsIds(s: State, k: nat, i: InstallId, id: nat)
    requires k in s.conns && RowsAccounted(s.db.outbox, s.past)
    ensures IdsKept(s, Acknowledge(s, k, i, id))
  {
    hide Justified, RowsAccounted, Record;
    var t := Acknowledge(s, k, i, id);
    if t.db.outbox != s.db.outbox {
      RecordKeepsIds(s, t, Acked(i, HasReceived(s.past, i, id)));
    }
  }

  lemma JoinKeepsIds(s: State, k: nat)
    requires k in s.conns && s.conns[k].pc.Joining?
    ensures JoinHub(s, k).past == s.past && JoinHub(s, k).db == s.db
  {
  }

  lemma ActionKeepsIds(s: State, k: nat, action: Action, t: State)
    requires k in s.conns && Proceed(s, k, action) == Some(t) && RowsAccounted(s.db.outbox, s.past)
    ensures IdsKept(s, t)
  {
    hide Justified, RowsAccounted, Record, Acknowledge, JoinHub, MaxId, SocketUpTo, NextSocketMessage, HasReceived;
    match action
    case ClientAck(install, id) => AckKeepsIds(s, k, install, id);
    case Join => JoinKeepsIds(s, k);
    case ApplyCursor =>
      var pc := s.conns[k].pc;
      RecordKeepsIds(s, t, Resumed(pc.install, pc.presented, pc.honest));
    case _ =>
  }

  lemma StepKeepsIds(s: State, l: Label, t: State)
    requires RowsAccounted(s.db.outbox, s.past) && Step(s, l) == Some(t)
    ensures IdsKept(s, t)
  {
    hide Outcome, Proceed, RowsAccounted;
    match l
    case Outside(op) => OutsideKeepsIds(s, op, t);
    case Act(k, action) => ActionKeepsIds(s, k, action, t);
    case _ =>
  }

  /** An id names one message for ever, through restarts of the bridge: a run never gives the id of
      a message, present or gone, to another one. */
  lemma {:induction false} IdsAreNeverReused(s: State, steps: seq<Label>, t: State)
    requires Inv(s) && Run(s, steps) == Some(t)
    ensures forall id :: id in s.past.inserted ==>
              id in t.past.inserted && t.past.inserted[id] == s.past.inserted[id]
              && (id in t.db.outbox.rows ==> id in s.db.outbox.rows)
    decreases |steps|
  {
    hide Step, ConnsOk, LogOk, HubOk, WakeOk, HeldOk, Justified;
    if steps != [] {
      var mid := Step(s, steps[0]).value;
      StepKeepsInv(s, steps[0], mid);
      StepKeepsIds(s, steps[0], mid);
      IdsAreNeverReused(mid, steps[1..], t);
    }
  }

  // ----- the resume cursor -----

  /** On an attachment resumed with an id the client had received, only later ids are sent,
      even when the clamp lowered the cursor because the outbox had drained. */
  lemma HonestCursorIsNeverReplayed(s: State, k: nat, i: InstallId)
    requires Reachable(s) && k in s.conns && i in s.conns[k].attachments
    requires s.conns[k].attachments[i].resumed.Some?
    ensures forall x :: x in s.conns[k].attachments[i].sent ==> x > s.conns[k].attachments[i].resumed.value
    ensures SocketUpTo(s.db.outbox, i, s.conns[k].attachments[i].resumed.value) == {}
  {
    ReachableInv(s);
    assert ConnOk(s.db.outbox, s.past, s.conns[k]);
    assert AttachmentOk(s.db.outbox, s.past, i, s.conns[k].attachments[i]);
  }

  /** A resume with a received id removes at most that one row. */
  lemma HonestResumeRemovesAtMostOneRow(s: State, k: nat)
    requires Reachable(s) && k in s.conns && s.conns[k].pc.Applying? && s.conns[k].pc.honest
    ensures var pc := s.conns[k].pc;
            |SocketUpTo(s.db.outbox, pc.install, pc.cursor)| <= 1
  {
    ReachableInv(s);
    var pc := s.conns[k].pc;
    var gone := SocketUpTo(s.db.outbox, pc.install, pc.cursor);
    if gone != {} {
      var id :| id in gone;
      forall x | x in gone ensures x == id {
        HonestResumeRemovesOne(s, k, x);
        HonestResumeRemovesOne(s, k, id);
      }
      assert gone == {id};
    }
  }

  // ----- hub ownership -----

  /** The owner has the install attached, and every other connection that has it attached has been told. */
  lemma HubOwnership(s: State)
    requires Reachable(s)
    ensures forall i :: i in s.hub ==> s.hub[i] in s.conns && i in s.conns[s.hub[i]].attachments
    ensures forall k, i :: k in s.conns && i in s.conns[k].attachments && !(i in s.hub && s.hub[i] == k)
              ==> Replaced(i) in s.conns[k].events
  {
    ReachableInv(s);
  }

  /** Giving up an attachment takes the install from the hub only if this connection owned it. */
  lemma DropNeverEvictsAnotherOwner(s: State, k: nat, i: InstallId, j: InstallId)
    requires k in s.conns && j in s.hub && (s.hub[j] != k || j != i)
    ensures var t := Drop(s, k, i); j in t.hub && t.hub[j] == s.hub[j]
  {
  }

  /** Deleting a registration takes exactly the pair's FCM messages and history. */
  lemma UnregisterStepIsExact(s: State, install: InstallId, app: AppId, t: State)
    requires Step(s, Outside(Unregister(install, app))) == Some(t)
    ensures forall id :: id in t.db.outbox.rows <==>
              id in s.db.outbox.rows
              && !(s.db.outbox.rows[id].install == install && s.db.outbox.rows[id].app == app
                   && s.db.outbox.rows[id].kind == Fcm)
    ensures forall id :: id in t.db.outbox.rows ==> t.db.outbox.rows[id] == s.db.outbox.rows[id]
    ensures AckedFor(t.db.acked, install, app) == [] && t.db.connectors == s.db.connectors
  {
    ForgetIsExact(s.db.acked, install, app, install, app);
  }

  // ----- which enqueuers owe a wake -----

  lemma ActionOwesNothing(s: State, k: nat, action: Action, t: State)
    requires k in s.conns && Proceed(s, k, action) == Some(t)
    ensures t.inflight == s.inflight
  {
    hide MaxId, NextSocketMessage, HasReceived, SocketUpTo, Delete;
  }

  /** A wake is owed for each socket message that a step stores or finds waiting, and for no other; it is
      owed until it is given, or the bridge stops. */
  lemma WakesAreOwedExactly(s: State, l: Label, t: State)
    requires Step(s, l) == Some(t)
    ensures match l
            case Outside(FcmArrives(install, app, transport, pid, payload)) =>
              var news := payload != [] && !(pid.Some? && pid.value in AckedFor(s.db.acked, install, app));
              t.inflight == s.inflight + if news && transport.WebSocket? then multiset{install} else multiset{}
            case Outside(PushArrives(install, _, _, _)) => t.inflight == s.inflight + multiset{install}
            case WakeOwner(install) => t.inflight + multiset{install} == s.inflight
            case Crash => t.inflight == multiset{}
            case _ => t.inflight == s.inflight
  {
    hide Proceed, EnqueueFcm;
    match l
    case Outside(FcmArrives(install, app, transport, pid, payload)) =>
      IngestIdIsExact(s.db, install, app, transport, pid, payload);
    case Act(k, action) => ActionOwesNothing(s, k, action, t);
    case _ =>
  }

  // ----- no lost wakeup -----

  /** A connection parked over an unread row has an event, or an enqueuer about to send one. */
  lemma NoLostWakeup(s: State, k: nat, i: InstallId)
    requires Reachable(s) && k in s.conns && s.conns[k].pc.Parked? && i in s.conns[k].attachments
    requires s.conns[k].attachments[i].state.Ready?
    requires SocketAfter(s.db.outbox, i, s.conns[k].attachments[i].state.cursor) != {}
    ensures Wake in s.conns[k].events || Replaced(i) in s.conns[k].events || i in s.inflight
  {
    ReachableInv(s);
    assert Covered(s, s.conns[k], i);
  }

  /** Once all events are consumed and all enqueuers are done, a parked connection has nothing
      left to send for an install it owns, unless it is waiting for an ack. */
  lemma QuietMeansDelivered(s: State, k: nat, i: InstallId)
    requires Reachable(s) && s.inflight == multiset{}
    requires k in s.conns && s.conns[k].pc.Parked? && s.conns[k].events == [] && i in s.conns[k].attachments
    ensures i in s.hub && s.hub[i] == k
    ensures s.conns[k].attachments[i].state.Ready? ==>
              forall id :: id in s.db.outbox.rows ==> !ForSocket(s.db.outbox.rows[id], i)
  {
    hide Reachable;
    HubOwnership(s);
    AttachmentsSitAtLowWater(s, k, i);
    var a := s.conns[k].attachments[i];
    if a.state.Ready? {
      if SocketAfter(s.db.outbox, i, a.state.cursor) != {} {
        NoLostWakeup(s, k, i);
      }
      forall id | id in s.db.outbox.rows ensures !ForSocket(s.db.outbox.rows[id], i) {
        assert id !in SocketAfter(s.db.outbox, i, a.state.cursor);
        assert id !in SocketUpTo(s.db.outbox, i, a.state.cursor);
      }
    }
  }

  // ----- no silent loss -----

  /** Every row ever inserted is still there or was removed for a reason that names its install. */
  lemma NoSilentLoss(s: State)
    requires Reachable(s)
    ensures forall id :: id in s.past.inserted ==>
              || (id in s.db.outbox.rows && s.db.outbox.rows[id] == s.past.inserted[id])
              || (id in s.past.removed && Justified(id, s.past.inserted[id], s.past.removed[id], s.past))
    ensures forall id :: id in s.db.outbox.rows ==> id in s.past.inserted
  {
    ReachableInv(s);
  }

  /** Clients present only ids that were written to them. */
  ghost predicate Honest(s: State, l: Label) {
    match l
    case Act(_, BeginAttach(install, presented)) => HasReceived(s.past, install, presented)
    case Act(_, ClientAck(install, id)) => HasReceived(s.past, install, id)
    case _ => true
  }

  ghost predicate HonestRun(s: State, steps: seq<Label>)
    requires Run(s, steps).Some?
    decreases |steps|
  {
    steps == [] || (Honest(s, steps[0]) && HonestRun(Step(s, steps[0]).value, steps[1..]))
  }

  predicate HonestPc(pc: Pc) {
    (pc.Clamping? || pc.Applying? || pc.Joining?) ==> pc.honest
  }

  predicate HonestCause(cause: Cause) {
    (cause.Acked? || cause.Resumed?) ==> cause.honest
  }

  ghost predicate HonestSoFar(s: State) {
    && (forall k :: k in s.conns ==> HonestPc(s.conns[k].pc))
    && (forall id :: id in s.past.removed ==> HonestCause(s.past.removed[id]))
  }

  lemma HonestAckKept(s: State, k: nat, i: InstallId, id: nat)
    requires HonestSoFar(s) && k in s.conns && HasReceived(s.past, i, id)
    ensures HonestSoFar(Acknowledge(s, k, i, id))
  {
  }

  lemma HonestJoinKept(s: State, k: nat)
    requires HonestSoFar(s) && k in s.conns && s.conns[k].pc.Joining?
    ensures HonestSoFar(JoinHub(s, k))
  {
  }

  lemma HonestApplyKept(s: State, k: nat, t: State)
    requires HonestSoFar(s) && k in s.conns && Proceed(s, k, ApplyCursor) == Some(t)
    ensures HonestSoFar(t)
  {
    hide MaxId, SocketUpTo, HasReceived;
  }

  lemma HonestDropKept(s: State, k: nat, action: Action, t: State)
    requires HonestSoFar(s) && k in s.conns && Proceed(s, k, action) == Some(t)
    requires action.ClientDetach? || action.FinishRefused? || action.TakeEvent? || action.Release?
    ensures HonestSoFar(t)
  {
    hide HonestCause;
  }

  lemma HonestActionKept(s: State, k: nat, action: Action, t: State)
    requires HonestSoFar(s) && k in s.conns && Proceed(s, k, action) == Some(t) && Honest(s, Act(k, action))
    ensures HonestSoFar(t)
  {
    hide Acknowledge, JoinHub, Drop, MaxId, NextSocketMessage, HasReceived, HonestCause;
    match action
    case ClientAck(install, id) => HonestAckKept(s, k, install, id);
    case Join => HonestJoinKept(s, k);
    case ApplyCursor => HonestApplyKept(s, k, t);
    case ClientDetach(_) => HonestDropKept(s, k, action, t);
    case FinishRefused => HonestDropKept(s, k, action, t);
    case TakeEvent => HonestDropKept(s, k, action, t);
    case Release(_) => HonestDropKept(s, k, action, t);
    case _ =>
  }

  lemma HonestOutsideKept(s: State, op: Operation, t: State)
    requires HonestSoFar(s) && Outcome(s, op) == Some(t)
    ensures HonestSoFar(t)
  {
    hide HonestPc, EnqueueFcm;
  }

  lemma HonestStepKept(s: State, l: Label, t: State)
    requires HonestSoFar(s) && Step(s, l) == Some(t) && Honest(s, l)
    ensures HonestSoFar(t)
  {
    match l
    case Outside(op) => HonestOutsideKept(s, op, t);
    case Act(k, action) => HonestActionKept(s, k, action, t);
    case _ =>
  }

  lemma {:induction false} HonestRunKept(s: State, steps: seq<Label>, t: State)
    requires HonestSoFar(s) && Run(s, steps) == Some(t) && HonestRun(s, steps)
    ensures HonestSoFar(t)
    decreases |steps|
  {
    if steps != [] {
      HonestStepKept(s, steps[0], Step(s, steps[0]).value);
      HonestRunKept(Step(s, steps[0]).value, steps[1..], t);
    }
  }

  /** With honest clients, a socket row leaves the outbox only after its client received it,
      or because its registration went away. */
  lemma HonestClientsLoseNothing(steps: seq<Label>, s: State, id: nat)
    requires Run(INITIAL, steps) == Some(s) && HonestRun(INITIAL, steps)
    requires id in s.past.inserted && s.past.inserted[id].transport.WebSocket? && id !in s.db.outbox.rows
    ensures id in s.past.removed
    ensures var row, cause := s.past.inserted[id], s.past.removed[id];
            || Frame(row.install, id) in s.past.received
            || (cause == Unregistered(row.install, row.app) && row.kind == Fcm)
            || (row.connector.Some? && cause == Disconnected(row.install, row.app, row.connector.value))
            || (row.connector.Some? && cause.Reconciled? && cause.install == row.install
                && row.connector.value !in cause.retained)
  {
    assert Reachable(s);
    ReachableInv(s);
    HonestRunKept(INITIAL, steps, s);
    assert Justified(id, s.past.inserted[id], s.past.removed[id], s.past);
    assert HonestCause(s.past.removed[id]);
  }
}
