/** The task that forwards messages to UnifiedPush endpoints, while everything else runs: it sleeps when
    nothing is due, and is woken by a permit that an enqueuer leaves for it. */
module UnifiedPushLoop {
  import opened Types
  import opened Tables
  import opened Ownership
  import opened DeliveryProtocol
  import DeliveryInvariant
  import DeliveryTheorems

  // Where the task stands: before its query, asleep, or with a batch that is still to be sent.
  datatype Phase = Looking | Asleep | Sending(todo: seq<nat>)

  // `announcing` counts the enqueuers between their insert and their notification, `registered` holds the
  // registered pairs, `deferred` the rows whose next attempt is not due yet. `missed` is history: the rows
  // that were deferred once, or waited once while their pair was not registered.
  datatype Loop = Loop(
    bridge: State, phase: Phase, permit: bool, announcing: nat, registered: set<(InstallId, AppId)>,
    deferred: set<nat>, missed: set<nat>)

  const START := Loop(INITIAL, Looking, false, 0, {}, {}, {})

  const BATCH: nat := 32

  datatype Turn =
    | Other(l: Label) // any step of the bridge but the deliverer's own
    | Register(install: InstallId, app: AppId)
    | Notify
    | Look(batch: seq<nat>)
    | Rouse
    | Timeout
    | Forward
    | Defer
    | NextRound
    | Ripen(id: nat)

  predicate ForPush(o: Outbox, id: nat) {
    id in o.rows && o.rows[id].transport.UnifiedPush?
  }

  function PairOf(o: Outbox, id: nat): (InstallId, AppId)
    requires id in o.rows
  {
    (o.rows[id].install, o.rows[id].app)
  }

  /** What the query selects, before its limit. */
  function Due(s: Loop): set<nat> {
    set id | id in s.bridge.db.outbox.rows && ForPush(s.bridge.db.outbox, id)
             && PairOf(s.bridge.db.outbox, id) in s.registered && id !in s.deferred
  }

  /** The rows of a pair that is not registered. */
  function Stranded(o: Outbox, registered: set<(InstallId, AppId)>): set<nat> {
    set id | id in o.rows && PairOf(o, id) !in registered
  }

  /** The step leaves an enqueuer that is still to notify the deliverer. */
  ghost predicate Announces(s: State, l: Label) {
    l.Outside? && l.op.FcmArrives? && l.op.transport.UnifiedPush?
    && EnqueueFcm(s.db, l.op.install, l.op.app, l.op.transport, l.op.pid, l.op.payload).id.Some?
  }

  function Registered(s: Loop, l: Label): set<(InstallId, AppId)> {
    if l.Outside? && l.op.Unregister? then s.registered - {(l.op.install, l.op.app)} else s.registered
  }

  ghost function AfterOther(s: Loop, l: Label, t: State): Loop {
    var registered := Registered(s, l);
    if l.Crash? then Loop(t, Looking, false, 0, s.registered, s.deferred, s.missed)
    else
      s.(bridge := t, announcing := s.announcing + if Announces(s.bridge, l) then 1 else 0,
         registered := registered, missed := s.missed + Stranded(t.db.outbox, registered))
  }

  ghost function Next(s: Loop, l: Turn): Option<Loop> {
    match l
    case Other(step) =>
      if step.Outside? && (step.op.LoadDue? || step.op.FinishForward?) then None
      else
        var t := Step(s.bridge, step);
        if t.None? then None else Some(AfterOther(s, step, t.value))
    case Register(install, app) => Some(s.(registered := s.registered + {(install, app)}))
    case Notify =>
      if s.announcing > 0 then Some(s.(announcing := s.announcing - 1, permit := true)) else None
    case Look(batch) =>
      if !s.phase.Looking? || |batch| > BATCH || (batch == [] && Due(s) != {}) then None
      else if exists id :: id in batch && id !in Due(s) then None
      else if batch == [] then Some(s.(phase := Asleep))
      else Some(s.(phase := Sending(batch), bridge := s.bridge.(held := s.bridge.held + set id | id in batch)))
    case Rouse => if s.phase.Asleep? && s.permit then Some(s.(phase := Looking, permit := false)) else None
    case Timeout => if s.phase.Asleep? then Some(s.(phase := Looking)) else None
    case Forward =>
      if !s.phase.Sending? || s.phase.todo == [] then None
      else
        var t := Step(s.bridge, Outside(FinishForward(s.phase.todo[0])));
        if t.None? then None else Some(s.(bridge := t.value, phase := Sending(s.phase.todo[1..])))
    case Defer =>
      if !s.phase.Sending? || s.phase.todo == [] then None
      else
        var id := s.phase.todo[0];
        Some(s.(phase := Sending(s.phase.todo[1..]),
                deferred := s.deferred + ({id} * s.bridge.db.outbox.rows.Keys), missed := s.missed + {id}))
    case NextRound => if s.phase == Sending([]) then Some(s.(phase := Looking)) else None
    case Ripen(id) => Some(s.(deferred := s.deferred - {id}))
  }

  ghost function RunLoop(s: Loop, turns: seq<Turn>): Option<Loop>
    decreases |turns|
  {
    if turns == [] then Some(s)
    else
      var t := Next(s, turns[0]);
      if t.None? then None else RunLoop(t.value, turns[1..])
  }

  // ----- which steps add rows -----

  lemma OutsideAddsNoPushRow(s: State, op: Operation, t: State, id: nat)
    requires Outcome(s, op) == Some(t) && !op.FcmArrives? && ForPush(t.db.outbox, id)
    ensures id in s.db.outbox.rows && s.db.outbox.rows[id] == t.db.outbox.rows[id]
  {
  }

  lemma AckAddsNoRow(s: State, k: nat, i: InstallId, acked: nat, id: nat)
    requires k in s.conns && id in Acknowledge(s, k, i, acked).db.outbox.rows
    ensures id in s.db.outbox.rows
    ensures s.db.outbox.rows[id] == Acknowledge(s, k, i, acked).db.outbox.rows[id]
  {
  }

  lemma JoinAddsNoRow(s: State, k: nat)
    requires k in s.conns && s.conns[k].pc.Joining?
    ensures JoinHub(s, k).db == s.db
  {
  }

  lemma ActionAddsNoRow(s: State, k: nat, action: Action, t: State, id: nat)
    requires k in s.conns && Proceed(s, k, action) == Some(t) && id in t.db.outbox.rows
    ensures id in s.db.outbox.rows && s.db.outbox.rows[id] == t.db.outbox.rows[id]
  {
    hide Acknowledge, JoinHub, NextSocketMessage, MaxId, HasReceived;
    match action
    case ClientAck(install, acked) => AckAddsNoRow(s, k, install, acked, id);
    case Join => JoinAddsNoRow(s, k);
    case _ =>
  }

  lemma StepAddsNoPushRow(s: State, l: Label, t: State, id: nat)
    requires Step(s, l) == Some(t) && !(l.Outside? && l.op.FcmArrives?) && ForPush(t.db.outbox, id)
    ensures id in s.db.outbox.rows && s.db.outbox.rows[id] == t.db.outbox.rows[id]
  {
    hide Outcome, Proceed;
    match l
    case Outside(op) => OutsideAddsNoPushRow(s, op, t, id);
    case Act(k, action) => ActionAddsNoRow(s, k, action, t, id);
    case _ =>
  }

  /** An ingest that adds a UnifiedPush row announces it. */
  lemma IngestAnnounces(s: State, l: Label, t: State, id: nat)
    requires Step(s, l) == Some(t) && l.Outside? && l.op.FcmArrives? && ForPush(t.db.outbox, id)
    ensures (id in s.db.outbox.rows && s.db.outbox.rows[id] == t.db.outbox.rows[id])
            || (Announces(s, l) && id == t.db.outbox.lastId > s.db.outbox.lastId)
  {
    hide EnqueueFcm;
    var op := l.op;
    IngestIdIsExact(s.db, op.install, op.app, op.transport, op.pid, op.payload);
  }

  /** A UnifiedPush row after a step was there before, or is a new one that its enqueuer will announce. */
  lemma PushRowsAreAnnounced(s: State, l: Label, t: State, id: nat)
    requires Step(s, l) == Some(t) && ForPush(t.db.outbox, id)
    ensures (id in s.db.outbox.rows && s.db.outbox.rows[id] == t.db.outbox.rows[id])
            || (Announces(s, l) && id > s.db.outbox.lastId)
  {
    hide Step;
    if l.Outside? && l.op.FcmArrives? {
      IngestAnnounces(s, l, t, id);
    } else {
      StepAddsNoPushRow(s, l, t, id);
    }
  }

  // ----- the bridge's part of a run -----

  lemma {:induction false} LoadsAreSteps(s: State, batch: seq<nat>)
    requires Reachable(s) && forall id :: id in batch ==> ForPush(s.db.outbox, id)
    ensures Reachable(s.(held := s.held + set id | id in batch))
    decreases |batch|
  {
    hide Reachable, Run;
    if batch == [] {
      assert s.(held := s.held + set id: nat | id in batch) == s;
    } else {
      assert batch[0] in batch && ForPush(s.db.outbox, batch[0]);
      var loaded := s.(held := s.held + {batch[0]});
      ReachableStep(s, Outside(LoadDue(batch[0])), loaded);
      LoadsAreSteps(loaded, batch[1..]);
      assert batch == [batch[0]] + batch[1..];
      assert loaded.held + (set id | id in batch[1..]) == s.held + set id | id in batch;
    }
  }

  lemma TurnIsReachable(s: Loop, l: Turn, t: Loop)
    requires Reachable(s.bridge) && Next(s, l) == Some(t)
    ensures Reachable(t.bridge)
  {
    hide Reachable, Step, Announces;
    match l
    case Other(step) => ReachableStep(s.bridge, step, t.bridge);
    case Look(batch) =>
      assert forall id :: id in batch ==> id in Due(s);
      if batch != [] {
        LoadsAreSteps(s.bridge, batch);
      }
    case Forward => ReachableStep(s.bridge, Outside(FinishForward(s.phase.todo[0])), t.bridge);
    case _ =>
  }

  // ----- the invariant -----

  /** A UnifiedPush row that is not missed can be selected by the next query. */
  ghost predicate UnmissedAreDue(s: Loop) {
    forall id :: ForPush(s.bridge.db.outbox, id) && id !in s.missed ==>
      PairOf(s.bridge.db.outbox, id) in s.registered && id !in s.deferred
  }

  ghost predicate IdsIssued(s: Loop) {
    forall id :: id in s.deferred || id in s.missed ==> id <= s.bridge.db.outbox.lastId
  }

  /** While the task sleeps over such a row, there is a permit or an enqueuer still to leave one. */
  ghost predicate Awaited(s: Loop) {
    s.phase.Asleep? && (exists id :: ForPush(s.bridge.db.outbox, id) && id !in s.missed) ==>
      s.permit || s.announcing > 0
  }

  ghost predicate BatchIssued(s: Loop) {
    s.phase.Sending? ==> forall k :: 0 <= k < |s.phase.todo| ==> s.phase.todo[k] <= s.bridge.db.outbox.lastId
  }

  ghost predicate LoopInv(s: Loop) {
    UnmissedAreDue(s) && IdsIssued(s) && Awaited(s) && BatchIssued(s)
  }

  lemma RowsAreIssued(s: State)
    requires Reachable(s)
    ensures forall id :: id in s.db.outbox.rows ==> id <= s.db.outbox.lastId
  {
    DeliveryInvariant.ReachableInv(s);
  }

  lemma LastIdGrows(s: State, l: Label, t: State)
    requires Step(s, l) == Some(t)
    ensures s.db.outbox.lastId <= t.db.outbox.lastId
  {
    DeliveryTheorems.StepExtendsHistory(s, l, t);
  }

  lemma OtherKeepsInv(s: Loop, l: Label, t: Loop)
    requires LoopInv(s) && Reachable(s.bridge) && Next(s, Other(l)) == Some(t)
    ensures LoopInv(t)
  {
    hide Reachable, Announces, Outcome, Proceed;
    TurnIsReachable(s, Other(l), t);
    RowsAreIssued(t.bridge);
    LastIdGrows(s.bridge, l, t.bridge);
    var o := t.bridge.db.outbox;
    forall id | ForPush(o, id) && id !in t.missed
      ensures PairOf(o, id) in t.registered && id !in t.deferred
      ensures Announces(s.bridge, l) || (ForPush(s.bridge.db.outbox, id) && id !in s.missed)
    {
      PushRowsAreAnnounced(s.bridge, l, t.bridge, id);
      assert PairOf(o, id) in Registered(s, l) || id in Stranded(o, Registered(s, l));
      assert l.Crash? ==> t.bridge == Restarted(s.bridge);
    }
  }

  lemma TurnKeepsInv(s: Loop, l: Turn, t: Loop)
    requires LoopInv(s) && Reachable(s.bridge) && Next(s, l) == Some(t)
    ensures LoopInv(t)
  {
    hide Step, Reachable, Announces;
    RowsAreIssued(s.bridge);
    match l
    case Other(step) => OtherKeepsInv(s, step, t);
    case Forward => ForwardKeepsInv(s, t);
    case Look(batch) => LookKeepsInv(s, batch, t);
    case Defer => DeferKeepsInv(s, t);
    case _ =>
  }

  lemma ForwardKeepsInv(s: Loop, t: Loop)
    requires LoopInv(s) && Next(s, Forward) == Some(t)
    ensures LoopInv(t)
  {
    var id := s.phase.todo[0];
    assert t.bridge.db.outbox == Delete(s.bridge.db.outbox, {id});
  }

  lemma DeferKeepsInv(s: Loop, t: Loop)
    requires LoopInv(s) && Next(s, Defer) == Some(t)
    ensures LoopInv(t)
  {
    assert t.phase.todo == s.phase.todo[1..];
  }

  lemma LookKeepsInv(s: Loop, batch: seq<nat>, t: Loop)
    requires LoopInv(s) && Reachable(s.bridge) && Next(s, Look(batch)) == Some(t)
    ensures LoopInv(t)
  {
    RowsAreIssued(s.bridge);
    hide Reachable;
    assert forall id :: id in batch ==> id in Due(s);
    assert forall k :: 0 <= k < |batch| ==> batch[k] in Due(s);
    forall id | ForPush(s.bridge.db.outbox, id) && id !in s.missed ensures id in Due(s) {
    }
  }

  lemma {:induction false} RunKeepsInv(s: Loop, turns: seq<Turn>, t: Loop)
    requires LoopInv(s) && Reachable(s.bridge) && RunLoop(s, turns) == Some(t)
    ensures LoopInv(t) && Reachable(t.bridge)
    decreases |turns|
  {
    hide Next, LoopInv, Reachable;
    if turns != [] {
      var next := Next(s, turns[0]).value;
      TurnKeepsInv(s, turns[0], next);
      TurnIsReachable(s, turns[0], next);
      RunKeepsInv(next, turns[1..], t);
    }
  }

  // ----- what follows -----

  /** On every run, while the task sleeps, a UnifiedPush row that was never deferred and whose pair has been
      registered all along is covered: the permit is there, or its enqueuer is still to leave it. */
  lemma NoLostPermit(turns: seq<Turn>, s: Loop, id: nat)
    requires RunLoop(START, turns) == Some(s) && s.phase.Asleep?
    requires ForPush(s.bridge.db.outbox, id) && id !in s.missed
    ensures s.permit || s.announcing > 0
    ensures Reachable(s.bridge)
  {
    StartIsReachable();
    RunKeepsInv(START, turns, s);
  }

  /** With no permit and no enqueuer left, what the sleeping task has not forwarded failed before, or waited
      while its pair was not registered. */
  lemma QuietMeansForwarded(turns: seq<Turn>, s: Loop)
    requires RunLoop(START, turns) == Some(s) && s.phase.Asleep? && !s.permit && s.announcing == 0
    ensures forall id :: id in s.bridge.db.outbox.rows && s.bridge.db.outbox.rows[id].transport.UnifiedPush? ==>
              id in s.missed
  {
    hide RunLoop;
    forall id | ForPush(s.bridge.db.outbox, id) ensures id in s.missed {
      if id !in s.missed {
        NoLostPermit(turns, s, id);
      }
    }
  }

  /** The loop never stops by itself: whatever its phase, it can go on. */
  lemma NeverStuck(s: Loop)
    ensures s.phase.Asleep? ==> Next(s, Timeout) == Some(s.(phase := Looking))
    ensures s.phase.Asleep? && s.permit ==> Next(s, Rouse) == Some(s.(phase := Looking, permit := false))
    ensures s.announcing > 0 ==> Next(s, Notify) == Some(s.(announcing := s.announcing - 1, permit := true))
    ensures s.phase.Looking? ==> exists batch :: Next(s, Look(batch)).Some?
    ensures s.phase.Sending? && s.phase.todo == [] ==> Next(s, NextRound) == Some(s.(phase := Looking))
    ensures s.phase.Sending? && s.phase.todo != [] ==> Next(s, Defer).Some?
  {
    if s.phase.Looking? {
      if Due(s) == {} {
        assert Next(s, Look([])).Some?;
      } else {
        var id :| id in Due(s);
        assert forall x :: x in [id] ==> x in Due(s);
        assert Next(s, Look([id])).Some?;
      }
    }
  }

  lemma ForwardOne(s: Loop, id: nat) returns (t: Loop)
    requires s.phase == Sending([id]) && id in s.bridge.held
    ensures Next(s, Forward) == Some(t) && t.bridge.db.outbox == Delete(s.bridge.db.outbox, {id})
  {
    t := Next(s, Forward).value;
  }

  /** A permit gets a waiting row forwarded: the task wakes, finds it, and can send it. */
  lemma PermitForwards(s: Loop, id: nat) returns (t: Loop)
    requires s.phase.Asleep? && s.permit && id in Due(s)
    ensures RunLoop(s, [Rouse, Look([id]), Forward]) == Some(t)
    ensures t.bridge.db.outbox == Delete(s.bridge.db.outbox, {id}) && id !in t.bridge.db.outbox.rows
  {
    hide Run, Outcome, Proceed;
    var a := s.(phase := Looking, permit := false);
    var held := s.bridge.held + set x | x in [id];
    var b := a.(phase := Sending([id]), bridge := s.bridge.(held := held));
    assert Due(a) == Due(s);
    assert forall x :: x in [id] ==> x in Due(a);
    assert Next(s, Rouse) == Some(a) && Next(a, Look([id])) == Some(b);
    assert id in [id];
    t := ForwardOne(b, id);
    hide Next, Step;
    var turns := [Rouse, Look([id]), Forward];
    assert turns[1..] == [Look([id]), Forward] && turns[1..][1..] == [Forward] && turns[1..][1..][1..] == [];
    assert RunLoop(t, []) == Some(t);
    assert RunLoop(b, [Forward]) == Some(t);
    assert RunLoop(a, [Look([id]), Forward]) == Some(t);
  }
}
