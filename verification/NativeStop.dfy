/** The stop handshake of a native handle: stop requests, run starts and guard drops interleave freely,
    one access to the shared flag or one critical section of the stopper's lock at a time. */
module NativeStop {
  import opened Types

  datatype Signal = Waiting | Signalled | Closed

  datatype Pc =
    | StopStart
    | StopFlagged
    | StopSending(taken: Option<nat>)
    | StopReturned
    | RunStart
    | Installing // holds the lock, its sender in the slot
    | Running
    | Ending     // its receiver is gone, the guard is not dropped yet
    | RunOver
    | RunRefused

  // A run's channel is named by its task.
  datatype State = State(
    flag: bool, slot: Option<nat>, lock: Option<nat>, channels: map<nat, Signal>, tasks: map<nat, Pc>)

  const INITIAL := State(false, None, None, map[], map[])

  datatype Label =
    | Begin(k: nat, pc: Pc)
    | StoreFlag(k: nat)
    | Take(k: nat)
    | Send(k: nat)
    | Install(k: nat)
    | Check(k: nat)
    | Finish(k: nat)
    | DropGuard(k: nat)

  function At(s: State, k: nat): Option<Pc> {
    if k in s.tasks then Some(s.tasks[k]) else None
  }

  function Move(s: State, k: nat, pc: Pc): State {
    s.(tasks := s.tasks[k := pc])
  }

  /** A oneshot channel changes once; later signals are lost. */
  function Mark(s: State, channel: Option<nat>, signal: Signal): State {
    if channel.Some? && channel.value in s.channels && s.channels[channel.value].Waiting?
    then s.(channels := s.channels[channel.value := signal]) else s
  }

  function Step(s: State, l: Label): Option<State> {
    match l
    case Begin(k, pc) =>
      if At(s, k).None? && (pc.StopStart? || pc.RunStart?) then Some(Move(s, k, pc)) else None
    case StoreFlag(k) =>
      if At(s, k) == Some(StopStart) then Some(Move(s, k, StopFlagged).(flag := true)) else None
    case Take(k) =>
      if At(s, k) == Some(StopFlagged) && s.lock.None?
      then Some(Move(s, k, StopSending(s.slot)).(slot := None)) else None
    case Send(k) =>
      if k in s.tasks && s.tasks[k].StopSending?
      then Some(Move(Mark(s, s.tasks[k].taken, Signalled), k, StopReturned)) else None
    case Install(k) =>
      if At(s, k) == Some(RunStart) && s.lock.None? then
        if s.slot.Some? then Some(Move(s, k, RunRefused))
        else Some(Move(s, k, Installing).(slot := Some(k), lock := Some(k), channels := s.channels[k := Waiting]))
      else None
    case Check(k) =>
      if At(s, k) == Some(Installing) then
        var seen := if s.flag then Mark(s, s.slot, Signalled).(slot := None) else s;
        Some(Move(seen, k, Running).(lock := None))
      else None
    case Finish(k) =>
      if At(s, k) == Some(Running) then Some(Move(s, k, Ending)) else None
    case DropGuard(k) =>
      if At(s, k) == Some(Ending) && s.lock.None?
      then Some(Move(Mark(s, s.slot, Closed), k, RunOver).(slot := None)) else None
  }

  function Run(s: State, steps: seq<Label>): Option<State>
    decreases |steps|
  {
    if steps == [] then Some(s)
    else
      var t := Step(s, steps[0]);
      if t.None? then None else Run(t.value, steps[1..])
  }

  ghost predicate Reachable(s: State) {
    exists steps :: Run(INITIAL, steps) == Some(s)
  }

  // ----- the invariant -----

  predicate Sends(s: State, j: nat, r: nat) {
    At(s, j) == Some(StopSending(Some(r)))
  }

  predicate HasRun(s: State, r: nat) {
    r in s.tasks && (s.tasks[r].Running? || s.tasks[r].Ending? || s.tasks[r].RunOver?)
  }

  predicate Live(s: State, r: nat) {
    r in s.tasks && (s.tasks[r].Installing? || s.tasks[r].Running?)
  }

  predicate PastTake(s: State, j: nat) {
    j in s.tasks && (s.tasks[j].StopSending? || s.tasks[j].StopReturned?)
  }

  ghost predicate LockOk(s: State) {
    && (forall k :: k in s.tasks && s.tasks[k].Installing? ==> s.lock == Some(k))
    && (s.lock.Some? ==> At(s, s.lock.value) == Some(Installing) && s.slot == s.lock)
  }

  ghost predicate SlotOk(s: State) {
    s.slot.Some? ==>
      && s.slot.value in s.tasks && s.slot.value in s.channels && s.channels[s.slot.value].Waiting?
      && (s.tasks[s.slot.value].Installing? || s.tasks[s.slot.value].Running? || s.tasks[s.slot.value].Ending?)
  }

  /** A sender that a stop request took is nowhere else, and has not been used. */
  ghost predicate SendersOk(s: State) {
    forall j, r :: Sends(s, j, r) ==>
      HasRun(s, r) && r in s.channels && s.channels[r].Waiting? && s.slot != Some(r)
  }

  ghost predicate SendersUnique(s: State) {
    forall i, j, r :: Sends(s, i, r) && Sends(s, j, r) ==> i == j
  }

  /** A channel nobody has used is in the slot or with a stop request. */
  ghost predicate WaitingOk(s: State) {
    forall r :: r in s.channels && s.channels[r].Waiting? ==>
      s.slot == Some(r) || exists j :: Sends(s, j, r)
  }

  ghost predicate ChannelsOk(s: State) {
    forall r :: r in s.tasks && (HasRun(s, r) || s.tasks[r].Installing?) ==> r in s.channels
  }

  ghost predicate FlagOk(s: State) {
    && (forall j :: j in s.tasks && (s.tasks[j].StopFlagged? || PastTake(s, j)) ==> s.flag)
    && (!s.flag ==> forall r :: r in s.tasks && (Live(s, r) || s.tasks[r].Ending?) ==> s.slot == Some(r))
    && (s.slot.Some? && s.lock.None? ==> forall j :: !PastTake(s, j))
  }

  ghost predicate Inv(s: State) {
    LockOk(s) && SlotOk(s) && SendersOk(s) && SendersUnique(s) && WaitingOk(s) && ChannelsOk(s) && FlagOk(s)
  }

  lemma LockKept(s: State, l: Label, t: State)
    requires LockOk(s) && Step(s, l) == Some(t)
    ensures LockOk(t)
  {
  }

  lemma SlotKept(s: State, l: Label, t: State)
    requires LockOk(s) && SlotOk(s) && SendersOk(s) && Step(s, l) == Some(t)
    ensures SlotOk(t)
  {
    if l.Send? && s.tasks[l.k].taken.Some? {
      assert Sends(s, l.k, s.tasks[l.k].taken.value);
    }
  }

  lemma TakenNow(s: State, l: Label, t: State, j: nat, r: nat)
    requires Step(s, l) == Some(t) && Sends(t, j, r)
    ensures Sends(s, j, r) || (l == Take(j) && s.slot == Some(r))
  {
  }

  lemma SendersKept(s: State, l: Label, t: State)
    requires LockOk(s) && SlotOk(s) && SendersOk(s) && SendersUnique(s) && Step(s, l) == Some(t)
    ensures SendersOk(t)
  {
    if l.Send? && s.tasks[l.k].taken.Some? {
      assert Sends(s, l.k, s.tasks[l.k].taken.value);
    }
    forall j, r | Sends(t, j, r)
      ensures HasRun(t, r) && r in t.channels && t.channels[r].Waiting? && t.slot != Some(r)
    {
      TakenNow(s, l, t, j, r);
    }
  }

  lemma UniqueKept(s: State, l: Label, t: State)
    requires SendersOk(s) && SendersUnique(s) && Step(s, l) == Some(t)
    ensures SendersUnique(t)
  {
    forall i, j, r | Sends(t, i, r) && Sends(t, j, r) ensures i == j {
      TakenNow(s, l, t, i, r);
      TakenNow(s, l, t, j, r);
    }
  }

  /** The holder of an unused sender keeps it until it uses it, or hands it from the slot to a request. */
  lemma HolderStays(s: State, l: Label, t: State, r: nat, j: nat)
    requires LockOk(s) && Step(s, l) == Some(t)
    requires r in s.channels && s.channels[r].Waiting? && r in t.channels && t.channels[r].Waiting?
    requires s.slot == Some(r) || Sends(s, j, r)
    ensures t.slot == Some(r) || Sends(t, j, r) || (l.Take? && Sends(t, l.k, r))
  {
  }

  lemma FreshWaits(s: State, l: Label, t: State, r: nat)
    requires Step(s, l) == Some(t) && r in t.channels && t.channels[r].Waiting?
    ensures (r in s.channels && s.channels[r].Waiting?) || t.slot == Some(r)
  {
  }

  lemma WaitingKept(s: State, l: Label, t: State)
    requires LockOk(s) && WaitingOk(s) && Step(s, l) == Some(t)
    ensures WaitingOk(t)
  {
    hide Step, LockOk;
    forall r | r in t.channels && t.channels[r].Waiting?
      ensures t.slot == Some(r) || exists j :: Sends(t, j, r)
    {
      FreshWaits(s, l, t, r);
      if t.slot != Some(r) {
        var j: nat :| s.slot == Some(r) || Sends(s, j, r);
        HolderStays(s, l, t, r, j);
      }
    }
  }

  lemma ChannelsKept(s: State, l: Label, t: State)
    requires LockOk(s) && ChannelsOk(s) && Step(s, l) == Some(t)
    ensures ChannelsOk(t)
  {
  }

  lemma FlagKept(s: State, l: Label, t: State)
    requires LockOk(s) && FlagOk(s) && Step(s, l) == Some(t)
    ensures FlagOk(t)
  {
    if t.slot.Some? && t.lock.None? {
      forall j ensures !PastTake(t, j) {
        assert PastTake(t, j) ==> PastTake(s, j) || l == Take(j);
      }
    }
  }

  lemma StepKeepsInv(s: State, l: Label, t: State)
    requires Inv(s) && Step(s, l) == Some(t)
    ensures Inv(t)
  {
    LockKept(s, l, t);
    SlotKept(s, l, t);
    SendersKept(s, l, t);
    UniqueKept(s, l, t);
    WaitingKept(s, l, t);
    ChannelsKept(s, l, t);
    FlagKept(s, l, t);
  }

  lemma {:induction false} RunKeepsInv(s: State, steps: seq<Label>, t: State)
    requires Inv(s) && Run(s, steps) == Some(t)
    ensures Inv(t) && (s.flag ==> t.flag)
    decreases |steps|
  {
    hide Inv;
    if steps != [] {
      StepKeepsInv(s, steps[0], Step(s, steps[0]).value);
      RunKeepsInv(Step(s, steps[0]).value, steps[1..], t);
    }
  }

  lemma ReachableInv(s: State)
    requires Reachable(s)
    ensures Inv(s)
  {
    var steps :| Run(INITIAL, steps) == Some(s);
    RunKeepsInv(INITIAL, steps, s);
  }

  // ----- what follows -----

  /** Once some stop request has returned, a run that has started waits on unsignalled exactly if
      another stop request has its sender and is about to use it. */
  lemma UnsignalledExactlyWhileHeld(s: State, j: nat, r: nat)
    requires Reachable(s) && At(s, j) == Some(StopReturned) && At(s, r) == Some(Running)
    ensures r in s.channels && (s.channels[r].Waiting? <==> exists i :: Sends(s, i, r))
  {
    ReachableInv(s);
    assert PastTake(s, j);
  }

  /** So a stop request is never lost when no other one is under way, whether the run was installed
      before it or after. */
  lemma StopIsNeverLost(s: State, j: nat, r: nat)
    requires Reachable(s) && At(s, j) == Some(StopReturned) && At(s, r) == Some(Running)
    requires forall i :: i in s.tasks ==> !s.tasks[i].StopSending?
    ensures r in s.channels && !s.channels[r].Waiting?
  {
    UnsignalledExactlyWhileHeld(s, j, r);
  }

  /** And the request that holds the sender signals it with its next step. */
  lemma HolderSignals(s: State, i: nat, r: nat)
    requires Reachable(s) && Sends(s, i, r)
    ensures Step(s, Send(i)).Some?
    ensures var t := Step(s, Send(i)).value; r in t.channels && t.channels[r].Signalled?
  {
    ReachableInv(s);
  }

  lemma ReachableNext(s: State, l: Label, t: State)
    requires Reachable(s) && Step(s, l) == Some(t)
    ensures Reachable(t)
  {
    var steps :| Run(INITIAL, steps) == Some(s);
    RunOneMore(INITIAL, steps, s, l, t);
  }

  lemma {:induction false} RunOneMore(s: State, steps: seq<Label>, t: State, l: Label, u: State)
    requires Run(s, steps) == Some(t) && Step(t, l) == Some(u)
    ensures Run(s, steps + [l]) == Some(u)
    decreases |steps|
  {
    hide Step;
    if steps == [] {
      assert [] + [l] == [l] && [l][1..] == [];
    } else {
      assert (steps + [l])[1..] == steps[1..] + [l];
      RunOneMore(Step(s, steps[0]).value, steps[1..], t, l, u);
    }
  }

  lemma OneRunUnderWay() returns (s: State)
    ensures Reachable(s) && s == State(false, Some(0), None, map[0 := Waiting], map[0 := Running])
  {
    assert Run(INITIAL, []) == Some(INITIAL);
    var a := Step(INITIAL, Begin(0, RunStart)).value;
    ReachableNext(INITIAL, Begin(0, RunStart), a);
    var b := Step(a, Install(0)).value;
    ReachableNext(a, Install(0), b);
    s := Step(b, Check(0)).value;
    ReachableNext(b, Check(0), s);
    assert s.tasks == map[0 := Running] && s.channels == map[0 := Waiting];
  }

  /** One more stop request sets the flag. */
  lemma RequestFlags(s: State, k: nat) returns (t: State)
    requires Reachable(s) && At(s, k).None?
    ensures Reachable(t) && t == s.(flag := true, tasks := s.tasks[k := StopFlagged])
  {
    var a := Step(s, Begin(k, StopStart)).value;
    ReachableNext(s, Begin(k, StopStart), a);
    t := Step(a, StoreFlag(k)).value;
    ReachableNext(a, StoreFlag(k), t);
    assert t.tasks == s.tasks[k := StopFlagged];
  }

  /** With two requests at once, one can return while the run is not signalled yet. */
  lemma ConcurrentStopReturnsEarly() returns (s: State)
    ensures Reachable(s) && At(s, 2) == Some(StopReturned) && At(s, 0) == Some(Running)
    ensures 0 in s.channels && s.channels[0].Waiting?
  {
    var run := OneRunUnderWay();
    var one := RequestFlags(run, 1);
    var a := RequestFlags(one, 2);
    var b := Step(a, Take(1)).value;
    ReachableNext(a, Take(1), b);
    var c := Step(b, Take(2)).value;
    ReachableNext(b, Take(2), c);
    s := Step(c, Send(2)).value;
    ReachableNext(c, Send(2), s);
  }

  /** Before any stop request, at most one run has a live receiver. */
  lemma OneRunAtATime(s: State, q: nat, r: nat)
    requires Reachable(s) && !s.flag && Live(s, q) && Live(s, r)
    ensures q == r
  {
    ReachableInv(s);
  }

  // ----- a run's end -----

  /** A run that ends with its channel in the slot frees the slot and closes the channel, so that the next
      run can be installed. */
  lemma EndedRunFreesSlot(s: State, k: nat, next: nat) returns (t: State)
    requires At(s, k) == Some(Running) && s.lock.None? && s.slot == Some(k)
    requires k in s.channels && s.channels[k].Waiting? && next != k && At(s, next) == Some(RunStart)
    ensures Run(s, [Finish(k), DropGuard(k), Install(next)]) == Some(t)
    ensures t.slot == Some(next) && At(t, next) == Some(Installing) && At(t, k) == Some(RunOver)
    ensures k in t.channels && t.channels[k] == Closed && next in t.channels && t.channels[next] == Waiting
  {
    var a := Step(s, Finish(k)).value;
    var b := Step(a, DropGuard(k)).value;
    t := Step(b, Install(next)).value;
    RunThree(s, Finish(k), a, DropGuard(k), b, Install(next), t);
  }

  // ----- calls that nothing interrupts -----

  function Stopped(s: State, k: nat): State {
    Mark(s, s.slot, Signalled).(flag := true, slot := None, tasks := s.tasks[k := StopReturned])
  }

  lemma StopIsARun(s: State, k: nat)
    requires At(s, k) == Some(StopStart) && s.lock.None?
    ensures Run(s, [StoreFlag(k), Take(k), Send(k)]) == Some(Stopped(s, k))
  {
    var a := Step(s, StoreFlag(k)).value;
    var b := Step(a, Take(k)).value;
    var c := Step(b, Send(k)).value;
    assert c.tasks == s.tasks[k := StopReturned];
    assert c == Stopped(s, k);
    RunThree(s, StoreFlag(k), a, Take(k), b, Send(k), c);
  }

  function Installed(s: State, k: nat): State {
    s.(channels := s.channels[k := if s.flag then Signalled else Waiting],
       slot := if s.flag then None else Some(k), tasks := s.tasks[k := Running])
  }

  lemma InstallIsARun(s: State, k: nat)
    requires At(s, k) == Some(RunStart) && s.lock.None? && s.slot.None?
    ensures Run(s, [Install(k), Check(k)]) == Some(Installed(s, k))
  {
    var a := Step(s, Install(k)).value;
    var b := Step(a, Check(k)).value;
    assert b.channels == Installed(s, k).channels && b.tasks == Installed(s, k).tasks;
    hide Step;
    assert [Install(k), Check(k)][1..] == [Check(k)] && [Check(k)][1..] == [];
    assert Run(b, []) == Some(b);
    assert Run(a, [Check(k)]) == Some(b);
  }

  lemma RunThree(s: State, x: Label, a: State, y: Label, b: State, z: Label, c: State)
    requires Step(s, x) == Some(a) && Step(a, y) == Some(b) && Step(b, z) == Some(c)
    ensures Run(s, [x, y, z]) == Some(c)
  {
    hide Step;
    assert [x, y, z][1..] == [y, z] && [y, z][1..] == [z] && [z][1..] == [];
    assert Run(c, []) == Some(c);
    assert Run(b, [z]) == Some(c);
    assert Run(a, [y, z]) == Some(c);
  }

  // ----- the handle -----

  class Channel {
    var signal: Signal

    constructor ()
      ensures signal == Waiting
    {
      signal := Waiting;
    }

    method Mark(s: Signal)
      modifies this
      ensures signal == if old(signal).Waiting? then s else old(signal)
    {
      if signal.Waiting? {
        signal := s;
      }
    }
  }

  class NativeHandle {
    var stopRequested: bool
    var stopper: Option<Channel>
    ghost var channels: map<nat, Channel> // the channel of each run that has installed one

    /** The handle is in the given state, and nobody is inside the lock. */
    ghost predicate Matches(s: State)
      reads this, channels.Values
    {
      && (forall j, k :: j in channels && k in channels && channels[j] == channels[k] ==> j == k)
      && s.flag == stopRequested && s.lock.None? && s.channels.Keys == channels.Keys
      && (forall k :: k in channels ==> s.channels[k] == channels[k].signal)
      && (s.slot.None? <==> stopper.None?)
      && (s.slot.Some? ==> s.slot.value in channels && stopper.value == channels[s.slot.value])
    }

    constructor ()
      ensures Matches(INITIAL)
    {
      stopRequested := false;
      stopper := None;
      channels := map[];
    }

    /** The request's three steps: the sender in the slot is used, once and for the run it belongs to. */
    method RequestStop(ghost k: nat, ghost s: State)
      requires Matches(s) && At(s, k) == Some(StopStart)
      modifies this`stopRequested, this`stopper, channels.Values
      ensures stopRequested && stopper.None?
      ensures old(stopper).Some? && old(stopper.value.signal).Waiting? ==>
                old(stopper).value.signal.Signalled?
      ensures Run(s, [StoreFlag(k), Take(k), Send(k)]).Some?
      ensures Matches(Run(s, [StoreFlag(k), Take(k), Send(k)]).value)
    {
      hide Run;
      StopIsARun(s, k);
      stopRequested := true;
      var taken := stopper;
      stopper := None;
      if taken.Some? {
        assert taken.value in channels.Values;
        taken.value.Mark(Signalled);
      }
    }

    /** A handle with a run under way refuses another; a stop that was asked for earlier is passed on at once. */
    method InstallStopper(ghost k: nat, ghost s: State) returns (receiver: Option<Channel>)
      requires Matches(s) && At(s, k) == Some(RunStart) && k !in channels
      modifies this`stopper, this`channels
      ensures receiver.None? <==> old(stopper).Some?
      ensures receiver.None? ==> Step(s, Install(k)).Some? && Matches(Step(s, Install(k)).value)
      ensures receiver.Some? ==> fresh(receiver.value) && channels == old(channels)[k := receiver.value]
      ensures receiver.Some? && stopRequested ==> stopper.None? && receiver.value.signal.Signalled?
      ensures receiver.Some? && !stopRequested ==> stopper == receiver && receiver.value.signal.Waiting?
      ensures receiver.Some? ==> Run(s, [Install(k), Check(k)]).Some?
      ensures receiver.Some? ==> Matches(Run(s, [Install(k), Check(k)]).value)
    {
      hide Run;
      if stopper.Some? {
        return None;
      }
      InstallIsARun(s, k);
      var channel := new Channel();
      channels := channels[k := channel];
      stopper := Some(channel);
      if stopRequested {
        stopper := None;
        channel.Mark(Signalled);
      }
      receiver := Some(channel);
    }

    /** Dropping the guard drops the sender that is still there, which closes its channel. */
    method DropGuard(ghost k: nat, ghost s: State)
      requires Matches(s) && At(s, k) == Some(Ending)
      modifies this`stopper, channels.Values
      ensures stopper.None?
      ensures old(stopper).Some? && old(stopper.value.signal).Waiting? ==>
                old(stopper).value.signal.Closed?
      ensures Step(s, Label.DropGuard(k)).Some? && Matches(Step(s, Label.DropGuard(k)).value)
    {
      if stopper.Some? {
        assert stopper.value in channels.Values;
        stopper.value.Mark(Closed);
      }
      stopper := None;
    }
  }
}
