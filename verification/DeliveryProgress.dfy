/** What a connection can always do next: the steps by which a waiting message gets to the client. */
module DeliveryProgress {
  import opened Types
  import opened Tables
  import opened DeliveryProtocol
  import opened SocketConnection

  // ----- a connection's loop -----

  /** A connection reads while it scans, writes when it has scanned, parks when it has written, and takes
      requests and events only when it is parked; it can fail at any time, and then gives up what it has. */
  lemma ActionsFollowTheLoop(s: State, k: nat, action: Action)
    requires k in s.conns
    ensures var c := s.conns[k];
            Proceed(s, k, action).Some?
            <==> match action
                 case Visit(install) => c.pc.Scan? && install in c.pc.todo
                 case SendFrame => c.pc.Scan? && c.pc.todo == {} && c.pc.frames != []
                 case Park => c.pc.Scan? && c.pc.todo == {} && c.pc.frames == []
                 case ReadMaximum => c.pc.Clamping?
                 case ApplyCursor => c.pc.Applying?
                 case Join => c.pc.Joining?
                 case FinishRefused => c.pc.Refused?
                 case Fail => true
                 case Release(install) => c.pc.Closing? && install in c.attachments
                 case Close => c.pc.Closing? && c.attachments == map[]
                 case TakeEvent => c.pc.Parked? && c.events != []
                 case _ => c.pc.Parked?
  {
    hide Acknowledge, JoinHub, Drop, VisitInstall, HasReceived, MaxId, SocketUpTo;
  }

  /** After a scan all frames are written, in order, and the connection parks. */
  lemma {:induction false} FramesAreWritten(s: State, k: nat, frames: seq<Frame>)
    returns (steps: seq<Label>, t: State)
    requires k in s.conns && s.conns[k].pc == Scan({}, frames)
    ensures Run(s, steps) == Some(t)
    ensures t == s.(past := t.past, conns := s.conns[k := s.conns[k].(pc := Parked)])
    ensures t.past == s.past.(received := s.past.received + set f | f in frames)
    decreases |frames|
  {
    if frames == [] {
      t := Step(s, Act(k, Park)).value;
      steps := [Act(k, Park)];
      assert steps[1..] == [] && Run(t, []) == Some(t);
      assert s.past.received + (set f: Frame | f in frames) == s.past.received;
    } else {
      var sent := FirstIsWritten(s, k, frames);
      var rest, end := FramesAreWritten(sent, k, frames[1..]);
      steps, t := [Act(k, SendFrame)] + rest, end;
      assert steps[1..] == rest;
      assert frames == [frames[0]] + frames[1..];
      assert t.conns == s.conns[k := s.conns[k].(pc := Parked)];
      assert sent.past.received + (set f | f in frames[1..]) == s.past.received + set f | f in frames;
    }
  }

  lemma FirstIsWritten(s: State, k: nat, frames: seq<Frame>) returns (t: State)
    requires k in s.conns && s.conns[k].pc == Scan({}, frames) && frames != []
    ensures Step(s, Act(k, SendFrame)) == Some(t)
    ensures t == SetPc(s.(past := t.past), k, Scan({}, frames[1..]))
    ensures t.past == s.past.(received := s.past.received + {frames[0]})
  {
    t := Step(s, Act(k, SendFrame)).value;
  }

  // ----- a scan reads everything there is -----

  /** The oldest message waiting for the install, if its attachment may read one. */
  ghost function Readable(s: State, k: nat, i: InstallId): Option<nat>
    requires k in s.conns
  {
    var m := s.conns[k].attachments;
    if i in m && m[i].state.Ready? then NextSocketMessage(s.db.outbox, i, m[i].state.cursor) else None
  }

  lemma VisitReads(s: State, k: nat, i: InstallId) returns (t: State)
    requires k in s.conns && s.conns[k].pc.Scan? && i in s.conns[k].pc.todo
    ensures Step(s, Act(k, Visit(i))) == Some(t) && k in t.conns && t.db == s.db
    ensures var pc := s.conns[k].pc;
            t.conns[k].pc == Scan(pc.todo - {i}, pc.frames + if Readable(s, k, i).Some? then
                                                               [Frame(i, Readable(s, k, i).value)] else [])
    ensures forall j :: j != i ==> Readable(t, k, j) == Readable(s, k, j)
  {
    t := VisitInstall(s, k, i);
    VisitView(s, k, i);
    VisitSparesOthers(s, k, i);
    hide VisitInstall, NextSocketMessage;
  }

  lemma VisitSparesOthers(s: State, k: nat, i: InstallId)
    requires k in s.conns && s.conns[k].pc.Scan?
    ensures var t := VisitInstall(s, k, i);
            k in t.conns && t.db == s.db
            && forall j :: j != i ==>
                 (j in t.conns[k].attachments <==> j in s.conns[k].attachments)
                 && (j in s.conns[k].attachments ==> t.conns[k].attachments[j] == s.conns[k].attachments[j])
  {
  }

  /** Whatever is readable when a scan starts is among its frames when it ends. */
  lemma {:induction false} ScanReadsAll(s: State, k: nat) returns (steps: seq<Label>, t: State)
    requires k in s.conns && s.conns[k].pc.Scan?
    ensures Run(s, steps) == Some(t) && k in t.conns && t.conns[k].pc.Scan? && t.conns[k].pc.todo == {}
    ensures forall f :: f in s.conns[k].pc.frames ==> f in t.conns[k].pc.frames
    ensures forall i :: i in s.conns[k].pc.todo && Readable(s, k, i).Some? ==>
              Frame(i, Readable(s, k, i).value) in t.conns[k].pc.frames
    decreases s.conns[k].pc.todo
  {
    hide Step, Readable;
    var todo := s.conns[k].pc.todo;
    if todo == {} {
      steps, t := [], s;
      RunNothing(s);
    } else {
      var i :| i in todo;
      var next := VisitReads(s, k, i);
      var rest, end := ScanReadsAll(next, k);
      steps, t := [Act(k, Visit(i))] + rest, end;
      assert steps[1..] == rest;
    }
  }

  /** A connection that finds a wake in its queue can, on its own, write the oldest message waiting for
      each install that it may read for, and park again. */
  lemma WakeDelivers(s: State, k: nat) returns (steps: seq<Label>, t: State)
    requires k in s.conns && s.conns[k].pc.Parked? && s.conns[k].events != [] && s.conns[k].events[0].Wake?
    ensures Run(s, steps) == Some(t) && k in t.conns && t.conns[k].pc.Parked?
    ensures forall i :: i in s.conns[k].attachments && Readable(s, k, i).Some? ==>
              Frame(i, Readable(s, k, i).value) in t.past.received
  {
    var begun := WakeStartsScan(s, k);
    hide Step, Readable;
    var visits, scanned := ScanReadsAll(begun, k);
    var writes, parked := FramesAreWritten(scanned, k, scanned.conns[k].pc.frames);
    t := parked;
    steps := [Act(k, TakeEvent)] + (visits + writes);
    assert steps[1..] == visits + writes;
    RunJoins(begun, visits, scanned, writes, t);
  }

  lemma WakeStartsScan(s: State, k: nat) returns (t: State)
    requires k in s.conns && s.conns[k].pc.Parked? && s.conns[k].events != [] && s.conns[k].events[0].Wake?
    ensures Step(s, Act(k, TakeEvent)) == Some(t) && k in t.conns
    ensures t.conns[k].pc == Scan(s.conns[k].attachments.Keys, [])
    ensures forall i :: Readable(t, k, i) == Readable(s, k, i)
  {
    t := Step(s, Act(k, TakeEvent)).value;
  }

  lemma {:induction false} RunJoins(s: State, front: seq<Label>, t: State, back: seq<Label>, u: State)
    requires Run(s, front) == Some(t) && Run(t, back) == Some(u)
    ensures Run(s, front + back) == Some(u)
    decreases |front|
  {
    hide Step;
    if front == [] {
      assert front + back == back;
    } else {
      assert (front + back)[1..] == front[1..] + back;
      RunJoins(Step(s, front[0]).value, front[1..], t, back, u);
    }
  }

  // ----- frames from the client -----

  /** What the event loop does for an ack frame is the ack step, and the detach behind it if the ack was
      refused. */
  lemma AckIsARun(s: State, k: nat, install: InstallId, id: nat)
    requires k in s.conns && s.conns[k].pc.Parked?
    ensures var acked := Acknowledge(s, k, install, id);
            k in acked.conns
            && Run(s, [Act(k, ClientAck(install, id))]
                      + if acked.conns[k].pc.Refused? then [Act(k, FinishRefused)] else [])
               == Some(AfterAck(s, k, install, id))
  {
    var acked := AckStep(s, k, install, id);
    hide Step;
    RunNothing(AfterAck(s, k, install, id));
    var first := Act(k, ClientAck(install, id));
    if acked.conns[k].pc.Refused? {
      assert [first, Act(k, FinishRefused)][1..] == [Act(k, FinishRefused)] && [Act(k, FinishRefused)][1..] == [];
      assert [first] + [Act(k, FinishRefused)] == [first, Act(k, FinishRefused)];
      assert Run(acked, [Act(k, FinishRefused)]) == Some(AfterAck(s, k, install, id));
    } else {
      assert [first] + [] == [first] && [first][1..] == [];
    }
  }

  lemma AckStep(s: State, k: nat, install: InstallId, id: nat) returns (acked: State)
    requires k in s.conns && s.conns[k].pc.Parked?
    ensures acked == Acknowledge(s, k, install, id) && Step(s, Act(k, ClientAck(install, id))) == Some(acked)
    ensures k in acked.conns
    ensures if acked.conns[k].pc.Refused? then
              Step(acked, Act(k, FinishRefused)) == Some(AfterAck(s, k, install, id))
            else acked == AfterAck(s, k, install, id)
  {
    acked := Acknowledge(s, k, install, id);
  }

  /** A detach frame forgets the attachment as the hub's Drop does, and starts a new scan. */
  lemma DetachStep(s: State, k: nat, install: InstallId)
    requires k in s.conns && s.conns[k].pc.Parked?
    ensures Step(s, Act(k, ClientDetach(install))) == Some(Restart(Drop(s, k, install), k))
  {
  }
}
