/** How a connection loses an install it owns, and a run in which the latest to attach loses it. */
module Ownership {
  import opened Types
  import opened Tables
  import opened DeliveryProtocol
  import opened DeliveryInvariant
  import opened DeliveryTheorems
  import opened SocketConnection
  import H = SocketHub

  predicate Owns(s: State, k: nat, i: InstallId) {
    i in s.hub && s.hub[i] == k
  }

  // ----- the only ways to lose an install -----

  /** The action makes connection `k` give up the install. */
  predicate GivesUp(c: Conn, action: Action, i: InstallId) {
    match action
    case ClientDetach(install) => install == i
    case ClientAck(install, id) =>
      install == i && i in c.attachments && c.attachments[i].state != AwaitingAck(id)
    case FinishRefused => c.pc.Refused? && c.pc.install == i
    case TakeEvent => c.events != [] && c.events[0] == Replaced(i)
    case Release(install) => install == i
    case _ => false
  }

  lemma AckLoss(s: State, k: nat, i: InstallId, j: nat, install: InstallId, id: nat)
    requires k in s.conns && i in s.conns[k].attachments && j in s.conns && Owns(s, k, i)
    ensures !Owns(Acknowledge(s, j, install, id), k, i) <==> j == k && GivesUp(s.conns[k], ClientAck(install, id), i)
  {
  }

  lemma JoinLoss(s: State, k: nat, i: InstallId, j: nat)
    requires j in s.conns && s.conns[j].pc.Joining? && Owns(s, k, i)
    ensures !Owns(JoinHub(s, j), k, i) <==> j != k && s.conns[j].pc.install == i
  {
  }

  lemma DropLoss(s: State, k: nat, i: InstallId, j: nat, action: Action, t: State)
    requires k in s.conns && i in s.conns[k].attachments && Owns(s, k, i)
    requires j in s.conns && Proceed(s, j, action) == Some(t)
    requires action.ClientDetach? || action.FinishRefused? || action.TakeEvent? || action.Release?
    ensures !Owns(t, k, i) <==> j == k && GivesUp(s.conns[k], action, i)
  {
  }

  lemma ActionLoss(s: State, k: nat, i: InstallId, j: nat, action: Action, t: State)
    requires k in s.conns && i in s.conns[k].attachments && Owns(s, k, i)
    requires j in s.conns && Proceed(s, j, action) == Some(t)
    ensures !Owns(t, k, i) <==>
              (j == k && GivesUp(s.conns[k], action, i)) || (j != k && action.Join? && s.conns[j].pc.install == i)
  {
    hide Acknowledge, JoinHub, Drop, MaxId, SocketUpTo, NextSocketMessage, Delete, HasReceived;
    match action
    case ClientAck(install, id) => AckLoss(s, k, i, j, install, id);
    case Join => JoinLoss(s, k, i, j);
    case ClientDetach(_) => DropLoss(s, k, i, j, action, t);
    case FinishRefused => DropLoss(s, k, i, j, action, t);
    case TakeEvent => DropLoss(s, k, i, j, action, t);
    case Release(_) => DropLoss(s, k, i, j, action, t);
    case _ =>
  }

  /** An owner loses the install exactly when it gives it up itself, reads a notice that it was
      replaced, stale or not, when another connection attaches, or in a restart of the bridge. */
  lemma OwnershipIsLostExactly(s: State, l: Label, t: State, k: nat, i: InstallId)
    requires Reachable(s) && Step(s, l) == Some(t) && Owns(s, k, i)
    ensures k in s.conns
    ensures !Owns(t, k, i) <==>
              l.Crash?
              || (l.Act? && l.conn in s.conns
                  && ((l.conn == k && GivesUp(s.conns[k], l.action, i))
                      || (l.conn != k && l.action.Join? && s.conns[l.conn].pc.Joining?
                          && s.conns[l.conn].pc.install == i)))
  {
    hide Reachable;
    HubOwnership(s);
    match l
    case Act(j, action) =>
      ActionLoss(s, k, i, j, action, t);
    case _ =>
  }

  // ----- the stale notice -----

  lemma {:induction false} ReachableRun(s: State, steps: seq<Label>, t: State)
    requires Reachable(s) && Run(s, steps) == Some(t)
    ensures Reachable(t)
    decreases |steps|
  {
    hide Step;
    if steps != [] {
      ReachableStep(s, steps[0], Step(s, steps[0]).value);
      ReachableRun(Step(s, steps[0]).value, steps[1..], t);
    }
  }

  lemma ReachableStep(s: State, l: Label, t: State)
    requires Reachable(s) && Step(s, l) == Some(t)
    ensures Reachable(t)
  {
    hide Step;
    var steps :| Run(INITIAL, steps) == Some(s);
    RunOneMore(INITIAL, steps, s, l, t);
  }

  lemma OpenAndPark(s: State) returns (t: State)
    requires Reachable(s) && s.nextConn !in s.conns
    ensures Reachable(t) && t.conns == s.conns[s.nextConn := Conn(map[], [], Parked)]
    ensures t.nextConn == s.nextConn + 1 && t.hub == s.hub && t.db == s.db
  {
    var begun := Step(s, Open).value;
    ReachableStep(s, Open, begun);
    t := Step(begun, Act(s.nextConn, Park)).value;
    ReachableStep(begun, Act(s.nextConn, Park), t);
  }

  /** A parked connection with nothing to deliver attaches, finds nothing, and parks again. */
  lemma AttachAndPark(s: State, k: nat, i: InstallId) returns (t: State)
    requires Reachable(s) && k in s.conns && s.conns[k].pc.Parked? && s.db.outbox.rows == map[]
    requires s.conns[k].attachments.Keys <= {i}
    ensures Reachable(t) && H.SameHub(HubAttach(s, k, i), t) && t.db.outbox.rows == map[]
    ensures k in t.conns && t.conns[k].pc.Parked? && t.conns[k].attachments.Keys == {i}
    ensures forall j :: j in s.conns && j != k ==>
              j in t.conns && t.conns[j].pc == s.conns[j].pc && t.conns[j].attachments == s.conns[j].attachments
  {
    hide Applied, JoinHub, HubAttach;
    AttachIsARun(s, k, i, 0);
    var joined := JoinHub(Applied(s, k, i, 0), k);
    ReachableRun(s, AttachSteps(k, i, 0), joined);
    JoinedEmpty(s, k, i);
    t := ScanNothing(joined, k, i);
  }

  lemma AttachSeesHub(s: State, t: State, k: nat, i: InstallId)
    requires H.SameHub(s, t)
    ensures H.SameHub(HubAttach(s, k, i), HubAttach(t, k, i))
  {
  }

  lemma AppliedEmpty(s: State, k: nat, i: InstallId)
    requires k in s.conns && s.db.outbox.rows == map[]
    ensures var a := Applied(s, k, i, 0);
            k in a.conns && a.conns[k].pc.Joining? && a.db.outbox.rows == map[]
            && forall j :: j in s.conns && j != k ==> j in a.conns && a.conns[j] == s.conns[j]
  {
  }

  lemma JoinedEmpty(s: State, k: nat, i: InstallId)
    requires k in s.conns && s.db.outbox.rows == map[] && s.conns[k].attachments.Keys <= {i}
    ensures var a := Applied(s, k, i, 0);
            k in a.conns && a.conns[k].pc.Joining?
            && var t := JoinHub(a, k);
               && H.SameHub(HubAttach(s, k, i), t) && t.db.outbox.rows == map[]
               && k in t.conns && t.conns[k].pc == Scan({i}, []) && t.conns[k].attachments.Keys == {i}
               && forall j :: j in s.conns && j != k ==>
                    j in t.conns && t.conns[j].pc == s.conns[j].pc && t.conns[j].attachments == s.conns[j].attachments
  {
    hide Applied, JoinHub, HubAttach;
    AppliedView(s, k, i, 0);
    AppliedEmpty(s, k, i);
    var a := Applied(s, k, i, 0);
    AttachSeesHub(s, a, k, i);
    JoinedView(a, k);
    JoinShape(a, k);
  }

  lemma ScanNothing(s: State, k: nat, i: InstallId) returns (t: State)
    requires Reachable(s) && k in s.conns && s.conns[k].pc == Scan({i}, []) && s.db.outbox.rows == map[]
    ensures Reachable(t) && H.SameHub(s, t) && t.db == s.db
    ensures k in t.conns && t.conns[k].pc.Parked? && t.conns[k].attachments.Keys == s.conns[k].attachments.Keys
    ensures forall j :: j in s.conns && j != k ==> j in t.conns && t.conns[j] == s.conns[j]
  {
    hide Reachable, Run;
    var visited := VisitNothing(s, k, i);
    ReachableStep(s, Act(k, Visit(i)), visited);
    t := Step(visited, Act(k, Park)).value;
    ReachableStep(visited, Act(k, Park), t);
  }

  lemma VisitNothing(s: State, k: nat, i: InstallId) returns (t: State)
    requires k in s.conns && s.conns[k].pc == Scan({i}, []) && s.db.outbox.rows == map[]
    ensures Step(s, Act(k, Visit(i))) == Some(t) && t == SetPc(s, k, Scan({}, []))
  {
    t := Step(s, Act(k, Visit(i))).value;
    assert forall cursor: int :: SocketAfter(s.db.outbox, i, cursor) == {};
    assert {i} - {i} == {};
  }

  lemma StartIsReachable()
    ensures Reachable(INITIAL)
  {
    assert Run(INITIAL, []) == Some(INITIAL);
  }

  lemma FirstIsReplaced(i: InstallId) returns (s: State)
    ensures Reachable(s) && s.db.outbox.rows == map[] && Owns(s, 2, i)
    ensures 1 in s.conns && s.conns[1].pc.Parked? && s.conns[1].attachments.Keys == {i}
    ensures s.conns[1].events == [Replaced(i)]
    ensures 2 in s.conns && s.conns[2].pc.Parked? && s.conns[2].events == []
  {
    hide Reachable, Run, Step;
    StartIsReachable();
    var a := OpenAndPark(INITIAL);
    var b := AttachAndPark(a, 1, i);
    var c := OpenAndPark(b);
    s := AttachAndPark(c, 2, i);
  }

  /** Connection 1 attaches, is replaced by connection 2, and attaches again before it reads the
      notice. It owns the install then, until it reads that notice and detaches itself. */
  lemma LatestAttacherLosesToStaleNotice(i: InstallId) returns (s: State, t: State)
    ensures Reachable(s) && Owns(s, 1, i) && 1 in s.conns && 2 in s.conns && s.conns[2].pc.Parked?
    ensures Replaced(i) in s.conns[2].events
    ensures Step(s, Act(1, TakeEvent)) == Some(t) && i !in t.hub && 1 in t.conns && i !in t.conns[1].attachments
  {
    hide Reachable, Run;
    var d := FirstIsReplaced(i);
    s := AttachAndPark(d, 1, i);
    t := Step(s, Act(1, TakeEvent)).value;
  }

  // ----- which notices are stale -----

  /** The connection owns the install in every state of the run. */
  ghost predicate OwnsThroughout(s: State, steps: seq<Label>, k: nat, i: InstallId)
    requires Run(s, steps).Some?
    decreases |steps|
  {
    k in s.conns && Owns(s, k, i) && (steps != [] ==> OwnsThroughout(Step(s, steps[0]).value, steps[1..], k, i))
  }

  /** How many events the connection reads. */
  function Reads(steps: seq<Label>, k: nat): nat {
    if steps == [] then 0
    else (if steps[0] == Act(k, TakeEvent) then 1 else 0) + Reads(steps[1..], k)
  }

  /** An event other than the install's notice may have been queued. */
  predicate HearsOther(before: seq<Event>, after: seq<Event>, i: InstallId) {
    after == before
    || (|after| == |before| + 1 && after[..|before|] == before && after[|before|] != Replaced(i))
  }

  lemma JoinIsHeard(s: State, k: nat, i: InstallId, j: nat)
    requires k in s.conns && Owns(s, k, i) && j in s.conns && s.conns[j].pc.Joining?
    ensures var t := JoinHub(s, j);
            k in t.conns && (Owns(t, k, i) ==> HearsOther(s.conns[k].events, t.conns[k].events, i))
  {
  }

  lemma AckIsNotHeard(s: State, k: nat, j: nat, install: InstallId, id: nat)
    requires k in s.conns && j in s.conns
    ensures var t := Acknowledge(s, j, install, id); k in t.conns && t.conns[k].events == s.conns[k].events
  {
  }

  lemma ActionIsHeard(s: State, k: nat, i: InstallId, j: nat, action: Action, t: State)
    requires k in s.conns && i in s.conns[k].attachments && Owns(s, k, i)
    requires j in s.conns && Proceed(s, j, action) == Some(t) && k in t.conns && Owns(t, k, i)
    ensures if j == k && action.TakeEvent? then
              s.conns[k].events != [] && s.conns[k].events[0] != Replaced(i)
              && t.conns[k].events == s.conns[k].events[1..]
            else HearsOther(s.conns[k].events, t.conns[k].events, i)
  {
    hide Acknowledge, JoinHub, MaxId, SocketUpTo, NextSocketMessage, Delete, HasReceived;
    match action
    case ClientAck(install, id) => AckIsNotHeard(s, k, j, install, id);
    case Join => JoinIsHeard(s, k, i, j);
    case _ =>
  }

  /** While it stays the owner, nothing tells a connection that it was replaced. */
  lemma StepIsHeard(s: State, l: Label, t: State, k: nat, i: InstallId)
    requires Reachable(s) && Step(s, l) == Some(t) && k in s.conns && Owns(s, k, i) && k in t.conns && Owns(t, k, i)
    ensures if l == Act(k, TakeEvent) then
              s.conns[k].events != [] && s.conns[k].events[0] != Replaced(i)
              && t.conns[k].events == s.conns[k].events[1..]
            else HearsOther(s.conns[k].events, t.conns[k].events, i)
  {
    hide Reachable, Proceed;
    HubOwnership(s);
    NextIsUnused(s);
    match l
    case Act(j, action) => ActionIsHeard(s, k, i, j, action, t);
    case _ =>
  }

  lemma NextIsUnused(s: State)
    requires Reachable(s)
    ensures s.nextConn !in s.conns
  {
    ReachableInv(s);
  }

  /** `now` is what is left of `queued` and some later events, none of them the install's notice, after
      `read` events were read, none of which was that notice either. */
  ghost predicate LeftOver(queued: seq<Event>, later: seq<Event>, read: nat, now: seq<Event>, i: InstallId) {
    && Replaced(i) !in later && read <= |queued + later| && now == (queued + later)[read..]
    && forall n :: 0 <= n < read && n < |queued| ==> queued[n] != Replaced(i)
  }

  lemma LeftOverStep(
      queued: seq<Event>, later: seq<Event>, read: nat, now: seq<Event>, i: InstallId, taken: bool, next: seq<Event>)
    returns (later': seq<Event>)
    requires LeftOver(queued, later, read, now, i)
    requires if taken then now != [] && now[0] != Replaced(i) && next == now[1..] else HearsOther(now, next, i)
    ensures LeftOver(queued, later', read + if taken then 1 else 0, next, i)
  {
    if taken {
      later' := later;
      assert now[0] == (queued + later)[read];
    } else if next == now {
      later' := later;
    } else {
      later' := later + [next[|now|]];
      assert next == now + [next[|now|]];
      assert queued + later' == (queued + later) + [next[|now|]];
    }
  }

  lemma {:induction false} OwnerHearsNothingNew(
      s: State, steps: seq<Label>, t: State, k: nat, i: InstallId, queued: seq<Event>, later: seq<Event>, read: nat)
    returns (later': seq<Event>)
    requires Reachable(s) && Run(s, steps) == Some(t) && OwnsThroughout(s, steps, k, i)
    requires LeftOver(queued, later, read, s.conns[k].events, i)
    ensures k in t.conns && Owns(t, k, i)
    ensures LeftOver(queued, later', read + Reads(steps, k), t.conns[k].events, i)
    decreases |steps|
  {
    hide Reachable, Step, LeftOver, HearsOther;
    later' := later;
    if steps != [] {
      var l, next := steps[0], Step(s, steps[0]).value;
      ReachableStep(s, l, next);
      StepIsHeard(s, l, next, k, i);
      var more := LeftOverStep(
        queued, later, read, s.conns[k].events, i, l == Act(k, TakeEvent), next.conns[k].events);
      later' := OwnerHearsNothingNew(
        next, steps[1..], t, k, i, queued, more, read + if l == Act(k, TakeEvent) then 1 else 0);
    }
  }

  lemma JoinTakesOver(s: State, k: nat, t: State)
    requires k in s.conns && s.conns[k].pc.Joining? && Step(s, Act(k, Join)) == Some(t)
    ensures k in t.conns && Owns(t, k, s.conns[k].pc.install) && t.conns[k].events == s.conns[k].events
  {
  }

  lemma ReadLoses(s: State, k: nat, i: InstallId, t: State)
    requires Reachable(s) && k in s.conns && Owns(s, k, i) && Step(s, Act(k, TakeEvent)) == Some(t)
    ensures s.conns[k].events != [] && (!Owns(t, k, i) <==> s.conns[k].events[0] == Replaced(i))
  {
    OwnershipIsLostExactly(s, Act(k, TakeEvent), t, k, i);
  }

  /** A connection that attached, and has owned the install since, loses it by reading an event exactly
      if that is the stale notice it had in its queue when it attached: reading in order, it gets past no
      such notice, and what was queued later is none. */
  lemma StaleNoticeWasQueuedAtAttach(
      s: State, s': State, steps: seq<Label>, t: State, u: State, k: nat)
    requires Reachable(s) && k in s.conns && s.conns[k].pc.Joining? && Step(s, Act(k, Join)) == Some(s')
    requires Run(s', steps) == Some(t) && OwnsThroughout(s', steps, k, s.conns[k].pc.install)
    requires Step(t, Act(k, TakeEvent)) == Some(u)
    ensures var i, queued, n := s.conns[k].pc.install, s.conns[k].events, Reads(steps, k);
            && (forall m :: 0 <= m < n && m < |queued| ==> queued[m] != Replaced(i))
            && (!Owns(u, k, i) <==> n < |queued| && queued[n] == Replaced(i))
  {
    hide Reachable, Run, Step, OwnsThroughout, Reads, Owns;
    var i, queued, n := s.conns[k].pc.install, s.conns[k].events, Reads(steps, k);
    JoinTakesOver(s, k, s');
    ReachableStep(s, Act(k, Join), s');
    ReachableRun(s', steps, t);
    assert queued + [] == queued;
    var later := OwnerHearsNothingNew(s', steps, t, k, i, queued, [], 0);
    ReadLoses(t, k, i, u);
    assert t.conns[k].events[0] == (queued + later)[n];
  }
}
