/** The hub that says which connection owns an install, and the queues it sends events to. */
module SocketHub {
  import opened Types
  import opened DeliveryProtocol

  /** The two states look the same to the hub. */
  ghost predicate SameHub(s: State, t: State) {
    && t.hub == s.hub && t.nextConn == s.nextConn && t.conns.Keys == s.conns.Keys
    && forall j :: j in s.conns ==> t.conns[j].events == s.conns[j].events
  }

  lemma SameHubTransitively(a: State, b: State, c: State)
    requires SameHub(a, b) && SameHub(b, c)
    ensures SameHub(a, c)
  {
  }

  /** Only an owner's detach changes the hub. */
  function HubDetach(s: State, k: nat, install: InstallId): State {
    if install in s.hub && s.hub[install] == k then s.(hub := s.hub - {install}) else s
  }

  class EventQueue {
    var events: seq<Event>

    constructor ()
      ensures events == []
    {
      events := [];
    }

    method Send(e: Event)
      modifies this
      ensures events == old(events) + [e]
    {
      events := events + [e];
    }

    method Receive() returns (e: Event)
      requires events != []
      modifies this
      ensures e == old(events)[0] && events == old(events)[1..]
    {
      e := events[0];
      events := events[1..];
    }
  }

  datatype AttachedSocket = AttachedSocket(connectionId: nat, sender: EventQueue)

  function OwnersOf(m: map<InstallId, AttachedSocket>): map<InstallId, nat> {
    map i | i in m :: m[i].connectionId
  }

  lemma OwnersAt(m: map<InstallId, AttachedSocket>, i: InstallId)
    ensures i in OwnersOf(m) <==> i in m
    ensures i in m ==> OwnersOf(m)[i] == m[i].connectionId
  {
  }

  lemma OpenAdds(s: State)
    ensures Step(s, Open)
         == Some(s.(conns := s.conns[s.nextConn := Conn(map[], [], Scan({}, []))], nextConn := s.nextConn + 1))
  {
  }

  lemma OwnersAfterInsert(m: map<InstallId, AttachedSocket>, i: InstallId, a: AttachedSocket)
    ensures OwnersOf(m[i := a]) == OwnersOf(m)[i := a.connectionId]
  {
  }

  lemma OwnersAfterRemove(m: map<InstallId, AttachedSocket>, i: InstallId)
    ensures OwnersOf(m - {i}) == OwnersOf(m) - {i}
  {
  }

  class SocketHub {
    var nextId: nat
    var attachments: map<InstallId, AttachedSocket>
    ghost var queues: map<nat, EventQueue> // every queue ever handed out

    ghost predicate Valid()
      reads this
    {
      && (forall k :: k in queues ==> k < nextId)
      && QueuesDistinct()
      && (forall i :: i in attachments ==>
            attachments[i].connectionId in queues && queues[attachments[i].connectionId] == attachments[i].sender)
    }

    function Owners(): map<InstallId, nat>
      reads this
    {
      OwnersOf(attachments)
    }

    /** The hub's part of a protocol state. */
    ghost predicate Matches(s: State)
      reads this, queues.Values
    {
      s.hub == Owners() && s.nextConn == nextId && QueuesMatch(s.conns)
    }

    ghost predicate QueuesMatch(conns: map<nat, Conn>)
      reads this`queues, queues.Values
    {
      conns.Keys <= queues.Keys && forall k :: k in conns ==> conns[k].events == queues[k].events
    }

    ghost predicate QueuesDistinct()
      reads this`queues
    {
      forall j, k :: j in queues && k in queues && queues[j] == queues[k] ==> j == k
    }

    method Tell(k: nat, sender: EventQueue, e: Event, ghost s: State)
      requires QueuesDistinct() && QueuesMatch(s.conns) && k in queues && queues[k] == sender
      modifies queues.Values
      ensures QueuesMatch(Post(s, k, e).conns)
      ensures forall j :: j in queues ==> queues[j].events == old(queues[j].events) + if j == k then [e] else []
    {
      sender.Send(e);
      assert sender in queues.Values;
    }

    /** Every open connection has its queue here. */
    lemma Knows(s: State, k: nat)
      requires Matches(s) && k in s.conns
      ensures k in queues
    {
    }

    lemma MatchesSame(s: State, t: State)
      requires Matches(s) && SameHub(s, t)
      ensures Matches(t)
    {
    }

    constructor ()
      ensures Valid() && Matches(INITIAL)
      ensures forall s :: Matches(Restarted(s))
    {
      nextId := 1;
      attachments := map[];
      queues := map[];
    }

    method NewConnection(ghost s: State) returns (id: nat, queue: EventQueue)
      requires Valid() && Matches(s)
      modifies this`nextId, this`queues
      ensures Valid() && fresh(queue) && queues == old(queues)[id := queue]
      ensures id == s.nextConn && Step(s, Open).Some? && Matches(Step(s, Open).value)
    {
      hide Step, OwnersOf;
      OpenAdds(s);
      id := nextId;
      nextId := nextId + 1;
      queue := new EventQueue();
      queues := queues[id := queue];
    }

    /** Hands the install to this connection, and tells the one it is taken from. */
    method Attach(install: InstallId, connectionId: nat, sender: EventQueue, ghost s: State)
      requires Valid() && Matches(s)
      requires connectionId in queues && queues[connectionId] == sender
      modifies this`attachments, queues.Values
      ensures Valid() && Matches(HubAttach(s, connectionId, install))
      ensures install in attachments && attachments[install].connectionId == connectionId
      ensures attachments - {install} == old(attachments) - {install}
      ensures forall j :: j in queues ==>
                queues[j].events == old(queues[j].events)
                  + if j != connectionId && install in old(attachments) && old(attachments)[install].connectionId == j
                    then [Replaced(install)] else []
    {
      hide QueuesMatch, OwnersOf;
      OwnersAt(attachments, install);
      OwnersAfterInsert(attachments, install, AttachedSocket(connectionId, sender));
      var previous := if install in attachments then Some(attachments[install]) else None;
      attachments := attachments[install := AttachedSocket(connectionId, sender)];
      if previous.Some? && previous.value.connectionId != connectionId {
        Tell(previous.value.connectionId, previous.value.sender, Replaced(install), s);
      }
    }

    /** Gives the install up only if this connection owns it. */
    method Detach(install: InstallId, connectionId: nat, ghost s: State)
      requires Valid() && Matches(s)
      modifies this`attachments
      ensures Valid() && Matches(HubDetach(s, connectionId, install))
      ensures Owners() == if install in old(Owners()) && old(Owners())[install] == connectionId
                          then old(Owners()) - {install} else old(Owners())
    {
      hide QueuesMatch, OwnersOf;
      OwnersAt(attachments, install);
      OwnersAfterRemove(attachments, install);
      if install in attachments && attachments[install].connectionId == connectionId {
        attachments := attachments - {install};
      }
    }

    method Wake(install: InstallId, ghost s: State)
      requires Valid() && Matches(s)
      modifies queues.Values
      ensures Valid() && Matches(if install in s.hub then Post(s, s.hub[install], Event.Wake) else s)
      ensures forall j :: j in queues ==>
                queues[j].events == old(queues[j].events)
                  + if install in attachments && attachments[install].connectionId == j then [Event.Wake] else []
    {
      if install in attachments {
        Tell(attachments[install].connectionId, attachments[install].sender, Event.Wake, s);
      }
    }
  }
}
