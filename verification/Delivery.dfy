/** Enqueueing: insert the message, then wake whoever delivers it. */
module Delivery {
  import opened Types
  import opened Tables
  import opened DeliveryProtocol
  import D = Database
  import H = SocketHub

  datatype DeliveryTarget = ToUnifiedPush(endpoint: string) | ToWebSocket {
    function Transport(): Transport {
      if ToWebSocket? then WebSocket else UnifiedPush
    }
  }

  function FromParts(transport: Transport, endpoint: string): Option<DeliveryTarget> {
    if transport.WebSocket? then Some(ToWebSocket)
    else if endpoint != "" then Some(ToUnifiedPush(endpoint))
    else None
  }

  /** A stored registration gives a target exactly if it is a socket or has an endpoint, and the target
      keeps both parts. */
  lemma TargetKeepsParts(transport: Transport, endpoint: string)
    ensures FromParts(transport, endpoint).None? <==> transport.UnifiedPush? && endpoint == ""
    ensures var t := FromParts(transport, endpoint);
            t.Some? ==> t.value.Transport() == transport && (t.value.ToUnifiedPush? ==> t.value.endpoint == endpoint)
  {
  }

  class DeliveryManager {
    const db: D.Database
    const hub: H.SocketHub
    var upWake: bool // a stored permit; further wakes before it is taken are lost

    ghost predicate Matches(s: State)
      reads db, hub, hub.queues.Values
    {
      s.db == db.View() && hub.Valid() && hub.Matches(s)
    }

    /** A protocol state with these tables and this hub, and nothing else going on. */
    ghost function Snapshot(): State
      reads db, hub, hub.queues.Values
    {
      State(db.View(), hub.Owners(), map k | k in hub.queues :: Conn(map[], hub.queues[k].events, Parked), hub.nextId,
            multiset{}, {}, History([], {}, map[], map[]))
    }

    lemma SnapshotMatches()
      requires hub.Valid()
      ensures Matches(Snapshot())
    {
    }

    lemma MatchesMeans(s: State)
      ensures Matches(s) <==>
                s.db == db.View() && hub.Valid() && hub.Matches(s)
      ensures db.View() == Db(db.outbox, db.acked, db.connectors)
    {
    }

    constructor (db: D.Database, hub: H.SocketHub)
      ensures this.db == db && this.hub == hub && !upWake
    {
      this.db := db;
      this.hub := hub;
      upWake := false;
    }

    /** The insert and the wake are the protocol's two steps, and a new message wakes exactly one side. */
    method EnqueueFcm(
        install: InstallId, app: AppId, target: DeliveryTarget, pid: Option<PersistentId>, payload: seq<Byte>,
        ghost s: State)
      returns (id: Option<nat>)
      requires Matches(s)
      modifies this`upWake, db`outbox, db`acked, hub.queues.Values
      ensures db.View() == Tables.EnqueueFcm(s.db, install, app, target.Transport(), pid, payload).db
      ensures id == Tables.EnqueueFcm(s.db, install, app, target.Transport(), pid, payload).id
      ensures id.Some? <==> payload != [] && !(pid.Some? && pid.value in AckedFor(s.db.acked, install, app))
      ensures upWake == (old(upWake) || (target.ToUnifiedPush? && payload != []
                                         && !(pid.Some? && pid.value in AckedFor(s.db.acked, install, app))))
      ensures forall k :: k in hub.queues ==>
                hub.queues[k].events == old(hub.queues[k].events)
                  + if id.Some? && target.ToWebSocket? && install in hub.attachments
                       && hub.attachments[install].connectionId == k then [Event.Wake] else []
      ensures hub.Valid() && hub.Matches(Told(s, install, target, id))
      ensures var t := FcmEnqueued(s, install, app, target.Transport(), pid, payload); t.Some? && Matches(t.value)
    {
      hide *;
      TransportMeans(target);
      var transport := target.Transport();
      EnqueueIsTwoSteps(s, install, app, transport, pid, payload);
      ghost var e := Tables.EnqueueFcm(s.db, install, app, transport, pid, payload);
      ghost var inserted := Step(s, Outside(FcmArrives(install, app, transport, pid, payload))).value;
      ghost var t := FcmEnqueued(s, install, app, transport, pid, payload).value;
      ToldMeans(s, install, target, e.id);
      MatchesMeans(s);
      id := db.EnqueueFcmMessage(install, app, transport, pid, payload);
      if id.Some? && target.ToWebSocket? {
        WokenMeans(s, install);
        hub.Wake(install, s);
        WokenAlike(s, inserted, install);
        hub.MatchesSame(Woken(s, install), Woken(inserted, install));
        hub.MatchesSame(Woken(inserted, install), t);
      } else {
        if id.Some? {
          upWake := true;
        }
        hub.MatchesSame(s, t);
      }
      MatchesMeans(t);
    }

    method EnqueueUnifiedPush(
        install: InstallId, app: AppId, token: ConnectorToken, payload: seq<Byte>, ghost s: State)
      returns (id: nat)
      requires Matches(s)
      modifies db`outbox, hub.queues.Values
      ensures Some(id) == Tables.EnqueueUnifiedPush(s.db, install, app, token, payload).id
      ensures id == db.outbox.lastId > s.db.outbox.lastId && db.outbox.rows.Keys == s.db.outbox.rows.Keys + {id}
      ensures db.outbox.rows[id] == Row(install, app, Distributor, WebSocket, Some(token), None, payload)
      ensures forall other :: other in s.db.outbox.rows && other != id ==>
                db.outbox.rows[other] == s.db.outbox.rows[other]
      ensures forall k :: k in hub.queues ==>
                hub.queues[k].events == old(hub.queues[k].events)
                  + if install in hub.attachments && hub.attachments[install].connectionId == k then [Event.Wake]
                    else []
      ensures db.View() == Tables.EnqueueUnifiedPush(s.db, install, app, token, payload).db
      ensures var t := PushEnqueued(s, install, app, token, payload); t.Some? && Matches(t.value)
    {
      hide *;
      PushIsTwoSteps(s, install, app, token, payload);
      ghost var inserted := Step(s, Outside(PushArrives(install, app, token, payload))).value;
      ghost var t := PushEnqueued(s, install, app, token, payload).value;
      MatchesMeans(s);
      id := db.EnqueueUnifiedPushMessage(install, app, token, payload);
      hub.MatchesSame(s, inserted);
      WokenMeans(inserted, install);
      hub.Wake(install, inserted);
      hub.MatchesSame(Woken(inserted, install), t);
      MatchesMeans(t);
    }

    /** One due message of the delivery loop: its row goes exactly when it was forwarded, or has no
        endpoint to be forwarded to; after a failure it stays for a later attempt. */
    method DeliverToUnifiedPush(id: nat, endpoint: Option<string>, forwarded: bool, ghost s: State)
      requires Matches(s) && id in s.held
      modifies db`outbox
      ensures forall x :: x in db.outbox.rows <==>
                x in old(db.outbox).rows && !(x == id && (endpoint.None? || forwarded))
      ensures forall x :: x in db.outbox.rows ==> db.outbox.rows[x] == old(db.outbox).rows[x]
      ensures if endpoint.None? || forwarded then
                Step(s, Outside(FinishForward(id))).Some? && Matches(Step(s, Outside(FinishForward(id))).value)
              else Matches(s)
    {
      hide *;
      FinishRemoves(s, id);
      MatchesMeans(s);
      if endpoint.None? || forwarded {
        ghost var t := Step(s, Outside(FinishForward(id))).value;
        db.DeleteOutboxMessage(id);
        RemovedIsDeleted(s.db.outbox, db.outbox, id);
        hub.MatchesSame(s, t);
        MatchesMeans(t);
      }
    }
  }

  function Woken(s: State, install: InstallId): State {
    if install in s.hub then Post(s, s.hub[install], Wake) else s
  }

  lemma WokenMeans(s: State, install: InstallId)
    ensures Woken(s, install) == if install in s.hub then Post(s, s.hub[install], Wake) else s
  {
  }

  /** What the hub is told of a message with this id. */
  function Told(s: State, install: InstallId, target: DeliveryTarget, id: Option<nat>): State {
    if id.Some? && target.ToWebSocket? then Woken(s, install) else s
  }

  lemma TransportMeans(target: DeliveryTarget)
    ensures target.Transport().WebSocket? <==> target.ToWebSocket?
  {
  }

  lemma ToldMeans(s: State, install: InstallId, target: DeliveryTarget, id: Option<nat>)
    ensures Told(s, install, target, id) == if id.Some? && target.ToWebSocket? then Woken(s, install) else s
  {
  }

  lemma TablesAreNotSeen(s: State, t: State)
    requires t == s.(db := t.db)
    ensures H.SameHub(s, t) && H.SameHub(t, s)
  {
  }

  lemma NothingTold(s: State, install: InstallId, target: DeliveryTarget)
    ensures Told(s, install, target, None) == s
  {
  }

  lemma ToldAlike(s: State, t: State, install: InstallId, target: DeliveryTarget, id: Option<nat>)
    requires H.SameHub(s, t)
    ensures H.SameHub(Told(s, install, target, id), Told(t, install, target, id))
  {
  }

  lemma WokenAlike(s: State, t: State, install: InstallId)
    requires H.SameHub(s, t)
    ensures H.SameHub(Woken(s, install), Woken(t, install))
  {
  }

  lemma FinishRemoves(s: State, id: nat)
    requires id in s.held
    ensures var t := Step(s, Outside(FinishForward(id)));
            t.Some? && H.SameHub(s, t.value) && t.value.db == s.db.(outbox := Delete(s.db.outbox, {id}))
  {
  }

  lemma RemovedIsDeleted(before: Outbox, after: Outbox, id: nat)
    requires after.lastId == before.lastId
    requires forall x :: x in after.rows <==> x in before.rows && x != id
    requires forall x :: x in after.rows ==> after.rows[x] == before.rows[x]
    ensures after == Delete(before, {id})
  {
  }

  /** Insert, and then wake the install's owner if a socket message has an id. */
  ghost function FcmEnqueued(
      s: State, install: InstallId, app: AppId, transport: Transport, pid: Option<PersistentId>, payload: seq<Byte>)
    : Option<State>
  {
    var t := Step(s, Outside(FcmArrives(install, app, transport, pid, payload)));
    if t.Some? && transport.WebSocket? && EnqueueFcm(s.db, install, app, transport, pid, payload).id.Some?
    then Step(t.value, WakeOwner(install)) else t
  }

  ghost function PushEnqueued(
      s: State, install: InstallId, app: AppId, token: ConnectorToken, payload: seq<Byte>): Option<State>
  {
    var t := Step(s, Outside(PushArrives(install, app, token, payload)));
    if t.Some? then Step(t.value, WakeOwner(install)) else t
  }

  lemma WakeIsPost(s: State, install: InstallId)
    requires install in s.inflight
    ensures var t := Step(s, WakeOwner(install));
            t.Some? && H.SameHub(Woken(s, install), t.value) && t.value.db == s.db && Woken(s, install).db == s.db
  {
    hide Proceed, Outcome;
  }

  lemma EnqueueIsTwoSteps(
      s: State, install: InstallId, app: AppId, transport: Transport, pid: Option<PersistentId>, payload: seq<Byte>)
    ensures var e := EnqueueFcm(s.db, install, app, transport, pid, payload);
            var t := Step(s, Outside(FcmArrives(install, app, transport, pid, payload)));
            && t.Some? && H.SameHub(s, t.value) && t.value.db == e.db
            && var u := FcmEnqueued(s, install, app, transport, pid, payload);
               u.Some? && u.value.db == e.db
               && if e.id.Some? && transport.WebSocket? then H.SameHub(Woken(t.value, install), u.value)
                  else u == t
  {
    hide EnqueueFcm;
    var e := EnqueueFcm(s.db, install, app, transport, pid, payload);
    var t := Step(s, Outside(FcmArrives(install, app, transport, pid, payload))).value;
    if e.id.Some? && transport.WebSocket? {
      WakeIsPost(t, install);
    }
  }

  lemma PushIsTwoSteps(
      s: State, install: InstallId, app: AppId, token: ConnectorToken, payload: seq<Byte>)
    ensures var e := EnqueueUnifiedPush(s.db, install, app, token, payload);
            var t := Step(s, Outside(PushArrives(install, app, token, payload)));
            && t.Some? && H.SameHub(s, t.value) && t.value.db == e.db
            && var u := PushEnqueued(s, install, app, token, payload);
               u.Some? && u.value.db == e.db && H.SameHub(Woken(t.value, install), u.value)
  {
    var t := Step(s, Outside(PushArrives(install, app, token, payload))).value;
    WakeIsPost(t, install);
  }
}
