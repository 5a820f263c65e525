/** The other HTTP handlers, each run on its own from start to end. */
module Handlers {
  import opened Types
  import opened Tables
  import I = Installations
  import D = Database
  import R = Reconcile
  import P = DeliveryProtocol
  import Delivery
  import Vapid
  import H = SocketHub

  datatype Reply =
    | Done
    | Ignored // 204 although nothing was looked up
    | BadTransport | NoEndpoint | EndpointRefused | BadInstallId | Unauthorized | NoFirebase
    | BadToken | BadKey | TokenOfAnotherApp | DatabaseError
    | BadSize | NotFound | BadEncoding | VapidRefused(reason: Vapid.Rejection)

  /** A handler task from its start to its end with nobody else at work. */
  function Alone(h: I.Hash, st: I.Store, task: I.Task): (I.Store, I.Task) {
    var (st1, task1) := I.Proceed(h, st, task);
    var (st2, task2) := I.Proceed(h, st1, task1);
    I.Proceed(h, st2, task2)
  }

  /** Three calls are enough for every handler. */
  lemma AloneFinishes(h: I.Hash, st: I.Store, task: I.Task)
    requires task.Claiming? || task.Verifying?
    ensures var end := Alone(h, st, task).1; end.Authorized? || end.Rejected? || end.LostRace?
  {
  }

  /** Such a handler is a run of the concurrent ones: it arrives and makes its calls. */
  lemma AloneIsARun(h: I.Hash, s: I.State, k: nat, task: I.Task)
    requires k !in s.tasks && (task.Claiming? || task.Verifying?)
    ensures var (store, end) := Alone(h, s.store, task);
            I.Run(h, s, [I.Arrive(k, task), I.Advance(k), I.Advance(k), I.Advance(k)])
            == Some(s.(store := store, tasks := s.tasks[k := end]))
  {
    hide I.Proceed;
    var a := s.(tasks := s.tasks[k := task]);
    var b := OneCall(h, a, k);
    var c := OneCall(h, b, k);
    var d := OneCall(h, c, k);
    assert d.tasks == s.tasks[k := d.tasks[k]];
    var steps := [I.Arrive(k, task), I.Advance(k), I.Advance(k), I.Advance(k)];
    assert steps[1..] == [I.Advance(k), I.Advance(k), I.Advance(k)];
    assert steps[1..][1..] == [I.Advance(k), I.Advance(k)] && steps[1..][1..][1..] == [I.Advance(k)];
    assert steps[1..][1..][1..][1..] == [] && I.Run(h, d, []) == Some(d);
    assert I.Run(h, c, [I.Advance(k)]) == Some(d);
    assert I.Run(h, b, [I.Advance(k), I.Advance(k)]) == Some(d);
    assert I.Run(h, a, [I.Advance(k), I.Advance(k), I.Advance(k)]) == Some(d);
    assert I.Step(h, s, steps[0]) == Some(a);
    assert d == s.(store := d.store, tasks := d.tasks);
  }

  lemma OneCall(h: I.Hash, s: I.State, k: nat) returns (t: I.State)
    requires k in s.tasks
    ensures I.Step(h, s, I.Advance(k)) == Some(t) && k in t.tasks
    ensures (t.store, t.tasks[k]) == I.Proceed(h, s.store, s.tasks[k])
    ensures t == s.(store := t.store, tasks := s.tasks[k := t.tasks[k]])
  {
    t := I.Step(h, s, I.Advance(k)).value;
  }

  /** A task that fails changes nothing, one that was authorised may make its calls, and a prune deletes
      one registration. */
  lemma OtherStepsAreExact(h: I.Hash, s: I.State, k: nat, call: I.Call, install: InstallId, app: AppId)
    ensures k in s.tasks ==> I.Step(h, s, I.Fail(k)) == Some(s.(tasks := s.tasks[k := I.Rejected]))
    ensures k in s.tasks && s.tasks[k].Authorized? ==>
              I.Step(h, s, I.Distribute(k, call)) == Some(s.(db := I.Called(s.db, s.tasks[k].install, call)))
    ensures I.Step(h, s, I.Prune(install, app))
         == Some(s.(store := s.store.(registrations := s.store.registrations - {(install, app)})))
  {
  }

  // ----- register and unregister -----

  function ParseTransport(text: Option<string>): Option<Transport> {
    if text.None? || text.value == "unified_push" then Some(UnifiedPush)
    else if text.value == "websocket" then Some(WebSocket)
    else None
  }

  /** The endpoint to store, or why there is none. */
  function EndpointFor(transport: Transport, endpoint: Option<string>, allowed: string -> bool): Result<string, Reply> {
    if transport.WebSocket? then Ok("")
    else if endpoint.None? then Err(NoEndpoint)
    else if !allowed(endpoint.value) || endpoint.value == "" then Err(EndpointRefused)
    else Ok(endpoint.value)
  }

  /** The request names a transport, and an endpoint if that needs one. */
  predicate Deliverable(transportText: Option<string>, endpoint: Option<string>, allowed: string -> bool) {
    transportText == Some("websocket")
    || (transportText in {None, Some("unified_push")}
        && endpoint.Some? && allowed(endpoint.value) && endpoint.value != "")
  }

  /** The caller may claim the install: it is free, or bound to the hash of this secret. */
  predicate Entitled(st: I.Store, h: I.Hash, installId: Option<InstallId>, secret: Option<I.Secret>) {
    installId.Some? && secret.Some? && R.InstallIdOk(installId.value)
    && (installId.value in st.installs ==>
          st.installs[installId.value].secretHash == I.HashSecret(h, secret.value))
  }

  /** `register`, up to starting the listener. */
  method Register(
      db: D.Database, h: I.Hash, app: AppId, transportText: Option<string>, endpoint: Option<string>,
      allowed: string -> bool, installId: Option<InstallId>, secret: Option<I.Secret>, firebase: Option<I.Firebase>)
    returns (reply: Reply)
    modifies db`installs, db`registrations
    ensures reply.BadTransport? <==> transportText !in {None, Some("unified_push"), Some("websocket")}
    ensures reply.NoEndpoint? <==> transportText in {None, Some("unified_push")} && endpoint.None?
    ensures reply.EndpointRefused? <==>
              transportText in {None, Some("unified_push")} && endpoint.Some?
              && (!allowed(endpoint.value) || endpoint.value == "")
    ensures reply.BadInstallId? <==>
              Deliverable(transportText, endpoint, allowed)
              && secret.Some? && installId.Some? && !R.InstallIdOk(installId.value)
    ensures var entitled := Deliverable(transportText, endpoint, allowed)
                            && Entitled(old(db.Accounts()), h, installId, secret);
            var pair := if installId.Some? then (installId.value, app) else ("", app);
            && (reply.NoFirebase? <==> entitled && firebase.None? && pair !in old(db.registrations))
            && (reply.Done? <==>
                  entitled && (firebase.Some? || pair in old(db.registrations))
                  && (pair in old(db.registrations) ==>
                        old(db.registrations)[pair].secretHash == I.HashSecret(h, secret.value)))
            && (db.installs == if entitled then
                                 old(db.installs)[pair.0 := I.Installation(I.HashSecret(h, secret.value), secret)]
                               else old(db.installs))
            && (db.registrations
                == if reply.Done? then
                     old(db.registrations)[pair := I.Registration(
                       I.HashSecret(h, secret.value),
                       if transportText == Some("websocket") then "" else endpoint.value,
                       if transportText == Some("websocket") then WebSocket else UnifiedPush,
                       if firebase.Some? then firebase.value else old(db.registrations)[pair].firebase)]
                   else old(db.registrations))
    ensures var transport := ParseTransport(transportText);
            transport.Some? && EndpointFor(transport.value, endpoint, allowed).Ok?
            && secret.Some? && installId.Some? && R.InstallIdOk(installId.value) ==>
              var target := EndpointFor(transport.value, endpoint, allowed).value;
              var request := I.Request(target, transport.value, firebase);
              var (store, end) :=
                Alone(h, old(db.Accounts()), I.Claiming(installId.value, app, secret.value, Some(request)));
              db.Accounts() == store && (if reply.Done? then end.Authorized? else end.Rejected? || end.LostRace?)
  {
    var transport := ParseTransport(transportText);
    if transport.None? {
      return BadTransport;
    }
    var target := EndpointFor(transport.value, endpoint, allowed);
    if target.Err? {
      return target.error;
    }
    if installId.None? || secret.None? {
      return Unauthorized;
    }
    if !R.InstallIdOk(installId.value) {
      return BadInstallId;
    }
    var hash := I.HashSecret(h, secret.value);
    AloneFinishes(
      h, db.Accounts(),
      I.Claiming(installId.value, app, secret.value, Some(I.Request(target.value, transport.value, firebase))));
    var claimed := db.ClaimInstallation(installId.value, hash, secret.value);
    if !claimed {
      return Unauthorized;
    }
    var request := I.Request(target.value, transport.value, firebase);
    var credentials := I.FirebaseFor(db.Accounts(), installId.value, app, request);
    if credentials.None? {
      return NoFirebase;
    }
    var saved := db.SaveRegistration(
      installId.value, app, I.Registration(hash, target.value, transport.value, credentials.value));
    reply := if saved then Done else Unauthorized;
  }

  method Authorize(db: D.Database, h: I.Hash, installId: Option<InstallId>, secret: Option<I.Secret>)
    returns (ok: bool)
    modifies db`installs
    ensures ok <==> installId.Some? && secret.Some? && R.InstallIdOk(installId.value)
                    && I.BoundTo(old(db.Accounts()), installId.value, I.HashSecret(h, secret.value))
    ensures db.Accounts() == if ok then I.Refresh(old(db.Accounts()), installId.value, secret.value)
                             else old(db.Accounts())
    ensures db.installs == if ok then
                             old(db.installs)[installId.value :=
                               I.Installation(I.HashSecret(h, secret.value), secret)]
                           else old(db.installs)
  {
    if installId.None? || secret.None? || !R.InstallIdOk(installId.value) {
      return false;
    }
    ok := db.VerifyInstallation(h, installId.value, secret.value);
  }

  /** `unregister`: removes the pair for whoever shows the bound secret, and does nothing for others. */
  method Unregister(
      db: D.Database, h: I.Hash, app: AppId, installId: Option<InstallId>, secret: Option<I.Secret>)
    returns (reply: Reply)
    modifies db`installs, db`registrations, db`sessions, db`acked, db`outbox
    ensures reply == if installId.Some? && secret.Some? && R.InstallIdOk(installId.value)
                        && I.BoundTo(old(db.Accounts()), installId.value, I.HashSecret(h, secret.value))
                     then Done else Unauthorized
    ensures reply.Done? ==>
              db.View() == Tables.DeleteRegistration(old(db.View()), installId.value, app)
              && db.Accounts()
                 == Alone(h, old(db.Accounts()), I.Verifying(installId.value, app, secret.value, I.UnregisterApp)).0
    ensures reply.Done? ==>
              && db.registrations == old(db.registrations) - {(installId.value, app)}
              && AckedFor(db.acked, installId.value, app) == []
              && (forall i, a :: (i, a) != (installId.value, app) ==>
                    AckedFor(db.acked, i, a) == AckedFor(old(db.acked), i, a))
              && (forall id :: id in db.outbox.rows <==>
                    id in old(db.outbox).rows
                    && !(old(db.outbox).rows[id].install == installId.value && old(db.outbox).rows[id].app == app
                         && old(db.outbox).rows[id].kind == Fcm))
              && (forall id :: id in db.outbox.rows ==> db.outbox.rows[id] == old(db.outbox).rows[id])
              && db.outbox.lastId == old(db.outbox).lastId
    ensures reply.Done? ==> db.sessions == old(db.sessions) - {(installId.value, app)}
    ensures !reply.Done? ==>
              db.View() == old(db.View()) && db.Accounts() == old(db.Accounts()) && db.sessions == old(db.sessions)
  {
    var ok := Authorize(db, h, installId, secret);
    if !ok {
      return Unauthorized;
    }
    I.VerifyIsExact(h, secret.value, db.installs[installId.value].secretHash);
    forall i, a ensures AckedFor(Forget(db.acked, installId.value, app), i, a)
                     == if (i, a) == (installId.value, app) then [] else AckedFor(db.acked, i, a)
    {
      ForgetIsExact(db.acked, installId.value, app, i, a);
    }
    db.DeleteRegistration(installId.value, app);
    reply := Done;
  }

  // ----- connectors -----

  /** `distributor_register`. */
  method DistributorRegister(
      db: D.Database, h: I.Hash, installId: InstallId, entry: R.Entry, secret: Option<I.Secret>,
      candidate: EndpointToken)
    returns (reply: Reply, endpoint: Option<EndpointToken>)
    modifies db`installs, db`connectors
    ensures reply.Done? ==>
              endpoint.Some? && (installId, entry.token) in db.connectors
              && db.connectors[(installId, entry.token)] == Connector(entry.app, endpoint.value, entry.vapid)
              && ((installId, entry.token) in old(db.connectors) ==>
                    endpoint.value == old(db.connectors)[(installId, entry.token)].endpoint)
              && secret.Some? && I.BoundTo(db.Accounts(), installId, I.HashSecret(h, secret.value))
              && db.connectors - {(installId, entry.token)} == old(db.connectors) - {(installId, entry.token)}
    ensures !reply.Done? ==> db.connectors == old(db.connectors)
    ensures reply.TokenOfAnotherApp? ==>
              (installId, entry.token) in db.connectors && db.connectors[(installId, entry.token)].app != entry.app
    ensures if R.EntryProblem(entry).Some? || secret.None? || !R.InstallIdOk(installId) then
              !reply.Done? && !reply.TokenOfAnotherApp? && !reply.DatabaseError?
              && db.Accounts() == old(db.Accounts())
            else
              var key, entitled := (installId, entry.token), Entitled(old(db.Accounts()), h, Some(installId), secret);
              && (reply.Unauthorized? <==> !entitled)
              && db.registrations == old(db.registrations)
              && (db.installs == if entitled then
                                   old(db.installs)[installId :=
                                     I.Installation(I.HashSecret(h, secret.value), secret)]
                                 else old(db.installs))
              && (reply.TokenOfAnotherApp? <==>
                    entitled && key in old(db.connectors) && old(db.connectors)[key].app != entry.app)
              && (reply.DatabaseError? <==>
                    entitled && key !in old(db.connectors)
                    && exists other :: other in old(db.connectors) && old(db.connectors)[other].endpoint == candidate)
              && (reply.Done? <==> entitled && !reply.TokenOfAnotherApp? && !reply.DatabaseError?)
              && (reply.Done? && key !in old(db.connectors) ==> endpoint == Some(candidate))
              && var (store, end) :=
                   Alone(h, old(db.Accounts()), I.Claiming(installId, entry.app, secret.value, None));
                 db.Accounts() == store && (if entitled then end.Authorized? else end.Rejected?)
  {
    endpoint := None;
    var problem := R.EntryProblem(entry);
    if problem.Some? {
      return if problem.value.BadToken? then BadToken else BadKey, None;
    }
    if secret.None? {
      return Unauthorized, None;
    }
    if !R.InstallIdOk(installId) {
      return BadInstallId, None;
    }
    var claimed := db.ClaimInstallation(installId, I.HashSecret(h, secret.value), secret.value);
    if !claimed {
      return Unauthorized, None;
    }
    var failed;
    endpoint, failed := db.RegisterUnifiedPush(installId, entry.app, entry.token, candidate, entry.vapid);
    if failed {
      return DatabaseError, None;
    }
    reply := if endpoint.Some? then Done else TokenOfAnotherApp;
  }

  /** `distributor_unregister`: an impossible token is ignored, but only after the secret was checked. */
  method DistributorUnregister(
      db: D.Database, h: I.Hash, installId: InstallId, app: AppId, token: ConnectorToken, secret: Option<I.Secret>)
    returns (reply: Reply)
    modifies db`installs, db`connectors, db`outbox
    ensures reply.Unauthorized? <==>
              !(secret.Some? && R.InstallIdOk(installId)
                && I.BoundTo(old(db.Accounts()), installId, I.HashSecret(h, secret.value)))
    ensures !reply.Unauthorized? ==> reply == if R.TokenOk(token) then Done else Ignored
    ensures !reply.Done? ==> db.View() == old(db.View())
    ensures db.registrations == old(db.registrations)
    ensures secret.Some? && R.InstallIdOk(installId) ==>
              var (store, end) :=
                Alone(h, old(db.Accounts()), I.Verifying(installId, app, secret.value, I.UnregisterConnector));
              db.Accounts() == store && (if reply.Unauthorized? then end.Rejected? else end.Authorized?)
    ensures db.installs == if reply.Unauthorized? then old(db.installs)
                           else old(db.installs)[installId :=
                             I.Installation(I.HashSecret(h, secret.value), secret)]
    ensures reply.Done? ==>
              var key := (installId, token);
              var owned := key in old(db.connectors) && old(db.connectors)[key].app == app;
              && (key !in db.connectors <==> owned || key !in old(db.connectors))
              && (forall other :: other in db.connectors <==>
                    other in old(db.connectors) && !(owned && other == key))
              && (forall other :: other in db.connectors ==> db.connectors[other] == old(db.connectors)[other])
              && (forall id :: id in db.outbox.rows <==>
                    id in old(db.outbox).rows
                    && !(owned && old(db.outbox).rows[id].install == installId && old(db.outbox).rows[id].app == app
                         && old(db.outbox).rows[id].connector == Some(token)))
              && (forall id :: id in db.outbox.rows ==> db.outbox.rows[id] == old(db.outbox).rows[id])
              && db.outbox.lastId == old(db.outbox).lastId
  {
    if secret.Some? && installId in db.installs {
      I.VerifyIsExact(h, secret.value, db.installs[installId].secretHash);
    } else if secret.Some? {
      I.VerifyIsExact(h, secret.value, "");
    }
    var ok := Authorize(db, h, Some(installId), secret);
    if !ok {
      return Unauthorized;
    }
    if !R.TokenOk(token) {
      return Ignored;
    }
    UnregisterIsExact(db.View(), installId, app, token);
    var _ := db.UnregisterUnifiedPush(installId, app, token);
    reply := Done;
  }

  /** A call of an authorised task does to the tables what the step of the bridge for it does. */
  lemma CallsAreTheBridges(s: P.State, install: InstallId, call: I.Call)
    ensures var op := match call
                      case Connect(app, token, candidate, vapid) => P.Connect(install, app, token, candidate, vapid)
                      case Disconnect(app, token) => P.Disconnect(install, app, token)
                      case Retain(tokens) => P.Operation.Reconcile(install, tokens);
            var t := P.Step(s, P.Outside(op));
            t.Some? && t.value.db == I.Called(s.db, install, call)
  {
  }

  // ----- messages for connectors -----

  const MAX_PUSH_BYTES: nat := 4096

  datatype Headers = Headers(isAes128Gcm: bool, authorization: Option<string>)

  /** What a request to a registered endpoint is answered with. */
  function PushVerdict(
      o: Vapid.Oracle, c: Connector, origin: Option<string>, headers: Headers, now: Vapid.U64): Reply
  {
    if c.vapid.None? || origin.None? then Done
    else if !headers.isAes128Gcm then BadEncoding
    else
      match Vapid.Verdict(o, headers.authorization, c.vapid.value, origin.value, now)
      case Some(reason) => VapidRefused(reason)
      case None => Done
  }

  /** Where a key is pinned and an origin enforced, the reply is a success exactly for an aes128gcm body
      whose sender proves the key; otherwise the sender is not asked for anything. */
  ghost predicate PushAnswered(
      o: Vapid.Oracle, c: Connector, origin: Option<string>, headers: Headers, now: Vapid.U64, reply: Reply)
  {
    var asked := c.vapid.Some? && origin.Some?;
    && (reply.BadEncoding? <==> asked && !headers.isAes128Gcm)
    && (reply.VapidRefused? <==>
          asked && headers.isAes128Gcm
          && !Vapid.Proves(o, headers.authorization, c.vapid.value, origin.value, now))
    && (reply.VapidRefused? ==>
          Some(reply.reason) == Vapid.Verdict(o, headers.authorization, c.vapid.value, origin.value, now))
    && (reply.Done? <==> !reply.BadEncoding? && !reply.VapidRefused?)
  }

  /** The one new row is a socket message for the connector, with the body as its payload. */
  ghost predicate PushStored(before: Db, key: (InstallId, ConnectorToken), body: seq<Byte>, after: Db)
    requires key in before.connectors
  {
    var id, rows := after.outbox.lastId, after.outbox.rows;
    && after.connectors == before.connectors && after.acked == before.acked
    && id > before.outbox.lastId && rows.Keys == before.outbox.rows.Keys + {id}
    && rows[id] == Row(key.0, before.connectors[key].app, Distributor, WebSocket, Some(key.1), None, body)
    && forall other :: other in before.outbox.rows && other != id ==> rows[other] == before.outbox.rows[other]
  }

  /** The owner of the install, and nobody else, has one more event, a Wake. */
  twostate predicate Woken(hub: H.SocketHub, install: InstallId)
    reads hub, hub.queues.Values
  {
    forall k :: k in hub.queues && k in old(hub.queues) ==>
      hub.queues[k].events == old(hub.queues[k].events)
        + if install in hub.attachments && hub.attachments[install].connectionId == k then [P.Wake] else []
  }

  lemma VerdictAnswers(
      o: Vapid.Oracle, c: Connector, origin: Option<string>, headers: Headers, now: Vapid.U64)
    ensures PushAnswered(o, c, origin, headers, now, PushVerdict(o, c, origin, headers, now))
  {
    hide Vapid.Verdict, Vapid.Proves;
    if c.vapid.Some? && origin.Some? {
      Vapid.AcceptanceIsExact(o, headers.authorization, c.vapid.value, origin.value, now);
    }
  }

  lemma AnswersAreThree(
      o: Vapid.Oracle, c: Connector, origin: Option<string>, headers: Headers, now: Vapid.U64, reply: Reply)
    requires PushAnswered(o, c, origin, headers, now, reply)
    ensures reply.Done? || reply.BadEncoding? || reply.VapidRefused?
  {
  }

  method StorePush(
      delivery: Delivery.DeliveryManager, key: (InstallId, ConnectorToken), body: seq<Byte>, ghost s: P.State)
    requires delivery.Matches(s) && key in s.db.connectors
    modifies delivery.db`outbox, delivery.hub.queues.Values
    ensures PushStored(s.db, key, body, delivery.db.View()) && Woken(delivery.hub, key.0)
    ensures var t := Delivery.PushEnqueued(s, key.0, s.db.connectors[key].app, key.1, body);
            t.Some? && delivery.Matches(t.value)
  {
    hide Delivery.PushEnqueued, EnqueueUnifiedPush;
    var app := delivery.db.connectors[key].app;
    var _ := delivery.EnqueueUnifiedPush(key.0, app, key.1, body, s);
  }

  /** `unified_push_message`: stores the body for the connector behind the endpoint, and wakes its
      owner, exactly if the body has a proper size and, where a key is pinned, the sender proves it. */
  method UnifiedPushMessage(
      delivery: Delivery.DeliveryManager, o: Vapid.Oracle, endpoint: EndpointToken, headers: Headers,
      body: seq<Byte>, origin: Option<string>, now: Vapid.U64, ghost s: P.State)
    returns (reply: Reply)
    requires delivery.Matches(s)
    modifies delivery.db`outbox, delivery.hub.queues.Values
    ensures reply.BadSize? <==> body == [] || |body| > MAX_PUSH_BYTES
    ensures !reply.BadSize? ==>
              (reply.NotFound? <==> forall key :: key in s.db.connectors ==> s.db.connectors[key].endpoint != endpoint)
    ensures !reply.Done? ==> delivery.Matches(s)
    ensures !reply.BadSize? && !reply.NotFound? ==>
              exists key :: key in s.db.connectors && s.db.connectors[key].endpoint == endpoint
                && PushAnswered(o, s.db.connectors[key], origin, headers, now, reply)
                && (reply.Done? ==>
                      && PushStored(s.db, key, body, delivery.db.View())
                      && Woken(delivery.hub, key.0)
                      && var t := Delivery.PushEnqueued(s, key.0, s.db.connectors[key].app, key.1, body);
                         t.Some? && delivery.Matches(t.value))
  {
    hide PushVerdict, PushAnswered, PushStored, Woken, Delivery.PushEnqueued;
    if body == [] || |body| > MAX_PUSH_BYTES {
      return BadSize;
    }
    var connectors := delivery.db.connectors;
    if forall key :: key in connectors ==> connectors[key].endpoint != endpoint {
      return NotFound;
    }
    var key :| key in connectors && connectors[key].endpoint == endpoint;
    reply := PushVerdict(o, connectors[key], origin, headers, now);
    VerdictAnswers(o, connectors[key], origin, headers, now);
    AnswersAreThree(o, connectors[key], origin, headers, now, reply);
    if reply.Done? {
      StorePush(delivery, key, body, s);
    }
  }
}
