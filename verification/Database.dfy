/** The bridge's database, whose methods are the SQL transactions. */
module Database {
  import opened Types
  import opened Tables
  import I = Installations

  function Reverse<T>(s: seq<T>): (r: seq<T>)
    ensures |r| == |s|
    ensures forall k :: 0 <= k < |s| ==> r[k] == s[|s| - 1 - k]
  {
    if s == [] then [] else Reverse(s[1..]) + [s[0]]
  }

  lemma ReverseTwice<T>(s: seq<T>)
    ensures Reverse(Reverse(s)) == s
  {
  }

  /** Deleting the registrations of several pairs, one after the other. */
  function DeleteRegistrations(db: Db, pairs: seq<(InstallId, AppId)>): Db
    decreases |pairs|
  {
    if pairs == [] then db
    else DeleteRegistration(DeleteRegistrations(db, pairs[..|pairs| - 1]), pairs[|pairs| - 1].0, pairs[|pairs| - 1].1)
  }

  /** A prune removes exactly the FCM rows and the histories of the pruned pairs. */
  lemma {:induction false} PruneIsExact(db: Db, pairs: seq<(InstallId, AppId)>, i: InstallId, a: AppId)
    ensures var after := DeleteRegistrations(db, pairs);
            && (forall id :: id in after.outbox.rows <==>
                  id in db.outbox.rows
                  && !(db.outbox.rows[id].kind == Fcm && (db.outbox.rows[id].install, db.outbox.rows[id].app) in pairs))
            && (forall id :: id in after.outbox.rows ==> after.outbox.rows[id] == db.outbox.rows[id])
            && AckedFor(after.acked, i, a) == (if (i, a) in pairs then [] else AckedFor(db.acked, i, a))
            && after.connectors == db.connectors
    decreases |pairs|
  {
    if pairs != [] {
      var front, last := pairs[..|pairs| - 1], pairs[|pairs| - 1];
      PruneIsExact(db, front, i, a);
      ForgetIsExact(DeleteRegistrations(db, front).acked, last.0, last.1, i, a);
      assert pairs == front + [last];
      assert last == (last.0, last.1);
    }
  }

  class Database {
    var outbox: Outbox
    var acked: seq<Ack>
    var connectors: Connectors
    var installs: map<InstallId, I.Installation>
    var registrations: map<(InstallId, AppId), I.Registration>
    var sessions: map<(InstallId, AppId), string> // saved FCM sessions

    constructor ()
      ensures View() == EMPTY_DB && Accounts() == I.INITIAL.store
    {
      outbox := EMPTY_DB.outbox;
      acked := EMPTY_DB.acked;
      connectors := EMPTY_DB.connectors;
      installs := map[];
      registrations := map[];
      sessions := map[];
    }

    function View(): Db
      reads this
    {
      Db(outbox, acked, connectors)
    }

    function Accounts(): I.Store
      reads this
    {
      I.Store(installs, registrations)
    }

    // ----- ingest -----

    method EnqueueFcmMessage(
        install: InstallId, app: AppId, transport: Transport, pid: Option<PersistentId>, payload: seq<Byte>)
      returns (id: Option<nat>)
      modifies this`outbox, this`acked
      ensures var e := EnqueueFcm(old(View()), install, app, transport, pid, payload);
              View() == e.db && id == e.id
      ensures id.Some? <==> payload != [] && !(pid.Some? && pid.value in AckedFor(old(acked), install, app))
    {
      IngestIdIsExact(View(), install, app, transport, pid, payload);
      var wasAcked := pid.Some? && Ack(install, app, pid.value) in acked;
      id := None;
      if !wasAcked && payload != [] {
        var same := Duplicates(outbox, install, app, pid);
        if same == {} {
          outbox := Insert(outbox, Row(install, app, Fcm, transport, None, pid, payload));
          id := Some(outbox.lastId);
        } else {
          GreatestExists(same);
          var newest :| newest in same && forall x :: x in same ==> x <= newest;
          id := Some(newest);
        }
      }
      if pid.Some? {
        acked := Remember(acked, install, app, pid.value);
        acked := KeepNewest(acked, install, app, MAX_ACK_HISTORY);
      }
    }

    method EnqueueUnifiedPushMessage(install: InstallId, app: AppId, token: ConnectorToken, payload: seq<Byte>)
      returns (id: nat)
      modifies this`outbox
      ensures var e := EnqueueUnifiedPush(old(View()), install, app, token, payload);
              View() == e.db && e.id == Some(id)
      ensures id == outbox.lastId > old(outbox).lastId && outbox.rows.Keys == old(outbox).rows.Keys + {id}
      ensures outbox.rows[id] == Row(install, app, Distributor, WebSocket, Some(token), None, payload)
      ensures forall other :: other in old(outbox).rows && other != id ==> outbox.rows[other] == old(outbox).rows[other]
    {
      outbox := Insert(outbox, Row(install, app, Distributor, WebSocket, Some(token), None, payload));
      id := outbox.lastId;
    }

    /** Newest first, and no more than the limit. */
    method RecentAcks(install: InstallId, app: AppId, limit: nat) returns (ids: seq<PersistentId>)
      ensures ids == Reverse(LastOf(AckedFor(acked, install, app), limit))
    {
      ids := [];
      var k, found := |acked|, 0;
      while k > 0 && found < limit
        invariant 0 <= k <= |acked| && found == |ids| <= limit
        invariant ids == Reverse(AckedFor(acked[k..], install, app))
      {
        k := k - 1;
        assert acked[k..] == [acked[k]] + acked[k + 1..];
        if Owns(acked[k], install, app) {
          ids := ids + [acked[k].pid];
          found := found + 1;
        }
      }
      AckedForSplits(acked[..k], acked[k..], install, app);
      assert acked[..k] + acked[k..] == acked;
      assert k == 0 ==> AckedFor(acked[..k], install, app) == [];
    }

    // ----- sockets -----

    method NextSocketMessage(install: InstallId, cursor: int) returns (next: Option<nat>)
      ensures next == Tables.NextSocketMessage(outbox, install, cursor)
    {
      var waiting := SocketAfter(outbox, install, cursor);
      if waiting == {} {
        return None;
      }
      LeastExists(waiting);
      var least :| least in waiting && forall x :: x in waiting ==> least <= x;
      next := Some(least);
    }

    method AckSocketMessage(install: InstallId, id: nat) returns (deleted: bool)
      modifies this`outbox
      ensures deleted <==> id in old(outbox).rows && ForSocket(old(outbox).rows[id], install)
      ensures outbox == if deleted then Delete(old(outbox), {id}) else old(outbox)
    {
      deleted := id in outbox.rows && ForSocket(outbox.rows[id], install);
      if deleted {
        outbox := Delete(outbox, {id});
      }
    }

    method AckSocketThrough(install: InstallId, cursor: int) returns (deleted: nat)
      modifies this`outbox
      ensures outbox == Delete(old(outbox), SocketUpTo(old(outbox), install, cursor))
      ensures deleted == |SocketUpTo(old(outbox), install, cursor)|
    {
      var gone := SocketUpTo(outbox, install, cursor);
      outbox := Delete(outbox, gone);
      deleted := |gone|;
    }

    method MaxOutboxId() returns (id: nat)
      ensures id == MaxId(outbox)
    {
      if outbox.rows.Keys == {} {
        return 0;
      }
      GreatestExists(outbox.rows.Keys);
      var greatest :| greatest in outbox.rows.Keys && forall x :: x in outbox.rows.Keys ==> x <= greatest;
      id := greatest;
    }

    method DeleteOutboxMessage(id: nat)
      modifies this`outbox
      ensures outbox.lastId == old(outbox).lastId
      ensures forall x :: x in outbox.rows <==> x in old(outbox).rows && x != id
      ensures forall x :: x in outbox.rows ==> outbox.rows[x] == old(outbox).rows[x]
    {
      outbox := Delete(outbox, {id});
    }

    // ----- connectors -----

    /** Fails, changing nothing, when the endpoint of a new connector is already in use. */
    method RegisterUnifiedPush(
        install: InstallId, app: AppId, token: ConnectorToken, candidate: EndpointToken, vapid: Option<string>)
      returns (endpoint: Option<EndpointToken>, failed: bool)
      modifies this`connectors
      ensures match RegisterConnector(old(View()), install, app, token, candidate, vapid)
              case Registered(db, e) => !failed && View() == db && endpoint == e
              case EndpointTaken => failed && connectors == old(connectors)
    {
      endpoint := None;
      failed := false;
      var key := (install, token);
      if key in connectors {
        var existing := connectors[key];
        if existing.app == app {
          connectors := connectors[key := existing.(vapid := vapid)];
          endpoint := Some(existing.endpoint);
        }
      } else if exists other :: other in connectors && connectors[other].endpoint == candidate {
        failed := true;
      } else {
        connectors := connectors[key := Connector(app, candidate, vapid)];
        endpoint := Some(candidate);
      }
    }

    method UnregisterUnifiedPush(install: InstallId, app: AppId, token: ConnectorToken) returns (deleted: bool)
      modifies this`connectors, this`outbox
      ensures View() == UnregisterConnector(old(View()), install, app, token)
      ensures deleted <==> OwnsConnector(old(connectors), install, app, token)
    {
      deleted := OwnsConnector(connectors, install, app, token);
      if deleted {
        connectors := connectors - {(install, token)};
        outbox := Delete(outbox, AppConnectorRows(outbox, install, app, token));
      }
    }

    method DeleteStaleUnifiedPushRegistrations(install: InstallId, retained: set<ConnectorToken>)
      returns (deleted: nat)
      modifies this`connectors, this`outbox
      ensures View() == DeleteStale(old(View()), install, retained)
      ensures deleted == |StoredTokens(old(connectors), install) - retained|
    {
      deleted := DropConnectors(install, StoredTokens(connectors, install) - retained);
    }

    method DropConnectors(install: InstallId, stale: set<ConnectorToken>) returns (deleted: nat)
      modifies this`connectors, this`outbox
      ensures connectors == old(connectors) - ConnectorKeys(install, stale)
      ensures outbox == Delete(old(outbox), ConnectorRows(old(outbox), install, stale))
      ensures deleted == |stale|
    {
      assert connectors - ConnectorKeys(install, {}) == connectors;
      assert Delete(outbox, ConnectorRows(outbox, install, {})) == outbox;
      hide *;
      var rest, gone: set<ConnectorToken> := stale, {};
      deleted := 0;
      while rest != {}
        invariant gone + rest == stale && gone !! rest && deleted == |gone|
        invariant connectors == old(connectors) - ConnectorKeys(install, gone)
        invariant outbox == Delete(old(outbox), ConnectorRows(old(outbox), install, gone))
        decreases rest
      {
        var token :| token in rest;
        DropConnector(install, token);
        DeleteOneMore(old(outbox), install, gone, token);
        DropOneMore(old(connectors), install, gone, token);
        gone, rest := gone + {token}, rest - {token};
        deleted := deleted + 1;
      }
      assert gone == stale;
    }

    /** The two statements that remove one stale connector. */
    method DropConnector(install: InstallId, token: ConnectorToken)
      modifies this`connectors, this`outbox
      ensures connectors == old(connectors) - {(install, token)}
      ensures outbox == Delete(old(outbox), ConnectorRows(old(outbox), install, {token}))
    {
      outbox := Delete(outbox, ConnectorRows(outbox, install, {token}));
      connectors := connectors - {(install, token)};
    }

    // ----- installations and registrations -----

    method ClaimInstallation(install: InstallId, hash: string, secret: I.Secret) returns (claimed: bool)
      modifies this`installs
      ensures var c := I.Claim(old(Accounts()), install, hash, secret);
              Accounts() == c.store && claimed == c.ok
    {
      claimed := install !in installs || installs[install].secretHash == hash;
      if claimed {
        installs := installs[install := I.Installation(hash, Some(secret))];
      }
    }

    /** Reads the hash, verifies the secret outside the database, and then refreshes the stored secret. */
    method VerifyInstallation(h: I.Hash, install: InstallId, secret: I.Secret) returns (verified: bool)
      modifies this`installs
      ensures installs.Keys == old(installs).Keys
      ensures forall i :: i in installs ==>
                installs[i]
                == if verified && i == install then I.Installation(old(installs)[i].secretHash, Some(secret))
                   else old(installs)[i]
      ensures verified <==> install in old(installs) && old(installs)[install].secretHash == I.HashSecret(h, secret)
      ensures Accounts() == if verified then I.Refresh(old(Accounts()), install, secret) else old(Accounts())
    {
      var stored := if install in installs then installs[install].secretHash else "";
      I.VerifyIsExact(h, secret, stored);
      verified := I.VerifySecret(h, secret, stored);
      if verified {
        if install in installs {
          installs := installs[install := installs[install].(secret := Some(secret))];
        }
      }
    }

    method SaveRegistration(install: InstallId, app: AppId, r: I.Registration) returns (saved: bool)
      modifies this`registrations
      ensures var c := I.SaveRegistration(old(Accounts()), install, app, r);
              Accounts() == c.store && saved == c.ok
    {
      var key := (install, app);
      saved := key !in registrations || registrations[key].secretHash == r.secretHash;
      if saved {
        registrations := registrations[key := r];
      }
    }

    method DeleteRegistration(install: InstallId, app: AppId)
      modifies this`registrations, this`sessions, this`acked, this`outbox
      ensures View() == Tables.DeleteRegistration(old(View()), install, app)
      ensures sessions == old(sessions) - {(install, app)}
      ensures Accounts() == I.Remove(old(Accounts()), install, app)
    {
      registrations := registrations - {(install, app)};
      sessions := sessions - {(install, app)};
      acked := Forget(acked, install, app);
      outbox := Delete(outbox, FcmRows(outbox, install, app));
    }

    /** `stale` is what the age query selected. */
    method PruneStale(stale: seq<(InstallId, AppId)>)
      modifies this`registrations, this`sessions, this`acked, this`outbox
      ensures View() == DeleteRegistrations(old(View()), stale)
      ensures registrations == old(registrations) - set pair | pair in stale
      ensures sessions == old(sessions) - set pair | pair in stale
    {
      var k := 0;
      while k < |stale|
        invariant k <= |stale| && connectors == old(connectors)
        invariant View() == DeleteRegistrations(old(View()), stale[..k])
        invariant registrations == old(registrations) - set pair | pair in stale[..k]
        invariant sessions == old(sessions) - set pair | pair in stale[..k]
      {
        var (install, app) := stale[k];
        DeleteRegistration(install, app);
        k := k + 1;
        assert stale[..k][..k - 1] == stale[..k - 1];
      }
      assert stale[..k] == stale;
    }
  }

  lemma {:induction false} AckedForSplits(front: seq<Ack>, back: seq<Ack>, i: InstallId, a: AppId)
    ensures AckedFor(front + back, i, a) == AckedFor(front, i, a) + AckedFor(back, i, a)
    decreases |front|
  {
    if front == [] {
      assert front + back == back;
    } else {
      assert (front + back)[1..] == front[1..] + back;
      AckedForSplits(front[1..], back, i, a);
    }
  }

  lemma DeleteOneMore(
      o: Outbox, install: InstallId, gone: set<ConnectorToken>, token: ConnectorToken)
    ensures (var before := Delete(o, ConnectorRows(o, install, gone));
             Delete(before, ConnectorRows(before, install, {token}))
             == Delete(o, ConnectorRows(o, install, gone + {token})))
  {
  }

  lemma DropOneMore(
      cs: Connectors, install: InstallId, gone: set<ConnectorToken>, token: ConnectorToken)
    ensures cs - ConnectorKeys(install, gone) - {(install, token)} == cs - ConnectorKeys(install, gone + {token})
  {
  }
}
