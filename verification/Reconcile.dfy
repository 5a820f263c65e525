/** The distributor's reconcile: make the stored connectors of an install exactly the requested ones. */
module Reconcile {
  import opened Types
  import opened Tables
  import I = Installations
  import D = Database
  import Vapid
  import Base64
  import Hex
  import Utf8

  const MAX_ENTRIES: nat := 256
  const MAX_TOKEN_LENGTH: nat := 100

  datatype Entry = Entry(app: AppId, token: ConnectorToken, vapid: Option<string>)

  datatype Status = TooMany | BadToken | BadKey | Unauthorized | BadInstallId | DatabaseError

  datatype Answer = Answer(token: ConnectorToken, endpoint: EndpointToken)

  // ----- validation -----

  function Utf8Length(s: string): nat {
    if s == "" then 0
    else (if s[0] as nat < 0x80 then 1 else if s[0] as nat < 0x800 then 2 else if s[0] as nat < 0x1_0000 then 3 else 4)
         + Utf8Length(s[1..])
  }

  predicate TokenOk(token: ConnectorToken) {
    0 < Utf8Length(token) <= MAX_TOKEN_LENGTH
  }

  predicate InstallIdOk(install: InstallId) {
    16 <= |install| <= 64
    && forall k :: 0 <= k < |install| ==> '0' <= install[k] <= '9' || 'a' <= install[k] <= 'f'
  }

  function EntryProblem(e: Entry): Option<Status> {
    if !TokenOk(e.token) then Some(BadToken)
    else if e.vapid.Some? && Vapid.DecodePublicKey(e.vapid.value).None? then Some(BadKey)
    else None
  }

  /** The problem of the first entry that has one. */
  function FirstProblem(entries: seq<Entry>): Option<Status> {
    if entries == [] then None
    else if EntryProblem(entries[0]).Some? then EntryProblem(entries[0])
    else FirstProblem(entries[1..])
  }

  function CodePoints(s: string): (chars: seq<nat>)
    ensures |chars| == |s| && forall c :: c in chars ==> Utf8.Scalar(c)
  {
    if s == "" then [] else [s[0] as nat] + CodePoints(s[1..])
  }

  /** The length is counted in bytes of the text's encoding. */
  lemma {:induction false} LengthIsInBytes(s: string)
    ensures Utf8Length(s) == |Utf8.EncodeAll(CodePoints(s))|
  {
    if s != "" {
      LengthIsInBytes(s[1..]);
      assert CodePoints(s)[1..] == CodePoints(s[1..]);
    }
  }

  /** An install id is 16 to 64 lower-case hexadecimal digits. */
  lemma InstallIdIsHex(install: InstallId)
    ensures InstallIdOk(install) <==> 16 <= |install| <= 64 && forall c :: c in install ==> Hex.DigitValue(c).Some?
  {
    if forall c :: c in install ==> Hex.DigitValue(c).Some? {
      forall k | 0 <= k < |install| ensures '0' <= install[k] <= '9' || 'a' <= install[k] <= 'f' {
        assert install[k] in install;
      }
    }
  }

  /** A token takes 1 to 100 bytes, a key is the spelling of an uncompressed point; the first of the two
      that fails is the entry's problem. */
  lemma ProblemIsExact(e: Entry)
    ensures EntryProblem(e) == Some(BadToken) <==> e.token == "" || Utf8Length(e.token) > 100
    ensures EntryProblem(e).None? <==>
              e.token != "" && Utf8Length(e.token) <= 100
              && (e.vapid.None? || exists key: Vapid.Key ::
                    |e.vapid.value| == 87 && |key| == 65 && key[0] == 4 && e.vapid.value == Base64.Encode(key))
    ensures EntryProblem(e) in {None, Some(BadToken), Some(BadKey)}
  {
    if e.vapid.Some? {
      if Vapid.DecodePublicKey(e.vapid.value).Some? {
        Vapid.KeyTextIsExact(e.vapid.value, Vapid.DecodePublicKey(e.vapid.value).value);
      }
      forall key: Vapid.Key | |key| == 65 && key[0] == 4 && e.vapid.value == Base64.Encode(key)
        ensures |e.vapid.value| == 87 ==> Vapid.DecodePublicKey(e.vapid.value) == Some(key)
      {
        Vapid.KeyTextIsExact(e.vapid.value, key);
      }
    }
  }

  /** A request has no problem exactly if none of its entries has, and else that of the first that has one. */
  lemma {:induction false} FirstProblemIsExact(entries: seq<Entry>)
    ensures FirstProblem(entries).None? <==> forall e :: e in entries ==> EntryProblem(e).None?
    ensures FirstProblem(entries).Some? ==>
              exists n :: 0 <= n < |entries| && EntryProblem(entries[n]) == FirstProblem(entries)
                && forall m :: 0 <= m < n ==> EntryProblem(entries[m]).None?
  {
    if entries != [] {
      var rest := entries[1..];
      FirstProblemIsExact(rest);
      assert entries == [entries[0]] + rest;
      if EntryProblem(entries[0]).None? && FirstProblem(rest).Some? {
        var n :| 0 <= n < |rest| && EntryProblem(rest[n]) == FirstProblem(rest)
                 && forall m :: 0 <= m < n ==> EntryProblem(rest[m]).None?;
        forall m | 0 <= m < n + 1 ensures EntryProblem(entries[m]).None? {
          assert m > 0 ==> entries[m] == rest[m - 1];
        }
        assert entries[n + 1] == rest[n];
      }
    }
  }

  function Tokens(entries: seq<Entry>): set<ConnectorToken> {
    set e | e in entries :: e.token
  }

  // ----- the registrations, one after the other -----

  datatype Batch = Batch(db: Db, answers: seq<Answer>, failed: bool)

  function RegisterAll(db: Db, install: InstallId, entries: seq<Entry>, candidates: seq<EndpointToken>): Batch
    requires |candidates| >= |entries|
    decreases |entries|
  {
    if entries == [] then Batch(db, [], false)
    else
      match RegisterConnector(db, install, entries[0].app, entries[0].token, candidates[0], entries[0].vapid)
      case EndpointTaken => Batch(db, [], true)
      case Registered(next, endpoint) =>
        var rest := RegisterAll(next, install, entries[1..], candidates[1..]);
        if endpoint.None? then rest
        else rest.(answers := [Answer(entries[0].token, endpoint.value)] + rest.answers)
  }

  function Reconciled(db: Db, install: InstallId, entries: seq<Entry>, candidates: seq<EndpointToken>): Batch
    requires |candidates| >= |entries|
  {
    var batch := RegisterAll(db, install, entries, candidates);
    if batch.failed then batch else batch.(db := DeleteStale(batch.db, install, Tokens(entries)))
  }

  /** What the random generator is expected to give: endpoints that are new, and different from each other. */
  ghost predicate Fresh(candidates: seq<EndpointToken>, cs: Connectors) {
    && (forall j, k :: 0 <= j < k < |candidates| ==> candidates[j] != candidates[k])
    && (forall key, k :: key in cs && 0 <= k < |candidates| ==> cs[key].endpoint != candidates[k])
  }

  // ----- one registration -----

  /** Existing connectors keep their app and endpoint; other keys keep everything. */
  ghost predicate Keeps(before: Connectors, after: Connectors) {
    forall key :: key in before ==>
      key in after && after[key].app == before[key].app && after[key].endpoint == before[key].endpoint
  }

  lemma RegisterStep(
      db: Db, install: InstallId, e: Entry, candidates: seq<EndpointToken>)
    requires candidates != [] && Fresh(candidates, db.connectors)
    ensures var r := RegisterConnector(db, install, e.app, e.token, candidates[0], e.vapid);
            r.Registered? && Fresh(candidates[1..], r.db.connectors)
  {
    assert forall k :: 0 <= k < |candidates| - 1 ==> candidates[1..][k] == candidates[k + 1];
  }

  lemma RegisterKeeps(
      db: Db, install: InstallId, e: Entry, candidate: EndpointToken)
    requires RegisterConnector(db, install, e.app, e.token, candidate, e.vapid).Registered?
    ensures var r, key := RegisterConnector(db, install, e.app, e.token, candidate, e.vapid), (install, e.token);
            && Keeps(db.connectors, r.db.connectors)
            && r.db == db.(connectors := r.db.connectors)
            && r.db.connectors.Keys == db.connectors.Keys + {key}
            && (r.db.connectors - {key} == db.connectors - {key})
            && (r.endpoint.Some? <==> r.db.connectors[key].app == e.app)
            && (r.endpoint.Some? ==> r.db.connectors[key].endpoint == r.endpoint.value
                                     && r.db.connectors[key].vapid == e.vapid)
            && (r.endpoint.None? ==> r.db == db)
  {
  }

  lemma KeepsTransitively(a: Connectors, b: Connectors, c: Connectors)
    requires Keeps(a, b) && Keeps(b, c)
    ensures Keeps(a, c)
  {
  }

  // ----- all of them -----

  lemma {:induction false} BatchSucceeds(
      db: Db, install: InstallId, entries: seq<Entry>, candidates: seq<EndpointToken>)
    requires |candidates| >= |entries| && Fresh(candidates, db.connectors)
    ensures !RegisterAll(db, install, entries, candidates).failed
    decreases |entries|
  {
    hide Fresh, RegisterConnector;
    if entries != [] {
      RegisterStep(db, install, entries[0], candidates);
      var r := RegisterConnector(db, install, entries[0].app, entries[0].token, candidates[0], entries[0].vapid);
      BatchSucceeds(r.db, install, entries[1..], candidates[1..]);
    }
  }

  ghost predicate BatchKeeps(db: Db, install: InstallId, entries: seq<Entry>, after: Db) {
    && Keeps(db.connectors, after.connectors)
    && after == db.(connectors := after.connectors)
    && after.connectors.Keys == db.connectors.Keys + ConnectorKeys(install, Tokens(entries))
    && (forall key :: key in db.connectors && key !in ConnectorKeys(install, Tokens(entries)) ==>
          after.connectors[key] == db.connectors[key])
  }

  lemma TokensSplit(install: InstallId, entries: seq<Entry>)
    requires entries != []
    ensures ConnectorKeys(install, Tokens(entries))
         == {(install, entries[0].token)} + ConnectorKeys(install, Tokens(entries[1..]))
  {
    assert Tokens(entries) == {entries[0].token} + Tokens(entries[1..]) by {
      assert entries == [entries[0]] + entries[1..];
    }
  }

  lemma StepThenBatchKeeps(
      db: Db, next: Db, after: Db, install: InstallId, entries: seq<Entry>)
    requires entries != [] && BatchKeeps(next, install, entries[1..], after)
    requires var key := (install, entries[0].token);
             && Keeps(db.connectors, next.connectors) && next == db.(connectors := next.connectors)
             && next.connectors.Keys == db.connectors.Keys + {key}
             && next.connectors - {key} == db.connectors - {key}
    ensures BatchKeeps(db, install, entries, after)
  {
    hide ConnectorKeys, Tokens, Keeps;
    TokensSplit(install, entries);
    KeepsTransitively(db.connectors, next.connectors, after.connectors);
    var key := (install, entries[0].token);
    forall other | other in db.connectors && other !in ConnectorKeys(install, Tokens(entries))
      ensures after.connectors[other] == db.connectors[other]
    {
      assert other in next.connectors - {key} && (next.connectors - {key})[other] == (db.connectors - {key})[other];
    }
  }

  lemma {:induction false} BatchIsConservative(
      db: Db, install: InstallId, entries: seq<Entry>, candidates: seq<EndpointToken>)
    requires |candidates| >= |entries| && !RegisterAll(db, install, entries, candidates).failed
    ensures BatchKeeps(db, install, entries, RegisterAll(db, install, entries, candidates).db)
    decreases |entries|
  {
    if entries != [] {
      RegisterKeeps(db, install, entries[0], candidates[0]);
      hide RegisterConnector, BatchKeeps, Keeps;
      var r := RegisterConnector(db, install, entries[0].app, entries[0].token, candidates[0], entries[0].vapid);
      BatchIsConservative(r.db, install, entries[1..], candidates[1..]);
      StepThenBatchKeeps(db, r.db, RegisterAll(db, install, entries, candidates).db, install, entries);
    }
  }

  /** The answers, read off the final table: every requested connector that its app owns. */
  function AnswersFrom(cs: Connectors, install: InstallId, entries: seq<Entry>): seq<Answer> {
    if entries == [] then []
    else
      var e := entries[0];
      (if OwnsConnector(cs, install, e.app, e.token) then [Answer(e.token, cs[(install, e.token)].endpoint)] else [])
      + AnswersFrom(cs, install, entries[1..])
  }

  lemma {:induction false} BatchAnswers(
      db: Db, install: InstallId, entries: seq<Entry>, candidates: seq<EndpointToken>)
    requires |candidates| >= |entries| && !RegisterAll(db, install, entries, candidates).failed
    ensures var b := RegisterAll(db, install, entries, candidates);
            b.answers == AnswersFrom(b.db.connectors, install, entries)
    decreases |entries|
  {
    hide RegisterConnector;
    if entries != [] {
      RegisterKeeps(db, install, entries[0], candidates[0]);
      var r := RegisterConnector(db, install, entries[0].app, entries[0].token, candidates[0], entries[0].vapid);
      BatchAnswers(r.db, install, entries[1..], candidates[1..]);
      BatchIsConservative(r.db, install, entries[1..], candidates[1..]);
      var after := RegisterAll(db, install, entries, candidates);
      assert Keeps(r.db.connectors, after.db.connectors);
      assert (install, entries[0].token) in r.db.connectors;
    }
  }

  /** The key of the last entry that is about this connector. */
  function LastVapid(entries: seq<Entry>, app: AppId, token: ConnectorToken): Option<Option<string>> {
    if entries == [] then None
    else if LastVapid(entries[1..], app, token).Some? then LastVapid(entries[1..], app, token)
    else if entries[0].app == app && entries[0].token == token then Some(entries[0].vapid)
    else None
  }

  lemma {:induction false} BatchKeysArePinned(
      db: Db, install: InstallId, entries: seq<Entry>, candidates: seq<EndpointToken>, token: ConnectorToken)
    requires |candidates| >= |entries| && !RegisterAll(db, install, entries, candidates).failed
    requires (install, token) in RegisterAll(db, install, entries, candidates).db.connectors
    ensures var c := RegisterAll(db, install, entries, candidates).db.connectors[(install, token)];
            var last := LastVapid(entries, c.app, token);
            if last.Some? then c.vapid == last.value
            else (install, token) in db.connectors && c.vapid == db.connectors[(install, token)].vapid
    decreases |entries|
  {
    if entries != [] {
      RegisterKeeps(db, install, entries[0], candidates[0]);
      hide RegisterConnector;
      var e := entries[0];
      var r := RegisterConnector(db, install, e.app, e.token, candidates[0], e.vapid);
      BatchKeysArePinned(r.db, install, entries[1..], candidates[1..], token);
      BatchIsConservative(r.db, install, entries[1..], candidates[1..]);
      hide RegisterAll, LastVapid;
      var key := (install, token);
      if key in r.db.connectors && e.token != token {
        assert key in r.db.connectors - {(install, e.token)};
        assert (r.db.connectors - {(install, e.token)})[key] == (db.connectors - {(install, e.token)})[key];
      }
    }
  }

  // ----- the main results -----

  /** Reconcile is exact: with fresh endpoints it succeeds, and afterwards the install has exactly the
      requested connectors, surviving ones with their old endpoint, while nothing else changes but the
      messages of the connectors that went. */
  lemma ReconcileIsExact(
      db: Db, install: InstallId, entries: seq<Entry>, candidates: seq<EndpointToken>)
    requires |candidates| >= |entries| && Fresh(candidates, db.connectors)
    ensures var b := Reconciled(db, install, entries, candidates);
            && !b.failed
            && StoredTokens(b.db.connectors, install) == Tokens(entries)
            && b.answers == AnswersFrom(b.db.connectors, install, entries)
            && (forall key :: key in db.connectors && (key.0 != install || key.1 in Tokens(entries)) ==>
                  key in b.db.connectors && b.db.connectors[key].app == db.connectors[key].app
                  && b.db.connectors[key].endpoint == db.connectors[key].endpoint)
            && (forall key: (InstallId, ConnectorToken) :: key.0 != install ==>
                  (key in b.db.connectors <==> key in db.connectors)
                  && (key in db.connectors ==> b.db.connectors[key] == db.connectors[key]))
            && b.db.acked == db.acked
            && (forall id :: id in b.db.outbox.rows <==>
                  id in db.outbox.rows
                  && !(db.outbox.rows[id].install == install && db.outbox.rows[id].connector.Some?
                       && db.outbox.rows[id].connector.value !in Tokens(entries)
                       && (install, db.outbox.rows[id].connector.value) in db.connectors))
  {
    hide RegisterAll, Fresh;
    BatchSucceeds(db, install, entries, candidates);
    BatchIsConservative(db, install, entries, candidates);
    BatchAnswers(db, install, entries, candidates);
    var batch := RegisterAll(db, install, entries, candidates);
    StaleGone(batch.db, install, entries);
    AnswersSurvive(batch.db, install, entries, entries);
    StaleRowsGone(db, batch.db, install, entries);
  }

  /** A run that meets a taken endpoint leaves every connector with its app and endpoint, and every message. */
  lemma {:induction false} FailureLosesNothing(
      db: Db, install: InstallId, entries: seq<Entry>, candidates: seq<EndpointToken>)
    requires |candidates| >= |entries| && Reconciled(db, install, entries, candidates).failed
    ensures var after := Reconciled(db, install, entries, candidates).db;
            Keeps(db.connectors, after.connectors) && after == db.(connectors := after.connectors)
    decreases |entries|
  {
    var r := RegisterConnector(db, install, entries[0].app, entries[0].token, candidates[0], entries[0].vapid);
    if r.Registered? {
      RegisterKeeps(db, install, entries[0], candidates[0]);
      FailureLosesNothing(r.db, install, entries[1..], candidates[1..]);
    }
  }

  lemma StaleGone(db: Db, install: InstallId, entries: seq<Entry>)
    requires forall token :: token in Tokens(entries) ==> (install, token) in db.connectors
    ensures var after := DeleteStale(db, install, Tokens(entries));
            && StoredTokens(after.connectors, install) == Tokens(entries)
            && (forall key :: key in after.connectors <==>
                  key in db.connectors && (key.0 != install || key.1 in Tokens(entries)))
            && (forall key :: key in after.connectors ==> after.connectors[key] == db.connectors[key])
  {
    hide Tokens;
    var after := DeleteStale(db, install, Tokens(entries));
    forall key | key in db.connectors
      ensures key in after.connectors <==> key.0 != install || key.1 in Tokens(entries)
    {
      assert key == (key.0, key.1);
    }
    forall token | token in Tokens(entries) ensures token in StoredTokens(after.connectors, install) {
      assert (install, token) in after.connectors;
    }
  }

  lemma {:induction false} AnswersSurvive(db: Db, install: InstallId, entries: seq<Entry>, rest: seq<Entry>)
    requires Tokens(rest) <= Tokens(entries)
    requires forall token :: token in Tokens(entries) ==> (install, token) in db.connectors
    ensures AnswersFrom(DeleteStale(db, install, Tokens(entries)).connectors, install, rest)
         == AnswersFrom(db.connectors, install, rest)
  {
    if rest != [] {
      StaleGone(db, install, entries);
      assert rest[0].token in Tokens(rest);
      AnswersSurvive(db, install, entries, rest[1..]);
    }
  }

  lemma StaleRowsGone(before: Db, db: Db, install: InstallId, entries: seq<Entry>)
    requires db.outbox == before.outbox
    requires db.connectors.Keys == before.connectors.Keys + ConnectorKeys(install, Tokens(entries))
    ensures var rows := before.outbox.rows;
            forall id :: id in DeleteStale(db, install, Tokens(entries)).outbox.rows <==>
              id in rows
              && !(rows[id].install == install && rows[id].connector.Some?
                   && rows[id].connector.value !in Tokens(entries)
                   && (install, rows[id].connector.value) in before.connectors)
  {
    hide Tokens;
    forall token | token !in Tokens(entries)
      ensures token in StoredTokens(db.connectors, install) <==> (install, token) in before.connectors
    {
    }
  }

  /** A second run, with whatever candidates, changes nothing and gives the same endpoints. */
  lemma ReconcileIsIdempotent(
      db: Db, install: InstallId, entries: seq<Entry>, candidates: seq<EndpointToken>, others: seq<EndpointToken>)
    requires |candidates| >= |entries| && |others| >= |entries| && Fresh(candidates, db.connectors)
    ensures var once := Reconciled(db, install, entries, candidates);
            Reconciled(once.db, install, entries, others) == once
  {
    BatchSucceeds(db, install, entries, candidates);
    BatchIsConservative(db, install, entries, candidates);
    var first := RegisterAll(db, install, entries, candidates);
    var once := Reconciled(db, install, entries, candidates);
    StaleGone(first.db, install, entries);
    KnownNeedNoEndpoint(once.db, install, entries, others);
    BatchIsConservative(once.db, install, entries, others);
    var second := RegisterAll(once.db, install, entries, others);
    forall key | key in once.db.connectors ensures second.db.connectors[key] == once.db.connectors[key] {
      if key in ConnectorKeys(install, Tokens(entries)) {
        BatchKeysArePinned(db, install, entries, candidates, key.1);
        BatchKeysArePinned(once.db, install, entries, others, key.1);
      }
    }
    assert second.db.connectors == once.db.connectors;
    NothingStale(once.db, install, Tokens(entries));
    ReconcileIsExact(db, install, entries, candidates);
    BatchAnswers(once.db, install, entries, others);
  }

  lemma NothingStale(db: Db, install: InstallId, retained: set<ConnectorToken>)
    requires StoredTokens(db.connectors, install) <= retained
    ensures DeleteStale(db, install, retained) == db
  {
    assert StoredTokens(db.connectors, install) - retained == {};
    assert ConnectorRows(db.outbox, install, {}) == {};
    assert ConnectorKeys(install, {}) == {};
  }

  /** Registering connectors that are all known cannot fail, whatever the candidates. */
  lemma {:induction false} KnownNeedNoEndpoint(
      db: Db, install: InstallId, entries: seq<Entry>, candidates: seq<EndpointToken>)
    requires |candidates| >= |entries|
    requires forall e :: e in entries ==> (install, e.token) in db.connectors
    ensures !RegisterAll(db, install, entries, candidates).failed
    decreases |entries|
  {
    if entries != [] {
      var r := RegisterConnector(db, install, entries[0].app, entries[0].token, candidates[0], entries[0].vapid);
      KnownNeedNoEndpoint(r.db, install, entries[1..], candidates[1..]);
    }
  }

  // ----- the handler -----

  /** The whole request on an otherwise idle database. */
  method DistributorReconcile(
      db: D.Database, h: I.Hash, install: InstallId, secret: Option<I.Secret>, entries: seq<Entry>,
      candidates: seq<EndpointToken>)
    returns (r: Result<seq<Answer>, Status>)
    requires |candidates| >= |entries|
    modifies db`installs, db`connectors, db`outbox
    ensures var problem := if |entries| > MAX_ENTRIES then Some(TooMany) else FirstProblem(entries);
            if problem.Some? then
              r == Err(problem.value) && db.View() == old(db.View()) && db.Accounts() == old(db.Accounts())
            else if secret.None? || !InstallIdOk(install) then
              r == Err(if secret.None? then Unauthorized else BadInstallId)
              && db.View() == old(db.View()) && db.Accounts() == old(db.Accounts())
            else
              var claim := I.Claim(old(db.Accounts()), install, I.HashSecret(h, secret.value), secret.value);
              var b := Reconciled(old(db.View()), install, entries, candidates);
              db.Accounts() == claim.store
              && (!claim.ok ==> r == Err(Unauthorized) && db.View() == old(db.View()))
              && (claim.ok && b.failed ==> r == Err(DatabaseError) && db.View() == b.db)
              && (claim.ok && !b.failed ==> r == Ok(b.answers) && db.View() == b.db)
  {
    if |entries| > MAX_ENTRIES {
      return Err(TooMany);
    }
    var problem := Validate(entries);
    if problem.Some? {
      return Err(problem.value);
    }
    if secret.None? {
      return Err(Unauthorized);
    }
    if !InstallIdOk(install) {
      return Err(BadInstallId);
    }
    var claimed := db.ClaimInstallation(install, I.HashSecret(h, secret.value), secret.value);
    if !claimed {
      return Err(Unauthorized);
    }
    var answers, failed := RegisterEntries(db, install, entries, candidates);
    if failed {
      return Err(DatabaseError);
    }
    var _ := db.DeleteStaleUnifiedPushRegistrations(install, Tokens(entries));
    r := Ok(answers);
  }

  method Validate(entries: seq<Entry>) returns (problem: Option<Status>)
    ensures problem == FirstProblem(entries)
  {
    var n := 0;
    while n < |entries|
      invariant n <= |entries| && FirstProblem(entries[n..]) == FirstProblem(entries)
    {
      problem := EntryProblem(entries[n]);
      if problem.Some? {
        return;
      }
      assert entries[n..][1..] == entries[n + 1..];
      n := n + 1;
    }
    problem := None;
  }

  method RegisterEntries(
      db: D.Database, install: InstallId, entries: seq<Entry>, candidates: seq<EndpointToken>)
    returns (answers: seq<Answer>, failed: bool)
    requires |candidates| >= |entries|
    modifies db`connectors
    ensures var b := RegisterAll(old(db.View()), install, entries, candidates);
            db.View() == b.db && failed == b.failed && (!failed ==> answers == b.answers)
  {
    answers, failed := [], false;
    var n := 0;
    ghost var whole := RegisterAll(db.View(), install, entries, candidates);
    assert entries[0..] == entries && candidates[0..] == candidates;
    while n < |entries|
      invariant n <= |entries| && !failed
      invariant var rest := RegisterAll(db.View(), install, entries[n..], candidates[n..]);
                rest.db == whole.db && rest.failed == whole.failed
                && (!whole.failed ==> answers + rest.answers == whole.answers)
    {
      var e := entries[n];
      var endpoint;
      endpoint, failed := db.RegisterUnifiedPush(install, e.app, e.token, candidates[n], e.vapid);
      assert entries[n..][1..] == entries[n + 1..] && candidates[n..][1..] == candidates[n + 1..];
      if failed {
        return;
      }
      if endpoint.Some? {
        answers := answers + [Answer(e.token, endpoint.value)];
      }
      n := n + 1;
    }
  }
}
