/** How an install id is bound to the hash of one secret, and what the handlers do to that binding. */
module Installations {
  import opened Types
  import Hex
  import Tables

  type Secret = seq<Byte>
  type Digest = b: seq<Byte> | |b| == 32 witness seq(32, _ => 0)

  // SHA-256, which the model knows nothing about.
  type Hash = Secret -> Digest

  function HashSecret(h: Hash, secret: Secret): string {
    Hex.Encode(h(secret))
  }

  function VerifySecret(h: Hash, secret: Secret, storedHash: string): bool {
    match Hex.Decode(storedHash)
    case None => false
    case Some(stored) => stored == h(secret)
  }

  /** Verification accepts exactly the text that hashing the same secret would have stored. */
  lemma VerifyIsExact(h: Hash, secret: Secret, storedHash: string)
    ensures VerifySecret(h, secret, storedHash) <==> storedHash == HashSecret(h, secret)
    ensures !VerifySecret(h, secret, "")
  {
    Hex.DecodeIsExact(storedHash, h(secret));
    assert |h(secret)| == 32;
  }

  // ----- the two tables -----

  datatype Installation = Installation(secretHash: string, secret: Option<Secret>)

  datatype Firebase = Firebase(appId: string, projectId: string, apiKey: string)

  datatype Registration = Registration(secretHash: string, endpoint: string, transport: Transport, firebase: Firebase)

  datatype Store = Store(installs: map<InstallId, Installation>, registrations: map<(InstallId, AppId), Registration>)

  datatype Changed = Changed(store: Store, ok: bool)

  /** Takes the install id if it is free, refreshes the secret if the hash is the same, and else does nothing. */
  function Claim(st: Store, install: InstallId, hash: string, secret: Secret): Changed {
    if install !in st.installs || st.installs[install].secretHash == hash then
      Changed(st.(installs := st.installs[install := Installation(hash, Some(secret))]), true)
    else Changed(st, false)
  }

  function Refresh(st: Store, install: InstallId, secret: Secret): Store {
    if install in st.installs then
      st.(installs := st.installs[install := st.installs[install].(secret := Some(secret))])
    else st
  }

  function SaveRegistration(st: Store, install: InstallId, app: AppId, r: Registration): Changed {
    if (install, app) !in st.registrations || st.registrations[(install, app)].secretHash == r.secretHash then
      Changed(st.(registrations := st.registrations[(install, app) := r]), true)
    else Changed(st, false)
  }

  function Remove(st: Store, install: InstallId, app: AppId): Store {
    st.(registrations := st.registrations - {(install, app)})
  }

  /** A claim succeeds exactly on a free install, or with the hash it is bound to; then hash and secret are
      stored for it, and nothing else changes. */
  lemma ClaimIsExact(st: Store, install: InstallId, hash: string, secret: Secret)
    ensures var c := Claim(st, install, hash, secret);
            && (c.ok <==> install in st.installs ==> st.installs[install].secretHash == hash)
            && c.store.registrations == st.registrations
            && c.store.installs
               == if c.ok then st.installs[install := Installation(hash, Some(secret))] else st.installs
  {
  }

  /** A refresh stores the secret of a known install under its hash, and nothing else. */
  lemma RefreshIsExact(st: Store, install: InstallId, secret: Secret)
    ensures var after := Refresh(st, install, secret);
            && after.registrations == st.registrations && after.installs.Keys == st.installs.Keys
            && forall i :: i in st.installs ==>
                 after.installs[i].secretHash == st.installs[i].secretHash
                 && after.installs[i].secret == if i == install then Some(secret) else st.installs[i].secret
  {
  }

  /** A save succeeds exactly for a free pair, or one registered under the same hash. */
  lemma SaveIsExact(st: Store, install: InstallId, app: AppId, r: Registration)
    ensures var c, pair := SaveRegistration(st, install, app, r), (install, app);
            && (c.ok <==> pair in st.registrations ==> st.registrations[pair].secretHash == r.secretHash)
            && c.store.installs == st.installs
            && c.store.registrations == if c.ok then st.registrations[pair := r] else st.registrations
  {
  }

  /** After an unregistration exactly that pair is gone, and it can be registered anew. */
  lemma RemoveIsExact(st: Store, install: InstallId, app: AppId, r: Registration)
    ensures var after := Remove(st, install, app);
            && (install, app) !in after.registrations && after.installs == st.installs
            && (forall pair :: pair != (install, app) ==> SameAt(st, after, pair))
            && SaveRegistration(after, install, app, r).ok
  {
  }

  // ----- the handlers, one database call a step -----

  datatype Request = Request(endpoint: string, transport: Transport, firebase: Option<Firebase>)

  datatype Purpose = UnregisterApp | UnregisterConnector

  datatype Task =
    | Claiming(install: InstallId, app: AppId, secret: Secret, saves: Option<Request>) // None: a distributor handler
    | LookingUp(install: InstallId, app: AppId, hash: string, request: Request)
    | Saving(install: InstallId, app: AppId, registration: Registration)
    | LostRace(install: InstallId, app: AppId)
    | Verifying(install: InstallId, app: AppId, secret: Secret, purpose: Purpose)
    | Refreshing(install: InstallId, app: AppId, secret: Secret, purpose: Purpose)
    | Deleting(install: InstallId, app: AppId, secret: Secret)
    | Authorized(install: InstallId, hash: string)
    | Rejected

  // What a distributor handler does to the connectors of the install that it was authorised for.
  datatype Call =
    | Connect(app: AppId, token: ConnectorToken, candidate: EndpointToken, vapid: Option<string>)
    | Disconnect(app: AppId, token: ConnectorToken)
    | Retain(tokens: set<ConnectorToken>)

  datatype State = State(store: Store, tasks: map<nat, Task>, db: Tables.Db)

  const INITIAL := State(Store(map[], map[]), map[], Tables.EMPTY_DB)

  datatype Label =
    | Arrive(k: nat, task: Task)
    | Advance(k: nat)
    | Fail(k: nat)
    | Prune(install: InstallId, app: AppId)
    | Distribute(k: nat, call: Call)

  /** The credentials a registration is saved with: the request's, or else those already stored. */
  function FirebaseFor(st: Store, install: InstallId, app: AppId, request: Request): Option<Firebase> {
    if request.firebase.Some? then request.firebase
    else if (install, app) in st.registrations then Some(st.registrations[(install, app)].firebase)
    else None
  }

  function Proceed(h: Hash, st: Store, task: Task): (Store, Task) {
    match task
    case Claiming(install, app, secret, saves) =>
      var hash := HashSecret(h, secret);
      var claim := Claim(st, install, hash, secret);
      (claim.store,
       if !claim.ok then Rejected
       else if saves.None? then Authorized(install, hash)
       else LookingUp(install, app, hash, saves.value))
    case LookingUp(install, app, hash, request) =>
      var firebase := FirebaseFor(st, install, app, request);
      (st, if firebase.None? then Rejected
           else Saving(install, app, Registration(hash, request.endpoint, request.transport, firebase.value)))
    case Saving(install, app, registration) =>
      var save := SaveRegistration(st, install, app, registration);
      (save.store, if save.ok then Authorized(install, registration.secretHash) else LostRace(install, app))
    case Verifying(install, app, secret, purpose) =>
      var stored := if install in st.installs then st.installs[install].secretHash else "";
      (st, if VerifySecret(h, secret, stored) then Refreshing(install, app, secret, purpose) else Rejected)
    case Refreshing(install, app, secret, purpose) =>
      (Refresh(st, install, secret),
       if purpose.UnregisterApp? then Deleting(install, app, secret) else Authorized(install, HashSecret(h, secret)))
    case Deleting(install, app, secret) => (Remove(st, install, app), Authorized(install, HashSecret(h, secret)))
    case _ => (st, task)
  }

  function Called(db: Tables.Db, install: InstallId, call: Call): Tables.Db {
    match call
    case Connect(app, token, candidate, vapid) =>
      var r := Tables.RegisterConnector(db, install, app, token, candidate, vapid);
      if r.Registered? then r.db else db
    case Disconnect(app, token) => Tables.UnregisterConnector(db, install, app, token)
    case Retain(tokens) => Tables.DeleteStale(db, install, tokens)
  }

  function Step(h: Hash, s: State, l: Label): Option<State> {
    match l
    case Arrive(k, task) =>
      if k !in s.tasks && (task.Claiming? || task.Verifying?) then Some(s.(tasks := s.tasks[k := task])) else None
    case Advance(k) =>
      if k in s.tasks then
        var (store, task) := Proceed(h, s.store, s.tasks[k]);
        Some(s.(store := store, tasks := s.tasks[k := task]))
      else None
    case Fail(k) => if k in s.tasks then Some(s.(tasks := s.tasks[k := Rejected])) else None
    case Prune(install, app) => Some(s.(store := Remove(s.store, install, app)))
    case Distribute(k, call) =>
      if k in s.tasks && s.tasks[k].Authorized? then Some(s.(db := Called(s.db, s.tasks[k].install, call))) else None
  }

  function Run(h: Hash, s: State, steps: seq<Label>): Option<State>
    decreases |steps|
  {
    if steps == [] then Some(s)
    else
      var t := Step(h, s, steps[0]);
      if t.None? then None else Run(h, t.value, steps[1..])
  }

  // ----- the invariant -----

  /** The hash an install id is bound to, once it is. */
  predicate BoundTo(st: Store, install: InstallId, hash: string) {
    install in st.installs && st.installs[install].secretHash == hash
  }

  predicate TaskOk(h: Hash, st: Store, task: Task) {
    match task
    case LookingUp(install, _, hash, _) => BoundTo(st, install, hash)
    case Saving(install, _, registration) => BoundTo(st, install, registration.secretHash)
    case Refreshing(install, _, secret, _) => BoundTo(st, install, HashSecret(h, secret))
    case Deleting(install, _, secret) => BoundTo(st, install, HashSecret(h, secret))
    case Authorized(install, hash) => BoundTo(st, install, hash)
    case LostRace(_, _) => false
    case _ => true
  }

  ghost predicate SecretsMatch(h: Hash, st: Store) {
    forall i :: i in st.installs && st.installs[i].secret.Some? ==>
      HashSecret(h, st.installs[i].secret.value) == st.installs[i].secretHash
  }

  ghost predicate RegistrationsMatch(st: Store) {
    forall key :: key in st.registrations ==> BoundTo(st, key.0, st.registrations[key].secretHash)
  }

  ghost predicate Inv(h: Hash, s: State) {
    && SecretsMatch(h, s.store)
    && RegistrationsMatch(s.store)
    && (forall k :: k in s.tasks ==> TaskOk(h, s.store, s.tasks[k]))
  }

  /** Every binding of `before` is still there in `after`. */
  ghost predicate BindingsKept(before: Store, after: Store) {
    forall i :: i in before.installs ==> BoundTo(after, i, before.installs[i].secretHash)
  }

  lemma ProceedKeepsBindings(h: Hash, st: Store, task: Task)
    ensures BindingsKept(st, Proceed(h, st, task).0)
  {
  }

  lemma TasksStayOk(h: Hash, before: Store, after: Store, task: Task)
    requires BindingsKept(before, after) && TaskOk(h, before, task)
    ensures TaskOk(h, after, task)
  {
  }

  lemma ProceedKeepsTables(h: Hash, st: Store, task: Task)
    requires SecretsMatch(h, st) && RegistrationsMatch(st) && TaskOk(h, st, task)
    ensures SecretsMatch(h, Proceed(h, st, task).0) && RegistrationsMatch(Proceed(h, st, task).0)
  {
  }

  lemma ProceedKeepsTaskOk(h: Hash, st: Store, task: Task)
    requires RegistrationsMatch(st) && TaskOk(h, st, task)
    ensures TaskOk(h, Proceed(h, st, task).0, Proceed(h, st, task).1)
  {
    if task.Verifying? {
      var stored := if task.install in st.installs then st.installs[task.install].secretHash else "";
      VerifyIsExact(h, task.secret, stored);
    }
  }

  lemma StepKeepsInv(h: Hash, s: State, l: Label, t: State)
    requires Inv(h, s) && Step(h, s, l) == Some(t)
    ensures Inv(h, t) && BindingsKept(s.store, t.store)
  {
    hide Proceed, HashSecret;
    if l.Advance? {
      var task := s.tasks[l.k];
      ProceedKeepsBindings(h, s.store, task);
      ProceedKeepsTables(h, s.store, task);
      ProceedKeepsTaskOk(h, s.store, task);
      forall k | k in s.tasks ensures TaskOk(h, t.store, s.tasks[k]) {
        TasksStayOk(h, s.store, t.store, s.tasks[k]);
      }
    }
  }

  lemma {:induction false} RunKeepsInv(h: Hash, s: State, steps: seq<Label>, t: State)
    requires Inv(h, s) && Run(h, s, steps) == Some(t)
    ensures Inv(h, t) && BindingsKept(s.store, t.store)
    decreases |steps|
  {
    if steps != [] {
      var next := Step(h, s, steps[0]).value;
      StepKeepsInv(h, s, steps[0], next);
      RunKeepsInv(h, next, steps[1..], t);
    }
  }

  // ----- what follows -----

  ghost predicate Reachable(h: Hash, s: State) {
    exists steps :: Run(h, INITIAL, steps) == Some(s)
  }

  lemma ReachableInv(h: Hash, s: State)
    requires Reachable(h, s)
    ensures Inv(h, s)
  {
    var steps :| Run(h, INITIAL, steps) == Some(s);
    RunKeepsInv(h, INITIAL, steps, s);
  }

  /** The first claim binds an install id for ever: no interleaving of handlers changes its hash. */
  lemma FirstClaimBindsForEver(h: Hash, s: State, steps: seq<Label>, t: State, install: InstallId)
    requires Reachable(h, s) && Run(h, s, steps) == Some(t) && install in s.store.installs
    ensures BoundTo(t.store, install, s.store.installs[install].secretHash)
  {
    ReachableInv(h, s);
    RunKeepsInv(h, s, steps, t);
  }

  /** A stored secret hashes to the stored hash, and all registrations of an install carry that hash. */
  lemma StoredSecretsAndRegistrationsAgree(h: Hash, s: State, install: InstallId, app: AppId)
    requires Reachable(h, s)
    ensures install in s.store.installs && s.store.installs[install].secret.Some? ==>
              VerifySecret(h, s.store.installs[install].secret.value, s.store.installs[install].secretHash)
    ensures (install, app) in s.store.registrations ==>
              BoundTo(s.store, install, s.store.registrations[(install, app)].secretHash)
  {
    ReachableInv(h, s);
    if install in s.store.installs && s.store.installs[install].secret.Some? {
      VerifyIsExact(h, s.store.installs[install].secret.value, s.store.installs[install].secretHash);
    }
  }

  /** The branch that reports a lost claim race is never taken. */
  lemma ClaimRaceIsNeverLost(h: Hash, s: State, k: nat)
    requires Reachable(h, s) && k in s.tasks
    ensures !s.tasks[k].LostRace?
  {
    ReachableInv(h, s);
  }

  /** Once an install id is bound, exactly the secrets with the bound hash are let in. */
  lemma OnlyTheBoundHashIsLetIn(h: Hash, s: State, k: nat, t: State)
    requires Reachable(h, s) && k in s.tasks && Step(h, s, Advance(k)) == Some(t)
    requires (s.tasks[k].Claiming? || s.tasks[k].Verifying?) && s.tasks[k].install in s.store.installs
    ensures t.tasks[k].Rejected? <==>
              HashSecret(h, s.tasks[k].secret) != s.store.installs[s.tasks[k].install].secretHash
  {
    VerifyIsExact(h, s.tasks[k].secret, s.store.installs[s.tasks[k].install].secretHash);
  }

  /** An install id nobody has claimed can be claimed, but not unregistered. */
  lemma UnboundCanOnlyBeClaimed(h: Hash, s: State, k: nat, t: State)
    requires k in s.tasks && Step(h, s, Advance(k)) == Some(t)
    requires (s.tasks[k].Claiming? || s.tasks[k].Verifying?) && s.tasks[k].install !in s.store.installs
    ensures t.tasks[k].Rejected? <==> s.tasks[k].Verifying?
    ensures s.tasks[k].Claiming? ==> BoundTo(t.store, s.tasks[k].install, HashSecret(h, s.tasks[k].secret))
  {
    VerifyIsExact(h, s.tasks[k].secret, "");
  }

  predicate SameAt(before: Store, after: Store, key: (InstallId, AppId)) {
    if key in before.registrations
    then key in after.registrations && after.registrations[key] == before.registrations[key]
    else key !in after.registrations
  }

  /** A registration appears, changes or goes only through a task that showed a secret with the
      bound hash, or through a prune. */
  lemma OnlyHoldersChangeRegistrations(h: Hash, s: State, l: Label, t: State, install: InstallId, app: AppId)
    requires Reachable(h, s) && Step(h, s, l) == Some(t)
    requires !SameAt(s.store, t.store, (install, app))
    ensures l == Prune(install, app)
            || (l.Advance? && l.k in s.tasks && t.tasks[l.k].Authorized? && t.tasks[l.k].install == install
                && BoundTo(s.store, install, t.tasks[l.k].hash))
  {
    hide HashSecret;
    ReachableInv(h, s);
    if l.Advance? {
      assert TaskOk(h, s.store, s.tasks[l.k]);
    }
  }

  predicate SameConnector(before: Tables.Connectors, after: Tables.Connectors, key: (InstallId, ConnectorToken)) {
    if key in before then key in after && after[key] == before[key] else key !in after
  }

  lemma CallsSpareOthers(db: Tables.Db, install: InstallId, call: Call, key: (InstallId, ConnectorToken))
    requires key.0 != install
    ensures SameConnector(db.connectors, Called(db, install, call).connectors, key)
  {
  }

  /** A connector appears, changes or goes only through a call for its own install, by a task that
      showed a secret with the bound hash. */
  lemma OnlyHoldersChangeConnectors(h: Hash, s: State, l: Label, t: State, key: (InstallId, ConnectorToken))
    requires Reachable(h, s) && Step(h, s, l) == Some(t)
    requires !SameConnector(s.db.connectors, t.db.connectors, key)
    ensures l.Distribute? && l.k in s.tasks && s.tasks[l.k].Authorized? && s.tasks[l.k].install == key.0
            && BoundTo(s.store, key.0, s.tasks[l.k].hash)
  {
    hide Proceed, Called, HashSecret;
    ReachableInv(h, s);
    assert l.Distribute?;
    assert TaskOk(h, s.store, s.tasks[l.k]);
    if s.tasks[l.k].install != key.0 {
      CallsSpareOthers(s.db, s.tasks[l.k].install, l.call, key);
    }
  }
}
