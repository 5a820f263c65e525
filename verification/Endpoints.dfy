/** UnifiedPush endpoints over runs of the whole protocol. */
module Endpoints {
  import opened Types
  import opened Tables
  import opened DeliveryProtocol

  ghost predicate Injective(cs: Connectors) {
    forall x, y :: x in cs && y in cs && cs[x].endpoint == cs[y].endpoint ==> x == y
  }

  /** A connector that is still there has the app and the endpoint it had. */
  ghost predicate Stable(before: Connectors, after: Connectors) {
    forall key :: key in before && key in after ==>
      after[key].app == before[key].app && after[key].endpoint == before[key].endpoint
  }

  lemma RegisterKeepsInjective(
      db: Db, install: InstallId, app: AppId, token: ConnectorToken, candidate: EndpointToken, vapid: Option<string>)
    requires Injective(db.connectors)
    requires RegisterConnector(db, install, app, token, candidate, vapid).Registered?
    ensures var cs := RegisterConnector(db, install, app, token, candidate, vapid).db.connectors;
            Injective(cs) && Stable(db.connectors, cs)
  {
    var key := (install, token);
    var cs := RegisterConnector(db, install, app, token, candidate, vapid).db.connectors;
    assert forall other :: other in cs && other != key ==> other in db.connectors && cs[other] == db.connectors[other];
  }

  lemma OutsideKeepsInjective(s: State, op: Operation, t: State)
    requires Outcome(s, op) == Some(t) && Injective(s.db.connectors)
    ensures Injective(t.db.connectors) && Stable(s.db.connectors, t.db.connectors)
  {
    if op.Connect? {
      if RegisterConnector(s.db, op.install, op.app, op.token, op.candidate, op.vapid).Registered? {
        RegisterKeepsInjective(s.db, op.install, op.app, op.token, op.candidate, op.vapid);
      }
    }
  }

  lemma ActionsLeaveConnectors(s: State, k: nat, action: Action, t: State)
    requires k in s.conns && Proceed(s, k, action) == Some(t)
    ensures t.db.connectors == s.db.connectors
  {
    match action
    case ClientAck(install, id) => AckLeavesConnectors(s, k, install, id);
    case Join => JoinLeavesConnectors(s, k);
    case _ =>
  }

  lemma AckLeavesConnectors(s: State, k: nat, i: InstallId, id: nat)
    requires k in s.conns
    ensures Acknowledge(s, k, i, id).db.connectors == s.db.connectors
  {
  }

  lemma JoinLeavesConnectors(s: State, k: nat)
    requires k in s.conns && s.conns[k].pc.Joining?
    ensures JoinHub(s, k).db.connectors == s.db.connectors
  {
  }

  lemma StepKeepsInjective(s: State, l: Label, t: State)
    requires Step(s, l) == Some(t) && Injective(s.db.connectors)
    ensures Injective(t.db.connectors) && Stable(s.db.connectors, t.db.connectors)
  {
    hide Proceed;
    match l
    case Outside(op) => OutsideKeepsInjective(s, op, t);
    case Act(k, action) =>
      ActionsLeaveConnectors(s, k, action, t);
    case _ =>
  }

  lemma {:induction false} RunKeepsInjective(s: State, steps: seq<Label>, t: State)
    requires Run(s, steps) == Some(t) && Injective(s.db.connectors)
    ensures Injective(t.db.connectors)
    decreases |steps|
  {
    hide Step, Injective;
    if steps != [] {
      StepKeepsInjective(s, steps[0], Step(s, steps[0]).value);
      RunKeepsInjective(Step(s, steps[0]).value, steps[1..], t);
    }
  }

  /** At any time an endpoint leads to one connector only: two connectors never share one. */
  lemma EndpointNamesOneConnector(
      s: State, x: (InstallId, ConnectorToken), y: (InstallId, ConnectorToken))
    requires Reachable(s) && x in s.db.connectors && y in s.db.connectors
    requires s.db.connectors[x].endpoint == s.db.connectors[y].endpoint
    ensures x == y
  {
    var steps :| Run(INITIAL, steps) == Some(s);
    assert Injective(INITIAL.db.connectors);
    RunKeepsInjective(INITIAL, steps, s);
  }

  /** The connector is there in every state of the run. */
  ghost predicate Survives(s: State, steps: seq<Label>, key: (InstallId, ConnectorToken))
    requires Run(s, steps).Some?
    decreases |steps|
  {
    key in s.db.connectors && (steps != [] ==> Survives(Step(s, steps[0]).value, steps[1..], key))
  }

  /** While a connector is registered, no interleaving changes its endpoint or gives it to another app. */
  lemma EndpointNeverChanges(
      s: State, steps: seq<Label>, t: State, key: (InstallId, ConnectorToken))
    requires Reachable(s) && Run(s, steps) == Some(t) && Survives(s, steps, key)
    ensures key in s.db.connectors && key in t.db.connectors
    ensures t.db.connectors[key].endpoint == s.db.connectors[key].endpoint
    ensures t.db.connectors[key].app == s.db.connectors[key].app
    decreases |steps|
  {
    hide Step;
    var front :| Run(INITIAL, front) == Some(s);
    assert Injective(INITIAL.db.connectors);
    RunKeepsInjective(INITIAL, front, s);
    StableAlong(s, steps, t, key);
  }

  lemma {:induction false} StableAlong(s: State, steps: seq<Label>, t: State, key: (InstallId, ConnectorToken))
    requires Injective(s.db.connectors) && Run(s, steps) == Some(t) && Survives(s, steps, key)
    ensures key in s.db.connectors && key in t.db.connectors
    ensures t.db.connectors[key].endpoint == s.db.connectors[key].endpoint
    ensures t.db.connectors[key].app == s.db.connectors[key].app
    decreases |steps|
  {
    hide Step, Injective;
    if steps != [] {
      var next := Step(s, steps[0]).value;
      StepKeepsInjective(s, steps[0], next);
      StableAlong(next, steps[1..], t, key);
    }
  }

  /** Once its app has unregistered a connector, its endpoint leads nowhere. */
  lemma UnregisteredEndpointIsGone(s: State, install: InstallId, app: AppId, token: ConnectorToken, t: State)
    requires Reachable(s) && OwnsConnector(s.db.connectors, install, app, token)
    requires Step(s, Outside(Disconnect(install, app, token))) == Some(t)
    ensures (install, token) !in t.db.connectors
    ensures forall key :: key in t.db.connectors ==>
              t.db.connectors[key].endpoint != s.db.connectors[(install, token)].endpoint
  {
    hide Reachable, UnregisterConnector;
    UnregisterIsExact(s.db, install, app, token);
    forall key | key in t.db.connectors
      ensures t.db.connectors[key].endpoint != s.db.connectors[(install, token)].endpoint
    {
      if t.db.connectors[key].endpoint == s.db.connectors[(install, token)].endpoint {
        EndpointNamesOneConnector(s, key, (install, token));
      }
    }
  }
}
