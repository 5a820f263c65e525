/** The distributor's reconcile while connections, ingest tasks and other installs' handlers run. */
module ReconcileRuns {
  import opened Types
  import opened Tables
  import opened DeliveryProtocol
  import opened Endpoints
  import R = Reconcile

  // ----- whose connectors a step may change -----

  /** The step is a call that a handler of this install makes on its connectors. */
  predicate Touches(l: Label, install: InstallId) {
    l.Outside?
    && match l.op
       case Connect(i, _, _, _, _) => i == install
       case Disconnect(i, _, _) => i == install
       case Reconcile(i, _) => i == install
       case _ => false
  }

  ghost predicate SameFor(before: Connectors, after: Connectors, install: InstallId) {
    forall token ::
      && ((install, token) in before <==> (install, token) in after)
      && ((install, token) in before ==> after[(install, token)] == before[(install, token)])
  }

  lemma ConnectSparesOthers(s: State, op: Operation, t: State, install: InstallId)
    requires Outcome(s, op) == Some(t) && op.Connect? && op.install != install
    ensures SameFor(s.db.connectors, t.db.connectors, install)
  {
  }

  lemma OutsideSparesOthers(s: State, op: Operation, t: State, install: InstallId)
    requires Outcome(s, op) == Some(t) && !Touches(Outside(op), install)
    ensures SameFor(s.db.connectors, t.db.connectors, install)
  {
    if op.Connect? {
      ConnectSparesOthers(s, op, t, install);
    }
  }

  lemma StepSparesOthers(s: State, l: Label, t: State, install: InstallId)
    requires Step(s, l) == Some(t) && !Touches(l, install)
    ensures SameFor(s.db.connectors, t.db.connectors, install)
  {
    hide Proceed, Outcome;
    match l
    case Outside(op) => OutsideSparesOthers(s, op, t, install);
    case Act(k, action) => ActionsLeaveConnectors(s, k, action, t);
    case _ =>
  }

  /** An install's connectors change only by its own handlers' calls, on any run. */
  lemma {:induction false} OnlyOwnStepsChangeConnectors(s: State, steps: seq<Label>, t: State, install: InstallId)
    requires Run(s, steps) == Some(t) && forall l :: l in steps ==> !Touches(l, install)
    ensures SameFor(s.db.connectors, t.db.connectors, install)
    decreases |steps|
  {
    hide Step, Touches;
    if steps != [] {
      var next := Step(s, steps[0]).value;
      StepSparesOthers(s, steps[0], next, install);
      OnlyOwnStepsChangeConnectors(next, steps[1..], t, install);
    }
  }

  // ----- a reconcile among other steps -----

  /** The call for one entry does not run into an endpoint that is taken. */
  predicate Serves(cs: Connectors, install: InstallId, token: ConnectorToken, candidate: EndpointToken) {
    (install, token) in cs || forall other :: other in cs ==> cs[other].endpoint != candidate
  }

  /** The step registers this entry. */
  predicate Registers(l: Label, install: InstallId, e: R.Entry) {
    l.Outside? && l.op.Connect? && l.op.install == install
    && l.op.app == e.app && l.op.token == e.token && l.op.vapid == e.vapid
  }

  /** The run's steps on the install's connectors are the handler's calls for the entries, in order, none
      of which meets a taken endpoint, and then, as the last step of the run, its deletion of the rest. */
  ghost predicate Reconciles(
      s: State, steps: seq<Label>, install: InstallId, entries: seq<R.Entry>, retained: set<ConnectorToken>)
    decreases |steps|
  {
    steps != [] && Step(s, steps[0]).Some?
    && var next, l := Step(s, steps[0]).value, steps[0];
       if !Touches(l, install) then Reconciles(next, steps[1..], install, entries, retained)
       else if entries == [] then l == Outside(Operation.Reconcile(install, retained)) && |steps| == 1
       else
         && Registers(l, install, entries[0]) && Serves(s.db.connectors, install, l.op.token, l.op.candidate)
         && Reconciles(next, steps[1..], install, entries[1..], retained)
  }

  /** The same without asking whether an endpoint is taken: what the handler does as long as none is. */
  ghost predicate Tries(
      steps: seq<Label>, install: InstallId, entries: seq<R.Entry>, retained: set<ConnectorToken>)
    decreases |steps|
  {
    steps != []
    && if !Touches(steps[0], install) then Tries(steps[1..], install, entries, retained)
       else if entries == [] then steps == [Outside(Operation.Reconcile(install, retained))]
       else Registers(steps[0], install, entries[0]) && Tries(steps[1..], install, entries[1..], retained)
  }

  /** What the handler answers: the endpoints its calls returned. */
  ghost function Answered(s: State, steps: seq<Label>, install: InstallId): seq<R.Answer>
    requires Run(s, steps).Some?
    decreases |steps|
  {
    if steps == [] then []
    else
      var later := Answered(Step(s, steps[0]).value, steps[1..], install);
      if Touches(steps[0], install) && steps[0].op.Connect? then
        AnswerTo(s, steps[0].op) + later
      else later
  }

  function AnswerTo(s: State, op: Operation): seq<R.Answer>
    requires op.Connect?
  {
    match RegisterConnector(s.db, op.install, op.app, op.token, op.candidate, op.vapid)
    case Registered(_, Some(endpoint)) => [R.Answer(op.token, endpoint)]
    case _ => []
  }

  /** A call fails exactly if it meets a taken endpoint; one for an unused endpoint never does. */
  lemma FailsExactlyUnlessServed(db: Db, install: InstallId, e: R.Entry, candidate: EndpointToken)
    ensures RegisterConnector(db, install, e.app, e.token, candidate, e.vapid).Registered?
       <==> Serves(db.connectors, install, e.token, candidate)
  {
  }

  // ----- what such a run does to the install's connectors -----

  /** From `before` to `after`, the install's connectors became the retained ones that were known or
      requested; known ones kept app and endpoint, and the last entry about a connector set its key. */
  ghost predicate Fits(
      before: Connectors, after: Connectors, install: InstallId, entries: seq<R.Entry>, retained: set<ConnectorToken>)
  {
    forall token ::
      && ((install, token) in after <==>
            token in retained && ((install, token) in before || token in R.Tokens(entries)))
      && ((install, token) in after ==>
            ConnectorFits(before, after[(install, token)], install, token, entries))
  }

  predicate ConnectorFits(
      before: Connectors, c: Connector, install: InstallId, token: ConnectorToken, entries: seq<R.Entry>)
  {
    var key, last := (install, token), R.LastVapid(entries, c.app, token);
    && (key in before ==> c.app == before[key].app && c.endpoint == before[key].endpoint)
    && (if last.Some? then c.vapid == last.value else key in before && c.vapid == before[key].vapid)
  }

  lemma SameForFits(
      s: Connectors, next: Connectors, t: Connectors, install: InstallId, entries: seq<R.Entry>,
      retained: set<ConnectorToken>)
    requires SameFor(s, next, install) && Fits(next, t, install, entries, retained)
    ensures Fits(s, t, install, entries, retained)
  {
    hide R.Tokens, R.LastVapid;
  }

  lemma DeletionFits(s: State, t: State, install: InstallId, retained: set<ConnectorToken>)
    requires Step(s, Outside(Operation.Reconcile(install, retained))) == Some(t)
    ensures Fits(s.db.connectors, t.db.connectors, install, [], retained)
    ensures RowsFit(s, t, s.db.connectors, install, retained)
  {
    var stale := StoredTokens(s.db.connectors, install) - retained;
    forall token ensures token in stale <==> (install, token) in s.db.connectors && token !in retained {
    }
    assert t.db == DeleteStale(s.db, install, retained);
  }

  lemma LastVapidSplits(entries: seq<R.Entry>, app: AppId, token: ConnectorToken)
    requires entries != []
    ensures R.LastVapid(entries, app, token)
         == if R.LastVapid(entries[1..], app, token).Some? then R.LastVapid(entries[1..], app, token)
            else if entries[0].app == app && entries[0].token == token then Some(entries[0].vapid)
            else None
  {
  }

  lemma TokensSplit(entries: seq<R.Entry>)
    requires entries != []
    ensures R.Tokens(entries) == {entries[0].token} + R.Tokens(entries[1..])
  {
    assert entries == [entries[0]] + entries[1..];
  }

  /** What one call does to the install's connectors. */
  lemma CallRegisters(s: State, l: Label, t: State, install: InstallId, e: R.Entry)
    requires Step(s, l) == Some(t) && Registers(l, install, e)
    requires Serves(s.db.connectors, install, e.token, l.op.candidate)
    ensures var key, cs, after := (install, e.token), s.db.connectors, t.db.connectors;
            && key in after && t.db.outbox == s.db.outbox
            && (key in cs ==> after[key].app == cs[key].app && after[key].endpoint == cs[key].endpoint)
            && (after[key].app == e.app ==> after[key].vapid == e.vapid)
            && (after[key].app != e.app ==> key in cs && after[key].vapid == cs[key].vapid)
            && AnswerTo(s, l.op) == (if after[key].app == e.app then [R.Answer(e.token, after[key].endpoint)] else [])
            && (forall other :: other != key ==>
                  (other in cs <==> other in after) && (other in cs ==> after[other] == cs[other]))
  {
  }

  lemma CallFits(
      s: State, l: Label, next: State, t: Connectors, install: InstallId, entries: seq<R.Entry>,
      retained: set<ConnectorToken>)
    requires entries != [] && Step(s, l) == Some(next) && Registers(l, install, entries[0])
    requires Serves(s.db.connectors, install, entries[0].token, l.op.candidate)
    requires entries[0].token in retained && Fits(next.db.connectors, t, install, entries[1..], retained)
    ensures Fits(s.db.connectors, t, install, entries, retained)
  {
    hide Step, R.Tokens, R.LastVapid, Serves, Registers;
    CallRegisters(s, l, next, install, entries[0]);
    TokensSplit(entries);
    forall token | (install, token) in t
      ensures ConnectorFits(s.db.connectors, t[(install, token)], install, token, entries)
    {
      LastVapidSplits(entries, t[(install, token)].app, token);
    }
  }

  // ----- the messages -----

  /** In the last step exactly the messages of the stale connectors went; stale are those in `known`
      that are not retained. */
  ghost predicate RowsFit(
      u: State, t: State, known: Connectors, install: InstallId, retained: set<ConnectorToken>)
  {
    && (forall id :: id in t.db.outbox.rows <==>
          id in u.db.outbox.rows && !OfStale(u.db.outbox.rows[id], known, install, retained))
    && (forall id :: id in t.db.outbox.rows ==> t.db.outbox.rows[id] == u.db.outbox.rows[id])
  }

  predicate OfStale(row: Row, known: Connectors, install: InstallId, retained: set<ConnectorToken>) {
    row.install == install && row.connector.Some? && row.connector.value !in retained
    && (install, row.connector.value) in known
  }

  /** The connectors outside the retained set are the same. */
  ghost predicate SameStale(before: Connectors, after: Connectors, install: InstallId, retained: set<ConnectorToken>) {
    forall token :: token !in retained ==> ((install, token) in before <==> (install, token) in after)
  }

  lemma RowsFitSame(
      u: State, t: State, before: Connectors, after: Connectors, install: InstallId, retained: set<ConnectorToken>)
    requires RowsFit(u, t, after, install, retained) && SameStale(before, after, install, retained)
    ensures RowsFit(u, t, before, install, retained)
  {
  }

  // ----- the whole run -----

  lemma RunFirst(s: State, steps: seq<Label>, t: State)
    requires Run(s, steps) == Some(t) && steps != []
    ensures Step(s, steps[0]).Some? && Run(Step(s, steps[0]).value, steps[1..]) == Some(t)
    ensures |steps| == 1 ==> Step(s, steps[0]) == Some(t)
  {
    hide Step;
  }

  lemma RunButLast(s: State, steps: seq<Label>, next: State, u: State)
    requires |steps| > 1 && Step(s, steps[0]) == Some(next) && Run(next, steps[1..][..|steps| - 2]) == Some(u)
    ensures Run(s, steps[..|steps| - 1]) == Some(u)
  {
    hide Step;
    assert steps[..|steps| - 1][1..] == steps[1..][..|steps| - 2];
  }

  /** The state before the run's last step, and what the run did. */
  lemma {:induction false} RunFits(
      s: State, steps: seq<Label>, t: State, install: InstallId, entries: seq<R.Entry>, retained: set<ConnectorToken>)
    returns (u: State)
    requires Run(s, steps) == Some(t) && Reconciles(s, steps, install, entries, retained)
    requires R.Tokens(entries) <= retained
    ensures Fits(s.db.connectors, t.db.connectors, install, entries, retained)
    ensures Run(s, steps[..|steps| - 1]) == Some(u) && RowsFit(u, t, s.db.connectors, install, retained)
    decreases |steps|
  {
    hide Step, Touches, Fits, RowsFit, R.Tokens, Serves, Registers, Run, SameFor;
    RunFirst(s, steps, t);
    var l, next := steps[0], Step(s, steps[0]).value;
    if Touches(l, install) && entries == [] {
      DeletionFits(s, t, install, retained);
      u := s;
      RunNothing(s, steps[..|steps| - 1]);
    } else {
      if !Touches(l, install) {
        u := RunFits(next, steps[1..], t, install, entries, retained);
        StepSparesOthers(s, l, next, install);
        SameForFits(s.db.connectors, next.db.connectors, t.db.connectors, install, entries, retained);
        SameForIsSameStale(s.db.connectors, next.db.connectors, install, retained);
      } else {
        TokensSplit(entries);
        TokenOf(l, install, entries[0]);
        u := RunFits(next, steps[1..], t, install, entries[1..], retained);
        CallFits(s, l, next, t.db.connectors, install, entries, retained);
        CallIsSameStale(s, l, next, install, entries[0], retained);
      }
      RowsFitSame(u, t, s.db.connectors, next.db.connectors, install, retained);
      RunButLast(s, steps, next, u);
    }
  }

  lemma RunNothing(s: State, steps: seq<Label>)
    requires steps == []
    ensures Run(s, steps) == Some(s)
  {
  }

  lemma TokenOf(l: Label, install: InstallId, e: R.Entry)
    requires Registers(l, install, e)
    ensures l.op.token == e.token
  {
  }

  lemma SameForIsSameStale(before: Connectors, after: Connectors, install: InstallId, retained: set<ConnectorToken>)
    requires SameFor(before, after, install)
    ensures SameStale(before, after, install, retained)
  {
  }

  lemma CallIsSameStale(
      s: State, l: Label, t: State, install: InstallId, e: R.Entry, retained: set<ConnectorToken>)
    requires Step(s, l) == Some(t) && Registers(l, install, e)
    requires Serves(s.db.connectors, install, e.token, l.op.candidate) && e.token in retained
    ensures SameStale(s.db.connectors, t.db.connectors, install, retained)
  {
    hide Step;
    CallRegisters(s, l, t, install, e);
  }

  lemma {:induction false} AnswersFit(
      s: State, steps: seq<Label>, t: State, install: InstallId, entries: seq<R.Entry>, retained: set<ConnectorToken>)
    requires Run(s, steps) == Some(t) && Reconciles(s, steps, install, entries, retained)
    requires R.Tokens(entries) <= retained
    ensures Answered(s, steps, install) == R.AnswersFrom(t.db.connectors, install, entries)
    decreases |steps|
  {
    hide Step, Fits, RowsFit, R.Tokens, Serves, Run, ConnectorFits;
    RunFirst(s, steps, t);
    var l, next := steps[0], Step(s, steps[0]).value;
    if !Touches(l, install) {
      AnswersFit(next, steps[1..], t, install, entries, retained);
    } else if entries != [] {
      var e := entries[0];
      TokensSplit(entries);
      AnswersFit(next, steps[1..], t, install, entries[1..], retained);
      CallRegisters(s, l, next, install, e);
      var _ := RunFits(next, steps[1..], t, install, entries[1..], retained);
      FitsAt(next.db.connectors, t.db.connectors, install, entries[1..], retained, e.token);
    }
  }

  lemma FitsAt(
      before: Connectors, after: Connectors, install: InstallId, entries: seq<R.Entry>,
      retained: set<ConnectorToken>, token: ConnectorToken)
    requires Fits(before, after, install, entries, retained) && (install, token) in before && token in retained
    ensures var key := (install, token);
            key in after && after[key].app == before[key].app && after[key].endpoint == before[key].endpoint
  {
  }

  // ----- the main results -----

  /** Reconcile is exact whatever else runs: after it the install has exactly the requested connectors,
      those it had with their app and endpoint, each with the key of the last entry about it; the answers
      are these endpoints; and in its last step exactly the messages of the stale connectors went. */
  lemma ReconcileIsExactAmongOthers(
      s: State, steps: seq<Label>, t: State, install: InstallId, entries: seq<R.Entry>)
    returns (u: State)
    requires Run(s, steps) == Some(t) && Reconciles(s, steps, install, entries, R.Tokens(entries))
    ensures StoredTokens(t.db.connectors, install) == R.Tokens(entries)
    ensures forall token :: token in R.Tokens(entries) ==>
              (install, token) in t.db.connectors
              && ConnectorFits(s.db.connectors, t.db.connectors[(install, token)], install, token, entries)
    ensures Answered(s, steps, install) == R.AnswersFrom(t.db.connectors, install, entries)
    ensures Run(s, steps[..|steps| - 1]) == Some(u)
    ensures forall id :: id in t.db.outbox.rows <==>
              id in u.db.outbox.rows && !OfStale(u.db.outbox.rows[id], s.db.connectors, install, R.Tokens(entries))
    ensures forall id :: id in t.db.outbox.rows ==> t.db.outbox.rows[id] == u.db.outbox.rows[id]
  {
    hide Run, Reconciles, R.Tokens, ConnectorFits, OfStale;
    u := RunFits(s, steps, t, install, entries, R.Tokens(entries));
    AnswersFit(s, steps, t, install, entries, R.Tokens(entries));
    var cs := t.db.connectors;
    forall token ensures token in StoredTokens(cs, install) <==> token in R.Tokens(entries) {
      assert token in StoredTokens(cs, install) <==> (install, token) in cs;
    }
  }

  lemma {:induction false} AnswersAlike(
      before: Connectors, after: Connectors, install: InstallId, entries: seq<R.Entry>)
    requires SameFor(before, after, install)
    ensures R.AnswersFrom(before, install, entries) == R.AnswersFrom(after, install, entries)
  {
    if entries != [] {
      AnswersAlike(before, after, install, entries[1..]);
      var token := entries[0].token;
      assert (install, token) in before <==> (install, token) in after;
    }
  }

  lemma RequestedAreThere(
      s: Connectors, t: Connectors, u: Connectors, install: InstallId, entries: seq<R.Entry>, e: R.Entry)
    requires Fits(s, t, install, entries, R.Tokens(entries)) && SameFor(t, u, install) && e in entries
    ensures (install, e.token) in u
  {
    assert e.token in R.Tokens(entries);
  }

  lemma SecondFitsFirst(
      s: Connectors, t: Connectors, u: Connectors, v: Connectors, install: InstallId, entries: seq<R.Entry>)
    requires Fits(s, t, install, entries, R.Tokens(entries)) && SameFor(t, u, install)
    requires Fits(u, v, install, entries, R.Tokens(entries))
    ensures SameFor(t, v, install)
  {
    hide R.Tokens, R.LastVapid;
  }

  /** Calls for connectors that are all known never fail, whatever the candidates and whatever else runs. */
  lemma {:induction false} KnownAreServed(
      s: State, steps: seq<Label>, t: State, install: InstallId, entries: seq<R.Entry>, retained: set<ConnectorToken>)
    requires Run(s, steps) == Some(t) && Tries(steps, install, entries, retained)
    requires forall e :: e in entries ==> (install, e.token) in s.db.connectors
    ensures Reconciles(s, steps, install, entries, retained)
    decreases |steps|
  {
    hide Step, Touches, Registers, Run;
    RunFirst(s, steps, t);
    var l, next := steps[0], Step(s, steps[0]).value;
    if !Touches(l, install) {
      StepSparesOthers(s, l, next, install);
      KnownAreServed(next, steps[1..], t, install, entries, retained);
    } else if entries != [] {
      assert entries[0] in entries;
      TokenOf(l, install, entries[0]);
      CallRegisters(s, l, next, install, entries[0]);
      KnownAreServed(next, steps[1..], t, install, entries[1..], retained);
    }
  }

  /** A second such run, with any steps of others before and between its own and with whatever
      candidates, leaves the install's connectors as they are and answers the same. */
  lemma ReconcileIsIdempotentAmongOthers(
      s: State, first: seq<Label>, t: State, between: seq<Label>, u: State, second: seq<Label>, v: State,
      install: InstallId, entries: seq<R.Entry>)
    requires Run(s, first) == Some(t) && Reconciles(s, first, install, entries, R.Tokens(entries))
    requires Run(t, between) == Some(u) && forall l :: l in between ==> !Touches(l, install)
    requires Run(u, second) == Some(v) && Tries(second, install, entries, R.Tokens(entries))
    ensures Reconciles(u, second, install, entries, R.Tokens(entries))
    ensures SameFor(t.db.connectors, v.db.connectors, install)
    ensures Answered(u, second, install) == Answered(s, first, install)
  {
    hide Run, Reconciles, R.Tokens, Fits, RowsFit, SameFor, Touches, Tries;
    var _ := RunFits(s, first, t, install, entries, R.Tokens(entries));
    OnlyOwnStepsChangeConnectors(t, between, u, install);
    forall e | e in entries ensures (install, e.token) in u.db.connectors {
      RequestedAreThere(s.db.connectors, t.db.connectors, u.db.connectors, install, entries, e);
    }
    KnownAreServed(u, second, v, install, entries, R.Tokens(entries));
    var _ := RunFits(u, second, v, install, entries, R.Tokens(entries));
    SecondFitsFirst(s.db.connectors, t.db.connectors, u.db.connectors, v.db.connectors, install, entries);
    AnswersFit(s, first, t, install, entries, R.Tokens(entries));
    AnswersFit(u, second, v, install, entries, R.Tokens(entries));
    AnswersAlike(t.db.connectors, v.db.connectors, install, entries);
  }

  // ----- the undisturbed handler is such a run -----

  function Calls(install: InstallId, entries: seq<R.Entry>, candidates: seq<EndpointToken>): seq<Label>
    requires |candidates| >= |entries|
    decreases |entries|
  {
    if entries == [] then []
    else
      var e := entries[0];
      [Outside(Connect(install, e.app, e.token, candidates[0], e.vapid))]
      + Calls(install, entries[1..], candidates[1..])
  }

  /** Unless it fails, the handler on its own is the run of its calls, with the tables and the answers
      that the handler's method has. */
  lemma {:induction false} UndisturbedIsARun(
      s: State, install: InstallId, entries: seq<R.Entry>, candidates: seq<EndpointToken>,
      retained: set<ConnectorToken>) returns (t: State)
    requires |candidates| >= |entries| && !R.RegisterAll(s.db, install, entries, candidates).failed
    ensures var steps, batch :=
              Calls(install, entries, candidates) + [Outside(Operation.Reconcile(install, retained))],
              R.RegisterAll(s.db, install, entries, candidates);
            && Run(s, steps) == Some(t) && Reconciles(s, steps, install, entries, retained)
            && t.db == DeleteStale(batch.db, install, retained) && Answered(s, steps, install) == batch.answers
    decreases |entries|
  {
    var last := Outside(Operation.Reconcile(install, retained));
    var steps := Calls(install, entries, candidates) + [last];
    if entries == [] {
      assert steps == [last] && steps[1..] == [];
      t := Step(s, last).value;
      assert Run(t, []) == Some(t);
    } else {
      var e := entries[0];
      var next := Step(s, steps[0]).value;
      assert steps[1..] == Calls(install, entries[1..], candidates[1..]) + [last];
      t := UndisturbedIsARun(next, install, entries[1..], candidates[1..], retained);
      FailsExactlyUnlessServed(s.db, install, e, candidates[0]);
    }
  }
}
