/** How long the ingest path remembers a persistent id, over runs of the whole protocol. */
module DedupWindow {
  import opened Types
  import opened Tables
  import opened DeliveryProtocol

  ghost predicate Distinct<T(!new)>(s: seq<T>) {
    forall j, k :: 0 <= j < k < |s| ==> s[j] != s[k]
  }

  function SetOf<T>(s: seq<T>): set<T> {
    set x | x in s
  }

  /** The persistent id with which this step ingests a message for the pair. */
  function Ingested(l: Label, i: InstallId, a: AppId): Option<PersistentId> {
    match l
    case Outside(FcmArrives(install, app, _, pid, _)) => if install == i && app == a then pid else None
    case _ => None
  }

  predicate Keeps(l: Label, i: InstallId, a: AppId) {
    l != Outside(Unregister(i, a))
  }

  function Learn(h: seq<PersistentId>, pid: Option<PersistentId>): seq<PersistentId> {
    if pid.None? || pid.value in h then h else LastOf(h + [pid.value], MAX_ACK_HISTORY)
  }

  // ----- one step -----

  lemma AckedAfterIsLearn(acked: seq<Ack>, i: InstallId, a: AppId, pid: Option<PersistentId>)
    requires |AckedFor(acked, i, a)| <= MAX_ACK_HISTORY
    ensures AckedFor(AckedAfter(acked, i, a, pid), i, a) == Learn(AckedFor(acked, i, a), pid)
  {
    if pid.Some? {
      KeepNewestKeepsLast(Remember(acked, i, a, pid.value), i, a, MAX_ACK_HISTORY);
      AckedForAppend(acked, Ack(i, a, pid.value), i, a);
    }
  }

  lemma AckedAfterSparesOthers(
      acked: seq<Ack>, i: InstallId, a: AppId, pid: Option<PersistentId>, other: InstallId, otherApp: AppId)
    requires (other, otherApp) != (i, a)
    ensures AckedFor(AckedAfter(acked, i, a, pid), other, otherApp) == AckedFor(acked, other, otherApp)
  {
    if pid.Some? {
      KeepNewestSparesOthers(Remember(acked, i, a, pid.value), i, a, MAX_ACK_HISTORY, other, otherApp);
      AckedForAppend(acked, Ack(i, a, pid.value), other, otherApp);
    }
  }

  lemma OnlyIngestAndUnregisterTouchHistory(s: State, l: Label, t: State)
    requires Step(s, l) == Some(t)
    ensures match l
            case Outside(FcmArrives(i, a, _, pid, _)) => t.db.acked == AckedAfter(s.db.acked, i, a, pid)
            case Outside(Unregister(i, a)) => t.db.acked == Forget(s.db.acked, i, a)
            case _ => t.db.acked == s.db.acked
  {
    match l
    case Act(k, ClientAck(install, id)) => AckSparesHistory(s, k, install, id);
    case Act(k, Join) => JoinSparesHistory(s, k);
    case _ =>
  }

  lemma AckSparesHistory(s: State, k: nat, i: InstallId, id: nat)
    requires k in s.conns
    ensures Acknowledge(s, k, i, id).db.acked == s.db.acked
  {
  }

  lemma JoinSparesHistory(s: State, k: nat)
    requires k in s.conns && s.conns[k].pc.Joining?
    ensures JoinHub(s, k).db.acked == s.db.acked
  {
  }

  /** What one step does to the history of one pair. */
  lemma HistoryStep(s: State, l: Label, t: State, i: InstallId, a: AppId)
    requires Step(s, l) == Some(t)
    requires |AckedFor(s.db.acked, i, a)| <= MAX_ACK_HISTORY
    ensures AckedFor(t.db.acked, i, a)
         == if Keeps(l, i, a) then Learn(AckedFor(s.db.acked, i, a), Ingested(l, i, a)) else []
  {
    OnlyIngestAndUnregisterTouchHistory(s, l, t);
    match l
    case Outside(FcmArrives(install, app, _, pid, _)) =>
      if (install, app) == (i, a) {
        AckedAfterIsLearn(s.db.acked, i, a, pid);
      } else {
        AckedAfterSparesOthers(s.db.acked, install, app, pid, i, a);
      }
    case Outside(Unregister(install, app)) =>
      ForgetIsExact(s.db.acked, install, app, i, a);
    case _ =>
  }

  lemma LearnKeepsShape(h: seq<PersistentId>, pid: Option<PersistentId>)
    requires Distinct(h) && |h| <= MAX_ACK_HISTORY
    ensures Distinct(Learn(h, pid)) && |Learn(h, pid)| <= MAX_ACK_HISTORY
  {
  }

  // ----- every history on every run -----

  ghost predicate HistoryOk(h: seq<PersistentId>) {
    Distinct(h) && |h| <= MAX_ACK_HISTORY
  }

  lemma {:induction false} RunKeepsHistoryOk(s: State, steps: seq<Label>, t: State, i: InstallId, a: AppId)
    requires Run(s, steps) == Some(t) && HistoryOk(AckedFor(s.db.acked, i, a))
    ensures HistoryOk(AckedFor(t.db.acked, i, a))
    decreases |steps|
  {
    if steps != [] {
      var next := Step(s, steps[0]).value;
      HistoryStep(s, steps[0], next, i, a);
      LearnKeepsShape(AckedFor(s.db.acked, i, a), Ingested(steps[0], i, a));
      RunKeepsHistoryOk(next, steps[1..], t, i, a);
    }
  }

  /** No pair ever has more than 500 entries, or the same entry twice. */
  lemma HistoriesAreSmallAndDistinct(s: State, i: InstallId, a: AppId)
    requires Reachable(s)
    ensures HistoryOk(AckedFor(s.db.acked, i, a))
  {
    var steps :| Run(INITIAL, steps) == Some(s);
    RunKeepsHistoryOk(INITIAL, steps, s, i, a);
  }

  // ----- the window -----

  /** The ids a run adds to the pair's history, in order. */
  ghost function Accepted(s: State, steps: seq<Label>, i: InstallId, a: AppId): seq<PersistentId>
    requires Run(s, steps).Some?
    decreases |steps|
  {
    if steps == [] then []
    else
      var pid := Ingested(steps[0], i, a);
      (if pid.Some? && pid.value !in AckedFor(s.db.acked, i, a) then [pid.value] else [])
      + Accepted(Step(s, steps[0]).value, steps[1..], i, a)
  }

  predicate NeverReset(steps: seq<Label>, i: InstallId, a: AppId) {
    forall n :: 0 <= n < |steps| ==> Keeps(steps[n], i, a)
  }

  predicate Creates(s: State, l: Label, i: InstallId, a: AppId, p: PersistentId) {
    l.Outside? && l.op.FcmArrives? && l.op.install == i && l.op.app == a && l.op.pid == Some(p)
    && CreatesRow(s.db, i, a, Some(p), l.op.payload)
  }

  lemma DistinctSize<T(!new)>(s: seq<T>)
    requires Distinct(s)
    ensures |SetOf(s)| == |s|
  {
    if s != [] {
      DistinctSize(s[1..]);
      assert SetOf(s) == {s[0]} + SetOf(s[1..]);
      assert s[0] !in s[1..];
    }
  }

  lemma SubsetIsSmaller<T>(a: set<T>, b: set<T>)
    requires a <= b
    ensures |a| <= |b|
  {
    assert b == a + (b - a);
  }

  /** Once p is the oldest of 500 entries, the next new id pushes it out behind 500 others. */
  lemma EvictionNeeds500(h: seq<PersistentId>, q: PersistentId, p: PersistentId)
    requires HistoryOk(h) && |h| == MAX_ACK_HISTORY && h[0] == p && q !in h
    ensures |SetOf(h[1..]) + {q}| == MAX_ACK_HISTORY && p !in SetOf(h[1..]) + {q}
  {
    DistinctSize(h[1..]);
  }

  lemma LearnMovesEntry(h: seq<PersistentId>, q: PersistentId, k: nat)
    requires HistoryOk(h) && q !in h && k < |h|
    ensures var t := Learn(h, Some(q));
            if |h| < MAX_ACK_HISTORY then t == h + [q] && t[k] == h[k] && t[k + 1..] == h[k + 1..] + [q]
            else t == h[1..] + [q] && (k > 0 ==> t[k - 1] == h[k] && t[k..] == h[k + 1..] + [q])
  {
    if |h| == MAX_ACK_HISTORY {
      assert (h + [q])[1..] == h[1..] + [q];
    }
  }

  lemma EvictedBehind500(
      h: seq<PersistentId>, q: PersistentId, p: PersistentId, later: seq<PersistentId>)
    requires HistoryOk(h) && |h| == MAX_ACK_HISTORY && h[0] == p && q !in h
    ensures |SetOf(h[1..]) + SetOf([q] + later) - {p}| >= MAX_ACK_HISTORY
  {
    EvictionNeeds500(h, q, p);
    SubsetIsSmaller(SetOf(h[1..]) + {q}, SetOf(h[1..]) + SetOf([q] + later) - {p});
  }

  lemma Regroup(tail: seq<PersistentId>, q: PersistentId, later: seq<PersistentId>)
    ensures SetOf(tail + [q]) + SetOf(later) == SetOf(tail) + SetOf([q] + later)
  {
  }

  lemma EmptyRunStays(s: State, steps: seq<Label>, t: State)
    requires Run(s, steps) == Some(t) && steps == []
    ensures s == t
  {
  }

  /** The first step of a run, and the rest of it. */
  lemma RunSplits(s: State, steps: seq<Label>, t: State, i: InstallId, a: AppId)
    requires Run(s, steps) == Some(t) && NeverReset(steps, i, a) && steps != []
    ensures Step(s, steps[0]).Some? && Keeps(steps[0], i, a) && NeverReset(steps[1..], i, a)
    ensures var next, pid := Step(s, steps[0]).value, Ingested(steps[0], i, a);
            && Run(next, steps[1..]) == Some(t)
            && Accepted(s, steps, i, a)
               == (if pid.Some? && pid.value !in AckedFor(s.db.acked, i, a) then [pid.value] else [])
                  + Accepted(next, steps[1..], i, a)
  {
    hide Step, AckedFor;
    assert forall n :: 0 <= n < |steps| - 1 ==> steps[1..][n] == steps[n + 1];
  }

  /** An id that falls out of the history was followed by 500 distinct others. */
  lemma {:induction false} ForgettingNeeds500Others(
      s: State, steps: seq<Label>, t: State, i: InstallId, a: AppId, p: PersistentId, k: nat)
    requires Run(s, steps) == Some(t) && NeverReset(steps, i, a)
    requires var h := AckedFor(s.db.acked, i, a); HistoryOk(h) && k < |h| && h[k] == p
    requires p !in AckedFor(t.db.acked, i, a)
    ensures |SetOf(AckedFor(s.db.acked, i, a)[k + 1..]) + SetOf(Accepted(s, steps, i, a)) - {p}| >= MAX_ACK_HISTORY
    decreases |steps|
  {
    hide Step, AckedFor, SetOf, Distinct, Run, Accepted, NeverReset;
    if steps == [] {
      EmptyRunStays(s, steps, t);
      assert false;
    }
    RunSplits(s, steps, t, i, a);
    var h := AckedFor(s.db.acked, i, a);
    var l, next, rest := steps[0], Step(s, steps[0]).value, steps[1..];
    var pid := Ingested(l, i, a);
    HistoryStep(s, l, next, i, a);
    LearnKeepsShape(h, pid);
    if pid.None? || pid.value in h {
      assert Accepted(s, steps, i, a) == Accepted(next, rest, i, a);
      ForgettingNeeds500Others(next, rest, t, i, a, p, k);
    } else {
      var q := pid.value;
      var later := Accepted(next, rest, i, a);
      LearnMovesEntry(h, q, k);
      if |h| == MAX_ACK_HISTORY && k == 0 {
        EvictedBehind500(h, q, p, later);
      } else {
        Regroup(h[k + 1..], q, later);
        ForgettingNeeds500Others(next, rest, t, i, a, p, if |h| < MAX_ACK_HISTORY then k else k - 1);
      }
    }
  }

  /** The step ingests an id that the pair's history does not hold. */
  ghost predicate Accepts(s: State, l: Label, i: InstallId, a: AppId, p: PersistentId) {
    Ingested(l, i, a) == Some(p) && p !in AckedFor(s.db.acked, i, a)
  }

  lemma CreatingAccepts(s: State, l: Label, i: InstallId, a: AppId, p: PersistentId)
    requires Creates(s, l, i, a, p)
    ensures Accepts(s, l, i, a, p)
  {
    assert !AlreadyAcked(s.db, i, a, Some(p));
  }

  lemma IngestRemembersLast(s: State, l: Label, t: State, i: InstallId, a: AppId, p: PersistentId)
    requires Step(s, l) == Some(t) && Accepts(s, l, i, a, p) && HistoryOk(AckedFor(s.db.acked, i, a))
    ensures var h := AckedFor(t.db.acked, i, a); HistoryOk(h) && h != [] && h[|h| - 1] == p
  {
    hide Step, AckedFor;
    HistoryStep(s, l, t, i, a);
    LearnKeepsShape(AckedFor(s.db.acked, i, a), Some(p));
  }

  /** Two calls that create a row for the same persistent id have at least 500 distinct other ids
      accepted between them, unless the pair's registration was deleted in between. */
  lemma RepeatsAreFarApart(
      s: State, l: Label, s': State, between: seq<Label>, t: State, l': Label,
      i: InstallId, a: AppId, p: PersistentId)
    requires Reachable(s) && Step(s, l) == Some(s') && Creates(s, l, i, a, p)
    requires Run(s', between) == Some(t) && NeverReset(between, i, a)
    requires Creates(t, l', i, a, p)
    ensures |SetOf(Accepted(s', between, i, a)) - {p}| >= MAX_ACK_HISTORY
  {
    hide Step, Run, AckedFor;
    HistoriesAreSmallAndDistinct(s, i, a);
    CreatingAccepts(s, l, i, a, p);
    IngestRemembersLast(s, l, s', i, a, p);
    var h := AckedFor(s'.db.acked, i, a);
    ForgettingNeeds500Others(s', between, t, i, a, p, |h| - 1);
    assert SetOf(h[|h|..]) + SetOf(Accepted(s', between, i, a)) - {p} == SetOf(Accepted(s', between, i, a)) - {p};
  }

  lemma {:induction false} ForgottenStaysForgotten(
      s: State, steps: seq<Label>, t: State, i: InstallId, a: AppId, p: PersistentId)
    requires Run(s, steps) == Some(t) && NeverReset(steps, i, a) && HistoryOk(AckedFor(s.db.acked, i, a))
    requires p !in AckedFor(s.db.acked, i, a) && p !in Accepted(s, steps, i, a)
    ensures p !in AckedFor(t.db.acked, i, a)
    decreases |steps|
  {
    hide Step, AckedFor;
    if steps != [] {
      var l, next, rest := steps[0], Step(s, steps[0]).value, steps[1..];
      assert Keeps(l, i, a);
      HistoryStep(s, l, next, i, a);
      LearnKeepsShape(AckedFor(s.db.acked, i, a), Ingested(l, i, a));
      assert forall n :: 0 <= n < |rest| ==> rest[n] == steps[n + 1];
      ForgottenStaysForgotten(next, rest, t, i, a, p);
    }
  }

  /** The number of new ids after p decides exactly whether p is still known. */
  lemma {:induction false} EntryAges(
      s: State, steps: seq<Label>, t: State, i: InstallId, a: AppId, p: PersistentId, k: nat)
    requires Run(s, steps) == Some(t) && NeverReset(steps, i, a)
    requires var h := AckedFor(s.db.acked, i, a); HistoryOk(h) && k < |h| && h[k] == p
    requires p !in Accepted(s, steps, i, a)
    ensures p in AckedFor(t.db.acked, i, a)
       <==> |AckedFor(s.db.acked, i, a)| - 1 - k + |Accepted(s, steps, i, a)| < MAX_ACK_HISTORY
    decreases |steps|
  {
    hide Step, AckedFor;
    if steps != [] {
      var h := AckedFor(s.db.acked, i, a);
      var l, next, rest := steps[0], Step(s, steps[0]).value, steps[1..];
      var pid := Ingested(l, i, a);
      assert Keeps(l, i, a);
      HistoryStep(s, l, next, i, a);
      LearnKeepsShape(h, pid);
      assert forall n :: 0 <= n < |rest| ==> rest[n] == steps[n + 1];
      if pid.None? || pid.value in h {
        EntryAges(next, rest, t, i, a, p, k);
      } else {
        LearnMovesEntry(h, pid.value, k);
        if |h| == MAX_ACK_HISTORY && k == 0 {
          ForgottenStaysForgotten(next, rest, t, i, a, p);
        } else {
          EntryAges(next, rest, t, i, a, p, if |h| < MAX_ACK_HISTORY then k else k - 1);
        }
      }
    }
  }

  /** The window is exact: an id newly ingested, whether a row was created for it or not, is a duplicate
      until 500 other new ids have been accepted, and not after, unless it is accepted again. */
  lemma WindowIsExact(
      s: State, l: Label, s': State, steps: seq<Label>, t: State, i: InstallId, a: AppId, p: PersistentId)
    requires Reachable(s) && Step(s, l) == Some(s') && Accepts(s, l, i, a, p)
    requires Run(s', steps) == Some(t) && NeverReset(steps, i, a)
    requires p !in Accepted(s', steps, i, a)
    ensures AlreadyAcked(t.db, i, a, Some(p)) <==> |Accepted(s', steps, i, a)| < MAX_ACK_HISTORY
  {
    hide Step, Run, AckedFor;
    HistoriesAreSmallAndDistinct(s, i, a);
    IngestRemembersLast(s, l, s', i, a, p);
    EntryAges(s', steps, t, i, a, p, |AckedFor(s'.db.acked, i, a)| - 1);
  }

  // ----- live rows -----

  lemma DeletingKeepsUnique(o: Outbox, ids: set<nat>)
    requires PersistentIdsUnique(o)
    ensures PersistentIdsUnique(Delete(o, ids))
  {
    var r := Delete(o, ids);
    forall x, y | x in r.rows && y in r.rows && SamePersistentId(r.rows[x], r.rows[y]) ensures x == y {
      assert SamePersistentId(o.rows[x], o.rows[y]);
    }
  }

  lemma InsertingKeepsUnique(o: Outbox, row: Row)
    requires PersistentIdsUnique(o) && Duplicates(o, row.install, row.app, row.pid) == {}
    ensures PersistentIdsUnique(Insert(o, row))
  {
    var r := Insert(o, row);
    forall x, y | x in r.rows && y in r.rows && SamePersistentId(r.rows[x], r.rows[y]) ensures x == y {
      assert x !in Duplicates(o, row.install, row.app, row.pid) && y !in Duplicates(o, row.install, row.app, row.pid);
    }
  }

  lemma OutsideKeepsUnique(s: State, op: Operation, t: State)
    requires Outcome(s, op) == Some(t) && PersistentIdsUnique(s.db.outbox)
    ensures PersistentIdsUnique(t.db.outbox)
  {
    var o := s.db.outbox;
    match op
    case FcmArrives(install, app, transport, pid, payload) =>
      if CreatesRow(s.db, install, app, pid, payload) {
        InsertingKeepsUnique(o, Row(install, app, Fcm, transport, None, pid, payload));
      }
    case PushArrives(install, app, token, payload) =>
      InsertingKeepsUnique(o, Row(install, app, Distributor, WebSocket, Some(token), None, payload));
    case Unregister(install, app) => DeletingKeepsUnique(o, FcmRows(o, install, app));
    case Disconnect(install, app, token) => DeletingKeepsUnique(o, AppConnectorRows(o, install, app, token));
    case Reconcile(install, retained) =>
      DeletingKeepsUnique(o, ConnectorRows(o, install, StoredTokens(s.db.connectors, install) - retained));
    case FinishForward(id) => DeletingKeepsUnique(o, {id});
    case _ =>
  }

  lemma AckKeepsUnique(s: State, k: nat, i: InstallId, id: nat)
    requires k in s.conns && PersistentIdsUnique(s.db.outbox)
    ensures PersistentIdsUnique(Acknowledge(s, k, i, id).db.outbox)
  {
    hide PersistentIdsUnique;
    DeletingKeepsUnique(s.db.outbox, {id});
  }

  lemma JoinKeepsUnique(s: State, k: nat)
    requires k in s.conns && s.conns[k].pc.Joining?
    ensures JoinHub(s, k).db.outbox == s.db.outbox
  {
  }

  lemma StepKeepsUnique(s: State, l: Label, t: State)
    requires Step(s, l) == Some(t) && PersistentIdsUnique(s.db.outbox)
    ensures PersistentIdsUnique(t.db.outbox)
  {
    hide PersistentIdsUnique;
    match l
    case Outside(op) => OutsideKeepsUnique(s, op, t);
    case Act(k, ClientAck(install, id)) => AckKeepsUnique(s, k, install, id);
    case Act(k, Join) => JoinKeepsUnique(s, k);
    case Act(k, ApplyCursor) =>
      DeletingKeepsUnique(s.db.outbox, SocketUpTo(s.db.outbox, s.conns[k].pc.install, s.conns[k].pc.cursor));
    case _ =>
  }

  lemma {:induction false} RunKeepsUnique(s: State, steps: seq<Label>, t: State)
    requires Run(s, steps) == Some(t) && PersistentIdsUnique(s.db.outbox)
    ensures PersistentIdsUnique(t.db.outbox)
    decreases |steps|
  {
    hide Step, PersistentIdsUnique;
    if steps != [] {
      StepKeepsUnique(s, steps[0], Step(s, steps[0]).value);
      RunKeepsUnique(Step(s, steps[0]).value, steps[1..], t);
    }
  }

  /** At any time at most one live row carries a given persistent id of a pair. */
  lemma OneLiveRowPerPersistentId(s: State, x: nat, y: nat)
    requires Reachable(s) && x in s.db.outbox.rows && y in s.db.outbox.rows
    requires SamePersistentId(s.db.outbox.rows[x], s.db.outbox.rows[y])
    ensures x == y
  {
    var steps :| Run(INITIAL, steps) == Some(s);
    assert PersistentIdsUnique(INITIAL.db.outbox);
    RunKeepsUnique(INITIAL, steps, s);
  }
}
