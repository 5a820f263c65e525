/** The on-device receive loop: hand each message to the callback, and only then acknowledge it. */
module NativeRun {
  import opened Types
  import opened McsStream
  import opened McsStreamProofs

  // What the loop's select yields next: the stop signal, the end of one app's stream, or an item of it,
  // with whether the callback accepts it and whether the acknowledgement is written.
  datatype Event =
    | StopSignal
    | Ended(app: AppId)
    | Arrives(app: AppId, item: Item, accepts: bool, writes: bool)

  datatype Deed = Callback(app: AppId, streamId: int) | Acked(app: AppId, streamId: int)

  datatype Outcome = Going | Stopped | Broke

  // ----- what the loop computes -----

  function EventAfter(log: seq<Deed>, e: Event): (seq<Deed>, Outcome) {
    match e
    case StopSignal => (log, Stopped)
    case Ended(_) => (log, Broke)
    case Arrives(app, item, accepts, writes) =>
      var answered := if writes then Going else Broke;
      match item.result
      case Err(_) => (log, Broke)
      case Ok(Data(_)) =>
        if accepts then (log + [Callback(app, item.streamId)] + [Acked(app, item.streamId)], answered)
        else (log, Broke)
      case Ok(Ping) => (log + [Acked(app, item.streamId)], answered)
      case Ok(Other(_, _)) => (log, Going)
  }

  function LoopFrom(log: seq<Deed>, events: seq<Event>, n: nat): (seq<Deed>, Outcome)
    requires n <= |events|
    decreases |events| - n
  {
    if n == |events| then (log, Broke) // all streams have ended
    else
      var (next, how) := EventAfter(log, events[n]);
      if how.Going? then LoopFrom(next, events, n + 1) else (next, how)
  }

  // ----- what the events call for, read off the events alone -----

  /** The loop takes the next event. */
  predicate GoesOn(e: Event) {
    e.Arrives? && e.item.result.Ok?
    && match e.item.result.value
       case Data(_) => e.accepts && e.writes
       case Ping => e.writes
       case Other(_, _) => true
  }

  /** A message goes to the callback and is then acknowledged; a heartbeat is acknowledged. */
  function Answers(e: Event): seq<Deed> {
    if !e.Arrives? || e.item.result.Err? then []
    else
      match e.item.result.value
      case Data(_) => if e.accepts then [Callback(e.app, e.item.streamId), Acked(e.app, e.item.streamId)] else []
      case Ping => [Acked(e.app, e.item.streamId)]
      case Other(_, _) => []
  }

  function AllAnswers(events: seq<Event>, n: nat): seq<Deed>
    requires n <= |events|
    decreases |events| - n
  {
    if n == |events| then []
    else Answers(events[n]) + if GoesOn(events[n]) then AllAnswers(events, n + 1) else []
  }

  /** The first event that ends the loop is the stop signal. */
  predicate IsStopped(events: seq<Event>, n: nat)
    requires n <= |events|
    decreases |events| - n
  {
    n < |events| && (events[n].StopSignal? || (GoesOn(events[n]) && IsStopped(events, n + 1)))
  }

  /** Every message and every heartbeat up to the end of the loop is answered once, in order, on its own
      stream and with its own id, and the loop ends well exactly if the stop signal ends it. */
  lemma {:induction false} LoopIsExact(log: seq<Deed>, events: seq<Event>, n: nat)
    requires n <= |events|
    ensures LoopFrom(log, events, n)
         == (log + AllAnswers(events, n), if IsStopped(events, n) then Stopped else Broke)
    decreases |events| - n
  {
    if n == |events| {
      assert log + [] == log;
    } else {
      EventIsExact(log, events[n]);
      hide EventAfter, Answers, GoesOn;
      var (next, how) := EventAfter(log, events[n]);
      var here := Answers(events[n]);
      if how.Going? {
        LoopIsExact(next, events, n + 1);
        assert log + here + AllAnswers(events, n + 1) == log + (here + AllAnswers(events, n + 1));
      } else {
        assert here + [] == here;
      }
    }
  }

  lemma EventIsExact(log: seq<Deed>, e: Event)
    ensures EventAfter(log, e).0 == log + Answers(e)
    ensures (EventAfter(log, e).1.Going? <==> GoesOn(e)) && (EventAfter(log, e).1.Stopped? <==> e.StopSignal?)
  {
    assert log + [] == log;
    if e.Arrives? {
      var call, ack := Callback(e.app, e.item.streamId), Acked(e.app, e.item.streamId);
      assert log + [call] + [ack] == log + [call, ack];
    }
  }

  /** `run_mcs`, from the moment all streams are connected. */
  method RunMcs(events: seq<Event>) returns (log: seq<Deed>, how: Outcome)
    ensures (log, how) == LoopFrom([], events, 0)
    ensures log == AllAnswers(events, 0) && how == if IsStopped(events, 0) then Stopped else Broke
  {
    LoopIsExact([], events, 0);
    assert [] + AllAnswers(events, 0) == AllAnswers(events, 0);
    log, how := [], Going;
    var n := 0;
    while n < |events|
      invariant n <= |events| && how.Going?
      invariant LoopFrom(log, events, n) == LoopFrom([], events, 0)
    {
      var e := events[n];
      n := n + 1;
      match e {
        case StopSignal =>
          how := Stopped;
          return;
        case Ended(_) =>
          how := Broke;
          return;
        case Arrives(app, item, accepts, writes) =>
          match item.result {
            case Err(_) =>
              how := Broke;
              return;
            case Ok(Data(_)) =>
              if !accepts {
                how := Broke;
                return;
              }
              log := log + [Callback(app, item.streamId)];
              log := log + [Acked(app, item.streamId)];
              if !writes {
                how := Broke;
                return;
              }
            case Ok(Ping) =>
              log := log + [Acked(app, item.streamId)];
              if !writes {
                how := Broke;
                return;
              }
            case Ok(Other(_, _)) =>
          }
      }
    }
    how := Broke;
  }

  // ----- acknowledgements are covered by callbacks -----

  /** How many items of the app's stream come before event `e`. */
  function Position(events: seq<Event>, e: nat, app: AppId): nat
    requires e <= |events|
  {
    if e == 0 then 0
    else Position(events, e - 1, app) + if events[e - 1].Arrives? && events[e - 1].app == app then 1 else 0
  }

  /** Each stream numbers its frames from one. */
  ghost predicate Numbered(events: seq<Event>) {
    forall e :: 0 <= e < |events| && events[e].Arrives? && events[e].item.result.Ok? ==>
      events[e].item.streamId == Position(events, e, events[e].app) + 1
  }

  predicate Handled(log: seq<Deed>, e: Event, streamId: int)
    requires e.Arrives?
  {
    e.item.result.Ok? && (e.item.result.value.Data? ==> Callback(e.app, streamId) in log)
  }

  /** Every frame of the app up to the id was well formed, and its callback has returned if it was a message. */
  ghost predicate Covers(log: seq<Deed>, events: seq<Event>, app: AppId, id: int) {
    forall e :: 0 <= e < |events| && events[e].Arrives? && events[e].app == app && Position(events, e, app) < id ==>
      Handled(log, events[e], Position(events, e, app) + 1)
  }

  ghost predicate AcksCovered(log: seq<Deed>, events: seq<Event>) {
    forall p :: 0 <= p < |log| && log[p].Acked? ==> Covers(log[..p], events, log[p].app, log[p].streamId)
  }

  ghost predicate HandledUpTo(log: seq<Deed>, events: seq<Event>, n: nat)
    requires n <= |events|
  {
    forall e :: 0 <= e < n && events[e].Arrives? ==> Handled(log, events[e], Position(events, e, events[e].app) + 1)
  }

  lemma {:induction false} PositionGrows(events: seq<Event>, e: nat, n: nat, app: AppId)
    requires e <= n <= |events|
    ensures Position(events, e, app) <= Position(events, n, app)
    decreases n - e
  {
    if e < n {
      PositionGrows(events, e, n - 1, app);
    }
  }

  /** What has been handled covers the app's frames up to where the loop stands. */
  lemma HandledCovers(log: seq<Deed>, events: seq<Event>, n: nat, app: AppId)
    requires n <= |events| && HandledUpTo(log, events, n)
    ensures Covers(log, events, app, Position(events, n, app))
  {
    hide Position;
    forall e | 0 <= e < |events| && events[e].Arrives? && events[e].app == app
               && Position(events, e, app) < Position(events, n, app)
      ensures Handled(log, events[e], Position(events, e, app) + 1)
    {
      EarlierIsBefore(events, e, n, app);
    }
  }

  lemma EarlierIsBefore(events: seq<Event>, e: nat, n: nat, app: AppId)
    requires e <= |events| && n <= |events| && Position(events, e, app) < Position(events, n, app)
    ensures e < n
  {
    if n <= e {
      PositionGrows(events, n, e, app);
    }
  }

  lemma AppendKeepsHandled(log: seq<Deed>, events: seq<Event>, n: nat, d: Deed)
    requires n <= |events| && HandledUpTo(log, events, n)
    ensures HandledUpTo(log + [d], events, n)
  {
    forall e | 0 <= e < n && events[e].Arrives?
      ensures Handled(log + [d], events[e], Position(events, e, events[e].app) + 1)
    {
      assert Handled(log, events[e], Position(events, e, events[e].app) + 1);
    }
  }

  lemma AppendKeepsCovered(log: seq<Deed>, events: seq<Event>, d: Deed)
    requires AcksCovered(log, events)
    requires d.Acked? ==> Covers(log, events, d.app, d.streamId)
    ensures AcksCovered(log + [d], events)
  {
    hide Covers;
    var more := log + [d];
    forall p | 0 <= p < |more| && more[p].Acked? ensures Covers(more[..p], events, more[p].app, more[p].streamId) {
      assert more[..p] == if p < |log| then log[..p] else log;
    }
  }

  lemma AckKeepsCovered(log: seq<Deed>, events: seq<Event>, n: nat)
    requires n < |events| && events[n].Arrives? && events[n].item.result.Ok? && Numbered(events)
    requires AcksCovered(log, events) && HandledUpTo(log, events, n + 1)
    ensures var ack := Acked(events[n].app, events[n].item.streamId);
            AcksCovered(log + [ack], events) && HandledUpTo(log + [ack], events, n + 1)
  {
    var app, ack := events[n].app, Acked(events[n].app, events[n].item.streamId);
    HandledCovers(log, events, n + 1, app);
    assert Position(events, n + 1, app) == events[n].item.streamId;
    AppendKeepsCovered(log, events, ack);
    AppendKeepsHandled(log, events, n + 1, ack);
  }

  lemma EventKeepsCovered(log: seq<Deed>, events: seq<Event>, n: nat)
    requires n < |events| && Numbered(events) && AcksCovered(log, events) && HandledUpTo(log, events, n)
    ensures var (next, how) := EventAfter(log, events[n]);
            AcksCovered(next, events) && (how.Going? ==> HandledUpTo(next, events, n + 1))
  {
    var e := events[n];
    if e.Arrives? && e.item.result.Ok? && (e.item.result.value.Data? ==> e.accepts) {
      assert e.item.streamId == Position(events, n, e.app) + 1;
      var callback := Callback(e.app, e.item.streamId);
      AppendKeepsHandled(log, events, n, callback);
      AppendKeepsCovered(log, events, callback);
      hide AcksCovered, Numbered;
      if e.item.result.value.Data? {
        assert HandledUpTo(log + [callback], events, n + 1);
        AckKeepsCovered(log + [callback], events, n);
      } else {
        assert HandledUpTo(log, events, n + 1);
        AckKeepsCovered(log, events, n);
      }
    }
  }

  lemma {:induction false} LoopKeepsCovered(log: seq<Deed>, events: seq<Event>, n: nat)
    requires n <= |events| && Numbered(events) && AcksCovered(log, events) && HandledUpTo(log, events, n)
    ensures AcksCovered(LoopFrom(log, events, n).0, events)
    decreases |events| - n
  {
    hide AcksCovered, Numbered, HandledUpTo, EventAfter;
    if n < |events| {
      EventKeepsCovered(log, events, n);
      var (next, how) := EventAfter(log, events[n]);
      if how.Going? {
        LoopKeepsCovered(next, events, n + 1);
      }
    }
  }

  /** Whatever arrives on any number of streams, a stream id is acknowledged only after the callback
      has returned for every message up to it; a malformed frame is never acknowledged. */
  lemma CallbackComesFirst(events: seq<Event>)
    requires Numbered(events)
    ensures AcksCovered(LoopFrom([], events, 0).0, events)
  {
    LoopKeepsCovered([], events, 0);
  }

  /** The items of each app are what the decoder yields for some behaviour of that app's socket. */
  ghost predicate FromWire(events: seq<Event>, scripts: map<AppId, Script>) {
    forall e :: 0 <= e < |events| && events[e].Arrives? ==>
      && events[e].app in scripts
      && Position(events, e, events[e].app) < |Drain(FRESH, scripts[events[e].app])|
      && events[e].item == Drain(FRESH, scripts[events[e].app])[Position(events, e, events[e].app)]
  }

  /** The same for the bytes of the sockets, however they are cut up. */
  lemma CallbackComesFirstOnTheWire(events: seq<Event>, scripts: map<AppId, Script>)
    requires FromWire(events, scripts)
    ensures AcksCovered(LoopFrom([], events, 0).0, events)
  {
    hide AcksCovered, LoopFrom, Drain;
    forall e | 0 <= e < |events| && events[e].Arrives? && events[e].item.result.Ok?
      ensures events[e].item.streamId == Position(events, e, events[e].app) + 1
    {
      DrainIsNumbered(FRESH, scripts[events[e].app], Position(events, e, events[e].app));
    }
    CallbackComesFirst(events);
  }
}
