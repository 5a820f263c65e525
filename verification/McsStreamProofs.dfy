/** The incremental decoder yields what the one-shot parser does, however the bytes arrive. */
module McsStreamProofs {
  import opened Types
  import opened McsMessages
  import opened McsStream
  import Varint

  /** All bytes a script brings before it ends. */
  function Input(script: Script): seq<Byte>
    decreases |script|
  {
    if script == [] then []
    else
      match script[0]
      case NotReady => Input(script[1..])
      case Chunk(bytes) => if bytes == [] then [] else bytes + Input(script[1..])
      case _ => []
  }

  // ----- the front of a growing buffer -----

  lemma FrontIsStable(buffer: seq<Byte>, more: seq<Byte>)
    requires !FrontOf(buffer).Incomplete?
    ensures FrontOf(buffer + more) == FrontOf(buffer)
  {
    assert (buffer + more)[1..] == buffer[1..] + more;
    if buffer[0] != CLOSE {
      Varint.DecodeIgnoresWhatFollows(buffer[1..], more, MAX_LENGTH_BYTES);
      var r := Varint.Decode(buffer[1..], MAX_LENGTH_BYTES);
      if r.Done? && r.value <= MAX_FRAME_BYTES {
        assert (buffer + more)[1 + r.size..1 + r.size + r.value] == buffer[1 + r.size..1 + r.size + r.value];
      }
    }
  }

  /** Until the required number of bytes is there, more bytes decide nothing but a lone close tag. */
  lemma ShortFrontIsIncomplete(buffer: seq<Byte>, more: seq<Byte>)
    requires FrontOf(buffer).Incomplete? && |buffer + more| < FrontOf(buffer).required
    ensures FrontOf(buffer + more).Incomplete? || buffer + more == [CLOSE]
  {
    if buffer == [] {
      assert buffer + more == more;
    } else {
      var r := Varint.Decode(buffer[1..], MAX_LENGTH_BYTES);
      if r.Done? {
        assert (buffer + more)[1..] == buffer[1..] + more;
        Varint.DecodeIgnoresWhatFollows(buffer[1..], more, MAX_LENGTH_BYTES);
      } else {
        assert more == [];
        assert buffer + more == buffer;
      }
    }
  }

  // ----- one poll -----

  ghost predicate Live(d: Decoder) {
    (d.buffer == [] ==> d.required == 2) && d.required > 0
  }

  /** All a decoder can still see. */
  function Ahead(d: Decoder, script: Script): seq<Byte> {
    d.buffer + Input(script)
  }

  /** Reading moves bytes from the socket to the end of the buffer and keeps them all. */
  lemma {:induction false} FillKeepsBytes(buffer: seq<Byte>, required: nat, script: Script)
    requires |buffer| < required
    ensures match Fill(buffer, required, script)
            case Enough(more, rest) => buffer <= more && more + Input(rest) == buffer + Input(script)
            case Blocked(more, rest) =>
              buffer <= more && more + Input(rest) == buffer + Input(script) && |more| < required
            case _ => |buffer + Input(script)| < required
    decreases |script|
  {
    if script != [] && script[0].Chunk? && script[0].bytes != [] {
      var more := buffer + script[0].bytes;
      assert more + Input(script[1..]) == buffer + Input(script);
      if |more| < required {
        FillKeepsBytes(more, required, script[1..]);
      }
    }
  }

  /** The read that ends the script is a failure, not an end of file. */
  predicate Fails(script: Script)
    decreases |script|
  {
    script != [] &&
    match script[0]
    case NotReady => Fails(script[1..])
    case Chunk(bytes) => bytes != [] && Fails(script[1..])
    case Eof => false
    case Failure => true
  }

  lemma {:induction false} FillEndsAsScriptDoes(buffer: seq<Byte>, required: nat, script: Script)
    ensures match Fill(buffer, required, script)
            case AtEof(_) => !Fails(script)
            case Failed(_) => Fails(script)
            case more => Fails(more.script) == Fails(script)
    decreases |script|
  {
    if script != [] && script[0].Chunk? {
      FillEndsAsScriptDoes(buffer + script[0].bytes, required, script[1..]);
    }
  }

  /** What a poll may do, stated on the bytes alone. */
  ghost predicate PollSound(d: Decoder, script: Script, p: Poll) {
    var whole := Parse(Ahead(d, script), d.lastId);
    match p
    case Pending(d', rest) =>
      // nothing is lost, and no complete frame is kept back
      && Live(d') && d'.lastId == d.lastId && Ahead(d', rest) == Ahead(d, script)
      && Parse(d'.buffer, d'.lastId).items == []
    case Yield(result, d', rest) =>
      && (d' == Dead(d.lastId) || Live(d'))
      && (result == Err(Socket) ==>
            d' == Dead(d.lastId) && whole.items == [] && (!whole.ended || Ahead(d, script) == [CLOSE]))
      && (result != Err(Socket) && d' == Dead(d.lastId) ==>
            whole.items == [Item(result, d.lastId)] && whole.ended)
      && (result != Err(Socket) && d' != Dead(d.lastId) ==>
            var after := Parse(Ahead(d', rest), d'.lastId);
            whole == after.(items := [Item(result, d'.lastId)] + after.items))
    case End(d', rest) => d' == Dead(d.lastId) && whole.items == []
  }

  lemma ClassifyingIsNotReading(tag: Byte, body: seq<Byte>)
    ensures Classify(tag, body) != Err(Socket)
  {
    hide DecodeData;
  }

  /** The parser takes the frame at the front of the buffer, whatever is still to be read. */
  lemma ParseTakesFront(buffer: seq<Byte>, more: seq<Byte>, lastId: int)
    requires FrontOf(buffer).Complete? && lastId < MAX_STREAM_ID
    ensures var front := FrontOf(buffer);
            var after := Parse(buffer[front.size..] + more, lastId + 1);
            Parse(buffer + more, lastId)
            == after.(items := [Item(Classify(front.tag, front.body), lastId + 1)] + after.items)
  {
    hide Classify, FrontOf;
    FrontIsStable(buffer, more);
    assert (buffer + more)[FrontOf(buffer).size..] == buffer[FrontOf(buffer).size..] + more;
  }

  lemma ParseGoesOn(bytes: seq<Byte>, lastId: int)
    requires FrontOf(bytes).Complete? && lastId < MAX_STREAM_ID
    ensures var after := Parse(bytes[FrontOf(bytes).size..], lastId + 1);
            Parse(bytes, lastId).rest == after.rest && Parse(bytes, lastId).ended == after.ended
  {
    hide Classify, FrontOf;
  }

  lemma ParseStops(bytes: seq<Byte>, lastId: int)
    requires FrontOf(bytes).Complete? ==> lastId >= MAX_STREAM_ID
    ensures Parse(bytes, lastId).rest == bytes
    ensures Parse(bytes, lastId).ended <==> !FrontOf(bytes).Incomplete?
    ensures FrontOf(bytes).Incomplete? || FrontOf(bytes).CloseSeen? ==> Parse(bytes, lastId).items == []
  {
    hide FrontOf;
  }

  lemma PollTakesFront(d: Decoder, script: Script)
    requires Live(d) && FrontOf(d.buffer).Complete? && d.lastId < MAX_STREAM_ID
    ensures var front := FrontOf(d.buffer);
            PollNext(d, script)
            == Yield(Classify(front.tag, front.body), Decoder(d.buffer[front.size..], 2, d.lastId + 1), script)
  {
    hide Classify, FrontOf;
  }

  lemma CompletePollIsSound(d: Decoder, script: Script)
    requires Live(d) && FrontOf(d.buffer).Complete? && d.lastId < MAX_STREAM_ID
    ensures PollSound(d, script, PollNext(d, script))
  {
    hide Classify, FrontOf, PollNext, Parse, Input;
    var front := FrontOf(d.buffer);
    ParseTakesFront(d.buffer, Input(script), d.lastId);
    PollTakesFront(d, script);
    ClassifyingIsNotReading(front.tag, front.body);
  }

  lemma DecidedPollIsSound(d: Decoder, script: Script)
    requires Live(d) && !FrontOf(d.buffer).Incomplete?
    ensures PollSound(d, script, PollNext(d, script))
  {
    if FrontOf(d.buffer).Complete? && d.lastId < MAX_STREAM_ID {
      CompletePollIsSound(d, script);
    } else {
      FrontIsStable(d.buffer, Input(script));
    }
  }

  /** Too few bytes for the frame at the front make no item, and end nothing but by a lone close tag. */
  lemma ShortInputGivesNothing(buffer: seq<Byte>, more: seq<Byte>, lastId: int)
    requires FrontOf(buffer).Incomplete? && |buffer + more| < FrontOf(buffer).required
    ensures var p := Parse(buffer + more, lastId); p.items == [] && (p.ended ==> buffer + more == [CLOSE])
  {
    hide FrontOf, Parse;
    CloseIsSeen();
    ShortFrontIsIncomplete(buffer, more);
    ParseStops(buffer + more, lastId);
  }

  lemma RequiredIsFronts(d: Decoder)
    requires Live(d) && FrontOf(d.buffer).Incomplete?
    ensures Required(d) == FrontOf(d.buffer).required > |d.buffer|
    ensures d.buffer == [] ==> Required(d) == 2
  {
  }

  lemma UnfilledPollIsSound(d: Decoder, script: Script)
    requires Live(d) && FrontOf(d.buffer).Incomplete? && !Fill(d.buffer, Required(d), script).Enough?
    ensures PollSound(d, script, PollNext(d, script))
  {
    hide FrontOf, Parse, Required, Fill, Input;
    RequiredIsFronts(d);
    FillKeepsBytes(d.buffer, Required(d), script);
    match Fill(d.buffer, Required(d), script)
    case Blocked(buffer, rest) =>
      assert d.buffer + buffer[|d.buffer|..] == buffer;
      ShortInputGivesNothing(d.buffer, buffer[|d.buffer|..], d.lastId);
    case AtEof(rest) =>
      ShortInputGivesNothing(d.buffer, Input(script), d.lastId);
    case Failed(rest) =>
      ShortInputGivesNothing(d.buffer, Input(script), d.lastId);
  }

  lemma FilledPollGoesOn(d: Decoder, script: Script)
    requires Live(d) && FrontOf(d.buffer).Incomplete? && Fill(d.buffer, Required(d), script).Enough?
    ensures var Enough(buffer, rest) := Fill(d.buffer, Required(d), script);
            var next := Decoder(buffer, Required(d), d.lastId);
            Live(next) && Ahead(next, rest) == Ahead(d, script) && PollNext(d, script) == PollNext(next, rest)
  {
    RequiredIsFronts(d);
    hide FrontOf;
    FillKeepsBytes(d.buffer, Required(d), script);
  }

  lemma {:induction false} PollIsSound(d: Decoder, script: Script)
    requires Live(d)
    ensures PollSound(d, script, PollNext(d, script))
    decreases |script|
  {
    hide FrontOf, Parse, Fill, PollNext, Ahead, Live, Required;
    if !FrontOf(d.buffer).Incomplete? {
      DecidedPollIsSound(d, script);
    } else if Fill(d.buffer, Required(d), script).Enough? {
      FilledPollGoesOn(d, script);
      var Enough(buffer, rest) := Fill(d.buffer, Required(d), script);
      PollIsSound(Decoder(buffer, Required(d), d.lastId), rest);
    } else {
      UnfilledPollIsSound(d, script);
    }
  }

  // ----- how a script ends -----

  /** One poll uses up the reads that the script's way of ending depends on, and no others. */
  lemma {:induction false} PollEndsAsScriptDoes(d: Decoder, script: Script)
    requires Live(d)
    ensures var p := PollNext(d, script);
            && (p.Pending? || (p.Yield? && p.decoder != Dead(d.lastId)) ==> Fails(p.script) == Fails(script))
            && (p.Yield? && p.result == Err(Socket) ==> Fails(script))
            && (p.End? ==> !Fails(script) || FrontOf(Ahead(d, script)).CloseSeen?)
    decreases |script|
  {
    if FrontOf(d.buffer).Incomplete? {
      FillEndsAsScriptDoes(d.buffer, Required(d), script);
      FillKeepsBytes(d.buffer, Required(d), script);
      match Fill(d.buffer, Required(d), script)
      case Enough(buffer, rest) => PollEndsAsScriptDoes(Decoder(buffer, Required(d), d.lastId), rest);
      case _ =>
    } else {
      FrontIsStable(d.buffer, Input(script));
    }
  }

  /** The last chunk before a failure is a close tag and nothing else. */
  predicate LoneCloseBeforeFailure(script: Script)
    decreases |script|
  {
    script != [] &&
    match script[0]
    case NotReady => LoneCloseBeforeFailure(script[1..])
    case Chunk(bytes) =>
      bytes != []
      && ((bytes == [CLOSE] && |script| >= 2 && script[1] == Failure) || LoneCloseBeforeFailure(script[1..]))
    case _ => false
  }

  lemma {:induction false} LoneCloseIsInput(script: Script)
    requires LoneCloseBeforeFailure(script)
    ensures Fails(script) && Input(script) != []
    decreases |script|
  {
    if script[0].NotReady? {
      LoneCloseIsInput(script[1..]);
    } else if LoneCloseBeforeFailure(script[1..]) {
      LoneCloseIsInput(script[1..]);
    } else {
      assert script[1..][0] == Failure;
    }
  }

  /** Filling the buffer passes by such a tag only by taking it as the very last byte it needs. */
  lemma {:induction false} FillPastLoneClose(buffer: seq<Byte>, required: nat, script: Script)
    requires |buffer| < required
    ensures match Fill(buffer, required, script)
            case Enough(more, rest) =>
              LoneCloseBeforeFailure(rest) == LoneCloseBeforeFailure(script)
              || (|buffer| < |more| <= required && buffer <= more[..|more| - 1] && more[|more| - 1] == CLOSE
                  && Input(rest) == [])
            case Blocked(_, rest) => LoneCloseBeforeFailure(rest) == LoneCloseBeforeFailure(script)
            case AtEof(_) => !LoneCloseBeforeFailure(script)
            case Failed(_) => true
    decreases |script|
  {
    if script != [] && script[0].Chunk? && script[0].bytes != [] {
      var bytes, rest := script[0].bytes, script[1..];
      var more := buffer + bytes;
      if |more| < required {
        FillPastLoneClose(more, required, rest);
        if bytes == [CLOSE] && rest != [] && rest[0] == Failure {
          assert Fill(more, required, rest).Failed?;
        }
      } else if bytes == [CLOSE] {
        assert more[..|more| - 1] == buffer;
      }
    }
  }

  /** A frame that a buffer does not hold completely ends behind it. */
  lemma IncompleteFrameReachesFurther(buffer: seq<Byte>, more: seq<Byte>)
    requires FrontOf(buffer).Incomplete? && FrontOf(buffer + more).Complete?
    ensures FrontOf(buffer + more).size > |buffer|
  {
    if buffer != [] {
      assert (buffer + more)[1..] == buffer[1..] + more;
      if Varint.Decode(buffer[1..], MAX_LENGTH_BYTES).Done? {
        Varint.DecodeIgnoresWhatFollows(buffer[1..], more, MAX_LENGTH_BYTES);
      } else {
        Varint.UnfinishedReachesFurther(buffer[1..], more, MAX_LENGTH_BYTES);
      }
    }
  }

  lemma WholeFrameLeavesRest(bytes: seq<Byte>, lastId: int)
    requires FrontOf(bytes).Complete? && Parse(bytes, lastId).rest == [CLOSE]
    ensures FrontOf(bytes).size < |bytes| || bytes == [CLOSE]
  {
    var tail := bytes[FrontOf(bytes).size..];
    assert tail == [] ==> Parse(tail, lastId + 1) == Parsed([], false, []);
  }

  /** A close tag that ends the stream alone is not the last byte of something incomplete. */
  lemma CloseFollowsWholeFrames(buffer: seq<Byte>, lastId: int)
    requires FrontOf(buffer).Incomplete? || buffer == [CLOSE]
    requires Parse(buffer + [CLOSE], lastId).rest == [CLOSE]
    ensures buffer == []
  {
    var whole := buffer + [CLOSE];
    if FrontOf(whole).Complete? && FrontOf(buffer).Incomplete? {
      IncompleteFrameReachesFurther(buffer, [CLOSE]);
      WholeFrameLeavesRest(whole, lastId);
    }
  }

  /** If the close tag is the last byte of a buffer just filled, it fills no gap in it. */
  lemma CloseFillsNoGap(before: seq<Byte>, more: seq<Byte>, lastId: int)
    requires FrontOf(before).Incomplete? && |before + more| < FrontOf(before).required
    requires Parse(before + more + [CLOSE], lastId).rest == [CLOSE]
    ensures before + more == []
  {
    hide Parse, FrontOf;
    ShortFrontIsIncomplete(before, more);
    CloseFollowsWholeFrames(before + more, lastId);
  }

  lemma LastByte(before: seq<Byte>, buffer: seq<Byte>)
    requires |before| < |buffer| && before <= buffer[..|buffer| - 1] && buffer[|buffer| - 1] == CLOSE
    ensures buffer == before + buffer[|before|..|buffer| - 1] + [CLOSE]
  {
  }

  lemma EnoughKeepsLoneClose(d: Decoder, script: Script)
    requires Live(d) && FrontOf(d.buffer).Incomplete? && Fill(d.buffer, Required(d), script).Enough?
    requires Parse(Ahead(d, script), d.lastId).rest == [CLOSE]
    ensures LoneCloseBeforeFailure(Fill(d.buffer, Required(d), script).script) == LoneCloseBeforeFailure(script)
  {
    assert Required(d) == FrontOf(d.buffer).required >= 2;
    hide Parse, Fill, FrontOf, Live, Required, LoneCloseBeforeFailure, Input;
    FillPastLoneClose(d.buffer, Required(d), script);
    FillKeepsBytes(d.buffer, Required(d), script);
    var Enough(buffer, rest) := Fill(d.buffer, Required(d), script);
    if LoneCloseBeforeFailure(rest) != LoneCloseBeforeFailure(script) {
      LastByte(d.buffer, buffer);
      assert Ahead(d, script) == buffer;
      CloseFillsNoGap(d.buffer, buffer[|d.buffer|..|buffer| - 1], d.lastId);
    }
  }

  // ----- when the socket fails -----

  lemma LoneTagThenFailure(d: Decoder, script: Script)
    requires Live(d) && d.buffer == [] && Input(script) == [CLOSE]
    requires PollNext(d, script).Yield? && PollNext(d, script).result == Err(Socket)
    ensures |script| >= 2 && script[0] == Chunk([CLOSE]) && script[1] == Failure
  {
    var bytes, rest := script[0].bytes, script[1..];
    assert bytes != [] && bytes + Input(rest) == [CLOSE];
    assert |bytes| + |Input(rest)| == 1;
    assert bytes == [CLOSE] && Input(rest) == [];
    assert d.buffer + bytes == [CLOSE];
    assert Fill(d.buffer, 2, script) == Fill([CLOSE], 2, rest);
  }

  lemma FailureHidesLoneTag(d: Decoder, script: Script)
    requires Live(d) && d.buffer == []
    requires |script| >= 2 && script[0] == Chunk([CLOSE]) && script[1] == Failure
    ensures PollNext(d, script).Yield? && PollNext(d, script).result == Err(Socket)
    ensures Parse(Ahead(d, script), d.lastId).ended
  {
    var rest := script[1..];
    assert rest[0] == Failure && Input(rest) == [];
    assert Input(script) == [CLOSE] + Input(rest) == [CLOSE];
    assert Ahead(d, script) == [CLOSE];
    assert d.buffer + [CLOSE] == [CLOSE];
    assert Fill([CLOSE], 2, rest) == Failed(rest[1..]);
  }

  lemma BufferedCloseEnds(d: Decoder, script: Script)
    ensures d.buffer != [] && Ahead(d, script) == [CLOSE] ==> PollNext(d, script).End?
  {
    if d.buffer != [] {
      assert d.buffer[0] == Ahead(d, script)[0];
    }
  }

  lemma HiddenCloseIsAlone(d: Decoder, script: Script)
    requires Live(d)
    requires PollNext(d, script).Yield? && PollNext(d, script).result == Err(Socket)
    requires Ahead(d, script) == [CLOSE]
    ensures d.buffer == [] && Input(script) == [CLOSE]
  {
    BufferedCloseEnds(d, script);
  }

  /** A poll reports the socket error although the stream was closed before it, exactly if the
      close tag and the failure are the first two things it reads. */
  lemma FailureHidesCloseOnlyAfterLoneTag(d: Decoder, script: Script)
    requires Live(d)
    ensures (PollNext(d, script).Yield? && PollNext(d, script).result == Err(Socket)
             && Parse(Ahead(d, script), d.lastId).ended)
        <==> (d.buffer == [] && |script| >= 2 && script[0] == Chunk([CLOSE]) && script[1] == Failure)
  {
    PollIsSound(d, script);
    var p := PollNext(d, script);
    if p.Yield? && p.result == Err(Socket) && Parse(Ahead(d, script), d.lastId).ended {
      HiddenCloseIsAlone(d, script);
      LoneTagThenFailure(d, script);
    } else if d.buffer == [] && |script| >= 2 && script[0] == Chunk([CLOSE]) && script[1] == Failure {
      FailureHidesLoneTag(d, script);
    }
  }

  /** What the reads still to come make of a stream that ends with a close tag: the failure hides it. */
  predicate HidesClose(d: Decoder, script: Script) {
    LoneCloseBeforeFailure(script) && Parse(Ahead(d, script), d.lastId).rest == [CLOSE]
  }

  lemma TakenFrameKeepsHiding(d: Decoder, script: Script)
    requires Live(d) && FrontOf(d.buffer).Complete? && d.lastId < MAX_STREAM_ID
    ensures match PollNext(d, script)
            case Yield(_, d', rest) => d' != Dead(d.lastId) && HidesClose(d', rest) == HidesClose(d, script)
            case _ => false
  {
    hide Classify, FrontOf, PollNext, Parse, Input, LoneCloseBeforeFailure;
    ParseTakesFront(d.buffer, Input(script), d.lastId);
    PollTakesFront(d, script);
  }

  lemma StoppedPollHidesNothing(d: Decoder, script: Script)
    requires Live(d) && !FrontOf(d.buffer).Incomplete?
    requires FrontOf(d.buffer).Complete? ==> d.lastId >= MAX_STREAM_ID
    ensures !HidesClose(d, script) && !PollNext(d, script).Pending?
    ensures PollNext(d, script).Yield? ==> PollNext(d, script).decoder == Dead(d.lastId)
  {
    hide Input, LoneCloseBeforeFailure;
    FrontIsStable(d.buffer, Input(script));
    if LoneCloseBeforeFailure(script) {
      LoneCloseIsInput(script);
    }
  }

  /** A poll passes the way the stream ends on to the next one, or it is the failure that hides the tag. */
  lemma {:induction false} PollKeepsHiding(d: Decoder, script: Script)
    requires Live(d)
    ensures match PollNext(d, script)
            case Pending(d', rest) => HidesClose(d', rest) == HidesClose(d, script)
            case End(_, _) => !HidesClose(d, script)
            case Yield(result, d', rest) =>
              if d' == Dead(d.lastId) then HidesClose(d, script) ==> result == Err(Socket)
              else HidesClose(d', rest) == HidesClose(d, script)
    decreases |script|
  {
    hide Classify, Parse;
    if !FrontOf(d.buffer).Incomplete? {
      if FrontOf(d.buffer).Complete? && d.lastId < MAX_STREAM_ID {
        TakenFrameKeepsHiding(d, script);
      } else {
        StoppedPollHidesNothing(d, script);
      }
    } else {
      FillKeepsBytes(d.buffer, Required(d), script);
      FillPastLoneClose(d.buffer, Required(d), script);
      match Fill(d.buffer, Required(d), script)
      case Enough(buffer, rest) =>
        if Parse(Ahead(d, script), d.lastId).rest == [CLOSE] {
          EnoughKeepsLoneClose(d, script);
        }
        PollKeepsHiding(Decoder(buffer, Required(d), d.lastId), rest);
      case _ =>
    }
  }

  // ----- whole streams -----

  lemma {:induction false} PollIsNumbered(d: Decoder, script: Script)
    requires Live(d)
    ensures match PollNext(d, script)
            case Pending(d', _) => Live(d') && d'.lastId == d.lastId
            case End(d', _) => d' == Dead(d.lastId)
            case Yield(result, d', _) =>
              if d' == Dead(d.lastId) then result.Err? else Live(d') && d'.lastId == d.lastId + 1
    decreases |script|
  {
    if FrontOf(d.buffer).Incomplete? {
      FillKeepsBytes(d.buffer, Required(d), script);
      match Fill(d.buffer, Required(d), script)
      case Enough(buffer, rest) => PollIsNumbered(Decoder(buffer, Required(d), d.lastId), rest);
      case _ =>
    }
  }

  /** Everything a reader gets by polling until the end, or until the script is used up. */
  function Drain(d: Decoder, script: Script): seq<Item>
    decreases |script|, |d.buffer|
  {
    match PollNext(d, script)
    case End(_, _) => []
    case Yield(result, d', rest) => [Item(result, d'.lastId)] + Drain(d', rest)
    case Pending(d', rest) => if script == [] then [] else Drain(d', rest)
  }

  /** The parser's items, and the socket's failure behind them if the stream was still open. */
  function OutputOf(bytes: seq<Byte>, lastId: int, fails: bool): seq<Item> {
    var p := Parse(bytes, lastId);
    p.items + if fails && !p.ended then [Item(Err(Socket), lastId + |p.items|)] else []
  }

  /** What is read from `d` on: that, and a failure in place of a close tag it hides. */
  function Expected(d: Decoder, script: Script): seq<Item> {
    var items := Parse(Ahead(d, script), d.lastId).items;
    OutputOf(Ahead(d, script), d.lastId, Fails(script))
    + if HidesClose(d, script) then [Item(Err(Socket), d.lastId + |items|)] else []
  }

  lemma DeadYieldsNothing(lastId: int, script: Script)
    ensures Drain(Dead(lastId), script) == []
  {
  }

  lemma CloseIsSeen()
    ensures FrontOf([CLOSE]).CloseSeen?
  {
  }

  lemma {:induction false} CloseRestMeansEnded(bytes: seq<Byte>, lastId: int)
    requires Parse(bytes, lastId).rest == [CLOSE]
    ensures Parse(bytes, lastId).ended
    decreases |bytes|
  {
    hide Parse, FrontOf;
    CloseIsSeen();
    if FrontOf(bytes).Complete? && lastId < MAX_STREAM_ID {
      ParseGoesOn(bytes, lastId);
      CloseRestMeansEnded(bytes[FrontOf(bytes).size..], lastId + 1);
    } else {
      ParseStops(bytes, lastId);
    }
  }

  lemma FailedPollGives(d: Decoder, script: Script)
    requires Live(d) && PollNext(d, script).Yield? && PollNext(d, script).result == Err(Socket)
    ensures Expected(d, script) == [Item(Err(Socket), d.lastId)] && PollNext(d, script).decoder == Dead(d.lastId)
  {
    hide PollNext, Fails, Input, Live;
    PollIsSound(d, script);
    PollEndsAsScriptDoes(d, script);
    FailureHidesCloseOnlyAfterLoneTag(d, script);
    var p := Parse(Ahead(d, script), d.lastId);
    if p.ended {
      assert Ahead(d, script) == [CLOSE] && p.rest == [CLOSE];
    } else if p.rest == [CLOSE] {
      CloseRestMeansEnded(Ahead(d, script), d.lastId);
    }
  }

  lemma BrokenPollGives(d: Decoder, script: Script)
    requires Live(d) && PollNext(d, script).Yield? && PollNext(d, script).result != Err(Socket)
    requires PollNext(d, script).decoder == Dead(d.lastId)
    ensures Expected(d, script) == [Item(PollNext(d, script).result, d.lastId)]
  {
    hide PollNext, Parse, HidesClose, Fails, Live, Dead;
    PollIsSound(d, script);
    PollKeepsHiding(d, script);
  }

  lemma EndedPollGives(d: Decoder, script: Script)
    requires Live(d) && PollNext(d, script).End?
    ensures Expected(d, script) == []
  {
    hide PollNext, HidesClose, Fails, Live, Dead, Ahead;
    PollIsSound(d, script);
    PollKeepsHiding(d, script);
    PollEndsAsScriptDoes(d, script);
  }

  lemma DrainTakesItem(d: Decoder, script: Script)
    requires Live(d) && PollNext(d, script).Yield? && PollNext(d, script).decoder != Dead(d.lastId)
    ensures var p := PollNext(d, script);
            Live(p.decoder) && Expected(d, script) == [Item(p.result, p.decoder.lastId)] + Expected(p.decoder, p.script)
  {
    hide Classify, Parse, PollNext, Ahead, Fails, Live, Dead, HidesClose;
    PollIsSound(d, script);
    PollEndsAsScriptDoes(d, script);
    PollKeepsHiding(d, script);
    PollIsNumbered(d, script);
  }

  lemma DrainWaits(d: Decoder, script: Script)
    requires Live(d) && PollNext(d, script).Pending?
    ensures var p := PollNext(d, script);
            Live(p.decoder) && Expected(d, script) == Expected(p.decoder, p.script)
            && (script == [] ==> Expected(d, script) == [])
  {
    hide Parse, PollNext, Live;
    PollIsSound(d, script);
    PollEndsAsScriptDoes(d, script);
    PollKeepsHiding(d, script);
    if script == [] {
      assert Ahead(PollNext(d, script).decoder, []) == PollNext(d, script).decoder.buffer;
    }
  }

  lemma {:induction false} DrainYieldsExpected(d: Decoder, script: Script)
    requires Live(d)
    ensures Drain(d, script) == Expected(d, script)
    decreases |script|, |d.buffer|
  {
    hide Expected, Live;
    match PollNext(d, script)
    case End(_, _) => EndedPollGives(d, script);
    case Pending(d', rest) =>
      DrainWaits(d, script);
      if script != [] {
        DrainYieldsExpected(d', rest);
      }
    case Yield(result, d', rest) =>
      if d' != Dead(d.lastId) {
        DrainTakesItem(d, script);
        DrainYieldsExpected(d', rest);
      } else {
        DeadYieldsNothing(d.lastId, rest);
        if result == Err(Socket) {
          FailedPollGives(d, script);
        } else {
          BrokenPollGives(d, script);
        }
      }
  }

  /** The run in which a failure takes the place of the close: the bytes end with a close tag that
      arrived alone, right before the failure. */
  predicate CloseIsHidden(script: Script) {
    Parse(Input(script), 0).rest == [CLOSE] && LoneCloseBeforeFailure(script)
  }

  /** What the decoder yields for any script at all. */
  lemma DecoderOutput(script: Script)
    ensures Drain(FRESH, script)
         == OutputOf(Input(script), 0, Fails(script))
            + if CloseIsHidden(script) then [Item(Err(Socket), |Parse(Input(script), 0).items|)] else []
  {
    hide Parse, Drain, OutputOf, Fails, Input;
    assert Ahead(FRESH, script) == Input(script);
    DrainYieldsExpected(FRESH, script);
  }

  /** The decoder's output is that of the one-shot parser on all the bytes, and then the socket's
      failure if the stream was not over by then, exactly unless a failure hides the close. */
  lemma DecoderRefinesParser(script: Script)
    ensures Drain(FRESH, script) == OutputOf(Input(script), 0, Fails(script))
       <==> !(Fails(script) && Parse(Input(script), 0).rest == [CLOSE] && LoneCloseBeforeFailure(script))
  {
    hide Parse, Drain, OutputOf, Fails, Input;
    DecoderOutput(script);
    if LoneCloseBeforeFailure(script) {
      LoneCloseIsInput(script);
    }
  }

  /** How the bytes are split, and where reads stall, shows exactly in whether a failure hides the close. */
  lemma ChunkingIsIrrelevant(script: Script, other: Script)
    requires Input(script) == Input(other) && Fails(script) == Fails(other)
    ensures Drain(FRESH, script) == Drain(FRESH, other) <==> CloseIsHidden(script) == CloseIsHidden(other)
  {
    hide Parse, Drain, OutputOf, Fails, Input, CloseIsHidden;
    DecoderOutput(script);
    DecoderOutput(other);
  }

  /** The two scripts bring the same bytes and both fail, but their output differs. */
  predicate Differ(script: Script, other: Script, bytes: seq<Byte>) {
    && Input(script) == bytes == Input(other) && Fails(script) && Fails(other)
    && Drain(FRESH, script) != Drain(FRESH, other)
  }

  /** The bytes as one chunk, if there are any, then the close tag and the failure. */
  function CloseThen(front: seq<Byte>, tail: Script): Script {
    (if front == [] then [] else [Chunk(front)]) + [Chunk([CLOSE])] + tail
  }

  lemma CloseThenBrings(front: seq<Byte>, tail: Script)
    requires tail == [Failure] || tail == [NotReady, Failure]
    ensures Input(CloseThen(front, tail)) == front + [CLOSE] && Fails(CloseThen(front, tail))
    ensures LoneCloseBeforeFailure(CloseThen(front, tail)) <==> tail == [Failure]
  {
    var end := [Chunk([CLOSE])] + tail;
    assert end[1..] == tail && tail[1..] == if tail == [Failure] then [] else [Failure];
    assert tail == [NotReady, Failure] ==> tail[1..] == [Failure] && Input([Failure]) == [];
    assert Input(end) == [CLOSE] && Fails(end);
    assert LoneCloseBeforeFailure(end) <==> tail == [Failure] by {
      assert !LoneCloseBeforeFailure([Failure]) && !LoneCloseBeforeFailure(tail);
    }
    if front == [] {
      assert CloseThen(front, tail) == end;
    } else {
      assert CloseThen(front, tail)[1..] == end;
    }
  }

  lemma {:induction false} RestIsSuffix(bytes: seq<Byte>, lastId: int)
    ensures var rest := Parse(bytes, lastId).rest;
            |rest| <= |bytes| && bytes == bytes[..|bytes| - |rest|] + rest
    decreases |bytes|
  {
    hide Parse, FrontOf;
    if FrontOf(bytes).Complete? && lastId < MAX_STREAM_ID {
      ParseGoesOn(bytes, lastId);
      RestIsSuffix(bytes[FrontOf(bytes).size..], lastId + 1);
    } else {
      ParseStops(bytes, lastId);
    }
  }

  /** Cutting a failing stream's bytes differently can show exactly if they end with a close tag. */
  lemma ChunkingShowsExactlyAtClose(bytes: seq<Byte>)
    ensures (exists script, other :: Differ(script, other, bytes)) <==> Parse(bytes, 0).rest == [CLOSE]
  {
    hide Parse, Drain, Input, Fails, CloseThen, LoneCloseBeforeFailure;
    RestIsSuffix(bytes, 0);
    if Parse(bytes, 0).rest == [CLOSE] {
      var front := bytes[..|bytes| - 1];
      CloseThenBrings(front, [Failure]);
      CloseThenBrings(front, [NotReady, Failure]);
      ChunkingIsIrrelevant(CloseThen(front, [Failure]), CloseThen(front, [NotReady, Failure]));
      assert Differ(CloseThen(front, [Failure]), CloseThen(front, [NotReady, Failure]), bytes);
    }
    forall script, other | Differ(script, other, bytes) ensures Parse(bytes, 0).rest == [CLOSE] {
      ChunkingIsIrrelevant(script, other);
    }
  }

  /** The same bytes and the same failure, split differently, give different results. */
  lemma FailureMakesChunkingVisible()
    ensures Drain(FRESH, [Chunk([CLOSE]), Failure]) == [Item(Err(Socket), 0)]
    ensures Drain(FRESH, [Chunk([CLOSE]), NotReady, Failure]) == []
  {
    assert FRESH.buffer + [CLOSE] == [CLOSE];
    var once: Script := [Chunk([CLOSE]), Failure];
    assert once[1..] == [Failure];
    assert Fill([CLOSE], 2, once[1..]) == Failed([]);
    assert PollNext(FRESH, once) == Yield(Err(Socket), Dead(0), []);
    var twice: Script := [Chunk([CLOSE]), NotReady, Failure];
    assert twice[1..] == [NotReady, Failure] && twice[1..][1..] == [Failure];
    assert Fill([CLOSE], 2, twice[1..]) == Blocked([CLOSE], [Failure]);
    assert PollNext(FRESH, twice) == Pending(Decoder([CLOSE], 2, 0), [Failure]);
  }

  /** Whatever the socket does, the n-th item is the frame with stream id n, unless it is a failure
      that ends the stream. */
  lemma {:induction false} DrainIsNumbered(d: Decoder, script: Script, n: nat)
    requires Live(d) && n < |Drain(d, script)|
    ensures Drain(d, script)[n].result.Ok? ==> Drain(d, script)[n].streamId == d.lastId + n + 1
    decreases |script|, |d.buffer|
  {
    hide PollNext, Live, Dead;
    PollIsNumbered(d, script);
    match PollNext(d, script)
    case End(_, _) => assert false;
    case Pending(d', rest) => DrainIsNumbered(d', rest, n);
    case Yield(result, d', rest) =>
      if d' == Dead(d.lastId) {
        DeadYieldsNothing(d.lastId, rest);
      } else if n > 0 {
        DrainIsNumbered(d', rest, n - 1);
      }
  }

  // ----- printing and decoding -----

  datatype Printed = Printed(tag: Byte, body: seq<Byte>)

  function Print(frames: seq<Printed>): seq<Byte> {
    if frames == [] then [] else Frame(frames[0].tag, frames[0].body) + Print(frames[1..])
  }

  /** What the frames say, with stream ids counted up from `lastId`. */
  function Meaning(frames: seq<Printed>, lastId: int): seq<Item> {
    if frames == [] then []
    else [Item(Classify(frames[0].tag, frames[0].body), lastId + 1)] + Meaning(frames[1..], lastId + 1)
  }

  predicate Sendable(frame: Printed) {
    frame.tag != CLOSE && |frame.body| <= MAX_FRAME_BYTES
  }

  lemma FrontReadsFrame(frame: Printed, rest: seq<Byte>)
    requires Sendable(frame)
    ensures var bytes := Frame(frame.tag, frame.body);
            FrontOf(bytes + rest) == Complete(frame.tag, frame.body, |bytes|) && (bytes + rest)[|bytes|..] == rest
  {
    var bytes := Frame(frame.tag, frame.body);
    var length := Varint.Encode(|frame.body|);
    assert Varint.Pow128(4) == 128 * (128 * (128 * (128 * Varint.Pow128(0))));
    Varint.EncodeFits(|frame.body|, 4);
    assert (bytes + rest)[1..] == length + (frame.body + rest);
    Varint.DecodeInvertsEncode(|frame.body|, frame.body + rest, MAX_LENGTH_BYTES);
    assert (bytes + rest)[1 + |length|..1 + |length| + |frame.body|] == frame.body;
  }

  lemma ParseReadsFrame(frame: Printed, rest: seq<Byte>, lastId: int)
    requires Sendable(frame) && lastId < MAX_STREAM_ID
    ensures Parse(Frame(frame.tag, frame.body) + rest, lastId)
         == Parsed([Item(Classify(frame.tag, frame.body), lastId + 1)] + Parse(rest, lastId + 1).items,
                   Parse(rest, lastId + 1).ended, Parse(rest, lastId + 1).rest)
  {
    hide Classify;
    FrontReadsFrame(frame, rest);
  }

  lemma PrintedFirst(frames: seq<Printed>, rest: seq<Byte>)
    requires frames != []
    ensures Print(frames) + rest == Frame(frames[0].tag, frames[0].body) + (Print(frames[1..]) + rest)
  {
  }

  lemma MeaningFirst(frames: seq<Printed>, items: seq<Item>, lastId: int)
    requires frames != []
    ensures Meaning(frames, lastId) + items
         == [Item(Classify(frames[0].tag, frames[0].body), lastId + 1)] + (Meaning(frames[1..], lastId + 1) + items)
  {
  }

  /** Frames decode to the same tags and bodies, numbered consecutively, and then the rest is parsed. */
  lemma {:induction false} ParseInvertsPrint(frames: seq<Printed>, rest: seq<Byte>, lastId: int)
    requires forall f :: f in frames ==> Sendable(f)
    requires lastId + |frames| <= MAX_STREAM_ID
    ensures Parse(Print(frames) + rest, lastId)
         == Parsed(Meaning(frames, lastId) + Parse(rest, lastId + |frames|).items,
                   Parse(rest, lastId + |frames|).ended, Parse(rest, lastId + |frames|).rest)
    decreases |frames|
  {
    hide Parse, Classify, Frame;
    if frames == [] {
      assert Print(frames) + rest == rest;
      assert Meaning(frames, lastId) + Parse(rest, lastId).items == Parse(rest, lastId).items;
    } else {
      PrintedFirst(frames, rest);
      ParseReadsFrame(frames[0], Print(frames[1..]) + rest, lastId);
      ParseInvertsPrint(frames[1..], rest, lastId + 1);
      MeaningFirst(frames, Parse(rest, lastId + |frames|).items, lastId);
    }
  }

  /** Printed frames, cut up in any way, come out of the decoder as they went in; a socket that
      fails behind them is reported after the last one. */
  lemma FramesSurviveAnyChunking(frames: seq<Printed>, script: Script)
    requires forall f :: f in frames ==> Sendable(f)
    requires |frames| <= MAX_STREAM_ID
    requires Input(script) == Print(frames)
    ensures Drain(FRESH, script)
         == Meaning(frames, 0) + if Fails(script) then [Item(Err(Socket), |frames|)] else []
  {
    hide Parse, Drain, Print, Meaning, Input, Fails;
    ParsePrinted(frames);
    MeaningLength(frames, 0);
    DecoderOutput(script);
  }

  lemma ParsePrinted(frames: seq<Printed>)
    requires forall f :: f in frames ==> Sendable(f)
    requires |frames| <= MAX_STREAM_ID
    ensures Parse(Print(frames), 0) == Parsed(Meaning(frames, 0), false, [])
  {
    assert Parse([], |frames|) == Parsed([], false, []);
    hide Parse, Classify, Frame, Print, Meaning;
    ParseInvertsPrint(frames, [], 0);
    assert Print(frames) + [] == Print(frames);
    assert Meaning(frames, 0) + [] == Meaning(frames, 0);
  }

  lemma {:induction false} MeaningLength(frames: seq<Printed>, lastId: int)
    ensures |Meaning(frames, lastId)| == |frames|
  {
    if frames != [] {
      MeaningLength(frames[1..], lastId + 1);
    }
  }

  // ----- what the frames are, read off the bytes -----

  /** The frame length behind the tag takes n bytes. */
  ghost predicate LengthAt(bytes: seq<Byte>, n: nat, length: nat) {
    1 <= n <= 5 && n < |bytes| && Varint.Spells(bytes[1..1 + n], length)
  }

  /** The length that the decoder reads is the one the bytes spell. */
  lemma {:induction false} LengthIsRead(bytes: seq<Byte>, n: nat, length: nat)
    requires bytes != []
    ensures Varint.Decode(bytes[1..], 5) == Varint.Done(length, n) <==> LengthAt(bytes, n, length)
  {
    hide Varint.Spells;
    var rest := bytes[1..];
    Varint.DecodeIsExact(rest, 5);
    if Varint.Decode(rest, 5) == Varint.Done(length, n) {
      assert rest[..n] == bytes[1..1 + n];
    }
    if LengthAt(bytes, n, length) {
      assert rest[..n] == bytes[1..1 + n];
      Varint.SpellingIsFound(rest, 5, n, length);
    }
  }

  /** The decoder's view of a buffer: a close tag, a length of more than five bytes or of more than 4 MiB. */
  lemma {:induction false} FrontIsExact(bytes: seq<Byte>)
    ensures FrontOf(bytes).CloseSeen? <==> bytes != [] && bytes[0] == 4
    ensures FrontOf(bytes) == Broken(BadLength) <==>
              |bytes| >= 6 && bytes[0] != 4 && forall k :: 1 <= k < 6 ==> bytes[k] >= 128
    ensures FrontOf(bytes) == Broken(FrameTooLarge) <==>
              bytes != [] && bytes[0] != 4
              && exists n: nat, length: nat :: LengthAt(bytes, n, length) && length > 4_194_304
    ensures FrontOf(bytes).Broken? ==> FrontOf(bytes).error in {BadLength, FrameTooLarge}
  {
    hide LengthAt, Varint.Decode;
    if bytes != [] && bytes[0] != CLOSE {
      var r := Varint.Decode(bytes[1..], 5);
      ContinuesExactly(bytes);
      if r.Done? {
        LengthIsRead(bytes, r.size, r.value);
      }
      forall n: nat, length: nat | LengthAt(bytes, n, length) ensures r == Varint.Done(length, n) {
        LengthIsRead(bytes, n, length);
      }
    }
  }

  /** Or a whole frame: a tag, and behind its length the body of that length. */
  lemma {:induction false} FrameAtFrontIsExact(bytes: seq<Byte>, tag: Byte, body: seq<Byte>, size: nat)
    ensures FrontOf(bytes) == Complete(tag, body, size) <==>
              && bytes != [] && bytes[0] == tag != 4 && |body| <= 4_194_304
              && exists n: nat ::
                   LengthAt(bytes, n, |body|) && size == 1 + n + |body| <= |bytes| && body == bytes[1 + n..size]
  {
    hide LengthAt, Varint.Decode;
    if bytes != [] && bytes[0] != CLOSE {
      var r := Varint.Decode(bytes[1..], 5);
      if r.Done? {
        LengthIsRead(bytes, r.size, r.value);
      }
      forall n: nat | LengthAt(bytes, n, |body|) ensures r == Varint.Done(|body|, n) {
        LengthIsRead(bytes, n, |body|);
      }
    }
  }

  lemma {:induction false} ContinuesExactly(bytes: seq<Byte>)
    requires bytes != []
    ensures Varint.Decode(bytes[1..], 5).TooLong? <==>
              |bytes| >= 6 && forall k :: 1 <= k < 6 ==> bytes[k] >= 128
  {
    var rest := bytes[1..];
    Varint.DecodeIsExact(rest, 5);
    assert forall k :: 1 <= k < |bytes| ==> bytes[k] == rest[k - 1];
    match Varint.Decode(rest, 5)
    case Done(_, size) =>
      assert rest[..size][size - 1] == rest[size - 1] == bytes[size];
    case _ =>
  }

  /** What the tag says a frame is: 0 a heartbeat, 8 a data message or a malformed one, anything else
      is handed on as it is. */
  ghost predicate Says(tag: Byte, body: seq<Byte>, result: Result<Message, StreamError>) {
    && (result == Ok(Ping) <==> tag == 0)
    && (forall m :: result == Ok(Data(m)) <==> tag == 8 && DecodeData(body) == Ok(m))
    && (forall e :: result == Err(BadData(e)) <==> tag == 8 && DecodeData(body) == Err(e))
    && (result == Ok(Other(tag, body)) <==> tag != 0 && tag != 8)
  }

  lemma {:induction false} ClassifySays(tag: Byte, body: seq<Byte>)
    ensures Says(tag, body, Classify(tag, body))
  {
    hide DecodeData;
  }

  lemma {:induction false} MeaningAt(frames: seq<Printed>, lastId: int, n: nat)
    requires n < |frames|
    ensures |Meaning(frames, lastId)| == |frames|
    ensures Meaning(frames, lastId)[n] == Item(Classify(frames[n].tag, frames[n].body), lastId + n + 1)
  {
    hide Classify;
    MeaningLength(frames, lastId);
    MeaningLength(frames[1..], lastId + 1);
    if n > 0 {
      MeaningAt(frames[1..], lastId + 1, n - 1);
    }
  }

  /** The items are the frames in order, numbered from one, each what its tag says. */
  ghost predicate Delivers(items: seq<Item>, frames: seq<Printed>) {
    |items| >= |frames|
    && forall n :: 0 <= n < |frames| ==>
         items[n].streamId == n + 1 && Says(frames[n].tag, frames[n].body, items[n].result)
  }

  lemma {:induction false} MeaningDelivers(frames: seq<Printed>, more: seq<Item>)
    ensures Delivers(Meaning(frames, 0) + more, frames)
  {
    hide Classify, Says, Meaning;
    MeaningLength(frames, 0);
    forall n | 0 <= n < |frames|
      ensures (Meaning(frames, 0) + more)[n].streamId == n + 1
      ensures Says(frames[n].tag, frames[n].body, (Meaning(frames, 0) + more)[n].result)
    {
      MeaningAt(frames, 0, n);
      ClassifySays(frames[n].tag, frames[n].body);
    }
  }

  /** Any cutting of printed frames and whatever follows them delivers the frames, each as its tag says;
      then what follows is refused if it is malformed, ends the stream if it is a close tag, and is waited
      for if it is unfinished, until the socket fails. */
  lemma {:induction false} StreamIsExact(frames: seq<Printed>, tail: seq<Byte>, script: Script)
    requires forall f :: f in frames ==> Sendable(f)
    requires |frames| <= 0x7FFF_FFFF && Input(script) == Print(frames) + tail && !FrontOf(tail).Complete?
    ensures var items := Drain(FRESH, script);
            && Delivers(items, frames)
            && items[|frames|..]
               == match FrontOf(tail)
                  case Broken(error) => [Item(Err(error), |frames|)]
                  case CloseSeen =>
                    if tail == [4] && LoneCloseBeforeFailure(script) then [Item(Err(Socket), |frames|)] else []
                  case _ => if Fails(script) then [Item(Err(Socket), |frames|)] else []
  {
    hide Parse, Drain, Print, Meaning, Input, Fails, Delivers, LoneCloseBeforeFailure, FrontOf;
    ParseInvertsPrint(frames, tail, 0);
    TailParsed(tail, |frames|);
    MeaningLength(frames, 0);
    DecoderOutput(script);
    var p := Parse(Print(frames) + tail, 0);
    var last := Parse(tail, |frames|);
    CloseIsSeen();
    assert p.items == Meaning(frames, 0) + last.items;
    MeaningDelivers(frames, Drain(FRESH, script)[|frames|..]);
    assert Drain(FRESH, script)[..|frames|] == Meaning(frames, 0);
    assert Drain(FRESH, script) == Meaning(frames, 0) + Drain(FRESH, script)[|frames|..];
  }

  lemma {:induction false} TailParsed(tail: seq<Byte>, lastId: int)
    requires !FrontOf(tail).Complete?
    ensures Parse(tail, lastId)
         == match FrontOf(tail)
            case Broken(error) => Parsed([Item(Err(error), lastId)], true, tail)
            case CloseSeen => Parsed([], true, tail)
            case _ => Parsed([], false, tail)
  {
    hide FrontOf;
  }

  /** The frame that would get id 2^31 is refused and ends the stream, whatever it is. */
  lemma {:induction false} IdsNeverOverflow(frames: seq<Printed>, script: Script)
    requires (forall f :: f in frames ==> Sendable(f)) && |frames| > 0x7FFF_FFFF && Input(script) == Print(frames)
    ensures var items := Drain(FRESH, script);
            && Delivers(items, frames[..0x7FFF_FFFF])
            && items[0x7FFF_FFFF..] == [Item(Err(StreamIdOverflow), 0x7FFF_FFFF)]
  {
    hide Parse, Drain, Print, Meaning, Input, Fails, Delivers, LoneCloseBeforeFailure, Frame;
    var front, rest := frames[..MAX_STREAM_ID], frames[MAX_STREAM_ID..];
    assert frames == front + rest;
    PrintSplits(front, rest);
    ParseInvertsPrint(front, Print(rest), 0);
    OverflowParsed(rest);
    MeaningLength(front, 0);
    DecoderOutput(script);
    MeaningDelivers(front, [Item(Err(StreamIdOverflow), MAX_STREAM_ID)]);
    assert Meaning(front, 0) + [Item(Err(StreamIdOverflow), MAX_STREAM_ID)] == Drain(FRESH, script);
  }

  lemma {:induction false} PrintSplits(front: seq<Printed>, rest: seq<Printed>)
    ensures Print(front + rest) == Print(front) + Print(rest)
  {
    hide Frame;
    if front == [] {
      assert front + rest == rest;
    } else {
      assert (front + rest)[1..] == front[1..] + rest;
      PrintSplits(front[1..], rest);
    }
  }

  lemma {:induction false} OverflowParsed(frames: seq<Printed>)
    requires frames != [] && Sendable(frames[0])
    ensures Parse(Print(frames), MAX_STREAM_ID)
         == Parsed([Item(Err(StreamIdOverflow), MAX_STREAM_ID)], true, Print(frames))
    ensures |Print(frames)| > 1
  {
    hide FrontOf, Frame;
    PrintedFirst(frames, []);
    FrontReadsFrame(frames[0], Print(frames[1..]));
    FrameIsLong(frames[0]);
    assert Print(frames) == Frame(frames[0].tag, frames[0].body) + Print(frames[1..]);
  }

  lemma {:induction false} FrameIsLong(frame: Printed)
    ensures |Frame(frame.tag, frame.body)| > 1
  {
  }
}
