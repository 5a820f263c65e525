/** The decoder as the source runs it: fields updated in nested loops over an asynchronous reader. */
module McsDecoder {
  import opened Types
  import opened McsStream
  import Varint

  datatype LengthRead = NeedMore | Bad(error: StreamError) | Length(length: nat, offset: nat)

  /** The frame length and the offset of the body, given the bytes after the tag. */
  function LengthSpec(bytes: seq<Byte>): LengthRead {
    match Varint.Decode(bytes, MAX_LENGTH_BYTES)
    case Unfinished => NeedMore
    case TooLong => Bad(BadLength)
    case Done(length, n) => if length > MAX_FRAME_BYTES then Bad(FrameTooLarge) else Length(length, n + 1)
  }

  /** `value << 7 * index` */
  function Shifted(value: nat, index: nat): nat {
    if index == 0 then value else 128 * Shifted(value, index - 1)
  }

  lemma {:induction false} GroupsAddUp(index: nat, group: nat, high: nat)
    ensures Shifted(group + 128 * high, index) == Shifted(group, index) + Shifted(high, index + 1)
  {
    if index > 0 {
      GroupsAddUp(index - 1, group, high);
    }
  }

  /** The varint of `bytes`, once `index` continuation bytes worth `result` have been taken off. */
  ghost predicate Taken(bytes: seq<Byte>, index: nat, result: nat) {
    && index <= |bytes| && index <= MAX_LENGTH_BYTES
    && var whole := Varint.Decode(bytes, MAX_LENGTH_BYTES);
       var rest := Varint.Decode(bytes[index..], MAX_LENGTH_BYTES - index);
       && (rest.Done? ==> whole == Varint.Done(result + Shifted(rest.value, index), index + rest.size))
       && (!rest.Done? ==> whole == rest)
  }

  lemma {:induction false} TakenAdvances(bytes: seq<Byte>, index: nat, result: nat)
    requires index < |bytes| && index < MAX_LENGTH_BYTES && Taken(bytes, index, result) && bytes[index] >= 128
    ensures Taken(bytes, index + 1, result + Shifted(bytes[index] % 128, index))
  {
    assert bytes[index..][1..] == bytes[index + 1..];
    var tail := Varint.Decode(bytes[index + 1..], MAX_LENGTH_BYTES - index - 1);
    if tail.Done? {
      GroupsAddUp(index, bytes[index] % 128, tail.value);
    }
  }

  lemma TakenEnds(bytes: seq<Byte>, index: nat, result: nat)
    requires index < |bytes| && index < MAX_LENGTH_BYTES && Taken(bytes, index, result) && bytes[index] < 128
    ensures Varint.Decode(bytes, MAX_LENGTH_BYTES)
         == Varint.Done(result + Shifted(bytes[index], index), index + 1)
  {
    assert Varint.Decode(bytes[index..], MAX_LENGTH_BYTES - index) == Varint.Done(bytes[index], 1);
  }

  lemma TakenAll(bytes: seq<Byte>, index: nat, result: nat)
    requires Taken(bytes, index, result) && (index == |bytes| || index == MAX_LENGTH_BYTES)
    ensures Varint.Decode(bytes, MAX_LENGTH_BYTES)
         == if index == MAX_LENGTH_BYTES then Varint.TooLong else Varint.Unfinished
  {
    assert index == |bytes| ==> bytes[index..] == [];
  }

  method TryReadVarint(bytes: seq<Byte>) returns (r: LengthRead)
    ensures r == LengthSpec(bytes)
  {
    var result: nat := 0;
    assert bytes[0..] == bytes;
    for index := 0 to MAX_LENGTH_BYTES
      invariant Taken(bytes, index, result)
    {
      if index >= |bytes| {
        TakenAll(bytes, index, result);
        return NeedMore;
      }
      var byte := bytes[index];
      var shifted := Shifted(byte % 128, index);
      if byte < 128 {
        TakenEnds(bytes, index, result);
        result := result + shifted;
        if result > MAX_FRAME_BYTES {
          return Bad(FrameTooLarge);
        }
        return Length(result, index + 2);
      }
      TakenAdvances(bytes, index, result);
      result := result + shifted;
    }
    TakenAll(bytes, MAX_LENGTH_BYTES, result);
    r := Bad(BadLength);
  }

  /** The socket: each read consumes the next outcome, and an exhausted script never becomes ready. */
  class Source {
    var script: Script

    constructor (script: Script)
      ensures this.script == script
    {
      this.script := script;
    }

    method ReadBuf() returns (outcome: ReadOutcome)
      modifies this
      ensures old(script) == [] ==> outcome == NotReady && script == []
      ensures old(script) != [] ==> outcome == old(script)[0] && script == old(script)[1..]
    {
      if script == [] {
        outcome := NotReady;
      } else {
        outcome := script[0];
        script := script[1..];
      }
    }
  }

  datatype Ready = WouldBlock | Finished | Got(result: Result<Message, StreamError>)

  function ReadyOf(p: Poll): Ready {
    match p
    case Pending(_, _) => WouldBlock
    case Yield(result, _, _) => Got(result)
    case End(_, _) => Finished
  }

  class MessageStream {
    const inner: Source
    var bytesRequired: nat
    var receiveBuffer: seq<Byte>
    var lastStreamId: int

    constructor (inner: Source)
      ensures this.inner == inner && State() == FRESH
    {
      this.inner := inner;
      bytesRequired := 2;
      receiveBuffer := [];
      lastStreamId := 0;
    }

    function State(): Decoder
      reads this
    {
      Decoder(receiveBuffer, bytesRequired, lastStreamId)
    }

    method Fail()
      modifies this
      ensures State() == Dead(old(lastStreamId))
    {
      bytesRequired := 0;
      receiveBuffer := [];
    }

    /** The inner loop: read until enough bytes are there. */
    method FillBuffer() returns (filled: Ready, enough: bool)
      modifies this, inner
      ensures lastStreamId == old(lastStreamId)
      ensures match Fill(old(receiveBuffer), old(bytesRequired), old(inner.script))
              case Enough(buffer, rest) =>
                enough && State() == Decoder(buffer, old(bytesRequired), lastStreamId) && inner.script == rest
              case Blocked(buffer, rest) =>
                !enough && filled == WouldBlock && inner.script == rest
                && State() == Decoder(buffer, old(bytesRequired), lastStreamId)
              case AtEof(rest) =>
                !enough && filled == Finished && State() == Dead(lastStreamId) && inner.script == rest
              case Failed(rest) =>
                !enough && filled == Got(Err(Socket)) && State() == Dead(lastStreamId) && inner.script == rest
    {
      filled := WouldBlock;
      enough := false;
      while true
        invariant lastStreamId == old(lastStreamId) && bytesRequired == old(bytesRequired)
        invariant Fill(receiveBuffer, bytesRequired, inner.script)
               == Fill(old(receiveBuffer), old(bytesRequired), old(inner.script))
        invariant filled == WouldBlock && !enough
        decreases |inner.script|
      {
        var outcome := inner.ReadBuf();
        match outcome {
          case NotReady =>
            return;
          case Failure =>
            Fail();
            return Got(Err(Socket)), false;
          case Eof =>
            Fail();
            return Finished, false;
          case Chunk(bytes) =>
            if bytes == [] {
              Fail();
              return Finished, false;
            }
            receiveBuffer := receiveBuffer + bytes;
            if |receiveBuffer| >= bytesRequired {
              return WouldBlock, true;
            }
        }
      }
    }

    /** The first half of a turn: take what the buffered bytes already decide. */
    method TakeFront() returns (ready: Ready, decided: bool)
      modifies this
      ensures var d := old(State());
              if d.buffer == [] && d.required == 0 then decided && ready == Finished && State() == d
              else
                match FrontOf(d.buffer)
                case CloseSeen => decided && ready == Finished && State() == Dead(d.lastId)
                case Broken(error) => decided && ready == Got(Err(error)) && State() == Dead(d.lastId)
                case Complete(tag, body, size) =>
                  decided
                  && (d.lastId >= MAX_STREAM_ID ==>
                        ready == Got(Err(StreamIdOverflow)) && State() == Dead(d.lastId))
                  && (d.lastId < MAX_STREAM_ID ==>
                        ready == Got(Classify(tag, body)) && State() == Decoder(d.buffer[size..], 2, d.lastId + 1))
                case Incomplete(_) =>
                  !decided && State() == Decoder(d.buffer, Required(d), d.lastId)
    {
      ready := Finished;
      decided := true;
      if receiveBuffer == [] {
        decided := bytesRequired == 0;
        return;
      }
      var tag := receiveBuffer[0];
      if tag == CLOSE {
        Fail();
        return;
      }
      var length := TryReadVarint(receiveBuffer[1..]);
      match length {
        case Length(size, offset) =>
          var required := offset + size;
          if required <= |receiveBuffer| {
            bytesRequired := 2;
            var body := receiveBuffer[offset..required];
            receiveBuffer := receiveBuffer[required..];
            if lastStreamId >= MAX_STREAM_ID {
              Fail();
              return Got(Err(StreamIdOverflow)), true;
            }
            lastStreamId := lastStreamId + 1;
            return Got(Classify(tag, body)), true;
          }
          bytesRequired := required;
          return WouldBlock, false;
        case NeedMore =>
          bytesRequired := |receiveBuffer| + 1;
          return WouldBlock, false;
        case Bad(error) =>
          Fail();
          return Got(Err(error)), true;
      }
    }

    /** Every poll leaves the outcome, the fields and the unread input that the specification gives. */
    method PollNext() returns (ready: Ready)
      modifies this, inner
      ensures var p := McsStream.PollNext(old(State()), old(inner.script));
              ready == ReadyOf(p) && State() == p.decoder && inner.script == p.script
    {
      while true
        invariant McsStream.PollNext(State(), inner.script)
               == McsStream.PollNext(old(State()), old(inner.script))
        decreases |inner.script|
      {
        var decided;
        ready, decided := TakeFront();
        if decided {
          return;
        }
        var enough;
        ready, enough := FillBuffer();
        if !enough {
          return;
        }
      }
    }
  }
}
