/** The incremental MCS frame decoder, and the one-shot parser it implements. */
module McsStream {
  import opened Types
  import opened McsMessages
  import Protobuf
  import Varint

  const MAX_FRAME_BYTES: nat := 4 * 1024 * 1024
  const MAX_STREAM_ID: int := 0x7FFF_FFFF
  const MAX_LENGTH_BYTES: nat := 5

  const HEARTBEAT_PING: Byte := 0
  const HEARTBEAT_ACK_TAG: Byte := 1
  const CLOSE: Byte := 4
  const IQ_STANZA_TAG: Byte := 7
  const DATA_MESSAGE_STANZA_TAG: Byte := 8

  datatype Message = Ping | Data(message: DataMessage) | Other(tag: Byte, body: seq<Byte>)

  datatype StreamError = BadLength | FrameTooLarge | StreamIdOverflow | BadData(error: Protobuf.Failure) | Socket

  // What one poll yields, with the stream id counter as it then stands.
  datatype Item = Item(result: Result<Message, StreamError>, streamId: int)

  // ----- the front of a buffer -----

  datatype Front =
    | Incomplete(required: nat)
    | CloseSeen
    | Broken(error: StreamError)
    | Complete(tag: Byte, body: seq<Byte>, size: nat)

  function FrontOf(buffer: seq<Byte>): (f: Front)
    ensures f.Complete? ==> 0 < f.size <= |buffer|
    ensures f.Incomplete? ==> |buffer| < f.required
  {
    if buffer == [] then Incomplete(2)
    else if buffer[0] == CLOSE then CloseSeen
    else
      match Varint.Decode(buffer[1..], MAX_LENGTH_BYTES)
      case Unfinished => Incomplete(|buffer| + 1)
      case TooLong => Broken(BadLength)
      case Done(length, n) =>
        if length > MAX_FRAME_BYTES then Broken(FrameTooLarge)
        else if 1 + n + length <= |buffer| then Complete(buffer[0], buffer[1 + n..1 + n + length], 1 + n + length)
        else Incomplete(1 + n + length)
  }

  function Classify(tag: Byte, body: seq<Byte>): Result<Message, StreamError> {
    if tag == DATA_MESSAGE_STANZA_TAG then
      match DecodeData(body)
      case Ok(message) => Ok(Data(message))
      case Err(error) => Err(BadData(error))
    else if tag == HEARTBEAT_PING then Ok(Ping)
    else Ok(Other(tag, body))
  }

  // ----- the specification: all items of a byte string at once -----

  // `rest` is what no item was made of; `ended` says that nothing after it will be looked at.
  datatype Parsed = Parsed(items: seq<Item>, ended: bool, rest: seq<Byte>)

  function Parse(bytes: seq<Byte>, lastId: int): (p: Parsed)
    decreases |bytes|
  {
    match FrontOf(bytes)
    case Incomplete(_) => Parsed([], false, bytes)
    case CloseSeen => Parsed([], true, bytes)
    case Broken(error) => Parsed([Item(Err(error), lastId)], true, bytes)
    case Complete(tag, body, size) =>
      if lastId >= MAX_STREAM_ID then Parsed([Item(Err(StreamIdOverflow), lastId)], true, bytes)
      else
        var p := Parse(bytes[size..], lastId + 1);
        p.(items := [Item(Classify(tag, body), lastId + 1)] + p.items)
  }

  // ----- the incremental decoder -----

  // What one read of the socket can give.
  datatype ReadOutcome = NotReady | Chunk(bytes: seq<Byte>) | Eof | Failure

  type Script = seq<ReadOutcome>

  datatype Decoder = Decoder(buffer: seq<Byte>, required: nat, lastId: int)

  const FRESH := Decoder([], 2, 0)

  datatype Filled =
    | Enough(buffer: seq<Byte>, script: Script)
    | Blocked(buffer: seq<Byte>, script: Script)
    | AtEof(script: Script)
    | Failed(script: Script)

  /** Reads until the buffer holds `required` bytes, and at least once. */
  function Fill(buffer: seq<Byte>, required: nat, script: Script): (f: Filled)
    ensures f.Enough? ==> |f.buffer| >= required
    ensures f.Blocked? && script != [] ==> |f.script| < |script|
    ensures !f.Blocked? ==> |f.script| < |script|
    decreases |script|
  {
    if script == [] then Blocked(buffer, script)
    else
      var rest := script[1..];
      match script[0]
      case NotReady => Blocked(buffer, rest)
      case Failure => Failed(rest)
      case Eof => AtEof(rest)
      case Chunk(bytes) =>
        if bytes == [] then AtEof(rest)
        else if |buffer + bytes| >= required then Enough(buffer + bytes, rest)
        else Fill(buffer + bytes, required, rest)
  }

  datatype Poll =
    | Pending(decoder: Decoder, script: Script)
    | Yield(result: Result<Message, StreamError>, decoder: Decoder, script: Script)
    | End(decoder: Decoder, script: Script)

  function Dead(lastId: int): Decoder {
    Decoder([], 0, lastId)
  }

  function Required(d: Decoder): nat {
    if d.buffer == [] || !FrontOf(d.buffer).Incomplete? then d.required else FrontOf(d.buffer).required
  }

  function PollNext(d: Decoder, script: Script): (p: Poll)
    ensures |p.script| <= |script|
    ensures p.Pending? && script != [] ==> |p.script| < |script|
    ensures p.Yield? ==> |p.script| < |script| || |p.decoder.buffer| < |d.buffer|
    decreases |script|
  {
    if d.buffer == [] && d.required == 0 then End(d, script)
    else
      match FrontOf(d.buffer)
      case CloseSeen => End(Dead(d.lastId), script)
      case Broken(error) => Yield(Err(error), Dead(d.lastId), script)
      case Complete(tag, body, size) =>
        if d.lastId >= MAX_STREAM_ID then Yield(Err(StreamIdOverflow), Dead(d.lastId), script)
        else Yield(Classify(tag, body), Decoder(d.buffer[size..], 2, d.lastId + 1), script)
      case Incomplete(_) =>
        match Fill(d.buffer, Required(d), script)
        case Enough(buffer, rest) => PollNext(Decoder(buffer, Required(d), d.lastId), rest)
        case Blocked(buffer, rest) => Pending(Decoder(buffer, Required(d), d.lastId), rest)
        case AtEof(rest) => End(Dead(d.lastId), rest)
        case Failed(rest) => Yield(Err(Socket), Dead(d.lastId), rest)
  }

  // ----- printing -----

  function Frame(tag: Byte, body: seq<Byte>): seq<Byte> {
    [tag] + Varint.Encode(|body|) + body
  }
}
