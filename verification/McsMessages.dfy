/** The MCS messages: their schemas, the stanzas the listener builds, and what it takes from the ones it gets. */
module McsMessages {
  import opened Types
  import opened Utf8
  import opened Protobuf
  import opened ProtobufProofs

  // ----- schemas, in declaration order -----

  const HEARTBEAT_ACK: Schema :=
    [Field(1, Int32, Optional), Field(2, Int32, Optional), Field(3, Int64, Optional)]

  const EXTENSION: Schema := [Field(1, Int32, Required), Field(2, Blob, Required)]

  const ERROR_INFO: Schema :=
    [Field(1, Int32, Required), Field(2, Text, Optional), Field(3, Text, Optional),
     Field(4, Nested(EXTENSION), Optional)]

  const SETTING: Schema := [Field(1, Text, Required), Field(2, Text, Required)]

  const HEARTBEAT_STAT: Schema :=
    [Field(1, Text, Required), Field(2, Bool, Required), Field(3, Int32, Required)]

  const HEARTBEAT_CONFIG: Schema :=
    [Field(1, Bool, Optional), Field(2, Text, Optional), Field(3, Int32, Optional)]

  const CLIENT_EVENT: Schema :=
    [Field(1, Enum({0, 1, 2, 3}, 0), Optional), Field(100, UInt32, Optional), Field(200, Int32, Optional),
     Field(202, UInt64, Optional), Field(203, UInt64, Optional), Field(204, Int32, Optional),
     Field(300, UInt64, Optional)]

  const LOGIN_REQUEST: Schema :=
    [Field(1, Text, Required), Field(2, Text, Required), Field(3, Text, Required), Field(4, Text, Required),
     Field(5, Text, Required), Field(6, Text, Optional), Field(7, Int64, Optional),
     Field(8, Nested(SETTING), Repeated), Field(10, Text, Repeated), Field(12, Bool, Optional),
     Field(13, Nested(HEARTBEAT_STAT), Optional), Field(14, Bool, Optional), Field(15, Int64, Optional),
     Field(16, Enum({2}, 2), Optional), Field(17, Int32, Optional), Field(18, Int64, Optional),
     Field(22, Nested(CLIENT_EVENT), Repeated)]

  const LOGIN_RESPONSE: Schema :=
    [Field(1, Text, Required), Field(2, Text, Optional), Field(3, Nested(ERROR_INFO), Optional),
     Field(4, Nested(SETTING), Repeated), Field(5, Int32, Optional), Field(6, Int32, Optional),
     Field(7, Nested(HEARTBEAT_CONFIG), Optional), Field(8, Int64, Optional)]

  const IQ_STANZA: Schema :=
    [Field(1, Int64, Optional), Field(2, Enum({0, 1, 2, 3}, 0), Required), Field(3, Text, Required),
     Field(4, Text, Optional), Field(5, Text, Optional), Field(6, Nested(ERROR_INFO), Optional),
     Field(7, Nested(EXTENSION), Optional), Field(8, Text, Optional), Field(9, Int32, Optional),
     Field(10, Int32, Optional), Field(11, Int64, Optional), Field(12, Int64, Optional)]

  const APP_DATA: Schema := [Field(1, Text, Required), Field(2, Text, Required)]

  const DATA_MESSAGE_STANZA: Schema :=
    [Field(2, Text, Optional), Field(3, Text, Required), Field(4, Text, Optional), Field(5, Text, Required),
     Field(6, Text, Optional), Field(7, Nested(APP_DATA), Repeated), Field(8, Bool, Optional),
     Field(9, Text, Optional), Field(10, Int32, Optional), Field(11, Int32, Optional),
     Field(13, Text, Optional), Field(16, Int64, Optional), Field(17, Int32, Optional),
     Field(18, Int64, Optional), Field(19, Int32, Optional), Field(20, Int64, Optional),
     Field(21, Blob, Optional), Field(24, Bool, Optional)]

  lemma AckSchemasOk()
    ensures SchemaOk(HEARTBEAT_ACK) && SchemaOk(EXTENSION)
  {
  }

  lemma PairSchemasOk()
    ensures SchemaOk(SETTING) && SchemaOk(APP_DATA)
  {
  }

  lemma HeartbeatSchemasOk()
    ensures SchemaOk(HEARTBEAT_STAT) && SchemaOk(HEARTBEAT_CONFIG)
  {
  }

  lemma SmallSchemasOk()
    ensures SchemaOk(HEARTBEAT_ACK) && SchemaOk(EXTENSION) && SchemaOk(SETTING) && SchemaOk(APP_DATA)
    ensures SchemaOk(HEARTBEAT_STAT) && SchemaOk(HEARTBEAT_CONFIG)
  {
    hide SchemaOk;
    AckSchemasOk();
    PairSchemasOk();
    HeartbeatSchemasOk();
  }

  lemma ClientEventOk()
    ensures SchemaOk(CLIENT_EVENT)
  {
  }

  lemma ErrorInfoOk()
    ensures SchemaOk(ERROR_INFO)
  {
    SmallSchemasOk();
  }

  lemma IqStanzaOk()
    ensures SchemaOk(IQ_STANZA)
  {
    SmallSchemasOk();
    ErrorInfoOk();
  }

  lemma LoginRequestOk()
    ensures SchemaOk(LOGIN_REQUEST)
  {
    SmallSchemasOk();
    ClientEventOk();
  }

  lemma LoginResponseOk()
    ensures SchemaOk(LOGIN_RESPONSE)
  {
    SmallSchemasOk();
    ErrorInfoOk();
  }

  lemma DataMessageStanzaOk()
    ensures SchemaOk(DATA_MESSAGE_STANZA)
  {
    PairSchemasOk();
    assert FieldOk(DATA_MESSAGE_STANZA[5]);
  }

  function Tags(schema: Schema): (tags: seq<nat>)
    ensures |tags| == |schema| && forall i :: 0 <= i < |schema| ==> tags[i] == Tag(schema[i])
  {
    seq(|schema|, i requires 0 <= i < |schema| => Tag(schema[i]))
  }

  /** The tags that the messages are read and written with. */
  lemma TagsAreExact()
    ensures Tags(HEARTBEAT_ACK) == [8, 16, 24] && Tags(EXTENSION) == [8, 18] && Tags(APP_DATA) == [10, 18]
    ensures Tags(ERROR_INFO) == [8, 18, 26, 34] && Tags(SETTING) == [10, 18] && Tags(HEARTBEAT_STAT) == [10, 16, 24]
    ensures Tags(HEARTBEAT_CONFIG) == [8, 18, 24]
    ensures Tags(CLIENT_EVENT) == [8, 800, 1600, 1616, 1624, 1632, 2400]
  {
  }

  lemma LoginTagsAreExact()
    ensures Tags(LOGIN_REQUEST)
         == [10, 18, 26, 34, 42, 50, 56, 66, 82, 96, 106, 112, 120, 128, 136, 144, 178]
    ensures Tags(LOGIN_RESPONSE) == [10, 18, 26, 34, 40, 48, 58, 64]
  {
  }

  lemma StanzaTagsAreExact()
    ensures Tags(IQ_STANZA) == [8, 16, 26, 34, 42, 50, 58, 66, 72, 80, 88, 96]
    ensures Tags(DATA_MESSAGE_STANZA)
         == [18, 26, 34, 42, 50, 58, 64, 74, 80, 88, 106, 128, 136, 144, 152, 160, 170, 192]
  {
  }

  // ----- what the listener takes from a data message -----

  datatype AppDatum = AppDatum(key: seq<Byte>, value: seq<Byte>)

  datatype DataMessage = DataMessage(
    rawData: Option<seq<Byte>>, persistentId: Option<seq<Byte>>, appData: seq<AppDatum>,
    sender: Option<seq<Byte>>, category: Option<seq<Byte>>, id: Option<seq<Byte>>,
    collapseKey: Option<seq<Byte>>)

  function TextOf(slot: Slot): (text: Option<seq<Byte>>) {
    if slot.values != [] && slot.values[0].Bytes? then Some(slot.values[0].bytes) else None
  }

  function NonEmptyTextOf(slot: Slot): Option<seq<Byte>> {
    if TextOf(slot) == Some([]) then None else TextOf(slot)
  }

  function PairOf(v: Value): AppDatum {
    if v.Msg? && |v.slots| == 2 && TextOf(v.slots[0]).Some? && TextOf(v.slots[1]).Some?
    then AppDatum(TextOf(v.slots[0]).value, TextOf(v.slots[1]).value) else AppDatum([], [])
  }

  function ViewData(m: Message): DataMessage
    requires |m| == |DATA_MESSAGE_STANZA|
  {
    DataMessage(
      TextOf(m[16]), TextOf(m[7]), seq(|m[5].values|, i requires 0 <= i < |m[5].values| => PairOf(m[5].values[i])),
      NonEmptyTextOf(m[1]), NonEmptyTextOf(m[3]), TextOf(m[0]), TextOf(m[4]))
  }

  function DecodeData(body: seq<Byte>): Result<DataMessage, Failure> {
    match Decode(DATA_MESSAGE_STANZA, body)
    case Ok(m) => Ok(ViewData(m))
    case Err(error) => Err(error)
  }

  // ----- the same message as a sender writes it -----

  function OptionalText(text: Option<seq<Byte>>): Slot {
    if text.Some? then Slot([Bytes(text.value)]) else Slot([])
  }

  function RequiredText(text: Option<seq<Byte>>): Slot {
    Slot([Bytes(if text.Some? then text.value else [])])
  }

  function PairValue(d: AppDatum): Value {
    Msg([Slot([Bytes(d.key)]), Slot([Bytes(d.value)])])
  }

  function StanzaOf(d: DataMessage): Message {
    [OptionalText(d.id), RequiredText(d.sender), Slot([]), RequiredText(d.category), OptionalText(d.collapseKey),
     Slot(seq(|d.appData|, i requires 0 <= i < |d.appData| => PairValue(d.appData[i]))), Slot([]),
     OptionalText(d.persistentId), Slot([]), Slot([]), Slot([]), Slot([]), Slot([]), Slot([]), Slot([]), Slot([]),
     OptionalText(d.rawData), Slot([])]
  }

  ghost predicate TextOk(text: Option<seq<Byte>>) {
    text.Some? ==> ValidUtf8(text.value)
  }

  ghost predicate DataMessageOk(d: DataMessage) {
    && TextOk(d.id) && TextOk(d.collapseKey) && TextOk(d.persistentId)
    && TextOk(d.sender) && TextOk(d.category) && d.sender != Some([]) && d.category != Some([])
    && (forall i :: 0 <= i < |d.appData| ==> ValidUtf8(d.appData[i].key) && ValidUtf8(d.appData[i].value))
  }

  lemma PairValueOk(d: AppDatum)
    requires ValidUtf8(d.key) && ValidUtf8(d.value)
    ensures ValueOk(Nested(APP_DATA), PairValue(d)) && PairOf(PairValue(d)) == d
  {
    var slots := PairValue(d).slots;
    assert SlotOk(APP_DATA[0], slots[0]) && SlotOk(APP_DATA[1], slots[1]);
    assert MessageOk(APP_DATA, slots);
  }

  lemma EmptyIsUtf8()
    ensures ValidUtf8([])
  {
  }

  lemma StanzaOk(d: DataMessage)
    requires DataMessageOk(d)
    ensures MessageOk(DATA_MESSAGE_STANZA, StanzaOf(d))
  {
    hide ValidUtf8, PairValue, PairOf;
    EmptyIsUtf8();
    var m := StanzaOf(d);
    forall j | 0 <= j < |m[5].values| ensures ValueOk(Nested(APP_DATA), m[5].values[j]) {
      PairValueOk(d.appData[j]);
    }
    forall i | 0 <= i < |DATA_MESSAGE_STANZA| ensures SlotOk(DATA_MESSAGE_STANZA[i], m[i]) {
      assert i == 5 || |m[i].values| <= 1;
    }
  }

  lemma ViewInvertsStanza(d: DataMessage)
    requires DataMessageOk(d)
    ensures ViewData(StanzaOf(d)) == d
  {
    hide ValidUtf8, PairValue, PairOf;
    var m := StanzaOf(d);
    forall j | 0 <= j < |d.appData| ensures PairOf(m[5].values[j]) == d.appData[j] {
      PairValueOk(d.appData[j]);
    }
    assert ViewData(m).appData == d.appData;
  }

  /** The bytes of a data message. */
  ghost function Wire(d: DataMessage): seq<Byte>
    requires DataMessageOk(d)
  {
    StanzaOk(d);
    Encode(DATA_MESSAGE_STANZA, StanzaOf(d))
  }

  /** A data message that is sent arrives as it was. */
  lemma DataMessageRoundTrips(d: DataMessage)
    requires DataMessageOk(d) && |Wire(d)| < TWO32
    ensures DecodeData(Wire(d)) == Ok(d)
  {
    StanzaOk(d);
    DataMessageStanzaOk();
    DecodeInvertsEncode(DATA_MESSAGE_STANZA, StanzaOf(d));
    ViewInvertsStanza(d);
  }

  // ----- acknowledgements -----

  const STREAM_ACK_EXTENSION := 13

  function StreamAck(lastStreamId: int): Message {
    [Slot([]), Slot([Num(1)]), Slot([Bytes([])]), Slot([]), Slot([]), Slot([]),
     Slot([Msg([Slot([Num(STREAM_ACK_EXTENSION)]), Slot([Bytes([])])])]), Slot([]), Slot([]),
     Slot([Num(lastStreamId)]), Slot([]), Slot([])]
  }

  function HeartbeatAck(lastStreamId: int): Message {
    [Slot([]), Slot([Num(lastStreamId)]), Slot([])]
  }

  predicate IsInt32(n: int) {
    -0x8000_0000 <= n < 0x8000_0000
  }

  lemma AcksAreMessages(lastStreamId: int)
    requires IsInt32(lastStreamId)
    ensures MessageOk(IQ_STANZA, StreamAck(lastStreamId))
    ensures MessageOk(HEARTBEAT_ACK, HeartbeatAck(lastStreamId))
  {
    var extension := [Slot([Num(STREAM_ACK_EXTENSION)]), Slot([Bytes([])])];
    assert SlotOk(EXTENSION[0], extension[0]) && SlotOk(EXTENSION[1], extension[1]);
    assert ValueOk(Nested(EXTENSION), Msg(extension));
    var m := StreamAck(lastStreamId);
    forall i | 0 <= i < |IQ_STANZA| ensures SlotOk(IQ_STANZA[i], m[i]) {
      assert |m[i].values| <= 1;
    }
    var h := HeartbeatAck(lastStreamId);
    forall i | 0 <= i < |HEARTBEAT_ACK| ensures SlotOk(HEARTBEAT_ACK[i], h[i]) {
      assert |h[i].values| <= 1;
    }
  }
}
