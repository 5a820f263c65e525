/** The data message on the wire, byte by byte, and what the listener takes from it. */
module DataFrames {
  import opened Types
  import opened McsMessages
  import opened Protobuf
  import opened ProtobufProofs
  import Varint
  import Utf8

  /** A length-delimited field. */
  function Delimited(tag: seq<Byte>, data: seq<Byte>): seq<Byte> {
    tag + Varint.Encode(|data|) + data
  }

  function Optionally(tag: seq<Byte>, text: Option<seq<Byte>>): seq<Byte> {
    if text.Some? then Delimited(tag, text.value) else []
  }

  function OrEmpty(text: Option<seq<Byte>>): seq<Byte> {
    if text.Some? then text.value else []
  }

  /** Key and value of a pair, in fields 1 and 2. */
  function PairBytes(d: AppDatum): seq<Byte> {
    Delimited([0x0A], d.key) + Delimited([0x12], d.value)
  }

  function PairsBytes(pairs: seq<AppDatum>): seq<Byte> {
    if pairs == [] then [] else Delimited([0x3A], PairBytes(pairs[0])) + PairsBytes(pairs[1..])
  }

  /** The message id in field 2, the sender in 3, the category in 5, the collapse key in 6, the pairs in 7,
      the persistent id in 9 and the payload in 21. */
  function DataBytes(d: DataMessage): seq<Byte> {
    Optionally([0x12], d.id) + (Delimited([0x1A], OrEmpty(d.sender)) + (Delimited([0x2A], OrEmpty(d.category))
      + (Optionally([0x32], d.collapseKey) + (PairsBytes(d.appData)
        + (Optionally([0x4A], d.persistentId) + Optionally([0xAA, 1], d.rawData))))))
  }

  // ----- the pairs -----

  lemma BytesValue(kind: Kind, data: seq<Byte>)
    requires ValueOk(kind, Bytes(data))
    ensures EncodeValue(kind, Bytes(data)) == Varint.Encode(|data|) + data
  {
  }

  lemma MessageValue(fields: Schema, m: Message)
    requires MessageOk(fields, m)
    ensures ValueOk(Nested(fields), Msg(m))
    ensures EncodeValue(Nested(fields), Msg(m)) == Varint.Encode(|Encode(fields, m)|) + Encode(fields, m)
  {
    SizeIsExact(fields, m);
  }

  lemma NestedMeans(fields: Schema, m: Message)
    ensures ValueOk(Nested(fields), Msg(m)) <==> MessageOk(fields, m)
  {
  }

  lemma NothingEncodes()
    ensures MessageOk([], []) && Encode([], []) == []
  {
  }

  lemma DelimitedMeans(tag: seq<Byte>, data: seq<Byte>)
    ensures Delimited(tag, data) == tag + (Varint.Encode(|data|) + data)
  {
  }

  lemma {:induction false} PairFields(d: AppDatum, m: Message)
    requires DatumOk(d) && m == [Slot([Bytes(d.key)]), Slot([Bytes(d.value)])]
    ensures MessageOk(APP_DATA, m) && Encode(APP_DATA, m) == PairBytes(d)
  {
    hide Encode, EncodeValue, MessageOk, SlotOk, ValueOk, Delimited;
    PairValueOk(d);
    NestedMeans(APP_DATA, m);
    NothingEncodes();
    DelimitedMeans([0x0A], d.key);
    DelimitedMeans([0x12], d.value);
    OneValueGoesFirst(APP_DATA, m, 0, Bytes(d.key), [0x0A]);
    OneValueGoesFirst(APP_DATA, m, 1, Bytes(d.value), [0x12]);
    BytesValue(Text, d.key);
    BytesValue(Text, d.value);
    assert APP_DATA[0..] == APP_DATA && m[0..] == m && APP_DATA[2..] == [] && m[2..] == [];
  }

  lemma {:induction false} PairIsBytes(d: AppDatum)
    requires DatumOk(d)
    ensures ValueOk(Nested(APP_DATA), PairValue(d))
    ensures EncodeValue(Nested(APP_DATA), PairValue(d)) == Varint.Encode(|PairBytes(d)|) + PairBytes(d)
  {
    hide Encode, EncodeValue, MessageOk, PairBytes;
    var m := PairValue(d).slots;
    PairFields(d, m);
    MessageValue(APP_DATA, m);
  }

  ghost predicate DatumOk(d: AppDatum) {
    Utf8.ValidUtf8(d.key) && Utf8.ValidUtf8(d.value)
  }

  lemma {:induction false} PairsAreBytes(pairs: seq<AppDatum>, values: seq<Value>)
    requires |values| == |pairs|
    requires forall k :: 0 <= k < |pairs| ==> DatumOk(pairs[k]) && values[k] == PairValue(pairs[k])
    ensures forall k :: 0 <= k < |values| ==> ValueOk(Nested(APP_DATA), values[k])
    ensures EncodeField(Field(7, Nested(APP_DATA), Repeated), values) == PairsBytes(pairs)
  {
    hide EncodeValue, PairBytes, PairValue, ValueOk, Delimited;
    forall k | 0 <= k < |values| ensures ValueOk(Nested(APP_DATA), values[k]) {
      PairIsBytes(pairs[k]);
    }
    if pairs != [] {
      PairsAreBytes(pairs[1..], values[1..]);
      PairComesFirst(pairs, values);
    }
  }

  lemma {:induction false} PairComesFirst(pairs: seq<AppDatum>, values: seq<Value>)
    requires |values| == |pairs| > 0 && DatumOk(pairs[0]) && values[0] == PairValue(pairs[0])
    requires forall k :: 0 <= k < |values| ==> ValueOk(Nested(APP_DATA), values[k])
    ensures EncodeField(Field(7, Nested(APP_DATA), Repeated), values)
         == Delimited([0x3A], PairBytes(pairs[0])) + EncodeField(Field(7, Nested(APP_DATA), Repeated), values[1..])
  {
    hide EncodeValue, PairBytes, PairValue, ValueOk;
    PairIsBytes(pairs[0]);
    assert Tag(Field(7, Nested(APP_DATA), Repeated)) == 58 && Varint.Encode(58) == [0x3A];
  }

  // ----- the message -----

  lemma {:induction false} OptionalIsBytes(m: Message, i: nat, text: Option<seq<Byte>>, tag: seq<Byte>)
    requires MessageOk(DATA_MESSAGE_STANZA, m) && i < |DATA_MESSAGE_STANZA| && m[i] == OptionalText(text)
    requires Varint.Encode(Tag(DATA_MESSAGE_STANZA[i])) == tag
    ensures MessageOk(DATA_MESSAGE_STANZA[i..], m[i..]) && MessageOk(DATA_MESSAGE_STANZA[i + 1..], m[i + 1..])
    ensures Encode(DATA_MESSAGE_STANZA[i..], m[i..])
         == Optionally(tag, text) + Encode(DATA_MESSAGE_STANZA[i + 1..], m[i + 1..])
  {
    hide Encode, EncodeValue, MessageOk;
    if text.Some? {
      OneValueGoesFirst(DATA_MESSAGE_STANZA, m, i, Bytes(text.value), tag);
      BytesValue(DATA_MESSAGE_STANZA[i].kind, text.value);
    } else {
      EmptySlotAddsNothing(DATA_MESSAGE_STANZA, m, i);
    }
  }

  lemma {:induction false} RequiredIsBytes(m: Message, i: nat, text: Option<seq<Byte>>, tag: seq<Byte>)
    requires MessageOk(DATA_MESSAGE_STANZA, m) && i < |DATA_MESSAGE_STANZA| && m[i] == RequiredText(text)
    requires Varint.Encode(Tag(DATA_MESSAGE_STANZA[i])) == tag
    ensures MessageOk(DATA_MESSAGE_STANZA[i..], m[i..]) && MessageOk(DATA_MESSAGE_STANZA[i + 1..], m[i + 1..])
    ensures Encode(DATA_MESSAGE_STANZA[i..], m[i..])
         == Delimited(tag, OrEmpty(text)) + Encode(DATA_MESSAGE_STANZA[i + 1..], m[i + 1..])
  {
    hide Encode, EncodeValue, MessageOk;
    OneValueGoesFirst(DATA_MESSAGE_STANZA, m, i, Bytes(OrEmpty(text)), tag);
    BytesValue(DATA_MESSAGE_STANZA[i].kind, OrEmpty(text));
  }

  /** No field from the i-th to the j-th. */
  lemma {:induction false} EmptySlots(m: Message, i: nat, j: nat)
    requires MessageOk(DATA_MESSAGE_STANZA, m) && i <= j <= |DATA_MESSAGE_STANZA|
    requires forall k :: i <= k < j ==> m[k].values == []
    ensures MessageOk(DATA_MESSAGE_STANZA[i..], m[i..]) && MessageOk(DATA_MESSAGE_STANZA[j..], m[j..])
    ensures Encode(DATA_MESSAGE_STANZA[i..], m[i..]) == Encode(DATA_MESSAGE_STANZA[j..], m[j..])
    decreases j - i
  {
    hide Encode, MessageOk;
    if i < j {
      EmptySlotAddsNothing(DATA_MESSAGE_STANZA, m, i);
      EmptySlots(m, i + 1, j);
    } else {
      EncodeFromIsWellFormed(DATA_MESSAGE_STANZA, m, i);
    }
  }

  lemma {:induction false} FirstFields(d: DataMessage)
    requires DataMessageOk(d)
    ensures var m := StanzaOf(d);
            MessageOk(DATA_MESSAGE_STANZA, m) && MessageOk(DATA_MESSAGE_STANZA[5..], m[5..])
            && Encode(DATA_MESSAGE_STANZA, m)
               == Optionally([0x12], d.id) + (Delimited([0x1A], OrEmpty(d.sender))
                    + (Delimited([0x2A], OrEmpty(d.category)) + (Optionally([0x32], d.collapseKey)
                         + Encode(DATA_MESSAGE_STANZA[5..], m[5..]))))
  {
    hide Encode, EncodeValue, MessageOk, DataMessageOk, Optionally, Delimited, OrEmpty;
    StanzaOk(d);
    var m := StanzaOf(d);
    OptionalIsBytes(m, 0, d.id, [0x12]);
    RequiredIsBytes(m, 1, d.sender, [0x1A]);
    EmptySlotAddsNothing(DATA_MESSAGE_STANZA, m, 2);
    RequiredIsBytes(m, 3, d.category, [0x2A]);
    OptionalIsBytes(m, 4, d.collapseKey, [0x32]);
    assert DATA_MESSAGE_STANZA[0..] == DATA_MESSAGE_STANZA && m[0..] == m;
  }

  lemma {:induction false} PairFieldsOfMessage(d: DataMessage)
    requires DataMessageOk(d)
    ensures var m := StanzaOf(d);
            MessageOk(DATA_MESSAGE_STANZA[5..], m[5..]) && MessageOk(DATA_MESSAGE_STANZA[6..], m[6..])
            && Encode(DATA_MESSAGE_STANZA[5..], m[5..])
               == PairsBytes(d.appData) + Encode(DATA_MESSAGE_STANZA[6..], m[6..])
  {
    StanzaOk(d);
    hide Encode, EncodeValue, MessageOk, PairsBytes, PairValue;
    PairsAreBytes(d.appData, StanzaOf(d)[5].values);
    EncodeSplits(DATA_MESSAGE_STANZA, StanzaOf(d), 5);
  }

  lemma {:induction false} LaterFields(d: DataMessage)
    requires DataMessageOk(d)
    ensures var m := StanzaOf(d);
            MessageOk(DATA_MESSAGE_STANZA[6..], m[6..]) && MessageOk(DATA_MESSAGE_STANZA[8..], m[8..])
            && Encode(DATA_MESSAGE_STANZA[6..], m[6..])
               == Optionally([0x4A], d.persistentId) + Encode(DATA_MESSAGE_STANZA[8..], m[8..])
  {
    hide Encode, EncodeValue, MessageOk, DataMessageOk, Optionally, Delimited;
    StanzaOk(d);
    var m := StanzaOf(d);
    EmptySlotAddsNothing(DATA_MESSAGE_STANZA, m, 6);
    OptionalIsBytes(m, 7, d.persistentId, [0x4A]);
  }

  lemma {:induction false} LastFields(d: DataMessage)
    requires DataMessageOk(d)
    ensures var m := StanzaOf(d);
            MessageOk(DATA_MESSAGE_STANZA[8..], m[8..])
            && Encode(DATA_MESSAGE_STANZA[8..], m[8..]) == Optionally([0xAA, 1], d.rawData)
  {
    hide Encode, EncodeValue, MessageOk, DataMessageOk, Optionally, Delimited;
    StanzaOk(d);
    var m := StanzaOf(d);
    EmptySlots(m, 8, 16);
    RawTag();
    OptionalIsBytes(m, 16, d.rawData, [0xAA, 1]);
    EmptySlotAddsNothing(DATA_MESSAGE_STANZA, m, 17);
    NothingLeft(m);
  }

  lemma RawTag()
    ensures Varint.Encode(Tag(DATA_MESSAGE_STANZA[16])) == [0xAA, 1]
  {
    assert Varint.Encode(170) == [0xAA] + Varint.Encode(1);
  }

  lemma {:induction false} NothingLeft(m: Message)
    requires |m| == |DATA_MESSAGE_STANZA|
    ensures MessageOk(DATA_MESSAGE_STANZA[18..], m[18..]) && Encode(DATA_MESSAGE_STANZA[18..], m[18..]) == []
  {
  }

  /** From these bytes the listener takes exactly this message. */
  lemma {:induction false} DataMessageOnTheWire(d: DataMessage)
    requires DataMessageOk(d) && |DataBytes(d)| < TWO32
    ensures DecodeData(DataBytes(d)) == Ok(d)
  {
    hide Encode, MessageOk, DecodeData, Optionally, Delimited, PairsBytes, StanzaOf, DataMessageOk;
    FirstFields(d);
    PairFieldsOfMessage(d);
    LaterFields(d);
    LastFields(d);
    assert Wire(d) == DataBytes(d);
    DataMessageRoundTrips(d);
  }

  /** A data message without any field is one without any content. */
  lemma EmptyDataMessage()
    ensures DecodeData([]) == Ok(DataMessage(None, None, [], None, None, None, None))
  {
    hide Read, Default;
    AbsentFieldsTakeDefaults(DATA_MESSAGE_STANZA, 0);
    forall i | 0 <= i < |DATA_MESSAGE_STANZA|
      ensures Decode(DATA_MESSAGE_STANZA, []).Ok?
      ensures Decode(DATA_MESSAGE_STANZA, []).value[i].values == if i == 1 || i == 3 then [Bytes([])] else []
    {
      AbsentFieldsTakeDefaults(DATA_MESSAGE_STANZA, i);
      var values := Decode(DATA_MESSAGE_STANZA, []).value[i].values;
      assert i == 1 || i == 3 ==> values == [values[0]];
    }
    var m := Decode(DATA_MESSAGE_STANZA, []).value;
    assert m[0].values == [] && m[4].values == [] && m[5].values == [] && m[7].values == [] && m[16].values == [];
    assert ViewData(m).appData == [];
  }
}
