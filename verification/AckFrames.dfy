/** The two frames the listener answers with. */
module AckFrames {
  import opened Types
  import opened McsCodec
  import opened McsMessages
  import opened Protobuf
  import opened ProtobufProofs
  import McsStream
  import McsStreamProofs
  import Varint

  /** A bound on every field bounds the message. */
  lemma {:induction false} SizeBound(schema: Schema, m: Message, i: nat, bound: nat)
    requires MessageOk(schema, m) && i <= |schema|
    requires MessageOk(schema[i..], m[i..])
    requires forall k :: 0 <= k < |schema| ==>
               SlotOk(schema[k], m[k]) && |EncodeField(schema[k], m[k].values)| <= bound
    ensures |Encode(schema[i..], m[i..])| <= bound * (|schema| - i)
    decreases |schema| - i
  {
    if i < |schema| {
      EncodeSplits(schema, m, i);
      hide *;
      SizeBound(schema, m, i + 1, bound);
      OneMore(bound, |schema| - i);
    }
  }

  lemma OneMore(bound: nat, n: nat)
    requires n > 0
    ensures bound * n == bound + bound * (n - 1)
  {
  }

  lemma ShortField(f: Field, values: seq<Value>, bound: nat)
    requires FieldOk(f) && |values| <= 1
    requires forall j :: 0 <= j < |values| ==> ValueOk(f.kind, values[j])
    requires values != [] ==> |EncodeValue(f.kind, values[0])| <= bound
    ensures |EncodeField(f, values)| <= bound + 10
  {
    VarintFits(Tag(f));
    if values != [] {
      assert EncodeField(f, values[1..]) == [];
    }
  }

  lemma ShortNumber(kind: Kind, n: int)
    requires ValueOk(kind, Num(n)) && KindOk(kind)
    ensures |EncodeValue(kind, Num(n))| <= 10
  {
    VarintFits(AsU64(n));
  }

  lemma ExtensionIsShort()
    ensures ValueOk(Nested(EXTENSION), Msg([Slot([Num(STREAM_ACK_EXTENSION)]), Slot([Bytes([])])]))
    ensures |EncodeValue(Nested(EXTENSION), Msg([Slot([Num(STREAM_ACK_EXTENSION)]), Slot([Bytes([])])]))| <= 60
  {
    var m := [Slot([Num(STREAM_ACK_EXTENSION)]), Slot([Bytes([])])];
    assert SlotOk(EXTENSION[0], m[0]) && SlotOk(EXTENSION[1], m[1]);
    assert MessageOk(EXTENSION, m);
    EncodeFromIsWellFormed(EXTENSION, m, 1);
    EncodeSplits(EXTENSION, m, 0);
    EncodeSplits(EXTENSION, m, 1);
    assert EXTENSION[0..] == EXTENSION && m[0..] == m && EXTENSION[2..] == [] && m[2..] == [];
    OneByteField(EXTENSION[0], Num(STREAM_ACK_EXTENSION));
    OneByteField(EXTENSION[1], Bytes([]));
    SizeIsExact(EXTENSION, m);
  }

  lemma OneByteField(f: Field, v: Value)
    requires ValueOk(f.kind, v) && Tag(f) < 128 && EncodeValue(f.kind, v) == [if v.Num? then v.n else 0]
    ensures |EncodeField(f, [v])| == 2
  {
    assert EncodeField(f, [v][1..]) == [];
  }

  lemma StreamAckIsShort(lastStreamId: int)
    requires IsInt32(lastStreamId)
    ensures MessageOk(IQ_STANZA, StreamAck(lastStreamId))
    ensures |Encode(IQ_STANZA, StreamAck(lastStreamId))| < 1024
  {
    AcksAreMessages(lastStreamId);
    IqStanzaOk();
    ExtensionIsShort();
    var m := StreamAck(lastStreamId);
    ShortNumber(IQ_STANZA[1].kind, 1);
    ShortNumber(IQ_STANZA[9].kind, lastStreamId);
    forall k | 0 <= k < |IQ_STANZA|
      ensures SlotOk(IQ_STANZA[k], m[k]) && |EncodeField(IQ_STANZA[k], m[k].values)| <= 70
    {
      ShortField(IQ_STANZA[k], m[k].values, 60);
    }
    assert IQ_STANZA[0..] == IQ_STANZA && m[0..] == m;
    SizeBound(IQ_STANZA, m, 0, 70);
  }

  lemma HeartbeatAckIsShort(lastStreamId: int)
    requires IsInt32(lastStreamId)
    ensures MessageOk(HEARTBEAT_ACK, HeartbeatAck(lastStreamId))
    ensures |Encode(HEARTBEAT_ACK, HeartbeatAck(lastStreamId))| < 1024
  {
    AcksAreMessages(lastStreamId);
    SmallSchemasOk();
    var m := HeartbeatAck(lastStreamId);
    ShortNumber(HEARTBEAT_ACK[1].kind, lastStreamId);
    forall k | 0 <= k < |HEARTBEAT_ACK|
      ensures SlotOk(HEARTBEAT_ACK[k], m[k]) && |EncodeField(HEARTBEAT_ACK[k], m[k].values)| <= 70
    {
      ShortField(HEARTBEAT_ACK[k], m[k].values, 60);
    }
    assert HEARTBEAT_ACK[0..] == HEARTBEAT_ACK && m[0..] == m;
    SizeBound(HEARTBEAT_ACK, m, 0, 70);
  }

  /** The bytes that `encode_frame` writes: the length comes from `get_size`. */
  function SizedFrame(tag: Byte, schema: Schema, m: Message): seq<Byte>
    requires MessageOk(schema, m)
  {
    [tag] + Varint.Encode(Size(schema, m)) + Encode(schema, m)
  }

  /** A stream ack is one whole frame of an IqStanza that says which stream id it acknowledges. */
  lemma StreamAckRoundTrips(lastStreamId: int)
    requires IsInt32(lastStreamId)
    ensures MessageOk(IQ_STANZA, StreamAck(lastStreamId))
    ensures var bytes := SizedFrame(McsStream.IQ_STANZA_TAG, IQ_STANZA, StreamAck(lastStreamId));
            var front := McsStream.FrontOf(bytes);
            front.Complete? && front.tag == McsStream.IQ_STANZA_TAG && front.size == |bytes|
            && Decode(IQ_STANZA, front.body) == Ok(StreamAck(lastStreamId))
  {
    hide Encode, Size, Decode, StreamAck;
    StreamAckIsShort(lastStreamId);
    IqStanzaOk();
    WholeFrame(McsStream.IQ_STANZA_TAG, IQ_STANZA, StreamAck(lastStreamId));
  }

  /** A heartbeat ack likewise. */
  lemma HeartbeatAckRoundTrips(lastStreamId: int)
    requires IsInt32(lastStreamId)
    ensures MessageOk(HEARTBEAT_ACK, HeartbeatAck(lastStreamId))
    ensures var bytes := SizedFrame(McsStream.HEARTBEAT_ACK_TAG, HEARTBEAT_ACK, HeartbeatAck(lastStreamId));
            var front := McsStream.FrontOf(bytes);
            front.Complete? && front.tag == McsStream.HEARTBEAT_ACK_TAG && front.size == |bytes|
            && Decode(HEARTBEAT_ACK, front.body) == Ok(HeartbeatAck(lastStreamId))
  {
    hide Encode, Size, Decode, HeartbeatAck;
    HeartbeatAckIsShort(lastStreamId);
    SmallSchemasOk();
    WholeFrame(McsStream.HEARTBEAT_ACK_TAG, HEARTBEAT_ACK, HeartbeatAck(lastStreamId));
  }

  /** Any message printed under its computed size is read back as one frame with the same contents. */
  lemma WholeFrame(tag: Byte, schema: Schema, m: Message)
    requires SchemaOk(schema) && MessageOk(schema, m)
    requires tag != McsStream.CLOSE && |Encode(schema, m)| <= McsStream.MAX_FRAME_BYTES
    ensures McsStream.FrontOf(SizedFrame(tag, schema, m))
         == McsStream.Complete(tag, Encode(schema, m), |SizedFrame(tag, schema, m)|)
    ensures Decode(schema, Encode(schema, m)) == Ok(m)
  {
    hide Encode, Size, Decode;
    SizeIsExact(schema, m);
    DecodeInvertsEncode(schema, m);
    var bytes := McsStream.Frame(tag, Encode(schema, m));
    assert bytes + [] == bytes;
    McsStreamProofs.FrontReadsFrame(McsStreamProofs.Printed(tag, Encode(schema, m)), []);
  }

  /** `encode_frame`: the tag, then the message behind its length. */
  method EncodeFrame(tag: Byte, schema: Schema, m: Message) returns (bytes: seq<Byte>)
    requires MessageOk(schema, m)
    ensures bytes == SizedFrame(tag, schema, m)
    ensures bytes == McsStream.Frame(tag, Encode(schema, m))
  {
    SizeIsExact(schema, m);
    var writer := new Writer();
    writer.WriteBytes([tag]);
    writer.WriteVarint(Size(schema, m));
    writer.WriteMessage(schema, m);
    bytes := writer.out;
  }

  // ----- the bytes -----

  lemma {:induction false} ExtensionBytes()
    ensures var m := [Slot([Num(STREAM_ACK_EXTENSION)]), Slot([Bytes([])])];
            MessageOk(EXTENSION, m) && Encode(EXTENSION, m) == [0x08, 13, 0x12, 0]
  {
    var m := [Slot([Num(STREAM_ACK_EXTENSION)]), Slot([Bytes([])])];
    assert SlotOk(EXTENSION[0], m[0]) && SlotOk(EXTENSION[1], m[1]);
    assert MessageOk(EXTENSION, m);
    OneValueGoesFirst(EXTENSION, m, 0, Num(STREAM_ACK_EXTENSION), [0x08]);
    OneValueGoesFirst(EXTENSION, m, 1, Bytes([]), [0x12]);
    assert EXTENSION[0..] == EXTENSION && m[0..] == m && EXTENSION[2..] == [] && m[2..] == [];
  }

  function SignedVarint(n: int): seq<Byte>
    requires IsInt32(n)
  {
    Varint.Encode(AsU64(n))
  }

  /** What a stream ack says on the wire: type 1 in field 2, an empty id in field 3, extension 13 with no
      data in field 7, and the acknowledged id in field 10. */
  lemma {:induction false} StreamAckBytes(lastStreamId: int)
    requires IsInt32(lastStreamId)
    ensures MessageOk(IQ_STANZA, StreamAck(lastStreamId))
    ensures Encode(IQ_STANZA, StreamAck(lastStreamId))
         == [0x10, 1, 0x1A, 0, 0x3A, 4, 0x08, 13, 0x12, 0, 0x50] + SignedVarint(lastStreamId)
  {
    hide Encode, MessageOk, EncodeValue, StreamAck;
    StreamAckHead(lastStreamId);
    StreamAckMiddle(lastStreamId);
    StreamAckTail(lastStreamId);
  }

  lemma {:induction false} StreamAckHead(lastStreamId: int)
    requires IsInt32(lastStreamId)
    ensures var m := StreamAck(lastStreamId);
            MessageOk(IQ_STANZA, m) && MessageOk(IQ_STANZA[6..], m[6..])
            && Encode(IQ_STANZA, m) == [0x10, 1, 0x1A, 0] + Encode(IQ_STANZA[6..], m[6..])
  {
    hide Encode, MessageOk;
    AcksAreMessages(lastStreamId);
    var m := StreamAck(lastStreamId);
    EmptySlotAddsNothing(IQ_STANZA, m, 0);
    OneValueGoesFirst(IQ_STANZA, m, 1, Num(1), [0x10]);
    OneValueGoesFirst(IQ_STANZA, m, 2, Bytes([]), [0x1A]);
    EmptySlotAddsNothing(IQ_STANZA, m, 3);
    EmptySlotAddsNothing(IQ_STANZA, m, 4);
    EmptySlotAddsNothing(IQ_STANZA, m, 5);
    assert IQ_STANZA[0..] == IQ_STANZA && m[0..] == m;
  }

  lemma {:induction false} StreamAckMiddle(lastStreamId: int)
    requires IsInt32(lastStreamId)
    ensures var m := StreamAck(lastStreamId);
            MessageOk(IQ_STANZA[6..], m[6..]) && MessageOk(IQ_STANZA[7..], m[7..])
            && Encode(IQ_STANZA[6..], m[6..])
               == [0x3A, 4, 0x08, 13, 0x12, 0] + Encode(IQ_STANZA[7..], m[7..])
  {
    AcksAreMessages(lastStreamId);
    ExtensionBytes();
    var slots := [Slot([Num(STREAM_ACK_EXTENSION)]), Slot([Bytes([])])];
    SizeIsExact(EXTENSION, slots);
    OneValueGoesFirst(IQ_STANZA, StreamAck(lastStreamId), 6, Msg(slots), [0x3A]);
    hide Encode;
    assert EncodeValue(Nested(EXTENSION), Msg(slots)) == [4] + Encode(EXTENSION, slots);
  }

  lemma {:induction false} StreamAckTail(lastStreamId: int)
    requires IsInt32(lastStreamId)
    ensures var m := StreamAck(lastStreamId);
            MessageOk(IQ_STANZA[7..], m[7..])
            && Encode(IQ_STANZA[7..], m[7..]) == [0x50] + SignedVarint(lastStreamId)
  {
    AcksAreMessages(lastStreamId);
    var m := StreamAck(lastStreamId);
    EmptySlotAddsNothing(IQ_STANZA, m, 7);
    EmptySlotAddsNothing(IQ_STANZA, m, 8);
    OneValueGoesFirst(IQ_STANZA, m, 9, Num(lastStreamId), [0x50]);
    EmptySlotAddsNothing(IQ_STANZA, m, 10);
    EmptySlotAddsNothing(IQ_STANZA, m, 11);
    assert IQ_STANZA[12..] == [] && m[12..] == [];
  }

  /** A heartbeat ack says nothing but the acknowledged id, in field 2. */
  lemma {:induction false} HeartbeatAckBytes(lastStreamId: int)
    requires IsInt32(lastStreamId)
    ensures MessageOk(HEARTBEAT_ACK, HeartbeatAck(lastStreamId))
    ensures Encode(HEARTBEAT_ACK, HeartbeatAck(lastStreamId)) == [0x10] + SignedVarint(lastStreamId)
  {
    AcksAreMessages(lastStreamId);
    var m := HeartbeatAck(lastStreamId);
    EmptySlotAddsNothing(HEARTBEAT_ACK, m, 0);
    OneValueGoesFirst(HEARTBEAT_ACK, m, 1, Num(lastStreamId), [0x10]);
    EmptySlotAddsNothing(HEARTBEAT_ACK, m, 2);
    assert HEARTBEAT_ACK[0..] == HEARTBEAT_ACK && m[0..] == m && HEARTBEAT_ACK[3..] == [] && m[3..] == [];
  }
}
