/** The codec's laws, for every schema at once. */
module ProtobufProofs {
  import opened Types
  import opened Utf8
  import opened Protobuf
  import Varint

  // ----- get_size is exact -----

  lemma {:induction false} SizeOfVarintIsExact(n: nat)
    ensures SizeOfVarint(n) == |Varint.Encode(n)|
  {
    if n >= 128 {
      SizeOfVarintIsExact(n / 128);
    }
  }

  lemma {:induction false} SizeOfValueIsExact(kind: Kind, v: Value)
    requires ValueOk(kind, v)
    ensures SizeOfValue(kind, v) == |EncodeValue(kind, v)|
    decreases v
  {
    match v
    case Num(n) => SizeOfVarintIsExact(AsU64(n));
    case Bytes(bytes) => SizeOfVarintIsExact(|bytes|);
    case Msg(slots) =>
      SizeOfVarintIsExact(Size(kind.fields, slots));
      SizeIsExact(kind.fields, slots);
  }

  lemma {:induction false} SizeOfFieldIsExact(f: Field, values: seq<Value>)
    requires forall j :: 0 <= j < |values| ==> ValueOk(f.kind, values[j])
    ensures SizeOfField(f, values) == |EncodeField(f, values)|
    decreases values
  {
    if values != [] {
      SizeOfVarintIsExact(Tag(f));
      SizeOfValueIsExact(f.kind, values[0]);
      SizeOfFieldIsExact(f, values[1..]);
    }
  }

  /** `write_message` emits exactly `get_size` bytes. */
  lemma {:induction false} SizeIsExact(schema: Schema, m: Message)
    requires MessageOk(schema, m)
    ensures Size(schema, m) == |Encode(schema, m)|
    decreases m
  {
    if m != [] {
      assert SlotOk(schema[0], m[0]);
      SizeOfFieldIsExact(schema[0], m[0].values);
      SizeIsExact(schema[1..], m[1..]);
    }
  }

  // ----- numbers -----

  lemma VarintFits(n: nat)
    requires n < TWO64
    ensures |Varint.Encode(n)| <= 10
  {
    assert Varint.Pow128(5) == 0x8_0000_0000;
    assert Varint.Pow128(10) == 128 * (128 * (128 * (128 * (128 * Varint.Pow128(5)))));
    Varint.EncodeFits(n, 10);
  }

  lemma InterpretInvertsCast(kind: Kind, n: int)
    requires WireType(kind) == 0 && KindOk(kind) && ValueOk(kind, Num(n))
    ensures -TWO64 <= n < TWO64 && Interpret(kind, AsU64(n)) == n
  {
  }

  /** A negative int32 or int64 takes ten bytes. */
  lemma NegativeTakesTenBytes(n: int)
    requires -0x8000_0000_0000_0000 <= n < 0
    ensures |Varint.Encode(AsU64(n))| == 10
  {
    VarintFits(AsU64(n));
    if |Varint.Encode(AsU64(n))| <= 9 {
      assert Varint.Pow128(5) == 0x8_0000_0000;
      assert Varint.Pow128(9) == 128 * (128 * (128 * (128 * Varint.Pow128(5))));
      EncodeBound(AsU64(n), 9);
    }
  }

  lemma {:induction false} EncodeBound(n: nat, k: nat)
    requires |Varint.Encode(n)| <= k
    ensures n < Varint.Pow128(k)
  {
    if n >= 128 {
      EncodeBound(n / 128, k - 1);
    }
  }

  // ----- one field -----

  lemma SpanInvertsLength(data: seq<Byte>, rest: seq<Byte>)
    requires |data| < TWO32
    ensures ReadSpan(Varint.Encode(|data|) + data + rest) == Span(|Varint.Encode(|data|)|, |data|)
    ensures (Varint.Encode(|data|) + data + rest)[|Varint.Encode(|data|)|..|Varint.Encode(|data|)| + |data|] == data
  {
    var n := Varint.Encode(|data|);
    VarintFits(|data|);
    Varint.DecodeInvertsEncode(|data|, data + rest, 10);
    assert n + data + rest == n + (data + rest);
  }

  lemma {:induction false} ReadValueInvertsEncode(kind: Kind, v: Value, rest: seq<Byte>)
    requires KindOk(kind) && ValueOk(kind, v) && |EncodeValue(kind, v)| < TWO32
    ensures ReadValue(kind, EncodeValue(kind, v) + rest) == Value(v, |EncodeValue(kind, v)|)
    decreases v, 1
  {
    hide Varint.Encode, Varint.Decode, ValidUtf8, Interpret, SchemaOk;
    match v
    case Num(n) =>
      InterpretInvertsCast(kind, n);
      VarintFits(AsU64(n));
      Varint.DecodeInvertsEncode(AsU64(n), rest, 10);
    case Bytes(bytes) =>
      SpanInvertsLength(bytes, rest);
    case Msg(slots) =>
      var body := Encode(kind.fields, slots);
      SizeIsExact(kind.fields, slots);
      SpanInvertsLength(body, rest);
      DecodeInvertsEncode(kind.fields, slots);
  }

  lemma FindIsExact(schema: Schema, i: nat)
    requires SchemaOk(schema) && i < |schema|
    ensures Find(schema, Tag(schema[i])) == i
  {
  }

  lemma TagReadsBack(f: Field, input: seq<Byte>)
    requires FieldOk(f)
    ensures Varint.Decode(Varint.Encode(Tag(f)) + input, 10) == Varint.Done(Tag(f), |Varint.Encode(Tag(f))|)
    ensures Tag(f) % TWO32 == Tag(f)
  {
    VarintFits(Tag(f));
    Varint.DecodeInvertsEncode(Tag(f), input, 10);
  }

  /** Reading one written value stores it and stops right after it. */
  lemma {:induction false} ReadOneInvertsEncode(schema: Schema, m: Message, i: nat, v: Value, rest: seq<Byte>)
    requires SchemaOk(schema) && i < |schema| == |m|
    requires ValueOk(schema[i].kind, v) && |EncodeValue(schema[i].kind, v)| < TWO32
    ensures var head := Varint.Encode(Tag(schema[i])) + EncodeValue(schema[i].kind, v);
            ReadOne(schema, m, head + rest) == Next(Store(schema, m, i, v), |head|)
    decreases v, 2
  {
    var tag := Varint.Encode(Tag(schema[i]));
    var value := EncodeValue(schema[i].kind, v);
    var input := tag + value + rest;
    assert FieldOk(schema[i]);
    assert input == tag + (value + rest);
    TagReadsBack(schema[i], value + rest);
    assert input[|tag|..] == value + rest;
    FindIsExact(schema, i);
    ReadValueInvertsEncode(schema[i].kind, v, rest);
  }

  /** Storing a field's values one after the other. */
  function StoreAll(schema: Schema, m: Message, i: nat, values: seq<Value>): (r: Message)
    requires i < |schema| == |m|
    ensures |r| == |m|
    decreases |values|
  {
    if values == [] then m else StoreAll(schema, Store(schema, m, i, values[0]), i, values[1..])
  }

  lemma {:induction false} ReadField(schema: Schema, m: Message, i: nat, values: seq<Value>, rest: seq<Byte>)
    requires SchemaOk(schema) && i < |schema| == |m|
    requires forall j :: 0 <= j < |values| ==> ValueOk(schema[i].kind, values[j])
    requires |EncodeField(schema[i], values)| < TWO32
    ensures Read(schema, m, EncodeField(schema[i], values) + rest)
         == Read(schema, StoreAll(schema, m, i, values), rest)
    decreases values
  {
    var f := schema[i];
    var input := EncodeField(f, values) + rest;
    if values == [] {
      assert input == rest;
    } else {
      var head := Varint.Encode(Tag(f)) + EncodeValue(f.kind, values[0]);
      var tail := EncodeField(f, values[1..]) + rest;
      assert input == head + tail;
      ReadOneInvertsEncode(schema, m, i, values[0], tail);
      assert input[|head|..] == tail;
      ReadField(schema, Store(schema, m, i, values[0]), i, values[1..], rest);
    }
  }

  lemma {:induction false} StoreAllRepeated(schema: Schema, m: Message, i: nat, values: seq<Value>)
    requires i < |schema| == |m| && schema[i].presence.Repeated?
    ensures StoreAll(schema, m, i, values) == m[i := Slot(m[i].values + values)]
    decreases |values|
  {
    if values == [] {
      assert m[i].values + values == m[i].values;
    } else {
      StoreAllRepeated(schema, Store(schema, m, i, values[0]), i, values[1..]);
      assert m[i].values + values == m[i].values + [values[0]] + values[1..];
    }
  }

  /** From the default slot, a field's own values are exactly what reading leaves in it. */
  lemma {:induction false} StoreAllFillsSlot(schema: Schema, m: Message, i: nat, slot: Slot)
    requires i < |schema| == |m| && m[i] == DefaultSlot(schema[i]) && SlotOk(schema[i], slot)
    ensures StoreAll(schema, m, i, slot.values) == m[i := slot]
  {
    if schema[i].presence.Repeated? {
      StoreAllRepeated(schema, m, i, slot.values);
      assert [] + slot.values == slot.values;
    } else if slot.values == [] {
      assert m[i] == slot;
    } else {
      assert slot.values == [slot.values[0]];
      assert StoreAll(schema, Store(schema, m, i, slot.values[0]), i, []) == Store(schema, m, i, slot.values[0]);
    }
  }

  // ----- whole messages -----

  lemma EncodeFromIsWellFormed(schema: Schema, m: Message, i: nat)
    requires MessageOk(schema, m) && i <= |schema|
    ensures MessageOk(schema[i..], m[i..])
  {
    forall j | 0 <= j < |schema| - i ensures SlotOk(schema[i..][j], m[i..][j]) {
      assert SlotOk(schema[i + j], m[i + j]);
    }
  }

  lemma EncodeSplits(schema: Schema, m: Message, i: nat)
    requires MessageOk(schema, m) && i < |schema|
    ensures SlotOk(schema[i], m[i]) && MessageOk(schema[i..], m[i..]) && MessageOk(schema[i + 1..], m[i + 1..])
    ensures Encode(schema[i..], m[i..]) == EncodeField(schema[i], m[i].values) + Encode(schema[i + 1..], m[i + 1..])
  {
    EncodeFromIsWellFormed(schema, m, i);
    EncodeFromIsWellFormed(schema, m, i + 1);
    assert SlotOk(schema[i..][0], m[i..][0]);
    assert schema[i..][1..] == schema[i + 1..] && m[i..][1..] == m[i + 1..];
  }

  lemma OneFieldFurther(done: Message, open: Message, i: nat)
    requires i < |done| == |open|
    ensures (done[..i] + open[i..])[i := done[i]] == done[..i + 1] + open[i + 1..]
    ensures (done[..i] + open[i..])[i] == open[i]
  {
  }

  /** With the first `i` fields read, reading the encoding of the others completes the message. */
  lemma {:induction false} ReadRest(schema: Schema, m: Message, i: nat)
    requires SchemaOk(schema) && MessageOk(schema, m) && i <= |schema|
    requires MessageOk(schema[i..], m[i..]) && |Encode(schema[i..], m[i..])| < TWO32
    ensures Read(schema, m[..i] + Default(schema)[i..], Encode(schema[i..], m[i..])) == Ok(m)
    decreases m, |schema| - i
  {
    var partial := m[..i] + Default(schema)[i..];
    if i == |schema| {
      assert partial == m;
    } else {
      EncodeSplits(schema, m, i);
      var next := m[..i + 1] + Default(schema)[i + 1..];
      OneFieldFurther(m, Default(schema), i);
      ReadField(schema, partial, i, m[i].values, Encode(schema[i + 1..], m[i + 1..]));
      StoreAllFillsSlot(schema, partial, i, m[i]);
      ReadRest(schema, m, i + 1);
    }
  }

  /** `from_reader` inverts `write_message`. */
  lemma {:induction false} DecodeInvertsEncode(schema: Schema, m: Message)
    requires SchemaOk(schema) && MessageOk(schema, m) && |Encode(schema, m)| < TWO32
    ensures Decode(schema, Encode(schema, m)) == Ok(m)
    decreases m, |schema| + 1
  {
    assert schema[0..] == schema && m[0..] == m;
    ReadRest(schema, m, 0);
    assert m[..0] + Default(schema)[0..] == Default(schema);
  }

  // ----- what follows, and what is not recognised -----

  lemma ReadSpanIgnoresWhatFollows(bytes: seq<Byte>, more: seq<Byte>)
    requires ReadSpan(bytes).Span?
    ensures ReadSpan(bytes + more) == ReadSpan(bytes)
  {
    Varint.DecodeIgnoresWhatFollows(bytes, more, 10);
  }

  lemma SpanIgnoresWhatFollows(bytes: seq<Byte>, more: seq<Byte>, span: Span)
    requires span.Span? && span.start + span.length <= |bytes|
    ensures (bytes + more)[span.start..span.start + span.length] == bytes[span.start..span.start + span.length]
  {
  }

  lemma ReadValueIgnoresWhatFollows(kind: Kind, bytes: seq<Byte>, more: seq<Byte>)
    requires ReadValue(kind, bytes).Value?
    ensures ReadValue(kind, bytes + more) == ReadValue(kind, bytes)
  {
    hide Read, ReadSpan, ValidUtf8, Default, Interpret, Varint.Decode;
    if WireType(kind) == 0 {
      Varint.DecodeIgnoresWhatFollows(bytes, more, 10);
    } else {
      ReadSpanIgnoresWhatFollows(bytes, more);
      SpanIgnoresWhatFollows(bytes, more, ReadSpan(bytes));
    }
  }

  lemma SkipIgnoresWhatFollows(tag: nat, bytes: seq<Byte>, more: seq<Byte>)
    requires SkipUnknown(tag, bytes).Skip?
    ensures SkipUnknown(tag, bytes + more) == SkipUnknown(tag, bytes)
  {
    if tag % 8 == 0 {
      Varint.DecodeIgnoresWhatFollows(bytes, more, 10);
    } else if tag % 8 == 2 {
      ReadSpanIgnoresWhatFollows(bytes, more);
    }
  }

  lemma ReadOneIgnoresWhatFollows(schema: Schema, m: Message, bytes: seq<Byte>, more: seq<Byte>)
    requires |m| == |schema| && bytes != [] && ReadOne(schema, m, bytes).Next?
    ensures ReadOne(schema, m, bytes + more) == ReadOne(schema, m, bytes)
  {
    Varint.DecodeIgnoresWhatFollows(bytes, more, 10);
    var Done(raw, size) := Varint.Decode(bytes, 10);
    var i := Find(schema, raw % TWO32);
    assert (bytes + more)[size..] == bytes[size..] + more;
    if i < |schema| {
      ReadValueIgnoresWhatFollows(schema[i].kind, bytes[size..], more);
    } else {
      SkipIgnoresWhatFollows(raw % TWO32, bytes[size..], more);
    }
  }

  /** A prefix of whole fields can be read on its own. */
  lemma {:induction false} ReadsInPieces(schema: Schema, m: Message, front: seq<Byte>, back: seq<Byte>)
    requires |m| == |schema| && Read(schema, m, front).Ok?
    ensures Read(schema, m, front + back) == Read(schema, Read(schema, m, front).value, back)
    decreases |front|
  {
    hide ReadOne;
    if front == [] {
      assert front + back == back;
    } else {
      ReadOneIgnoresWhatFollows(schema, m, front, back);
      var one := ReadOne(schema, m, front);
      assert (front + back)[one.size..] == front[one.size..] + back;
      ReadsInPieces(schema, one.message, front[one.size..], back);
    }
  }

  /** One complete field whose tag the schema does not list. */
  ghost predicate UnknownField(schema: Schema, field: seq<Byte>) {
    match Varint.Decode(field, 10)
    case Done(raw, size) =>
      && Find(schema, raw % TWO32) == |schema|
      && SkipUnknown(raw % TWO32, field[size..]) == Skip(|field| - size)
    case _ => false
  }

  lemma UnknownFieldIsSkipped(schema: Schema, m: Message, unknown: seq<Byte>)
    requires |m| == |schema| && UnknownField(schema, unknown)
    ensures unknown != [] && ReadOne(schema, m, unknown) == Next(m, |unknown|)
  {
  }

  lemma ReadAfterUnknown(schema: Schema, m: Message, unknown: seq<Byte>, back: seq<Byte>)
    requires |m| == |schema| && UnknownField(schema, unknown)
    ensures Read(schema, m, unknown + back) == Read(schema, m, back)
  {
    UnknownFieldIsSkipped(schema, m, unknown);
    ReadOneIgnoresWhatFollows(schema, m, unknown, back);
    assert (unknown + back)[|unknown|..] == back;
  }

  /** Inserting an unrecognised field at a field boundary changes nothing, not even an error. */
  lemma UnknownFieldsAreIgnored(
      schema: Schema, front: seq<Byte>, unknown: seq<Byte>, back: seq<Byte>)
    requires Decode(schema, front).Ok? && UnknownField(schema, unknown)
    ensures Decode(schema, front + unknown + back) == Decode(schema, front + back)
  {
    hide Read, UnknownField, Default;
    var m := Decode(schema, front).value;
    ReadsInPieces(schema, Default(schema), front, back);
    ReadsInPieces(schema, Default(schema), front, unknown + back);
    ReadAfterUnknown(schema, m, unknown, back);
    assert front + unknown + back == front + (unknown + back);
  }

  /** A later message with the same fields overrides single fields and extends repeated ones. */
  lemma ConcatenationMerges(schema: Schema, m: Message, back: seq<Byte>)
    requires SchemaOk(schema) && MessageOk(schema, m) && |Encode(schema, m)| < TWO32
    ensures Decode(schema, Encode(schema, m) + back) == Read(schema, m, back)
  {
    DecodeInvertsEncode(schema, m);
    ReadsInPieces(schema, Default(schema), Encode(schema, m), back);
  }

  /** A field that occurs in both messages takes the later value, or both messages' values if it repeats. */
  function MergedSlot(f: Field, slot: Slot, later: Slot): Slot {
    if f.presence.Repeated? then Slot(slot.values + later.values)
    else if later.values == [] then slot
    else later
  }

  function Merged(schema: Schema, m: Message, later: Message): (r: Message)
    requires |schema| == |m| == |later|
    ensures |r| == |schema| && forall i :: 0 <= i < |r| ==> r[i] == MergedSlot(schema[i], m[i], later[i])
  {
    seq(|schema|, i requires 0 <= i < |schema| => MergedSlot(schema[i], m[i], later[i]))
  }

  lemma StoreAllMerges(schema: Schema, m: Message, i: nat, slot: Slot)
    requires i < |schema| == |m| && SlotOk(schema[i], slot)
    ensures StoreAll(schema, m, i, slot.values) == m[i := MergedSlot(schema[i], m[i], slot)]
  {
    if schema[i].presence.Repeated? {
      StoreAllRepeated(schema, m, i, slot.values);
    } else if slot.values == [] {
      assert m[i := m[i]] == m;
    } else {
      assert slot.values == [slot.values[0]];
      assert StoreAll(schema, Store(schema, m, i, slot.values[0]), i, []) == Store(schema, m, i, slot.values[0]);
    }
  }

  lemma {:induction false} MergeRest(schema: Schema, m: Message, later: Message, i: nat)
    requires SchemaOk(schema) && MessageOk(schema, later) && |m| == |schema| && i <= |schema|
    requires MessageOk(schema[i..], later[i..]) && |Encode(schema[i..], later[i..])| < TWO32
    ensures Read(schema, Merged(schema, m, later)[..i] + m[i..], Encode(schema[i..], later[i..]))
         == Ok(Merged(schema, m, later))
    decreases |schema| - i
  {
    var whole := Merged(schema, m, later);
    var partial := whole[..i] + m[i..];
    if i == |schema| {
      assert partial == whole;
    } else {
      EncodeSplits(schema, later, i);
      var next := whole[..i + 1] + m[i + 1..];
      OneFieldFurther(whole, m, i);
      ReadField(schema, partial, i, later[i].values, Encode(schema[i + 1..], later[i + 1..]));
      StoreAllMerges(schema, partial, i, later[i]);
      MergeRest(schema, m, later, i + 1);
    }
  }

  /** Two messages written one after the other read as one, merged field by field. */
  lemma LaterFieldsWin(schema: Schema, m: Message, later: Message)
    requires SchemaOk(schema) && MessageOk(schema, m) && MessageOk(schema, later)
    requires |Encode(schema, m)| < TWO32 && |Encode(schema, later)| < TWO32
    ensures Decode(schema, Encode(schema, m) + Encode(schema, later)) == Ok(Merged(schema, m, later))
  {
    ConcatenationMerges(schema, m, Encode(schema, later));
    assert schema[0..] == schema && later[0..] == later;
    MergeRest(schema, m, later, 0);
    assert Merged(schema, m, later)[..0] + m[0..] == m;
  }

  /** A field that is not there is empty, but for a required one, which is zero, empty, or the
      enumeration's default. */
  lemma AbsentFieldsTakeDefaults(schema: Schema, i: nat)
    requires i < |schema|
    ensures Decode(schema, []).Ok?
    ensures var slot, kind := Decode(schema, []).value[i], schema[i].kind;
            if !schema[i].presence.Required? then slot.values == []
            else
              |slot.values| == 1
              && (kind.Text? || kind.Blob? ==> slot.values[0] == Bytes([]))
              && (kind.Enum? ==> slot.values[0] == Num(kind.default))
              && (kind.Nested? ==> slot.values[0] == Msg(Decode(kind.fields, []).value))
              && (kind.Int32? || kind.Int64? || kind.UInt32? || kind.UInt64? || kind.Bool? ==>
                    slot.values[0] == Num(0))
  {
    var f := schema[i];
    assert Decode(schema, []) == Ok(Default(schema));
    assert Default(schema)[i] == DefaultSlot(f);
    if f.presence.Required? {
      assert DefaultSlot(f) == Slot([DefaultValue(f.kind)]);
      if f.kind.Nested? {
        assert Decode(f.kind.fields, []) == Ok(Default(f.kind.fields));
      }
    }
  }

  // ----- one field after the other -----

  lemma EmptySlotAddsNothing(schema: Schema, m: Message, i: nat)
    requires MessageOk(schema, m) && i < |schema| && m[i].values == []
    ensures MessageOk(schema[i..], m[i..]) && MessageOk(schema[i + 1..], m[i + 1..])
    ensures Encode(schema[i..], m[i..]) == Encode(schema[i + 1..], m[i + 1..])
  {
    EncodeFromIsWellFormed(schema, m, i);
    EncodeSplits(schema, m, i);
    assert EncodeField(schema[i], m[i].values) == [];
  }

  lemma OneValueGoesFirst(schema: Schema, m: Message, i: nat, v: Value, tag: seq<Byte>)
    requires MessageOk(schema, m) && i < |schema| && m[i].values == [v] && Varint.Encode(Tag(schema[i])) == tag
    ensures ValueOk(schema[i].kind, v)
    ensures MessageOk(schema[i..], m[i..]) && MessageOk(schema[i + 1..], m[i + 1..])
    ensures Encode(schema[i..], m[i..])
         == tag + EncodeValue(schema[i].kind, v) + Encode(schema[i + 1..], m[i + 1..])
  {
    EncodeFromIsWellFormed(schema, m, i);
    EncodeSplits(schema, m, i);
    assert SlotOk(schema[i], m[i]) && m[i].values[0] == v;
    assert EncodeField(schema[i], [v][1..]) == [];
    assert EncodeField(schema[i], m[i].values) == tag + EncodeValue(schema[i].kind, v);
  }

  // ----- numbers and unknown fields, read off the bytes -----

  /** The numbers agree in their low 32 bits. */
  predicate Alike32(a: int, b: int) {
    a % 0x1_0000_0000 == b % 0x1_0000_0000
  }

  /** The numbers agree in their low 64 bits. */
  predicate Alike64(a: int, b: int) {
    a % 0x1_0000_0000_0000_0000 == b % 0x1_0000_0000_0000_0000
  }

  lemma LowBits(raw: nat)
    ensures -0x8000_0000 <= Signed(raw, TWO32) < 0x8000_0000 && Alike32(Signed(raw, TWO32), raw)
    ensures -0x8000_0000_0000_0000 <= Signed(raw, TWO64) < 0x8000_0000_0000_0000 && Alike64(Signed(raw, TWO64), raw)
    ensures Alike32(raw % TWO32, raw) && Alike64(raw % TWO64, raw)
    ensures Alike64(0, raw) <==> raw % TWO64 == 0
  {
  }

  /** A varint stands for the number of the field's type that agrees with it in the type's low bits; an
      enumeration that does not know the number takes its default, and any number but 0 is true. */
  lemma InterpretIsExact(kind: Kind, raw: nat)
    ensures var n := Interpret(kind, raw);
            match kind
            case Int32 => -0x8000_0000 <= n < 0x8000_0000 && Alike32(n, raw)
            case Int64 => -0x8000_0000_0000_0000 <= n < 0x8000_0000_0000_0000 && Alike64(n, raw)
            case UInt32 => 0 <= n < TWO32 && Alike32(n, raw)
            case UInt64 => 0 <= n < TWO64 && Alike64(n, raw)
            case Bool => (n == 0 && Alike64(0, raw)) || (n == 1 && !Alike64(0, raw))
            case Enum(known, default) =>
              var low := Signed(raw, TWO32);
              -0x8000_0000 <= low < 0x8000_0000 && Alike32(low, raw) && n == if low in known then low else default
            case _ => true
  {
    LowBits(raw);
    hide Alike32, Alike64, Signed;
  }

  /** What an unrecognised field of each wire type is made of. */
  ghost predicate Payload(wireType: nat, payload: seq<Byte>) {
    match wireType
    case 0 => |payload| <= 10 && exists n: nat :: Varint.Spells(payload, n)
    case 1 => |payload| == 8
    case 2 =>
      exists length: seq<Byte>, data: seq<Byte> ::
        payload == length + data && |length| <= 10 && |data| < TWO32 && Varint.Spells(length, |data|)
    case 5 => |payload| == 4
    case _ => false
  }

  lemma SkipsNumber(tag: nat, payload: seq<Byte>)
    requires tag % 8 == 0 && Payload(0, payload)
    ensures SkipUnknown(tag, payload) == Skip(|payload|)
  {
    hide Varint.Spells, Varint.Decode;
    Varint.SpellingsAreSome();
    var n: nat :| Varint.Spells(payload, n);
    assert payload[..|payload|] == payload;
    Varint.SpellingIsFound(payload, 10, |payload|, n);
  }

  lemma SkipsDelimited(tag: nat, payload: seq<Byte>)
    requires tag % 8 == 2 && Payload(2, payload)
    ensures SkipUnknown(tag, payload) == Skip(|payload|)
  {
    hide Varint.Spells, Varint.Decode;
    Varint.SpellingsAreSome();
    var length: seq<Byte>, data: seq<Byte> :|
      payload == length + data && |length| <= 10 && |data| < TWO32 && Varint.Spells(length, |data|);
    assert payload[..|length|] == length;
    Varint.SpellingIsFound(payload, 10, |length|, |data|);
  }

  lemma SkipsPayload(tag: nat, payload: seq<Byte>)
    requires Payload(tag % 8, payload)
    ensures SkipUnknown(tag, payload) == Skip(|payload|)
  {
    hide Varint.Spells, ReadSpan;
    if tag % 8 == 0 {
      SkipsNumber(tag, payload);
    } else if tag % 8 == 2 {
      SkipsDelimited(tag, payload);
    }
  }

  /** A tag that the schema does not list, and a payload of its wire type, are one unknown field. */
  lemma PayloadIsUnknownField(schema: Schema, tag: nat, tagBytes: seq<Byte>, payload: seq<Byte>)
    requires tag < TWO32 && |tagBytes| <= 10 && Varint.Spells(tagBytes, tag)
    requires (forall i :: 0 <= i < |schema| ==> Tag(schema[i]) != tag) && Payload(tag % 8, payload)
    ensures UnknownField(schema, tagBytes + payload)
  {
    hide Varint.Spells, Varint.Decode, SkipUnknown, Payload;
    Varint.SpellingsAreSome();
    var field := tagBytes + payload;
    assert field[..|tagBytes|] == tagBytes && field[|tagBytes|..] == payload;
    Varint.SpellingIsFound(field, 10, |tagBytes|, tag);
    SkipsPayload(tag, payload);
  }

  lemma SpanIsSpelled(length: seq<Byte>, n: nat, rest: seq<Byte>)
    requires |length| <= 10 && n < TWO32 && Varint.Spells(length, n)
    ensures ReadSpan(length + rest) == if n > |rest| then NoSpan(Truncated) else Span(|length|, n)
  {
    hide Varint.Spells, Varint.Decode;
    Varint.SpellingsAreSome();
    var bytes := length + rest;
    assert bytes[..|length|] == length;
    Varint.SpellingIsFound(bytes, 10, |length|, n);
  }

  /** A text or a blob is its length and that many bytes; a text that is not well-formed UTF-8 is refused,
      and so is a length that reaches beyond the input. */
  lemma DelimitedReadsExactly(kind: Kind, length: seq<Byte>, n: nat, rest: seq<Byte>)
    requires kind.Text? || kind.Blob?
    requires |length| <= 10 && n < TWO32 && Varint.Spells(length, n)
    ensures ReadValue(kind, length + rest)
         == if n > |rest| then NoValue(Truncated)
            else if kind.Text? && !ValidUtf8(rest[..n]) then NoValue(BadText)
            else Value(Bytes(rest[..n]), |length| + n)
  {
    hide Varint.Spells, ReadSpan, ValidUtf8, Read, Interpret;
    SpanIsSpelled(length, n, rest);
    if n <= |rest| {
      assert (length + rest)[|length|..|length| + n] == rest[..n];
    }
  }
}
