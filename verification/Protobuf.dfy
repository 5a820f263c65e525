/** The wire codec shared by all the generated MCS messages.

    A schema lists a message's fields in declaration order, and a message holds one slot per field:
    exactly one value for a required field, at most one for an optional one. */
module Protobuf {
  import opened Types
  import opened Utf8
  import Varint

  datatype Kind =
    | Int32 | Int64 | UInt32 | UInt64 | Bool
    | Enum(known: set<int>, default: int)
    | Text | Blob
    | Nested(fields: seq<Field>)

  datatype Presence = Required | Optional | Repeated

  datatype Field = Field(number: nat, kind: Kind, presence: Presence)

  type Schema = seq<Field>

  datatype Value = Num(n: int) | Bytes(bytes: seq<Byte>) | Msg(slots: Message)

  datatype Slot = Slot(values: seq<Value>)

  type Message = seq<Slot>

  datatype Failure = BadVarint | Truncated | BadText | BadWireType

  const TWO32: int := 0x1_0000_0000
  const TWO64: int := 0x1_0000_0000_0000_0000

  // ----- schemas and the messages they describe -----

  function WireType(kind: Kind): nat {
    if kind.Text? || kind.Blob? || kind.Nested? then 2 else 0
  }

  function Tag(f: Field): nat {
    8 * f.number + WireType(f.kind)
  }

  ghost predicate SchemaOk(schema: Schema)
    decreases schema
  {
    && (forall i :: 0 <= i < |schema| ==> FieldOk(schema[i]))
    && (forall i, j :: 0 <= i < j < |schema| ==> Tag(schema[i]) != Tag(schema[j]))
  }

  ghost predicate FieldOk(f: Field)
    decreases f
  {
    0 < Tag(f) < TWO32 && KindOk(f.kind)
  }

  ghost predicate KindOk(kind: Kind)
    decreases kind
  {
    kind.Nested? ==> SchemaOk(kind.fields)
  }

  ghost predicate ValueOk(kind: Kind, v: Value)
    decreases v
  {
    match kind
    case Int32 => v.Num? && -0x8000_0000 <= v.n < 0x8000_0000
    case Int64 => v.Num? && -0x8000_0000_0000_0000 <= v.n < 0x8000_0000_0000_0000
    case UInt32 => v.Num? && 0 <= v.n < TWO32
    case UInt64 => v.Num? && 0 <= v.n < TWO64
    case Bool => v.Num? && 0 <= v.n <= 1
    case Enum(known, _) => v.Num? && v.n in known && -0x8000_0000 <= v.n < 0x8000_0000
    case Text => v.Bytes? && ValidUtf8(v.bytes)
    case Blob => v.Bytes?
    case Nested(fields) => v.Msg? && MessageOk(fields, v.slots)
  }

  ghost predicate MessageOk(schema: Schema, m: Message)
    decreases m
  {
    && |m| == |schema|
    && (forall i :: 0 <= i < |schema| ==> SlotOk(schema[i], m[i]))
  }

  ghost predicate SlotOk(f: Field, slot: Slot)
    decreases slot
  {
    && (f.presence.Required? ==> |slot.values| == 1)
    && (f.presence.Optional? ==> |slot.values| <= 1)
    && (forall j :: 0 <= j < |slot.values| ==> ValueOk(f.kind, slot.values[j]))
  }

  function DefaultValue(kind: Kind): Value
    decreases kind
  {
    match kind
    case Text => Bytes([])
    case Blob => Bytes([])
    case Enum(_, default) => Num(default)
    case Nested(fields) => Msg(Default(fields))
    case _ => Num(0)
  }

  /** What `Self::default()` holds before any field is read. */
  function Default(schema: Schema): (m: Message)
    ensures |m| == |schema|
    ensures forall i :: 0 <= i < |schema| ==> m[i] == DefaultSlot(schema[i])
    decreases schema
  {
    if schema == [] then [] else [DefaultSlot(schema[0])] + Default(schema[1..])
  }

  function DefaultSlot(f: Field): Slot
    decreases f
  {
    if f.presence.Required? then Slot([DefaultValue(f.kind)]) else Slot([])
  }

  // ----- writing -----

  /** A signed number is cast to u64 before it is written, so a negative one takes ten bytes. */
  function AsU64(n: int): nat
    requires -TWO64 <= n < TWO64
  {
    if n < 0 then n + TWO64 else n
  }

  function EncodeValue(kind: Kind, v: Value): seq<Byte>
    requires ValueOk(kind, v)
    decreases v
  {
    match v
    case Num(n) => Varint.Encode(AsU64(n))
    case Bytes(bytes) => Varint.Encode(|bytes|) + bytes
    case Msg(slots) => Varint.Encode(Size(kind.fields, slots)) + Encode(kind.fields, slots)
  }

  function EncodeField(f: Field, values: seq<Value>): seq<Byte>
    requires forall j :: 0 <= j < |values| ==> ValueOk(f.kind, values[j])
    decreases values
  {
    if values == [] then []
    else Varint.Encode(Tag(f)) + EncodeValue(f.kind, values[0]) + EncodeField(f, values[1..])
  }

  /** `write_message`: the fields in declaration order, each value under its own tag. */
  function Encode(schema: Schema, m: Message): seq<Byte>
    requires MessageOk(schema, m)
    decreases m
  {
    if m == [] then []
    else
      assert SlotOk(schema[0], m[0]);
      EncodeField(schema[0], m[0].values) + Encode(schema[1..], m[1..])
  }

  function SizeOfVarint(n: nat): nat {
    if n < 128 then 1 else 1 + SizeOfVarint(n / 128)
  }

  function SizeOfValue(kind: Kind, v: Value): nat
    requires ValueOk(kind, v)
    decreases v
  {
    match v
    case Num(n) => SizeOfVarint(AsU64(n))
    case Bytes(bytes) => SizeOfVarint(|bytes|) + |bytes|
    case Msg(slots) => SizeOfVarint(Size(kind.fields, slots)) + Size(kind.fields, slots)
  }

  function SizeOfField(f: Field, values: seq<Value>): nat
    requires forall j :: 0 <= j < |values| ==> ValueOk(f.kind, values[j])
    decreases values
  {
    if values == [] then 0
    else SizeOfVarint(Tag(f)) + SizeOfValue(f.kind, values[0]) + SizeOfField(f, values[1..])
  }

  /** `get_size`, which the source computes without encoding anything. */
  function Size(schema: Schema, m: Message): nat
    requires MessageOk(schema, m)
    decreases m
  {
    if m == [] then 0
    else
      assert SlotOk(schema[0], m[0]);
      SizeOfField(schema[0], m[0].values) + Size(schema[1..], m[1..])
  }

  // ----- reading -----

  datatype ReadValueResult = Value(value: Value, size: nat) | NoValue(error: Failure)

  function Signed(raw: nat, modulus: nat): int
    requires modulus > 0
  {
    var low := raw % modulus;
    if 2 * low >= modulus then low - modulus else low
  }

  function Interpret(kind: Kind, raw: nat): int {
    match kind
    case Int32 => Signed(raw, TWO32)
    case UInt32 => raw % TWO32
    case UInt64 => raw % TWO64
    case Bool => if raw % TWO64 == 0 then 0 else 1
    case Enum(known, default) => if Signed(raw, TWO32) in known then Signed(raw, TWO32) else default
    case _ => Signed(raw, TWO64)
  }

  /** A length-delimited payload: its length, and where it starts. */
  datatype Span = Span(start: nat, length: nat) | NoSpan(error: Failure)

  function ReadSpan(bytes: seq<Byte>): (r: Span)
    ensures r.Span? ==> 0 < r.start && r.start + r.length <= |bytes|
  {
    match Varint.Decode(bytes, 10)
    case Unfinished => NoSpan(Truncated)
    case TooLong => NoSpan(BadVarint)
    case Done(length, start) =>
      if start + length % TWO32 > |bytes| then NoSpan(Truncated) else Span(start, length % TWO32)
  }

  function ReadValue(kind: Kind, bytes: seq<Byte>): (r: ReadValueResult)
    ensures r.Value? ==> 0 < r.size <= |bytes|
    decreases |bytes|, 0
  {
    if WireType(kind) == 0 then
      match Varint.Decode(bytes, 10)
      case Unfinished => NoValue(Truncated)
      case TooLong => NoValue(BadVarint)
      case Done(raw, size) => Value(Num(Interpret(kind, raw)), size)
    else
      var span := ReadSpan(bytes);
      if span.NoSpan? then NoValue(span.error)
      else
        var data := bytes[span.start..span.start + span.length];
        var size := span.start + span.length;
        match kind
        case Text => if ValidUtf8(data) then Value(Bytes(data), size) else NoValue(BadText)
        case Nested(fields) =>
          var inner := Read(fields, Default(fields), data);
          if inner.Ok? then Value(Msg(inner.value), size) else NoValue(inner.error)
        case _ => Value(Bytes(data), size)
  }

  datatype SkipResult = Skip(size: nat) | NoSkip(error: Failure)

  /** `read_unknown`: how much of the input an unrecognised field's payload takes. */
  function SkipUnknown(tag: nat, bytes: seq<Byte>): (r: SkipResult)
    ensures r.Skip? ==> r.size <= |bytes|
  {
    match tag % 8
    case 0 =>
      (match Varint.Decode(bytes, 10)
       case Unfinished => NoSkip(Truncated)
       case TooLong => NoSkip(BadVarint)
       case Done(_, size) => Skip(size))
    case 1 => if |bytes| < 8 then NoSkip(Truncated) else Skip(8)
    case 2 =>
      var span := ReadSpan(bytes);
      if span.Span? then Skip(span.start + span.length) else NoSkip(span.error)
    case 5 => if |bytes| < 4 then NoSkip(Truncated) else Skip(4)
    case _ => NoSkip(BadWireType)
  }

  /** The field a tag selects, or `|schema|`. */
  function Find(schema: Schema, tag: nat): (i: nat)
    ensures i <= |schema|
    ensures i < |schema| ==> Tag(schema[i]) == tag
    ensures forall j :: 0 <= j < i ==> Tag(schema[j]) != tag
  {
    if schema == [] || Tag(schema[0]) == tag then 0 else 1 + Find(schema[1..], tag)
  }

  /** A repeated field collects its values; any other keeps the last one. */
  function Store(schema: Schema, m: Message, i: nat, v: Value): (r: Message)
    requires i < |schema| == |m|
    ensures |r| == |m|
  {
    m[i := Slot(if schema[i].presence.Repeated? then m[i].values + [v] else [v])]
  }

  datatype FieldRead = Next(message: Message, size: nat) | Stop(error: Failure)

  /** One turn of the `from_reader` loop: a tag, and the field it announces. */
  function ReadOne(schema: Schema, m: Message, bytes: seq<Byte>): (r: FieldRead)
    requires |m| == |schema| && bytes != []
    ensures r.Next? ==> |r.message| == |schema| && 0 < r.size <= |bytes|
    decreases |bytes|, 1
  {
    match Varint.Decode(bytes, 10)
    case Unfinished => Stop(Truncated)
    case TooLong => Stop(BadVarint)
    case Done(raw, size) =>
      var tag := raw % TWO32;
      var i := Find(schema, tag);
      if i < |schema| then
        var v := ReadValue(schema[i].kind, bytes[size..]);
        if v.Value? then Next(Store(schema, m, i, v.value), size + v.size) else Stop(v.error)
      else
        var skip := SkipUnknown(tag, bytes[size..]);
        if skip.Skip? then Next(m, size + skip.size) else Stop(skip.error)
  }

  /** `from_reader`, started from a partly filled message. */
  function Read(schema: Schema, m: Message, bytes: seq<Byte>): (r: Result<Message, Failure>)
    requires |m| == |schema|
    ensures r.Ok? ==> |r.value| == |schema|
    decreases |bytes|, 2
  {
    if bytes == [] then Ok(m)
    else
      match ReadOne(schema, m, bytes)
      case Stop(error) => Err(error)
      case Next(next, size) => Read(schema, next, bytes[size..])
  }

  function Decode(schema: Schema, bytes: seq<Byte>): Result<Message, Failure> {
    Read(schema, Default(schema), bytes)
  }
}
