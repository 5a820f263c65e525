/** The generated readers and writers as loops over a byte stream. */
module McsCodec {
  import opened Types
  import opened Protobuf
  import opened ProtobufProofs
  import Varint

  class Writer {
    var out: seq<Byte>

    constructor ()
      ensures out == []
    {
      out := [];
    }

    method WriteBytes(bytes: seq<Byte>)
      modifies this
      ensures out == old(out) + bytes
    {
      out := out + bytes;
    }

    method WriteVarint(n: nat)
      modifies this
      ensures out == old(out) + Varint.Encode(n)
    {
      var rest := n;
      while rest >= 128
        invariant out + Varint.Encode(rest) == old(out) + Varint.Encode(n)
      {
        ghost var before := out;
        out := out + [128 + rest % 128];
        assert before + Varint.Encode(rest) == out + Varint.Encode(rest / 128);
        rest := rest / 128;
      }
      out := out + [rest];
    }

    method WriteValue(kind: Kind, v: Value)
      requires ValueOk(kind, v)
      modifies this
      ensures out == old(out) + EncodeValue(kind, v)
      decreases v
    {
      ghost var before := out;
      match v
      case Num(n) =>
        WriteVarint(AsU64(n));
      case Bytes(bytes) =>
        WriteVarint(|bytes|);
        WriteBytes(bytes);
        assert out == before + (Varint.Encode(|bytes|) + bytes);
      case Msg(slots) =>
        WriteNested(kind.fields, slots);
    }

    method WriteNested(schema: Schema, m: Message)
      requires MessageOk(schema, m)
      modifies this
      ensures out == old(out) + (Varint.Encode(Size(schema, m)) + Encode(schema, m))
      decreases m, |schema| + 1
    {
      WriteVarint(Size(schema, m));
      WriteMessage(schema, m);
    }

    method WriteField(f: Field, values: seq<Value>)
      requires forall j :: 0 <= j < |values| ==> ValueOk(f.kind, values[j])
      modifies this
      ensures out == old(out) + EncodeField(f, values)
      decreases values
    {
      assert values[0..] == values;
      for j := 0 to |values|
        invariant out + EncodeField(f, values[j..]) == old(out) + EncodeField(f, values)
      {
        ghost var before := out;
        assert values[j..][1..] == values[j + 1..] && values[j..][0] == values[j];
        WriteVarint(Tag(f));
        WriteValue(f.kind, values[j]);
        assert out == before + (Varint.Encode(Tag(f)) + EncodeValue(f.kind, values[j]));
      }
      assert values[|values|..] == [];
    }

    method WriteMessage(schema: Schema, m: Message)
      requires MessageOk(schema, m)
      modifies this
      ensures out == old(out) + Encode(schema, m)
      decreases m, |schema|
    {
      assert schema[0..] == schema && m[0..] == m;
      for i := 0 to |schema|
        invariant MessageOk(schema[i..], m[i..])
        invariant out + Encode(schema[i..], m[i..]) == old(out) + Encode(schema, m)
      {
        EncodeSplits(schema, m, i);
        ghost var before := out;
        WriteField(schema[i], m[i].values);
        assert out + Encode(schema[i + 1..], m[i + 1..])
            == before + (EncodeField(schema[i], m[i].values) + Encode(schema[i + 1..], m[i + 1..]));
      }
      assert m[|schema|..] == [];
    }
  }

  /** `from_reader`: one field a turn until the reader is at its end. */
  method FromReader(schema: Schema, bytes: seq<Byte>) returns (r: Result<Message, Failure>)
    ensures r == Decode(schema, bytes)
  {
    var msg := Default(schema);
    var unread := bytes;
    while unread != []
      invariant |msg| == |schema| && Read(schema, msg, unread) == Decode(schema, bytes)
      decreases |unread|
    {
      var one := ReadOne(schema, msg, unread);
      if one.Stop? {
        return Err(one.error);
      }
      msg := one.message;
      unread := unread[one.size..];
    }
    r := Ok(msg);
  }
}
