/** Data frames may carry persistent ids that the login check will refuse. */
module LongIds {
  import opened Types
  import opened Utf8
  import opened Protobuf
  import opened ProtobufProofs
  import opened McsMessages
  import opened McsStream
  import opened McsStreamProofs
  import opened FcmListener
  import opened FcmListenerProofs
  import opened Tables
  import A = AckFrames

  function MessageWith(pid: PersistentId): DataMessage {
    DataMessage(None, Some(pid), [], None, None, None, None)
  }

  lemma MessageIsOk(pid: PersistentId)
    requires ValidUtf8(pid)
    ensures DataMessageOk(MessageWith(pid))
  {
  }

  lemma ShortText(f: Field, bytes: seq<Byte>)
    requires FieldOk(f) && ValueOk(f.kind, Bytes(bytes)) && |bytes| < TWO64
    ensures |EncodeField(f, [Bytes(bytes)])| <= |bytes| + 20
  {
    VarintFits(|bytes|);
    A.ShortField(f, [Bytes(bytes)], |bytes| + 10);
  }

  lemma WireIsShort(pid: PersistentId)
    requires ValidUtf8(pid) && |pid| <= 200_000
    ensures DataMessageOk(MessageWith(pid)) && |Wire(MessageWith(pid))| <= MAX_FRAME_BYTES
  {
    MessageIsOk(pid);
    var m := StanzaOf(MessageWith(pid));
    StanzaOk(MessageWith(pid));
    DataMessageStanzaOk();
    forall k | 0 <= k < |DATA_MESSAGE_STANZA|
      ensures SlotOk(DATA_MESSAGE_STANZA[k], m[k])
      ensures |EncodeField(DATA_MESSAGE_STANZA[k], m[k].values)| <= 200_020
    {
      FieldIsShort(DATA_MESSAGE_STANZA[k], m[k].values, pid);
    }
    assert DATA_MESSAGE_STANZA[0..] == DATA_MESSAGE_STANZA && m[0..] == m;
    A.SizeBound(DATA_MESSAGE_STANZA, m, 0, 200_020);
  }

  lemma FieldIsShort(f: Field, values: seq<Value>, pid: PersistentId)
    requires FieldOk(f) && |pid| <= 200_000
    requires values == [] || values == [Bytes([])] || values == [Bytes(pid)]
    requires forall j :: 0 <= j < |values| ==> ValueOk(f.kind, values[j])
    ensures |EncodeField(f, values)| <= 200_020
  {
    if values != [] {
      ShortText(f, values[0].bytes);
    }
  }

  /** A frame whose message has this id comes out of the decoder with it. */
  lemma LongIdArrives(pid: PersistentId)
    requires ValidUtf8(pid) && |pid| <= 200_000
    ensures DataMessageOk(MessageWith(pid)) && DecodeData(Wire(MessageWith(pid))) == Ok(MessageWith(pid))
    ensures var frame := Frame(DATA_MESSAGE_STANZA_TAG, Wire(MessageWith(pid)));
            Drain(FRESH, [Chunk(frame)]) == [Item(Ok(Data(MessageWith(pid))), 1)]
  {
    hide Drain, Wire, DecodeData, DataMessageOk;
    WireIsShort(pid);
    DataMessageRoundTrips(MessageWith(pid));
    var printed := Printed(DATA_MESSAGE_STANZA_TAG, Wire(MessageWith(pid)));
    var script: Script := [Chunk(Frame(printed.tag, printed.body))];
    assert script[1..] == [] && !Fails(script);
    assert Print([printed]) == Frame(printed.tag, printed.body) + Print([]);
    assert Print([printed]) == Input(script);
    assert forall f :: f in [printed] ==> Sendable(f);
    FramesSurviveAnyChunking([printed], script);
    assert Meaning([printed], 0) == [Item(Classify(printed.tag, printed.body), 1)] + Meaning([], 1);
  }

  // One byte more than the login check takes.
  const TOO_LONG: PersistentId := seq(MAX_PERSISTENT_ID_BYTES + 1, _ => 97)

  lemma {:induction false} LettersAreUtf8(n: nat)
    ensures ValidUtf8(seq(n, _ => 97))
  {
    if n > 0 {
      LettersAreUtf8(n - 1);
      assert seq(n, _ => 97)[1..] == seq(n - 1, _ => 97);
    }
  }

  /** One frame is enough: the decoder delivers an id of 4097 bytes, and if the connection ends with that
      frame's acknowledgement, no later login of the task succeeds. */
  lemma OneFrameStopsTheTask(
      cfg: Config, c: nat, st: Listener, sessions: seq<Session>, tables: Db, writes: bool)
    requires c < |sessions| && LoginAccepts(st.queue)
    requires sessions[c] == Session([Turn(Item(Ok(Data(MessageWith(TOO_LONG))), 1), tables, true, writes)])
    ensures DataMessageOk(MessageWith(TOO_LONG))
    ensures FromWire(sessions[c].turns, [Chunk(Frame(DATA_MESSAGE_STANZA_TAG, Wire(MessageWith(TOO_LONG))))])
    ensures var end := SessionAfter(cfg, c, st, sessions[c]).0; Sessions(cfg, end, sessions, c + 1) == end
  {
    hide Drain, Wire, SessionAfter, Sessions;
    LettersAreUtf8(MAX_PERSISTENT_ID_BYTES + 1);
    LongIdArrives(TOO_LONG);
    LongIdStopsTheTask(cfg, c, st, sessions);
    var turns := sessions[c].turns;
    var ids := NewIds(st.queue, turns, 0);
    assert TOO_LONG !in st.queue;
    assert NewIds(LastOf(st.queue + [TOO_LONG], MAX_ACK_HISTORY), turns, 1) == [];
    assert ids == [TOO_LONG];
    assert |ids[0]| > MAX_PERSISTENT_ID_BYTES;
    assert LongIdLingers(ids);
  }
}
