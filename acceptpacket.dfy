/** The accept packet: the identity carrier plus a network session key
    (refactor/packets.go, acceptpacket). */
module AcceptPackets {
  import opened Common
  import opened Framing
  import opened BaseHPackets

  datatype AcceptPacket = AcceptPacket(base: BaseHPacket, nwkSKey: AES128Key)
  {
    /** The carrier's three blocks, then the key as a fourth framed block. */
    function MarshalBinary(): Result<Bytes, Error>
    {
      match base.MarshalBinary()
      case Err(_) => Err(Failure(Structural))
      case Ok(data) => PassOn(EncodeBlocks(data, [nwkSKey]))
    }
  }

  /** NewAcceptPacket refuses an empty payload and otherwise keeps its
      arguments as they are. */
  function NewAcceptPacket(appEUI: EUI64, devEUI: EUI64, payload: Bytes, nwkSKey: AES128Key): (r: Result<AcceptPacket, Error>)
    ensures r.Ok? <==> |payload| > 0
    ensures r.Err? ==> r.error == Failure(Structural)
    ensures r.Ok? ==> r.value.base == BaseHPacket(appEUI, devEUI, payload) && r.value.nwkSKey == nwkSKey
  {
    if |payload| == 0 then Err(Failure(Structural))
    else Ok(AcceptPacket(BaseHPacket(appEUI, devEUI, payload), nwkSKey))
  }

  /** The encoding fails only on a payload too long for its length prefix,
      and is otherwise exactly four blocks: appEUI, devEUI, payload, key. */
  lemma AcceptLayout(p: AcceptPacket)
    ensures p.MarshalBinary().Ok? <==> |p.base.payload| <= MAX_BLOCK
    ensures p.MarshalBinary().Err? ==> p.MarshalBinary().error == Failure(Structural)
    ensures p.MarshalBinary().Ok? ==>
              DecodeBlocks(p.MarshalBinary().value) == Ok([p.base.appEUI, p.base.devEUI, p.base.payload, p.nwkSKey])
  {
    BaseLayout(p.base);
    if |p.base.payload| <= MAX_BLOCK {
      var three := [p.base.appEUI, p.base.devEUI, p.base.payload];
      EncodeBlocksFrames(Frames(three), [p.nwkSKey]);
      FramesAppend(three, [p.nwkSKey]);
      assert three + [p.nwkSKey] == [p.base.appEUI, p.base.devEUI, p.base.payload, p.nwkSKey];
      DecodeFrames(three + [p.nwkSKey]);
    }
  }

  /** What `acceptpacket.UnmarshalBinary(data)` leaves in a receiver that
      held `p`, and the readwriter error it returns as is. */
  function AcceptUnmarshalEffect(p: AcceptPacket, data: Bytes): (AcceptPacket, Option<FramingError>)
  {
    var (b1, s1) := ReadStep(Buffer(data, None));
    var appEUI: EUI64 := if b1.Some? then CopyInto(p.base.appEUI, b1.value) else p.base.appEUI;
    var (b2, s2) := ReadStep(s1);
    var devEUI: EUI64 := if b2.Some? then CopyInto(p.base.devEUI, b2.value) else p.base.devEUI;
    var (b3, s3) := ReadStep(s2);
    var payload := if b3.Some? then b3.value else p.base.payload;
    var (b4, s4) := ReadStep(s3);
    var nwkSKey: AES128Key := if b4.Some? then CopyInto(p.nwkSKey, b4.value) else p.nwkSKey;
    (AcceptPacket(BaseHPacket(appEUI, devEUI, payload), nwkSKey), s4.err)
  }

  /** The error returned is the readwriter's own, unwrapped: none when four
      blocks can be read, otherwise the failure of the first read that
      failed. */
  lemma AcceptUnmarshalError(p: AcceptPacket, data: Bytes)
    ensures AcceptUnmarshalEffect(p, data).1 ==
              match ReadBlocks(data, 4)
              case Ok(_) => None
              case Err(e) => Some(e)
  {
    FourReads(data);
  }

  /** Decoding what MarshalBinary produced restores all four fields,
      whatever the receiver held before. */
  lemma AcceptUnmarshalMarshal(p: AcceptPacket, q: AcceptPacket)
    requires p.MarshalBinary().Ok?
    ensures AcceptUnmarshalEffect(q, p.MarshalBinary().value) == (p, None)
  {
    AcceptLayout(p);
    var bs: seq<Bytes> := [p.base.appEUI, p.base.devEUI, p.base.payload, p.nwkSKey];
    var data := p.MarshalBinary().value;
    DecodedIsFrames(data);
    assert data == Frames(bs) + [];
    ReadFrames(bs, []);
    ReadFrames(bs[1..], []);
    ReadFrames(bs[2..], []);
    ReadFrames(bs[3..], []);
    assert bs[1..][1..] == bs[2..] && bs[2..][1..] == bs[3..];
  }

  /** The `*acceptpacket` receiver of UnmarshalBinary, with the fields of
      the basehpacket it points to. */
  class AcceptPacketRef {
    var appEUI: EUI64
    var devEUI: EUI64
    var payload: Bytes
    var nwkSKey: AES128Key

    function Value(): AcceptPacket
      reads this
    {
      AcceptPacket(BaseHPacket(appEUI, devEUI, payload), nwkSKey)
    }

    constructor (p: AcceptPacket)
      ensures Value() == p
    {
      appEUI := p.base.appEUI;
      devEUI := p.base.devEUI;
      payload := p.base.payload;
      nwkSKey := p.nwkSKey;
    }

    method UnmarshalBinary(data: Bytes) returns (err: Option<FramingError>)
      modifies this
      ensures (Value(), err) == AcceptUnmarshalEffect(old(Value()), data)
    {
      var rw := new ReadWriter(data);
      var b := rw.Read();
      if b.Some? {
        appEUI := CopyInto(appEUI, b.value);
      }
      b := rw.Read();
      if b.Some? {
        devEUI := CopyInto(devEUI, b.value);
      }
      b := rw.Read();
      if b.Some? {
        payload := b.value;
      }
      b := rw.Read();
      if b.Some? {
        nwkSKey := CopyInto(nwkSKey, b.value);
      }
      return rw.err;
    }
  }
}
