/** The handler packet: identity carrier plus metadata, independent of the
    physical frame (refactor/packets.go, hpacket). */
module HPackets {
  import opened Common
  import opened Framing
  import opened Collaborators
  import opened BaseHPackets

  /** The hpacket struct; the *basehpacket it points to is held by value. */
  datatype HPacket = HPacket(base: BaseHPacket, metadata: Metadata)
  {
    /** The carrier's three blocks, then the metadata JSON as a fourth. */
    function MarshalBinary(c: Codecs): Result<Bytes, Error>
    {
      match c.marshalJSON(metadata)
      case None => Err(Failure(Structural))
      case Some(dataMetadata) =>
        match base.MarshalBinary()
        case Err(_) => Err(Failure(Structural))
        case Ok(data) => PassOn(EncodeBlocks(data, [dataMetadata]))
    }
  }

  /** NewHPacket never fails; a nil payload (None) becomes an empty one. */
  function NewHPacket(appEUI: EUI64, devEUI: EUI64, payload: Option<Bytes>, metadata: Metadata): (p: HPacket)
    ensures p.base.appEUI == appEUI && p.base.devEUI == devEUI && p.metadata == metadata
    ensures payload.None? ==> p.base.payload == []
    ensures payload.Some? ==> p.base.payload == payload.value
  {
    var bytes := if payload.None? then [] else payload.value;
    HPacket(BaseHPacket(appEUI, devEUI, bytes), metadata)
  }

  /** The encoding fails with Structural on a metadata JSON failure or an
      unframeable payload, passes on the readwriter's error for an
      unframeable JSON, and otherwise holds exactly four blocks:
      appEUI, devEUI, payload, metadata JSON. */
  lemma HLayout(c: Codecs, p: HPacket)
    ensures c.marshalJSON(p.metadata).None? ==> p.MarshalBinary(c) == Err(Failure(Structural))
    ensures c.marshalJSON(p.metadata).Some? && |p.base.payload| > MAX_BLOCK ==>
              p.MarshalBinary(c) == Err(Failure(Structural))
    ensures c.marshalJSON(p.metadata).Some? && |p.base.payload| <= MAX_BLOCK &&
            |c.marshalJSON(p.metadata).value| > MAX_BLOCK ==>
              p.MarshalBinary(c) == Err(Framing(TooLong))
    ensures p.MarshalBinary(c).Ok? <==>
              c.marshalJSON(p.metadata).Some? && |p.base.payload| <= MAX_BLOCK &&
              |c.marshalJSON(p.metadata).value| <= MAX_BLOCK
    ensures p.MarshalBinary(c).Ok? ==>
              DecodeBlocks(p.MarshalBinary(c).value) ==
              Ok([p.base.appEUI, p.base.devEUI, p.base.payload, c.marshalJSON(p.metadata).value])
  {
    BaseLayout(p.base);
    if c.marshalJSON(p.metadata).Some? && |p.base.payload| <= MAX_BLOCK {
      var j := c.marshalJSON(p.metadata).value;
      var three := [p.base.appEUI, p.base.devEUI, p.base.payload];
      EncodeBlocksFrames(Frames(three), [j]);
      if |j| <= MAX_BLOCK {
        FramesAppend(three, [j]);
        assert three + [j] == [p.base.appEUI, p.base.devEUI, p.base.payload, j];
        DecodeFrames(three + [j]);
      }
    }
  }

  /** What `hpacket.UnmarshalBinary(data)` leaves in a receiver that held
      `p`, and the error it returns. The readwriter's error is never
      consulted: a block that cannot be read leaves its field as it was, and
      a missing metadata block is decoded as an empty one. */
  function HUnmarshalEffect(c: Codecs, p: HPacket, data: Bytes): (HPacket, Option<Error>)
  {
    var (b1, s1) := ReadStep(Buffer(data, None));
    var appEUI: EUI64 := if b1.Some? then CopyInto(p.base.appEUI, b1.value) else p.base.appEUI;
    var (b2, s2) := ReadStep(s1);
    var devEUI: EUI64 := if b2.Some? then CopyInto(p.base.devEUI, b2.value) else p.base.devEUI;
    var (b3, s3) := ReadStep(s2);
    var payload := if b3.Some? then b3.value else p.base.payload;
    var (b4, s4) := ReadStep(s3);
    var dataMetadata := if b4.Some? then b4.value else [];
    var base := BaseHPacket(appEUI, devEUI, payload);
    match c.unmarshalJSON(dataMetadata)
    case None => (HPacket(base, p.metadata), Some(Failure(Structural)))
    case Some(m) => (HPacket(base, m), None)
  }

  /** The only error is Structural, and it is returned exactly when the
      metadata decode fails. */
  lemma HUnmarshalErrors(c: Codecs, p: HPacket, data: Bytes)
    ensures HUnmarshalEffect(c, p, data).1.Some? ==> HUnmarshalEffect(c, p, data).1 == Some(Failure(Structural))
    ensures ReadBlocks(data, 4).Ok? ==>
              (HUnmarshalEffect(c, p, data).1.None? <==> c.unmarshalJSON(ReadBlocks(data, 4).value[3]).Some?)
  {
    FourReads(data);
  }

  /** Framing failures are not reported as such: an input whose first block
      cannot be read leaves the carrier untouched and succeeds exactly when
      the metadata codec accepts empty input. */
  lemma HUnmarshalIgnoresFraming(c: Codecs, p: HPacket, data: Bytes)
    requires ReadNext(data).Fail?
    ensures HUnmarshalEffect(c, p, data).0.base == p.base
    ensures HUnmarshalEffect(c, p, data).1 ==
              if c.unmarshalJSON([]).None? then Some(Failure(Structural)) else None
  {
  }

  /** Decoding what MarshalBinary produced restores all four fields,
      whatever the receiver held before. */
  lemma HUnmarshalMarshal(c: Codecs, p: HPacket, q: HPacket)
    requires JSONRoundTrips(c)
    requires p.MarshalBinary(c).Ok?
    ensures HUnmarshalEffect(c, q, p.MarshalBinary(c).value) == (p, None)
  {
    HLayout(c, p);
    var j := c.marshalJSON(p.metadata).value;
    var bs: seq<Bytes> := [p.base.appEUI, p.base.devEUI, p.base.payload, j];
    var data := p.MarshalBinary(c).value;
    DecodedIsFrames(data);
    assert data == Frames(bs) + [];
    ReadFrames(bs, []);
    ReadFrames(bs[1..], []);
    ReadFrames(bs[2..], []);
    ReadFrames(bs[3..], []);
    assert bs[1..][1..] == bs[2..] && bs[2..][1..] == bs[3..];
  }

  /** The handler-packet scenario: appEUI 01..08, devEUI 11..18, payload
      "hello"; encoding then decoding into a fresh receiver restores all four
      fields. */
  lemma HelloScenario(c: Codecs, m: Metadata, q: HPacket)
    requires JSONRoundTrips(c)
    requires c.marshalJSON(m).Some? && |c.marshalJSON(m).value| <= MAX_BLOCK
    ensures var p := NewHPacket([1, 2, 3, 4, 5, 6, 7, 8], [0x11, 0x12, 0x13, 0x14, 0x15, 0x16, 0x17, 0x18],
                                Some([0x68, 0x65, 0x6C, 0x6C, 0x6F]), m);
            p.MarshalBinary(c).Ok? && HUnmarshalEffect(c, q, p.MarshalBinary(c).value) == (p, None)
  {
    var p := NewHPacket([1, 2, 3, 4, 5, 6, 7, 8], [0x11, 0x12, 0x13, 0x14, 0x15, 0x16, 0x17, 0x18],
                        Some([0x68, 0x65, 0x6C, 0x6C, 0x6F]), m);
    HLayout(c, p);
    HUnmarshalMarshal(c, p, q);
  }

  /** The `*hpacket` receiver of UnmarshalBinary, with the fields of the
      basehpacket it points to. */
  class HPacketRef {
    var appEUI: EUI64
    var devEUI: EUI64
    var payload: Bytes
    var metadata: Metadata

    function Value(): HPacket
      reads this
    {
      HPacket(BaseHPacket(appEUI, devEUI, payload), metadata)
    }

    constructor (p: HPacket)
      ensures Value() == p
    {
      appEUI := p.base.appEUI;
      devEUI := p.base.devEUI;
      payload := p.base.payload;
      metadata := p.metadata;
    }

    method UnmarshalBinary(c: Codecs, data: Bytes) returns (err: Option<Error>)
      modifies this
      ensures (Value(), err) == HUnmarshalEffect(c, old(Value()), data)
    {
      var rw := new ReadWriter(data);
      var b := rw.Read();
      if b.Some? {
        appEUI := CopyInto(appEUI, b.value);
      }
      b := rw.Read();
      if b.Some? {
        devEUI := CopyInto(devEUI, b.value);
      }
      b := rw.Read();
      if b.Some? {
        payload := b.value;
      }
      var dataMetadata: Bytes := [];
      b := rw.Read();
      if b.Some? {
        dataMetadata := b.value;
      }
      var m := c.unmarshalJSON(dataMetadata);
      if m.None? {
        return Some(Failure(Structural));
      }
      metadata := m.value;
      return None;
    }
  }
}
