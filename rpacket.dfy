/** The router packet: a physical frame and its metadata
    (refactor/packets.go, rpacket). */
module RPackets {
  import opened Common
  import opened Framing
  import opened LoRaWAN
  import opened Collaborators

  /** The direction tag written as the first block: 1 for the uplink
      message types, 2 for the downlink ones, none for RFU and Proprietary. */
  function DirectionTag(t: MType): (tag: Option<Byte>)
    ensures tag == Some(1) <==> IsUplink(t)
    ensures tag == Some(2) <==> IsDownlink(t)
    ensures tag.None? <==> !IsUplink(t) && !IsDownlink(t)
  {
    match t
    case JoinRequest | UnconfirmedDataUp | ConfirmedDataUp => Some(1)
    case JoinAccept | UnconfirmedDataDown | ConfirmedDataDown => Some(2)
    case RFU | Proprietary => None
  }

  /** The rpacket struct; its value-receiver methods are its members. */
  datatype RPacket = RPacket(metadata: Metadata, payload: PHYPayload)
  {
    /** The frame's MAC payload is present and of the data kind. */
    predicate CarriesMACPayload()
    {
      payload.macPayload.Some? && payload.macPayload.value.MACPayload?
    }

    /** The device identifier: an 8-byte EUI whose last four bytes are the
        frame header's device address. */
    function DevEUI(): (devEUI: EUI64)
      requires CarriesMACPayload()
      ensures devEUI[..4] == [0, 0, 0, 0]
      ensures devEUI[4..] == payload.macPayload.value.fhdr.devAddr
    {
      var zero: EUI64 := [0, 0, 0, 0, 0, 0, 0, 0];
      zero[..4] + CopyInto(zero[4..], payload.macPayload.value.fhdr.devAddr)
    }

    /** Three blocks: the direction tag, the metadata JSON, the frame bytes. */
    function MarshalBinary(c: Codecs): Result<Bytes, Error>
    {
      match DirectionTag(payload.mhdr.mtype)
      case None => Err(Failure(Implementation))
      case Some(mtype) =>
        match c.marshalJSON(metadata)
        case None => Err(Failure(Structural))
        case Some(dataMetadata) =>
          match c.marshalFrame(payload)
          case None => Err(Failure(Structural))
          case Some(dataPayload) => PassOn(EncodeBlocks([], [[mtype], dataMetadata, dataPayload]))
    }
  }

  /** NewRPacket: accept only a frame whose MAC payload is of the data kind. */
  function NewRPacket(payload: PHYPayload, metadata: Metadata): (r: Result<RPacket, Error>)
    ensures r.Ok? <==> payload.macPayload.Some? && payload.macPayload.value.MACPayload?
    ensures r.Err? ==> r.error == Failure(Structural)
    ensures r.Ok? ==> r.value.payload == payload && r.value.metadata == metadata
  {
    var packet := RPacket(metadata, payload);
    if payload.macPayload.None? then Err(Failure(Structural))
    else if !payload.macPayload.value.MACPayload? then Err(Failure(Structural))
    else Ok(packet)
  }

  /** Where the encoding fails, it fails with the source's error kinds; where
      it succeeds, it is exactly the three blocks, in order. */
  lemma MarshalLayout(p: RPacket, c: Codecs)
    ensures DirectionTag(p.payload.mhdr.mtype).None? ==> p.MarshalBinary(c) == Err(Failure(Implementation))
    ensures DirectionTag(p.payload.mhdr.mtype).Some? && c.marshalJSON(p.metadata).None? ==>
              p.MarshalBinary(c) == Err(Failure(Structural))
    ensures DirectionTag(p.payload.mhdr.mtype).Some? && c.marshalJSON(p.metadata).Some? &&
            c.marshalFrame(p.payload).None? ==>
              p.MarshalBinary(c) == Err(Failure(Structural))
    ensures DirectionTag(p.payload.mhdr.mtype).Some? && c.marshalJSON(p.metadata).Some? &&
            c.marshalFrame(p.payload).Some? &&
            (|c.marshalJSON(p.metadata).value| > MAX_BLOCK || |c.marshalFrame(p.payload).value| > MAX_BLOCK) ==>
              p.MarshalBinary(c) == Err(Framing(TooLong))
    ensures p.MarshalBinary(c).Ok? <==>
              DirectionTag(p.payload.mhdr.mtype).Some? && c.marshalJSON(p.metadata).Some? &&
              c.marshalFrame(p.payload).Some? && |c.marshalJSON(p.metadata).value| <= MAX_BLOCK &&
              |c.marshalFrame(p.payload).value| <= MAX_BLOCK
    ensures p.MarshalBinary(c).Ok? ==>
              DecodeBlocks(p.MarshalBinary(c).value) ==
              Ok([[DirectionTag(p.payload.mhdr.mtype).value], c.marshalJSON(p.metadata).value, c.marshalFrame(p.payload).value])
  {
    var tag := DirectionTag(p.payload.mhdr.mtype);
    if tag.Some? && c.marshalJSON(p.metadata).Some? && c.marshalFrame(p.payload).Some? {
      var bs := [[tag.value], c.marshalJSON(p.metadata).value, c.marshalFrame(p.payload).value];
      EncodeBlocksFrames([], bs);
      assert Writable(bs) <==> |bs[1]| <= MAX_BLOCK && |bs[2]| <= MAX_BLOCK;
      if Writable(bs) {
        assert [] + Frames(bs) == Frames(bs);
        DecodeFrames(bs);
      }
    }
  }

  /** UnmarshalBinary reads the first byte of the first block; the source
      fails at run time when that block can be read but is empty. */
  predicate TagReadable(data: Bytes)
  {
    ReadNext(data).Next? ==> |ReadNext(data).block| > 0
  }

  /** What `rpacket.UnmarshalBinary(data)` leaves in a receiver that held
      `p`, and the error it returns. A metadata or frame decode that fails
      leaves the value the source had put in place before the decode. */
  function UnmarshalEffect(c: Codecs, p: RPacket, data: Bytes): (RPacket, Option<Error>)
    requires TagReadable(data)
  {
    var (tag, s1) := ReadStep(Buffer(data, None));
    var isUp := tag.Some? && tag.value[0] == 1;
    var (dm, s2) := ReadStep(s1);
    var dataMetadata := if dm.Some? then dm.value else [];
    var (dp, s3) := ReadStep(s2);
    var dataPayload := if dp.Some? then dp.value else [];
    if s3.err.Some? then (p, Some(Failure(Structural)))
    else
      match c.unmarshalJSON(dataMetadata)
      case None => (RPacket(ZERO_METADATA, p.payload), Some(Failure(Structural)))
      case Some(m) =>
        match c.unmarshalFrame(dataPayload, isUp)
        case None => (RPacket(m, EMPTY_PHY_PAYLOAD), Some(Failure(Structural)))
        case Some(f) => (RPacket(m, f), None)
  }

  /** Every failure of UnmarshalBinary is Structural. A framing failure
      leaves the receiver untouched; otherwise the metadata is decoded from
      the second block and the frame from the third, in uplink mode exactly
      when the tag's first byte is 1. */
  lemma UnmarshalOutcome(c: Codecs, p: RPacket, data: Bytes)
    requires TagReadable(data)
    ensures UnmarshalEffect(c, p, data).1.Some? ==> UnmarshalEffect(c, p, data).1 == Some(Failure(Structural))
    ensures ReadBlocks(data, 3).Err? ==> UnmarshalEffect(c, p, data) == (p, Some(Failure(Structural)))
    ensures ReadBlocks(data, 3).Ok? ==>
              var bs := ReadBlocks(data, 3).value;
              |bs[0]| > 0 &&
              (UnmarshalEffect(c, p, data).1.None? <==>
                 c.unmarshalJSON(bs[1]).Some? && c.unmarshalFrame(bs[2], bs[0][0] == 1).Some?) &&
              (UnmarshalEffect(c, p, data).1.None? ==>
                 UnmarshalEffect(c, p, data).0 ==
                 RPacket(c.unmarshalJSON(bs[1]).value, c.unmarshalFrame(bs[2], bs[0][0] == 1).value))
  {
    ThreeReads(data);
  }

  /** Decoding what MarshalBinary produced restores the packet, whatever the
      receiver held before, given the two codecs' own round trips. */
  lemma UnmarshalMarshal(c: Codecs, p: RPacket, q: RPacket)
    requires JSONRoundTrips(c) && FrameRoundTrips(c)
    requires p.MarshalBinary(c).Ok?
    ensures TagReadable(p.MarshalBinary(c).value)
    ensures UnmarshalEffect(c, q, p.MarshalBinary(c).value) == (p, None)
  {
    var tag := DirectionTag(p.payload.mhdr.mtype).value;
    var j := c.marshalJSON(p.metadata).value;
    var f := c.marshalFrame(p.payload).value;
    var bs: seq<Bytes> := [[tag], j, f];
    MarshalLayout(p, c);
    EncodeBlocksFrames([], bs);
    var data := p.MarshalBinary(c).value;
    assert data == Frames(bs) + [];
    ReadFrames(bs, []);
    ReadFrames(bs[1..], []);
    ReadFrames(bs[2..], []);
    assert bs[1..][1..] == bs[2..];
    var none: seq<Bytes> := [];
    assert bs[2..][1..] == none;
    ReadFrame([tag], Frames(bs[1..]));
  }

  /** The `*rpacket` receiver of UnmarshalBinary. */
  class RPacketRef {
    var metadata: Metadata
    var payload: PHYPayload

    function Value(): RPacket
      reads this
    {
      RPacket(metadata, payload)
    }

    constructor (p: RPacket)
      ensures Value() == p
    {
      metadata := p.metadata;
      payload := p.payload;
    }

    method UnmarshalBinary(c: Codecs, data: Bytes) returns (err: Option<Error>)
      requires TagReadable(data)
      modifies this
      ensures (Value(), err) == UnmarshalEffect(c, old(Value()), data)
    {
      var isUp := false;
      var rw := new ReadWriter(data);
      var tag := rw.Read();
      if tag.Some? {
        if tag.value[0] == 1 {
          isUp := true;
        }
      }

      var dataMetadata: Bytes := [];
      var dm := rw.Read();
      if dm.Some? {
        dataMetadata := dm.value;
      }

      var dataPayload: Bytes := [];
      var dp := rw.Read();
      if dp.Some? {
        dataPayload := dp.value;
      }

      if rw.err.Some? {
        return Some(Failure(Structural));
      }

      metadata := ZERO_METADATA;
      var m := c.unmarshalJSON(dataMetadata);
      if m.None? {
        return Some(Failure(Structural));
      }
      metadata := m.value;

      payload := EMPTY_PHY_PAYLOAD;
      var f := c.unmarshalFrame(dataPayload, isUp);
      if f.None? {
        return Some(Failure(Structural));
      }
      payload := f.value;
      return None;
    }
  }
}
