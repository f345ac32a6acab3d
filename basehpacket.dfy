/** The identity carrier shared by the handler, join and accept packets:
    application EUI, device EUI and a raw payload (refactor/packets.go,
    basehpacket). */
module BaseHPackets {
  import opened Common
  import opened Framing

  datatype BaseHPacket = BaseHPacket(appEUI: EUI64, devEUI: EUI64, payload: Bytes)
  {
    /** Three blocks: appEUI, devEUI, payload. */
    function MarshalBinary(): Result<Bytes, Error>
    {
      PassOn(EncodeBlocks([], [appEUI, devEUI, payload]))
    }
  }

  /** The carrier's encoding fails only on a payload too long for its length
      prefix, and is otherwise the frames of its three fields, in order. */
  lemma BaseLayout(b: BaseHPacket)
    ensures Writable([b.appEUI, b.devEUI, b.payload]) <==> |b.payload| <= MAX_BLOCK
    ensures b.MarshalBinary().Ok? <==> |b.payload| <= MAX_BLOCK
    ensures b.MarshalBinary().Err? ==> b.MarshalBinary().error == Framing(TooLong)
    ensures b.MarshalBinary().Ok? ==>
              b.MarshalBinary().value == Frames([b.appEUI, b.devEUI, b.payload]) &&
              DecodeBlocks(b.MarshalBinary().value) == Ok([b.appEUI, b.devEUI, b.payload])
  {
    var bs := [b.appEUI, b.devEUI, b.payload];
    assert Writable(bs) <==> |b.payload| <= MAX_BLOCK;
    EncodeBlocksFrames([], bs);
    if Writable(bs) {
      assert [] + Frames(bs) == Frames(bs);
      DecodeFrames(bs);
    }
  }
}
