/** The join packet: the identity carrier whose payload is the device
    nonce, plus metadata (refactor/packets.go, joinpacket). */
module JoinPackets {
  import opened Common
  import opened Framing
  import opened Collaborators
  import opened BaseHPackets

  datatype JoinPacket = JoinPacket(base: BaseHPacket, metadata: Metadata)
  {
    /** The first two payload bytes; the source indexes them unchecked. */
    function DevNonce(): Common.DevNonce
      requires |base.payload| >= 2
    {
      [base.payload[0], base.payload[1]]
    }

    /** joinpacket defines no encoding of its own: the carrier's is promoted,
        so the metadata is not written. */
    function MarshalBinary(): Result<Bytes, Error>
    {
      base.MarshalBinary()
    }
  }

  /** NewJoinPacket is total: the nonce becomes the carrier's payload. */
  function NewJoinPacket(appEUI: EUI64, devEUI: EUI64, devNonce: Common.DevNonce, metadata: Metadata): JoinPacket
  {
    JoinPacket(BaseHPacket(appEUI, devEUI, devNonce), metadata)
  }

  /** DevNonce gives back the nonce the packet was built with. */
  lemma DevNonceOfNew(appEUI: EUI64, devEUI: EUI64, devNonce: Common.DevNonce, metadata: Metadata)
    ensures |NewJoinPacket(appEUI, devEUI, devNonce, metadata).base.payload| >= 2
    ensures NewJoinPacket(appEUI, devEUI, devNonce, metadata).DevNonce() == devNonce
  {
    var p := NewJoinPacket(appEUI, devEUI, devNonce, metadata);
    assert p.DevNonce() == [devNonce[0], devNonce[1]];
  }

  /** A join packet's encoding never fails, is the same whatever its
      metadata, and decodes to its appEUI, devEUI and nonce. */
  lemma JoinEncoding(appEUI: EUI64, devEUI: EUI64, devNonce: Common.DevNonce, m1: Metadata, m2: Metadata)
    ensures NewJoinPacket(appEUI, devEUI, devNonce, m1).MarshalBinary().Ok?
    ensures NewJoinPacket(appEUI, devEUI, devNonce, m1).MarshalBinary() ==
            NewJoinPacket(appEUI, devEUI, devNonce, m2).MarshalBinary()
    ensures DecodeBlocks(NewJoinPacket(appEUI, devEUI, devNonce, m1).MarshalBinary().value) ==
            Ok([appEUI, devEUI, devNonce])
  {
    BaseLayout(BaseHPacket(appEUI, devEUI, devNonce));
  }
}
