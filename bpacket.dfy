/** The broker packet: a router packet narrowed to frames that carry exactly
    one opaque data payload (refactor/packets.go, bpacket). */
module BPackets {
  import opened Common
  import opened LoRaWAN
  import opened Collaborators
  import opened RPackets

  /** The bpacket struct, which embeds an rpacket by value. */
  datatype BPacket = BPacket(rpacket: RPacket)
  {
    /** What NewBPacket establishes: a data MAC payload whose FRMPayload is
        exactly one entry, of the data kind. */
    predicate Valid()
    {
      rpacket.CarriesMACPayload() &&
      |rpacket.payload.macPayload.value.frmPayload| == 1 &&
      rpacket.payload.macPayload.value.frmPayload[0].DataPayload?
    }

    function FCnt(): Uint32
      requires rpacket.CarriesMACPayload()
    {
      rpacket.payload.macPayload.value.fhdr.fcnt
    }

    function Payload(): Bytes
      requires Valid()
    {
      rpacket.payload.macPayload.value.frmPayload[0].bytes
    }

    function Commands(): seq<MACCommand>
      requires rpacket.CarriesMACPayload()
    {
      rpacket.payload.macPayload.value.fhdr.fopts
    }
  }

  /** NewBPacket, with the type assertion of line 176 read as intended (see
      module Findings): accept exactly the frames NewRPacket accepts whose
      FRMPayload is a single data entry, and expose that entry, the frame
      counter and the MAC commands of the frame given. */
  function NewBPacket(payload: PHYPayload, metadata: Metadata): (r: Result<BPacket, Error>)
    ensures r.Ok? <==>
              NewRPacket(payload, metadata).Ok? &&
              |payload.macPayload.value.frmPayload| == 1 &&
              payload.macPayload.value.frmPayload[0].DataPayload?
    ensures r.Err? ==> r.error == Failure(Structural)
    ensures r.Ok? ==> r.value.Valid() && r.value.rpacket == RPacket(metadata, payload)
    ensures r.Ok? ==>
              r.value.Payload() == payload.macPayload.value.frmPayload[0].bytes &&
              r.value.FCnt() == payload.macPayload.value.fhdr.fcnt &&
              r.value.Commands() == payload.macPayload.value.fhdr.fopts
  {
    match NewRPacket(payload, metadata)
    case Err(_) => Err(Failure(Structural))
    case Ok(packet) =>
      var macPayload := packet.payload.macPayload.value;
      if |macPayload.frmPayload| != 1 then Err(Failure(Structural))
      else if !macPayload.frmPayload[0].DataPayload? then Err(Failure(Structural))
      else Ok(BPacket(packet))
  }

  /** A data uplink with frame counter 42 and the single payload "ping":
      NewBPacket accepts it, FCnt() is 42, Payload() is "ping", and decoding
      its encoding gives the embedded router packet back. */
  lemma PingScenario(c: Codecs, addr: DevAddr, m: Metadata, mic: MIC, q: RPacket)
    requires JSONRoundTrips(c) && FrameRoundTrips(c)
    ensures var ping: Bytes := [0x70, 0x69, 0x6E, 0x67];
            var frame := PHYPayload(MHDR(UnconfirmedDataUp),
                                    Some(MACPayload(FHDR(addr, 42, []), Some(1), [DataPayload(ping)])), mic);
            var r := NewBPacket(frame, m);
            r.Ok? && r.value.FCnt() == 42 && r.value.Payload() == ping &&
            (r.value.rpacket.MarshalBinary(c).Ok? ==>
               TagReadable(r.value.rpacket.MarshalBinary(c).value) &&
               UnmarshalEffect(c, q, r.value.rpacket.MarshalBinary(c).value) == (r.value.rpacket, None))
  {
    var ping: Bytes := [0x70, 0x69, 0x6E, 0x67];
    var frame := PHYPayload(MHDR(UnconfirmedDataUp),
                            Some(MACPayload(FHDR(addr, 42, []), Some(1), [DataPayload(ping)])), mic);
    var p := RPacket(m, frame);
    assert NewRPacket(frame, m) == Ok(p);
    assert NewBPacket(frame, m) == Ok(BPacket(p));
    if p.MarshalBinary(c).Ok? {
      UnmarshalMarshal(c, p, q);
    }
  }
}
