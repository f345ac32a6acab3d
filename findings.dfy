/** NewBPacket as the source writes it. NewRPacket returns `&packet`
    (refactor/packets.go:42), so the RPacket interface value it gives back
    holds a *rpacket; NewBPacket then asserts that value to the struct type
    rpacket (line 176). A single-value Go type assertion to a type the value
    does not hold panics, so every input that passes the checks of lines
    161-174 ends in a panic instead of a broker packet. */
module Findings {
  import opened Common
  import opened LoRaWAN
  import opened Collaborators
  import opened RPackets
  import opened BPackets

  /** The dynamic type held by an RPacket interface value. */
  datatype RPacketInterface = PointerToRPacket(target: RPacket) | RPacketValue(value: RPacket)

  /** NewRPacket as the interface value it returns: always a pointer. */
  function NewRPacketInterface(payload: PHYPayload, metadata: Metadata): (r: Result<RPacketInterface, Error>)
    ensures r.Ok? ==> r.value.PointerToRPacket?
    ensures r.Ok? <==> NewRPacket(payload, metadata).Ok?
  {
    match NewRPacket(payload, metadata)
    case Err(e) => Err(e)
    case Ok(p) => Ok(PointerToRPacket(p))
  }

  datatype Outcome = Returns(result: Result<BPacket, Error>) | Panics

  /** Lines 160-177 as written, with `packet.(rpacket)` a checked assertion. */
  function NewBPacketAsWritten(payload: PHYPayload, metadata: Metadata): Outcome
  {
    match NewRPacketInterface(payload, metadata)
    case Err(_) => Returns(Err(Failure(Structural)))
    case Ok(packet) =>
      var macPayload := payload.macPayload.value;
      if |macPayload.frmPayload| != 1 then Returns(Err(Failure(Structural)))
      else if !macPayload.frmPayload[0].DataPayload? then Returns(Err(Failure(Structural)))
      else
        match packet
        case RPacketValue(v) => Returns(Ok(BPacket(v)))
        case PointerToRPacket(_) => Panics
  }

  /** The as-written constructor agrees with the intended one on every
      rejected input and panics on every accepted one. */
  lemma AsWrittenPanicsOnSuccess(payload: PHYPayload, metadata: Metadata)
    ensures NewBPacket(payload, metadata).Err? ==>
              NewBPacketAsWritten(payload, metadata) == Returns(NewBPacket(payload, metadata))
    ensures NewBPacket(payload, metadata).Ok? ==> NewBPacketAsWritten(payload, metadata) == Panics
  {
  }

  /** A concrete input: a confirmed data uplink carrying one data payload. */
  lemma PanicWitness(m: Metadata)
    ensures var frame := PHYPayload(MHDR(ConfirmedDataUp),
                                    Some(MACPayload(FHDR([1, 2, 3, 4], 7, []), None, [DataPayload([0x2A])])),
                                    [0, 0, 0, 0]);
            NewBPacket(frame, m).Ok? && NewBPacketAsWritten(frame, m) == Panics
  {
    var frame := PHYPayload(MHDR(ConfirmedDataUp),
                            Some(MACPayload(FHDR([1, 2, 3, 4], 7, []), None, [DataPayload([0x2A])])),
                            [0, 0, 0, 0]);
    AsWrittenPanicsOnSuccess(frame, m);
  }
}
