/** The shape of a LoRaWAN physical frame as github.com/brocaar/lorawan
    exposes it to the packet layer, and the direction of each message type
    under the LoRaWAN 1.0 specification. The frame codec itself is not here:
    it is a collaborator (see module Collaborators). */
module LoRaWAN {
  import opened Common

  /** The eight values of the MHDR message type field. */
  datatype MType =
    | JoinRequest
    | JoinAccept
    | UnconfirmedDataUp
    | UnconfirmedDataDown
    | ConfirmedDataUp
    | ConfirmedDataDown
    | RFU
    | Proprietary

  /** Message types sent by an end device. */
  predicate IsUplink(t: MType)
  {
    t == JoinRequest || t == UnconfirmedDataUp || t == ConfirmedDataUp
  }

  /** Message types sent by the network. */
  predicate IsDownlink(t: MType)
  {
    t == JoinAccept || t == UnconfirmedDataDown || t == ConfirmedDataDown
  }

  datatype MHDR = MHDR(mtype: MType)

  datatype MACCommand = MACCommand(cid: Byte, payload: Bytes)

  /** The frame header: device address, frame counter and the MAC commands
      piggybacked in FOpts. */
  datatype FHDR = FHDR(devAddr: DevAddr, fcnt: Uint32, fopts: seq<MACCommand>)

  /** The lorawan.Payload kinds: the MAC payload of a data frame (with its
      FRMPayload entries, themselves payloads), the two join payloads, and
      the opaque application data payload. */
  datatype Payload =
    | MACPayload(fhdr: FHDR, fport: Option<Byte>, frmPayload: seq<Payload>)
    | JoinRequestPayload(appEUI: EUI64, devEUI: EUI64, devNonce: DevNonce)
    | JoinAcceptPayload(raw: Bytes)
    | DataPayload(bytes: Bytes)

  type MIC = s: Bytes | |s| == 4 witness [0, 0, 0, 0]

  /** A physical frame; `macPayload` is None where the Go field is nil. */
  datatype PHYPayload = PHYPayload(mhdr: MHDR, macPayload: Option<Payload>, mic: MIC)

  /** `lorawan.NewPHYPayload(uplink)` before any decoding: Go's zero MHDR
      (message type 0, JoinRequest), no MAC payload and a zero MIC.
      The direction flag it records is kept by the codec, not here. */
  const EMPTY_PHY_PAYLOAD: PHYPayload := PHYPayload(MHDR(JoinRequest), None, [0, 0, 0, 0])
}
