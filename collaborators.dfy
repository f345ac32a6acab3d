/** The two codecs the packet layer calls but does not define: the JSON
    codec of the Metadata value object and the binary codec of lorawan
    frames. They are parameters of every operation that uses them, and the
    round trips the layer relies on are stated as predicates that the
    round-trip lemmas require. */
module Collaborators {
  import opened Common
  import opened LoRaWAN

  /** The gateway and radio telemetry record. The packet layer never looks
      inside it, so its contents are an opaque map of named values. */
  datatype Metadata = Metadata(fields: map<string, string>)

  /** Go's zero value `Metadata{}`. */
  const ZERO_METADATA: Metadata := Metadata(map[])

  /** Each codec returns None where its Go counterpart returns an error;
      `unmarshalFrame`'s flag is the `uplink` of lorawan.NewPHYPayload. */
  datatype Codecs = Codecs(
    marshalJSON: Metadata -> Option<Bytes>,
    unmarshalJSON: Bytes -> Option<Metadata>,
    marshalFrame: PHYPayload -> Option<Bytes>,
    unmarshalFrame: (Bytes, bool) -> Option<PHYPayload>)

  /** Decoding the JSON of a metadata value gives that value back. */
  ghost predicate JSONRoundTrips(c: Codecs)
  {
    forall m :: c.marshalJSON(m).Some? ==> c.unmarshalJSON(c.marshalJSON(m).value) == Some(m)
  }

  /** Decoding the bytes of a frame, in the direction its message type
      belongs to, gives that frame back. */
  ghost predicate FrameRoundTrips(c: Codecs)
  {
    forall f :: c.marshalFrame(f).Some? ==>
      c.unmarshalFrame(c.marshalFrame(f).value, IsUplink(f.mhdr.mtype)) == Some(f)
  }
}
