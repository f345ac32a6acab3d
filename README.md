# LoRaWAN packet layer, modelled in Dafny

This project models the packet layer of a LoRaWAN network server
(`refactor/packets.go`). Six packet kinds travel between the server's tiers:

- the **router packet** (`rpacket`): a physical LoRaWAN frame plus gateway metadata;
- the **broker packet** (`bpacket`): a router packet narrowed to data frames that carry exactly one opaque payload;
- the **handler packet** (`hpacket`): application EUI, device EUI, raw payload and metadata;
- the **application packet** (`apacket`): a payload plus one metadata entry per gateway that heard it;
- the **join packet** and the **accept packet**: the identity carrier (`basehpacket`) with a device nonce or a network session key.

Every packet kind is a Dafny `datatype`, and the Go value-receiver methods
are its member functions. `UnmarshalBinary` has a `*packet` receiver and
updates its fields in place, so it is a method of a class that holds that
struct's fields (`RPacketRef`, `HPacketRef`, `APacketRef`, `AcceptPacketRef`).
The class's `Value()` is the packet it currently holds. Each of these methods
is proved equal to a pure effect function
(`UnmarshalEffect`, `HUnmarshalEffect`, `AUnmarshalEffect`,
`AcceptUnmarshalEffect`). Lemmas then state what that function does:

- the error kinds it returns;
- what a failure leaves behind;
- the round trip with the matching encoder.

`APacket.MarshalBinary` keeps the source's loop over the metadata entries
and is proved equal to the function `Encoding`.

Modules:

- **`Common`**: bytes, fixed-width identifiers, `Option`/`Result`, the error kinds, and Go's `copy`.
- **`Framing`**: the sequential readwriter the packets are framed with, `utils/readwriter`.
  - Its source is not part of this model, so its layout is fixed here: each block is a 2-byte big-endian length, then the block's bytes.
  - It has three errors: end of stream, truncated block, and block too long to write.
  - The first error is sticky.
  - The module gives the block-level round trip (`DecodeFrames`) and its converse (`DecodedIsFrames`).
- **`LoRaWAN`**: the physical frame (MHDR message type, MAC payload, frame header, MIC) as far as the packet layer looks into it.
- **`Collaborators`**: the metadata value and the two codecs the layer calls but does not define.
  - The two codecs are the metadata JSON codec and the binary frame codec.
  - Both are parameters (`Codecs`), so the model does not depend on how they are implemented.
  - Their round trips are the predicates `JSONRoundTrips` and `FrameRoundTrips`, which the packet round-trip lemmas require.
- **`RPackets`, `BPackets`, `HPackets`, `APackets`, `JoinPackets`, `AcceptPackets`, `BaseHPackets`**: one module per packet kind.
- **`Findings`**: the broker-packet constructor as written (see "## Findings").

Points of the wire format worth knowing:

- The accept packet's network session key has a fixed width, but it is
  written as a fourth length-prefixed block (`refactor/packets.go:453`) and
  read back as one (line 463).
- The handler packet's application and device EUIs are length-prefixed
  blocks like every other field (lines 491-497).
- The handler packet's decoder never consults the readwriter's error
  (lines 252-263). A block it cannot read leaves its field as it was, and
  only a metadata JSON failure is reported (`HUnmarshalIgnoresFraming`).
- The accept packet's decoder returns the readwriter's error as is, not
  wrapped as a structural error (line 464; `AcceptUnmarshalError`).

## Model

| member | source | states |
|---|---|---|
| `Common.CopyInto` | refactor/packets.go:47-48 | Go's `copy` into a fixed array: the length is kept, the first min(len) bytes come from the source and the rest are unchanged; equal lengths give the source itself |
| `RPackets.DirectionTag` | refactor/packets.go:64-80 | the tag is 1 exactly for the uplink message types, 2 exactly for the downlink ones, and absent for the others |
| `RPackets.NewRPacket` | refactor/packets.go:29-43 | succeeds if and only if the frame has a MAC payload of the data kind; otherwise fails with a Structural error; on success keeps the frame and metadata given |
| `RPackets.RPacket.DevEUI` | refactor/packets.go:46-50 | the device EUI is four zero bytes followed by the frame header's 4-byte device address |
| `RPackets.MarshalLayout` | refactor/packets.go:63-98 | an unsupported message type fails with Implementation, a metadata JSON failure or a frame-codec failure with Structural, an over-long JSON or frame with the readwriter's TooLong passed on; the encoding succeeds exactly when the tag, both codecs and both length prefixes succeed, and is then exactly the three blocks tag, metadata JSON, frame bytes |
| `RPackets.UnmarshalOutcome` | refactor/packets.go:101-134 | every error is Structural; when three blocks cannot be read the receiver is untouched; otherwise it succeeds exactly when the metadata decodes from block two and the frame decodes from block three, in uplink mode exactly when the tag byte is 1, and the receiver then holds those two values |
| `RPackets.UnmarshalMarshal` | refactor/packets.go:63-134 | given round-tripping codecs, decoding any successful encoding restores the packet, whatever the receiver held before |
| `RPackets.RPacketRef.UnmarshalBinary` | refactor/packets.go:101-134 | the receiver's new state and the returned error are those of `UnmarshalEffect` applied to its old state |
| `BPackets.NewBPacket` | refactor/packets.go:160-198 | succeeds if and only if `NewRPacket` does and the FRMPayload is exactly one data entry; otherwise fails with Structural; on success the packet embeds the router packet of the arguments, and `Payload`, `FCnt` and `Commands` give that entry's bytes, the frame counter and the frame header's MAC commands |
| `BPackets.PingScenario` | refactor/packets.go:160-189 | a data uplink with counter 42 and the single payload "ping" is accepted, reports counter 42 and payload "ping", and round-trips through the router encoding |
| `Findings.NewRPacketInterface` | refactor/packets.go:29-43 | the interface value NewRPacket returns always holds a pointer, and it is returned exactly when NewRPacket succeeds |
| `Findings.AsWrittenPanicsOnSuccess` | refactor/packets.go:160-177 | the constructor as written matches the corrected one on every rejected input and panics on every input the corrected one accepts |
| `Findings.PanicWitness` | refactor/packets.go:160-177 | a concrete confirmed data uplink with one data payload is accepted by the corrected constructor and makes the as-written one panic |
| `BaseHPackets.BaseLayout` | refactor/packets.go:491-497 | the carrier's encoding fails, with the readwriter's TooLong, exactly when the payload exceeds one block; otherwise it is the frames of appEUI, devEUI and payload and decodes back to those three |
| `HPackets.NewHPacket` | refactor/packets.go:215-227 | total; keeps both EUIs and the metadata; a nil payload becomes the empty payload and any other payload is kept |
| `HPackets.HLayout` | refactor/packets.go:235-249 | a metadata JSON failure or an over-long payload fails with Structural, an over-long JSON with the readwriter's TooLong; it succeeds exactly when none of these happens, and the encoding is then exactly the four blocks appEUI, devEUI, payload, metadata JSON |
| `HPackets.HUnmarshalErrors` | refactor/packets.go:252-263 | the only error is Structural; when four blocks can be read it is returned exactly when the fourth block is not valid metadata JSON |
| `HPackets.HUnmarshalIgnoresFraming` | refactor/packets.go:252-263 | on input whose first block cannot be read, the carrier is left unchanged and the outcome depends only on whether the JSON codec accepts empty input |
| `HPackets.HUnmarshalMarshal` | refactor/packets.go:235-263 | given a round-tripping JSON codec, decoding any successful encoding restores all four fields, whatever the receiver held before |
| `HPackets.HelloScenario` | refactor/packets.go:215-263 | the packet with EUIs 01..08 and 11..18 and payload "hello" encodes, and decodes back to itself |
| `HPackets.HPacketRef.UnmarshalBinary` | refactor/packets.go:252-263 | the receiver's new state and the returned error are those of `HUnmarshalEffect` applied to its old state |
| `APackets.NewAPacket` | refactor/packets.go:288-294 | succeeds if and only if the payload is non-empty; otherwise fails with Structural; on success keeps payload and metadata |
| `APackets.MarshalEach` | refactor/packets.go:309-315 | the JSON of every entry is produced exactly when every entry marshals; there is then one JSON per entry, in order |
| `APackets.APacket.MarshalBinary` | refactor/packets.go:307-326 | the source's loop over the metadata entries computes exactly `Encoding`: the outer pair of blocks payload and inner, where inner frames each entry's JSON |
| `APackets.ALayout` | refactor/packets.go:307-326 | an entry whose JSON fails or does not fit a block fails with Structural; an over-long payload or inner block fails with the readwriter's TooLong passed on; the encoding succeeds exactly when none of these happens, and then decodes to exactly two outer blocks, the payload and the inner frames, which decode to the entries' JSON in order |
| `APackets.DecodeMetadataBlocks` | refactor/packets.go:342-360 | the inner loop's only error is Structural; it succeeds if and only if the inner bytes are a whole sequence of blocks each of which is valid metadata JSON, and then yields one entry per block, in order |
| `APackets.DecodeMetadataFrames` | refactor/packets.go:309-360 | given a round-tripping JSON codec, the inner loop decodes the frames of the entries' JSON back to exactly those entries; no entries give an empty sequence |
| `APackets.AUnmarshalOutcome` | refactor/packets.go:329-363 | every error is Structural, including a failure to read the two outer blocks; otherwise the payload is the first outer block, and the entries and error are those of the inner loop on the second |
| `APackets.AUnmarshalMarshal` | refactor/packets.go:307-363 | given a round-tripping JSON codec, decoding any successful encoding restores the payload and exactly the original entries, in order, whatever the receiver held before |
| `APackets.APacketRef.UnmarshalBinary` | refactor/packets.go:329-363 | the EOF-terminated loop leaves the receiver and error that `AUnmarshalEffect` gives for its old state; the entries read before an inner failure are kept |
| `JoinPackets.DevNonceOfNew` | refactor/packets.go:385-399 | the payload of a new join packet is long enough for `DevNonce`, which gives back the nonce it was built with |
| `JoinPackets.JoinEncoding` | refactor/packets.go:379-394 | the join packet's promoted encoding never fails, does not depend on the metadata, and decodes to appEUI, devEUI and nonce |
| `AcceptPackets.NewAcceptPacket` | refactor/packets.go:426-439 | succeeds if and only if the payload is non-empty; otherwise fails with Structural; on success keeps both EUIs, the payload and the key |
| `AcceptPackets.AcceptLayout` | refactor/packets.go:447-455 | the encoding fails, with Structural, exactly when the payload exceeds one block; otherwise it is the four blocks appEUI, devEUI, payload, key |
| `AcceptPackets.AcceptUnmarshalError` | refactor/packets.go:458-465 | the returned error is the readwriter's own: none when four blocks can be read, otherwise the first read failure |
| `AcceptPackets.AcceptUnmarshalMarshal` | refactor/packets.go:447-465 | decoding any successful encoding restores all four fields, whatever the receiver held before |
| `AcceptPackets.AcceptPacketRef.UnmarshalBinary` | refactor/packets.go:458-465 | the receiver's new state and the returned error are those of `AcceptUnmarshalEffect` applied to its old state |

## Left out

- `RPackets.RPacketRef.UnmarshalBinary`: requires that a readable first block is non-empty (`TagReadable`). The source indexes `data[0]` of that block unchecked (line 108), which panics on an empty block; the model excludes that input rather than modelling the panic.
- `RPackets.UnmarshalEffect`: carries the same `TagReadable` precondition, for the same reason.
- `RPackets.RPacket.DevEUI`: requires a frame with a MAC payload of the data kind. The source's type assertion (line 48) panics otherwise; `NewRPacket` guarantees it.
- `BPackets.BPacket.Payload`, `BPackets.BPacket.FCnt`, `BPackets.BPacket.Commands`: require what `NewBPacket` establishes. The source's type assertions (lines 181-197) panic otherwise.
- `JoinPackets.JoinPacket.DevNonce`: requires a payload of at least two bytes. The source indexes it unchecked (line 398); `NewJoinPacket` guarantees it.
- `HPackets.HUnmarshalEffect`: the decoded metadata replaces the old metadata. The source decodes into the existing value (line 259), so a real JSON decoder could merge the two.
- Partial decodes: a failed metadata or frame decode leaves `ZERO_METADATA`, the old metadata or `EMPTY_PHY_PAYLOAD`. Whatever a real decoder leaves behind after failing part-way is not modelled, because the codecs are parameters.
- The uplink flag that `lorawan.NewPHYPayload(isUp)` stores in the fresh frame (line 128) is passed to the frame codec, not kept in the `PHYPayload` value.
- The `String()` methods of all packets are debugging output.
- `bpacket.ValidateMIC` delegates to the frame's own cryptographic check. The LoRaWAN library is not part of this model.
- The JSON codec of `Metadata`, the LoRaWAN frame codec and `utils/readwriter` are not part of this model. The codecs are parameters; the readwriter's block layout and error values are fixed here.
- The `*basehpacket` pointer shared by the handler, join and accept packets is held by value, so no aliasing between packets is modelled. No constructor shares it.
- The nil-receiver checks of `rpacket.UnmarshalBinary` and `apacket.UnmarshalBinary` (lines 102-104, 330-332) cannot arise: a Dafny receiver is never null.
- The frame's FCtrl and the frame fields the packet layer does not read are not in `LoRaWAN.FHDR`.
- `bpacket` has no decoder of its own. The `UnmarshalBinary` that `*bpacket` inherits from the embedded router packet is `RPackets.RPacketRef.UnmarshalBinary` applied to that packet, so it is not modelled separately.
- `joinpacket` defines no `UnmarshalBinary`. The model has none either.
- Go's distinction between a nil and an empty payload exists only in `NewHPacket`, where it is modelled as `Option`. Every other payload is a sequence.
- The metadata accessors and the identity accessors (`Metadata()`, `Payload()`, `AppEUI()`, `DevEUI()` of the carrier, `NwkSKey()`) are the datatypes' field selectors.

## Findings

| source | as written | input that shows it | evidently intended | confidence | as-written member | corrected member |
|---|---|---|---|---|---|---|
| refactor/packets.go:176 | `NewBPacket` returns `bpacket{rpacket: packet.(rpacket)}`, but `NewRPacket` (line 42) returns `&packet`, so the interface holds a `*rpacket` and the single-value type assertion panics on every input that passes lines 161-174 | a confirmed data uplink with device address 01 02 03 04, counter 7 and the single data payload 2A (`Findings.PanicWitness`) | assert to `*rpacket` and embed the struct it points to, so that every accepted frame yields a broker packet | not executed | `Findings.NewBPacketAsWritten` (`Findings.AsWrittenPanicsOnSuccess`) | `BPackets.NewBPacket` |
