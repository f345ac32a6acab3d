/** Vocabulary shared by the packet layer: bytes, the fixed-size LoRaWAN
    identifiers, Go's `copy` into a fixed-size array, and the errors the
    layer returns. */
module Common {

  type Byte = b: int | 0 <= b < 256
  type Bytes = seq<Byte>

  /** lorawan.EUI64: an 8-byte identifier (application or device). */
  type EUI64 = s: Bytes | |s| == 8 witness [0, 0, 0, 0, 0, 0, 0, 0]

  /** lorawan.DevAddr: the 4-byte device address of a frame header. */
  type DevAddr = s: Bytes | |s| == 4 witness [0, 0, 0, 0]

  /** The 2-byte device nonce of a join request. */
  type DevNonce = s: Bytes | |s| == 2 witness [0, 0]

  /** lorawan.AES128Key: a 16-byte key. */
  type AES128Key = s: Bytes | |s| == 16
    witness [0, 0, 0, 0, 0, 0, 0, 0, 0, 0, 0, 0, 0, 0, 0, 0]

  /** Go's uint32. */
  type Uint32 = n: int | 0 <= n < 0x1_0000_0000

  datatype Option<+T> = None | Some(value: T)

  datatype Result<+T, +E> = Ok(value: T) | Err(error: E)

  /** The nature given to errors.New by this layer. */
  datatype ErrorKind = Structural | Implementation

  /** The errors of the length-prefixed readwriter: reading from an empty
      buffer, a prefix or body cut short, a block too long for its prefix. */
  datatype FramingError = EndOfStream | Truncated | TooLong

  /** An error as a packet operation returns it: one it raises itself with
      errors.New (whatever it wraps), or a readwriter error passed on as is. */
  datatype Error = Failure(kind: ErrorKind) | Framing(cause: FramingError)

  /** Go's `copy(dst[:], src)` for a fixed-size array `dst`: the first
      min(|dst|, |src|) bytes come from `src`, the others keep their value. */
  function CopyInto(dst: Bytes, src: Bytes): (r: Bytes)
    ensures |r| == |dst|
    ensures forall i :: 0 <= i < |r| ==> r[i] == (if i < |src| then src[i] else dst[i])
    ensures |src| == |dst| ==> r == src
  {
    if |src| < |dst| then src + dst[|src|..] else src[..|dst|]
  }
}
