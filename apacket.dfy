/** The application packet: a payload and one metadata entry per radio
    observation, framed in two levels (refactor/packets.go, apacket). */
module APackets {
  import opened Common
  import opened Framing
  import opened Collaborators

  /** The JSON of every metadata entry, in order; None if one of them fails. */
  function MarshalEach(c: Codecs, ms: seq<Metadata>): (r: Option<seq<Bytes>>)
    ensures r.Some? <==> forall i :: 0 <= i < |ms| ==> c.marshalJSON(ms[i]).Some?
    ensures r.Some? ==> |r.value| == |ms| && forall i :: 0 <= i < |ms| ==> r.value[i] == c.marshalJSON(ms[i]).value
  {
    if ms == [] then Some([])
    else
      match MarshalEach(c, ms[..|ms| - 1])
      case None => None
      case Some(init) =>
        match c.marshalJSON(ms[|ms| - 1])
        case None => None
        case Some(last) => Some(init + [last])
  }

  datatype APacket = APacket(payload: Bytes, metadata: seq<Metadata>)
  {
    /** The outer pair [payload, inner], where inner holds one block per
        metadata entry's JSON, in order. */
    function Encoding(c: Codecs): Result<Bytes, Error>
    {
      match MarshalEach(c, metadata)
      case None => Err(Failure(Structural))
      case Some(jsons) =>
        match EncodeBlocks([], jsons)
        case Err(_) => Err(Failure(Structural))
        case Ok(inner) => PassOn(EncodeBlocks([], [payload, inner]))
    }

    /** The source's loop over the metadata entries, one Write each. */
    method MarshalBinary(c: Codecs) returns (r: Result<Bytes, Error>)
      ensures r == Encoding(c)
    {
      var rw := new ReadWriter([]);
      var i := 0;
      while i < |metadata|
        invariant 0 <= i <= |metadata|
        invariant MarshalEach(c, metadata[..i]).Some?
        invariant rw.State() == WriteAll(Buffer([], None), MarshalEach(c, metadata[..i]).value)
      {
        var data := c.marshalJSON(metadata[i]);
        if data.None? {
          return Err(Failure(Structural));
        }
        ghost var done := MarshalEach(c, metadata[..i]).value;
        assert metadata[..i + 1][..i] == metadata[..i];
        assert MarshalEach(c, metadata[..i + 1]) == Some(done + [data.value]);
        assert (done + [data.value])[..|done|] == done;
        rw.Write(data.value);
        i := i + 1;
      }
      assert metadata[..i] == metadata;
      var inner := Output(rw.State());
      if inner.Err? {
        return Err(Failure(Structural));
      }
      rw := new ReadWriter([]);
      rw.Write(payload);
      rw.Write(inner.value);
      var none: seq<Bytes> := [];
      assert [payload][..0] == none;
      assert [payload, inner.value][..1] == [payload];
      assert rw.State() == WriteAll(Buffer([], None), [payload, inner.value]);
      r := PassOn(Output(rw.State()));
    }
  }

  /** NewAPacket refuses an empty payload and otherwise keeps its arguments. */
  function NewAPacket(payload: Bytes, metadata: seq<Metadata>): (r: Result<APacket, Error>)
    ensures r.Ok? <==> |payload| > 0
    ensures r.Err? ==> r.error == Failure(Structural)
    ensures r.Ok? ==> r.value.payload == payload && r.value.metadata == metadata
  {
    if |payload| == 0 then Err(Failure(Structural))
    else Ok(APacket(payload, metadata))
  }

  /** The encoding fails with Structural when an entry's JSON fails or does
      not fit a block, and with the readwriter's own TooLong when the payload
      or the inner block does not fit one; otherwise it succeeds, and is an
      outer pair whose second block holds exactly the entries' JSON, one
      block each, in order. */
  lemma ALayout(c: Codecs, p: APacket)
    ensures MarshalEach(c, p.metadata).None? ==> p.Encoding(c) == Err(Failure(Structural))
    ensures MarshalEach(c, p.metadata).Some? && !Writable(MarshalEach(c, p.metadata).value) ==>
              p.Encoding(c) == Err(Failure(Structural))
    ensures MarshalEach(c, p.metadata).Some? && Writable(MarshalEach(c, p.metadata).value) &&
            (|p.payload| > MAX_BLOCK || |Frames(MarshalEach(c, p.metadata).value)| > MAX_BLOCK) ==>
              p.Encoding(c) == Err(Framing(TooLong))
    ensures p.Encoding(c).Ok? <==>
              MarshalEach(c, p.metadata).Some? && Writable(MarshalEach(c, p.metadata).value) &&
              |p.payload| <= MAX_BLOCK && |Frames(MarshalEach(c, p.metadata).value)| <= MAX_BLOCK
    ensures p.Encoding(c).Ok? ==>
              MarshalEach(c, p.metadata).Some? &&
              var jsons := MarshalEach(c, p.metadata).value;
              Writable(jsons) &&
              DecodeBlocks(p.Encoding(c).value) == Ok([p.payload, Frames(jsons)]) &&
              DecodeBlocks(Frames(jsons)) == Ok(jsons)
  {
    if MarshalEach(c, p.metadata).Some? {
      var jsons := MarshalEach(c, p.metadata).value;
      EncodeBlocksFrames([], jsons);
      if Writable(jsons) {
        assert [] + Frames(jsons) == Frames(jsons);
        DecodeFrames(jsons);
        var outer := [p.payload, Frames(jsons)];
        EncodeBlocksFrames([], outer);
        assert Writable(outer) <==> |p.payload| <= MAX_BLOCK && |Frames(jsons)| <= MAX_BLOCK;
        if Writable(outer) {
          assert [] + Frames(outer) == Frames(outer);
          DecodeFrames(outer);
        }
      }
    }
  }

  /** The inner decode loop: read blocks until the end of the stream,
      decoding each as one metadata entry. The entries decoded before a
      failure are kept, as the source appends them one at a time. */
  function DecodeMetadata(c: Codecs, s: Bytes): (seq<Metadata>, Option<Error>)
    decreases |s|
  {
    match ReadNext(s)
    case Fail(e) => if e == EndOfStream then ([], None) else ([], Some(Failure(Structural)))
    case Next(b, rest) =>
      match c.unmarshalJSON(b)
      case None => ([], Some(Failure(Structural)))
      case Some(m) =>
        var (ms, err) := DecodeMetadata(c, rest);
        ([m] + ms, err)
  }

  /** The inner decode succeeds exactly when the inner bytes are a whole
      number of blocks, each of them valid JSON, and then yields one entry
      per block, in order; any other outcome is a Structural error. */
  lemma {:induction false} DecodeMetadataBlocks(c: Codecs, s: Bytes)
    ensures DecodeMetadata(c, s).1.Some? ==> DecodeMetadata(c, s).1 == Some(Failure(Structural))
    ensures DecodeMetadata(c, s).1.None? <==>
              DecodeBlocks(s).Ok? &&
              forall i :: 0 <= i < |DecodeBlocks(s).value| ==> c.unmarshalJSON(DecodeBlocks(s).value[i]).Some?
    ensures DecodeMetadata(c, s).1.None? ==>
              |DecodeMetadata(c, s).0| == |DecodeBlocks(s).value| &&
              forall i :: 0 <= i < |DecodeBlocks(s).value| ==>
                c.unmarshalJSON(DecodeBlocks(s).value[i]) == Some(DecodeMetadata(c, s).0[i])
    decreases |s|
  {
    match ReadNext(s)
    case Fail(e) =>
    case Next(b, rest) =>
      DecodeMetadataBlocks(c, rest);
      if DecodeBlocks(rest).Ok? {
        var bs := DecodeBlocks(rest).value;
        assert DecodeBlocks(s).value == [b] + bs;
        assert ([b] + bs)[0] == b;
        assert forall i :: 0 <= i < |bs| ==> ([b] + bs)[i + 1] == bs[i];
        if c.unmarshalJSON(b).Some? {
          var ms := DecodeMetadata(c, rest).0;
          assert DecodeMetadata(c, s) == ([c.unmarshalJSON(b).value] + ms, DecodeMetadata(c, rest).1);
        }
      } else {
        assert DecodeBlocks(s).Err?;
        if c.unmarshalJSON(b).Some? {
          assert DecodeMetadata(c, s).1 == DecodeMetadata(c, rest).1;
        }
      }
  }

  /** The inner round trip: the frames of the entries' JSON decode back to
      exactly the entries, in order; no entries give an empty sequence. */
  lemma DecodeMetadataFrames(c: Codecs, ms: seq<Metadata>)
    requires JSONRoundTrips(c)
    requires MarshalEach(c, ms).Some? && Writable(MarshalEach(c, ms).value)
    ensures DecodeMetadata(c, Frames(MarshalEach(c, ms).value)) == (ms, None)
  {
    var jsons := MarshalEach(c, ms).value;
    DecodeFrames(jsons);
    forall i | 0 <= i < |jsons|
      ensures c.unmarshalJSON(jsons[i]) == Some(ms[i])
    {
      assert jsons[i] == c.marshalJSON(ms[i]).value;
    }
    DecodeMetadataBlocks(c, Frames(jsons));
    var decoded := DecodeMetadata(c, Frames(jsons)).0;
    assert |decoded| == |ms|;
    forall i | 0 <= i < |ms|
      ensures decoded[i] == ms[i]
    {
      assert Some(decoded[i]) == c.unmarshalJSON(jsons[i]);
    }
    assert decoded == ms;
  }

  /** What `apacket.UnmarshalBinary(data)` leaves in a receiver that held
      `p`, and the error it returns. */
  function AUnmarshalEffect(c: Codecs, p: APacket, data: Bytes): (APacket, Option<Error>)
  {
    var (b1, s1) := ReadStep(Buffer(data, None));
    var payload := if b1.Some? then b1.value else p.payload;
    var (b2, s2) := ReadStep(s1);
    var inner := if b2.Some? then b2.value else [];
    if s2.err.Some? then (APacket(payload, p.metadata), Some(Failure(Structural)))
    else
      var (ms, err) := DecodeMetadata(c, inner);
      (APacket(payload, ms), err)
  }

  /** Every failure is Structural; on success the payload is the first outer
      block and the entries are decoded from the second. */
  lemma AUnmarshalOutcome(c: Codecs, p: APacket, data: Bytes)
    ensures AUnmarshalEffect(c, p, data).1.Some? ==> AUnmarshalEffect(c, p, data).1 == Some(Failure(Structural))
    ensures ReadBlocks(data, 2).Err? ==> AUnmarshalEffect(c, p, data).1 == Some(Failure(Structural))
    ensures ReadBlocks(data, 2).Ok? ==>
              AUnmarshalEffect(c, p, data) ==
              (APacket(ReadBlocks(data, 2).value[0], DecodeMetadata(c, ReadBlocks(data, 2).value[1]).0),
               DecodeMetadata(c, ReadBlocks(data, 2).value[1]).1)
  {
    TwoReads(data);
    var (b1, s1) := ReadStep(Buffer(data, None));
    var (b2, s2) := ReadStep(s1);
    if s2.err.None? {
      DecodeMetadataBlocks(c, b2.value);
    }
  }

  /** Decoding what the encoding produced restores the payload and exactly
      the original entries, in order, whatever the receiver held before. */
  lemma AUnmarshalMarshal(c: Codecs, p: APacket, q: APacket)
    requires JSONRoundTrips(c)
    requires p.Encoding(c).Ok?
    ensures AUnmarshalEffect(c, q, p.Encoding(c).value) == (p, None)
  {
    ALayout(c, p);
    var jsons := MarshalEach(c, p.metadata).value;
    var outer: seq<Bytes> := [p.payload, Frames(jsons)];
    var data := p.Encoding(c).value;
    DecodedIsFrames(data);
    assert data == Frames(outer) + [];
    ReadFrames(outer, []);
    ReadFrames(outer[1..], []);
    DecodeMetadataFrames(c, p.metadata);
  }

  /** The `*apacket` receiver of UnmarshalBinary. */
  class APacketRef {
    var payload: Bytes
    var metadata: seq<Metadata>

    function Value(): APacket
      reads this
    {
      APacket(payload, metadata)
    }

    constructor (p: APacket)
      ensures Value() == p
    {
      payload := p.payload;
      metadata := p.metadata;
    }

    method UnmarshalBinary(c: Codecs, data: Bytes) returns (err: Option<Error>)
      modifies this
      ensures (Value(), err) == AUnmarshalEffect(c, old(Value()), data)
    {
      var dataMetadata: Bytes := [];
      var rw := new ReadWriter(data);
      var b := rw.Read();
      if b.Some? {
        payload := b.value;
      }
      b := rw.Read();
      if b.Some? {
        dataMetadata := b.value;
      }
      if rw.err.Some? {
        return Some(Failure(Structural));
      }

      ghost var decoded := DecodeMetadata(c, dataMetadata);
      ghost var expected := AUnmarshalEffect(c, old(Value()), data);
      assert expected == (APacket(payload, decoded.0), decoded.1);
      metadata := [];
      rw := new ReadWriter(dataMetadata);
      assert metadata + DecodeMetadata(c, rw.data).0 == decoded.0;
      while true
        invariant rw.err.None?
        invariant payload == expected.0.payload
        invariant decoded == (metadata + DecodeMetadata(c, rw.data).0, DecodeMetadata(c, rw.data).1)
        decreases |rw.data|
      {
        ghost var before := rw.data;
        var entry := rw.Read();
        if rw.err.Some? {
          if rw.err.value == EndOfStream {
            assert rw.data == before;
            assert DecodeMetadata(c, before) == ([], None);
            assert metadata + [] == metadata;
            assert decoded == (metadata, None);
            break;
          }
          assert DecodeMetadata(c, before) == ([], Some(Failure(Structural)));
          assert metadata + [] == metadata;
          return Some(Failure(Structural));
        }
        var m := c.unmarshalJSON(entry.value);
        if m.None? {
          assert DecodeMetadata(c, before) == ([], Some(Failure(Structural)));
          assert metadata + [] == metadata;
          return Some(Failure(Structural));
        }
        assert DecodeMetadata(c, before) == ([m.value] + DecodeMetadata(c, rw.data).0, DecodeMetadata(c, rw.data).1);
        assert metadata + ([m.value] + DecodeMetadata(c, rw.data).0) == (metadata + [m.value]) + DecodeMetadata(c, rw.data).0;
        metadata := metadata + [m.value];
      }
      return None;
    }
  }
}
