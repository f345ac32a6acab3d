/** The sequential field readwriter the packets are framed with. Its layout
    is fixed here: every block is written as a 2-byte big-endian length
    followed by the block's bytes; blocks are read back in write order, and a
    read on an empty buffer signals the end of the stream. Errors are sticky:
    once one is recorded, later writes and reads do nothing. */
module Framing {
  import opened Common

  /** The longest block a 2-byte length prefix can announce. */
  const MAX_BLOCK: nat := 0xFFFF

  /** One block on the wire: its length, high byte first, then its bytes. */
  function Frame(b: Bytes): (r: Bytes)
    requires |b| <= MAX_BLOCK
    ensures |r| == 2 + |b| && r[2..] == b
  {
    [|b| / 256, |b| % 256] + b
  }

  /** Every block fits its length prefix. */
  predicate Writable(bs: seq<Bytes>)
  {
    forall i :: 0 <= i < |bs| ==> |bs[i]| <= MAX_BLOCK
  }

  /** The blocks framed one after another. */
  function Frames(bs: seq<Bytes>): Bytes
    requires Writable(bs)
  {
    if bs == [] then [] else Frame(bs[0]) + Frames(bs[1..])
  }

  datatype Step = Next(block: Bytes, rest: Bytes) | Fail(error: FramingError)

  /** Read one block from the front of `s`. */
  function ReadNext(s: Bytes): (r: Step)
    ensures r.Next? ==> |r.block| <= MAX_BLOCK && s == Frame(r.block) + r.rest
    ensures r.Fail? ==> r.error != TooLong && (r.error == EndOfStream <==> s == [])
  {
    if |s| == 0 then Fail(EndOfStream)
    else if |s| < 2 then Fail(Truncated)
    else
      var n: int := (s[0] as int) * 256 + (s[1] as int);
      if |s| - 2 < n then Fail(Truncated)
      else
        assert [n / 256, n % 256] == s[..2];
        Next(s[2..2 + n], s[2 + n..])
  }

  /** The whole stream read as blocks until the end of the stream. */
  function DecodeBlocks(s: Bytes): Result<seq<Bytes>, FramingError>
    decreases |s|
  {
    match ReadNext(s)
    case Fail(e) => if e == EndOfStream then Ok([]) else Err(e)
    case Next(b, rest) =>
      match DecodeBlocks(rest)
      case Ok(bs) => Ok([b] + bs)
      case Err(e) => Err(e)
  }

  /** The first `n` blocks of `s`, read one after another. */
  function ReadBlocks(s: Bytes, n: nat): (r: Result<seq<Bytes>, FramingError>)
    ensures r.Ok? ==> |r.value| == n
  {
    if n == 0 then Ok([])
    else
      match ReadNext(s)
      case Fail(e) => Err(e)
      case Next(b, rest) =>
        match ReadBlocks(rest, n - 1)
        case Ok(bs) => Ok([b] + bs)
        case Err(e) => Err(e)
  }

  /** The state of a readwriter: its buffer and its sticky error. */
  datatype Buffer = Buffer(data: Bytes, err: Option<FramingError>)

  /** `rw.Write(b)`: append one framed block. */
  function WriteStep(s: Buffer, b: Bytes): Buffer
  {
    if s.err.Some? then s
    else if |b| > MAX_BLOCK then Buffer(s.data, Some(TooLong))
    else Buffer(s.data + Frame(b), None)
  }

  /** One `rw.Write` per block, in order. */
  function WriteAll(s: Buffer, bs: seq<Bytes>): Buffer
  {
    if bs == [] then s else WriteStep(WriteAll(s, bs[..|bs| - 1]), bs[|bs| - 1])
  }

  /** `rw.Read(f)`: the block handed to `f`, if `f` is called, and the new state. */
  function ReadStep(s: Buffer): (Option<Bytes>, Buffer)
  {
    if s.err.Some? then (None, s)
    else
      match ReadNext(s.data)
      case Next(b, rest) => (Some(b), Buffer(rest, None))
      case Fail(e) => (None, Buffer(s.data, Some(e)))
  }

  /** `rw.Bytes()`: the buffer, unless an error was recorded. */
  function Output(s: Buffer): Result<Bytes, FramingError>
  {
    if s.err.Some? then Err(s.err.value) else Ok(s.data)
  }

  /** `return rw.Bytes()` from a packet method: a readwriter error goes out as is. */
  function PassOn(r: Result<Bytes, FramingError>): Result<Bytes, Error>
  {
    match r
    case Ok(b) => Ok(b)
    case Err(e) => Err(Framing(e))
  }

  /** `readwriter.New(prefix)`, a `Write` per block, then `Bytes()`. */
  function EncodeBlocks(prefix: Bytes, bs: seq<Bytes>): Result<Bytes, FramingError>
  {
    Output(WriteAll(Buffer(prefix, None), bs))
  }

  lemma {:induction false} FramesAppend(a: seq<Bytes>, b: seq<Bytes>)
    requires Writable(a) && Writable(b)
    ensures Writable(a + b) && Frames(a + b) == Frames(a) + Frames(b)
  {
    if a == [] {
      assert a + b == b;
    } else {
      assert (a + b)[1..] == a[1..] + b;
      FramesAppend(a[1..], b);
    }
  }

  /** Reading a framed block gives back the block and what follows it. */
  lemma ReadFrame(b: Bytes, rest: Bytes)
    requires |b| <= MAX_BLOCK
    ensures ReadNext(Frame(b) + rest) == Next(b, rest)
  {
  }

  /** Writing blocks to a healthy readwriter: the frames are appended, or
      TooLong is recorded when some block does not fit a length prefix. */
  lemma {:induction false} WriteAllFrames(prefix: Bytes, bs: seq<Bytes>)
    ensures WriteAll(Buffer(prefix, None), bs).err == if Writable(bs) then None else Some(TooLong)
    ensures Writable(bs) ==> WriteAll(Buffer(prefix, None), bs).data == prefix + Frames(bs)
  {
    if bs != [] {
      var init := bs[..|bs| - 1];
      var last := bs[|bs| - 1];
      assert bs == init + [last];
      WriteAllFrames(prefix, init);
      assert Writable(bs) <==> Writable(init) && |last| <= MAX_BLOCK;
      if Writable(bs) {
        FramesAppend(init, [last]);
        assert Frames([last]) == Frame(last) + Frames([]);
      }
    }
  }

  /** The encoding of a block sequence, in closed form. */
  lemma EncodeBlocksFrames(prefix: Bytes, bs: seq<Bytes>)
    ensures EncodeBlocks(prefix, bs) == if Writable(bs) then Ok(prefix + Frames(bs)) else Err(TooLong)
  {
    WriteAllFrames(prefix, bs);
  }

  /** A healthy read of framed blocks yields the first block and leaves the rest. */
  lemma ReadFrames(bs: seq<Bytes>, rest: Bytes)
    requires Writable(bs) && |bs| > 0
    ensures Writable(bs[1..])
    ensures ReadStep(Buffer(Frames(bs) + rest, None)) == (Some(bs[0]), Buffer(Frames(bs[1..]) + rest, None))
  {
    assert Frames(bs) + rest == Frame(bs[0]) + (Frames(bs[1..]) + rest);
    ReadFrame(bs[0], Frames(bs[1..]) + rest);
  }

  /** Block-level round trip: decoding the frames of any writable block
      sequence gives back exactly that sequence. */
  lemma {:induction false} DecodeFrames(bs: seq<Bytes>)
    requires Writable(bs)
    ensures DecodeBlocks(Frames(bs)) == Ok(bs)
  {
    if bs == [] {
      assert ReadNext([]) == Fail(EndOfStream);
    } else {
      assert Frames(bs) == Frame(bs[0]) + Frames(bs[1..]);
      ReadFrame(bs[0], Frames(bs[1..]));
      DecodeFrames(bs[1..]);
      assert [bs[0]] + bs[1..] == bs;
    }
  }

  /** The layout is unambiguous: whatever decodes to a block sequence is
      exactly the frames of that sequence. */
  lemma {:induction false} DecodedIsFrames(s: Bytes)
    requires DecodeBlocks(s).Ok?
    ensures Writable(DecodeBlocks(s).value)
    ensures Frames(DecodeBlocks(s).value) == s
    decreases |s|
  {
    match ReadNext(s)
    case Fail(e) =>
    case Next(b, rest) =>
      DecodedIsFrames(rest);
      var bs := DecodeBlocks(rest).value;
      assert DecodeBlocks(s).value == [b] + bs;
      assert ([b] + bs)[1..] == bs;
  }

  /** Two `Read` calls on a fresh readwriter, seen as one read of two blocks. */
  lemma TwoReads(data: Bytes)
    ensures var (b1, s1) := ReadStep(Buffer(data, None));
            var (b2, s2) := ReadStep(s1);
            (s2.err.None? <==> ReadBlocks(data, 2).Ok?) &&
            (s2.err.None? ==> [b1.value, b2.value] == ReadBlocks(data, 2).value) &&
            (s2.err.Some? ==> ReadBlocks(data, 2) == Err(s2.err.value))
  {
    match ReadNext(data)
    case Fail(_) =>
    case Next(b0, r0) =>
      match ReadNext(r0)
      case Fail(_) =>
        assert ReadBlocks(r0, 1).Err?;
      case Next(b1, r1) =>
        var none: seq<Bytes> := [];
        assert ReadBlocks(r1, 0) == Ok(none);
        assert [b1] + none == [b1];
        assert ReadBlocks(r0, 1) == Ok([b1]);
        assert [b0] + [b1] == [b0, b1];
  }

  /** Three `Read` calls on a fresh readwriter, seen as one read of three blocks. */
  lemma ThreeReads(data: Bytes)
    ensures var (tag, s1) := ReadStep(Buffer(data, None));
            var (dm, s2) := ReadStep(s1);
            var (dp, s3) := ReadStep(s2);
            (s3.err.None? <==> ReadBlocks(data, 3).Ok?) &&
            (s3.err.None? ==> [tag.value, dm.value, dp.value] == ReadBlocks(data, 3).value) &&
            (s3.err.Some? ==> ReadBlocks(data, 3) == Err(s3.err.value))
  {
    match ReadNext(data)
    case Fail(_) =>
    case Next(b0, r0) =>
      match ReadNext(r0)
      case Fail(_) =>
        assert ReadBlocks(r0, 2).Err?;
      case Next(b1, r1) =>
        match ReadNext(r1)
        case Fail(_) =>
          assert ReadBlocks(r1, 1).Err?;
          assert ReadBlocks(r0, 2).Err?;
        case Next(b2, r2) =>
          var none: seq<Bytes> := [];
          assert ReadBlocks(r2, 0) == Ok(none);
          assert [b2] + none == [b2];
          assert ReadBlocks(r1, 1) == Ok([b2]);
          assert [b1] + [b2] == [b1, b2];
          assert ReadBlocks(r0, 2) == Ok([b1, b2]);
          assert [b0] + [b1, b2] == [b0, b1, b2];
  }

  /** Four `Read` calls on a fresh readwriter, seen as one read of four
      blocks; the recorded error is the first read's failure. */
  lemma FourReads(data: Bytes)
    ensures var (b1, s1) := ReadStep(Buffer(data, None));
            var (b2, s2) := ReadStep(s1);
            var (b3, s3) := ReadStep(s2);
            var (b4, s4) := ReadStep(s3);
            (s4.err.None? <==> ReadBlocks(data, 4).Ok?) &&
            (s4.err.None? ==> [b1.value, b2.value, b3.value, b4.value] == ReadBlocks(data, 4).value) &&
            (s4.err.Some? ==> ReadBlocks(data, 4) == Err(s4.err.value))
  {
    match ReadNext(data)
    case Fail(_) =>
    case Next(b0, r0) =>
      match ReadNext(r0)
      case Fail(_) =>
        assert ReadBlocks(r0, 3).Err?;
      case Next(b1, r1) =>
        match ReadNext(r1)
        case Fail(_) =>
          assert ReadBlocks(r1, 2).Err?;
          assert ReadBlocks(r0, 3).Err?;
        case Next(b2, r2) =>
          match ReadNext(r2)
          case Fail(_) =>
            assert ReadBlocks(r2, 1).Err?;
            assert ReadBlocks(r1, 2).Err?;
            assert ReadBlocks(r0, 3).Err?;
          case Next(b3, r3) =>
            var none: seq<Bytes> := [];
            assert ReadBlocks(r3, 0) == Ok(none);
            assert [b3] + none == [b3];
            assert ReadBlocks(r2, 1) == Ok([b3]);
            assert [b2] + [b3] == [b2, b3];
            assert ReadBlocks(r1, 2) == Ok([b2, b3]);
            assert [b1] + [b2, b3] == [b1, b2, b3];
            assert ReadBlocks(r0, 3) == Ok([b1, b2, b3]);
            assert [b0] + [b1, b2, b3] == [b0, b1, b2, b3];
  }

  /** The readwriter object of utils/readwriter. */
  class ReadWriter {
    var data: Bytes
    var err: Option<FramingError>

    function State(): Buffer
      reads this
    {
      Buffer(data, err)
    }

    /** `readwriter.New(init)` */
    constructor (init: Bytes)
      ensures State() == Buffer(init, None)
    {
      data := init;
      err := None;
    }

    method Write(b: Bytes)
      modifies this
      ensures State() == WriteStep(old(State()), b)
    {
      if err.None? {
        if |b| > MAX_BLOCK {
          err := Some(TooLong);
        } else {
          data := data + Frame(b);
        }
      }
    }

    /** The block the source's callback receives, if it is called. */
    method Read() returns (block: Option<Bytes>)
      modifies this
      ensures (block, State()) == ReadStep(old(State()))
    {
      block := None;
      if err.None? {
        match ReadNext(data)
        case Next(b, rest) =>
          block := Some(b);
          data := rest;
        case Fail(e) =>
          err := Some(e);
      }
    }
  }
}
