/** Length-prefixed frames over a stream whose reads may come up short. */
module FramedIo {

  type byte = x: int | 0 <= x < 256

  datatype Failure = Truncated | BadLength | Trailing | Unpackable

  datatype Result<T> = Ok(value: T) | Err(failure: Failure)

  // ---------------------------------------------------------------------------
  // Big-endian lengths
  // ---------------------------------------------------------------------------

  function Pack(n: nat): (bs: seq<byte>)
    requires n < 0x1_0000_0000
    ensures |bs| == 4
  {
    [n / 0x100_0000, n / 0x1_0000 % 0x100, n / 0x100 % 0x100, n % 0x100]
  }

  function Unpack(bs: seq<byte>): (n: nat)
    requires |bs| == 4
    ensures n < 0x1_0000_0000
  {
    (bs[0] as int) * 0x100_0000 + (bs[1] as int) * 0x1_0000 + (bs[2] as int) * 0x100 + bs[3]
  }

  lemma UnpackPack(n: nat)
    requires n < 0x1_0000_0000
    ensures Unpack(Pack(n)) == n
  {
    assert n / 0x1_0000 == n / 0x100 / 0x100;
    assert n / 0x100_0000 == n / 0x1_0000 / 0x100;
  }

  lemma PackUnpack(bs: seq<byte>)
    requires |bs| == 4
    ensures Pack(Unpack(bs)) == bs
  {
    var n := Unpack(bs);
    assert n / 0x100 == (bs[0] as int) * 0x1_0000 + (bs[1] as int) * 0x100 + bs[2];
    assert n / 0x1_0000 == (bs[0] as int) * 0x100 + bs[1];
    assert n / 0x100_0000 == bs[0];
  }

  // ---------------------------------------------------------------------------
  // What a frame is
  // ---------------------------------------------------------------------------

  /** A frame: the length of the body, then the body. */
  function Frame(body: seq<byte>): seq<byte>
    requires |body| < 0x1_0000_0000
  {
    Pack(|body|) + body
  }

  /** What the reader makes of everything a stream has left. */
  function Parse(data: seq<byte>, maximum: int): Result<seq<byte>> {
    if |data| < 4 then Err(Truncated)
    else
      var size := Unpack(data[..4]);
      if size < 2 || size > maximum then Err(BadLength)
      else if |data| < 4 + size then Err(Truncated)
      else if |data| > 4 + size then Err(Trailing)
      else Ok(data[4..])
  }

  /** A stream is accepted with a body exactly when it is that body's frame and nothing after, and the length is
      within bounds. */
  lemma AcceptedIffFrame(data: seq<byte>, maximum: int, body: seq<byte>)
    ensures Parse(data, maximum) == Ok(body) <==>
              2 <= |body| <= maximum && |body| < 0x1_0000_0000 && data == Frame(body)
  {
    if 2 <= |body| <= maximum && |body| < 0x1_0000_0000 && data == Frame(body) {
      UnpackPack(|body|);
      assert data[..4] == Pack(|body|) && data[4..] == body;
    }
    if Parse(data, maximum) == Ok(body) {
      PackUnpack(data[..4]);
      assert data == data[..4] + data[4..];
    }
  }

  /** Cut short anywhere, an accepted stream is reported truncated; with anything appended, trailing. */
  lemma FramesAreExact(body: seq<byte>, maximum: int, k: nat, more: seq<byte>)
    requires 2 <= |body| <= maximum && |body| < 0x1_0000_0000
    ensures k < |Frame(body)| ==> Parse(Frame(body)[..k], maximum) == Err(Truncated)
    ensures more != [] ==> Parse(Frame(body) + more, maximum) == Err(Trailing)
  {
    UnpackPack(|body|);
    assert (Frame(body) + more)[..4] == Pack(|body|);
    if 4 <= k < |Frame(body)| {
      assert Frame(body)[..k][..4] == Pack(|body|);
    }
  }

  // ---------------------------------------------------------------------------
  // Reading and writing
  // ---------------------------------------------------------------------------

  /** A stream read by consuming it and written by appending to it. */
  class Stream {
    var rest: seq<byte>
    var written: seq<byte>

    constructor (rest: seq<byte>)
      ensures this.rest == rest && written == []
    {
      this.rest, written := rest, [];
    }

    /** Returns between one and `size` bytes, however many happen to be there, or none at the end. */
    method Read(size: nat) returns (chunk: seq<byte>)
      requires size > 0
      modifies this`rest
      ensures |chunk| <= size && old(rest) == chunk + rest
      ensures chunk == [] <==> old(rest) == []
    {
      if rest == [] { return []; }
      var k :| 1 <= k <= size && k <= |rest|;
      chunk := rest[..k];
      rest := rest[k..];
    }

    method Write(bs: seq<byte>)
      modifies this`written
      ensures written == old(written) + bs
    {
      written := written + bs;
    }
  }

  method ReadExact(stream: Stream, size: nat) returns (r: Result<seq<byte>>)
    modifies stream`rest
    ensures r == if |old(stream.rest)| < size then Err(Truncated) else Ok(old(stream.rest)[..size])
    ensures stream.rest == if |old(stream.rest)| < size then [] else old(stream.rest)[size..]
  {
    var chunks: seq<seq<byte>>, total := [], 0;
    while total < size
      invariant 0 <= total <= size
      invariant total == |Joined(chunks)| && old(stream.rest) == Joined(chunks) + stream.rest
    {
      var chunk := stream.Read(size - total);
      if chunk == [] { return Err(Truncated); }
      JoinedMore(chunks, chunk);
      chunks := chunks + [chunk];
      total := total + |chunk|;
    }
    return Ok(Joined(chunks));
  }

  function Joined(chunks: seq<seq<byte>>): seq<byte> {
    if chunks == [] then [] else chunks[0] + Joined(chunks[1..])
  }

  lemma {:induction false} JoinedMore(chunks: seq<seq<byte>>, chunk: seq<byte>)
    ensures Joined(chunks + [chunk]) == Joined(chunks) + chunk
  {
    if chunks == [] {
      assert [chunk][1..] == [];
    } else {
      assert (chunks + [chunk])[1..] == chunks[1..] + [chunk];
      JoinedMore(chunks[1..], chunk);
    }
  }

  /** Whatever sizes the reads come in, the outcome is that of parsing everything the stream had left. */
  method ReadFrame(stream: Stream, maximum: int) returns (r: Result<seq<byte>>)
    modifies stream`rest
    ensures r == Parse(old(stream.rest), maximum)
    ensures r.Ok? ==> stream.rest == []
  {
    ghost var data := stream.rest;
    var header := ReadExact(stream, 4);
    if header.Err? { return header; }
    var size := Unpack(header.value);
    if size < 2 || size > maximum { return Err(BadLength); }
    var body := ReadExact(stream, size);
    if body.Err? { return body; }
    var extra := stream.Read(1);
    if extra != [] { return Err(Trailing); }
    assert data[4..][..size] == data[4..];
    return body;
  }

  /** Nothing is written unless the whole frame is. */
  method WriteFrame(stream: Stream, body: seq<byte>, maximum: int) returns (failure: Result<()>)
    modifies stream`written
    ensures failure == (if !(2 <= |body| <= maximum) then Err(BadLength)
                        else if |body| >= 0x1_0000_0000 then Err(Unpackable) else Ok(()))
    ensures failure.Ok? ==> stream.written == old(stream.written) + Frame(body)
    ensures failure.Err? ==> stream.written == old(stream.written)
  {
    if !(2 <= |body| <= maximum) { return Err(BadLength); }
    if |body| >= 0x1_0000_0000 { return Err(Unpackable); }
    stream.Write(Pack(|body|));
    stream.Write(body);
    return Ok(());
  }

  /** What one end writes the other end reads back, for any body and however the bytes arrive. */
  method Exchange(body: seq<byte>, maximum: int) returns (got: Result<seq<byte>>)
    ensures got.Ok? <==> 2 <= |body| <= maximum && |body| < 0x1_0000_0000
    ensures got.Ok? ==> got.value == body
  {
    var pipe := new Stream([]);
    var sent := WriteFrame(pipe, body, maximum);
    if sent.Err? { return Err(sent.failure); }
    var far := new Stream(pipe.written);
    got := ReadFrame(far, maximum);
    assert pipe.written == Frame(body);
    AcceptedIffFrame(Frame(body), maximum, body);
  }

  /** A body the reader takes. */
  predicate Acceptable(body: seq<byte>, maximum: int) {
    2 <= |body| <= maximum && |body| < 0x1_0000_0000
  }

  lemma RunsOver(data: seq<byte>, maximum: int) returns (body: seq<byte>)
    requires Parse(data, maximum) == Err(Trailing)
    ensures Acceptable(body, maximum) && Frame(body) < data
  {
    var size := Unpack(data[..4]);
    PackUnpack(data[..4]);
    hide Pack, Unpack;
    body := data[4..4 + size];
    assert Frame(body) == data[..4 + size];
  }

  lemma CutShort(data: seq<byte>, maximum: int) returns (body: seq<byte>)
    requires Parse(data, maximum) == Err(Truncated) && |data| >= 4
    ensures Acceptable(body, maximum) && data < Frame(body)
  {
    var size := Unpack(data[..4]);
    PackUnpack(data[..4]);
    hide Pack, Unpack;
    body := data[4..] + seq(4 + size - |data|, _ => 0);
    assert Frame(body)[..|data|] == data;
  }

  /** What each failure of the reader says of the stream: a length out of bounds; a whole frame with something after
      it; or the beginning of a frame, and no more. */
  lemma FailureMeans(data: seq<byte>, maximum: int)
    ensures Parse(data, maximum) == Err(BadLength) <==> |data| >= 4 && !(2 <= Unpack(data[..4]) <= maximum)
    ensures Parse(data, maximum) == Err(Trailing) <==> exists body :: Acceptable(body, maximum) && Frame(body) < data
    ensures Parse(data, maximum) == Err(Truncated) <==>
            |data| < 4 || exists body :: Acceptable(body, maximum) && data < Frame(body)
  {
    hide Pack, Unpack;
    forall body | Acceptable(body, maximum)
      ensures Frame(body) < data ==> Parse(data, maximum) == Err(Trailing)
      ensures data < Frame(body) ==> Parse(data, maximum) == Err(Truncated)
    {
      PrefixMeans(data, maximum, body);
    }
    if Parse(data, maximum) == Err(Trailing) { var body := RunsOver(data, maximum); }
    if Parse(data, maximum) == Err(Truncated) && |data| >= 4 { var body := CutShort(data, maximum); }
  }

  lemma PrefixMeans(data: seq<byte>, maximum: int, body: seq<byte>)
    requires Acceptable(body, maximum)
    ensures Frame(body) < data ==> Parse(data, maximum) == Err(Trailing)
    ensures data < Frame(body) ==> Parse(data, maximum) == Err(Truncated)
  {
    hide Parse, Frame;
    if Frame(body) < data {
      assert data == Frame(body) + data[|Frame(body)|..];
      FramesAreExact(body, maximum, 0, data[|Frame(body)|..]);
    } else if data < Frame(body) {
      assert data == Frame(body)[..|data|];
      FramesAreExact(body, maximum, |data|, []);
    }
  }
}
