/** Streaming speech recognition: framing the audio, cutting the spectrum into overlapping chunks for a cached
    encoder, and greedy decoding chunk by chunk. The networks are parameters. */
module StreamingAsr {

  const N_FFT := 512
  const HOP := 160
  const CHUNK := 56
  const PRE_ENCODE_CACHE := 9
  const ENC_FRAMES_IN := PRE_ENCODE_CACHE + CHUNK
  const BLANK_ID := 13_087
  const MAX_SYMBOLS := 10

  // ---------------------------------------------------------------------------
  // Framing
  // ---------------------------------------------------------------------------

  /** The pre-emphasised audio between two half windows of silence. */
  function Padded(audio: seq<real>): seq<real> {
    seq(N_FFT / 2, _ => 0.0) +
    seq(|audio|, i requires 0 <= i < |audio| => if i == 0 then audio[0] else audio[i] - 0.97 * audio[i - 1]) +
    seq(N_FFT / 2, _ => 0.0)
  }

  /** The audio a pre-emphasised one came from: each sample with the share of the one before it put back. */
  function Restored(emphasised: seq<real>): (audio: seq<real>)
    ensures |audio| == |emphasised|
  {
    if emphasised == [] then []
    else
      var n := |emphasised| - 1;
      var before := Restored(emphasised[..n]);
      before + [emphasised[n] + if n == 0 then 0.0 else 0.97 * before[n - 1]]
  }

  /** Pre-emphasis loses nothing: the audio can be restored from between the two half windows of silence. */
  lemma PaddedRestores(audio: seq<real>)
    ensures |Padded(audio)| == |audio| + N_FFT
    ensures Restored(Padded(audio)[N_FFT / 2..N_FFT / 2 + |audio|]) == audio
    ensures forall i | 0 <= i < N_FFT / 2 || N_FFT / 2 + |audio| <= i < |Padded(audio)| :: Padded(audio)[i] == 0.0
  {
    hide Restored;
    var inner := Padded(audio)[N_FFT / 2..N_FFT / 2 + |audio|];
    assert forall i | 0 <= i < |audio| :: inner[i] == if i == 0 then audio[0] else audio[i] - 0.97 * audio[i - 1];
    RestoresUpTo(audio, inner, |audio|);
    assert inner[..|audio|] == inner && audio[..|audio|] == audio;
  }

  lemma {:induction false} RestoresUpTo(audio: seq<real>, inner: seq<real>, n: nat)
    requires n <= |audio| == |inner|
    requires forall i | 0 <= i < |audio| :: inner[i] == if i == 0 then audio[0] else audio[i] - 0.97 * audio[i - 1]
    ensures Restored(inner[..n]) == audio[..n]
  {
    if n > 0 {
      RestoresUpTo(audio, inner, n - 1);
      assert inner[..n][..n - 1] == inner[..n - 1];
      if n > 1 {
        assert audio[..n - 1][n - 2] == audio[n - 2];
        assert inner[n - 1] == audio[n - 1] - 0.97 * audio[n - 2];
      }
      assert Restored(inner[..n]) == audio[..n - 1] + [audio[n - 1]];
    }
  }

  method GatherFrames(audio: seq<real>) returns (frames: seq<seq<real>>)
    ensures |frames| == if audio == [] then 0 else |audio| / HOP + 1
    ensures forall f | 0 <= f < |frames| :: 0 <= HOP * f && HOP * f + N_FFT <= |Padded(audio)|
    ensures forall f | 0 <= f < |frames| :: frames[f] == Padded(audio)[HOP * f..HOP * f + N_FFT]
  {
    if audio == [] { return []; }
    var padded := Padded(audio);
    var count := (|padded| - N_FFT) / HOP + 1;
    if count <= 0 { return []; }
    frames := [];
    for f := 0 to count
      invariant |frames| == f
      invariant forall g | 0 <= g < f :: HOP * g + N_FFT <= |padded| && frames[g] == padded[HOP * g..HOP * g + N_FFT]
    {
      var frame: seq<real> := [];
      for k := 0 to N_FFT
        invariant frame == padded[HOP * f..HOP * f + k]
      {
        frame := frame + [padded[k + HOP * f]];
      }
      frames := frames + [frame];
    }
  }

  /** No sample is skipped: each lies in some gathered window. */
  lemma EverySampleFramed(n: nat, i: nat)
    requires i < n
    ensures exists f :: 0 <= f < n / HOP + 1 && HOP * f <= N_FFT / 2 + i < HOP * f + N_FFT
  {
    var f := i / HOP;
    assert HOP * f <= N_FFT / 2 + i < HOP * f + N_FFT;
  }

  // ---------------------------------------------------------------------------
  // Chunks
  // ---------------------------------------------------------------------------

  /** The networks: the silent spectrum frame, the encoder with its cache, and the decoder and joint network
      with the decoder's memory, which together predict the likeliest symbol after the last one. */
  datatype Networks<!M, !E, !C, !S> = Networks(
    silence: M,
    encode: (seq<M>, nat, C) -> (seq<E>, C),
    cache: C,
    predict: (E, nat, S) -> (nat, S),
    memory: S)

  /** Where chunks start. */
  predicate Aligned(from: nat) {
    from % CHUNK == 0
  }

  lemma AlignedStart()
    ensures Aligned(0)
  {
  }

  lemma AlignedNext(from: nat)
    requires Aligned(from)
    ensures Aligned(from + CHUNK)
  {
  }

  function Min(a: int, b: int): int {
    if a < b then a else b
  }

  function Silence<M>(m: M, n: nat): seq<M> {
    seq(n, _ => m)
  }

  /** What the encoder is fed for the chunk starting at `from`: the frames before it, silence for the first
      chunk; its own frames; and silence up to the encoder's fixed width. */
  function Window<M>(silence: M, mel: seq<M>, from: nat): (w: seq<M>)
    requires from < |mel| && (from == 0 || from >= PRE_ENCODE_CACHE)
    ensures |w| == ENC_FRAMES_IN
  {
    var upto := Min(from + CHUNK, |mel|);
    (if from == 0 then Silence(silence, PRE_ENCODE_CACHE) else mel[from - PRE_ENCODE_CACHE..from]) +
    mel[from..upto] + Silence(silence, CHUNK - (upto - from))
  }

  /** How many frames of its window the encoder is told are there. */
  function Told<M>(mel: seq<M>, from: nat): (told: nat)
    requires from < |mel|
    ensures PRE_ENCODE_CACHE < told <= ENC_FRAMES_IN
  {
    PRE_ENCODE_CACHE + Min(from + CHUNK, |mel|) - from
  }

  /** What the encoder answers for the chunk starting at `buf`. */
  function Fed<M, E, C, S>(n: Networks<M, E, C, S>, mel: seq<M>, buf: nat, cache: C): (seq<E>, C)
    requires Aligned(buf) && buf < |mel|
  {
    n.encode(Window(n.silence, mel, buf), Told(mel, buf), cache)
  }

  /** The encoder's frames for the spectrum from `from` on. */
  function EncodeFrom<M, E, C, S>(n: Networks<M, E, C, S>, mel: seq<M>, from: nat, cache: C): (frames: seq<E>)
    requires Aligned(from)
    decreases |mel| - from
  {
    if from >= |mel| then []
    else
      var (frames, next) := Fed(n, mel, from, cache);
      frames + EncodeFrom(n, mel, from + CHUNK, next)
  }

  /** What the encoder is told is there of each chunk, past the frames kept from before, put together. */
  function Mains<M>(silence: M, mel: seq<M>, from: nat): seq<M>
    requires Aligned(from)
    decreases |mel| - from
  {
    if from >= |mel| then []
    else
      Window(silence, mel, from)[PRE_ENCODE_CACHE..Told(mel, from)] + Mains(silence, mel, from + CHUNK)
  }

  /** The regions the encoder is told are new make up the spectrum, no frame lost or repeated. */
  lemma {:induction false} MainsAreTheSpectrum<M>(silence: M, mel: seq<M>, from: nat)
    requires Aligned(from) && from <= |mel| + CHUNK
    ensures Mains(silence, mel, from) == if from >= |mel| then [] else mel[from..]
    decreases |mel| + CHUNK - from
  {
    if from < |mel| {
      var upto := Min(from + CHUNK, |mel|);
      MainsAreTheSpectrum(silence, mel, from + CHUNK);
      assert Window(silence, mel, from)[PRE_ENCODE_CACHE..PRE_ENCODE_CACHE + (upto - from)] == mel[from..upto];
      assert mel[from..] == mel[from..upto] + mel[upto..];
    }
  }

  /** A later chunk is led by exactly the frames that precede it, which end the chunk before. */
  lemma PrefixIsThePrecedingFrames<M>(silence: M, mel: seq<M>, from: nat)
    requires CHUNK <= from < |mel| && Aligned(from)
    ensures Window(silence, mel, from)[..PRE_ENCODE_CACHE] == mel[from - PRE_ENCODE_CACHE..from]
    ensures Window(silence, mel, from)[..PRE_ENCODE_CACHE] == Window(silence, mel, from - CHUNK)[CHUNK..]
  {
  }

  /** Before the first chunk and past what the encoder is told of, there is silence. */
  lemma RestIsSilence<M>(silence: M, mel: seq<M>, from: nat)
    requires Aligned(from) && from < |mel|
    ensures from == 0 ==> forall i | 0 <= i < PRE_ENCODE_CACHE :: Window(silence, mel, from)[i] == silence
    ensures forall i | Told(mel, from) <= i < ENC_FRAMES_IN :: Window(silence, mel, from)[i] == silence
  {
  }

  /** The encoder is called on chunk after chunk, each with the cache the one before left. */
  ghost predicate Threaded<M, E, C, S>(n: Networks<M, E, C, S>, mel: seq<M>, from: nat, caches: seq<C>, outs: seq<seq<E>>) {
    && |caches| == |outs| + 1
    && |mel| <= from + CHUNK * |outs|
    && forall i | 0 <= i < |outs| ::
         && Started(mel, from + CHUNK * i)
         && (outs[i], caches[i + 1]) == n.encode(Window(n.silence, mel, from + CHUNK * i), Told(mel, from + CHUNK * i), caches[i])
  }

  predicate Started<M>(mel: seq<M>, from: nat) {
    from < |mel| && (from == 0 || from >= PRE_ENCODE_CACHE)
  }

  function Flat<E>(outs: seq<seq<E>>): seq<E> {
    if outs == [] then [] else outs[0] + Flat(outs[1..])
  }

  /** The encoder's frames are those of such calls, one for each chunk begun, starting from the empty cache. */
  lemma {:induction false} EncoderIsThreaded<M, E, C, S>(n: Networks<M, E, C, S>, mel: seq<M>, from: nat, cache: C)
    returns (caches: seq<C>, outs: seq<seq<E>>)
    requires Aligned(from)
    ensures Threaded(n, mel, from, caches, outs) && caches[0] == cache
    ensures EncodeFrom(n, mel, from, cache) == Flat(outs)
    decreases |mel| - from
  {
    if from >= |mel| {
      caches, outs := [cache], [];
    } else {
      var (frames, next) := Fed(n, mel, from, cache);
      var laterCaches, laterOuts := EncoderIsThreaded(n, mel, from + CHUNK, next);
      caches, outs := [cache] + laterCaches, [frames] + laterOuts;
      forall i | 0 <= i < |outs|
        ensures Started(mel, from + CHUNK * i)
        ensures (outs[i], caches[i + 1]) == n.encode(Window(n.silence, mel, from + CHUNK * i), Told(mel, from + CHUNK * i), caches[i])
      {
        if i > 0 {
          assert from + CHUNK * i == (from + CHUNK) + CHUNK * (i - 1);
          assert outs[i] == laterOuts[i - 1] && caches[i + 1] == laterCaches[i] && caches[i] == laterCaches[i - 1];
        }
      }
      assert outs[1..] == laterOuts;
    }
  }

  // ---------------------------------------------------------------------------
  // Greedy decoding
  // ---------------------------------------------------------------------------

  /** The last symbol and the decoder's memory. */
  datatype Point<S> = Point(last: nat, memory: S)

  /** Where decoding stands after taking the predicted symbol, and that symbol. */
  function Advance<M, E, C, S>(n: Networks<M, E, C, S>, e: E, p: Point<S>): Point<S> {
    var (k, memory) := n.predict(e, p.last, p.memory);
    Point(k, memory)
  }

  function DecodeFrame<M, E, C, S>(n: Networks<M, E, C, S>, e: E, p: Point<S>, left: nat): (seq<nat>, Point<S>)
    decreases left
  {
    if left == 0 then ([], p)
    else
      var q := Advance(n, e, p);
      if q.last == BLANK_ID then ([], p)
      else
        var (rest, end) := DecodeFrame(n, e, q, left - 1);
        ([q.last] + rest, end)
  }

  function Decode<M, E, C, S>(n: Networks<M, E, C, S>, frames: seq<E>, p: Point<S>): (seq<nat>, Point<S>) {
    if frames == [] then ([], p)
    else
      var (ids, q) := DecodeFrame(n, frames[0], p, MAX_SYMBOLS);
      var (rest, end) := Decode(n, frames[1..], q);
      (ids + rest, end)
  }

  /** The encoder's input buffer: silence, overwritten by the kept frames and then the new ones. */
  method FillChunk<M>(silence: M, mel: seq<M>, buf: nat, chunkIdx: nat, mainLen: nat) returns (chunk: seq<M>)
    requires Aligned(buf) && (chunkIdx == 0 <==> buf == 0) && buf < |mel| && mainLen == Min(buf + CHUNK, |mel|) - buf
    ensures chunk == Window(silence, mel, buf)
  {
    chunk := Silence(silence, ENC_FRAMES_IN);
    if chunkIdx > 0 && buf >= PRE_ENCODE_CACHE {
      var cs := buf - PRE_ENCODE_CACHE;
      chunk := mel[cs..cs + PRE_ENCODE_CACHE] + chunk[PRE_ENCODE_CACHE..];
    }
    chunk := chunk[..PRE_ENCODE_CACHE] + mel[buf..buf + mainLen] + chunk[PRE_ENCODE_CACHE + mainLen..];
  }

  /** One chunk through the encoder and the decoder. */
  method ChunkThrough<M, E, C, S>(n: Networks<M, E, C, S>, mel: seq<M>, buf: nat, chunkIdx: nat, cache: C, point: Point<S>)
    returns (more: seq<nat>, end: Point<S>, next: C)
    requires Aligned(buf) && (chunkIdx == 0 <==> buf == 0) && buf < |mel|
    ensures next == Fed(n, mel, buf, cache).1
    ensures (more, end) == Decode(n, Fed(n, mel, buf, cache).0, point)
  {
    hide Decode, Window;
    var chunkEnd := Min(buf + CHUNK, |mel|);
    var mainLen := chunkEnd - buf;
    var chunk := FillChunk(n.silence, mel, buf, chunkIdx, mainLen);
    var (frames, after) := n.encode(chunk, PRE_ENCODE_CACHE + mainLen, cache);
    more, end := DecodeChunk(n, frames, point);
    next := after;
  }

  method RunPipeline<M, E, C, S>(n: Networks<M, E, C, S>, mel: seq<M>) returns (ids: seq<nat>)
    ensures ids == Decode(n, EncodeFrom(n, mel, 0, n.cache), Point(BLANK_ID, n.memory)).0
  {
    var total := |mel|;
    if total == 0 { return []; }
    hide *;
    var cache := n.cache;
    var point := Point(BLANK_ID, n.memory);
    ids := [];
    var buf, chunkIdx := 0, 0;
    ghost var start := point;
    ghost var done: seq<E> := [];
    AlignedStart();
    ReachedStart(n, mel, start);
    while buf < total
      invariant Aligned(buf) && (chunkIdx == 0 <==> buf == 0)
      invariant Reached(n, mel, start, done, buf, cache, ids, point)
    {
      var more, end, next := ChunkThrough(n, mel, buf, chunkIdx, cache, point);
      AlignedNext(buf);
      ReachedNext(n, mel, start, done, buf, cache, ids, point);
      done := done + Fed(n, mel, buf, cache).0;
      ids := ids + more;
      point := end;
      cache := next;
      buf := buf + CHUNK;
      chunkIdx := chunkIdx + 1;
    }
    ReachedEnd(n, mel, start, done, buf, cache, ids, point);
  }

  /** The chunks before `buf` gave the encoder's frames `done`, and decoding those led here. */
  ghost predicate Reached<M, E, C, S>(n: Networks<M, E, C, S>, mel: seq<M>, start: Point<S>, done: seq<E>, buf: nat,
                                      cache: C, ids: seq<nat>, point: Point<S>)
    requires Aligned(buf)
  {
    && EncodeFrom(n, mel, 0, n.cache) == done + EncodeFrom(n, mel, buf, cache)
    && Decode(n, done, start) == (ids, point)
  }

  lemma ReachedStart<M, E, C, S>(n: Networks<M, E, C, S>, mel: seq<M>, start: Point<S>)
    ensures Reached(n, mel, start, [], 0, n.cache, [], start)
  {
    hide EncodeFrom;
    assert [] + EncodeFrom(n, mel, 0, n.cache) == EncodeFrom(n, mel, 0, n.cache);
  }

  lemma ReachedNext<M, E, C, S>(n: Networks<M, E, C, S>, mel: seq<M>, start: Point<S>, done: seq<E>, buf: nat, cache: C,
                                ids: seq<nat>, point: Point<S>)
    requires Aligned(buf) && buf < |mel| && Reached(n, mel, start, done, buf, cache, ids, point)
    ensures var (frames, next) := Fed(n, mel, buf, cache);
            var (more, end) := Decode(n, frames, point);
            Reached(n, mel, start, done + frames, buf + CHUNK, next, ids + more, end)
  {
    ChunkStep(n, mel, buf, cache, done);
    hide Window, EncodeFrom, Decode;
    DecodeConcat(n, done, Fed(n, mel, buf, cache).0, start);
  }

  lemma ReachedEnd<M, E, C, S>(n: Networks<M, E, C, S>, mel: seq<M>, start: Point<S>, done: seq<E>, buf: nat, cache: C,
                               ids: seq<nat>, point: Point<S>)
    requires Aligned(buf) && buf >= |mel| && Reached(n, mel, start, done, buf, cache, ids, point)
    ensures Decode(n, EncodeFrom(n, mel, 0, n.cache), start) == (ids, point)
  {
    hide Decode;
    assert done == done + [];
  }

  lemma ChunkStep<M, E, C, S>(n: Networks<M, E, C, S>, mel: seq<M>, buf: nat, cache: C, done: seq<E>)
    requires Aligned(buf) && buf < |mel|
    ensures var (frames, next) := Fed(n, mel, buf, cache);
            done + EncodeFrom(n, mel, buf, cache) == (done + frames) + EncodeFrom(n, mel, buf + CHUNK, next)
  {
    hide Window;
  }

  /** The two inner loops: at most MAX_SYMBOLS symbols a frame, up to the first blank. */
  method DecodeChunk<M, E, C, S>(n: Networks<M, E, C, S>, frames: seq<E>, start: Point<S>)
    returns (ids: seq<nat>, point: Point<S>)
    ensures (ids, point) == Decode(n, frames, start)
  {
    hide Decode;
    ids, point := [], start;
    DecodeNone(n, start);
    for t := 0 to |frames|
      invariant Decode(n, frames[..t], start) == (ids, point)
    {
      ghost var ids0, point0 := ids, point;
      assert ids[|ids0|..] == [] && [] + DecodeFrame(n, frames[t], point, MAX_SYMBOLS).0 == DecodeFrame(n, frames[t], point, MAX_SYMBOLS).0;
      for s := 0 to MAX_SYMBOLS
        invariant ids0 <= ids
        invariant var rest := DecodeFrame(n, frames[t], point, MAX_SYMBOLS - s);
                  DecodeFrame(n, frames[t], point0, MAX_SYMBOLS) == (ids[|ids0|..] + rest.0, rest.1)
      {
        var (k, memory) := n.predict(frames[t], point.last, point.memory);
        if k == BLANK_ID { break; }
        assert ids[|ids0|..] + ([k] + DecodeFrame(n, frames[t], Point(k, memory), MAX_SYMBOLS - s - 1).0) ==
               (ids + [k])[|ids0|..] + DecodeFrame(n, frames[t], Point(k, memory), MAX_SYMBOLS - s - 1).0;
        ids := ids + [k];
        point := Point(k, memory);
      }
      DecodeMore(n, frames, t, start);
      assert ids == ids0 + ids[|ids0|..];
      assert ids[|ids0|..] + [] == ids[|ids0|..];
    }
    assert frames[..|frames|] == frames;
  }

  // ---------------------------------------------------------------------------
  // What decoding means
  // ---------------------------------------------------------------------------

  /** Decoding does not depend on where the frames are cut into chunks. */
  lemma {:induction false} DecodeConcat<M, E, C, S>(n: Networks<M, E, C, S>, a: seq<E>, b: seq<E>, p: Point<S>)
    ensures var (ids, q) := Decode(n, a, p);
            var (more, end) := Decode(n, b, q);
            Decode(n, a + b, p) == (ids + more, end)
  {
    hide DecodeFrame;
    if a == [] {
      assert a + b == b;
      assert [] + Decode(n, b, p).0 == Decode(n, b, p).0;
    } else {
      var (ids, q) := DecodeFrame(n, a[0], p, MAX_SYMBOLS);
      DecodeConcat(n, a[1..], b, q);
      assert (a + b)[1..] == a[1..] + b;
      var (rest, r) := Decode(n, a[1..], q);
      assert Decode(n, a, p) == (ids + rest, r);
      assert Decode(n, a + b, p) == (ids + (rest + Decode(n, b, r).0), Decode(n, b, r).1);
      assert (ids + rest) + Decode(n, b, r).0 == ids + (rest + Decode(n, b, r).0);
    }
  }

  lemma DecodeNone<M, E, C, S>(n: Networks<M, E, C, S>, p: Point<S>)
    ensures Decode(n, [], p) == ([], p)
  {
  }

  lemma DecodeMore<M, E, C, S>(n: Networks<M, E, C, S>, frames: seq<E>, t: nat, p: Point<S>)
    requires t < |frames|
    ensures var (ids, q) := Decode(n, frames[..t], p);
            var (more, end) := DecodeFrame(n, frames[t], q, MAX_SYMBOLS);
            Decode(n, frames[..t + 1], p) == (ids + more, end)
  {
    assert frames[..t + 1] == frames[..t] + [frames[t]];
    DecodeConcat(n, frames[..t], [frames[t]], p);
    var q := Decode(n, frames[..t], p).1;
    assert [frames[t]][1..] == [];
    var (more, end) := DecodeFrame(n, frames[t], q, MAX_SYMBOLS);
    assert Decode(n, [], end) == ([], end);
    assert more + [] == more;
    assert Decode(n, [frames[t]], q) == (more, end);
  }

  /** Where decoding one frame stands after `i` symbols. */
  function PointAfter<M, E, C, S>(n: Networks<M, E, C, S>, e: E, p: Point<S>, i: nat): Point<S>
    decreases i
  {
    if i == 0 then p else PointAfter(n, e, Advance(n, e, p), i - 1)
  }

  /** The greedy symbols of a frame: each the likeliest after those before it, none blank, up to a blank
      prediction or the limit. */
  ghost predicate Greedy<M, E, C, S>(n: Networks<M, E, C, S>, e: E, p: Point<S>, limit: nat, ids: seq<nat>) {
    && |ids| <= limit
    && (forall i | 0 <= i < |ids| :: ids[i] == PointAfter(n, e, p, i + 1).last && ids[i] != BLANK_ID)
    && (|ids| == limit || PointAfter(n, e, p, |ids| + 1).last == BLANK_ID)
  }

  /** The decoder finds the greedy symbols of a frame, there is no other such sequence, and it goes on from the
      last of them: the blank leaves no trace. */
  lemma {:induction false} DecodeFrameIsGreedy<M, E, C, S>(n: Networks<M, E, C, S>, e: E, p: Point<S>, limit: nat, ids: seq<nat>)
    ensures Greedy(n, e, p, limit, ids) <==> ids == DecodeFrame(n, e, p, limit).0
    ensures DecodeFrame(n, e, p, limit).1 == PointAfter(n, e, p, |DecodeFrame(n, e, p, limit).0|)
    decreases limit
  {
    if limit > 0 {
      var q := Advance(n, e, p);
      assert PointAfter(n, e, p, 1) == q;
      if ids != [] { GreedyTail(n, e, p, limit, ids); }
      if q.last != BLANK_ID {
        var rest := DecodeFrame(n, e, q, limit - 1).0;
        DecodeFrameIsGreedy(n, e, q, limit - 1, rest);
        if ids != [] {
          DecodeFrameIsGreedy(n, e, q, limit - 1, ids[1..]);
        }
      }
    }
  }

  lemma GreedyTail<M, E, C, S>(n: Networks<M, E, C, S>, e: E, p: Point<S>, limit: nat, ids: seq<nat>)
    requires ids != [] && limit > 0
    ensures Greedy(n, e, p, limit, ids) <==>
              ids[0] == Advance(n, e, p).last && ids[0] != BLANK_ID && Greedy(n, e, Advance(n, e, p), limit - 1, ids[1..])
  {
    assert PointAfter(n, e, p, 1) == Advance(n, e, p);
    if Greedy(n, e, p, limit, ids) {
      forall i | 0 <= i < |ids[1..]|
        ensures ids[1..][i] == PointAfter(n, e, Advance(n, e, p), i + 1).last && ids[1..][i] != BLANK_ID
      {
        assert ids[i + 1] == PointAfter(n, e, p, i + 2).last;
      }
    }
    if ids[0] == Advance(n, e, p).last && ids[0] != BLANK_ID && Greedy(n, e, Advance(n, e, p), limit - 1, ids[1..]) {
      forall i | 0 <= i < |ids| ensures ids[i] == PointAfter(n, e, p, i + 1).last && ids[i] != BLANK_ID {
        assert i > 0 ==> ids[i] == ids[1..][i - 1];
      }
    }
  }

  /** No blank is ever emitted, and at most ten symbols for each frame. */
  lemma {:induction false} SymbolsBounded<M, E, C, S>(n: Networks<M, E, C, S>, frames: seq<E>, p: Point<S>)
    ensures |Decode(n, frames, p).0| <= 10 * |frames|
    ensures BLANK_ID !in Decode(n, frames, p).0
  {
    if frames != [] {
      var (ids, q) := DecodeFrame(n, frames[0], p, MAX_SYMBOLS);
      DecodeFrameIsGreedy(n, frames[0], p, MAX_SYMBOLS, ids);
      SymbolsBounded(n, frames[1..], q);
    }
  }
}
