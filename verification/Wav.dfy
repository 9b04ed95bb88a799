/** Mono 16-bit PCM in a RIFF/WAVE container: the writer and the chunk-walking reader. */
module Wav {
  import opened G711

  const MAX_SAMPLES := 10_000_000

  const RIFF: seq<Octet> := [0x52, 0x49, 0x46, 0x46]
  const WAVE: seq<Octet> := [0x57, 0x41, 0x56, 0x45]
  const FMT: seq<Octet> := [0x66, 0x6D, 0x74, 0x20]
  const DATA: seq<Octet> := [0x64, 0x61, 0x74, 0x61]

  function Le16(n: nat): (b: seq<Octet>)
    requires n < 0x1_0000
    ensures |b| == 2
  {
    [n % 256, n / 256]
  }

  function Le32(n: nat): (b: seq<Octet>)
    requires n < 0x1_0000_0000
    ensures |b| == 4
  {
    Le16(n % 0x1_0000) + Le16(n / 0x1_0000)
  }

  function Get16(b: seq<Octet>, o: nat): nat
    requires o + 2 <= |b|
  {
    (b[o] as int) + 256 * (b[o + 1] as int)
  }

  function Get32(b: seq<Octet>, o: nat): nat
    requires o + 4 <= |b|
  {
    Get16(b, o) + 0x1_0000 * Get16(b, o + 2)
  }

  /** The 16 bits of an i16 in two's complement. */
  function Unsigned(x: int): nat
    requires -0x8000 <= x < 0x8000
  {
    if x < 0 then x + 0x1_0000 else x
  }

  function SampleBytes(x: Sample): (b: seq<Octet>)
    ensures |b| == 2
  {
    Le16(Unsigned(x))
  }

  function GetSample(b: seq<Octet>, o: nat): Sample
    requires o + 2 <= |b|
  {
    var n := Get16(b, o);
    if n >= 0x8000 then n - 0x1_0000 else n
  }

  function AllSampleBytes(samples: seq<Sample>): (b: seq<Octet>)
    ensures |b| == 2 * |samples|
  {
    if samples == [] then []
    else AllSampleBytes(samples[..|samples| - 1]) + SampleBytes(samples[|samples| - 1])
  }

  /** The first 36 octets: the RIFF header, whose size field nobody reads back, and the format chunk. */
  function Header(riffSize: nat, rate: nat): (b: seq<Octet>)
    requires riffSize < 0x1_0000_0000 && 2 * rate < 0x1_0000_0000
    ensures |b| == 36
  {
    RIFF + Le32(riffSize) + WAVE + FMT + Le32(16) + Le16(1) + Le16(1) + Le32(rate) + Le32(2 * rate) + Le16(2) + Le16(16)
  }

  /** What the writer demands of its caller; it panics otherwise. */
  predicate Writable(samples: seq<Sample>, rate: nat) {
    0 < rate && 2 * rate < 0x1_0000_0000 && 36 + 2 * |samples| < 0x1_0000_0000
  }

  function WavBytes(samples: seq<Sample>, rate: nat): seq<Octet>
    requires Writable(samples, rate)
  {
    Header(36 + 2 * |samples|, rate) + DATA + Le32(2 * |samples|) + AllSampleBytes(samples)
  }

  method WriteWav(samples: seq<Sample>, rate: nat) returns (out: seq<Octet>)
    requires Writable(samples, rate)
    ensures out == WavBytes(samples, rate)
  {
    out := Header(36 + 2 * |samples|, rate) + DATA + Le32(2 * |samples|);
    ghost var head := out;
    var i := 0;
    while i < |samples|
      invariant 0 <= i <= |samples|
      invariant out == head + AllSampleBytes(samples[..i])
    {
      assert samples[..i + 1][..i] == samples[..i];
      out := out + SampleBytes(samples[i]);
      i := i + 1;
    }
    assert samples[..i] == samples;
  }

  // ----- The reader ----------------------------------------------------------

  datatype Error = NotWav | NotMonoPcm16 | TruncatedData | TooManySamples | ChunkPastEnd | NoData

  datatype Decoded = Ok(rate: nat, samples: seq<Sample>) | Err(error: Error)

  function SamplesAt(b: seq<Octet>, o: nat, n: nat): (s: seq<Sample>)
    requires o + 2 * n <= |b|
    ensures |s| == n
  {
    seq(n, i requires 0 <= i < n => GetSample(b, o + 2 * i))
  }

  /** Where the samples are: the body of the first data chunk. */
  datatype Found = Body(at: nat, len: nat) | Missing(error: Error)

  /** The chunk walk from `offset`. */
  function Walk(b: seq<Octet>, offset: nat): (f: Found)
    requires offset <= |b|
    ensures f.Body? ==> f.at + f.len <= |b| && f.len / 2 <= MAX_SAMPLES
    decreases |b| - offset
  {
    if offset + 8 > |b| then Missing(NoData)
    else
      var len := Get32(b, offset + 4);
      var body := offset + 8;
      if b[offset..offset + 4] == DATA then
        if body + len > |b| then Missing(TruncatedData)
        else if len / 2 > MAX_SAMPLES then Missing(TooManySamples)
        else Body(body, len)
      else
        var next := body + len + len % 2;
        if next > |b| then Missing(ChunkPastEnd) else Walk(b, next)
  }

  function ReadWav(b: seq<Octet>): Decoded {
    if |b| < 44 || b[..4] != RIFF || b[8..12] != WAVE then Err(NotWav)
    else if Get16(b, 20) != 1 || Get16(b, 22) != 1 || Get16(b, 34) != 16 then Err(NotMonoPcm16)
    else
      match Walk(b, 12)
      case Missing(error) => Err(error)
      case Body(at, len) => Ok(Get32(b, 24), SamplesAt(b, at, len / 2))
  }

  method ReadSamples(b: seq<Octet>, offset: nat, n: nat) returns (samples: seq<Sample>)
    requires offset + 2 * n <= |b|
    ensures samples == SamplesAt(b, offset, n)
  {
    samples := [];
    var i := 0;
    while i < n
      invariant 0 <= i <= n
      invariant samples == SamplesAt(b, offset, i)
    {
      samples := samples + [GetSample(b, offset + 2 * i)];
      i := i + 1;
    }
  }

  /** The reader as a loop; it terminates and stays in bounds on any octets. */
  method ReadPcm16Wav(b: seq<Octet>) returns (r: Decoded)
    ensures r == ReadWav(b)
  {
    if |b| < 44 || b[..4] != RIFF || b[8..12] != WAVE {
      return Err(NotWav);
    }
    var format, channels, rate, bits := Get16(b, 20), Get16(b, 22), Get32(b, 24), Get16(b, 34);
    if format != 1 || channels != 1 || bits != 16 {
      return Err(NotMonoPcm16);
    }
    var offset := 12;
    while offset + 8 <= |b|
      invariant 12 <= offset <= |b|
      invariant Walk(b, 12) == Walk(b, offset)
      decreases |b| - offset
    {
      var id := b[offset..offset + 4];
      var len := Get32(b, offset + 4);
      offset := offset + 8;
      if id == DATA {
        var dataEnd := offset + len;
        if dataEnd > |b| {
          return Err(TruncatedData);
        }
        if len / 2 > MAX_SAMPLES {
          return Err(TooManySamples);
        }
        var samples := ReadSamples(b, offset, len / 2);
        return Ok(rate, samples);
      }
      offset := offset + len + len % 2;
      if offset > |b| {
        return Err(ChunkPastEnd);
      }
    }
    r := Err(NoData);
  }

  // ----- What was written is read back ---------------------------------------

  datatype Chunk = Chunk(id: seq<Octet>, body: seq<Octet>)
  {
    predicate Valid() { |id| == 4 && |body| < 0x1_0000_0000 }

    function Padding(): seq<Octet> { if |body| % 2 == 1 then [0] else [] }

    /** The chunk as octets, padded to a whole number of words. */
    function Bytes(): (b: seq<Octet>)
      requires Valid()
      ensures |b| == 8 + |body| + |body| % 2
    {
      id + Le32(|body|) + body + Padding()
    }
  }

  predicate Skippable(chunks: seq<Chunk>) {
    forall i :: 0 <= i < |chunks| ==> chunks[i].Valid() && chunks[i].id != DATA
  }

  function ChunkBytes(chunks: seq<Chunk>): seq<Octet>
    requires Skippable(chunks)
  {
    if chunks == [] then [] else chunks[0].Bytes() + ChunkBytes(chunks[1..])
  }

  /** `part` stands in `b` at offset `o`. */
  predicate At(b: seq<Octet>, o: nat, part: seq<Octet>) {
    o + |part| <= |b| && b[o..o + |part|] == part
  }

  lemma AtSplit(b: seq<Octet>, o: nat, x: seq<Octet>, y: seq<Octet>)
    ensures At(b, o, x + y) <==> At(b, o, x) && At(b, o + |x|, y)
  {
    if o + |x| + |y| <= |b| {
      var all := b[o..o + |x| + |y|];
      assert all[..|x|] == b[o..o + |x|] && all[|x|..] == b[o + |x|..o + |x| + |y|];
      assert (x + y)[..|x|] == x && (x + y)[|x|..] == y;
      assert all == all[..|x|] + all[|x|..];
    }
  }

  lemma Get16Back(b: seq<Octet>, o: nat, n: nat)
    requires n < 0x1_0000 && At(b, o, Le16(n))
    ensures Get16(b, o) == n
  {
    assert b[o] == b[o..o + 2][0] && b[o + 1] == b[o..o + 2][1];
  }

  lemma Get32Back(b: seq<Octet>, o: nat, n: nat)
    requires n < 0x1_0000_0000 && At(b, o, Le32(n))
    ensures Get32(b, o) == n
  {
    AtSplit(b, o, Le16(n % 0x1_0000), Le16(n / 0x1_0000));
    Get16Back(b, o, n % 0x1_0000);
    Get16Back(b, o + 2, n / 0x1_0000);
  }

  lemma {:induction false} SamplesBack(b: seq<Octet>, o: nat, samples: seq<Sample>)
    requires At(b, o, AllSampleBytes(samples))
    ensures SamplesAt(b, o, |samples|) == samples
    decreases |samples|
  {
    if samples != [] {
      var n := |samples| - 1;
      var init, last := samples[..n], samples[n];
      AtSplit(b, o, AllSampleBytes(init), SampleBytes(last));
      SamplesBack(b, o, init);
      Get16Back(b, o + 2 * n, Unsigned(last));
      forall i | 0 <= i < n ensures SamplesAt(b, o, n + 1)[i] == samples[i] {
        assert SamplesAt(b, o, n)[i] == init[i];
      }
    }
  }

  /** At `o` stands a chunk that is not the data chunk, and `next` is where it ends. */
  predicate Steps(b: seq<Octet>, o: nat, next: nat) {
    && o + 8 <= |b| && b[o..o + 4] != DATA
    && next == o + 8 + Get32(b, o + 4) + Get32(b, o + 4) % 2 <= |b|
  }

  lemma WalkSteps(b: seq<Octet>, o: nat, next: nat)
    requires Steps(b, o, next)
    ensures Walk(b, o) == Walk(b, next)
  {
  }

  /** Offsets from chunk to chunk. */
  predicate Path(b: seq<Octet>, offs: seq<nat>) {
    |offs| > 0 && offs[0] <= |b| && forall i :: 0 <= i < |offs| - 1 ==> Steps(b, offs[i], offs[i + 1])
  }

  lemma {:induction false} WalkPath(b: seq<Octet>, offs: seq<nat>)
    requires Path(b, offs)
    ensures offs[|offs| - 1] <= |b| && Walk(b, offs[0]) == Walk(b, offs[|offs| - 1])
    decreases |offs|
  {
    var n := |offs| - 1;
    if n > 0 {
      WalkPath(b, offs[..n]);
      assert Steps(b, offs[n - 1], offs[n - 1 + 1]);
      WalkSteps(b, offs[n - 1], offs[n]);
    }
  }

  lemma ChunkFields(b: seq<Octet>, o: nat, c: Chunk)
    requires c.Valid() && At(b, o, c.Bytes())
    ensures o + 8 + |c.body| + |c.body| % 2 <= |b|
    ensures b[o..o + 4] == c.id && Get32(b, o + 4) == |c.body|
  {
    AtSplit(b, o, c.id + Le32(|c.body|) + c.body, c.Padding());
    AtSplit(b, o, c.id + Le32(|c.body|), c.body);
    AtSplit(b, o, c.id, Le32(|c.body|));
    Get32Back(b, o + 4, |c.body|);
  }

  lemma ChunkSteps(b: seq<Octet>, o: nat, c: Chunk)
    requires c.Valid() && c.id != DATA && At(b, o, c.Bytes())
    ensures Steps(b, o, o + |c.Bytes()|)
  {
    ChunkFields(b, o, c);
  }

  lemma {:induction false} ChunksPath(b: seq<Octet>, o: nat, chunks: seq<Chunk>) returns (offs: seq<nat>)
    requires Skippable(chunks) && At(b, o, ChunkBytes(chunks))
    ensures Path(b, offs) && offs[0] == o && offs[|offs| - 1] == o + |ChunkBytes(chunks)|
    decreases |chunks|
  {
    offs := [o];
    if chunks != [] {
      var c, rest := chunks[0], chunks[1..];
      AtSplit(b, o, c.Bytes(), ChunkBytes(rest));
      ChunkSteps(b, o, c);
      var tail := ChunksPath(b, o + |c.Bytes()|, rest);
      offs := [o] + tail;
      forall i | 0 <= i < |offs| - 1 ensures Steps(b, offs[i], offs[i + 1]) {
        if i > 0 { assert Steps(b, tail[i - 1], tail[i - 1 + 1]); }
      }
    }
  }

  lemma ReadData(b: seq<Octet>, o: nat, samples: seq<Sample>)
    requires 2 * |samples| < 0x1_0000_0000
    requires At(b, o, DATA + Le32(2 * |samples|) + AllSampleBytes(samples))
    ensures Walk(b, o) == if |samples| <= MAX_SAMPLES then Body(o + 8, 2 * |samples|) else Missing(TooManySamples)
    ensures SamplesAt(b, o + 8, |samples|) == samples
  {
    AtSplit(b, o, DATA + Le32(2 * |samples|), AllSampleBytes(samples));
    AtSplit(b, o, DATA, Le32(2 * |samples|));
    Get32Back(b, o + 4, 2 * |samples|);
    SamplesBack(b, o + 8, samples);
  }

  /** The format chunk of the header, as a chunk. */
  function FormatChunk(rate: nat): (c: Chunk)
    requires 2 * rate < 0x1_0000_0000
    ensures c.Valid() && c.id != DATA && |c.Bytes()| == 24
  {
    Chunk(FMT, Le16(1) + Le16(1) + Le32(rate) + Le32(2 * rate) + Le16(2) + Le16(16))
  }

  lemma HeaderParts(riffSize: nat, rate: nat)
    requires riffSize < 0x1_0000_0000 && 2 * rate < 0x1_0000_0000
    ensures Header(riffSize, rate) == RIFF + Le32(riffSize) + WAVE + FormatChunk(rate).Bytes()
  {
  }

  lemma FormatFields(b: seq<Octet>, o: nat, rate: nat)
    requires 2 * rate < 0x1_0000_0000 && At(b, o, FormatChunk(rate).Bytes())
    ensures Get16(b, o + 8) == 1 && Get16(b, o + 10) == 1 && Get32(b, o + 12) == rate && Get16(b, o + 22) == 16
  {
    var after := Le32(2 * rate) + Le16(2);
    assert FormatChunk(rate).Bytes() == FMT + Le32(16) + Le16(1) + Le16(1) + Le32(rate) + after + Le16(16);
    AtSplit(b, o, FMT + Le32(16) + Le16(1) + Le16(1) + Le32(rate) + after, Le16(16));
    AtSplit(b, o, FMT + Le32(16) + Le16(1) + Le16(1) + Le32(rate), after);
    AtSplit(b, o, FMT + Le32(16) + Le16(1) + Le16(1), Le32(rate));
    AtSplit(b, o, FMT + Le32(16) + Le16(1), Le16(1));
    AtSplit(b, o, FMT + Le32(16), Le16(1));
    Get16Back(b, o + 8, 1);
    Get16Back(b, o + 10, 1);
    Get32Back(b, o + 12, rate);
    Get16Back(b, o + 22, 16);
  }

  lemma ReadHeader(b: seq<Octet>, riffSize: nat, rate: nat)
    requires riffSize < 0x1_0000_0000 && 2 * rate < 0x1_0000_0000
    requires |b| >= 44 && At(b, 0, Header(riffSize, rate))
    ensures Get16(b, 20) == 1 && Get16(b, 22) == 1 && Get32(b, 24) == rate && Get16(b, 34) == 16
    ensures b[..4] == RIFF && b[8..12] == WAVE && Walk(b, 12) == Walk(b, 36)
  {
    var c := FormatChunk(rate);
    HeaderParts(riffSize, rate);
    AtSplit(b, 0, RIFF + Le32(riffSize) + WAVE, c.Bytes());
    AtSplit(b, 0, RIFF + Le32(riffSize), WAVE);
    AtSplit(b, 0, RIFF, Le32(riffSize));
    FormatFields(b, 12, rate);
    ChunkSteps(b, 12, c);
    WalkSteps(b, 12, 36);
  }

  lemma Layout(x: seq<Octet>, y: seq<Octet>, z: seq<Octet>, rest: seq<Octet>)
    ensures var b := x + y + z + rest;
            At(b, 0, x) && At(b, |x|, y) && At(b, |x| + |y|, z)
  {
    var b := x + y + z + rest;
    AtSplit(b, 0, x + y + z, rest);
    AtSplit(b, 0, x + y, z);
    AtSplit(b, 0, x, y);
  }

  /**
    Reading back what was written gives the same rate and samples, also when any
    list of other chunks stands before the data chunk and anything follows it;
    the only limit is the reader's own on the number of samples.
   */
  lemma WavRoundTrip(samples: seq<Sample>, rate: nat, riffSize: nat, chunks: seq<Chunk>, post: seq<Octet>)
    requires Writable(samples, rate) && riffSize < 0x1_0000_0000 && Skippable(chunks)
    ensures var data := DATA + Le32(2 * |samples|) + AllSampleBytes(samples);
            ReadWav(Header(riffSize, rate) + ChunkBytes(chunks) + data + post) ==
            if |samples| <= MAX_SAMPLES then Ok(rate, samples) else Err(TooManySamples)
  {
    var data := DATA + Le32(2 * |samples|) + AllSampleBytes(samples);
    var head, mid := Header(riffSize, rate), ChunkBytes(chunks);
    var b := head + mid + data + post;
    Layout(head, mid, data, post);
    ReadHeader(b, riffSize, rate);
    var offs := ChunksPath(b, 36, chunks);
    WalkPath(b, offs);
    ReadData(b, 36 + |mid|, samples);
  }

  /** The writer's own files. */
  lemma WrittenIsRead(samples: seq<Sample>, rate: nat)
    requires Writable(samples, rate)
    ensures ReadWav(WavBytes(samples, rate)) == Ok(rate, samples) <==> |samples| <= MAX_SAMPLES
  {
    WavRoundTrip(samples, rate, 36 + 2 * |samples|, [], []);
    assert WavBytes(samples, rate) == Header(36 + 2 * |samples|, rate) + ChunkBytes([])
                                      + (DATA + Le32(2 * |samples|) + AllSampleBytes(samples)) + [];
  }
}
