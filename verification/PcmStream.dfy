/** Streaming PCM analysis: sample decoding and the bounded block loop of analyze_pcm_wave
    (n0te/audio_engineering.py), proved equal to one pass over all decoded frames. */
module PcmStream {
  import opened Prelude
  import opened SignalStatistics
  import opened WaveLayout

  const BLOCK: nat := 1024 * 1024

  // ----- Sample decoding

  function Pow256(n: nat): (p: nat)
    ensures p >= 1
  {
    if n == 0 then 1 else 256 * Pow256(n - 1)
  }

  lemma {:induction false} LittleEndianBound(raw: Bytes)
    ensures LittleEndian(raw) < Pow256(|raw|)
  {
    if raw != [] {
      LittleEndianBound(raw[1..]);
    }
  }

  /** int.from_bytes(raw, "little", signed=True). */
  function SignedLittleEndian(raw: Bytes): int
    requires raw != []
  {
    var value := LittleEndian(raw);
    if raw[|raw| - 1] >= 128 then value - Pow256(|raw|) else value
  }

  function FullScale(bits: nat): (s: nat)
    requires bits in {8, 16, 24, 32}
    ensures s > 0
  {
    if bits == 8 then 0x80 else if bits == 16 then 0x8000 else if bits == 24 then 0x80_0000 else 0x8000_0000
  }

  /** The integer numerator the source divides by full scale. */
  function Numerator(raw: Bytes, bits: nat): int
    requires bits in {8, 16, 24, 32} && |raw| == bits / 8
  {
    if bits == 8 then raw[0] - 128
    else if bits == 24 then
      var value := LittleEndian(raw);
      if (value / 0x80_0000) % 2 == 1 then value - 0x100_0000 else value
    else SignedLittleEndian(raw)
  }

  function DecodeSample(raw: Bytes, bits: nat): real
    requires bits in {8, 16, 24, 32} && |raw| == bits / 8
  {
    Numerator(raw, bits) as real / FullScale(bits) as real
  }

  function ToLittleEndian(value: nat, width: nat): (raw: Bytes)
    requires value < Pow256(width)
    ensures |raw| == width
  {
    if width == 0 then [] else [value % 256] + ToLittleEndian(value / 256, width - 1)
  }

  /** The bytes a recorder writes for one sample: offset binary at 8 bits, two's complement above. */
  function EncodeSample(n: int, bits: nat): (raw: Bytes)
    requires bits in {8, 16, 24, 32} && -(FullScale(bits) as int) <= n < FullScale(bits)
    ensures |raw| == bits / 8
  {
    assert Pow256(1) == 0x100 && Pow256(2) == 0x1_0000 && Pow256(3) == 0x100_0000 && Pow256(4) == 0x1_0000_0000;
    if bits == 8 then [n + 128]
    else ToLittleEndian(if n < 0 then n + 2 * FullScale(bits) else n, bits / 8)
  }

  lemma {:induction false} LittleEndianRoundTrip(value: nat, width: nat)
    requires value < Pow256(width)
    ensures LittleEndian(ToLittleEndian(value, width)) == value
  {
    if width > 0 {
      LittleEndianRoundTrip(value / 256, width - 1);
    }
  }

  lemma {:induction false} TopByte(raw: Bytes)
    requires raw != []
    ensures raw[|raw| - 1] >= 128 <==> 2 * LittleEndian(raw) >= Pow256(|raw|)
  {
    if |raw| == 1 {
      assert raw[1..] == [];
    } else {
      TopByte(raw[1..]);
      LittleEndianBound(raw[1..]);
      EvenPower(|raw| - 1);
    }
  }

  lemma EvenPower(n: nat)
    requires n > 0
    ensures Pow256(n) % 2 == 0
  {
  }

  /** The four decoders agree with plain two's complement (offset binary at 8 bits), and every
      sample value is representable: decoding what was encoded gives the sample back. */
  lemma SampleRoundTrip(n: int, bits: nat)
    requires bits in {8, 16, 24, 32} && -(FullScale(bits) as int) <= n < FullScale(bits)
    ensures Numerator(EncodeSample(n, bits), bits) == n
  {
    if bits != 8 {
      var stored := if n < 0 then n + 2 * FullScale(bits) else n;
      PowersOf256();
      LittleEndianRoundTrip(stored, bits / 8);
      TopByte(EncodeSample(n, bits));
    }
  }

  lemma PowersOf256()
    ensures Pow256(1) == 0x100 && Pow256(2) == 0x1_0000 && Pow256(3) == 0x100_0000 && Pow256(4) == 0x1_0000_0000
  {
    assert Pow256(2) == 256 * Pow256(1) && Pow256(3) == 256 * Pow256(2) && Pow256(4) == 256 * Pow256(3);
  }

  /** No decoded sample leaves [-1, 1). */
  lemma SampleInRange(raw: Bytes, bits: nat)
    requires bits in {8, 16, 24, 32} && |raw| == bits / 8
    ensures -(FullScale(bits) as int) <= Numerator(raw, bits) < FullScale(bits)
    ensures -1.0 <= DecodeSample(raw, bits) < 1.0
  {
    PowersOf256();
    LittleEndianBound(raw);
    if bits != 8 {
      TopByte(raw);
    }
  }

  // ----- Frames

  function FrameOf(bytes: Bytes, f: Format): (frame: seq<real>)
    requires GoodFormat(f) && |bytes| == f.blockAlign
    ensures |frame| == f.channels
  {
    seq(f.channels, c requires 0 <= c < f.channels =>
      SampleRangeFits(c, f);
      DecodeSample(bytes[c * (f.bits / 8)..c * (f.bits / 8) + f.bits / 8], f.bits))
  }

  lemma SampleRangeFits(c: nat, f: Format)
    requires GoodFormat(f) && c < f.channels
    ensures c * (f.bits / 8) + f.bits / 8 <= f.blockAlign
  {
    var width := f.bits / 8;
    assert (c + 1) * width <= f.channels * width;
  }

  /** Audio data cut at frame boundaries; an incomplete last frame is dropped. */
  function Cut(data: Bytes, align: nat): (blocks: seq<Bytes>)
    requires align > 0
    ensures Framed(blocks, align)
  {
    if |data| < align then [] else [data[..align]] + Cut(data[align..], align)
  }

  predicate Framed(blocks: seq<Bytes>, align: nat) {
    forall i :: 0 <= i < |blocks| ==> |blocks[i]| == align
  }

  function Decode(blocks: seq<Bytes>, f: Format): (frames: seq<seq<real>>)
    requires GoodFormat(f) && Framed(blocks, f.blockAlign)
    ensures |frames| == |blocks| && Rectangular(frames, f.channels)
  {
    seq(|blocks|, i requires 0 <= i < |blocks| => FrameOf(blocks[i], f))
  }

  /** All frames of a stretch of audio data. */
  function FramesOf(data: Bytes, f: Format): (frames: seq<seq<real>>)
    requires GoodFormat(f)
    ensures Rectangular(frames, f.channels)
  {
    Decode(Cut(data, f.blockAlign), f)
  }

  /** Cutting at frame boundaries commutes with concatenation. */
  lemma {:induction false} CutOfConcat(a: Bytes, b: Bytes, align: nat)
    requires align > 0 && Aligned(|a|, align)
    ensures Cut(a + b, align) == Cut(a, align) + Cut(b, align)
  {
    if a == [] {
      assert a + b == b;
    } else {
      CutOfConcat(a[align..], b, align);
      assert (a + b)[..align] == a[..align];
      assert (a + b)[align..] == a[align..] + b;
    }
  }

  lemma {:induction false} CutCount(data: Bytes, align: nat, count: nat)
    requires align > 0 && align * count == |data|
    ensures |Cut(data, align)| == count
  {
    if count > 0 {
      AtLeastOnce(align, count);
      assert align * (count - 1) == align * count - align;
      CutCount(data[align..], align, count - 1);
    }
  }

  predicate Readable(file: Bytes, chunks: seq<Chunk>) {
    forall i :: 0 <= i < |chunks| ==> chunks[i].start + chunks[i].size <= |file|
  }

  /** The audio bytes of the data chunks, in order. */
  function Audio(file: Bytes, chunks: seq<Chunk>): Bytes
    requires Readable(file, chunks)
  {
    if chunks == [] then []
    else
      var last := chunks[|chunks| - 1];
      Audio(file, chunks[..|chunks| - 1]) + file[last.start..last.start + last.size]
  }

  lemma {:induction false} AudioLength(file: Bytes, chunks: seq<Chunk>)
    requires Readable(file, chunks)
    ensures |Audio(file, chunks)| == TotalSize(chunks)
  {
    if chunks != [] {
      AudioLength(file, chunks[..|chunks| - 1]);
    }
  }

  // ----- The block loop

  /** The totals after one more frame. */
  function Added(t: Tallies, frame: seq<real>): (u: Tallies)
    requires |t.sums| == |t.sumsSq| == |t.peaks| == |frame|
  {
    Tallies(
      seq(|frame|, c requires 0 <= c < |frame| => t.sums[c] + frame[c]),
      seq(|frame|, c requires 0 <= c < |frame| => t.sumsSq[c] + Square(frame[c])),
      seq(|frame|, c requires 0 <= c < |frame| => Max(t.peaks[c], Abs(frame[c]))),
      if |frame| == 2 then t.stereo + Times(frame[0], frame[1]) else t.stereo,
      t.frames + 1,
      t.values + |frame|)
  }

  lemma TallyOfOneMoreFrame(seen: seq<seq<real>>, frame: seq<real>, channels: nat)
    requires Rectangular(seen, channels) && |frame| == channels
    ensures Rectangular(seen + [frame], channels)
    ensures Tally(seen + [frame], channels) == Added(Tally(seen, channels), frame)
  {
    var u, v := Tally(seen + [frame], channels), Added(Tally(seen, channels), frame);
    forall c | 0 <= c < channels
      ensures v.sums[c] == u.sums[c] && v.sumsSq[c] == u.sumsSq[c] && v.peaks[c] == u.peaks[c]
    {
      ChannelOfOneMoreFrame(seen, frame, channels, c);
    }
    assert v.sums == u.sums && v.sumsSq == u.sumsSq && v.peaks == u.peaks;
    if channels == 2 {
      StereoOfOneMoreFrame(seen, frame);
    }
    OneMoreRow(|seen|, channels);
  }

  lemma OneMoreRow(rows: nat, width: nat)
    ensures (rows + 1) * width == rows * width + width
  {
  }

  /** One frame: decode each channel in turn and add it to that channel's totals. */
  method TallyFrame(bytes: Bytes, f: Format, t: Tallies) returns (u: Tallies)
    requires GoodFormat(f) && |bytes| == f.blockAlign
    requires |t.sums| == |t.sumsSq| == |t.peaks| == f.channels
    ensures u == Added(t, FrameOf(bytes, f))
  {
    var sums, sumsSq, peaks := t.sums, t.sumsSq, t.peaks;
    var values: seq<real> := [];
    ghost var frame := FrameOf(bytes, f);
    ghost var goal := Added(t, frame);
    for channel := 0 to f.channels
      invariant |sums| == |sumsSq| == |peaks| == f.channels && |values| == channel
      invariant forall c :: 0 <= c < channel ==> values[c] == frame[c]
      invariant forall c :: 0 <= c < f.channels ==> sums[c] == (if c < channel then goal else t).sums[c]
      invariant forall c :: 0 <= c < f.channels ==> sumsSq[c] == (if c < channel then goal else t).sumsSq[c]
      invariant forall c :: 0 <= c < f.channels ==> peaks[c] == (if c < channel then goal else t).peaks[c]
    {
      var value := ReadSample(bytes, f, channel);
      values := values + [value];
      sums := sums[channel := sums[channel] + value];
      sumsSq := sumsSq[channel := sumsSq[channel] + Square(value)];
      peaks := peaks[channel := Max(peaks[channel], Abs(value))];
    }
    var stereo := t.stereo;
    if f.channels == 2 {
      stereo := stereo + Times(values[0], values[1]);
    }
    assert sums == goal.sums && sumsSq == goal.sumsSq && peaks == goal.peaks;
    u := Tallies(sums, sumsSq, peaks, stereo, t.frames + 1, t.values + f.channels);
  }

  method ReadSample(bytes: Bytes, f: Format, channel: nat) returns (value: real)
    requires GoodFormat(f) && |bytes| == f.blockAlign && channel < f.channels
    ensures value == FrameOf(bytes, f)[channel]
  {
    SampleRangeFits(channel, f);
    var width := f.bits / 8;
    var start := channel * width;
    value := DecodeSample(bytes[start..start + width], f.bits);
  }

  /** The totals over frames still in their encoded form. */
  function TallyOf(blocks: seq<Bytes>, f: Format): (t: Tallies)
    requires GoodFormat(f) && Framed(blocks, f.blockAlign)
    ensures |t.sums| == |t.sumsSq| == |t.peaks| == f.channels
  {
    Tally(Decode(blocks, f), f.channels)
  }

  lemma TallyOfOneMore(done: seq<Bytes>, block: Bytes, f: Format)
    requires GoodFormat(f) && Framed(done, f.blockAlign) && |block| == f.blockAlign
    ensures Framed(done + [block], f.blockAlign)
    ensures TallyOf(done + [block], f) == Added(TallyOf(done, f), FrameOf(block, f))
  {
    assert Decode(done + [block], f) == Decode(done, f) + [FrameOf(block, f)];
    TallyOfOneMoreFrame(Decode(done, f), FrameOf(block, f), f.channels);
  }

  /** One block, cut into frames. */
  method TallyBlock(block: Bytes, f: Format, t: Tallies, ghost seen: seq<Bytes>) returns (u: Tallies)
    requires GoodFormat(f) && Aligned(|block|, f.blockAlign)
    requires Framed(seen, f.blockAlign) && t == TallyOf(seen, f)
    ensures Framed(seen + Cut(block, f.blockAlign), f.blockAlign)
    ensures u == TallyOf(seen + Cut(block, f.blockAlign), f)
  {
    u := t;
    var frameStart := 0;
    ghost var done := seen;
    while frameStart < |block|
      invariant frameStart <= |block| && Aligned(|block| - frameStart, f.blockAlign)
      invariant Framed(done, f.blockAlign) && u == TallyOf(done, f)
      invariant done + Cut(block[frameStart..], f.blockAlign) == seen + Cut(block, f.blockAlign)
    {
      var frame := block[frameStart..frameStart + f.blockAlign];
      NextCut(block, frameStart, f.blockAlign, done);
      TallyOfOneMore(done, frame, f);
      u := TallyFrame(frame, f, u);
      done := done + [frame];
      frameStart := frameStart + f.blockAlign;
    }
    assert block[frameStart..] == [];
    assert done == seen + Cut(block, f.blockAlign);
  }

  lemma NextCut(block: Bytes, at: nat, align: nat, done: seq<Bytes>)
    requires align > 0 && at + align <= |block|
    ensures done + Cut(block[at..], align)
         == (done + [block[at..at + align]]) + Cut(block[at + align..], align)
  {
    assert block[at..][..align] == block[at..at + align];
    assert block[at..][align..] == block[at + align..];
  }

  /** The bytes a data range names, when the file has them. */
  function Span(file: Bytes, start: nat, end: int): Bytes {
    if start <= end <= |file| then file[start..end] else []
  }

  /** The block loop over one data chunk: bounded reads that never leave the chunk and always end on a
      frame boundary. Fails exactly when the file ends before the chunk does. */
  method TallyChunk(file: Bytes, c: Chunk, f: Format, t: Tallies, ghost seen: seq<Bytes>)
    returns (r: Result<Tallies, MediaError>)
    requires GoodFormat(f) && Aligned(c.size, f.blockAlign) && c.size > 0
    requires Framed(seen, f.blockAlign) && t == TallyOf(seen, f)
    ensures r.Success? <==> c.start + c.size <= |file|
    ensures r.Failure? ==> r.error == Truncated
    ensures Framed(seen + Cut(Span(file, c.start, c.start + c.size), f.blockAlign), f.blockAlign)
    ensures r.Success? ==> r.value == TallyOf(seen + Cut(Span(file, c.start, c.start + c.size), f.blockAlign), f)
  {
    var pos, remaining, u := c.start, c.size, t;
    ghost var done, end := seen, c.start + c.size;
    ghost var all := seen + Cut(Span(file, c.start, end), f.blockAlign);
    while remaining > 0
      invariant 0 <= remaining && pos + remaining == end
      invariant remaining < c.size ==> pos <= |file|
      invariant Aligned(remaining, f.blockAlign)
      invariant Framed(done, f.blockAlign) && u == TallyOf(done, f)
      invariant Pending(done, file, pos, end, f.blockAlign, all)
    {
      var request := NextRequest(remaining, f.blockAlign);
      var block := ReadAt(file, pos, request);
      if |block| != request {
        return Failure(Truncated);
      }
      u := TallyBlock(block, f, u, done);
      NextBlock(file, pos, block, end, f.blockAlign, done, all);
      done := done + Cut(block, f.blockAlign);
      pos, remaining := pos + request, remaining - request;
    }
    NothingPending(done, file, end, f.blockAlign, all);
    return Success(u);
  }

  /** The size of the next read: at most one block, cut down to whole frames. The fallback to a single
      frame is never needed, because what remains is always a whole number of frames. */
  method NextRequest(remaining: nat, align: nat) returns (request: nat)
    requires 1 <= align <= 128 && remaining > 0 && Aligned(remaining, align)
    ensures 0 < request <= remaining && request <= BLOCK
    ensures Aligned(request, align) && Aligned(remaining - request, align)
    ensures request == remaining || request + align > BLOCK
  {
    request := if BLOCK < remaining then BLOCK else remaining;
    WholeFramesOnly(request, remaining, align);
    request := request - request % align;
    if request <= 0 {
      request := align;
    }
  }

  lemma WholeFramesOnly(request: nat, remaining: nat, align: nat)
    requires 1 <= align <= 128 && remaining > 0 && Aligned(remaining, align)
    requires request == if BLOCK < remaining then BLOCK else remaining
    ensures
      var whole := request - request % align;
      && 0 < whole <= remaining && Aligned(whole, align) && Aligned(remaining - whole, align)
      && (request == remaining ==> whole == remaining)
  {
    Remainder(request - request % align, align, request / align, 0);
    AlignedIsDivisible(request - request % align, align);
    AlignedIsDivisible(remaining, align);
    AlignedDifference(remaining, request - request % align, align);
  }

  /** The frames already counted and those still ahead make up the whole chunk. */
  ghost predicate Pending(done: seq<Bytes>, file: Bytes, pos: nat, end: nat, align: nat, all: seq<Bytes>)
    requires align > 0
  {
    end <= |file| ==> done + Cut(Span(file, pos, end), align) == all
  }

  lemma SpanSplit(file: Bytes, pos: nat, block: Bytes, end: nat)
    requires pos + |block| <= end <= |file| && block == ReadAt(file, pos, |block|)
    ensures Span(file, pos, end) == block + Span(file, pos + |block|, end)
  {
  }

  lemma NextBlock(file: Bytes, pos: nat, block: Bytes, end: nat, align: nat, done: seq<Bytes>, all: seq<Bytes>)
    requires align > 0 && Aligned(|block|, align) && pos + |block| <= end
    requires block == ReadAt(file, pos, |block|)
    requires Pending(done, file, pos, end, align, all)
    ensures Pending(done + Cut(block, align), file, pos + |block|, end, align, all)
  {
    if end <= |file| {
      SpanSplit(file, pos, block, end);
      CutOfConcat(block, Span(file, pos + |block|, end), align);
      Regroup(done, Cut(block, align), Cut(Span(file, pos + |block|, end), align));
    }
  }

  lemma NothingPending(done: seq<Bytes>, file: Bytes, end: nat, align: nat, all: seq<Bytes>)
    requires align > 0 && end <= |file| && Pending(done, file, end, end, align, all)
    ensures done == all
  {
    assert Span(file, end, end) == [];
  }

  /** The whole streaming pass over the data chunks of a layout. */
  method TallyChunks(file: Bytes, layout: Layout) returns (r: Result<Tallies, MediaError>)
    requires GoodFormat(layout.format)
    requires WholeChunks(layout.chunks, layout.format.blockAlign)
    requires forall i :: 0 <= i < |layout.chunks| ==> layout.chunks[i].size > 0
    ensures r.Success? <==> Readable(file, layout.chunks)
    ensures r.Failure? ==> r.error == Truncated
    ensures r.Success? ==>
      r.value == TallyOf(Cut(Audio(file, layout.chunks), layout.format.blockAlign), layout.format)
  {
    hide TallyOf, Cut, Audio, Silence, Aligned;
    var f := layout.format;
    var t := Silence(f.channels);
    SilenceTally(f);
    NoAudio(file, f.blockAlign);
    for i := 0 to |layout.chunks|
      invariant Readable(file, layout.chunks[..i])
      invariant t == TallyOf(Cut(Audio(file, layout.chunks[..i]), f.blockAlign), f)
    {
      var c := layout.chunks[i];
      var next := TallyChunk(file, c, f, t, Cut(Audio(file, layout.chunks[..i]), f.blockAlign));
      if next.Failure? {
        return Failure(next.error);
      }
      t := next.value;
      AudioOfOneMoreChunk(file, layout.chunks, i, f.blockAlign);
    }
    assert layout.chunks[..|layout.chunks|] == layout.chunks;
    return Success(t);
  }

  lemma NoAudio(file: Bytes, align: nat)
    requires align > 0
    ensures Cut(Audio(file, []), align) == []
  {
  }

  function Silence(channels: nat): Tallies {
    var zeros := seq(channels, _ => 0.0);
    Tallies(zeros, zeros, zeros, 0.0, 0, 0)
  }

  lemma SilenceTally(f: Format)
    requires GoodFormat(f)
    ensures Silence(f.channels) == TallyOf([], f)
  {
    var t, u := Silence(f.channels), TallyOf([], f);
    assert Decode([], f) == [];
    assert forall c :: 0 <= c < f.channels ==> Column([], f.channels, c) == [];
    assert t.sums == u.sums && t.sumsSq == u.sumsSq && t.peaks == u.peaks;
  }

  lemma AudioOfOneMoreChunk(file: Bytes, chunks: seq<Chunk>, i: nat, align: nat)
    requires i < |chunks| && align > 0 && WholeChunks(chunks, align)
    requires Readable(file, chunks[..i]) && chunks[i].start + chunks[i].size <= |file|
    ensures Readable(file, chunks[..i + 1])
    ensures Cut(Audio(file, chunks[..i + 1]), align)
         == Cut(Audio(file, chunks[..i]), align)
            + Cut(Span(file, chunks[i].start, chunks[i].start + chunks[i].size), align)
  {
    var before, c := chunks[..i], chunks[i];
    assert chunks[..i + 1][..i] == before;
    var added := Span(file, c.start, c.start + c.size);
    assert Audio(file, chunks[..i + 1]) == Audio(file, before) + added;
    hide Cut, Aligned, Audio, Span;
    AudioLength(file, before);
    WholeTotal(before, align);
    CutOfConcat(Audio(file, before), added, align);
  }

  datatype Analysis = Analysis(layout: Layout, tallies: Tallies)

  /** analyze_pcm_wave up to its statistics, on a file whose size was verified. On an unchanged file
      the pass always completes: the frame and sample counts it compares at the end always agree. */
  method AnalyzePcmWave(file: Bytes, size: nat) returns (r: Result<Analysis, MediaError>)
    ensures Inspect(file, size).Failure? ==> r == Failure(Inspect(file, size).error)
    ensures r.Success? ==> Inspect(file, size) == Success(r.value.layout)
    ensures Inspect(file, size).Success? && size == |file| ==> r.Success?
    ensures r.Success? ==>
      var layout, t := r.value.layout, r.value.tallies;
      && GoodFormat(layout.format)
      && Readable(file, layout.chunks)
      && t == Tally(FramesOf(Audio(file, layout.chunks), layout.format), layout.format.channels)
      && t.frames == layout.frameCount > 0
      && t.values == layout.frameCount * layout.format.channels
  {
    var inspected := InspectPcmLayout(file, size);
    if inspected.Failure? {
      return Failure(inspected.error);
    }
    var layout := inspected.value;
    AcceptedLayout(file, size);
    var tallied := TallyChunks(file, layout);
    if tallied.Failure? {
      return Failure(tallied.error);
    }
    var t := tallied.value;
    FrameCounts(file, layout);
    if t.frames != layout.frameCount || t.values != layout.frameCount * layout.format.channels {
      return Failure(Corrupt);
    }
    return Success(Analysis(layout, t));
  }

  /** The pass sees exactly the frames the layout announced. */
  lemma FrameCounts(file: Bytes, layout: Layout)
    requires GoodFormat(layout.format) && Readable(file, layout.chunks)
    requires layout.format.blockAlign * layout.frameCount == TotalSize(layout.chunks)
    ensures
      var t := Tally(FramesOf(Audio(file, layout.chunks), layout.format), layout.format.channels);
      t.frames == layout.frameCount && t.values == layout.frameCount * layout.format.channels
  {
    AudioLength(file, layout.chunks);
    CutCount(Audio(file, layout.chunks), layout.format.blockAlign, layout.frameCount);
  }
}
