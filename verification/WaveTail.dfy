/** What may stand behind the part of a file the inspector has read, for the audition check to accept it:
    a grammar of chunks (n0te/audition.py, n0te/audio_engineering.py). */
module WaveTail {
  import opened Prelude
  import opened WaveLayout

  /** One chunk as it stands in the file: eight header bytes, the body they announce, and its padding. */
  datatype TailChunk = TailChunk(header: Bytes, body: Bytes, pad: Bytes)

  /** A complete chunk; a fmt chunk is playable and a data chunk is not empty. */
  predicate ChunkOk(c: TailChunk) {
    && |c.header| == 8 && |c.body| == LittleEndian(c.header[4..8]) && |c.pad| == |c.body| % 2
    && (c.header[..4] == FMT ==> |c.body| >= 16 && PlayableFormat(c.body[..16]))
    && (c.header[..4] == DATA ==> c.body != [])
  }

  function PrintChunk(c: TailChunk): Bytes {
    c.header + (c.body + c.pad)
  }

  function PrintChunks(cs: seq<TailChunk>): Bytes {
    if cs == [] then [] else PrintChunk(cs[0]) + PrintChunks(cs[1..])
  }

  /** Complete chunks, then fewer bytes than a chunk header has. */
  ghost predicate ChunkList(tail: Bytes) {
    exists cs, rest :: IsChunkList(tail, cs, rest)
  }

  predicate IsChunkList(tail: Bytes, cs: seq<TailChunk>, rest: Bytes) {
    && (forall i :: 0 <= i < |cs| ==> ChunkOk(cs[i]))
    && |rest| < 8 && tail == PrintChunks(cs) + rest
  }

  /** The first chunk of a tail as the file has it. */
  function FirstChunk(tail: Bytes): TailChunk
    requires |tail| >= 8 && 8 + LittleEndian(tail[4..8]) + LittleEndian(tail[4..8]) % 2 <= |tail|
  {
    var size := LittleEndian(tail[4..8]);
    TailChunk(tail[..8], tail[8..8 + size], tail[8 + size..8 + size + size % 2])
  }

  lemma BodyStarts(file: Bytes, pos: nat, size: nat)
    requires pos + 8 + size <= |file| && size >= 16
    ensures ReadAt(file, pos + 8, 16) == file[pos..][8..8 + size][..16]
  {
    var read, body := ReadAt(file, pos + 8, 16), file[pos..][8..8 + size];
    forall k | 0 <= k < 16 ensures read[k] == body[..16][k] {
      assert read[k] == file[pos + 8 + k] && body[k] == file[pos..][8 + k];
    }
  }

  /** One turn of the audition check passes exactly when a legal chunk stands there. */
  lemma TurnPasses(file: Bytes, pos: nat)
    requires pos + 8 <= |file|
    ensures var tail := file[pos..];
      var size := LittleEndian(tail[4..8]);
      var next := AuditionChunk(file, |file|, Seen(pos, true, true));
      && (next.Some? <==> 8 + size + size % 2 <= |tail| && ChunkOk(FirstChunk(tail)))
      && (next.Some? ==> next.value == Seen(pos + (8 + size + size % 2), true, true))
  {
    hide LittleEndian, PlayableFormat;
    var tail := file[pos..];
    var header := ReadAt(file, pos, 8);
    assert header == tail[..8] && header[4..8] == tail[4..8];
    var size := LittleEndian(header[4..8]);
    if 8 + size + size % 2 <= |tail| && size >= 16 {
      BodyStarts(file, pos, size);
    }
  }

  lemma FirstIsPrinted(tail: Bytes)
    requires |tail| >= 8 && 8 + LittleEndian(tail[4..8]) + LittleEndian(tail[4..8]) % 2 <= |tail|
    ensures var size := LittleEndian(tail[4..8]);
      PrintChunk(FirstChunk(tail)) == tail[..8 + size + size % 2]
  {
    hide LittleEndian;
  }

  lemma FourPieces(a: Bytes, b: Bytes, c: Bytes, d: Bytes)
    ensures var whole := a + (b + (c + d));
      && whole[..|a|] == a && whole[|a|..|a| + |b|] == b
      && whole[|a| + |b|..|a| + |b| + |c|] == c && whole[|a| + |b| + |c|..] == d
  {
    var whole := a + (b + (c + d));
    assert whole[|a|..] == b + (c + d);
    assert (b + (c + d))[|b|..] == c + d;
    assert whole[|a| + |b|..] == whole[|a|..][|b|..];
  }

  lemma PrintedInPieces(c: TailChunk, more: Bytes)
    ensures PrintChunk(c) + more == c.header + (c.body + (c.pad + more))
    ensures |PrintChunk(c)| == |c.header| + |c.body| + |c.pad|
  {
    Regroup(c.body, c.pad, more);
    Regroup(c.header, c.body + c.pad, more);
  }

  /** A printed chunk is the first chunk of whatever starts with it. */
  lemma PrintedIsFirst(c: TailChunk, more: Bytes)
    requires ChunkOk(c)
    ensures var tail := PrintChunk(c) + more;
      && |tail| >= 8 && LittleEndian(tail[4..8]) == |c.body|
      && |PrintChunk(c)| == 8 + |c.body| + |c.body| % 2
      && FirstChunk(tail) == c && tail[|PrintChunk(c)|..] == more
  {
    hide LittleEndian, PlayableFormat, PrintChunk;
    PrintedInPieces(c, more);
    FourPieces(c.header, c.body, c.pad, more);
    var tail := PrintChunk(c) + more;
    assert tail[4..8] == tail[..8][4..8];
  }

  lemma {:induction false} TailWalk(file: Bytes, pos: nat)
    requires pos <= |file|
    ensures AuditionFrom(file, |file|, Seen(pos, true, true)) <==> ChunkList(file[pos..])
    decreases |file| - pos
  {
    hide LittleEndian, AuditionChunk, ChunkOk, PrintChunk, FirstChunk;
    var tail := file[pos..];
    if pos + 8 > |file| {
      assert IsChunkList(tail, [], tail);
    } else {
      TurnPasses(file, pos);
      var n := 8 + LittleEndian(tail[4..8]) + LittleEndian(tail[4..8]) % 2;
      if n <= |tail| && ChunkOk(FirstChunk(tail)) {
        TailWalk(file, pos + n);
        assert file[pos + n..] == tail[n..];
      }
      ListIsChunkFirst(tail);
    }
  }

  lemma ListStartsWithChunk(tail: Bytes, cs: seq<TailChunk>, rest: Bytes)
    requires |tail| >= 8 && IsChunkList(tail, cs, rest)
    ensures var n := 8 + LittleEndian(tail[4..8]) + LittleEndian(tail[4..8]) % 2;
      n <= |tail| && ChunkOk(FirstChunk(tail)) && ChunkList(tail[n..])
  {
    hide LittleEndian, PlayableFormat, PrintChunk, FirstChunk;
    var more := PrintChunks(cs[1..]) + rest;
    assert tail == PrintChunk(cs[0]) + more;
    PrintedIsFirst(cs[0], more);
    assert IsChunkList(more, cs[1..], rest);
  }

  lemma ChunkStartsList(tail: Bytes, cs: seq<TailChunk>, rest: Bytes)
    requires |tail| >= 8
    requires var n := 8 + LittleEndian(tail[4..8]) + LittleEndian(tail[4..8]) % 2;
      n <= |tail| && ChunkOk(FirstChunk(tail)) && IsChunkList(tail[n..], cs, rest)
    ensures ChunkList(tail)
  {
    hide LittleEndian, ChunkOk, PrintChunk, FirstChunk;
    var n := 8 + LittleEndian(tail[4..8]) + LittleEndian(tail[4..8]) % 2;
    var all := [FirstChunk(tail)] + cs;
    FirstIsPrinted(tail);
    assert all[1..] == cs && tail == tail[..n] + tail[n..];
    assert PrintChunks(all) == PrintChunk(all[0]) + PrintChunks(cs);
    assert IsChunkList(tail, all, rest);
  }

  /** A tail long enough for a chunk header is a chunk list exactly when it starts with a legal chunk and
      goes on as a chunk list. */
  lemma ListIsChunkFirst(tail: Bytes)
    requires |tail| >= 8
    ensures var n := 8 + LittleEndian(tail[4..8]) + LittleEndian(tail[4..8]) % 2;
      ChunkList(tail) <==> n <= |tail| && ChunkOk(FirstChunk(tail)) && ChunkList(tail[n..])
  {
    hide LittleEndian, ChunkOk, IsChunkList, FirstChunk;
    var n := 8 + LittleEndian(tail[4..8]) + LittleEndian(tail[4..8]) % 2;
    if cs, rest :| IsChunkList(tail, cs, rest) {
      ListStartsWithChunk(tail, cs, rest);
    }
    if n <= |tail| && ChunkOk(FirstChunk(tail)) && ChunkList(tail[n..]) {
      var cs, rest :| IsChunkList(tail[n..], cs, rest);
      ChunkStartsList(tail, cs, rest);
    }
  }

  /** Where the inspector stopped reading. */
  function Stop(file: Bytes): nat
    requires Inspect(file, |file|).Success?
  {
    InspectFrom(file, RiffEnd(file), START).value.pos
  }

  /** On a file of its verified size, what the inspector accepts is playable exactly when everything from
      where it stopped, less than a chunk header before the end of the RIFF payload, is a list of complete
      chunks. */
  lemma PlayableExactly(file: Bytes)
    requires Inspect(file, |file|).Success?
    ensures Stop(file) <= RiffEnd(file) < Stop(file) + 8 && RiffEnd(file) <= |file|
    ensures Playable(file, |file|) <==> ChunkList(file[Stop(file)..])
  {
    AcceptedIsPlayableUpToTail(file, |file|);
    WalkStopsAtEnd(file, RiffEnd(file), START);
    ScannedChunks(file, RiffEnd(file), START);
    TailWalk(file, Stop(file));
  }

  // ----- A file the inspector accepts and the audition check refuses

  /** One channel of 8-bit samples at 8000 Hz. */
  const SMALL_FORMAT: Bytes := [1, 0, 1, 0, 64, 31, 0, 0, 64, 31, 0, 0, 1, 0, 8, 0]

  const HEAD: Bytes := RIFF + [38, 0, 0, 0] + WAVE

  const FORMAT_HEADER: Bytes := FMT + [16, 0, 0, 0]

  const DATA_HEADER: Bytes := DATA + [2, 0, 0, 0]

  const SAMPLES: Bytes := [128, 128]

  /** Two samples, announced and counted correctly. */
  const SMALL: Bytes := HEAD + (FORMAT_HEADER + (SMALL_FORMAT + (DATA_HEADER + SAMPLES)))

  /** Eight more bytes that announce a chunk of four gigabytes. */
  const JUNK: Bytes := [0, 0, 0, 0, 255, 255, 255, 255]

  lemma OneMore(low: Byte, high: Bytes)
    ensures LittleEndian([low] + high) == low + 256 * LittleEndian(high)
  {
    assert ([low] + high)[1..] == high;
  }

  lemma FourBytes(a: Byte, b: Byte, c: Byte, d: Byte)
    ensures LittleEndian([a, b, c, d]) == a + 256 * (b + 256 * (c + 256 * d))
  {
    TwoBytes(c, d);
    hide LittleEndian;
    OneMore(b, [c, d]);
    OneMore(a, [b, c, d]);
    assert [b] + [c, d] == [b, c, d] && [a] + [b, c, d] == [a, b, c, d];
  }

  lemma TwoBytes(a: Byte, b: Byte)
    ensures LittleEndian([a, b]) == a + 256 * b
  {
    OneMore(b, []);
    OneMore(a, [b]);
    assert [b] + [] == [b] && [a] + [b] == [a, b];
  }

  lemma FourAt(s: Bytes, i: nat, a: Byte, b: Byte, c: Byte, d: Byte)
    requires i + 4 <= |s| && s[i] == a && s[i + 1] == b && s[i + 2] == c && s[i + 3] == d
    ensures s[i..i + 4] == [a, b, c, d]
  {
  }

  lemma TwoAt(s: Bytes, i: nat, a: Byte, b: Byte)
    requires i + 2 <= |s| && s[i] == a && s[i + 1] == b
    ensures s[i..i + 2] == [a, b]
  {
  }

  lemma SmallFormat()
    ensures ParseFormat(SMALL_FORMAT) == Success(Format(8000, 1, 8, 1))
  {
    hide LittleEndian;
    TwoAt(SMALL_FORMAT, 0, 1, 0);
    TwoAt(SMALL_FORMAT, 2, 1, 0);
    FourAt(SMALL_FORMAT, 4, 64, 31, 0, 0);
    FourAt(SMALL_FORMAT, 8, 64, 31, 0, 0);
    TwoAt(SMALL_FORMAT, 12, 1, 0);
    TwoAt(SMALL_FORMAT, 14, 8, 0);
    TwoBytes(1, 0);
    TwoBytes(8, 0);
    FourBytes(64, 31, 0, 0);
  }

  lemma InTwo(a: Bytes, b: Bytes)
    ensures (a + b)[..|a|] == a && (a + b)[|a|..] == b && (a + b)[|a|..|a| + |b|] == b
  {
  }

  lemma HeadInThree(head: Bytes)
    requires head == HEAD
    ensures |head| == 12 && head[..4] == RIFF && head[4..8] == [38, 0, 0, 0] && head[8..12] == WAVE
  {
    assert head == RIFF + ([38, 0, 0, 0] + (WAVE + []));
    FourPieces(RIFF, [38, 0, 0, 0], WAVE, []);
  }

  lemma FivePieces(a: Bytes, b: Bytes, c: Bytes, d: Bytes, e: Bytes, more: Bytes)
    ensures var whole, n := (a + (b + (c + (d + e)))) + more, |a| + |b| + |c|;
      && whole[..|a|] == a && whole[|a|..|a| + |b|] == b && whole[|a| + |b|..n] == c && whole[n..n + |d|] == d
  {
    var whole, n := (a + (b + (c + (d + e)))) + more, |a| + |b| + |c|;
    assert whole == a + (b + (c + (d + (e + more))));
    FourPieces(a, b, c, d + (e + more));
    InTwo(d, e + more);
    assert whole[n..n + |d|] == whole[n..][..|d|];
  }

  /** The small file piece by piece, whatever follows it. */
  lemma SmallInPieces(more: Bytes)
    ensures var file := SMALL + more;
      && file[..12] == HEAD && file[12..20] == FORMAT_HEADER && file[20..36] == SMALL_FORMAT
      && file[36..44] == DATA_HEADER
  {
    FivePieces(HEAD, FORMAT_HEADER, SMALL_FORMAT, DATA_HEADER, SAMPLES, more);
  }

  /** The headers of the small file as the walker takes them apart. */
  lemma SmallIsRead(more: Bytes)
    ensures var file := SMALL + more;
      && file[..12][..4] == RIFF && file[4..8] == [38, 0, 0, 0] && file[..12][8..12] == WAVE
      && file[12..20][..4] == FMT && file[12..20][4..8] == [16, 0, 0, 0] && file[20..36] == SMALL_FORMAT
      && file[36..44][..4] == DATA && file[36..44][4..8] == [2, 0, 0, 0]
  {
    SmallInPieces(more);
    var file := SMALL + more;
    assert file[4..8] == file[..12][4..8];
    HeadInThree(file[..12]);
    InTwo(FMT, [16, 0, 0, 0]);
    InTwo(DATA, [2, 0, 0, 0]);
  }

  /** Whatever follows it, the small file is walked the same way. */
  lemma SmallIsWalked(more: Bytes)
    ensures var file := SMALL + more;
      && RiffEnd(file) == 46
      && InspectFrom(file, 46, START) == Success(Scan(46, Some(Format(8000, 1, 8, 1)), [Chunk(44, 2)]))
  {
    hide LittleEndian, ParseFormat;
    var file := SMALL + more;
    FourBytes(38, 0, 0, 0);
    FourBytes(16, 0, 0, 0);
    FourBytes(2, 0, 0, 0);
    SmallFormat();
    SmallIsRead(more);
    assert FMT[0] != DATA[0];
    var afterFormat := Scan(36, Some(Format(8000, 1, 8, 1)), []);
    var afterData := Scan(46, Some(Format(8000, 1, 8, 1)), [Chunk(44, 2)]);
    assert InspectChunk(file, 46, START) == Success(afterFormat);
    assert ReadAt(file, 36, 8) == file[36..44];
    assert PaddedEnd(44, 2) == 46 && [] + [Chunk(44, 2)] == [Chunk(44, 2)];
    assert InspectChunk(file, 46, afterFormat) == Success(afterData);
  }

  lemma SmallIsAccepted(more: Bytes)
    requires |more| <= 8
    ensures var file := SMALL + more;
      && Inspect(file, |file|) == Success(Layout(Format(8000, 1, 8, 1), [Chunk(44, 2)], 2))
      && RiffEnd(file) == 46 && Stop(file) == 46
  {
    hide LittleEndian, InspectFrom;
    SmallIsWalked(more);
    SmallIsRead(more);
    var scan := Scan(46, Some(Format(8000, 1, 8, 1)), [Chunk(44, 2)]);
    assert scan.chunks[..0] == [] && TotalSize(scan.chunks) == 2;
  }

  /** Eight bytes that announce more than there is are no list of chunks. */
  lemma JunkIsNoList()
    ensures !ChunkList(JUNK)
  {
    hide LittleEndian, ChunkOk, FirstChunk, ChunkList;
    FourAt(JUNK, 4, 255, 255, 255, 255);
    FourBytes(255, 255, 255, 255);
    ListIsChunkFirst(JUNK);
  }

  /** The small file is accepted and playable; with eight junk bytes behind it, it is still accepted, and no
      longer playable. */
  lemma JunkTailIsUnplayable()
    ensures Inspect(SMALL, |SMALL|).Success? && Playable(SMALL, |SMALL|)
    ensures Inspect(SMALL + JUNK, |SMALL + JUNK|).Success? && !Playable(SMALL + JUNK, |SMALL + JUNK|)
  {
    hide Inspect, Playable, LittleEndian, Stop, ChunkList, RiffEnd;
    assert SMALL + [] == SMALL;
    SmallIsAccepted([]);
    AcceptedIsPlayable(SMALL, |SMALL|);
    SmallIsAccepted(JUNK);
    PlayableExactly(SMALL + JUNK);
    assert (SMALL + JUNK)[46..] == JUNK;
    JunkIsNoList();
  }
}
