/** The two RIFF/WAVE chunk walkers: the engineering inspector (n0te/audio_engineering.py) and the audition
    check (n0te/audition.py). */
module WaveLayout {
  import opened Prelude

  const RIFF: Bytes := [0x52, 0x49, 0x46, 0x46]
  const WAVE: Bytes := [0x57, 0x41, 0x56, 0x45]
  const FMT: Bytes := [0x66, 0x6D, 0x74, 0x20]
  const DATA: Bytes := [0x64, 0x61, 0x74, 0x61]

  const MAX_ENGINEERING_BYTES: nat := 256 * 1024 * 1024
  const MAX_DATA_CHUNKS: nat := 64

  /** Truncated is the source's corrupt-media error for a file that ends before a field it announced. */
  datatype MediaError = Unsupported | Corrupt | Truncated

  datatype Format = Format(sampleRate: nat, channels: nat, bits: nat, blockAlign: nat)

  datatype Chunk = Chunk(start: nat, size: nat)

  datatype Layout = Layout(format: Format, chunks: seq<Chunk>, frameCount: nat)

  /** Where the inspector stands between two chunks. */
  datatype Scan = Scan(pos: nat, format: Option<Format>, chunks: seq<Chunk>)

  function PaddedEnd(start: nat, size: nat): nat {
    start + size + size % 2
  }

  /** The sixteen bytes every fmt chunk starts with. */
  function ParseFormat(base: Bytes): Result<Format, MediaError>
    requires |base| == 16
  {
    var audioFormat := LittleEndian(base[0..2]);
    var channels := LittleEndian(base[2..4]);
    var sampleRate := LittleEndian(base[4..8]);
    var byteRate := LittleEndian(base[8..12]);
    var blockAlign := LittleEndian(base[12..14]);
    var bits := LittleEndian(base[14..16]);
    if audioFormat != 1 then Failure(Unsupported)
    else if channels <= 0 || channels > 32 then Failure(Unsupported)
    else if sampleRate <= 0 then Failure(Corrupt)
    else if bits !in {8, 16, 24, 32} then Failure(Unsupported)
    else if blockAlign != channels * (bits / 8) then Failure(Corrupt)
    else if byteRate != sampleRate * blockAlign then Failure(Corrupt)
    else Success(Format(sampleRate, channels, bits, blockAlign))
  }

  /** One turn of the inspector's loop: read a chunk header, interpret it, skip to the next. */
  function InspectChunk(file: Bytes, riffEnd: nat, scan: Scan): (r: Result<Scan, MediaError>)
    ensures r.Success? ==> scan.pos + 8 <= r.value.pos <= riffEnd
  {
    var header := ReadAt(file, scan.pos, 8);
    if |header| != 8 then Failure(Truncated)
    else
      var kind, size := header[..4], LittleEndian(header[4..8]);
      var start := scan.pos + 8;
      if start + size > riffEnd || PaddedEnd(start, size) > riffEnd then Failure(Corrupt)
      else if kind == FMT then
        if scan.format.Some? || size < 16 then Failure(Corrupt)
        else
          var base := ReadAt(file, start, 16);
          if |base| != 16 then Failure(Truncated)
          else match ParseFormat(base)
            case Failure(e) => Failure(e)
            case Success(format) =>
              Success(scan.(pos := PaddedEnd(start, size), format := Some(format)))
      else if kind == DATA then
        if size == 0 then Failure(Corrupt)
        else if |scan.chunks| >= MAX_DATA_CHUNKS then Failure(Unsupported)
        else Success(scan.(pos := PaddedEnd(start, size), chunks := scan.chunks + [Chunk(start, size)]))
      else
        Success(scan.(pos := PaddedEnd(start, size)))
  }

  /** The rest of the inspector's loop from one scan state. */
  function InspectFrom(file: Bytes, riffEnd: nat, scan: Scan): Result<Scan, MediaError>
    decreases riffEnd - scan.pos
  {
    if scan.pos + 8 > riffEnd then Success(scan)
    else match InspectChunk(file, riffEnd, scan)
      case Failure(e) => Failure(e)
      case Success(next) => InspectFrom(file, riffEnd, next)
  }

  function TotalSize(chunks: seq<Chunk>): nat {
    if chunks == [] then 0 else TotalSize(chunks[..|chunks| - 1]) + chunks[|chunks| - 1].size
  }

  function LayoutOf(scan: Scan): Result<Layout, MediaError>
    requires scan.format.Some? ==> scan.format.value.blockAlign > 0
  {
    if scan.format.None? || scan.chunks == [] then Failure(Corrupt)
    else
      var format := scan.format.value;
      if exists c :: c in scan.chunks && c.size % format.blockAlign != 0 then Failure(Corrupt)
      else
        var frameCount := TotalSize(scan.chunks) / format.blockAlign;
        if frameCount == 0 then Failure(Corrupt)
        else Success(Layout(format, scan.chunks, frameCount))
  }

  const START: Scan := Scan(12, None, [])

  predicate RiffHeader(header: Bytes) {
    |header| == 12 && header[..4] == RIFF && header[8..12] == WAVE
  }

  function RiffEnd(file: Bytes): nat
    requires |file| >= 12
  {
    LittleEndian(file[4..8]) + 8
  }

  /** The layout the inspector reports for a file of a given verified size. */
  function Inspect(file: Bytes, size: nat): Result<Layout, MediaError> {
    if size < 44 then Failure(Corrupt)
    else if size > MAX_ENGINEERING_BYTES then Failure(Unsupported)
    else if !RiffHeader(ReadAt(file, 0, 12)) then Failure(Unsupported)
    else if RiffEnd(file) > size || RiffEnd(file) < 12 then Failure(Corrupt)
    else match InspectFrom(file, RiffEnd(file), START)
      case Failure(e) => Failure(e)
      case Success(scan) => ScannedFormat(file, RiffEnd(file), START); LayoutOf(scan)
  }

  predicate GoodFormat(f: Format) {
    && 1 <= f.channels <= 32
    && f.sampleRate > 0
    && f.bits in {8, 16, 24, 32}
    && f.blockAlign == f.channels * (f.bits / 8)
    && 1 <= f.blockAlign <= 128
  }

  lemma ParsedFormatIsGood(base: Bytes)
    requires |base| == 16 && ParseFormat(base).Success?
    ensures GoodFormat(ParseFormat(base).value)
  {
  }

  lemma ScannedFormat(file: Bytes, riffEnd: nat, scan: Scan)
    requires scan.format.Some? ==> GoodFormat(scan.format.value)
    ensures
      var r := InspectFrom(file, riffEnd, scan);
      r.Success? && r.value.format.Some? ==> GoodFormat(r.value.format.value)
    decreases riffEnd - scan.pos
  {
    if scan.pos + 8 <= riffEnd && InspectChunk(file, riffEnd, scan).Success? {
      ScannedFormat(file, riffEnd, InspectChunk(file, riffEnd, scan).value);
    }
  }

  /** The loop body of the inspector. */
  method ReadChunk(file: Bytes, riffEnd: nat, scan: Scan) returns (r: Result<Scan, MediaError>)
    ensures r == InspectChunk(file, riffEnd, scan)
  {
    var chunkHeader := ReadAt(file, scan.pos, 8);
    if |chunkHeader| != 8 {
      return Failure(Truncated);
    }
    var kind, chunkSize := chunkHeader[..4], LittleEndian(chunkHeader[4..8]);
    var chunkStart := scan.pos + 8;
    var chunkEnd := chunkStart + chunkSize;
    var paddedEnd := chunkEnd + chunkSize % 2;
    if chunkEnd > riffEnd || paddedEnd > riffEnd {
      return Failure(Corrupt);
    }
    var format, chunks := scan.format, scan.chunks;
    if kind == FMT {
      if format != None {
        return Failure(Corrupt);
      }
      if chunkSize < 16 {
        return Failure(Corrupt);
      }
      var base := ReadAt(file, chunkStart, 16);
      if |base| != 16 {
        return Failure(Truncated);
      }
      match ParseFormat(base) {
        case Failure(e) => return Failure(e);
        case Success(f) => format := Some(f);
      }
    } else if kind == DATA {
      if chunkSize == 0 {
        return Failure(Corrupt);
      }
      if |chunks| >= MAX_DATA_CHUNKS {
        return Failure(Unsupported);
      }
      chunks := chunks + [Chunk(chunkStart, chunkSize)];
    }
    return Success(Scan(paddedEnd, format, chunks));
  }

  /** The inspector as written: a cursor moving over the file, one chunk per turn. */
  method InspectPcmLayout(file: Bytes, size: nat) returns (r: Result<Layout, MediaError>)
    ensures r == Inspect(file, size)
  {
    if size < 44 {
      return Failure(Corrupt);
    }
    if size > MAX_ENGINEERING_BYTES {
      return Failure(Unsupported);
    }
    var header := ReadAt(file, 0, 12);
    if |header| != 12 || header[..4] != RIFF || header[8..12] != WAVE {
      return Failure(Unsupported);
    }
    assert header[4..8] == file[4..8];
    var riffEnd := LittleEndian(header[4..8]) + 8;
    if riffEnd > size || riffEnd < 12 {
      return Failure(Corrupt);
    }
    var scan := START;
    while scan.pos + 8 <= riffEnd
      invariant InspectFrom(file, riffEnd, START) == InspectFrom(file, riffEnd, scan)
      decreases riffEnd - scan.pos
    {
      var next := ReadChunk(file, riffEnd, scan);
      if next.Failure? {
        return Failure(next.error);
      }
      scan := next.value;
    }
    ScannedFormat(file, riffEnd, START);
    return LayoutOf(scan);
  }

  // ----- What an accepted layout guarantees

  /** A data range is a real data chunk: its header stands right before it. */
  predicate IsDataChunk(file: Bytes, c: Chunk) {
    && 8 <= c.start <= |file|
    && file[c.start - 8..c.start - 4] == DATA
    && LittleEndian(file[c.start - 4..c.start]) == c.size
  }

  predicate ChunksWithin(file: Bytes, chunks: seq<Chunk>, low: nat, high: nat) {
    && (forall i :: 0 <= i < |chunks| ==>
          && low + 8 <= chunks[i].start && chunks[i].start + chunks[i].size <= high
          && chunks[i].size > 0 && IsDataChunk(file, chunks[i]))
    && (forall i, j :: 0 <= i < j < |chunks| ==>
          chunks[i].start + chunks[i].size + 8 <= chunks[j].start)
  }

  lemma ScannedChunks(file: Bytes, riffEnd: nat, scan: Scan)
    requires 12 <= scan.pos && ChunksWithin(file, scan.chunks, 12, scan.pos) && |scan.chunks| <= MAX_DATA_CHUNKS
    ensures
      var r := InspectFrom(file, riffEnd, scan);
      r.Success? ==>
        && ChunksWithin(file, r.value.chunks, 12, r.value.pos)
        && |r.value.chunks| <= MAX_DATA_CHUNKS
        && (r.value.pos <= riffEnd || r.value.pos == scan.pos)
    decreases riffEnd - scan.pos
  {
    if scan.pos + 8 <= riffEnd && InspectChunk(file, riffEnd, scan).Success? {
      var next := InspectChunk(file, riffEnd, scan).value;
      ChunkStepKeepsRanges(file, riffEnd, scan);
      ScannedChunks(file, riffEnd, next);
    }
  }

  lemma ChunkStepKeepsRanges(file: Bytes, riffEnd: nat, scan: Scan)
    requires 12 <= scan.pos && ChunksWithin(file, scan.chunks, 12, scan.pos)
    requires InspectChunk(file, riffEnd, scan).Success?
    ensures
      var next := InspectChunk(file, riffEnd, scan).value;
      ChunksWithin(file, next.chunks, 12, next.pos)
  {
    hide LittleEndian;
    var next := InspectChunk(file, riffEnd, scan).value;
    var header := ReadAt(file, scan.pos, 8);
    assert header == file[scan.pos..scan.pos + 8];
    assert header[..4] == file[scan.pos..scan.pos + 4];
    assert header[4..8] == file[scan.pos + 4..scan.pos + 8];
    if next.chunks != scan.chunks {
      assert IsDataChunk(file, Chunk(scan.pos + 8, LittleEndian(header[4..8])));
    }
  }

  /** Every data range is a whole number of frames. */
  predicate WholeChunks(chunks: seq<Chunk>, align: nat)
    requires align > 0
  {
    forall i :: 0 <= i < |chunks| ==> Aligned(chunks[i].size, align)
  }

  lemma {:induction false} WholeTotal(chunks: seq<Chunk>, align: nat)
    requires align > 0 && WholeChunks(chunks, align)
    ensures Aligned(TotalSize(chunks), align)
  {
    if chunks != [] {
      WholeTotal(chunks[..|chunks| - 1], align);
      AlignedSum(TotalSize(chunks[..|chunks| - 1]), chunks[|chunks| - 1].size, align);
    }
  }

  lemma WholeFrames(chunks: seq<Chunk>, align: nat)
    requires align > 0 && forall c :: c in chunks ==> c.size % align == 0
    ensures WholeChunks(chunks, align)
    ensures align * (TotalSize(chunks) / align) == TotalSize(chunks)
  {
    forall i | 0 <= i < |chunks| ensures Aligned(chunks[i].size, align) {
      assert chunks[i] in chunks;
      AlignedIsDivisible(chunks[i].size, align);
    }
    WholeTotal(chunks, align);
    AlignedIsDivisible(TotalSize(chunks), align);
  }

  /** An accepted layout has ordered, disjoint data ranges inside the RIFF payload, each a whole
      number of frames, and its frame count accounts for every data byte. */
  lemma AcceptedLayout(file: Bytes, size: nat)
    requires Inspect(file, size).Success?
    ensures
      var layout := Inspect(file, size).value;
      && GoodFormat(layout.format)
      && 1 <= |layout.chunks| <= MAX_DATA_CHUNKS
      && |file| >= 12 && RiffEnd(file) <= size
      && ChunksWithin(file, layout.chunks, 12, RiffEnd(file))
      && WholeChunks(layout.chunks, layout.format.blockAlign)
      && layout.format.blockAlign * layout.frameCount == TotalSize(layout.chunks)
      && layout.frameCount > 0
  {
    var layout, riffEnd := Inspect(file, size).value, RiffEnd(file);
    ScannedFormat(file, riffEnd, START);
    ScannedChunks(file, riffEnd, START);
    WholeFrames(layout.chunks, layout.format.blockAlign);
  }

  /** On a file of its verified size no announced field is ever cut short. */
  lemma VerifiedSizeNeverTruncates(file: Bytes)
    ensures Inspect(file, |file|) != Failure(Truncated)
  {
    if |file| >= 12 && RiffEnd(file) <= |file| {
      WalkNeverTruncates(file, RiffEnd(file), START);
    }
  }

  lemma WalkNeverTruncates(file: Bytes, riffEnd: nat, scan: Scan)
    requires riffEnd <= |file|
    ensures InspectFrom(file, riffEnd, scan) != Failure(Truncated)
    decreases riffEnd - scan.pos
  {
    if scan.pos + 8 <= riffEnd && InspectChunk(file, riffEnd, scan).Success? {
      WalkNeverTruncates(file, riffEnd, InspectChunk(file, riffEnd, scan).value);
    }
  }

  // ----- The audition check

  datatype Seen = Seen(pos: nat, fmt: bool, data: bool)

  function AuditionChunk(file: Bytes, size: nat, seen: Seen): (r: Option<Seen>)
    ensures r.Some? ==> seen.pos + 8 <= r.value.pos <= size
  {
    var header := ReadAt(file, seen.pos, 8);
    if |header| != 8 then None
    else
      var kind, chunkSize := header[..4], LittleEndian(header[4..8]);
      var start := seen.pos + 8;
      if start + chunkSize > size || PaddedEnd(start, chunkSize) > size then None
      else if kind == FMT then
        if chunkSize < 16 || !PlayableFormat(ReadAt(file, start, 16)) then None
        else Some(seen.(pos := PaddedEnd(start, chunkSize), fmt := true))
      else if kind == DATA then
        if chunkSize == 0 then None
        else Some(seen.(pos := PaddedEnd(start, chunkSize), data := true))
      else
        Some(seen.(pos := PaddedEnd(start, chunkSize)))
  }

  predicate PlayableFormat(base: Bytes) {
    && |base| == 16
    && LittleEndian(base[0..2]) in {1, 3}
    && LittleEndian(base[2..4]) > 0
    && LittleEndian(base[4..8]) > 0
    && LittleEndian(base[8..12]) > 0
    && LittleEndian(base[12..14]) > 0
    && LittleEndian(base[14..16]) > 0
  }

  predicate AuditionFrom(file: Bytes, size: nat, seen: Seen)
    decreases size - seen.pos
  {
    if seen.pos + 8 > size then seen.fmt && seen.data
    else match AuditionChunk(file, size, seen)
      case None => false
      case Some(next) => AuditionFrom(file, size, next)
  }

  predicate Playable(file: Bytes, size: nat) {
    && size >= 44
    && RiffHeader(ReadAt(file, 0, 12))
    && RiffEnd(file) <= size
    && AuditionFrom(file, size, Seen(12, false, false))
  }

  /** The loop body of the audition check. */
  method PlayChunk(file: Bytes, size: nat, seen: Seen) returns (r: Option<Seen>)
    ensures r == AuditionChunk(file, size, seen)
  {
    var chunkHeader := ReadAt(file, seen.pos, 8);
    if |chunkHeader| != 8 {
      return None;
    }
    var kind, chunkSize := chunkHeader[..4], LittleEndian(chunkHeader[4..8]);
    var chunkStart := seen.pos + 8;
    var chunkEnd := chunkStart + chunkSize;
    var paddedEnd := chunkEnd + chunkSize % 2;
    if chunkEnd > size || paddedEnd > size {
      return None;
    }
    var haveFmt, haveData := seen.fmt, seen.data;
    if kind == FMT {
      if chunkSize < 16 {
        return None;
      }
      var fmt := ReadAt(file, chunkStart, 16);
      if !PlayableFormat(fmt) {
        return None;
      }
      haveFmt := true;
    } else if kind == DATA {
      if chunkSize == 0 {
        return None;
      }
      haveData := true;
    }
    return Some(Seen(paddedEnd, haveFmt, haveData));
  }

  /** The audition check as written: a cursor moving to the end of the file. */
  method ValidWave(file: Bytes, size: nat) returns (ok: bool)
    ensures ok == Playable(file, size)
  {
    if size < 44 {
      return false;
    }
    var header := ReadAt(file, 0, 12);
    if |header| != 12 || header[..4] != RIFF || header[8..12] != WAVE {
      return false;
    }
    assert header[4..8] == file[4..8];
    if LittleEndian(header[4..8]) + 8 > size {
      return false;
    }
    var seen := Seen(12, false, false);
    while seen.pos + 8 <= size
      invariant AuditionFrom(file, size, Seen(12, false, false)) == AuditionFrom(file, size, seen)
      decreases size - seen.pos
    {
      var next := PlayChunk(file, size, seen);
      if next == None {
        return false;
      }
      seen := next.value;
    }
    return seen.fmt && seen.data;
  }

  // ----- Everything the inspector accepts can be played

  function Forget(scan: Scan): Seen {
    Seen(scan.pos, scan.format.Some?, scan.chunks != [])
  }

  lemma ChunkSimulation(file: Bytes, riffEnd: nat, size: nat, scan: Scan)
    requires riffEnd <= size && InspectChunk(file, riffEnd, scan).Success?
    ensures AuditionChunk(file, size, Forget(scan))
         == Some(Forget(InspectChunk(file, riffEnd, scan).value))
  {
    var header := ReadAt(file, scan.pos, 8);
    if header[..4] == FMT {
      var base := ReadAt(file, scan.pos + 8, 16);
      ParsedFormatIsGood(base);
      PositiveRate(LittleEndian(base[4..8]), LittleEndian(base[12..14]));
    }
  }

  lemma PositiveRate(rate: nat, align: nat)
    requires rate > 0 && align > 0
    ensures rate * align > 0
  {
  }

  /** The audition walk follows the inspector's walk step for step. */
  lemma WalkSimulation(file: Bytes, riffEnd: nat, size: nat, scan: Scan)
    requires riffEnd <= size && InspectFrom(file, riffEnd, scan).Success?
    ensures AuditionFrom(file, size, Forget(scan))
         == AuditionFrom(file, size, Forget(InspectFrom(file, riffEnd, scan).value))
    decreases riffEnd - scan.pos
  {
    if scan.pos + 8 <= riffEnd {
      ChunkSimulation(file, riffEnd, size, scan);
      WalkSimulation(file, riffEnd, size, InspectChunk(file, riffEnd, scan).value);
    }
  }

  /** An accepted layout is playable exactly when the bytes after the RIFF payload, if any, also walk
      as chunks; the inspector never looks at them. */
  lemma AcceptedIsPlayableUpToTail(file: Bytes, size: nat)
    requires Inspect(file, size).Success?
    ensures |file| >= 12 && InspectFrom(file, RiffEnd(file), START).Success?
    ensures Playable(file, size)
       <==> AuditionFrom(file, size, Seen(InspectFrom(file, RiffEnd(file), START).value.pos, true, true))
  {
    WalkSimulation(file, RiffEnd(file), size, START);
  }

  /** When the RIFF size covers the whole file, whatever the inspector accepts can be played. */
  lemma AcceptedIsPlayable(file: Bytes, size: nat)
    requires Inspect(file, size).Success? && |file| >= 12 && RiffEnd(file) == size
    ensures Playable(file, size)
  {
    AcceptedIsPlayableUpToTail(file, size);
    WalkStopsAtEnd(file, size, START);
  }

  lemma WalkStopsAtEnd(file: Bytes, riffEnd: nat, scan: Scan)
    requires InspectFrom(file, riffEnd, scan).Success?
    ensures InspectFrom(file, riffEnd, scan).value.pos + 8 > riffEnd
    decreases riffEnd - scan.pos
  {
    if scan.pos + 8 <= riffEnd {
      WalkStopsAtEnd(file, riffEnd, InspectChunk(file, riffEnd, scan).value);
    }
  }
}
