/** The spooled upload as objects: filling the spool, parsing over its cursor, and reading the material
    slice back (n0te/consumer_upload.py). */
module UploadSpool {
  import opened Prelude
  import opened MaterialHeaders
  import opened MaterialUpload

  /** A spooled temporary file: its bytes and one cursor shared by everyone who holds it. */
  class Spool {
    var content: Bytes
    var pos: nat

    constructor ()
      ensures content == [] && pos == 0
    {
      content, pos := [], 0;
    }

    ghost function Rest(): Bytes
      requires pos <= |content|
      reads this
    {
      content[pos..]
    }

    method Append(chunk: Bytes)
      requires pos == |content|
      modifies this
      ensures content == old(content) + chunk && pos == |content|
    {
      content := content + chunk;
      pos := |content|;
    }

    method Seek(at: nat)
      modifies this`pos
      ensures pos == at
    {
      pos := at;
    }

    method Read(n: nat) returns (data: Bytes)
      modifies this`pos
      ensures data == ReadAt(content, old(pos), n) && pos == old(pos) + |data|
    {
      data := ReadAt(content, pos, n);
      pos := pos + |data|;
    }

    /** readline(limit): byte by byte through the first newline. */
    method ReadLine(limit: nat) returns (line: Bytes)
      requires pos <= |content|
      modifies this`pos
      ensures line == Line(old(Rest()), limit) && pos == old(pos) + |line| && pos <= |content|
    {
      hide Line;
      line := [];
      assert [] + Line(Rest(), limit) == Line(Rest(), limit);
      var going := true;
      while going && pos < |content| && |line| < limit
        invariant old(pos) <= pos <= |content| && |line| == pos - old(pos) <= limit
        invariant Line(old(Rest()), limit)
          == if going then line + Line(content[pos..], limit - |line|) else line
        decreases |content| - pos, going
      {
        var next := content[pos];
        ghost var before := content[pos..];
        pos := pos + 1;
        assert before[1..] == content[pos..];
        LineMore(line, before, limit);
        line := line + [next];
        going := next != LF;
      }
      LineEnds(line, content[pos..], limit);
    }
  }

  lemma LineMore(line: Bytes, rest: Bytes, limit: nat)
    requires rest != [] && |line| < limit
    ensures line + Line(rest, limit - |line|) == line + [rest[0]]
      + if rest[0] == LF then [] else Line(rest[1..], limit - |line| - 1)
  {
  }

  lemma LineEnds(line: Bytes, rest: Bytes, limit: nat)
    requires |line| <= limit
    ensures rest == [] || |line| == limit ==> line + Line(rest, limit - |line|) == line
  {
  }

  // ----- Filling the spool

  /** The bytes gathered from the stream's answers, or why gathering stopped. */
  function Spooled(answers: seq<Bytes>, remaining: nat): Result<Bytes, Error> {
    if remaining == 0 then Success([])
    else if answers == [] || answers[0] == [] then Failure(BodyShort)
    else if |answers[0]| > CHUNK || |answers[0]| > remaining then Failure(BodyOverrun)
    else
      match Spooled(answers[1..], remaining - |answers[0]|)
      case Failure(e) => Failure(e)
      case Success(tail) => Success(answers[0] + tail)
  }

  /** The answers are a non-empty, never oversized cutting of the source. */
  predicate Delivers(answers: seq<Bytes>, source: Bytes) {
    source == [] ||
    (answers != [] && 0 < |answers[0]| <= CHUNK && answers[0] <= source
     && Delivers(answers[1..], source[|answers[0]|..]))
  }

  /** The spool holds some body exactly when the stream delivered that body, and however it was cut. */
  lemma {:induction false} CuttingDoesNotMatter(answers: seq<Bytes>, remaining: nat, body: Bytes)
    ensures Spooled(answers, remaining) == Success(body) <==> |body| == remaining && Delivers(answers, body)
  {
    if remaining != 0 && answers != [] && 0 < |answers[0]| <= CHUNK && |answers[0]| <= remaining {
      var first := answers[0];
      if first <= body {
        assert body == first + body[|first|..];
        CuttingDoesNotMatter(answers[1..], remaining - |first|, body[|first|..]);
      } else if Spooled(answers, remaining).Success? {
        assert first <= Spooled(answers, remaining).value;
      }
      if Spooled(answers, remaining).Success? {
        var tail := Spooled(answers[1..], remaining - |first|).value;
        assert (first + tail)[|first|..] == tail;
        CuttingDoesNotMatter(answers[1..], remaining - |first|, tail);
      }
    }
  }

  /** The spool loop: bounded requests until the declared size is reached. */
  method FillSpool(spool: Spool, answers: seq<Bytes>, bodySize: nat) returns (r: Option<Error>)
    requires spool.content == [] && spool.pos == 0
    modifies spool
    ensures r == match Spooled(answers, bodySize) case Success(_) => None case Failure(e) => Some(e)
    ensures r.None? ==> Success(spool.content) == Spooled(answers, bodySize) && |spool.content| == bodySize
  {
    var remaining: nat := bodySize;
    var i := 0;
    assert answers[0..] == answers;
    assert forall tail: Bytes :: [] + tail == tail;
    while remaining != 0
      invariant i <= |answers| && |spool.content| + remaining == bodySize && spool.pos == |spool.content|
      invariant Spooled(answers, bodySize)
        == match Spooled(answers[i..], remaining)
           case Success(tail) => Success(spool.content + tail)
           case Failure(e) => Failure(e)
      decreases remaining
    {
      var requested := if remaining < CHUNK then remaining else CHUNK;
      var chunk := if i < |answers| then answers[i] else [];
      if chunk == [] {
        return Some(BodyShort);
      }
      if |chunk| > requested {
        return Some(BodyOverrun);
      }
      ghost var rest := answers[i..];
      assert rest[0] == chunk && rest[1..] == answers[i + 1..];
      Reassociate(spool.content, chunk, Spooled(rest[1..], remaining - |chunk|));
      spool.Append(chunk);
      remaining := remaining - |chunk|;
      i := i + 1;
    }
    assert spool.content + [] == spool.content;
    return None;
  }

  lemma Reassociate(a: Bytes, b: Bytes, tail: Result<Bytes, Error>)
    ensures tail.Success? ==> a + (b + tail.value) == (a + b) + tail.value
  {
  }

  // ----- Parsing over the cursor

  /** _read_headers over the cursor. */
  method ReadHeaderLines(spool: Spool) returns (r: Result<Headers, Error>)
    requires spool.pos <= |spool.content|
    modifies spool`pos
    ensures match ReadHeaders(old(spool.Rest()), map[], 0)
            case Failure(e) => r == Failure(e)
            case Success((headers, used)) => r == Success(headers) && spool.pos == old(spool.pos) + used
    ensures spool.pos <= |spool.content|
  {
    hide HeaderStepOf, Line;
    var headers: Headers := map[];
    var consumed := 0;
    while true
      invariant spool.pos == old(spool.pos) + consumed <= |spool.content|
      invariant ReadHeaders(old(spool.Rest()), map[], 0)
        == match ReadHeaders(spool.Rest(), headers, consumed)
           case Failure(e) => Failure(e)
           case Success((found, used)) => Success((found, consumed + used))
      decreases |spool.content| - spool.pos
    {
      ghost var rest := spool.Rest();
      var line := spool.ReadLine(MAX_HEADER_LINE + 1);
      var step := HeaderStepOf(line, headers, consumed);
      match step
      case Stop(e) => return Failure(e);
      case Blank => return Success(headers);
      case More(headers') =>
        HeaderLineEnds(line, headers, consumed);
        assert rest[|line|..] == spool.Rest();
        headers := headers';
        consumed := consumed + |line|;
    }
  }

  /** _read_token_part over the cursor. */
  method ReadTokenLines(spool: Spool, lib: Library, expected: string, boundary: Bytes)
    returns (r: Result<string, Error>)
    requires spool.pos <= |spool.content|
    modifies spool`pos
    ensures match ReadTokenPart(lib, old(spool.Rest()), expected, boundary)
            case Failure(e) => r == Failure(e)
            case Success((value, used)) => r == Success(value) && spool.pos == old(spool.pos) + used
    ensures spool.pos <= |spool.content|
  {
    hide ReadHeaders, Line, Disposition, BoundaryLine;
    ghost var rest := spool.Rest();
    var headers := ReadHeaderLines(spool);
    if headers.Failure? {
      return Failure(headers.error);
    }
    assert spool.Rest() == rest[spool.pos - old(spool.pos)..];
    if headers.value.Keys != {DISPOSITION} {
      return Failure(UnexpectedHeaders);
    }
    var part := Disposition(lib, headers.value);
    if part.None? {
      return Failure(BadDisposition);
    }
    if part != Some((expected, None)) {
      return Failure(WrongField);
    }
    ghost var afterHeaders := spool.Rest();
    var line := spool.ReadLine(MAX_TOKEN + 3);
    assert spool.Rest() == afterHeaders[|line|..];
    if !EndsCrlf(line) || |line| > MAX_TOKEN + 2 {
      return Failure(BadToken);
    }
    var value := lib.utf8(line[..|line| - 2]);
    if value.None? {
      return Failure(NotUtf8);
    }
    if value.value == "" {
      return Failure(EmptyToken);
    }
    var next := spool.ReadLine(|BoundaryLine(boundary)| + 2);
    return if next != BoundaryLine(boundary) then Failure(BadBoundaryLine) else Success(value.value);
  }

  /** The loop over the two trailer forms. */
  method FindTrailer(spool: Spool, boundary: Bytes) returns (length: Option<nat>)
    modifies spool`pos
    ensures length == TrailerLength(spool.content, boundary)
  {
    hide FinalTrailer;
    var trailers := [FinalTrailer(boundary, true), FinalTrailer(boundary, false)];
    var bodySize := |spool.content|;
    assert trailers[0] == FinalTrailer(boundary, true) && trailers[1] == FinalTrailer(boundary, false);
    for i := 0 to 2
      invariant forall k :: 0 <= k < i ==>
        !(|trailers[k]| <= bodySize && spool.content[bodySize - |trailers[k]|..] == trailers[k])
    {
      var trailer := trailers[i];
      if bodySize >= |trailer| {
        spool.Seek(bodySize - |trailer|);
        var last := spool.Read(|trailer|);
        assert last == spool.content[bodySize - |trailer|..];
        if last == trailer {
          return Some(|trailer|);
        }
      }
    }
    return None;
  }

  method ParseFilePart(spool: Spool, lib: Library, boundary: Bytes, csrf: string, action: string)
    returns (r: Result<Parsed, Error>)
    requires spool.pos <= |spool.content|
    modifies spool`pos
    ensures r == ParseFile(lib, spool.content, old(spool.pos), boundary, csrf, action)
  {
    hide ReadHeaders, Disposition, TrailerLength;
    var headers := ReadHeaderLines(spool);
    if headers.Failure? {
      return Failure(headers.error);
    }
    if !(headers.value.Keys <= {DISPOSITION, CONTENT_TYPE}) {
      return Failure(UnexpectedHeaders);
    }
    var part := Disposition(lib, headers.value);
    if part.None? {
      return Failure(BadDisposition);
    }
    if part.value.0 != "material" || part.value.1.None? || part.value.1.value == "" {
      return Failure(MissingFile);
    }
    var start := spool.pos;
    var trailer := FindTrailer(spool, boundary);
    if trailer.None? {
      return Failure(NoFinalBoundary);
    }
    var size := |spool.content| - trailer.value - start;
    if size <= 0 {
      return Failure(EmptyFile);
    }
    if size > MAX_MATERIAL {
      return Failure(FileTooLarge);
    }
    return Success(Parsed(csrf, action, part.value.1.value, start, size));
  }

  /** What parse_material_upload makes of a declared size, a boundary parameter and a stream. */
  function Upload(lib: Library, answers: seq<Bytes>, bodySize: int, boundary: Option<Bytes>): Result<Parsed, Error> {
    if bodySize <= 0 || bodySize > MAX_BODY then Failure(BadSize)
    else if boundary.None? || !LegalBoundary(boundary.value) then Failure(BadBoundary)
    else
      match Spooled(answers, bodySize)
      case Failure(e) => Failure(e)
      case Success(body) => Parse(lib, body, boundary.value)
  }

  /** parse_material_upload: the boundary is the multipart/form-data parameter, when there is one. */
  method ParseMaterialUpload(lib: Library, answers: seq<Bytes>, bodySize: int, boundary: Option<Bytes>)
    returns (r: Result<Parsed, Error>, spool: Spool)
    ensures fresh(spool) && r == Upload(lib, answers, bodySize, boundary)
    ensures r.Success? ==> |spool.content| == bodySize && Delivers(answers, spool.content)
  {
    hide ReadTokenPart, ParseFile, Line, Spooled, Delivers, BoundaryLine;
    spool := new Spool();
    if bodySize <= 0 || bodySize > MAX_BODY {
      return Failure(BadSize), spool;
    }
    if boundary.None? || !LegalBoundary(boundary.value) {
      return Failure(BadBoundary), spool;
    }
    var filled := FillSpool(spool, answers, bodySize);
    if filled.Some? {
      return Failure(filled.value), spool;
    }
    CuttingDoesNotMatter(answers, bodySize, spool.content);
    spool.Seek(0);
    var opening := spool.ReadLine(|BoundaryLine(boundary.value)| + 2);
    assert spool.content[0..] == spool.content;
    if opening != BoundaryLine(boundary.value) {
      return Failure(OpeningBoundary), spool;
    }
    var csrf := ReadTokenLines(spool, lib, "csrf", boundary.value);
    if csrf.Failure? {
      return Failure(csrf.error), spool;
    }
    var action := ReadTokenLines(spool, lib, "action", boundary.value);
    if action.Failure? {
      return Failure(action.error), spool;
    }
    r := ParseFilePart(spool, lib, boundary.value, csrf.value, action.value);
  }

  // ----- Reading the slice back

  /** Where the shared cursor is, and how far this reader believes it has read. */
  datatype Cursor = Cursor(pos: nat, offset: nat)

  /** _SliceReader.read(size); a negative size asks for everything left, None is the short-read error. */
  function SliceRead(content: Bytes, length: nat, c: Cursor, size: int): (Cursor, Option<Bytes>) {
    var remaining := length - c.offset;
    if remaining <= 0 then (c, Some([]))
    else
      var wanted := if size < 0 || size > remaining then remaining else size;
      var data := ReadAt(content, c.pos, wanted);
      (Cursor(c.pos + |data|, c.offset + |data|), if |data| == wanted then Some(data) else None)
  }

  class SliceReader {
    const stream: Spool
    const start: nat
    const length: nat
    var offset: nat

    constructor (stream: Spool, start: nat, length: nat)
      modifies stream`pos
      ensures this.stream == stream && this.start == start && this.length == length
      ensures At() == Cursor(start, 0)
    {
      this.stream, this.start, this.length, offset := stream, start, length, 0;
      new;
      stream.Seek(start);
    }

    ghost function At(): Cursor
      reads this, stream
    {
      Cursor(stream.pos, offset)
    }

    /** read(size), through the shared cursor. */
    method Read(size: int) returns (data: Option<Bytes>)
      modifies this`offset, stream`pos
      ensures (At(), data) == SliceRead(stream.content, length, old(At()), size)
    {
      var remaining := length - offset;
      if remaining <= 0 {
        return Some([]);
      }
      var wanted := if size < 0 then remaining else if size < remaining then size else remaining;
      var block := stream.Read(wanted);
      offset := offset + |block|;
      return if |block| != wanted then None else Some(block);
    }
  }

  /** Reads one after another, their data concatenated; None once any read failed. */
  function Reads(content: Bytes, length: nat, c: Cursor, sizes: seq<int>): (Cursor, Option<Bytes>) {
    if sizes == [] then (c, Some([]))
    else
      var (c', before) := Reads(content, length, c, sizes[..|sizes| - 1]);
      var (c'', data) := SliceRead(content, length, c', sizes[|sizes| - 1]);
      (c'', if before.Some? && data.Some? then Some(before.value + data.value) else None)
  }

  /** How much of a slice some requests ask for, all together. */
  function Demand(sizes: seq<int>, length: nat): (n: nat)
    ensures n <= length
  {
    if sizes == [] then 0
    else
      var before, last := Demand(sizes[..|sizes| - 1], length), sizes[|sizes| - 1];
      if last < 0 || before + last > length then length else before + last
  }

  /** However a slice is asked for, its reads concatenate to the prefix of the span that was asked for, and
      the cursor never passes the span's end. */
  lemma {:induction false} ReadsAreThePrefix(content: Bytes, start: nat, length: nat, sizes: seq<int>)
    requires start + length <= |content|
    ensures var n := Demand(sizes, length);
      Reads(content, length, Cursor(start, 0), sizes) == (Cursor(start + n, n), Some(content[start..start + n]))
  {
    hide SliceRead;
    if sizes == [] {
      assert content[start..start] == [];
    } else {
      ReadsAreThePrefix(content, start, length, sizes[..|sizes| - 1]);
      var before, n := Demand(sizes[..|sizes| - 1], length), Demand(sizes, length);
      NextRead(content, start, length, before, sizes[|sizes| - 1]);
      Adjacent(content, start, start + before, start + n);
    }
  }

  lemma Adjacent(content: Bytes, a: nat, b: nat, c: nat)
    requires a <= b <= c <= |content|
    ensures content[a..b] + content[b..c] == content[a..c]
  {
  }

  lemma NextRead(content: Bytes, start: nat, length: nat, before: nat, size: int)
    requires start + length <= |content| && before <= length
    ensures var n := if size < 0 || before + size > length then length else before + size;
      SliceRead(content, length, Cursor(start + before, before), size)
        == (Cursor(start + n, n), Some(content[start + before..start + n]))
  {
  }

  /** The next bytes of the span, which is what a read should return. */
  predicate ReadsTheSpan(content: Bytes, start: nat, length: nat, c: Cursor, size: nat) {
    start + length <= |content| && c.offset + size <= length &&
    SliceRead(content, length, c, size).1 == Some(content[start + c.offset..start + c.offset + size])
  }

  /** A read returns the span's next bytes, whatever the spool holds, exactly when the shared cursor is where
      this reader left it. The reader never seeks back there itself. */
  lemma InSyncIsNecessary(start: nat, length: nat, c: Cursor, size: nat)
    requires 0 < size && c.offset + size <= length
    ensures (forall content: Bytes :: |content| >= start + length ==> ReadsTheSpan(content, start, length, c, size))
      <==> c.pos == start + c.offset
  {
    if c.pos != start + c.offset {
      var total := start + length + c.pos + size;
      var content: Bytes := seq(total, i => if i == c.pos then 1 else 0);
      assert |content| == total >= start + length;
      assert ReadAt(content, c.pos, size) == content[c.pos..c.pos + size];
      assert content[c.pos..c.pos + size][0] == 1;
      var expected := content[start + c.offset..start + c.offset + size];
      assert expected[0] == content[start + c.offset] == 0;
      assert !ReadsTheSpan(content, start, length, c, size);
    }
  }

  /** Two streams of one upload share the cursor: opening a second one makes the first start over. */
  lemma SecondStreamRewindsTheFirst(content: Bytes, start: nat, length: nat, n: nat)
    requires 0 < n && 2 * n <= length && start + length <= |content|
    ensures var first := Reads(content, length, Cursor(start, 0), [n]);
      && first.1 == Some(content[start..start + n])
      && SliceRead(content, length, Cursor(start, first.0.offset), n).1 == Some(content[start..start + n])
  {
    ReadsAreThePrefix(content, start, length, [n]);
    assert [n][..0] == [];
  }
}
