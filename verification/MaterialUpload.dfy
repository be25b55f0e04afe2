/** The bounded multipart parser for Song material (n0te/consumer_upload.py): multipart/form-data as in
    section 4 of RFC 7578, boundaries as in section 5.1.1 of RFC 2046. */
module MaterialUpload {
  import opened Prelude
  import opened MaterialHeaders

  const DASHES: Bytes := [45, 45]

  const MAX_MATERIAL := 256 * 1024 * 1024
  const MAX_BODY := MAX_MATERIAL + 128 * 1024
  const MAX_TOKEN := 4096
  const CHUNK := 64 * 1024

  // ----- Parts and the whole form

  /** Text decoding and Content-Disposition parsing, which the program delegates to its libraries. */
  datatype Library = Library(
    utf8: Bytes -> Option<string>, disposition: Bytes -> Option<(string, Option<string>)>)

  const DISPOSITION := Ascii("content-disposition")
  const CONTENT_TYPE := Ascii("content-type")

  function Disposition(lib: Library, headers: Headers): Option<(string, Option<string>)> {
    if DISPOSITION !in headers then None
    else
      match lib.disposition(headers[DISPOSITION])
      case None => None
      case Some((name, filename)) => if name == "" then None else Some((name, filename))
  }

  predicate LegalBoundary(b: Bytes) {
    1 <= |b| <= 70 && forall i :: 0 <= i < |b| ==> 33 <= b[i] <= 126
  }

  function BoundaryLine(b: Bytes): Bytes {
    DASHES + b + CRLF
  }

  function FinalTrailer(b: Bytes, finalCrlf: bool): Bytes {
    CRLF + DASHES + b + DASHES + if finalCrlf then CRLF else []
  }

  /** _read_token_part: the token and how many bytes the part took. */
  function ReadTokenPart(lib: Library, rest: Bytes, expected: string, boundary: Bytes)
    : (r: Result<(string, nat), Error>)
    ensures r.Success? ==> r.value.1 <= |rest|
  {
    match ReadHeaders(rest, map[], 0)
    case Failure(e) => Failure(e)
    case Success((headers, used)) =>
      var afterHeaders := rest[used..];
      if headers.Keys != {DISPOSITION} then Failure(UnexpectedHeaders)
      else if Disposition(lib, headers).None? then Failure(BadDisposition)
      else if Disposition(lib, headers) != Some((expected, None)) then Failure(WrongField)
      else
        var line := Line(afterHeaders, MAX_TOKEN + 3);
        if !EndsCrlf(line) || |line| > MAX_TOKEN + 2 then Failure(BadToken)
        else
          var value := lib.utf8(line[..|line| - 2]);
          if value.None? then Failure(NotUtf8)
          else if value.value == "" then Failure(EmptyToken)
          else
            var afterToken := afterHeaders[|line|..];
            var boundaryLine := BoundaryLine(boundary);
            if Line(afterToken, |boundaryLine| + 2) != boundaryLine then Failure(BadBoundaryLine)
            else Success((value.value, used + |line| + |boundaryLine|))
  }

  datatype Parsed = Parsed(csrf: string, action: string, filename: string, start: nat, size: nat)

  function TrailerLength(body: Bytes, boundary: Bytes): Option<nat> {
    var withCrlf, without := FinalTrailer(boundary, true), FinalTrailer(boundary, false);
    if |body| >= |withCrlf| && body[|body| - |withCrlf|..] == withCrlf then Some(|withCrlf|)
    else if |body| >= |without| && body[|body| - |without|..] == without then Some(|without|)
    else None
  }

  /** The material part at start: its headers read, its span measured back from the end of the body. */
  function ParseFile(lib: Library, body: Bytes, at: nat, boundary: Bytes, csrf: string, action: string)
    : Result<Parsed, Error>
    requires at <= |body|
  {
    match ReadHeaders(body[at..], map[], 0)
    case Failure(e) => Failure(e)
    case Success((headers, used)) =>
      var part := Disposition(lib, headers);
      if !(headers.Keys <= {DISPOSITION, CONTENT_TYPE}) then Failure(UnexpectedHeaders)
      else if part.None? then Failure(BadDisposition)
      else if part.value.0 != "material" || part.value.1.None? || part.value.1.value == "" then Failure(MissingFile)
      else
        var trailer := TrailerLength(body, boundary);
        if trailer.None? then Failure(NoFinalBoundary)
        else
          var start := at + used;
          var size := |body| - trailer.value - start;
          if size <= 0 then Failure(EmptyFile)
          else if size > MAX_MATERIAL then Failure(FileTooLarge)
          else Success(Parsed(csrf, action, part.value.1.value, start, size))
  }

  /** The parser, once the body is spooled and the boundary accepted. */
  function Parse(lib: Library, body: Bytes, boundary: Bytes): Result<Parsed, Error> {
    var opening := BoundaryLine(boundary);
    if Line(body, |opening| + 2) != opening then Failure(OpeningBoundary)
    else
      match ReadTokenPart(lib, body[|opening|..], "csrf", boundary)
      case Failure(e) => Failure(e)
      case Success((csrf, used)) =>
        var at := |opening| + used;
        match ReadTokenPart(lib, body[at..], "action", boundary)
        case Failure(e) => Failure(e)
        case Success((action, used')) => ParseFile(lib, body, at + used', boundary, csrf, action)
  }

  // ----- Printed forms

  datatype Field = Field(headers: Bytes, token: Bytes)

  datatype Form = Form(
    boundary: Bytes, csrf: Field, action: Field, fileHeaders: Bytes, payload: Bytes, finalCrlf: bool)

  function PrintField(f: Field, boundary: Bytes): Bytes {
    f.headers + (f.token + CRLF + BoundaryLine(boundary))
  }

  function PrintBeforePayload(f: Form): Bytes {
    BoundaryLine(f.boundary) + PrintField(f.csrf, f.boundary) + PrintField(f.action, f.boundary) + f.fileHeaders
  }

  function Print(f: Form): Bytes {
    PrintBeforePayload(f) + f.payload + FinalTrailer(f.boundary, f.finalCrlf)
  }

  /** A hidden field whose headers name it and whose token is one bounded, decodable line. */
  ghost predicate FieldOk(lib: Library, f: Field, expected: string, value: string) {
    && (exists headers: Headers :: HeaderBlock(f.headers, headers) && headers.Keys == {DISPOSITION}
          && Disposition(lib, headers) == Some((expected, None)))
    && LF !in f.token && |f.token| <= MAX_TOKEN && lib.utf8(f.token) == Some(value) && value != ""
  }

  ghost predicate FileOk(lib: Library, fileHeaders: Bytes, filename: string) {
    filename != ""
    && exists headers: Headers :: HeaderBlock(fileHeaders, headers)
         && headers.Keys <= {DISPOSITION, CONTENT_TYPE}
         && Disposition(lib, headers) == Some(("material", Some(filename)))
  }

  /** A form whose values a browser would send for csrf, action and one named file. */
  ghost predicate FormOk(lib: Library, f: Form, p: Parsed) {
    && LegalBoundary(f.boundary)
    && FieldOk(lib, f.csrf, "csrf", p.csrf) && FieldOk(lib, f.action, "action", p.action)
    && FileOk(lib, f.fileHeaders, p.filename)
    && 1 <= |f.payload| <= MAX_MATERIAL
    && p.start == |PrintBeforePayload(f)| && p.size == |f.payload|
  }

  lemma BoundaryLineIsALine(b: Bytes)
    requires LegalBoundary(b)
    ensures var line := BoundaryLine(b);
      line != [] && line[|line| - 1] == LF && LF !in line[..|line| - 1]
  {
    assert BoundaryLine(b)[..|BoundaryLine(b)| - 1] == DASHES + b + [CR];
  }

  /** A boundary line is recognised exactly when the unread bytes start with it. */
  lemma BoundaryLineRead(b: Bytes, rest: Bytes)
    requires LegalBoundary(b)
    ensures Line(rest, |BoundaryLine(b)| + 2) == BoundaryLine(b) <==> BoundaryLine(b) <= rest
  {
    var line := BoundaryLine(b);
    BoundaryLineIsALine(b);
    if line <= rest {
      assert rest == line + rest[|line|..];
      LineIgnoresWhatFollows(line, rest[|line|..], |line| + 2);
    }
  }

  lemma TokenLineRead(token: Bytes, more: Bytes)
    requires LF !in token && |token| <= MAX_TOKEN
    ensures Line(token + CRLF + more, MAX_TOKEN + 3) == token + CRLF
    ensures EndsCrlf(token + CRLF) && (token + CRLF)[..|token|] == token
  {
    var text := token + [CR];
    LineStopsAtLf(text, more, MAX_TOKEN + 3);
    assert token + CRLF == text + [LF];
    assert (token + CRLF)[|token|..] == CRLF;
  }

  lemma TokenLineShape(rest: Bytes)
    requires var line := Line(rest, MAX_TOKEN + 3); EndsCrlf(line) && |line| <= MAX_TOKEN + 2
    ensures var line := Line(rest, MAX_TOKEN + 3); var token := line[..|line| - 2];
      rest == token + CRLF + rest[|line|..] && LF !in token && |token| <= MAX_TOKEN
  {
    var line := Line(rest, MAX_TOKEN + 3);
    LineHoldsOneLf(rest, MAX_TOKEN + 3);
    hide Line;
    assert line == line[..|line| - 2] + line[|line| - 2..];
    assert rest == line + rest[|line|..];
  }

  /** A printed field is read back as its value, whatever follows it. */
  lemma FieldIsRead(lib: Library, f: Field, expected: string, value: string, boundary: Bytes, more: Bytes)
    requires LegalBoundary(boundary) && FieldOk(lib, f, expected, value)
    ensures ReadTokenPart(lib, PrintField(f, boundary) + more, expected, boundary)
      == Success((value, |PrintField(f, boundary)|))
    ensures |PrintField(f, boundary)| <= MAX_HEADER_BLOCK + MAX_TOKEN + 76
  {
    hide HeaderBlock, ReadHeaders, Line, Disposition, EndsCrlf;
    var headers: Headers :| HeaderBlock(f.headers, headers) && headers.Keys == {DISPOSITION}
      && Disposition(lib, headers) == Some((expected, None));
    var boundaryLine := BoundaryLine(boundary);
    var afterHeaders := f.token + CRLF + (boundaryLine + more);
    assert PrintField(f, boundary) + more == f.headers + afterHeaders;
    BlockIsRead(f.headers, headers, afterHeaders);
    assert (f.headers + afterHeaders)[|f.headers|..] == afterHeaders;
    TokenLineRead(f.token, boundaryLine + more);
    assert afterHeaders[|f.token + CRLF|..] == boundaryLine + more;
    BoundaryLineRead(boundary, boundaryLine + more);
  }

  /** A field that was read is a printed field. */
  lemma FieldWasPrinted(lib: Library, rest: Bytes, expected: string, boundary: Bytes) returns (f: Field)
    requires LegalBoundary(boundary) && ReadTokenPart(lib, rest, expected, boundary).Success?
    ensures var (value, used) := ReadTokenPart(lib, rest, expected, boundary).value;
      FieldOk(lib, f, expected, value) && rest[..used] == PrintField(f, boundary)
  {
    hide HeaderBlock, ReadHeaders, Line, Disposition, ReadTokenPart, EndsCrlf;
    var headers, used := FieldFacts(lib, rest, expected, boundary);
    HeadersExactly(rest, headers, used);
    var afterHeaders := rest[used..];
    var line := Line(afterHeaders, MAX_TOKEN + 3);
    TokenLineShape(afterHeaders);
    f := Field(rest[..used], line[..|line| - 2]);
    FieldPieces(rest, used, line, boundary);
    assert HeaderBlock(f.headers, headers);
  }

  /** What reading a field found. */
  lemma FieldFacts(lib: Library, rest: Bytes, expected: string, boundary: Bytes) returns (headers: Headers, used: nat)
    requires ReadTokenPart(lib, rest, expected, boundary).Success?
    ensures ReadHeaders(rest, map[], 0) == Success((headers, used)) && used <= |rest|
    ensures headers.Keys == {DISPOSITION} && Disposition(lib, headers) == Some((expected, None))
    ensures
      var line, boundaryLine := Line(rest[used..], MAX_TOKEN + 3), BoundaryLine(boundary);
      && EndsCrlf(line) && 2 <= |line| <= MAX_TOKEN + 2 && |line| <= |rest[used..]|
      && lib.utf8(line[..|line| - 2]).Some? && lib.utf8(line[..|line| - 2]).value != ""
      && Line(rest[used..][|line|..], |boundaryLine| + 2) == boundaryLine
      && ReadTokenPart(lib, rest, expected, boundary)
         == Success((lib.utf8(line[..|line| - 2]).value, used + |line| + |boundaryLine|))
  {
    hide ReadHeaders, Line, Disposition, BoundaryLine;
    headers, used := ReadHeaders(rest, map[], 0).value.0, ReadHeaders(rest, map[], 0).value.1;
  }

  lemma FieldPieces(rest: Bytes, used: nat, line: Bytes, boundary: Bytes)
    requires LegalBoundary(boundary) && used <= |rest| && line == Line(rest[used..], MAX_TOKEN + 3)
    requires EndsCrlf(line) && 2 <= |line| <= MAX_TOKEN + 2 && |line| <= |rest[used..]|
    requires Line(rest[used..][|line|..], |BoundaryLine(boundary)| + 2) == BoundaryLine(boundary)
    ensures used + |line| + |BoundaryLine(boundary)| <= |rest|
    ensures rest[..used + |line| + |BoundaryLine(boundary)|]
         == PrintField(Field(rest[..used], line[..|line| - 2]), boundary)
  {
    hide Line, BoundaryLine;
    TokenLineShape(rest[used..]);
    BoundaryLineRead(boundary, rest[used..][|line|..]);
    ThreePieces(rest, used, line, BoundaryLine(boundary));
    assert line == line[..|line| - 2] + CRLF;
  }

  lemma ThreePieces(rest: Bytes, used: nat, line: Bytes, boundaryLine: Bytes)
    requires used <= |rest| && line <= rest[used..] && boundaryLine <= rest[used..][|line|..]
    ensures rest[..used + |line| + |boundaryLine|] == rest[..used] + (line + boundaryLine)
  {
    assert rest[used..][|line|..] == rest[used + |line|..];
  }

  /** The two trailer forms exclude each other, so the end of the payload is never in doubt. */
  lemma TrailerFound(prefix: Bytes, boundary: Bytes, finalCrlf: bool)
    ensures TrailerLength(prefix + FinalTrailer(boundary, finalCrlf), boundary)
      == Some(|FinalTrailer(boundary, finalCrlf)|)
  {
    var trailer := FinalTrailer(boundary, finalCrlf);
    var body := prefix + trailer;
    assert body[|body| - |trailer|..] == trailer;
    if !finalCrlf {
      var other := FinalTrailer(boundary, true);
      assert trailer[|trailer| - 1] == 45 && other[|other| - 1] == LF;
      assert body[|body| - 1] == 45;
      if |body| >= |other| {
        assert body[|body| - |other|..][|other| - 1] == 45;
      }
    }
  }

  /** Parsing a printed form returns its tokens, its filename and exactly the span of its payload, for both
      trailer forms and whatever the payload contains; and no well-formed form is over the body limit. */
  lemma ParsePrinted(lib: Library, f: Form, p: Parsed)
    requires FormOk(lib, f, p)
    ensures Parse(lib, Print(f), f.boundary) == Success(p)
    ensures Print(f)[p.start..p.start + p.size] == f.payload
    ensures 0 < |Print(f)| <= MAX_BODY
  {
    hide Parse, ReadTokenPart, FieldOk, FileOk, LegalBoundary, ParseFile, PrintField, BoundaryLine, FinalTrailer;
    var body, boundary := Print(f), f.boundary;
    var opening, csrf, action := BoundaryLine(boundary), PrintField(f.csrf, boundary), PrintField(f.action, boundary);
    var afterAction := f.fileHeaders + (f.payload + FinalTrailer(boundary, f.finalCrlf));
    Pieces(opening, csrf, action, f.fileHeaders, f.payload, FinalTrailer(boundary, f.finalCrlf));
    FieldIsRead(lib, f.csrf, "csrf", p.csrf, boundary, action + afterAction);
    FieldIsRead(lib, f.action, "action", p.action, boundary, afterAction);
    ParseChain(lib, body, boundary, p.csrf, |csrf|, p.action, |action|);
    ParseFilePrinted(lib, f, p);
    BoundaryIsShort(boundary);
  }

  lemma Pieces(a: Bytes, b: Bytes, c: Bytes, d: Bytes, e: Bytes, t: Bytes)
    ensures var body := a + b + c + d + e + t;
      && a <= body && body[|a|..] == b + (c + (d + (e + t))) && body[|a| + |b|..] == c + (d + (e + t))
      && body[|a + b + c + d|..|a + b + c + d| + |e|] == e
  {
  }

  lemma ParseChain(lib: Library, body: Bytes, boundary: Bytes, csrf: string, used: nat, action: string, used': nat)
    requires |BoundaryLine(boundary)| + used + used' <= |body|
    requires LegalBoundary(boundary) && BoundaryLine(boundary) <= body
    requires ReadTokenPart(lib, body[|BoundaryLine(boundary)|..], "csrf", boundary) == Success((csrf, used))
    requires ReadTokenPart(lib, body[|BoundaryLine(boundary)| + used..], "action", boundary)
          == Success((action, used'))
    ensures Parse(lib, body, boundary)
      == ParseFile(lib, body, |BoundaryLine(boundary)| + used + used', boundary, csrf, action)
  {
    hide ReadTokenPart, Line, LegalBoundary, ParseFile;
    BoundaryLineRead(boundary, body);
  }

  lemma BoundaryIsShort(boundary: Bytes)
    requires LegalBoundary(boundary)
    ensures |BoundaryLine(boundary)| <= 74 && forall crlf :: |FinalTrailer(boundary, crlf)| <= 78
  {
  }

  lemma ParseFilePrinted(lib: Library, f: Form, p: Parsed)
    requires FormOk(lib, f, p)
    ensures ParseFile(lib, Print(f), p.start - |f.fileHeaders|, f.boundary, p.csrf, p.action) == Success(p)
    ensures |f.fileHeaders| <= MAX_HEADER_BLOCK
  {
    hide FieldOk, ReadHeaders, HeaderBlock, Disposition, LegalBoundary, TrailerLength, PrintField;
    var headers: Headers :| HeaderBlock(f.fileHeaders, headers) && headers.Keys <= {DISPOSITION, CONTENT_TYPE}
      && Disposition(lib, headers) == Some(("material", Some(p.filename)));
    var after := f.payload + FinalTrailer(f.boundary, f.finalCrlf);
    BlockIsRead(f.fileHeaders, headers, after);
    assert Print(f)[p.start - |f.fileHeaders|..] == f.fileHeaders + after;
    TrailerFound(PrintBeforePayload(f) + f.payload, f.boundary, f.finalCrlf);
  }

  /** Everything the parser accepts is a printed form: the span it reports is the payload of some
      well-formed form whose printing is the body, byte for byte. */
  lemma AcceptedIsPrinted(lib: Library, body: Bytes, boundary: Bytes) returns (f: Form)
    requires LegalBoundary(boundary) && Parse(lib, body, boundary).Success?
    ensures FormOk(lib, f, Parse(lib, body, boundary).value) && f.boundary == boundary && Print(f) == body
  {
    hide ReadTokenPart, FieldOk, FileOk, Line, LegalBoundary, TrailerLength, ParseFile, FinalTrailer, PrintField,
      BoundaryLine, Print, PrintBeforePayload;
    var p := Parse(lib, body, boundary).value;
    var opening := BoundaryLine(boundary);
    BoundaryLineRead(boundary, body);
    var csrf := FieldWasPrinted(lib, body[|opening|..], "csrf", boundary);
    var at := |opening| + ReadTokenPart(lib, body[|opening|..], "csrf", boundary).value.1;
    var action := FieldWasPrinted(lib, body[at..], "action", boundary);
    var fileAt := at + ReadTokenPart(lib, body[at..], "action", boundary).value.1;
    var csrfValue := ReadTokenPart(lib, body[|opening|..], "csrf", boundary).value.0;
    var actionValue := ReadTokenPart(lib, body[at..], "action", boundary).value.0;
    FileWasPrinted(lib, body, fileAt, boundary, csrfValue, actionValue);
    var finalCrlf, trailer := TrailerIs(body, boundary);
    f := Form(boundary, csrf, action, body[fileAt..p.start], body[p.start..p.start + p.size], finalCrlf);
    PrintsBack(f, body, |opening|, at, fileAt, p.start, p.start + p.size);
  }

  lemma FileWasPrinted(lib: Library, body: Bytes, at: nat, boundary: Bytes, csrf: string, action: string)
    requires at <= |body| && ParseFile(lib, body, at, boundary, csrf, action).Success?
    ensures var p := ParseFile(lib, body, at, boundary, csrf, action).value;
      && at <= p.start && p.csrf == csrf && p.action == action && 1 <= p.size <= MAX_MATERIAL
      && TrailerLength(body, boundary).Some? && p.start + p.size + TrailerLength(body, boundary).value == |body|
      && FileOk(lib, body[at..p.start], p.filename)
  {
    hide ReadHeaders, HeaderBlock, Disposition, TrailerLength;
    var (headers, used) := ReadHeaders(body[at..], map[], 0).value;
    HeadersExactly(body[at..], headers, used);
    assert body[at..at + used] == body[at..][..used];
    assert HeaderBlock(body[at..at + used], headers);
    assert Disposition(lib, headers)
        == Some(("material", Some(ParseFile(lib, body, at, boundary, csrf, action).value.filename)));
  }

  lemma PrintsBack(f: Form, body: Bytes, a: nat, b: nat, c: nat, d: nat, e: nat)
    requires a <= b <= c <= d <= e <= |body|
    requires body[..a] == BoundaryLine(f.boundary)
    requires body[a..][..b - a] == PrintField(f.csrf, f.boundary)
    requires body[b..][..c - b] == PrintField(f.action, f.boundary)
    requires body[c..d] == f.fileHeaders && body[d..e] == f.payload
    requires body[e..] == FinalTrailer(f.boundary, f.finalCrlf)
    ensures Print(f) == body && |PrintBeforePayload(f)| == d
  {
    hide BoundaryLine, PrintField, FinalTrailer;
    assert PrintBeforePayload(f) == body[..d];
  }

  lemma TrailerIs(body: Bytes, boundary: Bytes) returns (finalCrlf: bool, trailer: Bytes)
    requires TrailerLength(body, boundary).Some?
    ensures trailer == FinalTrailer(boundary, finalCrlf) && TrailerLength(body, boundary) == Some(|trailer|)
    ensures |trailer| <= |body| && body[|body| - |trailer|..] == trailer
  {
    var withCrlf := FinalTrailer(boundary, true);
    finalCrlf := |body| >= |withCrlf| && body[|body| - |withCrlf|..] == withCrlf;
    trailer := FinalTrailer(boundary, finalCrlf);
  }

  /** The parser accepts a body exactly when it is a printed form, and reports exactly that form's values. */
  lemma ParserIsExact(lib: Library, body: Bytes, boundary: Bytes, p: Parsed)
    requires LegalBoundary(boundary)
    ensures Parse(lib, body, boundary) == Success(p) <==>
      exists f :: FormOk(lib, f, p) && f.boundary == boundary && Print(f) == body
  {
    if Parse(lib, body, boundary) == Success(p) {
      var f := AcceptedIsPrinted(lib, body, boundary);
    }
    if f :| FormOk(lib, f, p) && f.boundary == boundary && Print(f) == body {
      ParsePrinted(lib, f, p);
    }
  }
}
