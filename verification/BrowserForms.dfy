/** The forms a browser sends to the material upload (section 4 of RFC 7578), and that the parser of
    n0te/consumer_upload.py takes all of them. */
module BrowserForms {
  import opened Prelude
  import opened MaterialHeaders
  import opened MaterialUpload

  const QUOTE: Byte := 34

  const FIELD_START := Ascii("form-data; name=\"")
  const FILE_START := Ascii("form-data; name=\"material\"; filename=\"")

  /** What the user submits: two hidden tokens, one named file with or without a media type. */
  datatype Submission = Submission(
    boundary: Bytes, csrf: Bytes, action: Bytes, filename: Bytes, mediaType: Option<Bytes>, payload: Bytes,
    finalCrlf: bool)

  function FieldValue(name: Bytes): Bytes {
    FIELD_START + name + [QUOTE]
  }

  function FileValue(filename: Bytes): Bytes {
    FILE_START + filename + [QUOTE]
  }

  function DispositionLine(value: Bytes): HeaderLine {
    HeaderLine(Ascii("Content-Disposition"), [32] + value)
  }

  function TypeLine(mediaType: Bytes): HeaderLine {
    HeaderLine(Ascii("Content-Type"), [32] + mediaType)
  }

  function FileLines(s: Submission): seq<HeaderLine> {
    [DispositionLine(FileValue(s.filename))] + if s.mediaType.Some? then [TypeLine(s.mediaType.value)] else []
  }

  function FormOf(s: Submission): Form {
    Form(s.boundary, Field(PrintBlock([DispositionLine(FieldValue(Ascii("csrf")))]), s.csrf),
         Field(PrintBlock([DispositionLine(FieldValue(Ascii("action")))]), s.action),
         PrintBlock(FileLines(s)), s.payload, s.finalCrlf)
  }

  predicate TokenOk(token: Bytes) {
    LF !in token && |token| <= MAX_TOKEN
  }

  /** The bounds the parser promises to take. */
  predicate Sendable(s: Submission) {
    && LegalBoundary(s.boundary) && TokenOk(s.csrf) && TokenOk(s.action)
    && LF !in s.filename && (s.mediaType.Some? ==> LF !in s.mediaType.value)
    && (forall i :: 0 <= i < |FileLines(s)| ==> |PrintLine(FileLines(s)[i])| <= MAX_HEADER_LINE)
    && |PrintBlock(FileLines(s))| <= MAX_HEADER_BLOCK
    && 1 <= |s.payload| <= MAX_MATERIAL
  }

  /** The libraries read the tokens and the three dispositions as the browser meant them. */
  predicate Understands(lib: Library, s: Submission, csrf: string, action: string, filename: string) {
    && lib.utf8(s.csrf) == Some(csrf) && csrf != "" && lib.utf8(s.action) == Some(action) && action != ""
    && lib.disposition(Strip(FieldValue(Ascii("csrf")))) == Some(("csrf", None))
    && lib.disposition(Strip(FieldValue(Ascii("action")))) == Some(("action", None))
    && lib.disposition(Strip(FileValue(s.filename))) == Some(("material", Some(filename))) && filename != ""
  }

  lemma DispositionName()
    ensures var name := Ascii("Content-Disposition");
      && Lower(Strip(name)) == DISPOSITION != [] && IsAscii(name) && COLON !in name && LF !in name && |name| == 19
  {
    FirmIsStripped(Ascii("Content-Disposition"));
  }

  lemma TypeName()
    ensures var name := Ascii("Content-Type");
      && Lower(Strip(name)) == CONTENT_TYPE != [] && IsAscii(name) && COLON !in name && LF !in name && |name| == 12
  {
    FirmIsStripped(Ascii("Content-Type"));
  }

  lemma LeadingSpace(text: Bytes)
    ensures Strip([32] + text) == Strip(text)
  {
    assert ([32] + text)[1..] == text;
  }

  lemma DispositionLineOk(value: Bytes)
    requires LF !in value && |PrintLine(DispositionLine(value))| <= MAX_HEADER_LINE
    ensures var h := DispositionLine(value);
      LineOk(h) && NameOf(h) == DISPOSITION && Strip(h.value) == Strip(value)
  {
    DispositionName();
    LeadingSpace(value);
    hide Strip, Lower, Ascii, IsAscii;
  }

  lemma TypeLineOk(mediaType: Bytes)
    requires LF !in mediaType && |PrintLine(TypeLine(mediaType))| <= MAX_HEADER_LINE
    ensures var h := TypeLine(mediaType); LineOk(h) && NameOf(h) == CONTENT_TYPE
  {
    TypeName();
    hide Strip, Lower, Ascii, IsAscii;
  }

  lemma BlockOfOne(h: HeaderLine)
    requires LineOk(h)
    ensures BlockOk([h]) && Means([h], map[NameOf(h) := Strip(h.value)])
  {
    LineIsBounded(h);
    var hs := [h];
    BlockLength(hs);
    assert hs[1..] == [] && |PrintBlock([])| == 2;
    hide LineOk, NameOf, Strip, PrintLine, PrintBlock;
    assert LineOk(hs[0]) && NameOf(hs[0]) == NameOf(h);
  }

  lemma LineIsBounded(h: HeaderLine)
    requires LineOk(h)
    ensures |PrintLine(h)| <= MAX_HEADER_LINE
  {
  }

  lemma BlockOfTwo(a: HeaderLine, b: HeaderLine)
    requires LineOk(a) && LineOk(b) && NameOf(a) != NameOf(b) && |PrintBlock([a, b])| <= MAX_HEADER_BLOCK
    ensures BlockOk([a, b])
    ensures Means([a, b], map[NameOf(a) := Strip(a.value), NameOf(b) := Strip(b.value)])
  {
    var hs := [a, b];
    hide LineOk, NameOf, Strip, PrintLine, PrintBlock;
    assert LineOk(hs[0]) && LineOk(hs[1]) && NameOf(hs[0]) == NameOf(a) && NameOf(hs[1]) == NameOf(b);
  }

  lemma OneLineBlock(value: Bytes)
    requires LF !in value && |PrintLine(DispositionLine(value))| <= MAX_HEADER_LINE
    ensures HeaderBlock(PrintBlock([DispositionLine(value)]), map[DISPOSITION := Strip(value)])
  {
    DispositionLineOk(value);
    hide DispositionLine, LineOk, NameOf, Strip, BlockOk, Means, PrintBlock;
    BlockOfOne(DispositionLine(value));
  }

  lemma TwoLineBlock(value: Bytes, mediaType: Bytes)
    requires LF !in value && |PrintLine(DispositionLine(value))| <= MAX_HEADER_LINE
    requires LF !in mediaType && |PrintLine(TypeLine(mediaType))| <= MAX_HEADER_LINE
    requires |PrintBlock([DispositionLine(value), TypeLine(mediaType)])| <= MAX_HEADER_BLOCK
    ensures HeaderBlock(PrintBlock([DispositionLine(value), TypeLine(mediaType)]),
                        map[DISPOSITION := Strip(value), CONTENT_TYPE := Strip([32] + mediaType)])
  {
    DispositionLineOk(value);
    TypeLineOk(mediaType);
    assert |DISPOSITION| != |CONTENT_TYPE|;
    assert TypeLine(mediaType).value == [32] + mediaType;
    hide DispositionLine, TypeLine, LineOk, NameOf, Strip, BlockOk, Means, PrintBlock;
    BlockOfTwo(DispositionLine(value), TypeLine(mediaType));
  }

  lemma PlainStarts()
    ensures LF !in FIELD_START && |FIELD_START| == 17 && LF !in FILE_START && |FILE_START| == 38
  {
  }

  lemma NamesOk()
    ensures LF !in Ascii("csrf") && |Ascii("csrf")| == 4 && LF !in Ascii("action") && |Ascii("action")| == 6
  {
  }

  lemma FieldLineIsShort(name: Bytes)
    requires |name| <= 6
    ensures |PrintLine(DispositionLine(FieldValue(name)))| <= MAX_HEADER_LINE
  {
    PlainStarts();
    DispositionName();
  }

  lemma BrowserField(lib: Library, name: Bytes, expected: string, token: Bytes, value: string)
    requires LF !in name && |name| <= 6 && TokenOk(token) && lib.utf8(token) == Some(value) && value != ""
    requires lib.disposition(Strip(FieldValue(name))) == Some((expected, None)) && expected != ""
    ensures FieldOk(lib, Field(PrintBlock([DispositionLine(FieldValue(name))]), token), expected, value)
  {
    PlainStarts();
    FieldLineIsShort(name);
    OneLineBlock(FieldValue(name));
    hide PrintBlock, HeaderBlock, Strip;
    var headers := map[DISPOSITION := Strip(FieldValue(name))];
    assert headers.Keys == {DISPOSITION} && Disposition(lib, headers) == Some((expected, None));
  }

  lemma BrowserFile(lib: Library, s: Submission, filename: string)
    requires Sendable(s) && filename != ""
    requires lib.disposition(Strip(FileValue(s.filename))) == Some(("material", Some(filename)))
    ensures FileOk(lib, PrintBlock(FileLines(s)), filename)
  {
    PlainStarts();
    var value := FileValue(s.filename);
    assert |DISPOSITION| != |CONTENT_TYPE|;
    hide PrintBlock, HeaderBlock, Strip, DispositionLine, TypeLine;
    assert FileLines(s)[0] == DispositionLine(value);
    if s.mediaType.Some? {
      assert FileLines(s) == [DispositionLine(value), TypeLine(s.mediaType.value)];
      assert FileLines(s)[1] == TypeLine(s.mediaType.value);
      TwoLineBlock(value, s.mediaType.value);
      var headers := map[DISPOSITION := Strip(value), CONTENT_TYPE := Strip([32] + s.mediaType.value)];
      FileBlock(lib, PrintBlock(FileLines(s)), value, headers, filename);
    } else {
      OneLineBlock(value);
      assert FileLines(s) == [DispositionLine(value)];
      FileBlock(lib, PrintBlock(FileLines(s)), value, map[DISPOSITION := Strip(value)], filename);
    }
  }

  lemma FileBlock(lib: Library, block: Bytes, value: Bytes, headers: Headers, filename: string)
    requires HeaderBlock(block, headers) && headers.Keys <= {DISPOSITION, CONTENT_TYPE} && filename != ""
    requires DISPOSITION in headers && headers[DISPOSITION] == Strip(value)
    requires lib.disposition(Strip(value)) == Some(("material", Some(filename)))
    ensures FileOk(lib, block, filename)
  {
    hide HeaderBlock, Strip;
    assert Disposition(lib, headers) == Some(("material", Some(filename)));
  }

  /** Whatever the bounded tokens, file name, media type, boundary and payload, and with either trailer, a
      browser's form is accepted with exactly the submitted values. */
  lemma BrowserFormIsAccepted(lib: Library, s: Submission, csrf: string, action: string, filename: string)
    requires Sendable(s) && Understands(lib, s, csrf, action, filename)
    ensures
      var form := FormOf(s);
      var p := Parsed(csrf, action, filename, |PrintBeforePayload(form)|, |s.payload|);
      && FormOk(lib, form, p) && Parse(lib, Print(form), s.boundary) == Success(p)
      && Print(form)[p.start..p.start + p.size] == s.payload
  {
    NamesOk();
    BrowserField(lib, Ascii("csrf"), "csrf", s.csrf, csrf);
    BrowserField(lib, Ascii("action"), "action", s.action, action);
    BrowserFile(lib, s, filename);
    hide FieldOk, FileOk, PrintBlock, PrintBeforePayload, Print, Parse, LegalBoundary;
    var form := FormOf(s);
    var p := Parsed(csrf, action, filename, |PrintBeforePayload(form)|, |s.payload|);
    assert FormOk(lib, form, p);
    ParsePrinted(lib, form, p);
  }

  // ----- Libraries that understand ASCII submissions

  function Text(raw: Bytes): string {
    seq(|raw|, i requires 0 <= i < |raw| => raw[i] as char)
  }

  function PlainText(raw: Bytes): Option<string> {
    if IsAscii(raw) then Some(Text(raw)) else None
  }

  /** Reads the three dispositions above and no other. */
  function PlainDisposition(value: Bytes): Option<(string, Option<string>)> {
    if value == FieldValue(Ascii("csrf")) then Some(("csrf", None))
    else if value == FieldValue(Ascii("action")) then Some(("action", None))
    else if FILE_START <= value && |FILE_START| < |value| && value[|value| - 1] == QUOTE
    then Some(("material", Some(Text(value[|FILE_START|..|value| - 1]))))
    else None
  }

  function PlainLibrary(): Library {
    Library(raw => PlainText(raw), value => PlainDisposition(value))
  }

  lemma FieldValueIsFirm(name: Bytes)
    ensures Strip(FieldValue(name)) == FieldValue(name)
  {
    assert FieldValue(name)[0] == FIELD_START[0] == 102;
    FirmIsStripped(FieldValue(name));
  }

  lemma FileValueIsFirm(filename: Bytes)
    ensures Strip(FileValue(filename)) == FileValue(filename)
  {
    assert FileValue(filename)[0] == FILE_START[0] == 102;
    FirmIsStripped(FileValue(filename));
  }

  lemma ValuesDiffer(filename: Bytes)
    ensures FieldValue(Ascii("csrf")) != FieldValue(Ascii("action"))
    ensures FileValue(filename) != FieldValue(Ascii("csrf")) && FileValue(filename) != FieldValue(Ascii("action"))
  {
    PlainStarts();
    assert FieldValue(Ascii("csrf"))[17] == 99 && FieldValue(Ascii("action"))[17] == 97;
    assert FileValue(filename)[17] == FILE_START[17] == 109;
  }

  lemma FileValueIsRead(filename: Bytes)
    ensures PlainDisposition(FileValue(filename)) == Some(("material", Some(Text(filename))))
  {
    ValuesDiffer(filename);
    var value := FileValue(filename);
    assert value[|FILE_START|..|value| - 1] == filename;
  }

  /** Every bounded ASCII submission is understood by a library, so the theorem above is about something. */
  lemma PlainSubmissionIsAccepted(s: Submission)
    requires Sendable(s) && s.csrf != [] && s.action != [] && s.filename != []
    requires IsAscii(s.csrf) && IsAscii(s.action) && IsAscii(s.filename)
    ensures Understands(PlainLibrary(), s, Text(s.csrf), Text(s.action), Text(s.filename))
    ensures Parse(PlainLibrary(), Print(FormOf(s)), s.boundary)
         == Success(Parsed(Text(s.csrf), Text(s.action), Text(s.filename), |PrintBeforePayload(FormOf(s))|,
                           |s.payload|))
  {
    FieldValueIsFirm(Ascii("csrf"));
    FieldValueIsFirm(Ascii("action"));
    FileValueIsFirm(s.filename);
    ValuesDiffer(s.filename);
    FileValueIsRead(s.filename);
    hide Strip, FieldValue, FileValue, Sendable, FormOf, Print, PrintBeforePayload, Parse;
    BrowserFormIsAccepted(PlainLibrary(), s, Text(s.csrf), Text(s.action), Text(s.filename));
  }
}
