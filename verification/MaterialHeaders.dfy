/** The header blocks of multipart parts: the bounded reader of n0te/consumer_upload.py and the grammar it
    accepts, said without it. */
module MaterialHeaders {
  import opened Prelude

  const LF: Byte := 10
  const CR: Byte := 13
  const CRLF: Bytes := [13, 10]
  const COLON: Byte := 58

  const MAX_HEADER_LINE := 8192
  const MAX_HEADER_BLOCK := 16384

  datatype Error =
    | BadSize | BadBoundary | BodyShort | BodyOverrun | OpeningBoundary | EndedInHeaders | HeadersTooLarge
    | BadHeaderLine | BadHeaderEncoding | BadHeaderName | UnexpectedHeaders | BadDisposition | WrongField
    | BadToken | NotUtf8 | EmptyToken | BadBoundaryLine | MissingFile | NoFinalBoundary | EmptyFile | FileTooLarge

  // ----- Lines

  /** What readline(limit) returns at the head of the unread bytes. */
  function Line(rest: Bytes, limit: nat): (line: Bytes)
    ensures line <= rest && |line| <= limit
  {
    if rest == [] || limit == 0 then []
    else if rest[0] == LF then [LF]
    else [rest[0]] + Line(rest[1..], limit - 1)
  }

  predicate EndsCrlf(line: Bytes) {
    |line| >= 2 && line[|line| - 2..] == CRLF
  }

  lemma {:induction false} LineStopsAtLf(text: Bytes, more: Bytes, limit: nat)
    requires LF !in text && |text| < limit
    ensures Line(text + [LF] + more, limit) == text + [LF]
  {
    var rest := text + [LF] + more;
    if text != [] {
      assert rest[1..] == text[1..] + [LF] + more;
      LineStopsAtLf(text[1..], more, limit - 1);
    }
  }

  lemma NoLfBehind(first: Byte, tail: Bytes)
    requires first != LF && forall i :: 0 <= i < |tail| - 1 ==> tail[i] != LF
    ensures forall i :: 0 <= i < |tail| ==> ([first] + tail)[i] != LF
  {
    forall i | 0 <= i < |tail| ensures ([first] + tail)[i] != LF {
      if i > 0 {
        assert ([first] + tail)[i] == tail[i - 1];
      }
    }
  }

  /** Only the last byte of a line can be a newline. */
  lemma {:induction false} LineHoldsOneLf(rest: Bytes, limit: nat)
    ensures forall i :: 0 <= i < |Line(rest, limit)| - 1 ==> Line(rest, limit)[i] != LF
  {
    if rest != [] && limit > 0 && rest[0] != LF {
      var tail := Line(rest[1..], limit - 1);
      LineHoldsOneLf(rest[1..], limit - 1);
      NoLfBehind(rest[0], tail);
      assert Line(rest, limit) == [rest[0]] + tail;
    }
  }

  /** A line that ended at its newline is read the same whatever follows it. */
  lemma LineIgnoresWhatFollows(line: Bytes, more: Bytes, limit: nat)
    requires line != [] && line[|line| - 1] == LF && LF !in line[..|line| - 1] && |line| <= limit
    ensures Line(line + more, limit) == line
  {
    var text := line[..|line| - 1];
    assert line == text + [LF];
    LineStopsAtLf(text, more, limit);
  }

  // ----- Headers

  type Headers = map<Bytes, Bytes>

  function Lower(text: Bytes): Bytes {
    seq(|text|, i requires 0 <= i < |text| => if 65 <= text[i] <= 90 then (text[i] + 32) as Byte else text[i])
  }

  predicate IsAscii(text: Bytes) {
    forall i :: 0 <= i < |text| ==> text[i] < 128
  }

  function HeaderOf(line: Bytes): Result<(Bytes, Bytes), Error> {
    if !EndsCrlf(line) || COLON !in line[..|line| - 2] then Failure(BadHeaderLine)
    else
      var text := line[..|line| - 2];
      var cut := FirstIndex(text, COLON);
      if !IsAscii(text[..cut]) then Failure(BadHeaderEncoding)
      else Success((Lower(Strip(text[..cut])), Strip(text[cut + 1..])))
  }

  /** What the next line does to the headers read so far. */
  datatype HeaderStep = Stop(error: Error) | Blank | More(headers: Headers)

  function HeaderStepOf(line: Bytes, headers: Headers, consumed: nat): HeaderStep {
    if line == [] then Stop(EndedInHeaders)
    else if |line| > MAX_HEADER_LINE || consumed + |line| > MAX_HEADER_BLOCK then Stop(HeadersTooLarge)
    else if line == CRLF then Blank
    else
      match HeaderOf(line)
      case Failure(e) => Stop(e)
      case Success((name, value)) =>
        if name == [] || name in headers then Stop(BadHeaderName) else More(headers[name := value])
  }

  /** _read_headers over the unread bytes: the headers, and how many bytes they took. */
  function ReadHeaders(rest: Bytes, headers: Headers, consumed: nat): (r: Result<(Headers, nat), Error>)
    ensures r.Success? ==> 0 < r.value.1 <= |rest|
    decreases |rest|
  {
    var line := Line(rest, MAX_HEADER_LINE + 1);
    match HeaderStepOf(line, headers, consumed)
    case Stop(e) => Failure(e)
    case Blank => Success((headers, |line|))
    case More(headers') =>
      match ReadHeaders(rest[|line|..], headers', consumed + |line|)
      case Failure(e) => Failure(e)
      case Success((found, used)) => Success((found, |line| + used))
  }

  lemma HeaderLineEnds(line: Bytes, headers: Headers, consumed: nat)
    requires !HeaderStepOf(line, headers, consumed).Stop?
    ensures EndsCrlf(line) && consumed + |line| <= MAX_HEADER_BLOCK
  {
  }

  // ----- The grammar

  /** A header as its raw bytes: everything before the first colon, and everything after it. */
  datatype HeaderLine = HeaderLine(name: Bytes, value: Bytes)

  function PrintLine(h: HeaderLine): Bytes {
    h.name + [COLON] + h.value + CRLF
  }

  function NameOf(h: HeaderLine): Bytes {
    Lower(Strip(h.name))
  }

  /** One line: an ASCII name without a colon that is more than space, and any value, within the bound. */
  predicate LineOk(h: HeaderLine) {
    && COLON !in h.name && LF !in h.name && LF !in h.value && IsAscii(h.name) && NameOf(h) != []
    && |PrintLine(h)| <= MAX_HEADER_LINE
  }

  function PrintLines(hs: seq<HeaderLine>): Bytes {
    if hs == [] then [] else PrintLine(hs[0]) + PrintLines(hs[1..])
  }

  /** Header lines and the blank line that closes them. */
  function PrintBlock(hs: seq<HeaderLine>): Bytes {
    PrintLines(hs) + CRLF
  }

  /** A block: legal lines whose names differ, however they are spelled, within the bound. */
  predicate BlockOk(hs: seq<HeaderLine>) {
    && (forall i :: 0 <= i < |hs| ==> LineOk(hs[i]))
    && (forall i, j :: 0 <= i < j < |hs| ==> NameOf(hs[i]) != NameOf(hs[j]))
    && |PrintBlock(hs)| <= MAX_HEADER_BLOCK
  }

  /** What the lines say: each name, in lower case, with its stripped value, and no other name. */
  predicate Means(hs: seq<HeaderLine>, headers: Headers) {
    && (forall i :: 0 <= i < |hs| ==> NameOf(hs[i]) in headers && headers[NameOf(hs[i])] == Strip(hs[i].value))
    && (forall name :: name in headers ==> exists i :: 0 <= i < |hs| && NameOf(hs[i]) == name)
  }

  /** Bytes that are one complete header block, blank line included. */
  ghost predicate HeaderBlock(block: Bytes, headers: Headers) {
    exists hs :: BlockOk(hs) && Means(hs, headers) && PrintBlock(hs) == block
  }

  // ----- Reading one line

  lemma LineIsCut(h: HeaderLine)
    requires COLON !in h.name
    ensures var line := PrintLine(h); var text := line[..|line| - 2];
      && EndsCrlf(line) && text == h.name + [COLON] + h.value
      && COLON in text && FirstIndex(text, COLON) == |h.name|
      && text[..|h.name|] == h.name && text[|h.name| + 1..] == h.value
  {
    var line := PrintLine(h);
    assert line[|line| - 2..] == CRLF;
    var text := line[..|line| - 2];
    assert text == h.name + [COLON] + h.value;
    assert text[|h.name|] == COLON;
    assert forall k :: 0 <= k < |h.name| ==> text[k] == h.name[k];
  }

  lemma LineSays(h: HeaderLine, headers: Headers, consumed: nat)
    requires LineOk(h) && consumed + |PrintLine(h)| <= MAX_HEADER_BLOCK
    ensures HeaderStepOf(PrintLine(h), headers, consumed)
         == if NameOf(h) in headers then Stop(BadHeaderName) else More(headers[NameOf(h) := Strip(h.value)])
  {
    LineIsCut(h);
    hide Strip, Lower, FirstIndex;
    assert PrintLine(h)[|h.name|] == COLON;
  }

  lemma LineIsRead(h: HeaderLine, more: Bytes)
    requires LineOk(h)
    ensures Line(PrintLine(h) + more, MAX_HEADER_LINE + 1) == PrintLine(h)
  {
    var text := h.name + [COLON] + h.value + [CR];
    assert PrintLine(h) == text + [LF];
    LineStopsAtLf(text, more, MAX_HEADER_LINE + 1);
  }

  /** A line that ends in CRLF and holds a colon is a printed line. */
  lemma LineIsPrinted(line: Bytes) returns (h: HeaderLine)
    requires EndsCrlf(line) && COLON in line[..|line| - 2]
    requires forall i :: 0 <= i < |line| - 1 ==> line[i] != LF
    ensures PrintLine(h) == line && COLON !in h.name && LF !in h.name && LF !in h.value
  {
    var text := line[..|line| - 2];
    var cut := FirstIndex(text, COLON);
    h := HeaderLine(text[..cut], text[cut + 1..]);
    assert line == text + line[|line| - 2..];
    assert text == h.name + [COLON] + h.value;
    assert forall i :: 0 <= i < |h.value| ==> h.value[i] == line[cut + 1 + i];
  }

  /** A line the reader takes is a legal one. */
  lemma LineWasPrinted(rest: Bytes, headers: Headers, consumed: nat) returns (h: HeaderLine)
    requires HeaderStepOf(Line(rest, MAX_HEADER_LINE + 1), headers, consumed).More?
    ensures var line := Line(rest, MAX_HEADER_LINE + 1);
      && LineOk(h) && PrintLine(h) == line && NameOf(h) !in headers && consumed + |line| <= MAX_HEADER_BLOCK
      && HeaderStepOf(line, headers, consumed) == More(headers[NameOf(h) := Strip(h.value)])
  {
    var line := Line(rest, MAX_HEADER_LINE + 1);
    LineHoldsOneLf(rest, MAX_HEADER_LINE + 1);
    h := LineIsPrinted(line);
    LineIsCut(h);
    hide Line, Strip, Lower, FirstIndex, PrintLine, EndsCrlf;
  }

  // ----- Reading a block

  /** The lines fit behind headers already read from `consumed` bytes. */
  predicate Fits(hs: seq<HeaderLine>, headers: Headers, consumed: nat) {
    if hs == [] then consumed + 2 <= MAX_HEADER_BLOCK
    else
      && LineOk(hs[0]) && NameOf(hs[0]) !in headers
      && Fits(hs[1..], headers[NameOf(hs[0]) := Strip(hs[0].value)], consumed + |PrintLine(hs[0])|)
  }

  function Extended(hs: seq<HeaderLine>, headers: Headers): Headers {
    if hs == [] then headers
    else Extended(hs[1..], headers[NameOf(hs[0]) := Strip(hs[0].value)])
  }

  lemma {:induction false} FittingIsBounded(hs: seq<HeaderLine>, headers: Headers, consumed: nat)
    requires Fits(hs, headers, consumed)
    ensures consumed + |PrintBlock(hs)| <= MAX_HEADER_BLOCK
  {
    if hs != [] {
      FittingIsBounded(hs[1..], headers[NameOf(hs[0]) := Strip(hs[0].value)], consumed + |PrintLine(hs[0])|);
    }
  }

  /** Reading goes past one legal line. */
  lemma ReadsOn(h: HeaderLine, headers: Headers, consumed: nat, rest: Bytes)
    requires LineOk(h) && NameOf(h) !in headers && consumed + |PrintLine(h)| <= MAX_HEADER_BLOCK
    ensures ReadHeaders(PrintLine(h) + rest, headers, consumed)
         == match ReadHeaders(rest, headers[NameOf(h) := Strip(h.value)], consumed + |PrintLine(h)|)
            case Failure(e) => Failure(e)
            case Success((found, used)) => Success((found, |PrintLine(h)| + used))
  {
    hide PrintLine, HeaderStepOf, LineOk, Strip, NameOf, Line;
    LineIsRead(h, rest);
    LineSays(h, headers, consumed);
    assert (PrintLine(h) + rest)[|PrintLine(h)|..] == rest;
  }

  lemma BlankEnds(headers: Headers, consumed: nat, more: Bytes)
    requires consumed + 2 <= MAX_HEADER_BLOCK
    ensures ReadHeaders(CRLF + more, headers, consumed) == Success((headers, 2))
  {
    assert CRLF + more == [CR] + [LF] + more;
    LineStopsAtLf([CR], more, MAX_HEADER_LINE + 1);
    assert [CR] + [LF] == CRLF;
  }

  /** Fitting lines are read, whatever follows. */
  lemma {:induction false} BlockReads(hs: seq<HeaderLine>, headers: Headers, consumed: nat, more: Bytes)
    requires Fits(hs, headers, consumed)
    ensures ReadHeaders(PrintBlock(hs) + more, headers, consumed) == Success((Extended(hs, headers), |PrintBlock(hs)|))
    decreases |hs|
  {
    hide NameOf, Strip, LineOk, ReadHeaders, PrintLine;
    FittingIsBounded(hs, headers, consumed);
    if hs == [] {
      assert PrintBlock(hs) + more == CRLF + more;
      BlankEnds(headers, consumed, more);
    } else {
      var h, rest := hs[0], PrintBlock(hs[1..]) + more;
      BlockLength(hs);
      assert PrintBlock(hs) + more == PrintLine(h) + rest;
      BlockReads(hs[1..], headers[NameOf(h) := Strip(h.value)], consumed + |PrintLine(h)|, more);
      hide PrintBlock;
      ReadsOn(h, headers, consumed, rest);
    }
  }

  lemma BlockLength(hs: seq<HeaderLine>)
    requires hs != []
    ensures |PrintBlock(hs)| == |PrintLine(hs[0])| + |PrintBlock(hs[1..])|
  {
  }

  /** What was read is fitting lines. */
  lemma {:induction false} BlockWasPrinted(rest: Bytes, headers: Headers, consumed: nat) returns (hs: seq<HeaderLine>)
    requires ReadHeaders(rest, headers, consumed).Success?
    ensures var (found, used) := ReadHeaders(rest, headers, consumed).value;
      && Fits(hs, headers, consumed) && Extended(hs, headers) == found && rest[..used] == PrintBlock(hs)
    decreases |rest|
  {
    hide LineOk, Strip, NameOf, HeaderOf, Line, EndsCrlf, PrintLine;
    var line := Line(rest, MAX_HEADER_LINE + 1);
    var step := HeaderStepOf(line, headers, consumed);
    if step.Blank? {
      hs := [];
      assert rest[..2] == CRLF;
    } else {
      var h := LineWasPrinted(rest, headers, consumed);
      hide HeaderStepOf;
      var tail := BlockWasPrinted(rest[|line|..], step.headers, consumed + |line|);
      var used := ReadHeaders(rest[|line|..], step.headers, consumed + |line|).value.1;
      hide ReadHeaders;
      hs := Behind(h, tail, rest, |line|, used);
    }
  }

  lemma Behind(h: HeaderLine, tail: seq<HeaderLine>, rest: Bytes, n: nat, used: nat) returns (hs: seq<HeaderLine>)
    requires n + used <= |rest| && rest[..n] == PrintLine(h) && rest[n..][..used] == PrintBlock(tail)
    ensures hs == [h] + tail && hs[0] == h && hs[1..] == tail && rest[..n + used] == PrintBlock(hs)
  {
    hs := [h] + tail;
    assert hs[1..] == tail;
    hide PrintLine;
    assert rest[..n + used] == rest[..n] + rest[n..][..used];
  }

  // ----- Both directions, over the grammar

  /** Names that are legal and new, whatever was read before. */
  lemma {:induction false} FitsExactly(hs: seq<HeaderLine>, headers: Headers, consumed: nat)
    ensures Fits(hs, headers, consumed) <==>
      && (forall i :: 0 <= i < |hs| ==> LineOk(hs[i]) && NameOf(hs[i]) !in headers)
      && (forall i, j :: 0 <= i < j < |hs| ==> NameOf(hs[i]) != NameOf(hs[j]))
      && consumed + |PrintBlock(hs)| <= MAX_HEADER_BLOCK
  {
    hide LineOk, NameOf, PrintLine, Strip;
    if hs != [] {
      var tail, headers' := hs[1..], headers[NameOf(hs[0]) := Strip(hs[0].value)];
      FitsExactly(tail, headers', consumed + |PrintLine(hs[0])|);
      assert forall i :: 0 < i < |hs| ==> hs[i] == tail[i - 1];
      assert forall i :: 0 <= i < |tail| ==> tail[i] == hs[i + 1];
      BlockLength(hs);
      if Fits(hs, headers, consumed) {
        forall i | 0 <= i < |hs| ensures LineOk(hs[i]) && NameOf(hs[i]) !in headers {
          assert i > 0 ==> NameOf(tail[i - 1]) !in headers';
        }
        forall i, j | 0 <= i < j < |hs| ensures NameOf(hs[i]) != NameOf(hs[j]) {
          assert NameOf(tail[j - 1]) !in headers';
        }
      }
    }
  }

  lemma {:induction false} ExtendedMeans(hs: seq<HeaderLine>, headers: Headers, consumed: nat)
    requires Fits(hs, headers, consumed)
    ensures var all := Extended(hs, headers);
      && (forall i :: 0 <= i < |hs| ==> NameOf(hs[i]) in all && all[NameOf(hs[i])] == Strip(hs[i].value))
      && (forall name :: name in all <==> name in headers || exists i :: 0 <= i < |hs| && NameOf(hs[i]) == name)
      && (forall name :: name in headers ==> all[name] == headers[name])
  {
    hide LineOk, NameOf, PrintLine, Strip;
    if hs != [] {
      var tail, headers' := hs[1..], headers[NameOf(hs[0]) := Strip(hs[0].value)];
      ExtendedMeans(tail, headers', consumed + |PrintLine(hs[0])|);
      assert forall i :: 0 <= i < |tail| ==> tail[i] == hs[i + 1];
      forall i | 0 <= i < |hs|
        ensures NameOf(hs[i]) in Extended(hs, headers) && Extended(hs, headers)[NameOf(hs[i])] == Strip(hs[i].value)
      {
        if i == 0 {
          assert NameOf(hs[0]) in headers';
        } else {
          assert hs[i] == tail[i - 1];
        }
      }
      forall name | exists i :: 0 <= i < |hs| && NameOf(hs[i]) == name
        ensures name in headers' || exists i :: 0 <= i < |tail| && NameOf(tail[i]) == name
      {
        var i :| 0 <= i < |hs| && NameOf(hs[i]) == name;
        if i > 0 {
          assert NameOf(tail[i - 1]) == name;
        }
      }
    }
  }

  lemma MeaningIsUnique(hs: seq<HeaderLine>, a: Headers, b: Headers)
    requires Means(hs, a) && Means(hs, b)
    ensures a == b
  {
    hide NameOf, Strip;
    forall name | name in a ensures name in b && a[name] == b[name] {
      var i :| 0 <= i < |hs| && NameOf(hs[i]) == name;
    }
    forall name | name in b ensures name in a {
      var i :| 0 <= i < |hs| && NameOf(hs[i]) == name;
    }
  }

  lemma ReadIsABlock(rest: Bytes)
    requires ReadHeaders(rest, map[], 0).Success?
    ensures var (headers, used) := ReadHeaders(rest, map[], 0).value;
      used <= |rest| && HeaderBlock(rest[..used], headers)
  {
    hide ReadHeaders, LineOk, NameOf, Fits, Extended, PrintBlock;
    var (headers, used) := ReadHeaders(rest, map[], 0).value;
    var hs := BlockWasPrinted(rest, map[], 0);
    FitsExactly(hs, map[], 0);
    ExtendedMeans(hs, map[], 0);
    assert BlockOk(hs) && Means(hs, headers);
  }

  lemma BlockIsRead(block: Bytes, headers: Headers, more: Bytes)
    requires HeaderBlock(block, headers)
    ensures ReadHeaders(block + more, map[], 0) == Success((headers, |block|))
    ensures |block| <= MAX_HEADER_BLOCK
  {
    hide ReadHeaders, LineOk, NameOf, Fits, Extended, PrintBlock;
    var hs :| BlockOk(hs) && Means(hs, headers) && PrintBlock(hs) == block;
    FitsExactly(hs, map[], 0);
    ExtendedMeans(hs, map[], 0);
    assert Means(hs, Extended(hs, map[]));
    MeaningIsUnique(hs, headers, Extended(hs, map[]));
    BlockReads(hs, map[], 0, more);
  }

  /** Reading headers succeeds exactly when the unread bytes start with a printed block, and then it returns
      what that block says and takes exactly its bytes. */
  lemma HeadersExactly(rest: Bytes, headers: Headers, used: nat)
    ensures ReadHeaders(rest, map[], 0) == Success((headers, used)) <==>
      used <= |rest| && HeaderBlock(rest[..used], headers)
  {
    hide HeaderBlock, ReadHeaders;
    if ReadHeaders(rest, map[], 0) == Success((headers, used)) {
      ReadIsABlock(rest);
    }
    if used <= |rest| && HeaderBlock(rest[..used], headers) {
      assert rest == rest[..used] + rest[used..];
      BlockIsRead(rest[..used], headers, rest[used..]);
    }
  }
}
