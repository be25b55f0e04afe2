/** Single byte ranges (section 14.1.2 of RFC 9110) and the loop that serves them
    (n0te/audition.py, n0te/consumer_shell.py). Header text is Latin-1, one byte a character. */
module ByteRanges {
  import opened Prelude

  datatype ByteRange = ByteRange(start: int, end: int, total: int)

  /** NumeralError is the ValueError that int() raises for a text isdigit() let through. */
  datatype RangeError = BadSize | Invalid | Unsatisfiable | NumeralError

  const UNIT: Bytes := [98, 121, 116, 101, 115, 61]
  const DASH: Byte := 45
  const COMMA: Byte := 44

  /** The longest numeral int() converts. */
  const MAX_DIGITS := 4300

  // ----- Numerals

  predicate IsDecimal(b: Byte) {
    48 <= b <= 57
  }

  /** str.isdigit() also accepts the superscripts two, three and one. */
  predicate IsDigit(b: Byte) {
    IsDecimal(b) || b in {0xB2, 0xB3, 0xB9}
  }

  predicate DigitText(text: Bytes) {
    text != [] && forall i :: 0 <= i < |text| ==> IsDigit(text[i])
  }

  /** Digit texts that int() converts. */
  predicate Numeral(text: Bytes) {
    text != [] && |text| <= MAX_DIGITS && forall i :: 0 <= i < |text| ==> IsDecimal(text[i])
  }

  predicate BadNumeral(text: Bytes) {
    DigitText(text) && !Numeral(text)
  }

  function Value(text: Bytes): (n: nat)
    requires forall i :: 0 <= i < |text| ==> IsDecimal(text[i])
  {
    if text == [] then 0
    else
      assert IsDecimal(text[|text| - 1]);
      10 * Value(text[..|text| - 1]) + (text[|text| - 1] as int - 48)
  }

  /** The printed form of a number. */
  function Decimal(n: nat): (text: Bytes)
    ensures text != [] && forall i :: 0 <= i < |text| ==> IsDecimal(text[i])
    ensures Value(text) == n
  {
    if n < 10 then [(48 + n) as Byte]
    else
      var text := Decimal(n / 10) + [(48 + n % 10) as Byte];
      assert text[..|text| - 1] == Decimal(n / 10);
      text
  }

  lemma {:induction false} DecimalGrows(a: nat, b: nat)
    requires a <= b
    ensures |Decimal(a)| <= |Decimal(b)|
  {
    if a >= 10 {
      DecimalGrows(a / 10, b / 10);
    }
  }

  // ----- Parsing

  /** The two stripped sides of the first dash, when the header names one byte range. */
  function Sides(header: Bytes): Option<(Bytes, Bytes)> {
    var text := Strip(header);
    if !(UNIT <= text) then None
    else
      var spec := Strip(text[6..]);
      if spec == [] || COMMA in spec || DASH !in spec then None
      else
        var cut := FirstIndex(spec, DASH);
        Some((Strip(spec[..cut]), Strip(spec[cut + 1..])))
  }

  function Min(a: int, b: int): int {
    if a < b then a else b
  }

  function SuffixRange(last: Bytes, size: int): Result<ByteRange, RangeError> {
    if !DigitText(last) then Failure(Invalid)
    else if !Numeral(last) then Failure(NumeralError)
    else if Value(last) == 0 then Failure(Invalid)
    else Success(ByteRange(size - Min(Value(last), size), size - 1, size))
  }

  function StartRange(first: Bytes, last: Bytes, size: int): Result<ByteRange, RangeError> {
    if !DigitText(first) then Failure(Invalid)
    else if !Numeral(first) then Failure(NumeralError)
    else if Value(first) >= size then Failure(Unsatisfiable)
    else if last == [] then Success(ByteRange(Value(first), size - 1, size))
    else if !DigitText(last) then Failure(Invalid)
    else if !Numeral(last) then Failure(NumeralError)
    else if Value(last) < Value(first) then Failure(Invalid)
    else Success(ByteRange(Value(first), Min(Value(last), size - 1), size))
  }

  /** parse_byte_range; Success(None) is the whole representation. */
  function ParseByteRange(header: Option<Bytes>, size: int): Result<Option<ByteRange>, RangeError> {
    if size <= 0 then Failure(BadSize)
    else if header.None? || Strip(header.value) == [] then Success(None)
    else
      match Sides(header.value)
      case None => Failure(Invalid)
      case Some((first, last)) =>
        match (if first == [] then SuffixRange(last, size) else StartRange(first, last, size))
        case Failure(e) => Failure(e)
        case Success(r) => Success(Some(r))
  }

  // ----- What is printed and what it selects

  /** The single ranges of the standard. */
  datatype Spec = Bounded(first: nat, last: nat) | FromOn(from: nat) | LastBytes(count: nat)

  function PrintSpec(spec: Spec): Bytes {
    UNIT + match spec
    case Bounded(first, last) => Decimal(first) + ([DASH] + Decimal(last))
    case FromOn(from) => Decimal(from) + ([DASH] + [])
    case LastBytes(count) => [] + ([DASH] + Decimal(count))
  }

  /** The offsets a specification selects of a representation of that size. */
  ghost predicate Selected(spec: Spec, size: int, offset: int) {
    0 <= offset < size &&
    match spec
    case Bounded(first, last) => first <= offset <= last
    case FromOn(from) => from <= offset
    case LastBytes(count) => size - count <= offset
  }

  predicate PrintableSpec(spec: Spec) {
    match spec
    case Bounded(first, last) => |Decimal(first)| <= MAX_DIGITS && |Decimal(last)| <= MAX_DIGITS
    case FromOn(from) => |Decimal(from)| <= MAX_DIGITS
    case LastBytes(count) => |Decimal(count)| <= MAX_DIGITS
  }

  predicate Plain(text: Bytes) {
    forall i :: 0 <= i < |text| ==> IsDecimal(text[i])
  }

  lemma PlainIsStripped(text: Bytes)
    requires Plain(text)
    ensures Strip(text) == text
  {
    if text != [] {
      assert IsDecimal(text[0]) && IsDecimal(text[|text| - 1]);
    }
  }

  lemma DashIsFound(first: Bytes, last: Bytes)
    requires Plain(first) && Plain(last)
    ensures var spec := first + ([DASH] + last);
      && DASH in spec && COMMA !in spec && FirstIndex(spec, DASH) == |first|
      && spec[..|first|] == first && spec[|first| + 1..] == last
  {
    var spec := first + ([DASH] + last);
    assert spec[|first|] == DASH;
    assert forall k :: 0 <= k < |first| ==> spec[k] == first[k];
  }

  lemma SpecIsFirm(first: Bytes, last: Bytes)
    requires Plain(first) && Plain(last)
    ensures var spec := first + ([DASH] + last);
      spec != [] && !IsSpace(spec[0]) && !IsSpace(spec[|spec| - 1])
  {
    var spec := first + ([DASH] + last);
    if last == [] {
      assert spec[|spec| - 1] == DASH;
    } else {
      assert spec[|spec| - 1] == last[|last| - 1];
    }
    if first == [] {
      assert spec[0] == DASH;
    } else {
      assert spec[0] == first[0];
    }
  }

  lemma UnitIsStripped(spec: Bytes)
    requires spec != [] && !IsSpace(spec[|spec| - 1])
    ensures var header := UNIT + spec;
      Strip(header) == header && header != [] && UNIT <= header && header[6..] == spec
  {
    var header := UNIT + spec;
    assert header[0] == 98 && header[|header| - 1] == spec[|spec| - 1];
    FirmIsStripped(header);
  }

  lemma PrintedSides(first: Bytes, last: Bytes)
    requires Plain(first) && Plain(last)
    ensures var header := UNIT + (first + ([DASH] + last));
      Sides(header) == Some((first, last)) && Strip(header) != []
  {
    hide Strip, Plain;
    var spec := first + ([DASH] + last);
    SpecIsFirm(first, last);
    FirmIsStripped(spec);
    UnitIsStripped(spec);
    PlainIsStripped(first);
    PlainIsStripped(last);
    DashIsFound(first, last);
  }

  /** An accepted range is a non-empty run of offsets inside the representation. */
  lemma AcceptedIsWithin(header: Option<Bytes>, size: int)
    requires ParseByteRange(header, size).Success? && ParseByteRange(header, size).value.Some?
    ensures var r := ParseByteRange(header, size).value.value;
      0 <= r.start <= r.end < r.total == size
  {
  }

  /** Every printed specification is accepted with exactly the offsets the standard selects, and refused
      exactly when it selects none: as unsatisfiable when it starts past the end, else as invalid. */
  lemma PrintedSpecSelects(spec: Spec, size: int)
    requires PrintableSpec(spec) && size > 0
    ensures match ParseByteRange(Some(PrintSpec(spec)), size)
      case Success(Some(r)) => forall o :: Selected(spec, size, o) <==> r.start <= o <= r.end
      case Success(None) => false
      case Failure(e) =>
        && (forall o :: !Selected(spec, size, o))
        && (e == Unsatisfiable <==>
              (spec.Bounded? && spec.first >= size) || (spec.FromOn? && spec.from >= size))
        && e in {Unsatisfiable, Invalid}
  {
    match spec
    case Bounded(first, last) =>
      PrintedSides(Decimal(first), Decimal(last));
      NumeralsRead(first);
      NumeralsRead(last);
    case FromOn(from) =>
      PrintedSides(Decimal(from), []);
      NumeralsRead(from);
    case LastBytes(count) =>
      PrintedSides([], Decimal(count));
      NumeralsRead(count);
  }

  lemma NumeralsRead(n: nat)
    requires |Decimal(n)| <= MAX_DIGITS
    ensures Numeral(Decimal(n)) && DigitText(Decimal(n)) && Value(Decimal(n)) == n && Decimal(n) != []
  {
  }

  /** Printing an accepted range's bounds as bytes=start-end and parsing again gives the same range. */
  lemma AcceptedReparses(header: Option<Bytes>, size: int)
    requires ParseByteRange(header, size).Success? && ParseByteRange(header, size).value.Some?
    requires |Decimal(size)| <= MAX_DIGITS
    ensures var r := ParseByteRange(header, size).value.value;
      0 <= r.start <= r.end && ParseByteRange(Some(PrintSpec(Bounded(r.start, r.end))), size) == Success(Some(r))
  {
    AcceptedIsWithin(header, size);
    hide Sides, Strip, Decimal, Numeral, DigitText, Value;
    var r := ParseByteRange(header, size).value.value;
    DecimalGrows(r.start, size);
    DecimalGrows(r.end, size);
    PrintedSides(Decimal(r.start), Decimal(r.end));
    NumeralsRead(r.start);
    NumeralsRead(r.end);
  }

  /** A suffix selects the last min(n, size) bytes. */
  lemma SuffixSelectsTheTail(n: nat, size: int)
    requires size > 0 && n > 0 && |Decimal(n)| <= MAX_DIGITS
    ensures ParseByteRange(Some(PrintSpec(LastBytes(n))), size)
      == Success(Some(ByteRange(size - Min(n, size), size - 1, size)))
  {
    hide Sides, Strip, Decimal, Numeral, DigitText, Value;
    PrintedSides([], Decimal(n));
    NumeralsRead(n);
  }

  /** The ValueError that no caller catches: it escapes exactly when a numeral that is reached passes isdigit
      without being convertible, because it holds a superscript or too many digits. */
  lemma NumeralErrorEscapes(header: Option<Bytes>, size: int)
    ensures ParseByteRange(header, size) == Failure(NumeralError) <==>
      && size > 0 && header.Some? && Strip(header.value) != [] && Sides(header.value).Some?
      && var (first, last) := Sides(header.value).value;
         if first == [] then BadNumeral(last)
         else BadNumeral(first) || (Numeral(first) && Value(first) < size && last != [] && BadNumeral(last))
  {
    hide Sides, Strip;
  }

  /** So a header of at most 4300 bytes without superscripts always gets one of the documented answers. */
  lemma PlainHeadersAreAnswered(header: Bytes, size: int)
    requires |header| <= MAX_DIGITS && forall i :: 0 <= i < |header| ==> header[i] !in {0xB2, 0xB3, 0xB9}
    ensures ParseByteRange(Some(header), size) != Failure(NumeralError)
  {
    NumeralErrorEscapes(Some(header), size);
    hide Sides, Strip, ParseByteRange, Value;
    if Sides(header).Some? {
      SidesArePart(header);
    }
  }

  predicate PartOf(part: Bytes, whole: Bytes) {
    |part| <= |whole| && forall i :: 0 <= i < |part| ==> part[i] in whole
  }

  lemma {:induction false} StripIsPart(text: Bytes)
    ensures PartOf(Strip(text), text)
  {
    if text != [] && IsSpace(text[0]) {
      StripIsPart(text[1..]);
    } else if text != [] && IsSpace(text[|text| - 1]) {
      StripIsPart(text[..|text| - 1]);
    }
  }

  lemma StrippedSlice(text: Bytes, a: nat, b: nat, whole: Bytes)
    requires a <= b <= |text| && PartOf(text, whole)
    ensures PartOf(Strip(text[a..b]), whole)
  {
    StripIsPart(text[a..b]);
    forall i | 0 <= i < |Strip(text[a..b])| ensures Strip(text[a..b])[i] in whole {
      assert Strip(text[a..b])[i] in text[a..b];
    }
  }

  lemma SidesArePart(header: Bytes)
    requires Sides(header).Some?
    ensures PartOf(Sides(header).value.0, header) && PartOf(Sides(header).value.1, header)
  {
    hide Strip, PartOf;
    StripIsPart(header);
    var text := Strip(header);
    StrippedSlice(text, 6, |text|, header);
    var spec := Strip(text[6..]);
    assert text[6..|text|] == text[6..];
    var cut := FirstIndex(spec, DASH);
    StrippedSlice(spec, 0, cut, header);
    StrippedSlice(spec, cut + 1, |spec|, header);
    assert spec[0..cut] == spec[..cut] && spec[cut + 1..|spec|] == spec[cut + 1..];
  }

  /** bytes=-<superscript two> is such a header. */
  lemma SuperscriptEscapes(size: int)
    requires size > 0
    ensures ParseByteRange(Some(UNIT + [DASH, 0xB2]), size) == Failure(NumeralError)
  {
    var header := UNIT + [DASH, 0xB2];
    assert Strip(header) == header;
    assert header[6..] == [DASH, 0xB2];
    assert Strip([DASH, 0xB2]) == [DASH, 0xB2];
    var cut := FirstIndex([DASH, 0xB2], DASH);
    assert cut == 0;
    assert [DASH, 0xB2][..0] == [] && [DASH, 0xB2][1..] == [0xB2];
    assert Strip([0xB2]) == [0xB2];
    assert Sides(header) == Some(([], [0xB2]));
  }

  // ----- Serving

  const BLOCK := 1024 * 1024

  /** A read that got everything, continued by a second read, is one longer read; when the second finds
      nothing, the file ends there. */
  lemma ReadGrows(file: Bytes, start: nat, n: nat, k: nat, length: nat)
    requires |ReadAt(file, start, n)| == n && 0 < k <= length - n
    ensures
      var chunk := ReadAt(file, start + n, k);
      && ReadAt(file, start, n + |chunk|) == ReadAt(file, start, n) + chunk
      && (chunk == [] ==> start + length > |file| && ReadAt(file, start, length) == ReadAt(file, start, n))
  {
  }

  lemma FullRead(file: Bytes, start: nat, length: nat)
    ensures |ReadAt(file, start, length)| == length <==> length == 0 || start + length <= |file|
  {
  }

  /** The copy loop of _serve_media over the file's present content: it sends what one read of the whole
      length would give, and fails when that is less than was asked for. */
  method CopySlice(file: Bytes, start: nat, length: nat) returns (sent: Bytes, ok: bool)
    ensures ok <==> length == 0 || start + length <= |file|
    ensures sent == ReadAt(file, start, length)
    ensures ok ==> |sent| == length
  {
    FullRead(file, start, 0);
    FullRead(file, start, length);
    hide ReadAt;
    sent := [];
    var pos, remaining: nat := start, length;
    while remaining != 0
      invariant |sent| + remaining == length && pos == start + |sent|
      invariant sent == ReadAt(file, start, |sent|)
    {
      var chunk := ReadAt(file, pos, Min(BLOCK, remaining));
      ReadGrows(file, start, |sent|, Min(BLOCK, remaining), length);
      if chunk == [] {
        return sent, false;
      }
      sent := sent + chunk;
      pos := pos + |chunk|;
      remaining := remaining - |chunk|;
    }
    return sent, true;
  }

  datatype Response =
    | Refused(status: int)
    | Sent(status: int, contentLength: int, range: Option<ByteRange>, body: Bytes, complete: bool)

  /** The media answer to a GET, for a file whose size was verified before its bytes are read; None is the
      escaping ValueError. A complete answer is exactly the selected slice of the file. */
  method ServeMedia(header: Option<Bytes>, size: int, file: Bytes) returns (r: Option<Response>)
    requires size > 0
    ensures match ParseByteRange(header, size)
      case Failure(e) =>
        r == if e == NumeralError then None else Some(Refused(if e == Unsatisfiable then 416 else 400))
      case Success(None) =>
        r == Some(Sent(200, size, None, ReadAt(file, 0, size), size <= |file|))
      case Success(Some(range)) =>
        && 0 <= range.start <= range.end < size
        && r == Some(Sent(206, range.end - range.start + 1, Some(range),
                          ReadAt(file, range.start, range.end - range.start + 1), range.end < |file|))
    ensures r.Some? && r.value.Sent? && r.value.complete ==> |r.value.body| == r.value.contentLength
  {
    hide Sides, Strip;
    var parsed := ParseByteRange(header, size);
    if parsed.Failure? {
      return if parsed.error == NumeralError then None
             else Some(Refused(if parsed.error == Unsatisfiable then 416 else 400));
    }
    var range := parsed.value;
    if range.Some? {
      AcceptedIsWithin(header, size);
    }
    var start := if range.None? then 0 else range.value.start;
    var end := if range.None? then size - 1 else range.value.end;
    hide ParseByteRange;
    var body, complete := CopySlice(file, start, end - start + 1);
    return Some(Sent(if range.None? then 200 else 206, end - start + 1, range, body, complete));
  }
}
