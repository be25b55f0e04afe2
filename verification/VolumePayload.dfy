/** The content-addressed Ableton track-volume payload ref (n0te/ableton.py): a payload keeps its target in
    millionths, and its ref carries the encoded document and the document's digest. Reading and printing
    refs are inverse to each other. */
module VolumePayload {
  import opened Prelude
  import opened Base64Url

  const SCHEMA := "n0te.ableton-track-volume-payload/v1"
  const PREFIX := "ableton-track-volume:v1:"
  const MARKER := ":sha256:"

  /** A decoded JSON value: the document shape the payload uses, or anything else. */
  datatype Json = Document(schema: string, trackRef: string, target: real) | OtherJson

  /** The platform's JSON printer and parser and the document fingerprint, as opaque functions. */
  datatype Host = Host(dump: Json -> Bytes, load: Bytes -> Option<Json>, digest: Json -> string)

  predicate IsHex(c: char) {
    '0' <= c <= '9' || 'a' <= c <= 'f'
  }

  predicate IsDigest(text: string) {
    |text| == 64 && forall k :: 0 <= k < 64 ==> IsHex(text[k])
  }

  predicate AllDigits(s: string) {
    s != "" && forall k :: 0 <= k < |s| ==> '0' <= s[k] <= '9'
  }

  /** ^(?:track|return):[0-9]+$|^master:main$ */
  predicate TrackRefOk(ref: string) {
    || (|ref| > 6 && ref[..6] == "track:" && AllDigits(ref[6..]))
    || (|ref| > 7 && ref[..7] == "return:" && AllDigits(ref[7..]))
    || ref == "master:main"
  }

  const MICRO: nat := 1_000_000

  /** A payload keeps its target as a whole number of millionths. */
  datatype Payload = Payload(trackRef: string, micro: nat)

  predicate PayloadOk(p: Payload) {
    TrackRefOk(p.trackRef) && p.micro <= MICRO
  }

  /** Formatting to six decimals: the nearest millionth, the even one on a tie. */
  function ToMicro(x: real): nat
    requires 0.0 <= x <= 1.0
  {
    var scaled := x * MICRO as real;
    var low := scaled.Floor;
    var rest := scaled - low as real;
    if rest < 0.5 || (rest == 0.5 && low % 2 == 0) then low else low + 1
  }

  lemma ToMicroBound(x: real)
    requires 0.0 <= x <= 1.0
    ensures ToMicro(x) <= MICRO
  {
  }

  /** The constructor: None is a rejected track ref or target. */
  function Make(trackRef: string, target: real): (r: Option<Payload>)
    ensures r.Some? ==> PayloadOk(r.value)
  {
    if !TrackRefOk(trackRef) || target < 0.0 || target > 1.0 then None
    else
      ToMicroBound(target);
      Some(Payload(trackRef, ToMicro(target)))
  }

  function DocumentOf(p: Payload): Json {
    Document(SCHEMA, p.trackRef, p.micro as real / MICRO as real)
  }

  /** What the platform promises about the documents of payloads: parsing what was printed gives the
      document back, and a fingerprint is 64 lower-case hexadecimal digits. */
  ghost predicate Trustworthy(host: Host) {
    forall p :: PayloadOk(p) ==>
      && host.load(host.dump(DocumentOf(p))) == Some(DocumentOf(p))
      && IsDigest(host.digest(DocumentOf(p)))
  }

  function PayloadRef(host: Host, p: Payload): string {
    PREFIX + (Encode(host.dump(DocumentOf(p))) + (MARKER + host.digest(DocumentOf(p))))
  }

  predicate At(s: string, marker: string, i: int) {
    0 <= i && i + |marker| <= |s| && s[i..i + |marker|] == marker
  }

  /** Where `marker` last occurs at or before position `from`. */
  function LastMarker(s: string, marker: string, from: int): (k: int)
    requires from <= |s| - |marker|
    ensures -1 <= k
    ensures k >= 0 ==> k <= from && At(s, marker, k)
    ensures forall i :: k < i <= from ==> !At(s, marker, i)
    decreases from + 1
  {
    if from < 0 then -1
    else if At(s, marker, from) then from
    else LastMarker(s, marker, from - 1)
  }

  predicate Occurs(s: string, marker: string) {
    LastMarker(s, marker, |s| - |marker|) >= 0
  }

  lemma OccursExactly(s: string, marker: string)
    ensures Occurs(s, marker) <==> exists i :: At(s, marker, i)
  {
  }

  /** Unpack is the plain ValueError of unpacking a split that found nothing to split at. */
  datatype RefError = Rejected | Unpack

  function FromRef(host: Host, ref: string): Result<Payload, RefError> {
    if ref == "" || !(PREFIX <= ref) || !Occurs(ref, MARKER) then Failure(Rejected)
    else
      var body := ref[|PREFIX|..];
      var at := LastMarker(body, MARKER, |body| - |MARKER|);
      if at < 0 then Failure(Unpack)
      else FromParts(host, ref, body[..at], body[at + |MARKER|..])
  }

  function FromParts(host: Host, ref: string, encoded: string, claimed: string): (r: Result<Payload, RefError>)
    ensures r != Failure(Unpack)
    ensures r.Success? ==> PayloadOk(r.value) && PayloadRef(host, r.value) == ref
  {
    if !IsDigest(claimed) then Failure(Rejected)
    else match Decode(encoded)
      case None => Failure(Rejected)
      case Some(raw) =>
        match host.load(raw)
        case None => Failure(Rejected)
        case Some(OtherJson) => Failure(Rejected)
        case Some(Document(schema, trackRef, target)) =>
          if schema != SCHEMA then Failure(Rejected)
          else match Make(trackRef, target)
            case None => Failure(Rejected)
            case Some(p) =>
              if host.digest(DocumentOf(p)) != claimed || PayloadRef(host, p) != ref then Failure(Rejected)
              else Success(p)
  }

  /** Millionths survive their own formatting. */
  lemma MakeIsIdempotent(p: Payload)
    requires PayloadOk(p)
    ensures Make(p.trackRef, p.micro as real / MICRO as real) == Some(p)
  {
    var x := p.micro as real / MICRO as real;
    assert x * MICRO as real == p.micro as real;
    assert (p.micro as real).Floor == p.micro;
  }

  /** The digest marker of a printed ref is the last one in it. */
  lemma MarkerPosition(encoded: string, digest: string)
    requires forall k :: 0 <= k < |encoded| ==> encoded[k] != ':'
    requires IsDigest(digest)
    ensures
      var body := encoded + (MARKER + digest);
      LastMarker(body, MARKER, |body| - |MARKER|) == |encoded|
  {
    var body := encoded + (MARKER + digest);
    var n := |encoded|;
    assert At(body, MARKER, n);
    forall i | n < i <= |body| - |MARKER| ensures !At(body, MARKER, i) {
      LaterIsNoMarker(encoded, digest, i);
    }
  }

  lemma LaterIsNoMarker(encoded: string, digest: string, i: int)
    requires IsDigest(digest) && |encoded| < i <= |encoded| + 64
    ensures !At(encoded + (MARKER + digest), MARKER, i)
  {
    var body, n := encoded + (MARKER + digest), |encoded|;
    var piece := body[i..i + |MARKER|];
    assert piece[0] == body[i] && piece[1] == body[i + 1];
    if i < n + |MARKER| {
      assert body[i] == MARKER[i - n];
      if i == n + 7 {
        assert body[i + 1] == digest[0];
      }
    } else {
      assert body[i] == digest[i - n - |MARKER|];
    }
  }

  lemma RefParts(host: Host, p: Payload)
    ensures
      var ref, encoded, digest := PayloadRef(host, p), Encode(host.dump(DocumentOf(p))), host.digest(DocumentOf(p));
      && PREFIX <= ref && ref[|PREFIX|..] == encoded + (MARKER + digest)
      && Occurs(ref, MARKER)
  {
    var encoded, digest := Encode(host.dump(DocumentOf(p))), host.digest(DocumentOf(p));
    var ref, at := PayloadRef(host, p), |PREFIX| + |encoded|;
    assert At(ref, MARKER, at);
  }

  /** Reading back a printed ref gives the payload. */
  lemma FromRefOfPayloadRef(host: Host, p: Payload)
    requires Trustworthy(host) && PayloadOk(p)
    ensures FromRef(host, PayloadRef(host, p)) == Success(p)
  {
    var encoded, digest := Encode(host.dump(DocumentOf(p))), host.digest(DocumentOf(p));
    RefParts(host, p);
    EncodedLetters(host.dump(DocumentOf(p)));
    assert IsDigest(digest);
    MarkerPosition(encoded, digest);
    var body := encoded + (MARKER + digest);
    assert body[..|encoded|] == encoded && body[|encoded| + |MARKER|..] == digest;
    PartsOfPayloadRef(host, p);
  }

  lemma PartsOfPayloadRef(host: Host, p: Payload)
    requires Trustworthy(host) && PayloadOk(p)
    ensures FromParts(host, PayloadRef(host, p), Encode(host.dump(DocumentOf(p))), host.digest(DocumentOf(p)))
         == Success(p)
  {
    DecodeEncode(host.dump(DocumentOf(p)));
    MakeIsIdempotent(p);
  }

  /** The only ref accepted for a payload is its canonical one: reading and printing are mutual inverses. */
  lemma OnlyCanonicalRefs(host: Host, ref: string, p: Payload)
    requires Trustworthy(host)
    ensures FromRef(host, ref) == Success(p) <==> PayloadOk(p) && ref == PayloadRef(host, p)
  {
    if PayloadOk(p) && ref == PayloadRef(host, p) {
      FromRefOfPayloadRef(host, p);
    }
  }

  // ----- A platform that keeps its promise

  /** The track ref, a NUL, and as many ones as the target has millionths. */
  function PlainDump(j: Json): Bytes {
    match j
    case OtherJson => []
    case Document(_, trackRef, target) =>
      var micro := (target * MICRO as real).Floor;
      seq(|trackRef|, i requires 0 <= i < |trackRef| => trackRef[i] as int % 256) + [0]
      + seq(if micro < 0 then 0 else micro, _ => 1)
  }

  function PlainLoad(raw: Bytes): Option<Json> {
    if 0 !in raw then None
    else
      var cut := FirstIndex(raw, 0);
      var micro: nat := |raw| - cut - 1;
      Some(Document(SCHEMA, seq(cut, i requires 0 <= i < cut => raw[i] as char), micro as real / MICRO as real))
  }

  function PlainHost(): Host {
    Host(j => PlainDump(j), raw => PlainLoad(raw), _ => seq(64, _ => '0'))
  }

  /** The promise can be kept, so the two theorems above speak about something. */
  lemma SomeHostIsTrustworthy()
    ensures Trustworthy(PlainHost())
  {
    forall p | PayloadOk(p) ensures PlainLoad(PlainDump(DocumentOf(p))) == Some(DocumentOf(p)) {
      PlainRoundTrip(p);
    }
  }

  lemma PlainRoundTrip(p: Payload)
    requires PayloadOk(p)
    ensures PlainLoad(PlainDump(DocumentOf(p))) == Some(DocumentOf(p))
  {
    var raw, n := PlainDump(DocumentOf(p)), |p.trackRef|;
    TrackRefIsPlain(p.trackRef);
    assert p.micro as real / MICRO as real * MICRO as real == p.micro as real;
    assert raw[n] == 0;
    assert forall i :: 0 <= i < n ==> raw[i] == p.trackRef[i] as int;
    assert FirstIndex(raw, 0) == n;
    assert seq(n, i requires 0 <= i < n => raw[i] as char) == p.trackRef;
  }

  lemma TrackRefIsPlain(ref: string)
    requires TrackRefOk(ref)
    ensures forall i :: 0 <= i < |ref| ==> 0 < ref[i] as int < 128
  {
    if |ref| > 6 && ref[..6] == "track:" && AllDigits(ref[6..]) {
      PlainParts(ref, 6);
    } else if |ref| > 7 && ref[..7] == "return:" && AllDigits(ref[7..]) {
      PlainParts(ref, 7);
    }
  }

  lemma PlainParts(ref: string, n: nat)
    requires n <= |ref| && AllDigits(ref[n..])
    requires forall i :: 0 <= i < n ==> 0 < ref[..n][i] as int < 128
    ensures forall i :: 0 <= i < |ref| ==> 0 < ref[i] as int < 128
  {
    forall i | 0 <= i < |ref| ensures 0 < ref[i] as int < 128 {
      if i < n {
        assert ref[i] == ref[..n][i];
      } else {
        assert ref[i] == ref[n..][i - n];
      }
    }
  }

  // ----- The error of unpacking

  /** The shortest ref that is not rejected with the module's own error. */
  lemma UnpackCanFail(host: Host)
    ensures FromRef(host, PREFIX + "sha256:") == Failure(Unpack)
  {
    var ref := PREFIX + "sha256:";
    assert ref[|PREFIX|..] == "sha256:";
    UnpackExactly(host, ref);
  }

  /** A ref is rejected with the module's own error unless its only marker shares its first colon with
      the prefix; then unpacking the split fails instead. */
  lemma UnpackExactly(host: Host, ref: string)
    ensures FromRef(host, ref) == Failure(Unpack)
       <==> PREFIX + "sha256:" <= ref && !Occurs(ref[|PREFIX|..], MARKER)
  {
    OccursExactly(ref, MARKER);
    if PREFIX <= ref {
      if PREFIX + "sha256:" <= ref {
        SeamHasMarker(ref);
      }
      if !Occurs(ref[|PREFIX|..], MARKER) && Occurs(ref, MARKER) {
        MarkerAtSeam(ref, LastMarker(ref, MARKER, |ref| - |MARKER|));
      }
    }
  }

  lemma SeamHasMarker(ref: string)
    requires PREFIX + "sha256:" <= ref
    ensures PREFIX <= ref && At(ref, MARKER, |PREFIX| - 1)
  {
    var whole, k := PREFIX + "sha256:", |PREFIX| - 1;
    assert ref[..|whole|] == whole;
    assert ref[k..k + |MARKER|] == whole[k..k + |MARKER|] == MARKER;
  }

  lemma MarkerNotInside(ref: string, k: int)
    requires |PREFIX| <= |ref| && At(ref, MARKER, k) && !Occurs(ref[|PREFIX|..], MARKER)
    ensures k < |PREFIX|
  {
    OccursExactly(ref[|PREFIX|..], MARKER);
    if k >= |PREFIX| {
      AtShifts(ref, |PREFIX|, k);
    }
  }

  lemma AtShifts(ref: string, n: nat, k: int)
    requires n <= k && n <= |ref| && At(ref, MARKER, k)
    ensures At(ref[n..], MARKER, k - n)
  {
    assert ref[n..][k - n..k - n + |MARKER|] == ref[k..k + |MARKER|];
  }

  lemma MarkerAtSeam(ref: string, k: int)
    requires PREFIX <= ref && At(ref, MARKER, k) && !Occurs(ref[|PREFIX|..], MARKER)
    ensures PREFIX + "sha256:" <= ref
  {
    MarkerNotInside(ref, k);
    var piece := ref[k..k + |MARKER|];
    assert ref[21] == PREFIX[21];
    assert ref[k] == PREFIX[k] && piece[0] == ref[k] && piece[1] == ref[k + 1];
    assert k == |PREFIX| - 1;
    assert ref[|PREFIX|..|PREFIX| + 7] == piece[1..];
    assert ref[..|PREFIX| + 7] == PREFIX + "sha256:";
  }
}
