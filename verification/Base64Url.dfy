/** Unpadded base64url for tokens and payload refs: section 5 of RFC 4648, with the platform's lenient
    decoder (governance/execution_permit.py, n0te/ableton.py). */
module Base64Url {
  import opened Prelude

  type Sextet = v: int | 0 <= v < 64

  function Letter(v: Sextet): (c: char)
    ensures Index(c) == Some(v) && c != '=' && c != '.' && c != ':' && c as int < 128
  {
    if v < 26 then ('A' as int + v) as char
    else if v < 52 then ('a' as int + (v - 26)) as char
    else if v < 62 then ('0' as int + (v - 52)) as char
    else if v == 62 then '-'
    else '_'
  }

  /** The decoder's table: the URL-safe letters, and the two standard ones they stand for. */
  function Index(c: char): Option<Sextet> {
    if 'A' <= c <= 'Z' then Some(c as int - 'A' as int)
    else if 'a' <= c <= 'z' then Some(c as int - 'a' as int + 26)
    else if '0' <= c <= '9' then Some(c as int - '0' as int + 52)
    else if c == '-' || c == '+' then Some(62)
    else if c == '_' || c == '/' then Some(63)
    else None
  }

  /** urlsafe_b64encode followed by rstrip("="). */
  function Encode(data: Bytes): string {
    if |data| == 0 then ""
    else if |data| == 1 then [Letter(data[0] / 4), Letter(data[0] % 4 * 16)]
    else if |data| == 2 then
      [Letter(data[0] / 4), Letter(data[0] % 4 * 16 + data[1] / 16), Letter(data[1] % 16 * 4)]
    else
      Quad(data[0], data[1], data[2]) + Encode(data[3..])
  }

  function Quad(a: Byte, b: Byte, c: Byte): string {
    [Letter(a / 4), Letter(a % 4 * 16 + b / 16), Letter(b % 16 * 4 + c / 64), Letter(c % 64)]
  }

  /** The decoder's loop over characters: its position in the current group of four, the bits carried
      over and the padding characters met in a row. */
  function Collect(s: string, quad: nat, left: nat, pads: nat): Option<Bytes>
    requires quad < 4
    requires (quad == 1 ==> left < 64) && (quad == 2 ==> left < 16) && (quad == 3 ==> left < 4)
  {
    if s == "" then (if quad == 0 then Some([]) else None)
    else if s[0] == '=' then
      if quad >= 2 && quad + pads + 1 >= 4 then Some([])
      else Collect(s[1..], quad, left, if quad >= 2 then pads + 1 else pads)
    else match Index(s[0])
      case None => Collect(s[1..], quad, left, pads)
      case Some(v) =>
        if quad == 0 then Collect(s[1..], 1, v, 0)
        else if quad == 1 then Emit(left * 4 + v / 16, Collect(s[1..], 2, v % 16, 0))
        else if quad == 2 then Emit(left * 16 + v / 4, Collect(s[1..], 3, v % 4, 0))
        else Emit(left * 64 + v, Collect(s[1..], 0, 0, 0))
  }

  function Emit(b: Byte, rest: Option<Bytes>): Option<Bytes> {
    match rest
    case None => None
    case Some(bytes) => Some([b] + bytes)
  }

  function Padding(length: nat): string {
    seq((4 - length % 4) % 4, _ => '=')
  }

  /** _b64decode: None is the encoding error. */
  function Decode(text: string): Option<Bytes> {
    if exists k :: 0 <= k < |text| && text[k] as int >= 128 then None
    else Collect(text + Padding(|text|), 0, 0, 0)
  }

  lemma {:induction false} EncodedLetters(data: Bytes)
    ensures forall k :: 0 <= k < |Encode(data)| ==>
      Index(Encode(data)[k]).Some? && Encode(data)[k] as int < 128
      && Encode(data)[k] != '.' && Encode(data)[k] != ':' && Encode(data)[k] != '='
  {
    if |data| >= 3 {
      EncodedLetters(data[3..]);
    }
  }

  /** The four sextets of three bytes carry exactly those bytes. */
  lemma Sextets(a: Byte, b: Byte, c: Byte)
    ensures a % 4 * 16 + b / 16 < 64 && b % 16 * 4 + c / 64 < 64
    ensures a / 4 * 4 + (a % 4 * 16 + b / 16) / 16 == a && (a % 4 * 16 + b / 16) % 16 == b / 16
    ensures b / 16 * 16 + (b % 16 * 4 + c / 64) / 4 == b && (b % 16 * 4 + c / 64) % 4 == c / 64
    ensures c / 64 * 64 + c % 64 == c
  {
  }

  lemma CollectLetter(s: string, v: Sextet, rest: string, quad: nat, left: nat, pads: nat)
    requires quad < 4 && (quad == 1 ==> left < 64) && (quad == 2 ==> left < 16) && (quad == 3 ==> left < 4)
    requires s == [Letter(v)] + rest
    ensures Collect(s, quad, left, pads)
         == if quad == 0 then Collect(rest, 1, v, 0)
            else if quad == 1 then Emit(left * 4 + v / 16, Collect(rest, 2, v % 16, 0))
            else if quad == 2 then Emit(left * 16 + v / 4, Collect(rest, 3, v % 4, 0))
            else Emit(left * 64 + v, Collect(rest, 0, 0, 0))
  {
    assert s[0] == Letter(v) && s[1..] == rest;
  }

  lemma CollectQuad(a: Byte, b: Byte, c: Byte, rest: string)
    ensures Collect(Quad(a, b, c) + rest, 0, 0, 0) == Emit(a, Emit(b, Emit(c, Collect(rest, 0, 0, 0))))
  {
    hide Collect, Letter;
    Sextets(a, b, c);
    var v0, v1, v2, v3 := a / 4, a % 4 * 16 + b / 16, b % 16 * 4 + c / 64, c % 64;
    var s3 := [Letter(v3)] + rest;
    var s2 := [Letter(v2)] + s3;
    var s1 := [Letter(v1)] + s2;
    assert Quad(a, b, c) + rest == [Letter(v0)] + s1;
    CollectLetter([Letter(v0)] + s1, v0, s1, 0, 0, 0);
    CollectLetter(s1, v1, s2, 1, v0, 0);
    CollectLetter(s2, v2, s3, 2, b / 16, 0);
    CollectLetter(s3, v3, rest, 3, c / 64, 0);
  }

  ghost predicate Decodes(data: Bytes) {
    Collect(Encode(data) + Padding(|Encode(data)|), 0, 0, 0) == Some(data)
  }

  lemma CollectOne(a: Byte)
    ensures Decodes([a])
  {
    assert a / 4 * 4 + (a % 4 * 16) / 16 == a && (a % 4 * 16) % 16 == 0;
    var s1 := [Letter(a % 4 * 16)] + "==";
    assert Padding(2) == "==";
    assert Encode([a]) + Padding(|Encode([a])|) == [Letter(a / 4)] + s1;
    CollectLetter([Letter(a / 4)] + s1, a / 4, s1, 0, 0, 0);
    CollectLetter(s1, a % 4 * 16, "==", 1, a / 4, 0);
    assert "=="[1..] == "=";
    assert Collect("==", 2, 0, 0) == Collect("=", 2, 0, 1) == Some([]);
    assert [a] + [] == [a];
  }

  lemma CollectTwo(a: Byte, b: Byte)
    ensures Decodes([a, b])
  {
    assert a / 4 * 4 + (a % 4 * 16 + b / 16) / 16 == a && (a % 4 * 16 + b / 16) % 16 == b / 16;
    assert b / 16 * 16 + (b % 16 * 4) / 4 == b && (b % 16 * 4) % 4 == 0;
    var s2 := [Letter(b % 16 * 4)] + "=";
    var s1 := [Letter(a % 4 * 16 + b / 16)] + s2;
    assert Padding(3) == "=";
    assert Encode([a, b]) + Padding(|Encode([a, b])|) == [Letter(a / 4)] + s1;
    CollectLetter([Letter(a / 4)] + s1, a / 4, s1, 0, 0, 0);
    CollectLetter(s1, a % 4 * 16 + b / 16, s2, 1, a / 4, 0);
    CollectLetter(s2, b % 16 * 4, "=", 2, b / 16, 0);
    assert Collect("=", 3, 0, 0) == Some([]);
    assert [a] + ([b] + []) == [a, b];
  }

  lemma {:induction false} CollectEncoded(data: Bytes)
    ensures Decodes(data)
  {
    if |data| == 0 {
      assert Encode(data) + Padding(0) == "";
    } else if |data| == 1 {
      CollectOne(data[0]);
      assert data == [data[0]];
    } else if |data| == 2 {
      CollectTwo(data[0], data[1]);
      assert data == [data[0], data[1]];
    } else {
      hide Encode, Collect, Padding;
      CollectEncoded(data[3..]);
      CollectMore(data[0], data[1], data[2], data[3..]);
      assert data == [data[0], data[1], data[2]] + data[3..];
    }
  }

  lemma CollectMore(a: Byte, b: Byte, c: Byte, data: Bytes)
    requires Decodes(data)
    ensures Decodes([a, b, c] + data)
  {
    var more := [a, b, c] + data;
    assert more[3..] == data;
    var text, rest := Encode(more), Encode(data) + Padding(|Encode(data)|);
    assert text == Quad(a, b, c) + Encode(data);
    SamePadding(|Encode(data)|);
    assert text + Padding(|text|) == Quad(a, b, c) + rest;
    CollectQuad(a, b, c, rest);
    assert [a] + ([b] + ([c] + data)) == more;
  }

  lemma SamePadding(n: nat)
    ensures Padding(4 + n) == Padding(n)
  {
  }

  /** Restoring (4 - len % 4) % 4 padding characters makes every encoded byte string decode back. */
  lemma DecodeEncode(data: Bytes)
    ensures Decode(Encode(data)) == Some(data)
  {
    EncodedLetters(data);
    CollectEncoded(data);
  }

  // ----- Tokens

  function Dots(token: string): nat {
    if token == "" then 0 else Dots(token[1..]) + (if token[0] == '.' then 1 else 0)
  }

  function FirstDot(token: string): (k: nat)
    requires Dots(token) > 0
    ensures k < |token| && token[k] == '.'
  {
    if token[0] == '.' then 0 else FirstDot(token[1..]) + 1
  }

  /** The two byte strings of a token with exactly one dot. */
  function SplitToken(token: string): Option<(Bytes, Bytes)> {
    if Dots(token) != 1 then None
    else
      var k := FirstDot(token);
      match Decode(token[..k])
      case None => None
      case Some(payload) =>
        match Decode(token[k + 1..])
        case None => None
        case Some(signature) => Some((payload, signature))
  }

  function Token(payload: Bytes, signature: Bytes): string {
    Encode(payload) + "." + Encode(signature)
  }

  lemma {:induction false} DotBetween(a: string, b: string)
    requires forall k :: 0 <= k < |a| ==> a[k] != '.'
    requires forall k :: 0 <= k < |b| ==> b[k] != '.'
    ensures Dots(b) == 0
    ensures Dots(a + "." + b) == 1 && FirstDot(a + "." + b) == |a|
  {
    if b != "" && a == "" {
      DotBetween("", b[1..]);
    }
    if a == "" {
      NoDots(b);
      assert ("." + b)[1..] == b && a + "." + b == "." + b;
    } else {
      DotBetween(a[1..], b);
      assert (a + "." + b)[1..] == a[1..] + "." + b;
    }
  }

  lemma {:induction false} NoDots(b: string)
    requires forall k :: 0 <= k < |b| ==> b[k] != '.'
    ensures Dots(b) == 0
  {
    if b != "" {
      NoDots(b[1..]);
    }
  }

  /** Every token splits uniquely at its dot, back to its payload and signature. */
  lemma SplitIssuedToken(payload: Bytes, signature: Bytes)
    ensures SplitToken(Token(payload, signature)) == Some((payload, signature))
  {
    EncodedLetters(payload);
    EncodedLetters(signature);
    DotBetween(Encode(payload), Encode(signature));
    var token := Token(payload, signature);
    assert token[..|Encode(payload)|] == Encode(payload);
    assert token[|Encode(payload)| + 1..] == Encode(signature);
    DecodeEncode(payload);
    DecodeEncode(signature);
  }

  /** So no two issued tokens coincide unless payload and signature do. */
  lemma TokensAreInjective(p: Bytes, s: Bytes, p': Bytes, s': Bytes)
    requires Token(p, s) == Token(p', s')
    ensures p == p' && s == s'
  {
    SplitIssuedToken(p, s);
    SplitIssuedToken(p', s');
  }
}
