/** The OAuth state of services/mailbox_oauth_service.py: unpadded base64url (RFC 4648, sections 3.2 and 5)
    and a signed payload. */
module OAuthState {
  import opened Common

  type Byte = x: int | 0 <= x < 256
  type Sextet = x: int | 0 <= x < 64

  // ---- The standard encoding, section 4 --------------------------------------------------------------

  function Letter(v: Sextet): char {
    if v < 26 then 'A' + v as char
    else if v < 52 then 'a' + (v - 26) as char
    else if v < 62 then '0' + (v - 52) as char
    else if v == 62 then '+'
    else '/'
  }

  function Value(c: char): Option<Sextet> {
    if 'A' <= c <= 'Z' then Some((c - 'A') as int)
    else if 'a' <= c <= 'z' then Some((c - 'a') as int + 26)
    else if '0' <= c <= '9' then Some((c - '0') as int + 52)
    else if c == '+' then Some(62)
    else if c == '/' then Some(63)
    else None
  }

  lemma LetterHasValue(v: Sextet)
    ensures Value(Letter(v)) == Some(v) && Letter(v) !in {'=', '.', '-', '_'}
  {
  }

  function Encode64(b: seq<Byte>): string {
    if |b| == 0 then []
    else if |b| == 1 then [Letter(b[0] / 4), Letter(b[0] % 4 * 16), '=', '=']
    else if |b| == 2 then [Letter(b[0] / 4), Letter(b[0] % 4 * 16 + b[1] / 16), Letter(b[1] % 16 * 4), '=']
    else [Letter(b[0] / 4), Letter(b[0] % 4 * 16 + b[1] / 16), Letter(b[1] % 16 * 4 + b[2] / 64), Letter(b[2] % 64)]
         + Encode64(b[3..])
  }

  /** The lenient decoder of Python's binascii: `quad` letters of the current group have been read and `left`
      holds the bits not yet written; other characters are passed over; complete padding ends the input. */
  function Scan(s: string, quad: nat, left: nat, pads: nat): Option<seq<Byte>>
    requires quad < 4 && left < 64
    requires quad == 2 ==> left < 16
    requires quad == 3 ==> left < 4
    decreases |s|
  {
    if s == "" then (if quad == 0 then Some([]) else None)
    else if s[0] == '=' then
      if quad >= 2 && quad + pads + 1 >= 4 then Some([])
      else Scan(s[1..], quad, left, if quad >= 2 then pads + 1 else pads)
    else
      match Value(s[0])
      case None => Scan(s[1..], quad, left, pads)
      case Some(v) =>
        if quad == 0 then Scan(s[1..], 1, v, 0)
        else if quad == 1 then Then(left * 4 + v / 16, Scan(s[1..], 2, v % 16, 0))
        else if quad == 2 then Then(left * 16 + v / 4, Scan(s[1..], 3, v % 4, 0))
        else Then(left * 64 + v, Scan(s[1..], 0, 0, 0))
  }

  function Then(b: Byte, rest: Option<seq<Byte>>): Option<seq<Byte>> {
    if rest.Some? then Some([b] + rest.value) else None
  }

  // ---- The unpadded URL-safe form, sections 3.2 and 5 ---------------------------------------------------

  function Translate(s: string, from1: char, to1: char, from2: char, to2: char): (r: string)
    ensures |r| == |s|
  {
    seq(|s|, i requires 0 <= i < |s| => if s[i] == from1 then to1 else if s[i] == from2 then to2 else s[i])
  }

  function StripPadding(s: string): string {
    if s != "" && s[|s| - 1] == '=' then StripPadding(s[..|s| - 1]) else s
  }

  function Padding(n: nat): string { seq(n, i => '=') }

  /** `_base64url` */
  function Base64Url(b: seq<Byte>): string { StripPadding(Translate(Encode64(b), '+', '-', '/', '_')) }

  /** `"=" * (-len(value) % 4)` */
  function MissingPadding(s: string): nat { (-|s|) % 4 }

  /** `_base64url_decode`; None is Python's incorrect-padding error. */
  function Base64UrlDecode(s: string): Option<seq<Byte>> {
    Scan(Translate(s + Padding(MissingPadding(s)), '-', '+', '_', '/'), 0, 0, 0)
  }

  /** The encoding without its padding. */
  function Unpadded(b: seq<Byte>): string {
    if |b| == 0 then []
    else if |b| == 1 then [Letter(b[0] / 4), Letter(b[0] % 4 * 16)]
    else if |b| == 2 then [Letter(b[0] / 4), Letter(b[0] % 4 * 16 + b[1] / 16), Letter(b[1] % 16 * 4)]
    else [Letter(b[0] / 4), Letter(b[0] % 4 * 16 + b[1] / 16), Letter(b[1] % 16 * 4 + b[2] / 64), Letter(b[2] % 64)]
         + Unpadded(b[3..])
  }

  /** The number of padding characters, section 4. */
  function PadCount(b: seq<Byte>): nat { if |b| % 3 == 0 then 0 else 3 - |b| % 3 }

  predicate IsAscii(s: string) { forall c :: c in s ==> c as int < 128 }

  predicate IsLetter(c: char) { Value(c).Some? }

  lemma {:induction false} EncodingIsPadded(b: seq<Byte>)
    ensures Encode64(b) == Unpadded(b) + Padding(PadCount(b))
  {
    hide Letter;
    if |b| >= 3 {
      var rest := b[3..];
      EncodingIsPadded(rest);
      assert PadCount(rest) == PadCount(b);
      var four := Encode64(b)[..4];
      assert Encode64(b) == four + Encode64(rest) && Unpadded(b) == four + Unpadded(rest);
    } else {
      assert Padding(0) == [] && Padding(1) == ['='] && Padding(2) == ['=', '='];
    }
  }

  lemma {:induction false} EncodingIsLetters(b: seq<Byte>)
    ensures forall c :: c in Unpadded(b) ==> IsLetter(c)
    ensures |Encode64(b)| % 4 == 0
  {
    hide Letter, IsLetter;
    if |b| >= 3 {
      var rest := b[3..];
      EncodingIsLetters(rest);
      var four := FirstLetters(b);
      hide Unpadded, Encode64;
      assert Unpadded(b) == four + Unpadded(rest);
      assert |Encode64(b)| == 4 + |Encode64(rest)|;
    } else if |b| > 0 {
      GroupIsLetters(b[0], if |b| == 2 then b[1] else 0, 0);
    }
  }

  lemma FirstLetters(b: seq<Byte>) returns (four: string)
    requires |b| >= 3
    ensures forall c :: c in four ==> IsLetter(c)
    ensures |four| == 4 && Unpadded(b) == four + Unpadded(b[3..]) && |Encode64(b)| == 4 + |Encode64(b[3..])|
  {
    hide Letter, IsLetter;
    GroupIsLetters(b[0], b[1], b[2]);
    four := [Letter(b[0] / 4), Letter(b[0] % 4 * 16 + b[1] / 16), Letter(b[1] % 16 * 4 + b[2] / 64), Letter(b[2] % 64)];
  }

  lemma GroupIsLetters(x: Byte, y: Byte, z: Byte)
    ensures IsLetter(Letter(x / 4)) && IsLetter(Letter(x % 4 * 16 + y / 16))
    ensures IsLetter(Letter(y % 16 * 4 + z / 64)) && IsLetter(Letter(z % 64))
  {
    hide Letter, IsLetter;
    FourLetters(x / 4, x % 4 * 16 + y / 16, y % 16 * 4 + z / 64, z % 64);
  }

  lemma FourLetters(p: Sextet, q: Sextet, r: Sextet, s: Sextet)
    ensures IsLetter(Letter(p)) && IsLetter(Letter(q)) && IsLetter(Letter(r)) && IsLetter(Letter(s))
  {
    LetterHasValue(p);
    LetterHasValue(q);
    LetterHasValue(r);
    LetterHasValue(s);
  }

  /** A decoder finds what the encoder wrote, group by group. */
  lemma {:induction false} ScanReadsEncoding(b: seq<Byte>)
    ensures Scan(Encode64(b), 0, 0, 0) == Some(b)
  {
    if |b| < 3 {
      ScanReadsShort(b);
    } else {
      hide Letter, Scan, Then;
      var rest := b[3..];
      ScanThree(b[0], b[1], b[2], Encode64(rest));
      ScanReadsEncoding(rest);
      ThreeBytes(b[0], b[1], b[2], rest);
      assert b == [b[0], b[1], b[2]] + rest;
    }
  }

  lemma ScanReadsShort(b: seq<Byte>)
    requires |b| < 3
    ensures Scan(Encode64(b), 0, 0, 0) == Some(b)
  {
    if |b| > 0 {
      hide Scan, Letter;
      if |b| == 1 {
        ScanOne(b[0]);
        assert b == [b[0]];
      } else {
        ScanTwo(b[0], b[1]);
        assert b == [b[0], b[1]];
      }
    }
  }

  lemma ThreeBytes(x: Byte, y: Byte, z: Byte, rest: seq<Byte>)
    ensures Then(x, Then(y, Then(z, Some(rest)))) == Some([x, y, z] + rest)
  {
    assert [x] + ([y] + ([z] + rest)) == [x, y, z] + rest;
  }

  /** The first byte of a group, and the high bits of the second. */
  lemma ScanFirst(s: string, x: Byte, high: nat)
    requires |s| >= 2 && high < 16 && s[0] == Letter(x / 4) && s[1] == Letter(x % 4 * 16 + high)
    ensures Scan(s, 0, 0, 0) == Then(x, Scan(s[2..], 2, high, 0))
  {
    ScanLetter(s, 0, 0, x / 4);
    ScanLetter(s[1..], 1, x / 4, x % 4 * 16 + high);
    assert s[1..][1..] == s[2..];
  }

  lemma ScanSecond(s: string, y: Byte, high: nat)
    requires |s| >= 1 && high < 4 && s[0] == Letter(y % 16 * 4 + high)
    ensures Scan(s, 2, y / 16, 0) == Then(y, Scan(s[1..], 3, high, 0))
  {
    ScanLetter(s, 2, y / 16, y % 16 * 4 + high);
  }

  lemma ScanThird(s: string, z: Byte)
    requires |s| >= 1 && s[0] == Letter(z % 64)
    ensures Scan(s, 3, z / 64, 0) == Then(z, Scan(s[1..], 0, 0, 0))
  {
    ScanLetter(s, 3, z / 64, z % 64);
  }

  lemma ScanOne(x: Byte)
    ensures Scan([Letter(x / 4), Letter(x % 4 * 16), '=', '='], 0, 0, 0) == Some([x])
  {
    var s := [Letter(x / 4), Letter(x % 4 * 16), '=', '='];
    hide Letter, Scan;
    ScanFirst(s, x, 0);
    ScanPadding(s[2..], 2);
    LastByte(x);
  }

  lemma ScanTwo(x: Byte, y: Byte)
    ensures Scan([Letter(x / 4), Letter(x % 4 * 16 + y / 16), Letter(y % 16 * 4), '='], 0, 0, 0) == Some([x, y])
  {
    var s := [Letter(x / 4), Letter(x % 4 * 16 + y / 16), Letter(y % 16 * 4), '='];
    hide Letter, Scan;
    ScanFirst(s, x, y / 16);
    ScanSecond(s[2..], y, 0);
    ScanPadding(s[2..][1..], 3);
    LastByte(y);
    assert [x] + [y] == [x, y];
  }

  lemma ScanThree(x: Byte, y: Byte, z: Byte, rest: string)
    ensures var s := [Letter(x / 4), Letter(x % 4 * 16 + y / 16), Letter(y % 16 * 4 + z / 64), Letter(z % 64)] + rest;
            Scan(s, 0, 0, 0) == Then(x, Then(y, Then(z, Scan(rest, 0, 0, 0))))
  {
    var s := [Letter(x / 4), Letter(x % 4 * 16 + y / 16), Letter(y % 16 * 4 + z / 64), Letter(z % 64)] + rest;
    hide Letter, Scan;
    ScanFirst(s, x, y / 16);
    ScanSecond(s[2..], y, z / 64);
    ScanThird(s[2..][1..], z);
    assert s[2..][1..][1..] == rest;
  }

  lemma LastByte(b: Byte)
    ensures Then(b, Some([])) == Some([b])
  {
    var none: seq<Byte> := [];
    assert [b] + none == [b];
  }

  lemma ScanPadding(s: string, quad: nat)
    requires (quad == 2 && s == ['=', '=']) || (quad == 3 && s == ['='])
    ensures Scan(s, quad, 0, 0) == Some([])
  {
    assert s[1..] == if quad == 2 then ['='] else [];
  }

  lemma ScanLetter(s: string, quad: nat, left: nat, v: Sextet)
    requires s != "" && s[0] == Letter(v)
    requires quad < 4 && left < 64 && (quad == 2 ==> left < 16) && (quad == 3 ==> left < 4)
    requires quad == 0 ==> left == 0
    ensures Scan(s, quad, left, 0)
            == if quad == 0 then Scan(s[1..], 1, v, 0)
               else if quad == 1 then Then(left * 4 + v / 16, Scan(s[1..], 2, v % 16, 0))
               else if quad == 2 then Then(left * 16 + v / 4, Scan(s[1..], 3, v % 4, 0))
               else Then(left * 64 + v, Scan(s[1..], 0, 0, 0))
  {
    LetterHasValue(v);
  }

  // ---- Stripping and restoring ----------------------------------------------------------------------------

  lemma {:induction false} StrippingPadding(s: string, n: nat)
    requires s == "" || s[|s| - 1] != '='
    ensures StripPadding(s + Padding(n)) == s
  {
    if n == 0 {
      assert s + Padding(0) == s;
    } else {
      var padded := s + Padding(n);
      assert padded[..|padded| - 1] == s + Padding(n - 1);
      StrippingPadding(s, n - 1);
    }
  }

  /** What the encoder strips is what the decoder restores: the full encoding, with the padding counted
      from the length of what is left. */
  lemma RestoredPadding(b: seq<Byte>)
    ensures MissingPadding(Base64Url(b)) == PadCount(b)
    ensures Base64Url(b) + Padding(MissingPadding(Base64Url(b))) == Translate(Encode64(b), '+', '-', '/', '_')
    ensures Base64Url(b) == Translate(Unpadded(b), '+', '-', '/', '_')
  {
    EncodingIsPadded(b);
    EncodingIsLetters(b);
    hide Encode64, Unpadded, IsLetter;
    var letters, n := Unpadded(b), PadCount(b);
    var plain := Translate(letters, '+', '-', '/', '_');
    TranslatingConcat(letters, Padding(n));
    TranslatingPadding(n);
    PlainEndsInLetter(letters);
    StrippingPadding(plain, n);
    MissingToFour(|plain|, n);
  }

  lemma MissingToFour(length: int, n: nat)
    requires length >= 0 && n < 4 && (length + n) % 4 == 0
    ensures (-length) % 4 == n
  {
  }

  lemma TranslatingPadding(n: nat)
    ensures Translate(Padding(n), '+', '-', '/', '_') == Padding(n)
  {
  }

  lemma PlainEndsInLetter(letters: string)
    requires forall c :: c in letters ==> IsLetter(c)
    ensures var plain := Translate(letters, '+', '-', '/', '_'); plain == "" || plain[|plain| - 1] != '='
  {
    if letters != "" {
      assert letters[|letters| - 1] in letters;
    }
  }

  lemma TranslatingConcat(s: string, t: string)
    ensures Translate(s + t, '+', '-', '/', '_') == Translate(s, '+', '-', '/', '_') + Translate(t, '+', '-', '/', '_')
  {
  }

  lemma TranslatingBack(s: string)
    requires forall i :: 0 <= i < |s| ==> s[i] != '-' && s[i] != '_'
    ensures Translate(Translate(s, '+', '-', '/', '_'), '-', '+', '_', '/') == s
  {
  }

  /** The round trip: decoding an encoded byte string gives it back, for every byte string. */
  lemma RoundTrip(b: seq<Byte>)
    ensures Base64UrlDecode(Base64Url(b)) == Some(b)
  {
    EncodingIsPadded(b);
    EncodingIsLetters(b);
    RestoredPadding(b);
    hide Encode64, Unpadded;
    assert forall i :: 0 <= i < |Unpadded(b)| ==> Unpadded(b)[i] in Unpadded(b);
    TranslatingBack(Encode64(b));
    ScanReadsEncoding(b);
  }

  // ---- What an encoding is -----------------------------------------------------------------------------------

  function Capitals(): (s: string)
    ensures |s| == 26 && forall v :: 0 <= v < 26 ==> s[v] == 'A' + v as char
  {
    "ABCDEFGHIJKLMNOPQRSTUVWXYZ"
  }

  function SmallLetters(): (s: string)
    ensures |s| == 26 && forall v :: 0 <= v < 26 ==> s[v] == 'a' + v as char
  {
    "abcdefghijklmnopqrstuvwxyz"
  }

  function Digits(): (s: string)
    ensures |s| == 10 && forall v :: 0 <= v < 10 ==> s[v] == '0' + v as char
  {
    "0123456789"
  }

  /** The URL-safe alphabet of section 5. */
  function UrlAlphabet(): (s: string)
    ensures |s| == 64
  {
    Capitals() + SmallLetters() + Digits() + "-_"
  }

  /** The byte at a position; zero bits follow the text. */
  function ByteAt(b: seq<Byte>, k: nat): int { if k < |b| then b[k] else 0 }

  /** Three bytes as one number. */
  function Word(b: seq<Byte>, k: nat): (word: int)
    ensures 0 <= word < 0x100_0000
  {
    ByteAt(b, k) * 65536 + ByteAt(b, k + 1) * 256 + ByteAt(b, k + 2)
  }

  /** The i-th group of six bits of the text, read from its most significant bit on. */
  function SixBits(b: seq<Byte>, i: nat): (v: int)
    ensures 0 <= v < 64
  {
    var word := Word(b, i / 4 * 3);
    match i % 4
    case 0 => word / 64 / 64 / 64
    case 1 => word / 64 / 64 % 64
    case 2 => word / 64 % 64
    case _ => word % 64
  }

  function UrlLetter(v: Sextet): char { if Letter(v) == '+' then '-' else if Letter(v) == '/' then '_' else Letter(v) }

  lemma UrlLetterMeans(v: Sextet)
    ensures UrlLetter(v) == UrlAlphabet()[v]
  {
    hide Capitals, SmallLetters, Digits;
  }

  lemma FourDigits(word: int, p: int, q: int, r: int, s: int)
    requires word == 64 * (64 * (64 * p + q) + r) + s && 0 <= q < 64 && 0 <= r < 64 && 0 <= s < 64
    ensures word % 64 == s && word / 64 % 64 == r && word / 64 / 64 % 64 == q && word / 64 / 64 / 64 == p
  {
    assert word / 64 == 64 * (64 * p + q) + r && word % 64 == s;
    assert word / 64 / 64 == 64 * p + q;
  }

  lemma SixBitsOfFirst(b: seq<Byte>)
    ensures var x, y, z := ByteAt(b, 0), ByteAt(b, 1), ByteAt(b, 2);
            && SixBits(b, 0) == x / 4 && SixBits(b, 1) == x % 4 * 16 + y / 16
            && SixBits(b, 2) == y % 16 * 4 + z / 64 && SixBits(b, 3) == z % 64
  {
    var x, y, z := ByteAt(b, 0), ByteAt(b, 1), ByteAt(b, 2);
    FourDigits(Word(b, 0), x / 4, x % 4 * 16 + y / 16, y % 16 * 4 + z / 64, z % 64);
  }

  lemma SixBitsOfRest(b: seq<Byte>, i: nat)
    requires |b| >= 3 && i >= 4
    ensures SixBits(b, i) == SixBits(b[3..], i - 4)
  {
    var k := (i - 4) / 4 * 3;
    assert i / 4 * 3 == k + 3 && i % 4 == (i - 4) % 4;
    assert Word(b, k + 3) == Word(b[3..], k);
  }

  lemma {:induction false} UnpaddedMeans(b: seq<Byte>, i: nat)
    ensures |Unpadded(b)| == (4 * |b| + 2) / 3
    ensures i < |Unpadded(b)| ==> Unpadded(b)[i] == Letter(SixBits(b, i))
  {
    hide Letter, SixBits;
    SixBitsOfFirst(b);
    if |b| >= 3 {
      var rest, later: nat := b[3..], if i >= 4 then i - 4 else 0;
      UnpaddedMeans(rest, later);
      if i >= 4 {
        SixBitsOfRest(b, i);
      }
    }
  }

  /** The encoding is the text's bits in groups of six, most significant first, the last group filled up with zeros, each
      written with its letter of the alphabet; there is no padding. */
  lemma EncodingMeans(b: seq<Byte>)
    ensures |Base64Url(b)| == (8 * |b| + 5) / 6
    ensures forall i :: 0 <= i < |Base64Url(b)| ==> Base64Url(b)[i] == UrlAlphabet()[SixBits(b, i)]
  {
    hide Letter, SixBits, UrlAlphabet, Unpadded;
    RestoredPadding(b);
    UnpaddedMeans(b, 0);
    forall i | 0 <= i < |Base64Url(b)|
      ensures Base64Url(b)[i] == UrlAlphabet()[SixBits(b, i)]
    {
      UnpaddedMeans(b, i);
      UrlLetterMeans(SixBits(b, i));
    }
  }

  /** No separator, no padding and nothing that a URL would escape occurs in an encoded byte string. */
  lemma EncodedIsUrlSafe(b: seq<Byte>)
    ensures forall c :: c in Base64Url(b) ==> c !in {'.', '=', '+', '/'}
    ensures IsAscii(Base64Url(b))
  {
    EncodingIsLetters(b);
    RestoredPadding(b);
    forall c | c in Base64Url(b)
      ensures c !in {'.', '=', '+', '/'} && c as int < 128
    {
      var i :| 0 <= i < |Base64Url(b)| && Base64Url(b)[i] == c;
      assert Unpadded(b)[i] in Unpadded(b);
    }
  }

  // ---- Signed state -----------------------------------------------------------------------------------------

  /** The parts that are opaque here: JSON text, the expiry field, and the keyed digest of an ASCII text. */
  datatype Scheme<!P> = Scheme(
    dumps: P -> seq<Byte>,
    loads: seq<Byte> -> Option<P>,
    expiry: P -> int,
    mac: string -> seq<Byte>)

  datatype Verified<P> = Payload(value: P) | InvalidState | NotAscii | InvalidSignature | Undecodable | Expired

  /** JSON text gives the payload back. */
  ghost predicate Faithful<P(!new)>(scheme: Scheme<P>) { forall p: P :: scheme.loads(scheme.dumps(p)) == Some(p) }

  function Signature<P>(scheme: Scheme<P>, raw: string): string { Base64Url(scheme.mac(raw)) }

  /** `_sign_state` */
  function Sign<P>(scheme: Scheme<P>, payload: P): string {
    var raw := Base64Url(scheme.dumps(payload));
    raw + "." + Signature(scheme, raw)
  }

  /** The position of the first separator, or the length. */
  function FirstDot(s: string): (k: nat)
    ensures k <= |s|
    ensures forall i :: 0 <= i < k ==> s[i] != '.'
    ensures k < |s| ==> s[k] == '.'
  {
    if s == "" || s[0] == '.' then 0 else 1 + FirstDot(s[1..])
  }

  /** `_verify_state` at instant `now`. */
  function Verify<P>(scheme: Scheme<P>, state: string, now: int): Verified<P> {
    var k := FirstDot(state);
    if k == |state| then InvalidState
    else
      var raw, signature := state[..k], state[k + 1..];
      if !IsAscii(raw) then NotAscii
      else if signature != Signature(scheme, raw) then InvalidSignature
      else
        var bytes := Base64UrlDecode(raw);
        if bytes.None? || scheme.loads(bytes.value).None? then Undecodable
        else if scheme.expiry(scheme.loads(bytes.value).value) < now then Expired
        else Payload(scheme.loads(bytes.value).value)
  }

  lemma FirstDotOfJoin(raw: string, rest: string)
    requires '.' !in raw
    ensures FirstDot(raw + "." + rest) == |raw|
  {
    var s := raw + "." + rest;
    assert s[|raw|] == '.';
    assert forall i :: 0 <= i < |raw| ==> s[i] == raw[i] && raw[i] in raw;
  }

  /** A signed state is accepted with its payload until it expires, and is then refused as expired. */
  lemma SignedStateVerifies<P(!new)>(scheme: Scheme<P>, payload: P, now: int)
    requires Faithful(scheme)
    ensures Verify(scheme, Sign(scheme, payload), now) == if scheme.expiry(payload) < now then Expired else Payload(payload)
  {
    var raw := Base64Url(scheme.dumps(payload));
    EncodedIsUrlSafe(scheme.dumps(payload));
    FirstDotOfJoin(raw, Signature(scheme, raw));
    RoundTrip(scheme.dumps(payload));
    hide Base64Url, Base64UrlDecode;
    var state := Sign(scheme, payload);
    assert state[..|raw|] == raw && state[|raw| + 1..] == Signature(scheme, raw);
  }

  /** Exactly the states that are accepted: an ASCII text without separator, a dot and its signature, that
      decodes to a payload that has not expired. */
  lemma AcceptedExactlyWhenSigned<P(!new)>(scheme: Scheme<P>, state: string, now: int, payload: P)
    ensures Verify(scheme, state, now) == Payload(payload)
            <==> exists raw: string ::
                   && '.' !in raw && IsAscii(raw) && state == raw + "." + Signature(scheme, raw)
                   && Base64UrlDecode(raw).Some? && scheme.loads(Base64UrlDecode(raw).value) == Some(payload)
                   && now <= scheme.expiry(payload)
  {
    hide Base64UrlDecode, Signature;
    var k := FirstDot(state);
    if Verify(scheme, state, now) == Payload(payload) {
      var raw := state[..k];
      assert state == raw + "." + state[k + 1..];
      assert '.' !in raw;
    }
    if raw: string :|
        && '.' !in raw && IsAscii(raw) && state == raw + "." + Signature(scheme, raw)
        && Base64UrlDecode(raw).Some? && scheme.loads(Base64UrlDecode(raw).value) == Some(payload)
        && now <= scheme.expiry(payload)
    {
      FirstDotOfJoin(raw, Signature(scheme, raw));
      assert state[..|raw|] == raw && state[|raw| + 1..] == Signature(scheme, raw);
    }
  }
}
