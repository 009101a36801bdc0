/**
 * The image hash and transport encodings of the image pipeline: the
 * lowercase hexadecimal rendering of a SHA-256 digest (FIPS 180-4) and
 * Base64 with the standard alphabet (section 4 of RFC 4648).
 */
module Encoding {
  import opened Wrappers

  newtype byte = x: int | 0 <= x < 256

  /** A SHA-256 digest: 32 bytes. */
  type Digest = d: seq<byte> | |d| == 32 witness seq(32, _ => 0 as byte)

  /**
   * The SHA-256 compression function is not modelled: the caller passes it
   * as a (deterministic, total) function from bytes to a 32-byte digest.
   */
  type Sha256 = seq<byte> -> Digest

  // ---------------------------------------------------------------- hex

  predicate IsLowerHexDigit(c: char) {
    '0' <= c <= '9' || 'a' <= c <= 'f'
  }

  /** A hexadecimal digit in either case, as `bytes.fromhex` accepts them. */
  predicate IsHexDigit(c: char) {
    IsLowerHexDigit(c) || 'A' <= c <= 'F'
  }

  /** The lowercase digit for a nibble. */
  function HexDigit(n: int): (c: char)
    requires 0 <= n < 16
    ensures IsLowerHexDigit(c)
  {
    if n < 10 then ('0' as int + n) as char else ('a' as int + n - 10) as char
  }

  /** The value of a hexadecimal digit of either case. */
  function HexValue(c: char): (n: int)
    requires IsHexDigit(c)
    ensures 0 <= n < 16
  {
    if '0' <= c <= '9' then c as int - '0' as int
    else if 'a' <= c <= 'f' then c as int - 'a' as int + 10
    else c as int - 'A' as int + 10
  }

  lemma HexValueOfDigit(n: int)
    requires 0 <= n < 16
    ensures HexValue(HexDigit(n)) == n
  {
  }

  /** Python's `bytes.hex()` / `hexdigest()`: two lowercase digits per byte, most significant nibble first. */
  function Hex(bs: seq<byte>): (r: string)
    ensures |r| == 2 * |bs|
    ensures forall k :: 0 <= k < |r| ==> IsLowerHexDigit(r[k])
  {
    if bs == [] then ""
    else [HexDigit(bs[0] as int / 16), HexDigit(bs[0] as int % 16)] + Hex(bs[1..])
  }

  predicate AllHexDigits(s: string) {
    forall k :: 0 <= k < |s| ==> IsHexDigit(s[k])
  }

  /** `bytes.fromhex` on an even-length string of hexadecimal digits. */
  function FromHex(s: string): (bs: seq<byte>)
    requires |s| % 2 == 0 && AllHexDigits(s)
    ensures 2 * |bs| == |s|
  {
    if s == [] then []
    else [(HexValue(s[0]) * 16 + HexValue(s[1])) as byte] + FromHex(s[2..])
  }

  /** Decoding the hex rendering gives back the bytes. */
  lemma {:induction false} FromHexOfHex(bs: seq<byte>)
    ensures AllHexDigits(Hex(bs)) && FromHex(Hex(bs)) == bs
  {
    if bs != [] {
      var h := Hex(bs);
      var b := bs[0] as int;
      HexValueOfDigit(b / 16);
      HexValueOfDigit(b % 16);
      assert h[2..] == Hex(bs[1..]);
      FromHexOfHex(bs[1..]);
      assert (HexValue(h[0]) * 16 + HexValue(h[1])) as byte == bs[0];
    }
  }

  lemma DigitOfHexValue(c: char)
    requires IsLowerHexDigit(c)
    ensures HexDigit(HexValue(c)) == c
  {
  }

  /** Rendering decoded lowercase hex gives back the string. */
  lemma {:induction false} HexOfFromHex(s: string)
    requires |s| % 2 == 0 && forall k :: 0 <= k < |s| ==> IsLowerHexDigit(s[k])
    ensures Hex(FromHex(s)) == s
    decreases |s|
  {
    if s != [] {
      var bs := FromHex(s);
      var b := HexValue(s[0]) * 16 + HexValue(s[1]);
      assert bs[0] as int == b && bs[1..] == FromHex(s[2..]);
      assert b / 16 == HexValue(s[0]) && b % 16 == HexValue(s[1]);
      DigitOfHexValue(s[0]);
      DigitOfHexValue(s[1]);
      HexOfFromHex(s[2..]);
      assert s == [s[0], s[1]] + s[2..];
    }
  }

  // ------------------------------------------------------------ image hash

  /**
   * `generate_image_hash`: the SHA-256 hexdigest of the exact bytes,
   * 64 lowercase hexadecimal characters.
   */
  function ImageHash(sha256: Sha256, data: seq<byte>): (h: string)
    ensures |h| == 64
    ensures forall k :: 0 <= k < |h| ==> IsLowerHexDigit(h[k])
  {
    Hex(sha256(data))
  }

  /** Equal digests give equal hash strings, and the rendering loses nothing. */
  lemma ImageHashInjective(sha256: Sha256, a: seq<byte>, b: seq<byte>)
    ensures ImageHash(sha256, a) == ImageHash(sha256, b) <==> sha256(a) == sha256(b)
  {
    FromHexOfHex(sha256(a));
    FromHexOfHex(sha256(b));
  }

  // ---------------------------------------------------------------- base64

  /** The character for a 6-bit value in the alphabet of RFC 4648, section 4. */
  function Sym(i: int): (c: char)
    requires 0 <= i < 64
    ensures IsBase64Char(c)
  {
    if i < 26 then ('A' as int + i) as char
    else if i < 52 then ('a' as int + i - 26) as char
    else if i < 62 then ('0' as int + i - 52) as char
    else if i == 62 then '+'
    else '/'
  }

  predicate IsBase64Char(c: char) {
    'A' <= c <= 'Z' || 'a' <= c <= 'z' || '0' <= c <= '9' || c == '+' || c == '/'
  }

  /** The 6-bit value of an alphabet character. */
  function SymIndex(c: char): (i: int)
    requires IsBase64Char(c)
    ensures 0 <= i < 64
  {
    if 'A' <= c <= 'Z' then c as int - 'A' as int
    else if 'a' <= c <= 'z' then c as int - 'a' as int + 26
    else if '0' <= c <= '9' then c as int - '0' as int + 52
    else if c == '+' then 62
    else 63
  }

  lemma SymIndexOfSym(i: int)
    requires 0 <= i < 64
    ensures SymIndex(Sym(i)) == i
  {
  }

  /** Three bytes as four alphabet characters (one 24-bit group). */
  function EncodeTriple(x: byte, y: byte, z: byte): (q: string)
    ensures |q| == 4 && AllBase64(q)
  {
    var a, b, c := x as int, y as int, z as int;
    [Sym(a / 4), Sym(a % 4 * 16 + b / 16), Sym(b % 16 * 4 + c / 64), Sym(c % 64)]
  }

  /** The final group of one or two bytes, padded with `=` to four characters. */
  function EncodeTail(t: seq<byte>): (q: string)
    requires 1 <= |t| <= 2
    ensures |q| == 4
  {
    var a := t[0] as int;
    if |t| == 1 then [Sym(a / 4), Sym(a % 4 * 16), '=', '=']
    else
      var b := t[1] as int;
      [Sym(a / 4), Sym(a % 4 * 16 + b / 16), Sym(b % 16 * 4), '=']
  }

  /**
   * `image_to_base64`: groups of three bytes become four characters; a
   * final group of one or two bytes is padded with `=`.
   */
  function Base64Encode(b: seq<byte>): (r: string)
    ensures |r| == 4 * ((|b| + 2) / 3)
    decreases |b|
  {
    if |b| == 0 then ""
    else if |b| < 3 then EncodeTail(b)
    else EncodeTriple(b[0], b[1], b[2]) + Base64Encode(b[3..])
  }

  predicate AllBase64(s: string) {
    forall k :: 0 <= k < |s| ==> IsBase64Char(s[k])
  }

  /**
   * Padding and alphabet: one input byte beyond a multiple of three gives
   * `==`, two give `=`, none gives no padding; every other character is in
   * the alphabet of RFC 4648, section 4.
   */
  lemma {:induction false} Base64Padding(b: seq<byte>)
    ensures var r := Base64Encode(b); var pad := (3 - |b| % 3) % 3;
      && pad <= |r|
      && AllBase64(r[..|r| - pad])
      && forall k :: |r| - pad <= k < |r| ==> r[k] == '='
    decreases |b|
  {
    if 1 <= |b| < 3 {
      TailPadding(b);
    } else if |b| >= 3 {
      Base64Padding(b[3..]);
      var pad := PadAfterGroup(|b|);
      PaddingStep(EncodeTriple(b[0], b[1], b[2]), Base64Encode(b[3..]), pad);
    }
  }

  /** Four alphabet characters in front keep the padding of what follows. */
  lemma PaddingStep(q: string, rest: string, pad: nat)
    requires |q| == 4 && AllBase64(q) && pad <= |rest|
    requires AllBase64(rest[..|rest| - pad]) && forall k :: |rest| - pad <= k < |rest| ==> rest[k] == '='
    ensures var r := q + rest;
      && AllBase64(r[..|r| - pad])
      && forall k :: |r| - pad <= k < |r| ==> r[k] == '='
  {
    var r := q + rest;
    forall k | 0 <= k < |r| - pad ensures IsBase64Char(r[k]) {
      if k >= 4 {
        assert r[k] == rest[..|rest| - pad][k - 4];
      }
    }
    forall k | |r| - pad <= k < |r| ensures r[k] == '=' {
      assert r[k] == rest[k - 4];
    }
  }

  /** The padding of a final group of one or two bytes. */
  lemma TailPadding(t: seq<byte>)
    requires 1 <= |t| < 3
    ensures var r := EncodeTail(t); var pad := 3 - |t|;
      && AllBase64(r[..4 - pad])
      && forall k :: 4 - pad <= k < 4 ==> r[k] == '='
  {
  }

  /** A group of three bytes does not change the padding. */
  lemma PadAfterGroup(n: int) returns (pad: int)
    requires n >= 3
    ensures pad == (3 - n % 3) % 3 == (3 - (n - 3) % 3) % 3
  {
    pad := (3 - n % 3) % 3;
  }

  /** Every character of an encoding is in the alphabet or is `=`. */
  lemma Base64Alphabet(b: seq<byte>)
    ensures forall k :: 0 <= k < |Base64Encode(b)| ==>
      IsBase64Char(Base64Encode(b)[k]) || Base64Encode(b)[k] == '='
  {
    var r := Base64Encode(b);
    var pad := (3 - |b| % 3) % 3;
    Base64Padding(b);
    forall k | 0 <= k < |r| ensures IsBase64Char(r[k]) || r[k] == '=' {
      if k < |r| - pad {
        assert r[..|r| - pad][k] == r[k];
      }
    }
  }

  /**
   * One block of four characters; `last` says whether it ends the text,
   * the only place where padding is allowed.
   */
  function DecodeQuad(q: string, last: bool): Option<seq<byte>>
    requires |q| == 4
  {
    if !IsBase64Char(q[0]) || !IsBase64Char(q[1]) then None
    else
      var i0, i1 := SymIndex(q[0]), SymIndex(q[1]);
      if last && q[2] == '=' && q[3] == '=' then
        Some([(i0 * 4 + i1 / 16) as byte])
      else if !IsBase64Char(q[2]) then None
      else
        var i2 := SymIndex(q[2]);
        if last && q[3] == '=' then
          Some([(i0 * 4 + i1 / 16) as byte, (i1 % 16 * 16 + i2 / 4) as byte])
        else if !IsBase64Char(q[3]) then None
        else
          var i3 := SymIndex(q[3]);
          Some([(i0 * 4 + i1 / 16) as byte, (i1 % 16 * 16 + i2 / 4) as byte,
                (i2 % 4 * 64 + i3) as byte])
  }

  /** Decoding per RFC 4648, section 4, without line breaks; `None` on malformed text. */
  function Base64Decode(s: string): (r: Option<seq<byte>>)
    decreases |s|
  {
    if |s| == 0 then Some([])
    else if |s| < 4 then None
    else
      match DecodeQuad(s[..4], |s| == 4)
      case None => None
      case Some(head) =>
        match Base64Decode(s[4..])
        case None => None
        case Some(rest) => Some(head + rest)
  }

  lemma DecodeTriple(x: byte, y: byte, z: byte, last: bool)
    ensures DecodeQuad(EncodeTriple(x, y, z), last) == Some([x, y, z])
  {
    var a, b, c := x as int, y as int, z as int;
    SymIndexOfSym(a / 4); SymIndexOfSym(a % 4 * 16 + b / 16);
    SymIndexOfSym(b % 16 * 4 + c / 64); SymIndexOfSym(c % 64);
    SplitThird(a, b, c);
  }

  lemma DecodeTail(t: seq<byte>)
    requires 1 <= |t| <= 2
    ensures DecodeQuad(EncodeTail(t), true) == Some(t)
  {
    var a := t[0] as int;
    if |t| == 1 {
      SymIndexOfSym(a / 4); SymIndexOfSym(a % 4 * 16);
      SplitFirst(a);
      assert t == [t[0]];
    } else {
      var b := t[1] as int;
      SymIndexOfSym(a / 4); SymIndexOfSym(a % 4 * 16 + b / 16); SymIndexOfSym(b % 16 * 4);
      SplitSecond(a, b);
      assert t == [t[0], t[1]];
    }
  }

  lemma SplitFirst(x: int)
    requires 0 <= x < 256
    ensures x / 4 * 4 + (x % 4 * 16) / 16 == x
  {
  }

  lemma SplitSecond(x: int, y: int)
    requires 0 <= x < 256 && 0 <= y < 256
    ensures x / 4 * 4 + (x % 4 * 16 + y / 16) / 16 == x
    ensures (x % 4 * 16 + y / 16) % 16 * 16 + (y % 16 * 4) / 4 == y
  {
  }

  lemma SplitThird(x: int, y: int, z: int)
    requires 0 <= x < 256 && 0 <= y < 256 && 0 <= z < 256
    ensures x / 4 * 4 + (x % 4 * 16 + y / 16) / 16 == x
    ensures (x % 4 * 16 + y / 16) % 16 * 16 + (y % 16 * 4 + z / 64) / 4 == y
    ensures (y % 16 * 4 + z / 64) % 4 * 64 + z % 64 == z
  {
  }

  /** Decoding a block followed by more text. */
  lemma DecodeCons(q: string, rest: string, head: seq<byte>, tail: seq<byte>)
    requires |q| == 4
    requires DecodeQuad(q, rest == []) == Some(head)
    requires Base64Decode(rest) == Some(tail)
    ensures Base64Decode(q + rest) == Some(head + tail)
  {
    var s := q + rest;
    assert s[..4] == q && s[4..] == rest;
  }

  /** Round trip: decoding `image_to_base64(b)` yields `b`. */
  lemma {:induction false} Base64RoundTrip(b: seq<byte>)
    ensures Base64Decode(Base64Encode(b)) == Some(b)
    decreases |b|
  {
    if 1 <= |b| <= 2 {
      TailRoundTrip(b);
    } else if |b| >= 3 {
      SplitGroup(b);
      Base64RoundTrip(b[3..]);
      GroupRoundTrip(b[0], b[1], b[2], b[3..]);
    }
  }

  lemma SplitGroup(b: seq<byte>)
    requires |b| >= 3
    ensures b == [b[0], b[1], b[2]] + b[3..]
  {
  }

  /** A last group of one or two bytes decodes back. */
  lemma TailRoundTrip(b: seq<byte>)
    requires 1 <= |b| <= 2
    ensures Base64Decode(Base64Encode(b)) == Some(b)
  {
    assert Base64Encode(b) == EncodeTail(b) + [];
    DecodeTail(b);
    DecodeCons(EncodeTail(b), [], b, []);
    assert b + [] == b;
  }

  /** A full leading group decodes back when the rest does. */
  lemma GroupRoundTrip(x: byte, y: byte, z: byte, t: seq<byte>)
    requires Base64Decode(Base64Encode(t)) == Some(t)
    ensures Base64Decode(Base64Encode([x, y, z] + t)) == Some([x, y, z] + t)
  {
    var b := [x, y, z] + t;
    assert b[0] == x && b[1] == y && b[2] == z && b[3..] == t;
    var q := EncodeTriple(x, y, z);
    var rest := Base64Encode(t);
    assert Base64Encode(b) == q + rest;
    DecodeTriple(x, y, z, rest == []);
    DecodeCons(q, rest, [x, y, z], t);
  }
}
