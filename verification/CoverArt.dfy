/**
 Cover art as an ffmetadata file: a FLAC picture block (section 8.8 of RFC 9639) in base64 (section 4 of
 RFC 4648), its padding escaped. The reading direction, which the program leaves to ffmpeg, is written
 out here so that the printer can be proved to lose nothing.
 */
module CoverArt {
  import opened Prelude
  import opened JpegWalk

  // ----- Base64 -----

  function Symbol(v: nat): char
    requires v < 64
  {
    if v < 26 then ('A' as int + v) as char
    else if v < 52 then ('a' as int + v - 26) as char
    else if v < 62 then ('0' as int + v - 52) as char
    else if v == 62 then '+' else '/'
  }

  function SymbolValue(c: char): Option<nat> {
    if 'A' <= c <= 'Z' then Some(c as int - 'A' as int)
    else if 'a' <= c <= 'z' then Some(c as int - 'a' as int + 26)
    else if '0' <= c <= '9' then Some(c as int - '0' as int + 52)
    else if c == '+' then Some(62) else if c == '/' then Some(63) else None
  }

  lemma SymbolRoundTrip(v: nat)
    requires v < 64
    ensures SymbolValue(Symbol(v)) == Some(v)
    ensures Symbol(v) != '=' && Symbol(v) != '\\' && Symbol(v) != '\n'
  {
  }

  /** The alphabet of section 4 of RFC 4648 in ASCII codes: A to Z, a to z, 0 to 9, plus and slash. */
  lemma SymbolCodes(v: nat)
    requires v < 64
    ensures Symbol(v) as int ==
      if v < 26 then 65 + v else if v < 52 then 97 + (v - 26) else if v < 62 then 48 + (v - 52)
      else if v == 62 then 43 else 47
  {
  }

  /** The symbols, without padding. */
  function Symbols(b: Bytes): string {
    if |b| == 0 then ""
    else if |b| == 1 then [Symbol(b[0] / 4), Symbol(b[0] % 4 * 16)]
    else if |b| == 2 then [Symbol(b[0] / 4), Symbol(b[0] % 4 * 16 + b[1] / 16), Symbol(b[1] % 16 * 4)]
    else [Symbol(b[0] / 4), Symbol(b[0] % 4 * 16 + b[1] / 16), Symbol(b[1] % 16 * 4 + b[2] / 64), Symbol(b[2] % 64)]
         + Symbols(b[3..])
  }

  function Padding(n: nat): nat {
    if n % 3 == 0 then 0 else 3 - n % 3
  }

  function Repeat(c: char, n: nat): (s: string)
    ensures |s| == n && forall k :: 0 <= k < n ==> s[k] == c
  {
    seq(n, _ => c)
  }

  function Encode(b: Bytes): string {
    Symbols(b) + Repeat('=', Padding(|b|))
  }

  /** Strict decoding: whole groups of four, padding only at the end, unused bits zero. */
  function Decode(s: string): Option<Bytes> {
    if s == "" then Some([])
    else if |s| < 4 then None
    else
      var v0, v1, v2, v3 := SymbolValue(s[0]), SymbolValue(s[1]), SymbolValue(s[2]), SymbolValue(s[3]);
      if v0.None? || v1.None? then None
      else if |s| == 4 && s[2] == '=' && s[3] == '=' && v1.value % 16 == 0 then
        Some([(v0.value * 4 + v1.value / 16) % 256])
      else if v2.None? then None
      else if |s| == 4 && s[3] == '=' && v2.value % 4 == 0 then
        Some([(v0.value * 4 + v1.value / 16) % 256, (v1.value % 16 * 16 + v2.value / 4) % 256])
      else if v3.None? then None
      else
        match Decode(s[4..])
        case None => None
        case Some(rest) =>
          Some([(v0.value * 4 + v1.value / 16) % 256, (v1.value % 16 * 16 + v2.value / 4) % 256,
                (v2.value % 4 * 64 + v3.value) % 256] + rest)
  }

  /** Three bytes cut into four sixes come back together. */
  lemma GroupRoundTrip(a: Byte, b: Byte, c: Byte)
    ensures a / 4 < 64 && a % 4 * 16 + b / 16 < 64 && b % 16 * 4 + c / 64 < 64 && c % 64 < 64
    ensures a / 4 * 4 + (a % 4 * 16 + b / 16) / 16 == a
    ensures (a % 4 * 16 + b / 16) % 16 * 16 + (b % 16 * 4 + c / 64) / 4 == b
    ensures (b % 16 * 4 + c / 64) % 4 * 64 + c % 64 == c
  {
  }

  lemma DecodeOne(a: Byte, s: string)
    requires s == [Symbol(a / 4), Symbol(a % 4 * 16), '=', '=']
    ensures Decode(s) == Some([a])
  {
    SymbolRoundTrip(a / 4);
    SymbolRoundTrip(a % 4 * 16);
    GroupRoundTrip(a, 0, 0);
  }

  /** A last group of three symbols decodes to two bytes. */
  lemma DecodeThree(s: string, v0: nat, v1: nat, v2: nat)
    requires |s| == 4 && v0 < 64 && v1 < 64 && v2 < 64 && v2 % 4 == 0
    requires SymbolValue(s[0]) == Some(v0) && SymbolValue(s[1]) == Some(v1) && SymbolValue(s[2]) == Some(v2)
    requires s[2] != '=' && s[3] == '='
    ensures Decode(s) == Some([(v0 * 4 + v1 / 16) % 256, (v1 % 16 * 16 + v2 / 4) % 256])
  {
  }

  lemma PairRoundTrip(a: Byte, b: Byte)
    ensures a % 4 * 16 + b / 16 < 64 && b % 16 * 4 < 64
    ensures b % 16 * 4 % 4 == 0 && b % 16 * 4 / 4 == b % 16
    ensures (a / 4 * 4 + (a % 4 * 16 + b / 16) / 16) % 256 == a
    ensures ((a % 4 * 16 + b / 16) % 16 * 16 + b % 16 * 4 / 4) % 256 == b
  {
    GroupRoundTrip(a, b, 0);
  }

  lemma DecodeTwo(a: Byte, b: Byte, v1: nat, v2: nat, s: string)
    requires v1 == a % 4 * 16 + b / 16 && v2 == b % 16 * 4 && v1 < 64 && v2 < 64
    requires s == [Symbol(a / 4), Symbol(v1), Symbol(v2), '=']
    ensures Decode(s) == Some([a, b])
  {
    PairRoundTrip(a, b);
    SymbolRoundTrip(a / 4);
    SymbolRoundTrip(v1);
    SymbolRoundTrip(v2);
    DecodeThree(s, a / 4, v1, v2);
  }

  /** A full group of four symbols decodes to three bytes and then the rest. */
  lemma DecodeFour(s: string, v0: nat, v1: nat, v2: nat, v3: nat)
    requires |s| >= 4 && v0 < 64 && v1 < 64 && v2 < 64 && v3 < 64
    requires SymbolValue(s[0]) == Some(v0) && SymbolValue(s[1]) == Some(v1)
    requires SymbolValue(s[2]) == Some(v2) && SymbolValue(s[3]) == Some(v3)
    requires Decode(s[4..]).Some?
    ensures Decode(s) ==
      Some([(v0 * 4 + v1 / 16) % 256, (v1 % 16 * 16 + v2 / 4) % 256, (v2 % 4 * 64 + v3) % 256] + Decode(s[4..]).value)
  {
  }

  function Group(a: Byte, b: Byte, c: Byte): string {
    GroupRoundTrip(a, b, c);
    [Symbol(a / 4), Symbol(a % 4 * 16 + b / 16), Symbol(b % 16 * 4 + c / 64), Symbol(c % 64)]
  }

  lemma GroupBytes(a: Byte, b: Byte, c: Byte)
    ensures (a / 4 * 4 + (a % 4 * 16 + b / 16) / 16) % 256 == a
    ensures ((a % 4 * 16 + b / 16) % 16 * 16 + (b % 16 * 4 + c / 64) / 4) % 256 == b
    ensures ((b % 16 * 4 + c / 64) % 4 * 64 + c % 64) % 256 == c
  {
    GroupRoundTrip(a, b, c);
  }

  lemma GroupValues(a: Byte, b: Byte, c: Byte)
    ensures a % 4 * 16 + b / 16 < 64 && b % 16 * 4 + c / 64 < 64 && |Group(a, b, c)| == 4
    ensures SymbolValue(Group(a, b, c)[0]) == Some(a / 4) && SymbolValue(Group(a, b, c)[1]) == Some(a % 4 * 16 + b / 16)
    ensures SymbolValue(Group(a, b, c)[2]) == Some(b % 16 * 4 + c / 64) &&
      SymbolValue(Group(a, b, c)[3]) == Some(c % 64)
  {
    GroupRoundTrip(a, b, c);
    SymbolRoundTrip(a / 4);
    SymbolRoundTrip(a % 4 * 16 + b / 16);
    SymbolRoundTrip(b % 16 * 4 + c / 64);
    SymbolRoundTrip(c % 64);
  }

  lemma DecodeGroup(a: Byte, b: Byte, c: Byte, group: string, rest: string)
    requires Decode(rest).Some? && group == Group(a, b, c)
    ensures Decode(group + rest) == Some([a, b, c] + Decode(rest).value)
  {
    GroupValues(a, b, c);
    GroupBytes(a, b, c);
    var s := group + rest;
    assert s[4..] == rest;
    DecodeFour(s, a / 4, a % 4 * 16 + b / 16, b % 16 * 4 + c / 64, c % 64);
  }

  lemma EncodeShort(b: Bytes)
    ensures |b| == 0 ==> Encode(b) == ""
    ensures |b| == 1 ==> (b == [b[0]] && Encode(b) == [Symbol(b[0] / 4), Symbol(b[0] % 4 * 16), '=', '='])
    ensures |b| == 2 ==> b == [b[0], b[1]]
    ensures |b| == 2 ==> Encode(b) == [Symbol(b[0] / 4), Symbol(b[0] % 4 * 16 + b[1] / 16), Symbol(b[1] % 16 * 4), '=']
  {
  }

  lemma EncodeGroup(b: Bytes)
    requires |b| >= 3
    ensures Encode(b) == Group(b[0], b[1], b[2]) + Encode(b[3..]) && b == [b[0], b[1], b[2]] + b[3..]
  {
    assert Padding(|b|) == Padding(|b[3..]|);
  }

  /** Three bytes and the four symbols that stand for them are the same 24-bit number. */
  lemma GroupIsNumber(a: Byte, b: Byte, c: Byte) returns (v0: nat, v1: nat, v2: nat, v3: nat)
    ensures v0 < 64 && v1 < 64 && v2 < 64 && v3 < 64
    ensures Group(a, b, c) == [Symbol(v0), Symbol(v1), Symbol(v2), Symbol(v3)]
    ensures v0 * 0x4_0000 + v1 * 0x1000 + v2 * 64 + v3 == a as int * 0x1_0000 + b as int * 256 + c as int
  {
    GroupRoundTrip(a, b, c);
    v0, v1, v2, v3 := a / 4, a % 4 * 16 + b / 16, b % 16 * 4 + c / 64, c % 64;
    SixesAddUp(a, b, c);
  }

  lemma SixesAddUp(a: int, b: int, c: int)
    ensures a / 4 * 0x4_0000 + (a % 4 * 16 + b / 16) * 0x1000 + (b % 16 * 4 + c / 64) * 64 + c % 64
         == a * 0x1_0000 + b * 256 + c
  {
    assert a == a / 4 * 4 + a % 4;
    assert b == b / 16 * 16 + b % 16;
    assert c == c / 64 * 64 + c % 64;
  }

  /** One or two bytes left over are encoded like a group filled up with zeros, the symbols of nothing else padded. */
  lemma EncodeRest(b: Bytes)
    ensures |b| == 0 ==> Encode(b) == ""
    ensures |b| == 1 ==> Encode(b) == Group(b[0], 0, 0)[..2] + "=="
    ensures |b| == 2 ==> Encode(b) == Group(b[0], b[1], 0)[..3] + "="
    ensures |b| >= 3 ==> Encode(b) == Group(b[0], b[1], b[2]) + Encode(b[3..])
  {
    EncodeShort(b);
    if |b| >= 3 {
      EncodeGroup(b);
    }
  }

  /** Decoding undoes encoding, for every byte string. */
  lemma {:induction false} DecodeEncode(b: Bytes)
    ensures Decode(Encode(b)) == Some(b)
    decreases |b|
  {
    EncodeShort(b);
    if |b| == 1 {
      DecodeOne(b[0], Encode(b));
    } else if |b| == 2 {
      DecodeTwo(b[0], b[1], b[0] % 4 * 16 + b[1] / 16, b[1] % 16 * 4, Encode(b));
    } else if |b| >= 3 {
      DecodeEncode(b[3..]);
      DecodeGroup(b[0], b[1], b[2], Group(b[0], b[1], b[2]), Encode(b[3..]));
      EncodeGroup(b);
    }
  }

  // ----- The picture block -----

  function U32(n: nat): (b: Bytes)
    ensures |b| == 4
  {
    [n / 0x100_0000 % 256, n / 0x1_0000 % 256, n / 256 % 256, n % 256]
  }

  /** The bytes of a number below 2^32, the highest first. */
  lemma U32Bytes(n: nat)
    requires n < 0x1_0000_0000
    ensures var at := (i: int) => if 0 <= i < 4 then U32(n)[i] as int else 0;
      n == at(0) * 0x100_0000 + at(1) * 0x1_0000 + at(2) * 0x100 + at(3)
  {
    var a, b, c := n / 256, n / 0x1_0000, n / 0x100_0000;
    assert b == a / 256 && c == b / 256 && c < 256;
    assert n == 256 * a + n % 256 && a == 256 * b + a % 256 && b == 256 * c + b % 256;
    U32Digits(n);
  }

  lemma U32Digits(n: nat)
    requires n < 0x1_0000_0000
    ensures U32(n)[0] == n / 0x100_0000 && U32(n)[1] == n / 0x1_0000 % 256
    ensures U32(n)[2] == n / 256 % 256 && U32(n)[3] == n % 256
  {
  }

  /** Four big-endian bytes keep a number modulo 2^32. */
  lemma U32RoundTrip(n: nat)
    ensures Be32(U32(n)) == n % 0x1_0000_0000
  {
    var a, b, c := n / 256, n / 0x1_0000, n / 0x100_0000;
    assert b == a / 256 && c == b / 256;
    assert n / 0x1_0000_0000 == c / 256;
  }

  function Mime(image: Bytes): string {
    if |image| >= 4 && image[..4] == [0x89, 0x50, 0x4E, 0x47] then "image/png" else "image/jpeg"
  }

  /** The size written: 0 by 0 when it cannot be read. */
  function Size(image: Bytes): (nat, nat) {
    var size := Dimensions(image);
    if size.Some? then size.value else (0, 0)
  }

  /** Front cover, no description, 24-bit colour, not indexed. */
  function PictureBlock(image: Bytes): Bytes {
    var mime, size := Ascii(Mime(image)), Size(image);
    U32(3) + U32(|mime|) + mime + U32(0) + U32(size.0) + U32(size.1) + U32(24) + U32(0) + U32(|image|) + image
  }

  datatype Picture = Picture(kind: nat, mime: Bytes, description: Bytes, width: nat, height: nat, depth: nat,
                             colours: nat, data: Bytes)

  datatype Cursor<+T> = Cursor(value: T, rest: Bytes)

  function ReadU32(b: Bytes): Option<Cursor<nat>> {
    if |b| < 4 then None else Some(Cursor(Be32(b[..4]), b[4..]))
  }

  /** A length and that many bytes. */
  function ReadBlob(b: Bytes): Option<Cursor<Bytes>> {
    var c :- ReadU32(b);
    if |c.rest| < c.value then None else Some(Cursor(c.rest[..c.value], c.rest[c.value..]))
  }

  /** The fields from the width on: four numbers, then the image with nothing left over. */
  function ParseSizes(b: Bytes): Option<(nat, nat, nat, nat, Bytes)> {
    var width :- ReadU32(b);
    var height :- ReadU32(width.rest);
    var depth :- ReadU32(height.rest);
    var colours :- ReadU32(depth.rest);
    var data :- ReadBlob(colours.rest);
    if data.rest != [] then None else Some((width.value, height.value, depth.value, colours.value, data.value))
  }

  /** A whole picture block. */
  function ParsePicture(b: Bytes): Option<Picture> {
    var kind :- ReadU32(b);
    var mime :- ReadBlob(kind.rest);
    var description :- ReadBlob(mime.rest);
    var sizes :- ParseSizes(description.rest);
    Some(Picture(kind.value, mime.value, description.value, sizes.0, sizes.1, sizes.2, sizes.3, sizes.4))
  }

  /** `w` is `n` in four big-endian bytes. */
  predicate Holds(w: Bytes, n: nat) {
    |w| == 4 && Be32(w) == n
  }

  lemma ReadU32At(w: Bytes, n: nat, rest: Bytes)
    requires Holds(w, n)
    ensures ReadU32(w + rest) == Some(Cursor(n, rest))
  {
    assert (w + rest)[..4] == w && (w + rest)[4..] == rest;
  }

  lemma ReadBlobAt(w: Bytes, blob: Bytes, rest: Bytes)
    requires Holds(w, |blob|)
    ensures ReadBlob(w + (blob + rest)) == Some(Cursor(blob, rest))
  {
    ReadU32At(w, |blob|, blob + rest);
    assert (blob + rest)[..|blob|] == blob && (blob + rest)[|blob|..] == rest;
  }

  /** An image too long for its length field is refused rather than cut. */
  lemma ReadImage(w: Bytes, image: Bytes)
    requires Holds(w, |image| % 0x1_0000_0000)
    ensures |image| < 0x1_0000_0000 ==> ReadBlob(w + image) == Some(Cursor(image, []))
    ensures |image| >= 0x1_0000_0000 ==> (ReadBlob(w + image).Some? && ReadBlob(w + image).value.rest != [])
  {
    var n := |image| % 0x1_0000_0000;
    ReadU32At(w, n, image);
    assert n < 0x1_0000_0000;
    assert |image[n..]| == |image| - n;
    if |image| < 0x1_0000_0000 {
      assert image[..n] == image && image[n..] == [];
    }
  }

  lemma ParseSizesSteps(b: Bytes, c1: Cursor<nat>, c2: Cursor<nat>, c3: Cursor<nat>, c4: Cursor<nat>)
    requires ReadU32(b) == Some(c1) && ReadU32(c1.rest) == Some(c2)
    requires ReadU32(c2.rest) == Some(c3) && ReadU32(c3.rest) == Some(c4)
    ensures var data := ReadBlob(c4.rest);
      ParseSizes(b) == if data.None? || data.value.rest != [] then None
                       else Some((c1.value, c2.value, c3.value, c4.value, data.value.value))
  {
  }

  lemma ParseSizesOf(w1: Bytes, w2: Bytes, w3: Bytes, w4: Bytes, w5: Bytes, width: nat, height: nat, image: Bytes)
    requires Holds(w1, width) && Holds(w2, height) && Holds(w3, 24) && Holds(w4, 0) &&
      Holds(w5, |image| % 0x1_0000_0000)
    ensures ParseSizes(w1 + (w2 + (w3 + (w4 + (w5 + image))))) ==
      if |image| < 0x1_0000_0000 then Some((width, height, 24, 0, image)) else None
  {
    var t1 := w5 + image;
    var t2 := w4 + t1;
    var t3 := w3 + t2;
    var t4 := w2 + t3;
    ReadU32At(w1, width, t4);
    ReadU32At(w2, height, t3);
    ReadU32At(w3, 24, t2);
    ReadU32At(w4, 0, t1);
    ReadImage(w5, image);
    ParseSizesSteps(w1 + t4, Cursor(width, t4), Cursor(height, t3), Cursor(24, t2), Cursor(0, t1));
  }

  lemma ParseLead(w1: Bytes, w2: Bytes, w3: Bytes, mime: Bytes, rest: Bytes)
    requires Holds(w1, 3) && Holds(w2, |mime|) && Holds(w3, 0)
    ensures var sizes := ParseSizes(rest);
      ParsePicture(w1 + (w2 + (mime + (w3 + rest)))) == if sizes.None? then None
        else Some(Picture(3, mime, [], sizes.value.0, sizes.value.1, sizes.value.2, sizes.value.3, sizes.value.4))
  {
    ReadU32At(w1, 3, w2 + (mime + (w3 + rest)));
    ReadBlobAt(w2, mime, w3 + rest);
    ReadBlobAt(w3, [], rest);
    assert [] + rest == rest;
  }

  lemma Regroup(w1: Bytes, w2: Bytes, mime: Bytes, w3: Bytes, w4: Bytes, w5: Bytes, w6: Bytes, w7: Bytes, w8: Bytes,
                image: Bytes)
    ensures w1 + w2 + mime + w3 + w4 + w5 + w6 + w7 + w8 + image ==
            w1 + (w2 + (mime + (w3 + (w4 + (w5 + (w6 + (w7 + (w8 + image))))))))
  {
  }

  /** A block of these fields gives back the image if and only if its length fits the length field. */
  lemma ParseFields(w1: Bytes, w2: Bytes, mime: Bytes, w3: Bytes, w4: Bytes, w5: Bytes, w6: Bytes, w7: Bytes, w8: Bytes,
                    width: nat, height: nat, image: Bytes)
    requires Holds(w1, 3) && Holds(w2, |mime|) && Holds(w3, 0)
    requires Holds(w4, width) && Holds(w5, height) && Holds(w6, 24) && Holds(w7, 0) &&
      Holds(w8, |image| % 0x1_0000_0000)
    ensures ParsePicture(w1 + w2 + mime + w3 + w4 + w5 + w6 + w7 + w8 + image) ==
      if |image| < 0x1_0000_0000 then Some(Picture(3, mime, [], width, height, 24, 0, image)) else None
  {
    Regroup(w1, w2, mime, w3, w4, w5, w6, w7, w8, image);
    ParseLead(w1, w2, w3, mime, w4 + (w5 + (w6 + (w7 + (w8 + image)))));
    ParseSizesOf(w4, w5, w6, w7, w8, width, height, image);
  }

  lemma Be16Bound(a: Byte, b: Byte)
    ensures Be16(a, b) < 0x1_0000
  {
  }

  lemma Be32Bound(b: Bytes)
    requires |b| == 4
    ensures Be32(b) < 0x1_0000_0000
  {
  }

  lemma {:induction false} WalkBound(data: Bytes, i: nat)
    ensures var size := Walk(data, i);
      size.Some? ==> (size.value.0 < 0x1_0000 && size.value.1 < 0x1_0000)
    decreases |data| - i
  {
    if i + 8 < |data| && data[i] == 0xFF {
      var j := SkipFill(data, i);
      if j + 8 < |data| {
        Be16Bound(data[j + 7], data[j + 8]);
        Be16Bound(data[j + 5], data[j + 6]);
        var len := Be16(data[j + 2], data[j + 3]);
        if len >= 2 {
          WalkBound(data, j + 2 + len);
        }
      }
    }
  }

  lemma SizeBound(image: Bytes)
    ensures Size(image).0 < 0x1_0000_0000 && Size(image).1 < 0x1_0000_0000
  {
    if |image| >= 24 {
      Be32Bound(image[16..20]);
      Be32Bound(image[20..24]);
    }
    WalkBound(image, 2);
  }

  lemma U32Holds(n: nat)
    ensures Holds(U32(n), n % 0x1_0000_0000)
    ensures n < 0x1_0000_0000 ==> Holds(U32(n), n)
  {
    U32RoundTrip(n);
  }

  /** The picture the block of `image` stands for. */
  function Cover(image: Bytes): Picture {
    Picture(3, Ascii(Mime(image)), [], Size(image).0, Size(image).1, 24, 0, image)
  }

  /** A front cover of 24 bits, no description, no palette, of the type its first bytes tell, its size if known. */
  lemma CoverFields(image: Bytes)
    ensures var c, png := Cover(image), |image| >= 4 && image[..4] == [0x89, 0x50, 0x4E, 0x47];
      && c.kind == 3 && c.description == [] && c.depth == 24 && c.colours == 0 && c.data == image
      && c.mime == Ascii(if png then "image/png" else "image/jpeg")
      && (c.width, c.height) == (if Dimensions(image).Some? then Dimensions(image).value else (0, 0))
  {
  }

  /** Where the block keeps its fields: numbers of four bytes, but for the type and the image. */
  lemma BlockLayout(image: Bytes)
    ensures var block, mime, m := PictureBlock(image), Ascii(Mime(image)), |Mime(image)|;
      && |block| == 32 + m + |image|
      && block[..4] == U32(3) && block[4..8] == U32(m) && block[8..8 + m] == mime && block[8 + m..12 + m] == U32(0)
      && block[12 + m..16 + m] == U32(Size(image).0) && block[16 + m..20 + m] == U32(Size(image).1)
      && block[20 + m..24 + m] == U32(24) && block[24 + m..28 + m] == U32(0) && block[28 + m..32 + m] == U32(|image|)
      && block[32 + m..] == image
  {
    var mime, size := Ascii(Mime(image)), Size(image);
    NinePieces(PictureBlock(image), U32(3), U32(|mime|), mime, U32(0), U32(size.0), U32(size.1), U32(24), U32(0),
               U32(|image|), image);
  }

  lemma NinePieces(block: Bytes, w1: Bytes, w2: Bytes, mime: Bytes, w3: Bytes, w4: Bytes, w5: Bytes, w6: Bytes,
                   w7: Bytes, w8: Bytes, image: Bytes)
    requires |w1| == 4 && |w2| == 4 && |w3| == 4 && |w4| == 4 && |w5| == 4 && |w6| == 4 && |w7| == 4 && |w8| == 4
    requires block == w1 + w2 + mime + w3 + w4 + w5 + w6 + w7 + w8 + image
    ensures var m := |mime|;
      && |block| == 32 + m + |image|
      && block[..4] == w1 && block[4..8] == w2 && block[8..8 + m] == mime && block[8 + m..12 + m] == w3
      && block[12 + m..16 + m] == w4 && block[16 + m..20 + m] == w5 && block[20 + m..24 + m] == w6
      && block[24 + m..28 + m] == w7 && block[28 + m..32 + m] == w8 && block[32 + m..] == image
  {
  }

  /** The block reads back, the image unchanged, exactly when the image is under 2^32 bytes. */
  lemma BlockRoundTrip(image: Bytes)
    ensures ParsePicture(PictureBlock(image)) == if |image| < 0x1_0000_0000 then Some(Cover(image)) else None
  {
    var mime, size := Ascii(Mime(image)), Size(image);
    SizeBound(image);
    U32Holds(3);
    U32Holds(|mime|);
    U32Holds(0);
    U32Holds(size.0);
    U32Holds(size.1);
    U32Holds(24);
    U32Holds(|image|);
    ParseFields(U32(3), U32(|mime|), mime, U32(0), U32(size.0), U32(size.1), U32(24), U32(0), U32(|image|),
                size.0, size.1, image);
  }

  // ----- The ffmetadata file -----

  function Header(): string {
    ";FFMETADATA1\n"
  }

  function Key(): string {
    "METADATA_BLOCK_PICTURE"
  }

  function Prefix(): string {
    Header() + Key() + "="
  }

  /** The padding's equals signs escaped, the way the file format asks. */
  function Escapes(n: nat): string {
    if n == 0 then "" else "\\=" + Escapes(n - 1)
  }

  lemma {:induction false} EscapesSnoc(n: nat)
    ensures Escapes(n + 1) == Escapes(n) + "\\="
  {
    if n > 0 {
      EscapesSnoc(n - 1);
    }
  }

  function File(block: Bytes): string {
    Prefix() + Symbols(block) + Escapes(Padding(|block|)) + "\n"
  }

  function Ffmetadata(image: Bytes): string {
    File(PictureBlock(image))
  }

  lemma {:induction false} SymbolsArePlain(b: Bytes)
    ensures forall k :: 0 <= k < |Symbols(b)| ==> Symbols(b)[k] != '=' && Symbols(b)[k] != '\\' && Symbols(b)[k] != '\n'
    decreases |b|
  {
    if |b| >= 3 {
      GroupRoundTrip(b[0], b[1], b[2]);
      SymbolsArePlain(b[3..]);
    }
  }

  lemma PrefixThenSymbols(b: Bytes)
    ensures var body := Prefix() + Symbols(b);
      body != "" && Prefix() + Encode(b) == body + Repeat('=', Padding(|b|)) &&
      (body[|body| - 1] == '=' <==> b == [])
  {
    SymbolsArePlain(b);
  }

  lemma BlockParts(block: Bytes, image: Bytes, width: nat, height: nat)
    requires (width, height) == Size(image)
    requires block == U32(3) + U32(|Mime(image)|) + Ascii(Mime(image))
                      + (U32(0) + U32(width) + U32(height) + U32(24) + U32(0) + U32(|image|)) + image
    ensures block == PictureBlock(image) && block != []
  {
  }

  /** Replaces the run of equals signs at the end by escaped ones. */
  method EscapePadding(text: string, ghost body: string, ghost n: nat) returns (out: string)
    requires text == body + Repeat('=', n) && (body == "" || body[|body| - 1] != '=')
    ensures out == body + Escapes(n)
  {
    var pad := 0;
    while pad < |text| && text[|text| - 1 - pad] == '='
      invariant pad <= n
    {
      pad := pad + 1;
    }
    assert pad == n;
    out := text[..|text| - pad];
    for i := 0 to pad
      invariant out == body + Escapes(i)
    {
      EscapesSnoc(i);
      out := out + "\\=";
    }
  }

  method FlacPictureFfmetadata(image: Bytes) returns (out: string)
    ensures out == Ffmetadata(image)
  {
    var mime := Mime(image);
    var size := ImageDimensions(image);
    var (width, height) := if size.Some? then size.value else (0, 0);
    var block: Bytes := U32(3) + U32(|mime|);
    block := block + Ascii(mime);
    block := block + U32(0) + U32(width) + U32(height) + U32(24) + U32(0) + U32(|image|);
    block := block + image;
    BlockParts(block, image, width, height);
    out := Prefix() + Encode(block);
    PrefixThenSymbols(block);
    out := EscapePadding(out, Prefix() + Symbols(block), Padding(|block|));
    out := out + "\n";
  }

  /** The file's text: its header, the one key, the symbols, the padding escaped, and a line end. */
  lemma FileText(image: Bytes)
    ensures var block := PictureBlock(image);
      Ffmetadata(image) == ";FFMETADATA1\nMETADATA_BLOCK_PICTURE=" + Symbols(block) + EscapedPadding(|block|) + "\n"
  {
    BlockText(PictureBlock(image), ";FFMETADATA1\nMETADATA_BLOCK_PICTURE=");
  }

  /** What stands for the padding of `n` bytes. */
  function EscapedPadding(n: nat): string {
    if n % 3 == 0 then "" else if n % 3 == 2 then "\\=" else "\\=\\="
  }

  /** And the encoding itself has those equals signs unescaped. */
  lemma PaddingText(b: Bytes)
    ensures Encode(b) == Symbols(b) + (if |b| % 3 == 0 then "" else if |b| % 3 == 2 then "=" else "==")
  {
    PaddingIs(|b|);
    assert forall n: nat :: n <= 2 ==> Repeat('=', n) == if n == 0 then "" else if n == 1 then "=" else "==";
  }

  lemma BlockText(block: Bytes, start: string)
    requires start == ";FFMETADATA1\nMETADATA_BLOCK_PICTURE="
    ensures File(block) == start + Symbols(block) + EscapedPadding(|block|) + "\n"
  {
    PrefixText(start);
    PaddingIs(|block|);
    EscapesFew(Padding(|block|));
  }

  lemma PrefixText(start: string)
    requires start == ";FFMETADATA1\nMETADATA_BLOCK_PICTURE="
    ensures Prefix() == start
  {
  }

  lemma PaddingIs(n: nat)
    ensures Padding(n) <= 2 && (n + Padding(n)) % 3 == 0
  {
  }

  lemma EscapesFew(n: nat)
    requires n <= 2
    ensures Escapes(n) == if n == 0 then "" else if n == 1 then "\\=" else "\\=\\="
  {
    if n == 2 {
      assert Escapes(1) == "\\=" + Escapes(0);
    }
  }

  // ----- Reading the file -----

  /** The text up to the first unescaped `stop`, its escapes undone, and what follows that stop. */
  function ReadUpTo(s: string, stop: char): Option<(string, string)> {
    if s == "" then None
    else if s[0] == stop then Some(("", s[1..]))
    else if s[0] == '\\' then
      if |s| < 2 then None else
        var tail :- ReadUpTo(s[2..], stop);
        Some(([s[1]] + tail.0, tail.1))
    else
      var tail :- ReadUpTo(s[1..], stop);
      Some(([s[0]] + tail.0, tail.1))
  }

  /** The cover in a file whose one tag is a picture block. */
  function ReadCover(file: string): Option<Picture> {
    if |file| < |Header()| || file[..|Header()|] != Header() then None
    else
      var key :- ReadUpTo(file[|Header()|..], '=');
      var value :- ReadUpTo(key.1, '\n');
      var block :- Decode(value.0);
      if key.0 != Key() || value.1 != "" then None else ParsePicture(block)
  }

  lemma {:induction false} ReadPlain(text: string, stop: char, rest: string)
    requires ReadUpTo(rest, stop).Some?
    requires forall k :: 0 <= k < |text| ==> text[k] != stop && text[k] != '\\'
    ensures ReadUpTo(text + rest, stop) == Some((text + ReadUpTo(rest, stop).value.0, ReadUpTo(rest, stop).value.1))
  {
    if text == "" {
      assert text + rest == rest && text + ReadUpTo(rest, stop).value.0 == ReadUpTo(rest, stop).value.0;
    } else {
      ReadPlain(text[1..], stop, rest);
      assert (text + rest)[1..] == text[1..] + rest;
      assert [text[0]] + (text[1..] + ReadUpTo(rest, stop).value.0) == text + ReadUpTo(rest, stop).value.0;
    }
  }

  lemma ReadEscaped(s: string)
    requires ReadUpTo(s, '\n').Some?
    ensures ReadUpTo("\\=" + s, '\n') == Some((['='] + ReadUpTo(s, '\n').value.0, ReadUpTo(s, '\n').value.1))
  {
    assert ("\\=" + s)[2..] == s;
  }

  lemma {:induction false} ReadEscapes(n: nat)
    ensures ReadUpTo(Escapes(n) + "\n", '\n') == Some((Repeat('=', n), ""))
  {
    if n == 0 {
      assert Escapes(n) + "\n" == "\n" && Repeat('=', n) == "" && "\n"[1..] == "";
    } else {
      ReadEscapes(n - 1);
      ReadEscaped(Escapes(n - 1) + "\n");
      assert Escapes(n) + "\n" == "\\=" + (Escapes(n - 1) + "\n");
      assert ['='] + Repeat('=', n - 1) == Repeat('=', n);
    }
  }

  lemma ReadValue(b: Bytes)
    ensures ReadUpTo(Symbols(b) + (Escapes(Padding(|b|)) + "\n"), '\n') == Some((Encode(b), ""))
  {
    SymbolsArePlain(b);
    ReadEscapes(Padding(|b|));
    ReadPlain(Symbols(b), '\n', Escapes(Padding(|b|)) + "\n");
  }

  lemma KeyIsPlain()
    ensures forall k :: 0 <= k < |Key()| ==> Key()[k] != '=' && Key()[k] != '\\'
  {
  }

  lemma ReadKey(rest: string)
    ensures ReadUpTo(Key() + ("=" + rest), '=') == Some((Key(), rest))
  {
    KeyIsPlain();
    assert ("=" + rest)[1..] == rest;
    ReadPlain(Key(), '=', "=" + rest);
    assert Key() + "" == Key();
  }

  lemma ReadLead(file: string, rest: string)
    requires file == Header() + (Key() + ("=" + rest))
    ensures forall text, b :: ReadUpTo(rest, '\n') == Some((text, "")) && Decode(text) == Some(b) ==>
      ReadCover(file) == ParsePicture(b)
  {
    ReadKey(rest);
    assert file[..|Header()|] == Header();
    assert file[|Header()|..] == Key() + ("=" + rest);
  }

  lemma ReadFile(block: Bytes)
    ensures ReadCover(File(block)) == ParsePicture(block)
  {
    var value := Symbols(block) + (Escapes(Padding(|block|)) + "\n");
    ReadLead(File(block), value);
    ReadValue(block);
    DecodeEncode(block);
  }

  /**
   The file is undone by unescaping it, decoding base64 and parsing the block: every image comes back
   unchanged, with its type and size, exactly when it is under 2^32 bytes.
   */
  lemma CoverRoundTrip(image: Bytes)
    ensures ReadCover(Ffmetadata(image)) == if |image| < 0x1_0000_0000 then Some(Cover(image)) else None
  {
    ReadFile(PictureBlock(image));
    BlockRoundTrip(image);
  }
}
