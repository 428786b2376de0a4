/** Picture sizes read straight from PNG and JPEG bytes. */
module JpegWalk {
  import opened Prelude

  function Be16(a: Byte, b: Byte): nat {
    256 * a + b
  }

  function Be32(b: Bytes): nat
    requires |b| == 4
  {
    var b0: int, b1: int, b2: int, b3: int := b[0], b[1], b[2], b[3];
    0x100_0000 * b0 + 0x1_0000 * b1 + 256 * b2 + b3
  }

  /** The PNG signature. */
  function PngSignature(): Bytes {
    [0x89, 0x50, 0x4E, 0x47, 0x0D, 0x0A, 0x1A, 0x0A]
  }

  /** Last of a run of 0xFF bytes starting at `i`. */
  function SkipFill(data: Bytes, i: nat): (j: nat)
    ensures i <= j && (i < |data| ==> j < |data|)
    decreases |data| - i
  {
    if i + 1 < |data| && data[i + 1] == 0xFF then SkipFill(data, i + 1) else i
  }

  predicate IsFrame(marker: Byte) {
    0xC0 <= marker <= 0xC2
  }

  /** Walks segments from `i` to the first baseline, extended or progressive frame header. */
  function Walk(data: Bytes, i: nat): Option<(nat, nat)>
    decreases |data| - i
  {
    if i + 8 >= |data| || data[i] != 0xFF then None
    else
      var j := SkipFill(data, i);
      if j + 8 >= |data| then None
      else if IsFrame(data[j + 1]) then Some((Be16(data[j + 7], data[j + 8]), Be16(data[j + 5], data[j + 6])))
      else if data[j + 1] == 0xDA || data[j + 1] == 0xD9 then None
      else
        var len := Be16(data[j + 2], data[j + 3]);
        if len < 2 then None else Walk(data, j + 2 + len)
  }

  function Dimensions(data: Bytes): Option<(nat, nat)> {
    if |data| >= 24 && data[..8] == PngSignature() then Some((Be32(data[16..20]), Be32(data[20..24])))
    else if |data| >= 2 && data[..2] == [0xFF, 0xD8] then Walk(data, 2)
    else None
  }

  /** The program's loops; every index they use is in bounds, and they end. */
  method ImageDimensions(data: Bytes) returns (size: Option<(nat, nat)>)
    ensures size == Dimensions(data)
  {
    if |data| >= 24 && data[..8] == PngSignature() {
      return Some((Be32(data[16..20]), Be32(data[20..24])));
    }
    if |data| >= 2 && data[..2] == [0xFF, 0xD8] {
      var i := 2;
      while i + 8 < |data| && data[i] == 0xFF
        invariant Walk(data, 2) == Walk(data, i)
        decreases |data| - i
      {
        ghost var start := i;
        while i + 1 < |data| && data[i + 1] == 0xFF
          invariant start <= i < |data| && SkipFill(data, start) == SkipFill(data, i)
          decreases |data| - i
        {
          i := i + 1;
        }
        if i + 8 >= |data| {
          return None;
        }
        if 0xC0 <= data[i + 1] <= 0xC2 {
          var height := Be16(data[i + 5], data[i + 6]);
          var width := Be16(data[i + 7], data[i + 8]);
          return Some((width, height));
        }
        if data[i + 1] == 0xDA || data[i + 1] == 0xD9 {
          return None;
        }
        var len := Be16(data[i + 2], data[i + 3]);
        if len < 2 {
          return None;
        }
        i := i + 2 + len;
      }
    }
    return None;
  }

  // ----- JPEGs as they are written -----

  /** A segment that carries its own length, with fill bytes before its marker. */
  datatype Segment = Segment(fill: nat, marker: Byte, payload: Bytes)

  predicate Carries(s: Segment) {
    && !(0xC0 <= s.marker <= 0xC2) && s.marker != 0xDA && s.marker != 0xD9 && s.marker != 0xFF
    && |s.payload| + 2 < 0x1_0000
  }

  function Fill(n: nat): (f: Bytes)
    ensures |f| == n && forall k :: 0 <= k < n ==> f[k] == 0xFF
  {
    seq(n, _ => 0xFF)
  }

  function Put16(n: nat): Bytes
    requires n < 0x1_0000
  {
    [n / 256, n % 256]
  }

  function Written(s: Segment): Bytes
    requires Carries(s)
  {
    [0xFF] + Fill(s.fill) + [s.marker] + Put16(|s.payload| + 2) + s.payload
  }

  function AllWritten(segments: seq<Segment>): Bytes
    requires forall s :: s in segments ==> Carries(s)
  {
    if segments == [] then [] else Written(segments[0]) + AllWritten(segments[1..])
  }

  /** The frame header: its length and precision do not matter here. */
  function Frame(fill: nat, marker: Byte, length: nat, precision: Byte, width: nat, height: nat): Bytes
    requires length < 0x1_0000 && width < 0x1_0000 && height < 0x1_0000
  {
    [0xFF] + Fill(fill) + [marker] + Put16(length) + [precision] + Put16(height) + Put16(width)
  }

  lemma {:induction false} SkipFillAt(data: Bytes, i: nat, n: nat)
    requires i + n + 1 < |data| && data[i + n + 1] != 0xFF
    requires forall k :: i < k <= i + n ==> data[k] == 0xFF
    ensures SkipFill(data, i) == i + n
    decreases n
  {
    if n > 0 {
      SkipFillAt(data, i + 1, n - 1);
    }
  }

  /** `w` is written at index `i` of `data`. */
  predicate SitsAt(data: Bytes, i: nat, w: Bytes) {
    i + |w| <= |data| && data[i..i + |w|] == w
  }

  lemma SitsAtIndex(data: Bytes, i: nat, w: Bytes, k: nat)
    requires SitsAt(data, i, w) && k < |w|
    ensures data[i + k] == w[k]
  {
    assert data[i..i + |w|][k] == data[i + k];
  }

  lemma SitsAtParts(data: Bytes, i: nat, v: Bytes, w: Bytes)
    requires SitsAt(data, i, v + w)
    ensures SitsAt(data, i, v) && SitsAt(data, i + |v|, w)
  {
    var both := data[i..i + |v| + |w|];
    assert data[i..i + |v|] == both[..|v|] == v;
    assert data[i + |v|..i + |v| + |w|] == both[|v|..] == w;
  }

  /** The marker code of a segment is found behind its fill bytes. */
  lemma MarkerBehindFill(data: Bytes, i: nat, fill: nat, marker: Byte)
    requires SitsAt(data, i, [0xFF] + Fill(fill) + [marker]) && marker != 0xFF
    ensures data[i] == 0xFF && SkipFill(data, i) == i + fill && data[i + fill + 1] == marker
  {
    var w := [0xFF] + Fill(fill) + [marker];
    SitsAtIndex(data, i, w, 0);
    SitsAtIndex(data, i, w, fill + 1);
    forall k | i < k <= i + fill ensures data[k] == 0xFF {
      SitsAtIndex(data, i, w, k - i);
    }
    SkipFillAt(data, i, fill);
  }

  lemma NumberAt(data: Bytes, i: nat, n: nat)
    requires n < 0x1_0000 && SitsAt(data, i, Put16(n))
    ensures Be16(data[i], data[i + 1]) == n
  {
    SitsAtIndex(data, i, Put16(n), 0);
    SitsAtIndex(data, i, Put16(n), 1);
  }

  predicate Finds(data: Bytes, i: nat, size: Option<(nat, nat)>) {
    Walk(data, i) == size
  }

  /** The walk finds the same size from `i` as from `j`. */
  ghost predicate Leads(data: Bytes, i: nat, j: nat) {
    forall size :: Finds(data, i, size) <==> Finds(data, j, size)
  }

  lemma LeadsOn(data: Bytes, i: nat, j: nat, k: nat)
    requires Leads(data, i, j) && Leads(data, j, k)
    ensures Leads(data, i, k)
  {
  }

  /** Where a written segment keeps its marker and its length. */
  lemma SegmentAt(data: Bytes, i: nat, s: Segment)
    requires Carries(s) && SitsAt(data, i, Written(s))
    ensures var j := i + s.fill;
      |Written(s)| == s.fill + 4 + |s.payload| && j + 3 < |data| && data[i] == 0xFF && SkipFill(data, i) == j &&
      data[j + 1] == s.marker && Be16(data[j + 2], data[j + 3]) == |s.payload| + 2
  {
    var lead := [0xFF] + Fill(s.fill) + [s.marker];
    var number := Put16(|s.payload| + 2);
    SitsAtParts(data, i, lead + number, s.payload);
    SitsAtParts(data, i, lead, number);
    MarkerBehindFill(data, i, s.fill, s.marker);
    NumberAt(data, i + s.fill + 2, |s.payload| + 2);
  }

  /** The walk steps over one length-carrying segment. */
  lemma WalkSegment(data: Bytes, i: nat, s: Segment)
    requires Carries(s) && SitsAt(data, i, Written(s)) && i + |Written(s)| + 8 <= |data|
    ensures Leads(data, i, i + |Written(s)|)
  {
    SegmentAt(data, i, s);
  }

  lemma WalkFrame(data: Bytes, i: nat, fill: nat, marker: Byte, length: nat, precision: Byte, width: nat, height: nat)
    requires 0xC0 <= marker <= 0xC2 && length < 0x1_0000 && width < 0x1_0000 && height < 0x1_0000
    requires SitsAt(data, i, Frame(fill, marker, length, precision, width, height))
    ensures Walk(data, i) == Some((width, height))
  {
    var lead := [0xFF] + Fill(fill) + [marker];
    var h, w := Put16(height), Put16(width);
    SitsAtParts(data, i, lead + Put16(length) + [precision] + h, w);
    SitsAtParts(data, i, lead + Put16(length) + [precision], h);
    SitsAtParts(data, i, lead + Put16(length), [precision]);
    SitsAtParts(data, i, lead, Put16(length));
    MarkerBehindFill(data, i, fill, marker);
    NumberAt(data, i + fill + 5, height);
    NumberAt(data, i + fill + 7, width);
  }

  /** `segments` are written one after another between `i` and `end`. */
  predicate WrittenFrom(data: Bytes, i: nat, end: nat, segments: seq<Segment>)
    requires forall s :: s in segments ==> Carries(s)
  {
    SitsAt(data, i, AllWritten(segments)) && i + |AllWritten(segments)| == end
  }

  lemma WrittenFromNext(data: Bytes, i: nat, end: nat, segments: seq<Segment>)
    requires forall s :: s in segments ==> Carries(s)
    requires segments != [] && WrittenFrom(data, i, end, segments)
    ensures SitsAt(data, i, Written(segments[0])) && i + |Written(segments[0])| <= end
    ensures WrittenFrom(data, i + |Written(segments[0])|, end, segments[1..])
  {
    SitsAtParts(data, i, Written(segments[0]), AllWritten(segments[1..]));
  }

  lemma {:induction false} WalkSegments(data: Bytes, i: nat, end: nat, segments: seq<Segment>)
    requires forall s :: s in segments ==> Carries(s)
    requires WrittenFrom(data, i, end, segments) && end + 8 <= |data|
    ensures Leads(data, i, end)
    decreases |segments|
  {
    if segments != [] {
      var j := i + |Written(segments[0])|;
      WrittenFromNext(data, i, end, segments);
      WalkSegment(data, i, segments[0]);
      WalkSegments(data, j, end, segments[1..]);
      LeadsOn(data, i, j, end);
    }
  }

  /** A marker with its fill bytes. */
  function Marker(fill: nat, marker: Byte): Bytes {
    [0xFF] + Fill(fill) + [marker]
  }

  /** What ends a JPEG without a frame: no marker, the start of a scan, the end of the image, a length below 2. */
  predicate EndsWalk(rest: Bytes, fill: nat, marker: Byte) {
    || rest == [] || rest[0] != 0xFF
    || (Marker(fill, marker) <= rest && (marker == 0xDA || marker == 0xD9))
    || (!(0xC0 <= marker <= 0xC2) && marker != 0xFF &&
        (Marker(fill, marker) + [0, 0] <= rest || Marker(fill, marker) + [0, 1] <= rest))
  }

  /** No size is found from `i` on. */
  ghost predicate Sizeless(data: Bytes, i: nat) {
    forall size :: Finds(data, i, size) ==> size.None?
  }

  lemma SitsAtPrefix(data: Bytes, i: nat, w: Bytes)
    requires i <= |data| && w <= data[i..]
    ensures SitsAt(data, i, w)
  {
    assert data[i..i + |w|] == data[i..][..|w|];
  }

  lemma StopsAtMarker(data: Bytes, i: nat, fill: nat, marker: Byte)
    requires SitsAt(data, i, Marker(fill, marker)) && (marker == 0xDA || marker == 0xD9)
    ensures Sizeless(data, i)
  {
    MarkerBehindFill(data, i, fill, marker);
  }

  lemma StopsAtLength(data: Bytes, i: nat, fill: nat, marker: Byte, n: Byte)
    requires SitsAt(data, i, Marker(fill, marker) + [0, n]) && n < 2 && !(0xC0 <= marker <= 0xC2) && marker != 0xFF
    ensures Sizeless(data, i)
  {
    SitsAtParts(data, i, Marker(fill, marker), [0, n]);
    MarkerBehindFill(data, i, fill, marker);
    SitsAtIndex(data, i + fill + 2, [0, n], 0);
    SitsAtIndex(data, i + fill + 2, [0, n], 1);
  }

  lemma StopsHere(data: Bytes, i: nat, fill: nat, marker: Byte)
    requires i <= |data| && EndsWalk(data[i..], fill, marker)
    ensures Sizeless(data, i)
  {
    if i == |data| || data[i] != 0xFF {
    } else if Marker(fill, marker) <= data[i..] && (marker == 0xDA || marker == 0xD9) {
      SitsAtPrefix(data, i, Marker(fill, marker));
      StopsAtMarker(data, i, fill, marker);
    } else {
      var n := if Marker(fill, marker) + [0, 0] <= data[i..] then 0 else 1;
      SitsAtPrefix(data, i, Marker(fill, marker) + [0, n]);
      StopsAtLength(data, i, fill, marker, n);
    }
  }

  /** Too near the end the walk gives up anyway, otherwise it gets over the segment. */
  lemma StopOver(data: Bytes, i: nat, s: Segment)
    requires Carries(s) && SitsAt(data, i, Written(s)) && Sizeless(data, i + |Written(s)|)
    ensures Sizeless(data, i)
  {
    SegmentAt(data, i, s);
    assert Finds(data, i + |Written(s)|, Walk(data, i + |Written(s)|));
  }

  lemma {:induction false} StopAfterSegments(data: Bytes, i: nat, end: nat, segments: seq<Segment>)
    requires forall s :: s in segments ==> Carries(s)
    requires WrittenFrom(data, i, end, segments) && Sizeless(data, end)
    ensures Sizeless(data, i)
    decreases |segments|
  {
    if segments != [] {
      var j := i + |Written(segments[0])|;
      WrittenFromNext(data, i, end, segments);
      StopAfterSegments(data, j, end, segments[1..]);
      StopOver(data, i, segments[0]);
    }
  }

  /** A JPEG has no size when its segments end, in any of these ways, before such a frame. */
  lemma JpegWithoutFrame(segments: seq<Segment>, rest: Bytes, fill: nat, marker: Byte)
    requires forall s :: s in segments ==> Carries(s)
    requires EndsWalk(rest, fill, marker)
    ensures Dimensions([0xFF, 0xD8] + AllWritten(segments) + rest) == None
  {
    var soi: Bytes, body := [0xFF, 0xD8], AllWritten(segments);
    var data := soi + body + rest;
    assert data[..2] == soi && data[0] == 0xFF;
    assert data[2 + |body|..] == rest;
    SitsAtPrefix(data, 0, soi + body);
    SitsAtParts(data, 0, soi, body);
    StopsHere(data, 2 + |body|, fill, marker);
    StopAfterSegments(data, 2, 2 + |body|, segments);
    assert Finds(data, 2, Walk(data, 2));
    if |data| >= 8 {
      NotPng(data);
    }
  }

  // ----- PNGs -----

  function Put32(n: nat): Bytes
    requires n < 0x1_0000_0000
  {
    [n / 0x100_0000, n / 0x1_0000 % 256, n / 0x100 % 256, n % 256]
  }

  lemma Be32Put32(n: nat, b: Bytes)
    requires n < 0x1_0000_0000 && b == Put32(n)
    ensures Be32(b) == n
  {
    assert n / 0x1_0000 == n / 0x100_0000 * 256 + n / 0x1_0000 % 256;
    assert n / 0x100 == n / 0x1_0000 * 256 + n / 0x100 % 256;
  }

  /** The signature and the header chunk's length, name, width and height; what follows does not matter. */
  function PngStart(width: nat, height: nat): Bytes
    requires width < 0x1_0000_0000 && height < 0x1_0000_0000
  {
    [0x89, 0x50, 0x4E, 0x47, 0x0D, 0x0A, 0x1A, 0x0A] + [0, 0, 0, 13] + [0x49, 0x48, 0x44, 0x52]
    + Put32(width) + Put32(height)
  }

  /** The size of every PNG is the one in its header. */
  lemma PngSizeIsHeaderSize(width: nat, height: nat, after: Bytes)
    requires width < 0x1_0000_0000 && height < 0x1_0000_0000
    ensures Dimensions(PngStart(width, height) + after) == Some((width, height))
  {
    var data := PngStart(width, height) + after;
    assert data[..8] == PngSignature();
    assert data[16..20] == Put32(width) && data[20..24] == Put32(height);
    Be32Put32(width, data[16..20]);
    Be32Put32(height, data[20..24]);
  }

  /** Data that starts like neither has no size, nor has a PNG cut off before the end of those fields. */
  lemma OtherHasNoSize(data: Bytes)
    requires |data| < 2 || data[0] != 0xFF || data[1] != 0xD8
    requires |data| < 24 || data[..8] != [0x89, 0x50, 0x4E, 0x47, 0x0D, 0x0A, 0x1A, 0x0A]
    ensures Dimensions(data) == None
  {
  }

  lemma NotPng(data: Bytes)
    requires |data| >= 8 && data[0] == 0xFF
    ensures data[..8] != PngSignature()
  {
    assert data[..8][0] == 0xFF && PngSignature()[0] == 0x89;
  }

  /**
   For every JPEG made of length-carrying segments, with any fill bytes, before its first baseline,
   extended or progressive frame header, the size returned is that frame's.
   */
  lemma JpegSizeIsFrameSize(segments: seq<Segment>, fill: nat, marker: Byte, length: nat, precision: Byte,
                            width: nat, height: nat, after: Bytes)
    requires forall s :: s in segments ==> Carries(s)
    requires 0xC0 <= marker <= 0xC2 && length < 0x1_0000 && width < 0x1_0000 && height < 0x1_0000
    ensures Dimensions([0xFF, 0xD8] + AllWritten(segments)
                       + Frame(fill, marker, length, precision, width, height) + after)
         == Some((width, height))
  {
    var frame := Frame(fill, marker, length, precision, width, height);
    var body := AllWritten(segments);
    var soi: Bytes := [0xFF, 0xD8];
    var data := soi + body + frame + after;
    assert data[..2] == soi && data[0] == 0xFF;
    NotPng(data);
    assert data[0..|soi + body + frame|] == soi + body + frame;
    SitsAtParts(data, 0, soi + body, frame);
    SitsAtParts(data, 0, soi, body);
    WalkSegments(data, 2, 2 + |body|, segments);
    WalkFrame(data, 2 + |body|, fill, marker, length, precision, width, height);
    assert Finds(data, 2 + |body|, Some((width, height)));
  }
}
