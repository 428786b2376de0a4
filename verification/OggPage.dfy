/**
 Ogg pages (section 6 of RFC 3533): reading them off a byte source, and the comment-free
 OpusTags page that stands in for a file's own tags.
 */
module OggPage {
  import opened Prelude
  import opened Checksum

  const HEADER_LEN: nat := 27
  const NO_GRANULE: nat := 0xFFFF_FFFF_FFFF_FFFF

  // ----- Page layout -----

  /** "OggS". */
  function CapturePattern(): (p: Bytes)
    ensures |p| == 4
  {
    [0x4F, 0x67, 0x67, 0x53]
  }

  /** Value of little-endian bytes. */
  function LeValue(b: Bytes): nat {
    if b == [] then 0 else b[0] + 256 * LeValue(b[1..])
  }

  function Sum(b: Bytes): nat {
    if b == [] then 0 else b[0] + Sum(b[1..])
  }

  predicate WellFormed(p: Bytes) {
    && |p| >= HEADER_LEN
    && p[..4] == CapturePattern()
    && |p| >= HEADER_LEN + p[26]
    && |p| == HEADER_LEN + p[26] + Sum(p[HEADER_LEN..HEADER_LEN + p[26]])
  }

  /** The page's 64-bit granule position; all ones (NO_GRANULE) means none. */
  function Granule(p: Bytes): nat {
    if |p| < 14 then 0 else LeValue(p[6..14])
  }

  lemma LeStep(a: Byte, rest: Bytes)
    ensures LeValue([a] + rest) == a + 256 * LeValue(rest)
  {
    assert ([a] + rest)[1..] == rest;
  }

  lemma LeFour(a: Byte, b: Byte, c: Byte, d: Byte, rest: Bytes)
    ensures LeValue([a, b, c, d] + rest) ==
      a as int + 0x100 * b as int + 0x1_0000 * c as int + 0x100_0000 * d as int + 0x1_0000_0000 * LeValue(rest)
  {
    LeStep(a, [b, c, d] + rest);
    LeStep(b, [c, d] + rest);
    LeStep(c, [d] + rest);
    LeStep(d, rest);
    assert [a, b, c, d] + rest == [a] + ([b, c, d] + rest);
    assert [b, c, d] + rest == [b] + ([c, d] + rest);
    assert [c, d] + rest == [c] + ([d] + rest);
  }

  /** The granule position is the little-endian number in bytes 6 to 13. */
  lemma GranuleBytes(p: Bytes)
    requires |p| >= 14
    ensures var at := (i: int) => if 0 <= i < |p| then p[i] as int else 0;
      Granule(p) == at(6) + 0x100 * at(7) + 0x1_0000 * at(8) + 0x100_0000 * at(9)
                    + 0x1_0000_0000 * (at(10) + 0x100 * at(11) + 0x1_0000 * at(12) + 0x100_0000 * at(13))
  {
    var b := p[6..14];
    assert b == [b[0], b[1], b[2], b[3]] + ([b[4], b[5], b[6], b[7]] + []);
    LeFour(b[0], b[1], b[2], b[3], [b[4], b[5], b[6], b[7]] + []);
    LeFour(b[4], b[5], b[6], b[7], []);
  }

  /** What makes `Sum` the total of the lacing values. */
  lemma {:induction false} SumAppend(a: Bytes, b: Bytes)
    ensures Sum([]) == 0 && (|a| == 1 ==> Sum(a) == a[0]) && Sum(a + b) == Sum(a) + Sum(b)
  {
    if a == [] {
      assert a + b == b;
    } else {
      assert (a + b)[1..] == a[1..] + b;
      SumAppend(a[1..], b);
    }
  }

  /** The lacing values of a packet: as many 255s as fit, then the rest, which may be 0. */
  function Lacing(size: nat): Bytes {
    if size < 255 then [size] else [255] + Lacing(size - 255)
  }

  /** A page of packets laced as section 6 of RFC 3533 says has just their bytes as its body. */
  lemma {:induction false} LacingSum(size: nat)
    ensures Sum(Lacing(size)) == size && |Lacing(size)| == size / 255 + 1
  {
    if size >= 255 {
      LacingSum(size - 255);
      SumAppend([255], Lacing(size - 255));
    } else {
      SumAppend([size], []);
      assert [size] + [] == [size];
    }
  }

  lemma {:induction false} SumBound(b: Bytes)
    ensures Sum(b) <= 255 * |b|
  {
    if b != [] {
      SumBound(b[1..]);
    }
  }

  /** No page is longer than 65307 bytes. */
  lemma PageLengthBound(p: Bytes)
    requires WellFormed(p)
    ensures |p| <= 65307
  {
    SumBound(p[HEADER_LEN..HEADER_LEN + p[26]]);
  }

  // ----- Reading -----

  /** How a byte source ends: cleanly, or with an I/O error. */
  datatype Ending = Eof | Broken

  datatype PumpError = MissingCapture | Truncated | Io | EofInHeaders | NoHeaders

  datatype ReadResult = Page(data: Bytes, granule: nat) | EndOfStream | Failed(error: PumpError)

  /** What one read yields from the bytes ahead. */
  function NextPage(bytes: Bytes, ending: Ending): (r: ReadResult)
    ensures r.Page? ==> WellFormed(r.data) && r.data <= bytes && r.granule == Granule(r.data)
    ensures r.EndOfStream? <==> |bytes| < HEADER_LEN && ending.Eof?
  {
    var short := Failed(if ending.Eof? then Truncated else Io);
    if |bytes| < HEADER_LEN then (if ending.Eof? then EndOfStream else Failed(Io))
    else if bytes[..4] != CapturePattern() then Failed(MissingCapture)
    else
      var body := HEADER_LEN + bytes[26];
      if |bytes| < body then short
      else
        var end := body + Sum(bytes[HEADER_LEN..body]);
        if |bytes| < end then short
        else
          PageParts(bytes, end);
          Page(bytes[..end], Granule(bytes[..end]))
  }

  lemma PageParts(bytes: Bytes, end: nat)
    requires HEADER_LEN <= end <= |bytes| && HEADER_LEN + bytes[26] <= end
    ensures bytes[..end][..4] == bytes[..4] && bytes[..end][26] == bytes[26]
    ensures bytes[..end][HEADER_LEN..HEADER_LEN + bytes[26]] == bytes[HEADER_LEN..HEADER_LEN + bytes[26]]
  {
  }

  /** A page is read exactly when a well-formed page lies ahead, and then it is that page. */
  lemma NextPageIff(bytes: Bytes, ending: Ending, p: Bytes)
    ensures WellFormed(p) && p <= bytes <==> NextPage(bytes, ending).Page? && NextPage(bytes, ending).data == p
  {
    if WellFormed(p) && p <= bytes {
      assert bytes[..|p|] == p;
      PageParts(bytes, |p|);
    }
  }

  /** The outcome of a read in the bytes' own terms: a page, its end, or which error. */
  lemma NextPageOutcome(bytes: Bytes, ending: Ending)
    ensures var r, body := NextPage(bytes, ending), if |bytes| < 27 then 27 else 27 + bytes[26] as int;
      if |bytes| < 27 then r == if ending.Eof? then EndOfStream else Failed(Io)
      else if bytes[..4] != Ascii("OggS") then r == Failed(MissingCapture)
      else if |bytes| < body || |bytes| < body + Sum(bytes[27..body])
      then r == Failed(if ending.Eof? then Truncated else Io)
      else r.Page? && r.data == bytes[..body + Sum(bytes[27..body])]
  {
    CaptureText();
  }

  lemma CaptureText()
    ensures CapturePattern() == Ascii("OggS")
  {
  }

  class Reader {
    var rest: Bytes
    const ending: Ending

    constructor (bytes: Bytes, ending: Ending)
      ensures rest == bytes && this.ending == ending
    {
      rest, this.ending := bytes, ending;
    }

    /** All `n` bytes or none; a short source is drained before the error. */
    method ReadExact(n: nat) returns (r: Option<Bytes>)
      modifies this
      ensures r == if n <= |old(rest)| then Some(old(rest)[..n]) else None
      ensures rest == if n <= |old(rest)| then old(rest)[n..] else []
    {
      if n <= |rest| {
        r, rest := Some(rest[..n]), rest[n..];
      } else {
        r, rest := None, [];
      }
    }

    method ReadOggPage() returns (r: ReadResult)
      modifies this
      ensures r == NextPage(old(rest), ending)
      ensures r.Page? ==> old(rest) == r.data + rest
    {
      ghost var bytes := rest;
      var head := ReadExact(HEADER_LEN);
      if head.None? {
        return if ending.Eof? then EndOfStream else Failed(Io);
      }
      var page := head.value;
      if page[..4] != CapturePattern() {
        return Failed(MissingCapture);
      }
      var lacing := ReadExact(page[26]);
      if lacing.None? {
        return Failed(if ending.Eof? then Truncated else Io);
      }
      page := page + lacing.value;
      Taken(bytes, HEADER_LEN, |page|);
      var body := ReadExact(Sum(page[HEADER_LEN..]));
      if body.None? {
        return Failed(if ending.Eof? then Truncated else Io);
      }
      Taken(bytes, |page|, |page| + |body.value|);
      page := page + body.value;
      var granule := LeValue(page[6..14]);
      return Page(page, granule);
    }
  }

  lemma Taken(bytes: Bytes, m: nat, n: nat)
    requires m <= n <= |bytes|
    ensures bytes[..m] + bytes[m..][..n - m] == bytes[..n] && bytes[m..][n - m..] == bytes[n..]
    ensures bytes[..n][m..] == bytes[m..n] && bytes == bytes[..n] + bytes[n..]
  {
  }

  // ----- A whole source as pages -----

  datatype Stream = Stream(pages: seq<Bytes>, end: ReadResult)

  /** Everything a reader would return until it stops returning pages. */
  function Split(bytes: Bytes, ending: Ending): (s: Stream)
    ensures !s.end.Page?
    ensures forall p :: p in s.pages ==> |p| >= HEADER_LEN
    decreases |bytes|
  {
    match NextPage(bytes, ending)
    case Page(p, _) =>
      var rest := Split(bytes[|p|..], ending);
      Stream([p] + rest.pages, rest.end)
    case stop => Stream([], stop)
  }

  lemma {:induction false} SplitWellFormed(bytes: Bytes, ending: Ending)
    ensures forall p :: p in Split(bytes, ending).pages ==> WellFormed(p)
    decreases |bytes|
  {
    var next := NextPage(bytes, ending);
    if next.Page? {
      SplitWellFormed(bytes[|next.data|..], ending);
    }
  }

  lemma SplitNext(p: Bytes, rest: Bytes, ending: Ending)
    requires WellFormed(p)
    ensures Split(p + rest, ending) == Stream([p] + Split(rest, ending).pages, Split(rest, ending).end)
  {
    NextPageIff(p + rest, ending, p);
    assert (p + rest)[|p|..] == rest;
  }

  lemma {:induction false} SplitPages(pages: seq<Bytes>, tail: Bytes, ending: Ending, end: ReadResult)
    requires forall p :: p in pages ==> WellFormed(p)
    requires Split(tail, ending) == Stream([], end)
    ensures Split(Concat(pages) + tail, ending) == Stream(pages, end)
  {
    if pages == [] {
      assert Concat(pages) + tail == tail;
    } else {
      var rest := Concat(pages[1..]) + tail;
      assert Concat(pages) + tail == pages[0] + rest;
      SplitPages(pages[1..], tail, ending, end);
      SplitNext(pages[0], rest, ending);
    }
  }

  /** Splitting undoes writing pages one after another, whatever unreadable tail follows. */
  lemma SplitConcat(pages: seq<Bytes>, tail: Bytes, ending: Ending)
    requires forall p :: p in pages ==> WellFormed(p)
    requires !NextPage(tail, ending).Page?
    ensures Split(Concat(pages) + tail, ending) == Stream(pages, NextPage(tail, ending))
  {
    SplitPages(pages, tail, ending, NextPage(tail, ending));
  }

  // ----- The emptied tags page -----

  /** "OpusTags", vendor string "togewire" with its length, and a comment count of zero. */
  function TagsPacket(): (p: Bytes)
    ensures |p| == 24
  {
    [0x4F, 0x70, 0x75, 0x73, 0x54, 0x61, 0x67, 0x73] + [8, 0, 0, 0] +
    [0x74, 0x6F, 0x67, 0x65, 0x77, 0x69, 0x72, 0x65] + [0, 0, 0, 0]
  }

  lemma {:induction false} ValueBound(b: Bits)
    ensures ValueOf(b) < Power(|b|)
  {
    if b != [] {
      ValueBound(b[..|b| - 1]);
    }
  }

  lemma {:induction false} ValueInjective(a: Bits, b: Bits)
    requires |a| == |b| && ValueOf(a) == ValueOf(b)
    ensures a == b
  {
    if a != [] {
      ValueInjective(a[..|a| - 1], b[..|b| - 1]);
      assert a == a[..|a| - 1] + [a[|a| - 1]];
      assert b == b[..|b| - 1] + [b[|b| - 1]];
    }
  }

  function ByteOf(b: Bits): Byte
    requires |b| == 8
  {
    ValueBound(b);
    assert Power(4) == 16;
    ValueOf(b)
  }

  /** A word as four little-endian bytes. */
  function LeBytes(w: Word): (b: Bytes)
    ensures |b| == 4
  {
    [ByteOf(w[24..]), ByteOf(w[16..24]), ByteOf(w[8..16]), ByteOf(w[..8])]
  }

  lemma {:induction false} ValueAppend(a: Bits, b: Bits)
    ensures ValueOf(a + b) == ValueOf(a) * Power(|b|) + ValueOf(b)
    decreases |b|
  {
    if b == [] {
      assert a + b == a;
    } else {
      var front, last := b[..|b| - 1], b[|b| - 1];
      ValueAppend(a, front);
      assert (a + b)[..|a + b| - 1] == a + front && (a + b)[|a + b| - 1] == last;
      PowerDistributes(ValueOf(a), |b|);
    }
  }

  lemma PowerDistributes(v: nat, n: nat)
    requires n > 0
    ensures v * Power(n) == 2 * (v * Power(n - 1))
  {
  }

  lemma PowerEight(n: nat)
    requires n == 8
    ensures Power(n) == 256
  {
    assert Power(n) == 2 * Power(n - 1) == 4 * Power(n - 2) == 8 * Power(n - 3) == 16 * Power(n - 4);
    assert Power(n - 4) == 2 * Power(n - 5) == 4 * Power(n - 6) == 8 * Power(n - 7) == 16 * Power(n - 8);
  }

  /** The four bytes are the register's value, little-endian. */
  lemma LeBytesValue(w: Word)
    ensures LeValue(LeBytes(w)) == ValueOf(w)
  {
    var a, b, c, d := w[..8], w[8..16], w[16..24], w[24..];
    assert w == a + b + c + d;
    PowerEight(8);
    ValueAppend(a, b);
    ValueAppend(a + b, c);
    ValueAppend(a + b + c, d);
    LeFour(ByteOf(d), ByteOf(c), ByteOf(b), ByteOf(a), []);
    assert LeBytes(w) == [ByteOf(d), ByteOf(c), ByteOf(b), ByteOf(a)] + [];
  }

  lemma LeBytesInjective(a: Word, b: Word)
    requires LeBytes(a) == LeBytes(b)
    ensures a == b
  {
    var x, y := LeBytes(a), LeBytes(b);
    assert x[0] == y[0] && x[1] == y[1] && x[2] == y[2] && x[3] == y[3];
    ValueInjective(a[24..], b[24..]);
    ValueInjective(a[16..24], b[16..24]);
    ValueInjective(a[8..16], b[8..16]);
    ValueInjective(a[..8], b[..8]);
    assert a == a[..8] + a[8..16] + a[16..24] + a[24..];
    assert b == b[..8] + b[8..16] + b[16..24] + b[24..];
  }

  /** The page with its checksum field cleared, which is what section 6 of RFC 3533 sums. */
  function Cleared(page: Bytes): (c: Bytes)
    requires |page| >= HEADER_LEN
    ensures |c| == |page|
    ensures forall i :: 0 <= i < |page| ==> c[i] == if 22 <= i < 26 then 0 else page[i]
  {
    page[..22] + [0, 0, 0, 0] + page[26..]
  }

  predicate Verifies(page: Bytes)
    requires |page| >= HEADER_LEN
  {
    page[22..26] == LeBytes(Crc(Cleared(page)))
  }

  /** A verified page damaged within four consecutive bytes outside its checksum no longer verifies. */
  lemma DamageIsDetected(page: Bytes, damaged: Bytes, at: nat)
    requires |page| == |damaged| >= HEADER_LEN && Verifies(page)
    requires page != damaged && page[22..26] == damaged[22..26]
    requires forall i :: 0 <= i < |page| && !(at <= i < at + 4) ==> page[i] == damaged[i]
    ensures !Verifies(damaged)
  {
    ClearedDiffer(page, damaged);
    CrcDetectsFourBytes(Cleared(page), Cleared(damaged), at);
    if Verifies(damaged) {
      SameChecksum(page, damaged);
    }
  }

  lemma SameChecksum(a: Bytes, b: Bytes)
    requires |a| >= HEADER_LEN && |b| >= HEADER_LEN && Verifies(a) && Verifies(b) && a[22..26] == b[22..26]
    ensures Crc(Cleared(a)) == Crc(Cleared(b))
  {
    LeBytesInjective(Crc(Cleared(a)), Crc(Cleared(b)));
  }

  /** Clearing the same checksum does not hide a difference elsewhere. */
  lemma ClearedDiffer(a: Bytes, b: Bytes)
    requires |a| == |b| >= HEADER_LEN && a != b && a[22..26] == b[22..26]
    ensures Cleared(a) != Cleared(b)
  {
    var k :| 0 <= k < |a| && a[k] != b[k];
    forall i | 22 <= i < 26 ensures a[i] == b[i] {
      assert a[22..26][i - 22] == b[22..26][i - 22];
    }
    assert Cleared(a)[k] != Cleared(b)[k];
  }

  function TagsFront(serial: Bytes, number: Bytes): (front: Bytes)
    requires |serial| == 4 && |number| == 4
    ensures |front| == 22
  {
    CapturePattern() + [0, 0] + [0, 0, 0, 0, 0, 0, 0, 0] + serial + number
  }

  /** One segment holding the whole packet. */
  function TagsBack(): (b: Bytes)
    ensures |b| == 26
  {
    [1, |TagsPacket()|] + TagsPacket()
  }

  /** The stand-in tags page: its checksum field sums the page with that field zero. */
  function TagsPage(serial: Bytes, number: Bytes): (page: Bytes)
    requires |serial| == 4 && |number| == 4
    ensures |page| == 52
  {
    var front := TagsFront(serial, number);
    front + LeBytes(Crc(front + [0, 0, 0, 0] + TagsBack())) + TagsBack()
  }

  /** The stand-in is a readable header page with the given serial and number, and it verifies. */
  lemma TagsPageIsSound(serial: Bytes, number: Bytes)
    requires |serial| == 4 && |number| == 4
    ensures var page := TagsPage(serial, number);
      && WellFormed(page) && Granule(page) == 0 && Verifies(page)
      && page[14..18] == serial && page[18..22] == number && page[28..] == TagsPacket()
  {
    var front := TagsFront(serial, number);
    var field := LeBytes(Crc(front + [0, 0, 0, 0] + TagsBack()));
    FrontInPlace(serial, number);
    FieldsInPlace(front, field);
    ClearedField(front, field, TagsBack());
  }

  /** The stand-in byte for byte. */
  lemma TagsPageBytes(serial: Bytes, number: Bytes)
    requires |serial| == 4 && |number| == 4
    ensures var page := TagsPage(serial, number);
      && |page| == 52 && page[..4] == Ascii("OggS") && page[4..6] == [0, 0] && page[6..14] == [0, 0, 0, 0, 0, 0, 0, 0]
      && page[14..18] == serial && page[18..22] == number
      && LeValue(page[22..26]) == ValueOf(Crc(page[..22] + [0, 0, 0, 0] + page[26..]))
      && page[26] == 1 && page[27] == 24
      && page[28..] == Ascii("OpusTags") + [8, 0, 0, 0] + Ascii("togewire") + [0, 0, 0, 0]
  {
    var front, back := TagsFront(serial, number), TagsBack();
    var crc := Crc(front + [0, 0, 0, 0] + back);
    CaptureText();
    TagsText();
    FrontBytes(serial, number);
    LeBytesValue(crc);
    FieldBetween(front, LeBytes(crc), back);
  }

  lemma TagsText()
    ensures TagsPacket() == Ascii("OpusTags") + [8, 0, 0, 0] + Ascii("togewire") + [0, 0, 0, 0]
    ensures TagsBack()[0] == 1 && TagsBack()[1] == 24 && TagsBack()[2..] == TagsPacket()
  {
    assert Ascii("OpusTags") == [0x4F, 0x70, 0x75, 0x73, 0x54, 0x61, 0x67, 0x73];
    assert Ascii("togewire") == [0x74, 0x6F, 0x67, 0x65, 0x77, 0x69, 0x72, 0x65];
  }

  lemma FrontBytes(serial: Bytes, number: Bytes)
    requires |serial| == 4 && |number| == 4
    ensures var front := TagsFront(serial, number);
      && front[..4] == CapturePattern() && front[4..6] == [0, 0] && front[6..14] == [0, 0, 0, 0, 0, 0, 0, 0]
      && front[14..18] == serial && front[18..22] == number
  {
  }

  /** A page's parts are found where they were put. */
  lemma FieldBetween(front: Bytes, field: Bytes, back: Bytes)
    requires |front| == 22 && |field| == 4 && |back| == 26
    ensures var page := front + field + back;
      && page[..22] == front && page[22..26] == field && page[26..] == back
      && page[26] == back[0] && page[27] == back[1] && page[28..] == back[2..]
      && page[..4] == front[..4] && page[4..6] == front[4..6] && page[6..14] == front[6..14]
      && page[14..18] == front[14..18] && page[18..22] == front[18..22]
  {
    var page := front + field + back;
    assert page[26..][2..] == page[28..];
    assert forall i :: 0 <= i < 22 ==> page[i] == front[i];
  }

  lemma FrontInPlace(serial: Bytes, number: Bytes)
    requires |serial| == 4 && |number| == 4
    ensures var front := TagsFront(serial, number);
      front[..4] == CapturePattern() && LeValue(front[6..14]) == 0 && front[14..18] == serial && front[18..22] == number
  {
    var front := TagsFront(serial, number);
    ZeroValue(8);
    assert forall i :: 6 <= i < 14 ==> front[i] == 0;
  }

  lemma ClearedField(front: Bytes, field: Bytes, back: Bytes)
    requires |front| == 22 && |field| == 4 && back != []
    ensures Cleared(front + field + back) == front + [0, 0, 0, 0] + back
  {
  }

  lemma FieldsInPlace(front: Bytes, field: Bytes)
    requires |front| == 22 && |field| == 4
    requires front[..4] == CapturePattern()
    ensures var page := front + field + TagsBack();
      && WellFormed(page) && page[6..14] == front[6..14] && page[14..18] == front[14..18]
      && page[18..22] == front[18..22] && page[22..26] == field && page[28..] == TagsPacket()
  {
    var page := front + field + TagsBack();
    assert page[..4] == front[..4];
    assert page[26] == TagsBack()[0] == 1;
    assert page[27..28] == [24];
    assert Sum([24]) == 24 + Sum([]);
  }

  lemma {:induction false} ZeroValue(n: nat)
    ensures forall b: Bytes :: |b| == n && (forall i :: 0 <= i < n ==> b[i] == 0) ==> LeValue(b) == 0
  {
    if n > 0 {
      ZeroValue(n - 1);
    }
  }

  method EmptyTagsPage(serial: Bytes, number: Bytes) returns (page: Bytes)
    requires |serial| == 4 && |number| == 4
    ensures page == TagsPage(serial, number)
  {
    page := CapturePattern() + [0, 0];
    page := page + [0, 0, 0, 0, 0, 0, 0, 0];
    page := page + serial;
    page := page + number;
    page := page + [0, 0, 0, 0, 1, |TagsPacket()|];
    page := page + TagsPacket();
    SplitBack(TagsFront(serial, number));
    var crc := OggCrc(page);
    page := page[..22] + LeBytes(crc) + page[26..];
  }

  lemma SplitBack(front: Bytes)
    requires |front| == 22
    ensures front + [0, 0, 0, 0, 1, |TagsPacket()|] + TagsPacket() == front + [0, 0, 0, 0] + TagsBack()
    ensures (front + [0, 0, 0, 0] + TagsBack())[..22] == front &&
      (front + [0, 0, 0, 0] + TagsBack())[26..] == TagsBack()
  {
    var six: Bytes := [0, 0, 0, 0, 1, |TagsPacket()|];
    assert six == [0, 0, 0, 0] + [1, |TagsPacket()|];
    assert front + six + TagsPacket() == front + [0, 0, 0, 0] + ([1, |TagsPacket()|] + TagsPacket());
  }
}
