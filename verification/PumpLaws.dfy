/** What the pump promises about whole inputs: what it forwards, and how pumping composes. */
module PumpLaws {
  import opened Prelude
  import opened OggPage
  import opened OggPump
  import P = Pipe

  predicate AllPages(pages: seq<Bytes>) {
    forall p :: p in pages ==> WellFormed(p)
  }

  lemma SplitTail(pages: seq<Bytes>, tail: Bytes)
    requires AllPages(pages) && |tail| < HEADER_LEN
    ensures Split(Concat(pages) + tail, Eof) == Stream(pages, EndOfStream)
  {
    SplitConcat(pages, tail, Eof);
  }

  /** The page audio starts at: the first after the headers whose granule reaches the seek target. */
  function StartOf(pages: seq<Bytes>, base: nat): (k: nat)
    ensures k <= |pages|
  {
    SeekFrom(pages, HeadersEnd(pages, 0), base)
  }

  lemma FirstPage(pages: seq<Bytes>)
    requires AllPages(pages) && pages != []
    ensures |pages[0]| >= HEADER_LEN
    ensures forall p :: p in pages ==> |p| >= HEADER_LEN
  {
    assert WellFormed(pages[0]);
  }

  lemma NothingIff(s: Stream, base: nat)
    requires forall p :: p in s.pages ==> |p| >= HEADER_LEN
    ensures Pumped(s, base).emitted == [] <==> HeadersEnd(s.pages, 0) == 0 || StartOf(s.pages, base) == |s.pages|
  {
  }

  /** Nothing is sent exactly when there are no header pages or no page reaches the target. */
  lemma PumpSendsNothingIff(pages: seq<Bytes>, tail: Bytes, base: nat)
    requires AllPages(pages) && |tail| < HEADER_LEN
    ensures Pumped(Split(Concat(pages) + tail, Eof), base).emitted == [] <==>
      HeadersEnd(pages, 0) == 0 || StartOf(pages, base) == |pages|
  {
    SplitTail(pages, tail);
    NothingIff(Split(Concat(pages) + tail, Eof), base);
  }

  // ----- The same in the pages' own terms -----

  /** A page that counts as a header: granule 0, or none. */
  predicate Headerish(p: Bytes) {
    Granule(p) == 0 || Granule(p) == 0xFFFF_FFFF_FFFF_FFFF
  }

  lemma {:induction false} HeadersEndIs(pages: seq<Bytes>, i: nat, h: nat)
    requires i <= h <= |pages| && forall j :: i <= j < h ==> Headerish(pages[j])
    requires h < |pages| ==> !Headerish(pages[h])
    ensures HeadersEnd(pages, i) == h
    decreases h - i
  {
    if i < h {
      HeadersEndIs(pages, i + 1, h);
    }
  }

  /** How a pump that sends nothing ends. */
  lemma PumpedErrors(s: Stream, base: nat)
    requires AllPages(s.pages) && !s.end.Page?
    ensures (forall p :: p in s.pages ==> Headerish(p)) ==>
      Pumped(s, base) == Outcome([], Some(if s.end.Failed? then s.end.error else EofInHeaders))
    ensures s.pages != [] && !Headerish(s.pages[0]) ==> Pumped(s, base) == Outcome([], Some(NoHeaders))
  {
    if forall p :: p in s.pages ==> Headerish(p) {
      HeadersEndIs(s.pages, 0, |s.pages|);
    } else if !Headerish(s.pages[0]) {
      HeadersEndIs(s.pages, 0, 0);
    }
  }

  /** `k` is the first page from `h` on whose granule reaches the target. */
  predicate Reaches(pages: seq<Bytes>, h: nat, k: nat, base: nat) {
    && h <= k <= |pages| && (forall j :: h <= j < k ==> Granule(pages[j]) < base)
    && (k < |pages| ==> Granule(pages[k]) >= base)
  }

  /** The first `h` pages are the headers. */
  predicate Leading(pages: seq<Bytes>, h: nat) {
    0 < h < |pages| && (forall j :: 0 <= j < h ==> Headerish(pages[j])) && !Headerish(pages[h])
  }

  /** With headers and audio the pages from the target on are sent, after one message, if there are any. */
  lemma PumpedPages(s: Stream, base: nat, h: nat, k: nat)
    requires AllPages(s.pages) && !s.end.Page? && Leading(s.pages, h) && Reaches(s.pages, h, k, base)
    ensures var out := Pumped(s, base);
      && out.error == (if s.end.Failed? then Some(s.end.error) else None)
      && (k == |s.pages| <==> out.emitted == []) && (k < |s.pages| ==> out.emitted[1..] == s.pages[k..])
  {
    HeadersEndIs(s.pages, 0, h);
    SeekUnique(s.pages, h, base, k);
    FirstPage(s.pages);
  }

  /** Sequence number of the last header page after the first, else 1, little-endian. */
  function NumberOf(pages: seq<Bytes>, h: nat): (number: Bytes)
    requires 0 < h <= |pages|
    ensures |number| == 4
  {
    if h >= 2 && |pages[h - 1]| >= 22 then pages[h - 1][18..22] else [1, 0, 0, 0]
  }

  /** A page of an OpusTags packet without comments, of this serial and sequence number. */
  predicate IsTagsFor(t: Bytes, serial: Bytes, number: Bytes) {
    && |t| == 52 && t[14..18] == serial && t[18..22] == number
    && t[28..] == Ascii("OpusTags") + [8, 0, 0, 0] + Ascii("togewire") + [0, 0, 0, 0]
    && Granule(t) == 0 && WellFormed(t) && Verifies(t)
  }

  lemma TagsPageIsTags(serial: Bytes, number: Bytes)
    requires |serial| == 4 && |number| == 4
    ensures IsTagsFor(TagsPage(serial, number), serial, number)
  {
    TagsPageIsSound(serial, number);
    TagsPageBytes(serial, number);
  }

  lemma TagsNumberIs(pages: seq<Bytes>, h: nat)
    requires 0 < h <= |pages| && |pages[h - 1]| >= HEADER_LEN
    ensures TagsNumber(pages[..h]) == NumberOf(pages, h)
  {
    assert pages[..h][h - 1] == pages[h - 1];
  }

  /** What a header message consists of. */
  ghost predicate IsAnnouncement(message: Bytes, head: Bytes, number: Bytes) {
    |head| >= 27 && exists t: Bytes :: IsTagsFor(t, head[14..18], number) && message == head + t
  }

  lemma MessageIsAnnouncement(message: Bytes, head: Bytes, tags: Bytes, number: Bytes)
    requires |head| >= 27 && message == head + tags && IsTagsFor(tags, head[14..18], number)
    ensures IsAnnouncement(message, head, number)
  {
  }

  lemma HeaderMessageIs(pages: seq<Bytes>, h: nat)
    requires AllPages(pages) && 0 < h <= |pages| && |pages[0]| >= HEADER_LEN
    ensures IsAnnouncement(HeaderMessage(pages, h), pages[0], NumberOf(pages, h))
  {
    assert WellFormed(pages[h - 1]);
    TagsNumberIs(pages, h);
    TagsPageIsTags(pages[0][14..18], NumberOf(pages, h));
    MessageIsAnnouncement(HeaderMessage(pages, h), pages[0], TagsPage(pages[0][14..18], NumberOf(pages, h)),
                          NumberOf(pages, h));
  }

  /**
   That message is the first page, unchanged, and then a page that parses, verifies and holds no comments,
   with the first page's serial number and the last header page's sequence number, or 1 if the first is the only.
   */
  lemma PumpedHeaders(s: Stream, base: nat, h: nat)
    requires AllPages(s.pages) && Leading(s.pages, h) && Pumped(s, base).emitted != []
    ensures IsAnnouncement(Pumped(s, base).emitted[0], s.pages[0], NumberOf(s.pages, h))
  {
    FirstPage(s.pages);
    FirstMessage(s, base, h, Pumped(s, base).emitted[0]);
    MessageAnnounces(s.pages, h, Pumped(s, base).emitted[0]);
  }

  lemma FirstMessage(s: Stream, base: nat, h: nat, message: Bytes)
    requires AllPages(s.pages) && Leading(s.pages, h) && |s.pages[0]| >= HEADER_LEN
    requires Pumped(s, base).emitted != [] && message == Pumped(s, base).emitted[0]
    ensures Heads(s.pages, h, message)
  {
    HeadersEndIs(s.pages, 0, h);
    FirstPage(s.pages);
  }

  lemma MessageAnnounces(pages: seq<Bytes>, h: nat, message: Bytes)
    requires AllPages(pages) && 0 < h <= |pages| && |pages[0]| >= HEADER_LEN && Heads(pages, h, message)
    ensures IsAnnouncement(message, pages[0], NumberOf(pages, h))
  {
    assert IsHeaderMessage(pages, h, HeaderMessage(pages, h));
    HeaderMessageIs(pages, h);
  }

  lemma PumpedMessages(pages: seq<Bytes>, end: ReadResult, base: nat)
    requires AllPages(pages) && 0 < HeadersEnd(pages, 0) && StartOf(pages, base) < |pages|
    ensures |pages[0]| >= HEADER_LEN && forall p :: p in pages ==> |p| >= HEADER_LEN
    ensures Pumped(Stream(pages, end), base).emitted
         == [HeaderMessage(pages, HeadersEnd(pages, 0))] + pages[StartOf(pages, base)..]
  {
    FirstPage(pages);
  }

  lemma ConcatMessage(message: Bytes, rest: seq<Bytes>)
    ensures Concat([message] + rest) == message + Concat(rest)
  {
    assert ([message] + rest)[1..] == rest;
  }

  /**
   Otherwise the bytes sent are the first header page, one emptied tags page of the same serial and
   of the last tags page's number (`HeaderMessage`), and then byte for byte the input from the start
   page on.
   */
  lemma PumpForwardsBytes(pages: seq<Bytes>, tail: Bytes, base: nat)
    requires AllPages(pages) && |tail| < HEADER_LEN
    requires 0 < HeadersEnd(pages, 0) && StartOf(pages, base) < |pages|
    ensures |pages[0]| >= HEADER_LEN
    ensures Concat(Pumped(Split(Concat(pages) + tail, Eof), base).emitted)
         == HeaderMessage(pages, HeadersEnd(pages, 0)) + Concat(pages[StartOf(pages, base)..])
    ensures IsAnnouncement(HeaderMessage(pages, HeadersEnd(pages, 0)), pages[0], NumberOf(pages, HeadersEnd(pages, 0)))
  {
    FirstPage(pages);
    HeaderMessageIs(pages, HeadersEnd(pages, 0));
    SplitTail(pages, tail);
    PumpedMessages(pages, EndOfStream, base);
    ConcatMessage(HeaderMessage(pages, HeadersEnd(pages, 0)), pages[StartOf(pages, base)..]);
  }

  // ----- What a joining listener is given -----

  /** Every message after the headers is a page of the source, and none is longer than 65307 bytes. */
  lemma PumpedPagesFit(bytes: Bytes, ending: Ending, base: nat, p: Bytes)
    requires var sent := Pumped(Split(bytes, ending), base).emitted; sent != [] && p in sent[1..]
    ensures p in Split(bytes, ending).pages && WellFormed(p) && |p| <= 65307
  {
    var pages := Split(bytes, ending).pages;
    SplitWellFormed(bytes, ending);
    var k := StartOf(pages, base);
    PumpedTail(Split(bytes, ending), base);
    assert p in pages[k..];
    PageLengthBound(p);
  }

  lemma PumpedTail(s: Stream, base: nat)
    requires forall p :: p in s.pages ==> |p| >= HEADER_LEN
    requires Pumped(s, base).emitted != []
    ensures Pumped(s, base).emitted[1..] == s.pages[StartOf(s.pages, base)..]
  {
  }

  /** So at any point of any pump the burst holds at least the last two pages sent. */
  lemma PumpedBurstReachesBack(bytes: Bytes, ending: Ending, base: nat, n: nat)
    requires 0 < n <= |Pumped(Split(bytes, ending), base).emitted|
    ensures var pages := Pumped(Split(bytes, ending), base).emitted[1..n];
      |P.Trim(pages)| >= 2 || P.Trim(pages) == pages
  {
    var sent := Pumped(Split(bytes, ending), base).emitted;
    forall p | p in sent[1..n] ensures |p| <= 65307 {
      assert p in sent[1..];
      PumpedPagesFit(bytes, ending, base, p);
    }
    P.BurstKeepsTwoPages(sent[1..n]);
  }

  // ----- Pumping what was pumped -----

  /** What a first pass leaves behind, as pages: a header page, its tags page, and the rest. */
  function Repaged(head: Bytes, tags: Bytes, rest: seq<Bytes>): seq<Bytes> {
    [head, tags] + rest
  }

  lemma {:induction false} SeekShift(a: seq<Bytes>, i: nat, b: seq<Bytes>, j: nat, base: nat)
    requires i <= |a| && j <= |b| && a[i..] == b[j..]
    ensures SeekFrom(b, j, base) - j == SeekFrom(a, i, base) - i
    decreases |a| - i
  {
    assert |a| - i == |b| - j;
    if i < |a| {
      assert a[i] == a[i..][0] == b[j];
      assert a[i + 1..] == a[i..][1..] == b[j + 1..];
      SeekShift(a, i + 1, b, j + 1, base);
    }
  }

  /** Seeking to the larger of two targets can be done in two steps. */
  lemma SeekTwice(pages: seq<Bytes>, i: nat, a: nat, b: nat)
    requires i <= |pages|
    ensures SeekFrom(pages, SeekFrom(pages, i, a), b) == SeekFrom(pages, i, if a < b then b else a)
  {
    SeekUnique(pages, i, if a < b then b else a, SeekFrom(pages, SeekFrom(pages, i, a), b));
  }

  lemma {:induction false} SeekUnique(pages: seq<Bytes>, i: nat, base: nat, k: nat)
    requires i <= k <= |pages|
    requires forall j :: i <= j < k ==> Granule(pages[j]) < base
    requires k < |pages| ==> Granule(pages[k]) >= base
    ensures SeekFrom(pages, i, base) == k
    decreases k - i
  {
    if i < k {
      SeekUnique(pages, i + 1, base, k);
    }
  }

  lemma RepagedPages(head: Bytes, tags: Bytes, rest: seq<Bytes>)
    requires WellFormed(head) && WellFormed(tags) && AllPages(rest)
    ensures AllPages(Repaged(head, tags, rest))
    ensures Concat(Repaged(head, tags, rest)) == head + tags + Concat(rest)
  {
    var q := Repaged(head, tags, rest);
    assert q[1..] == [tags] + rest;
    assert q[1..][1..] == rest;
    assert head + (tags + Concat(rest)) == head + tags + Concat(rest);
  }

  /** A second pass finds the same two headers, unless the first audio page carries no granule. */
  lemma RepagedHeaders(head: Bytes, tags: Bytes, rest: seq<Bytes>)
    requires IsHeader(head) && IsHeader(tags) && rest != []
    ensures IsHeader(rest[0]) ==> HeadersEnd(Repaged(head, tags, rest), 0) > 2
    ensures !IsHeader(rest[0]) ==> HeadersEnd(Repaged(head, tags, rest), 0) == 2
  {
    var q := Repaged(head, tags, rest);
    assert q[0] == head && q[1] == tags && q[2] == rest[0];
    assert HeadersEnd(q, 0) == HeadersEnd(q, 1) == HeadersEnd(q, 2);
  }

  /** The messages an uninterrupted pump makes of a source. */
  function Pass(bytes: Bytes, ending: Ending, base: nat): seq<Bytes> {
    Pumped(Split(bytes, ending), base).emitted
  }

  /** The same, of pages already read. */
  function PassPages(pages: seq<Bytes>, base: nat): (sent: seq<Bytes>)
    requires AllPages(pages)
    ensures sent == [] <==> HeadersEnd(pages, 0) == 0 || StartOf(pages, base) == |pages|
  {
    var h, k := HeadersEnd(pages, 0), StartOf(pages, base);
    FirstPage0(pages);
    if h == 0 || k == |pages| then [] else [HeaderMessage(pages, h)] + pages[k..]
  }

  lemma FirstPage0(pages: seq<Bytes>)
    requires AllPages(pages)
    ensures pages != [] ==> |pages[0]| >= HEADER_LEN
  {
    if pages != [] {
      FirstPage(pages);
    }
  }

  lemma PassIsPassPages(bytes: Bytes, ending: Ending, base: nat)
    ensures AllPages(Split(bytes, ending).pages)
    ensures Pass(bytes, ending, base) == PassPages(Split(bytes, ending).pages, base)
  {
    SplitWellFormed(bytes, ending);
  }

  lemma PassConcat(pages: seq<Bytes>, base: nat)
    requires AllPages(pages)
    ensures Pass(Concat(pages), Eof, base) == PassPages(pages, base)
  {
    assert Concat(pages) + [] == Concat(pages);
    SplitTail(pages, []);
    PassIsPassPages(Concat(pages), Eof, base);
  }

  /** A page audio starts at looks like a header exactly when it carries no granule. */
  lemma StartNotZero(pages: seq<Bytes>, base: nat)
    requires StartOf(pages, base) < |pages|
    ensures IsHeader(pages[StartOf(pages, base)]) <==> Granule(pages[StartOf(pages, base)]) == NO_GRANULE
  {
  }

  /** The tags page of the first pass hands its serial and number on to the second. */
  lemma SecondPassHeaders(pages: seq<Bytes>, h: nat, rest: seq<Bytes>) returns (tags: Bytes)
    requires AllPages(pages) && h == HeadersEnd(pages, 0) > 0
    ensures |pages[0]| >= HEADER_LEN && WellFormed(tags) && IsHeader(tags)
    ensures HeaderMessage(pages, h) == pages[0] + tags
    ensures HeaderMessage(Repaged(pages[0], tags, rest), 2) == pages[0] + tags
  {
    FirstPage(pages);
    var number := TagsNumber(pages[..h]);
    tags := TagsPage(pages[0][14..18], number);
    TagsPageIsSound(pages[0][14..18], number);
    RepagedNumber(pages[0], tags, rest);
  }

  lemma RepagedNumber(head: Bytes, tags: Bytes, rest: seq<Bytes>)
    requires |tags| >= HEADER_LEN
    ensures TagsNumber(Repaged(head, tags, rest)[..2]) == tags[18..22]
  {
    assert Repaged(head, tags, rest)[..2] == [head, tags];
  }

  /** `PassPages` with the header message left open. */
  function PassWith(pages: seq<Bytes>, message: Bytes, base: nat): seq<Bytes> {
    if HeadersEnd(pages, 0) == 0 || StartOf(pages, base) == |pages|
      then [] else [message] + pages[StartOf(pages, base)..]
  }

  lemma PassPagesWith(pages: seq<Bytes>, message: Bytes, base: nat)
    requires AllPages(pages) && 0 < HeadersEnd(pages, 0) && |pages[0]| >= HEADER_LEN
    requires message == HeaderMessage(pages, HeadersEnd(pages, 0))
    ensures PassPages(pages, base) == PassWith(pages, message, base)
  {
  }

  lemma RestOfRepaged(head: Bytes, tags: Bytes, pages: seq<Bytes>, k: nat, j: nat)
    requires k <= j <= |pages|
    ensures Repaged(head, tags, pages[k..])[j - k + 2..] == pages[j..]
  {
  }

  /** What the second pass sends when the first one started at a page with a granule. */
  lemma SecondPass(pages: seq<Bytes>, k: nat, b: nat, head: Bytes, tags: Bytes, message: Bytes)
    requires k < |pages| && !IsHeader(pages[k]) && IsHeader(head) && IsHeader(tags)
    ensures PassWith(Repaged(head, tags, pages[k..]), message, b) ==
      if SeekFrom(pages, k, b) == |pages| then [] else [message] + pages[SeekFrom(pages, k, b)..]
  {
    var q, j := Repaged(head, tags, pages[k..]), SeekFrom(pages, k, b);
    RepagedHeaders(head, tags, pages[k..]);
    RestOfRepaged(head, tags, pages, k, k);
    RestOfRepaged(head, tags, pages, k, j);
    SeekShift(pages, k, q, 2, b);
  }

  /** It sends fewer messages when the first one started at a page without a granule. */
  lemma SecondPassShorter(pages: seq<Bytes>, k: nat, b: nat, head: Bytes, tags: Bytes, message: Bytes)
    requires k < |pages| && IsHeader(pages[k]) && IsHeader(head) && IsHeader(tags)
    ensures |PassWith(Repaged(head, tags, pages[k..]), message, b)| < 1 + |pages| - k
  {
    RepagedHeaders(head, tags, pages[k..]);
  }

  /**
   Pumping at `a` and then pumping the result at `b` sends what one pump at the larger target sends,
   if and only if the first pass sends nothing or starts at a page that carries a granule.
   */
  lemma PumpTwiceIff(bytes: Bytes, ending: Ending, a: nat, b: nat)
    requires a < NO_GRANULE && b < NO_GRANULE
    ensures var first := Pass(bytes, ending, a);
      |first| != 1 &&
      (Pass(Concat(first), Eof, b) == Pass(bytes, ending, Max(a, b)) <==>
        first == [] || Granule(first[1]) != NO_GRANULE)
  {
    var pages := Split(bytes, ending).pages;
    PassIsPassPages(bytes, ending, a);
    PassIsPassPages(bytes, ending, Max(a, b));
    var h, k := HeadersEnd(pages, 0), StartOf(pages, a);
    SeekTwice(pages, h, a, b);
    if h == 0 || k == |pages| {
      PassConcat([], b);
    } else {
      PumpTwicePages(pages, a, b);
    }
  }

  // ----- A source on which it fails -----

  /** A page of no segments, with the given flags and granule position. */
  function BarePage(granule: Bytes): (p: Bytes)
    requires |granule| == 8
    ensures |p| == HEADER_LEN
  {
    CapturePattern() + [0, 0] + granule + [0, 0, 0, 0, 0, 0, 0, 0, 0, 0, 0, 0] + [0]
  }

  lemma BarePageIsSound(granule: Bytes)
    requires |granule| == 8
    ensures WellFormed(BarePage(granule)) && Granule(BarePage(granule)) == LeValue(granule)
  {
    var p := BarePage(granule);
    assert p[..4] == CapturePattern() && p[6..14] == granule && p[26] == 0;
    assert p[HEADER_LEN..HEADER_LEN] == [];
  }

  /** Eight bytes that may differ in the first only. */
  function EightBytes(a: Byte, z: Byte): (b: Bytes)
    ensures |b| == 8
  {
    [a, z, z, z, z, z, z, z]
  }

  lemma EightBytesValue(a: Byte, z: Byte)
    ensures LeValue(EightBytes(a, z)) == a + z * 0x1_0101_0101_0101_00
  {
    LeStep(a, [z, z, z, z, z, z, z]);
    LeStep(z, [z, z, z, z, z, z]);
    LeStep(z, [z, z, z, z, z]);
    LeStep(z, [z, z, z, z]);
    LeStep(z, [z, z, z]);
    LeStep(z, [z, z]);
    LeStep(z, [z]);
    LeStep(z, []);
  }

  /** A header page, a page before the seek point, and one without a granule. */
  function GranuleFreeSource(): seq<Bytes> {
    [BarePage(EightBytes(0, 0)), BarePage(EightBytes(1, 0)), BarePage(EightBytes(255, 255))]
  }

  lemma BarePageAt(a: Byte, z: Byte, granule: nat)
    requires granule == a + z * 0x1_0101_0101_0101_00
    ensures WellFormed(BarePage(EightBytes(a, z))) && Granule(BarePage(EightBytes(a, z))) == granule
  {
    BarePageIsSound(EightBytes(a, z));
    EightBytesValue(a, z);
  }

  lemma ThreePages(p: Bytes, q: Bytes, r: Bytes)
    requires WellFormed(p) && WellFormed(q) && WellFormed(r)
    ensures AllPages([p, q, r])
  {
  }

  lemma GranuleFreeGranules()
    ensures var pages := GranuleFreeSource();
      && |pages| == 3 && AllPages(pages)
      && Granule(pages[0]) == 0 && Granule(pages[1]) == 1 && Granule(pages[2]) == NO_GRANULE
  {
    BarePageAt(0, 0, 0);
    BarePageAt(1, 0, 1);
    BarePageAt(255, 255, NO_GRANULE);
    ThreePages(BarePage(EightBytes(0, 0)), BarePage(EightBytes(1, 0)), BarePage(EightBytes(255, 255)));
  }

  lemma StartsAtLast(pages: seq<Bytes>, a: nat)
    requires |pages| == 3 && Granule(pages[0]) == 0 && Granule(pages[1]) == 1 && Granule(pages[2]) == NO_GRANULE
    requires 1 < a < NO_GRANULE
    ensures HeadersEnd(pages, 0) == 1 && StartOf(pages, a) == 2
  {
    assert HeadersEnd(pages, 0) == HeadersEnd(pages, 1);
    assert SeekFrom(pages, 1, a) == SeekFrom(pages, 2, a);
  }

  /** At any seek past its first audio page, pumping this source twice is not pumping it once. */
  lemma PumpTwiceCanFail(a: nat, b: nat)
    requires 1 < a < NO_GRANULE && b < NO_GRANULE
    ensures var bytes := Concat(GranuleFreeSource());
      Pass(Concat(Pass(bytes, Eof, a)), Eof, b) != Pass(bytes, Eof, Max(a, b))
  {
    var pages := GranuleFreeSource();
    GranuleFreeGranules();
    StartsAtLast(pages, a);
    PassConcat(pages, a);
    FirstAudioPage(pages, a);
    PumpTwiceIff(Concat(pages), Eof, a, b);
  }

  lemma PumpTwicePages(pages: seq<Bytes>, a: nat, b: nat)
    requires a < NO_GRANULE && b < NO_GRANULE
    requires AllPages(pages) && 0 < HeadersEnd(pages, 0) && StartOf(pages, a) < |pages|
    ensures var first := PassPages(pages, a);
      |first| > 1 &&
      (Pass(Concat(first), Eof, b) == PassPages(pages, Max(a, b)) <==> Granule(first[1]) != NO_GRANULE)
  {
    var h, k := HeadersEnd(pages, 0), StartOf(pages, a);
    var rest := pages[k..];
    var tags := SecondPassHeaders(pages, h, rest);
    var head, message := pages[0], pages[0] + tags;
    var q := Repaged(head, tags, rest);
    FirstPage(pages);
    PassPagesWith(pages, message, a);
    PassPagesWith(pages, message, Max(a, b));
    ConcatMessage(message, rest);
    assert WellFormed(head);
    RepagedPages(head, tags, rest);
    PassConcat(q, b);
    RepagedHeaders(head, tags, rest);
    StartNotZero(pages, a);
    SeekTwice(pages, h, a, b);
    if IsHeader(pages[k]) {
      SecondPassShorter(pages, k, b, head, tags, HeaderMessage(q, HeadersEnd(q, 0)));
      PassPagesWith(q, HeaderMessage(q, HeadersEnd(q, 0)), b);
    } else {
      SecondPass(pages, k, b, head, tags, message);
      PassPagesWith(q, message, b);
    }
  }

  /** At seek 0 or before, pumping is idempotent, whatever the input. */
  lemma PumpAtStartIdempotent(bytes: Bytes, ending: Ending, seekMs: int)
    requires seekMs <= 0
    ensures var first := Pass(bytes, ending, Base(seekMs));
      Pass(Concat(first), Eof, Base(seekMs)) == first
  {
    var z := Base(seekMs);
    BaseWithinLimit(seekMs);
    PassIsPassPages(bytes, ending, z);
    PumpTwiceIff(bytes, ending, z, z);
    if Pass(bytes, ending, z) != [] {
      FirstAudioPage(Split(bytes, ending).pages, z);
      StartAtZero(Split(bytes, ending).pages, z);
    }
  }

  lemma StartAtZero(pages: seq<Bytes>, z: nat)
    requires z == 0 && StartOf(pages, z) < |pages|
    ensures Granule(pages[StartOf(pages, z)]) != NO_GRANULE
  {
    assert StartOf(pages, z) == HeadersEnd(pages, 0);
  }

  lemma FirstAudioPage(pages: seq<Bytes>, base: nat)
    requires AllPages(pages) && PassPages(pages, base) != []
    ensures StartOf(pages, base) < |pages| && |PassPages(pages, base)| > 1
    ensures PassPages(pages, base)[1] == pages[StartOf(pages, base)]
  {
  }

  /** Every page after the headers carries a granule. */
  predicate NoGranuleless(pages: seq<Bytes>) {
    forall j :: HeadersEnd(pages, 0) <= j < |pages| ==> Granule(pages[j]) != NO_GRANULE
  }

  /** In milliseconds, within the range where the program's product does not wrap. */
  lemma PumpTwiceSeeks(bytes: Bytes, ending: Ending, a: int, b: int)
    requires a <= SEEK_LIMIT && b <= SEEK_LIMIT
    requires NoGranuleless(Split(bytes, ending).pages)
    ensures Pass(Concat(Pass(bytes, ending, Base(a))), Eof, Base(b)) ==
      Pass(bytes, ending, Base(Max(a, b)))
  {
    BaseWithinLimit(a);
    BaseWithinLimit(b);
    PumpTwiceIff(bytes, ending, Base(a), Base(b));
    PassIsPassPages(bytes, ending, Base(a));
    if Pass(bytes, ending, Base(a)) != [] {
      FirstAudioPage(Split(bytes, ending).pages, Base(a));
    }
  }
}
