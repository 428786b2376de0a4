/**
 The pump: from an Ogg source into a pipe. Header pages are replaced by the first one plus an
 emptied tags page, audio starts at the seek point, and paced playback stays near real time.
 */
module OggPump {
  import opened Prelude
  import opened OggPage
  import P = Pipe

  // ----- What a stream of pages is turned into -----

  predicate IsHeader(p: Bytes) {
    Granule(p) == 0 || Granule(p) == NO_GRANULE
  }

  /** First index from `i` on that holds no header page. */
  function HeadersEnd(pages: seq<Bytes>, i: nat): (h: nat)
    requires i <= |pages|
    ensures i <= h <= |pages|
    ensures forall j :: i <= j < h ==> IsHeader(pages[j])
    ensures h < |pages| ==> !IsHeader(pages[h])
    decreases |pages| - i
  {
    if i < |pages| && IsHeader(pages[i]) then HeadersEnd(pages, i + 1) else i
  }

  /** First index from `i` on whose granule reaches `base`. */
  function SeekFrom(pages: seq<Bytes>, i: nat, base: nat): (k: nat)
    requires i <= |pages|
    ensures i <= k <= |pages|
    ensures forall j :: i <= j < k ==> Granule(pages[j]) < base
    ensures k < |pages| ==> Granule(pages[k]) >= base
    decreases |pages| - i
  {
    if i < |pages| && Granule(pages[i]) < base then SeekFrom(pages, i + 1, base) else i
  }

  /** Sequence number of the last header page after the first, else 1. */
  function TagsNumber(heads: seq<Bytes>): (n: Bytes)
    ensures |n| == 4
  {
    if |heads| >= 2 && |heads[|heads| - 1]| >= HEADER_LEN then heads[|heads| - 1][18..22] else [1, 0, 0, 0]
  }

  /** The header message: the first page as it is, then the stand-in for all the others. */
  function HeaderMessage(pages: seq<Bytes>, h: nat): Bytes
    requires 0 < h <= |pages| && |pages[0]| >= HEADER_LEN
  {
    pages[0] + TagsPage(pages[0][14..18], TagsNumber(pages[..h]))
  }

  datatype Outcome = Outcome(emitted: seq<Bytes>, error: Option<PumpError>)

  function EndError(end: ReadResult): Option<PumpError> {
    if end.Failed? then Some(end.error) else None
  }

  /** What an uninterrupted pump sends, and the error it ends with if any. */
  function Pumped(s: Stream, base: nat): Outcome
    requires forall p :: p in s.pages ==> |p| >= HEADER_LEN
  {
    var h := HeadersEnd(s.pages, 0);
    if h == |s.pages| then Outcome([], Some(if s.end.Failed? then s.end.error else EofInHeaders))
    else if h == 0 then Outcome([], Some(NoHeaders))
    else
      var k := SeekFrom(s.pages, h, base);
      if k == |s.pages| then Outcome([], EndError(s.end))
      else
        assert s.pages[0] in s.pages;
        Outcome([HeaderMessage(s.pages, h)] + s.pages[k..], EndError(s.end))
  }

  /** The seek target in granules, with the program's wrapping 64-bit product. */
  function Base(seekMs: int): (base: nat)
    ensures base < NO_GRANULE
  {
    (if seekMs < 0 then 0 else seekMs) * 48_000 % 0x1_0000_0000_0000_0000 / 1000
  }

  /** The largest seek whose product stays within 64 bits. */
  const SEEK_LIMIT: int := 384_307_168_202_282

  /** Whatever the target: the 64-bit product of it and the rate, in whole granules. */
  lemma BaseOfProduct(seekMs: int)
    ensures var product := (if seekMs < 0 then 0 else seekMs) * 48_000 % 0x1_0000_0000_0000_0000;
      1000 * Base(seekMs) <= product < 1000 * Base(seekMs) + 1000
  {
  }

  /** Up to here the product stays within 64 bits, and no further. */
  lemma SeekLimitIsTight()
    ensures SEEK_LIMIT * 48_000 < 0x1_0000_0000_0000_0000 <= (SEEK_LIMIT + 1) * 48_000
  {
  }

  lemma BaseWithinLimit(seekMs: int)
    requires seekMs <= SEEK_LIMIT
    ensures Base(seekMs) == 48 * (if seekMs < 0 then 0 else seekMs)
  {
  }

  // ----- The loop -----

  /** File playback may run this many ticks (5 s) ahead of real time. */
  const BUFFER_AHEAD: nat := 5 * 48_000

  predicate SplitsTo(bytes: Bytes, ending: Ending, s: Stream) {
    Split(bytes, ending) == s
  }

  /** The reader has `all.pages[n..]` ahead of it (quantified, so that callers never unfold `Split`). */
  ghost predicate At(r: Reader, all: Stream, n: nat)
    reads r
  {
    n <= |all.pages| &&
    forall bytes: Bytes :: bytes == r.rest ==> SplitsTo(bytes, r.ending, Stream(all.pages[n..], all.end))
  }

  method NextOf(r: Reader, ghost all: Stream, ghost n: nat) returns (next: ReadResult)
    requires At(r, all, n)
    modifies r
    ensures n < |all.pages| ==>
      next == Page(all.pages[n], Granule(all.pages[n])) && At(r, all, n + 1) && |next.data| >= HEADER_LEN
    ensures n == |all.pages| ==> next == all.end
  {
    ghost var before, split := r.rest, Split(r.rest, r.ending);
    assert SplitsTo(before, r.ending, Stream(all.pages[n..], all.end));
    next := r.ReadOggPage();
    if next.Page? {
      assert before[|next.data|..] == r.rest;
      ghost var tail := Split(r.rest, r.ending);
      assert split == Stream([next.data] + tail.pages, tail.end);
      assert all.pages[n] == ([next.data] + tail.pages)[0];
      assert all.pages[n + 1..] == ([next.data] + tail.pages)[1..];
    }
  }

  /** Reads up to the first audio page, keeping the first header page and the last one's number. */
  method ReadHeaders(r: Reader, ghost all: Stream)
    returns (error: Option<PumpError>, head: Option<Bytes>, tagsNumber: Bytes, page: Bytes, ghost h: nat)
    requires At(r, all, 0) && !all.end.Page?
    modifies r
    ensures h == HeadersEnd(all.pages, 0)
    ensures error == if h < |all.pages| then None else Some(if all.end.Failed? then all.end.error else EofInHeaders)
    ensures h < |all.pages| ==>
      && page == all.pages[h] && At(r, all, h + 1)
      && head == (if h == 0 then None else Some(all.pages[0]))
      && tagsNumber == TagsNumber(all.pages[..h])
  {
    head, tagsNumber, page, h := None, [1, 0, 0, 0], [], 0;
    while true
      invariant At(r, all, h)
      invariant HeadersEnd(all.pages, 0) == HeadersEnd(all.pages, h)
      invariant head == if h == 0 then None else Some(all.pages[0])
      invariant tagsNumber == TagsNumber(all.pages[..h])
      decreases |all.pages| - h
    {
      var next := NextOf(r, all, h);
      match next {
        case Failed(e) => return Some(e), head, tagsNumber, page, h;
        case EndOfStream => return Some(EofInHeaders), head, tagsNumber, page, h;
        case Page(data, granule) =>
          page := data;
          if granule != 0 && granule != NO_GRANULE {
            return None, head, tagsNumber, page, h;
          }
          assert all.pages[..h + 1][h] == page;
          if head.None? {
            head := Some(page);
          } else {
            tagsNumber := page[18..22];
          }
          h := h + 1;
      }
    }
  }

  /** Drops pages until one reaches `base`. */
  method SeekPage(r: Reader, first: Bytes, base: nat, ghost all: Stream, ghost h: nat)
    returns (error: Option<PumpError>, found: Option<Bytes>, ghost k: nat)
    requires h < |all.pages| && first == all.pages[h] && At(r, all, h + 1)
    requires !all.end.Page?
    modifies r
    ensures k == SeekFrom(all.pages, h, base)
    ensures k == |all.pages| ==> found.None? && error == EndError(all.end)
    ensures k < |all.pages| ==> found == Some(all.pages[k]) && At(r, all, k + 1)
  {
    var page := first;
    k := h;
    while Granule(page) < base
      invariant h <= k < |all.pages| && page == all.pages[k] && At(r, all, k + 1)
      invariant SeekFrom(all.pages, h, base) == SeekFrom(all.pages, k, base)
      decreases |all.pages| - k
    {
      k := k + 1;
      var next := NextOf(r, all, k);
      match next {
        case Failed(e) => return Some(e), None, k;
        case EndOfStream => return None, None, k;
        case Page(data, _) => page := data;
      }
    }
    return None, Some(page), k;
  }

  /** How long the pump asks to sleep before a page, if at all. */
  function Wait(granule: nat, base: nat, elapsed: nat): (wait: nat)
    ensures elapsed + wait >= granule - base - 240_000
    ensures wait > 0 ==> elapsed + wait == granule - base - 240_000
  {
    var due := if granule > base + BUFFER_AHEAD then granule - base - BUFFER_AHEAD else 0;
    if due > elapsed then due - elapsed else 0
  }

  /** Waits until a page of this granule is due; true if the pipe was seen retired meanwhile. */
  method Pace(granule: nat, base: nat, started: int, pipe: P.Pipe, env: P.Environment) returns (retired: bool)
    requires started <= env.now
    modifies env, pipe`shutdown
    ensures old(pipe.shutdown) ==> pipe.shutdown
    ensures retired ==> pipe.shutdown
    ensures env.now >= old(env.now) &&
      (retired || env.now >= old(env.now) + Wait(granule, base, old(env.now) - started))
    ensures env.asked == old(env.asked) + Wait(granule, base, old(env.now) - started)
  {
    retired := false;
    if granule > base {
      var due := if granule - base > BUFFER_AHEAD then granule - base - BUFFER_AHEAD else 0;
      if due >= env.now - started {
        retired := env.Sleep(due - (env.now - started), pipe);
      }
    }
  }

  /** `times` holds send times from index `from` on, and none is more than 5 s ahead of its page. */
  predicate Paced(times: seq<int>, from: nat, sent: seq<Bytes>, started: int, base: nat) {
    |times| == from + |sent| &&
    forall i :: 0 <= i < |sent| ==> times[from + i] - started >= Granule(sent[i]) - base - 240_000
  }

  /** Of messages sent from index `from` on, no page is more than 5 s (240000 ticks) ahead of the headers' time. */
  predicate PacedSince(times: seq<int>, from: nat, sent: seq<Bytes>, base: nat) {
    |times| == from + |sent| &&
    forall i :: 0 < i < |sent| ==> times[from + i] - times[from] >= Granule(sent[i]) - base - 240_000
  }

  /** After the headers of a paced file a page without a granule is due only 2^64 ticks from its start. */
  lemma GranuleFreeStalls(granule: nat, base: nat, elapsed: nat)
    requires granule == 0xFFFF_FFFF_FFFF_FFFF && base + elapsed < 0xFFFF_FFFF_FFFF_FFFF - 240_000
    ensures Wait(granule, base, elapsed) == 0xFFFF_FFFF_FFFF_FFFF - 240_000 - base - elapsed
  {
  }

  /** `after` adds `n` times to `before`, in order and between `low` and `high`. */
  predicate Clocked(before: seq<int>, after: seq<int>, n: nat, low: int, high: int) {
    && low <= high && before <= after && |after| == |before| + n
    && (forall i :: |before| <= i < |after| ==> low <= after[i] <= high)
    && (forall i, j :: |before| <= i < j < |after| ==> after[i] <= after[j])
  }

  lemma ClockedSnoc(before: seq<int>, after: seq<int>, n: nat, low: int, high: int, now: int)
    requires Clocked(before, after, n, low, high) && high <= now
    ensures Clocked(before, after + [now], n + 1, low, now)
  {
  }

  /** Waits for a page's time, then sends it unless the pipe has been retired by the last check. */
  method SendWhenDue(page: Bytes, base: nat, pace: bool, started: int, pipe: P.Pipe, env: P.Environment)
    returns (sent: bool)
    requires pipe.Valid() && started <= env.now
    modifies env, pipe, pipe.slots
    ensures pipe.Valid() && old(env.now) <= env.now && (old(pipe.shutdown) ==> pipe.shutdown && !sent)
    ensures !sent ==> pipe.shutdown && pipe.Abs() == old(pipe.Abs()) && pipe.times == old(pipe.times)
    ensures !sent ==> pipe.late == old(pipe.late)
    ensures sent ==> pipe.Abs() == P.WithPage(old(pipe.Abs()), page) && pipe.times == old(pipe.times) + [env.now]
    ensures sent ==> pipe.late == old(pipe.late) + (if pipe.shutdown then 1 else 0)
    ensures !pace ==> env.asked == old(env.asked)
    ensures sent && pace ==> env.now - started >= Granule(page) - base - 240_000
  {
    if pace {
      var retired := Pace(Granule(page), base, started, pipe, env);
      if retired {
        return false;
      }
    }
    env.Yield(pipe);
    if pipe.shutdown {
      return false;
    }
    env.Yield(pipe);
    pipe.Send(page, env);
    return true;
  }

  /**
   From `v0` and its send times `t0`, sending `pages` has led to `v` and `t`, no page before `started` nor
   after `last`, and paced, none too early.
   */
  ghost predicate Progress(v0: P.View, t0: seq<int>, v: P.View, t: seq<int>, pages: seq<Bytes>,
                           started: int, last: int, base: nat, pace: bool) {
    && P.Sends(v0, pages, v) && Clocked(t0, t, |pages|, started, last)
    && (pace ==> Paced(t, |t0|, pages, started, base))
  }

  lemma ProgressNone(v: P.View, t: seq<int>, started: int, base: nat, pace: bool)
    ensures Progress(v, t, v, t, [], started, started, base, pace)
  {
    P.SendsNothing(v);
  }

  lemma ProgressOne(v0: P.View, t0: seq<int>, v: P.View, t: seq<int>, pages: seq<Bytes>, started: int, last: int,
                    base: nat, pace: bool, page: Bytes, w: P.View, now: int)
    requires Progress(v0, t0, v, t, pages, started, last, base, pace) && w == P.WithPage(v, page) && last <= now
    requires pace ==> now - started >= Granule(page) - base - 240_000
    ensures Progress(v0, t0, w, t + [now], pages + [page], started, now, base, pace)
  {
    P.SendsOne(v0, pages, v, page, w);
    ClockedSnoc(t0, t, |pages|, started, last, now);
  }

  /** The next page, unless there is none or the pipe is seen retired first. */
  method NextUnlessRetired(r: Reader, pipe: P.Pipe, env: P.Environment, ghost all: Stream, ghost n: nat)
    returns (error: Option<PumpError>, page: Option<Bytes>)
    requires At(r, all, n) && !all.end.Page?
    modifies r, env, pipe`shutdown
    ensures env.now >= old(env.now) && env.asked == old(env.asked) && (old(pipe.shutdown) ==> pipe.shutdown)
    ensures page.Some? ==> n < |all.pages| && page.value == all.pages[n] && At(r, all, n + 1)
    ensures page.None? ==> pipe.shutdown || (n == |all.pages| && error == EndError(all.end))
  {
    error, page := None, None;
    env.Yield(pipe);
    var cancelled: bool := *;
    if pipe.shutdown && cancelled {
      return;
    }
    var next := NextOf(r, all, n);
    match next {
      case Failed(e) => error := Some(e);
      case EndOfStream =>
      case Page(data, _) => page := Some(data);
    }
  }

  /** One more page of the run, keeping account of what has been sent and when. */
  method SendNext(page: Bytes, base: nat, pace: bool, started: int, pipe: P.Pipe, env: P.Environment,
                  ghost v0: P.View, ghost t0: seq<int>, ghost pages: seq<Bytes>, ghost last: int)
    returns (sent: bool, ghost now: int)
    requires pipe.Valid() && started <= last <= env.now
    requires Progress(v0, t0, pipe.Abs(), pipe.times, pages, started, last, base, pace)
    modifies env, pipe, pipe.slots
    ensures pipe.Valid() && last <= now <= env.now && (old(pipe.shutdown) ==> pipe.shutdown && !sent)
    ensures Progress(v0, t0, pipe.Abs(), pipe.times, if sent then pages + [page] else pages, started, now, base, pace)
    ensures !sent ==> pipe.shutdown
    ensures !pace ==> env.asked == old(env.asked)
    ensures pipe.late == old(pipe.late) + (if sent && pipe.shutdown then 1 else 0)
  {
    ghost var v, t := pipe.Abs(), pipe.times;
    sent := SendWhenDue(page, base, pace, started, pipe, env);
    now := if sent then env.now else last;
    if sent {
      ProgressOne(v0, t0, v, t, pages, started, last, base, pace, page, pipe.Abs(), now);
    }
  }

  /** Sends pages until the end of the stream or until the pipe is seen retired. */
  method Forward(r: Reader, first: Bytes, base: nat, pace: bool, pipe: P.Pipe, env: P.Environment,
                 ghost all: Stream, ghost k: nat)
    returns (error: Option<PumpError>, ghost n: nat, ghost last: int)
    requires pipe.Valid()
    requires k < |all.pages| && first == all.pages[k] && At(r, all, k + 1)
    requires !all.end.Page?
    modifies r, env, pipe, pipe.slots
    ensures pipe.Valid() && k <= n <= |all.pages| && last <= env.now
    ensures Progress(old(pipe.Abs()), old(pipe.times), pipe.Abs(), pipe.times, all.pages[k..n],
                     old(env.now), last, base, pace)
    ensures pipe.shutdown || (n == |all.pages| && error == EndError(all.end))
    ensures pipe.late <= old(pipe.late) + if old(pipe.shutdown) then 0 else 1
    ensures !pace ==> env.asked == old(env.asked)
  {
    var page, started := first, env.now;
    error, n, last := None, k, started;
    ProgressNone(pipe.Abs(), pipe.times, started, base, pace);
    while true
      invariant k <= n < |all.pages| && page == all.pages[n] && At(r, all, n + 1)
      invariant pipe.Valid() && started <= last <= env.now
      invariant Progress(old(pipe.Abs()), old(pipe.times), pipe.Abs(), pipe.times, all.pages[k..n],
                         started, last, base, pace)
      invariant old(pipe.shutdown) ==> pipe.shutdown
      invariant !pace ==> env.asked == old(env.asked)
      invariant pipe.late == old(pipe.late) || (pipe.late == old(pipe.late) + 1 && pipe.shutdown && !old(pipe.shutdown))
      decreases |all.pages| - n
    {
      var sent, next;
      sent, last := SendNext(page, base, pace, started, pipe, env,
                             old(pipe.Abs()), old(pipe.times), all.pages[k..n], last);
      if !sent {
        return;
      }
      assert all.pages[k..n + 1] == all.pages[k..n] + [page];
      n := n + 1;
      error, next := NextUnlessRetired(r, pipe, env, all, n);
      if next.None? {
        return;
      }
      page := next.value;
    }
  }

  /** Why nothing can be sent when audio does not follow the headers. */
  function NoStart(s: Stream, h: nat): PumpError {
    if h < |s.pages| then NoHeaders else if s.end.Failed? then s.end.error else EofInHeaders
  }

  predicate IsHeaderMessage(pages: seq<Bytes>, h: nat, message: Bytes)
    requires 0 < h <= |pages| && |pages[0]| >= HEADER_LEN
  {
    message == HeaderMessage(pages, h)
  }

  /** `headers` is the header message (quantified, so that callers never unfold its checksum). */
  ghost predicate Heads(pages: seq<Bytes>, h: nat, headers: Bytes)
    requires 0 < h <= |pages| && |pages[0]| >= HEADER_LEN
  {
    forall message :: IsHeaderMessage(pages, h, message) ==> message == headers
  }

  /** The header message, and the first audio page. */
  method MakeHeaders(r: Reader, ghost all: Stream)
    returns (error: Option<PumpError>, headers: Bytes, page: Bytes, ghost h: nat)
    requires At(r, all, 0) && !all.end.Page?
    requires all.pages != [] ==> |all.pages[0]| >= HEADER_LEN
    modifies r
    ensures h == HeadersEnd(all.pages, 0)
    ensures error == if 0 < h < |all.pages| then None else Some(NoStart(all, h))
    ensures error.None? ==> Heads(all.pages, h, headers) && page == all.pages[h] && At(r, all, h + 1)
  {
    var head, tagsNumber;
    headers := [];
    error, head, tagsNumber, page, h := ReadHeaders(r, all);
    if error.Some? {
      return;
    }
    if head.None? {
      error := Some(NoHeaders);
      return;
    }
    var tags := EmptyTagsPage(head.value[14..18], tagsNumber);
    headers := head.value + tags;
  }

  predicate IsPumped(s: Stream, base: nat, o: Outcome)
    requires forall p :: p in s.pages ==> |p| >= HEADER_LEN
  {
    o == Pumped(s, base)
  }

  /** The pump sends and ends as `o` says (quantified, so that callers never unfold `Pumped`). */
  ghost predicate PumpsTo(s: Stream, base: nat, o: Outcome)
    requires forall p :: p in s.pages ==> |p| >= HEADER_LEN
  {
    forall full :: IsPumped(s, base, full) ==> full == o
  }

  lemma PumpedHeadless(s: Stream, base: nat, h: nat)
    requires forall p :: p in s.pages ==> |p| >= HEADER_LEN
    requires h == HeadersEnd(s.pages, 0) && (h == 0 || h == |s.pages|)
    ensures PumpsTo(s, base, Outcome([], Some(NoStart(s, h))))
  {
  }

  lemma PumpedSilent(s: Stream, base: nat, h: nat)
    requires forall p :: p in s.pages ==> |p| >= HEADER_LEN
    requires h == HeadersEnd(s.pages, 0) && 0 < h < |s.pages| == SeekFrom(s.pages, h, base)
    ensures PumpsTo(s, base, Outcome([], EndError(s.end)))
  {
  }

  lemma PumpedAudio(s: Stream, base: nat, h: nat, k: nat, headers: Bytes)
    requires forall p :: p in s.pages ==> |p| >= HEADER_LEN
    requires h == HeadersEnd(s.pages, 0) && 0 < h < |s.pages| && k == SeekFrom(s.pages, h, base) < |s.pages|
    requires |s.pages[0]| >= HEADER_LEN && Heads(s.pages, h, headers)
    ensures PumpsTo(s, base, Outcome([headers] + s.pages[k..], EndError(s.end)))
  {
    assert IsHeaderMessage(s.pages, h, HeaderMessage(s.pages, h));
  }

  /** Where the pump starts sending: the header message and the first page at the seek point. */
  method FindStart(r: Reader, base: nat, ghost all: Stream)
    returns (error: Option<PumpError>, headers: Bytes, found: Option<Bytes>, ghost k: nat)
    requires At(r, all, 0) && !all.end.Page?
    requires forall p :: p in all.pages ==> |p| >= HEADER_LEN
    modifies r
    ensures found.None? ==> PumpsTo(all, base, Outcome([], error))
    ensures found.Some? ==> k < |all.pages| && found.value == all.pages[k] && At(r, all, k + 1)
    ensures found.Some? ==> PumpsTo(all, base, Outcome([headers] + all.pages[k..], EndError(all.end)))
  {
    var page;
    ghost var h;
    found, k := None, 0;
    assert all.pages != [] ==> all.pages[0] in all.pages;
    error, headers, page, h := MakeHeaders(r, all);
    if error.Some? {
      PumpedHeadless(all, base, h);
      return;
    }
    error, found, k := SeekPage(r, page, base, all, h);
    if found.Some? {
      PumpedAudio(all, base, h, k, headers);
    } else {
      PumpedSilent(all, base, h);
    }
  }

  /** The header message, then the pages from the seek point on. */
  method Play(r: Reader, headers: Bytes, first: Bytes, base: nat, pace: bool, pipe: P.Pipe, env: P.Environment,
              ghost all: Stream, ghost k: nat)
    returns (error: Option<PumpError>, ghost sent: seq<Bytes>)
    requires pipe.Valid() && !all.end.Page?
    requires k < |all.pages| && first == all.pages[k] && At(r, all, k + 1)
    modifies r, env, pipe, pipe.slots
    ensures pipe.Valid() && pipe.Abs() == P.Fed(old(pipe.Abs()), sent) && sent <= [headers] + all.pages[k..]
    ensures pipe.shutdown || (sent == [headers] + all.pages[k..] && error == EndError(all.end))
    ensures pipe.late <= old(pipe.late) + 1
    ensures Clocked(old(pipe.times), pipe.times, |sent|, old(env.now), env.now)
    ensures !pace ==> env.asked == old(env.asked)
    ensures sent != [] && (pace ==> PacedSince(pipe.times, |old(pipe.times)|, sent, base))
  {
    env.Yield(pipe);
    pipe.SetHeaders(headers, env);
    ghost var n, last, announced, started := 0, 0, pipe.Abs(), env.now;
    error, n, last := Forward(r, first, base, pace, pipe, env, all, k);
    sent := [headers] + all.pages[k..n];
    P.SendsIsWithPages(announced, all.pages[k..n], pipe.Abs());
    SentSoFar(headers, all.pages, k, n);
    ClockedCons(old(pipe.times), started, pipe.times, n - k, old(env.now), last, env.now);
    if pace {
      PacedCons(pipe.times, |old(pipe.times)|, all.pages[k..n], headers, base);
    }
  }

  lemma ClockedCons(before: seq<int>, started: int, after: seq<int>, n: nat, low: int, last: int, high: int)
    requires low <= started && last <= high && Clocked(before + [started], after, n, started, last)
    ensures Clocked(before, after, n + 1, low, high) && after[|before|] == started
  {
    assert after[|before|] == (before + [started])[|before|];
    assert before == (before + [started])[..|before|];
  }

  lemma PacedCons(times: seq<int>, from: nat, pages: seq<Bytes>, headers: Bytes, base: nat)
    requires from < |times| && Paced(times, from + 1, pages, times[from], base)
    ensures PacedSince(times, from, [headers] + pages, base)
  {
    forall i | 0 < i < |pages| + 1
      ensures times[from + i] - times[from] >= Granule(([headers] + pages)[i]) - base - 240_000
    {
      assert times[from + 1 + (i - 1)] - times[from] >= Granule(pages[i - 1]) - base - 240_000;
    }
  }

  /**
   The pump. Left alone it sends exactly what `Pumped` says and ends as it says; retired, it has sent
   some prefix of that, at most one message of it after the retirement. The first message is announced
   as headers, the others are sent as pages, at times that never run backwards. Paced, no page is sent
   more than 5 s early, counted from the moment the headers were; otherwise no wait is ever asked for.
   */
  method PumpOgg(r: Reader, seekMs: int, pace: bool, pipe: P.Pipe, env: P.Environment)
    returns (error: Option<PumpError>, ghost sent: seq<Bytes>)
    requires pipe.Valid()
    modifies r, env, pipe, pipe.slots
    ensures pipe.Valid() && pipe.Abs() == P.Fed(old(pipe.Abs()), sent) && pipe.log == old(pipe.log) + sent
    ensures var full := Pumped(Split(old(r.rest), r.ending), Base(seekMs));
      && sent <= full.emitted
      && (pipe.shutdown || (sent == full.emitted && error == full.error))
    ensures pipe.late <= old(pipe.late) + 1
    ensures Clocked(old(pipe.times), pipe.times, |sent|, old(env.now), env.now)
    ensures !pace ==> env.asked == old(env.asked)
    ensures pace ==> PacedSince(pipe.times, |old(pipe.times)|, sent, Base(seekMs))
  {
    ghost var all := Split(r.rest, r.ending);
    assert all.pages[0..] == all.pages;
    sent := [];
    var headers, found;
    ghost var k;
    error, headers, found, k := FindStart(r, Base(seekMs), all);
    if found.Some? {
      error, sent := Play(r, headers, found.value, Base(seekMs), pace, pipe, env, all, k);
    }
    P.FedLog(old(pipe.Abs()), sent);
    assert IsPumped(all, Base(seekMs), Pumped(all, Base(seekMs)));
  }

  lemma SentSoFar(headers: Bytes, pages: seq<Bytes>, k: nat, n: nat)
    requires k <= n <= |pages|
    ensures [headers] + pages[k..n] <= [headers] + pages[k..]
    ensures ([headers] + pages[k..n])[1..] == pages[k..n]
    ensures n == |pages| ==> pages[k..n] == pages[k..]
  {
  }
}
