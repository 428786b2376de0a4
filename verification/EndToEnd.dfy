/** From the bytes of a source to what a listener hears: the pump and the pipe together. */
module EndToEnd {
  import opened Prelude
  import opened OggPage
  import opened OggPump
  import opened PumpLaws
  import P = Pipe

  /** A pipe holding messages of a pump holds the header message and the pages that followed it. */
  lemma PumpedPipe(s: P.System, messages: seq<Bytes>)
    requires P.Reachable(s) && messages != [] && s.view.log == messages
    ensures s.view.headers == Some(messages[0]) && s.sent == messages[1..]
  {
    P.ReachableInv(s);
    assert ([s.view.headers.value] + s.sent)[1..] == s.sent;
  }

  lemma {:induction false} FedBurst(v: P.View, pages: seq<Bytes>)
    requires v.burst == []
    ensures P.WithPages(v, pages) == v.(burst := P.Trim(pages), log := v.log + pages)
    decreases |pages|
  {
    if pages == [] {
      assert v.log + pages == v.log;
      P.TrimDone([]);
    } else {
      var front, last := pages[..|pages| - 1], pages[|pages| - 1];
      assert pages == front + [last];
      FedBurst(v, front);
      P.TrimIncremental(front, last);
      assert v.log + front + [last] == v.log + pages;
    }
  }

  /**
   Among any joins and pulls, an open pipe is in the very state the pump's own steps leave it in: what
   `PumpOgg` promises of the pipe object is what the listeners of the protocol meet.
   */
  lemma ReachableIsFed(s: P.System)
    requires P.Reachable(s)
    ensures s.view == P.Fed(P.View(None, [], [], s.view.cap, s.view.closed), s.view.log)
  {
    P.ReachableInv(s);
    P.HasBurstIsTrim(s.sent, s.view.burst);
    var empty := P.View(None, [], [], s.view.cap, s.view.closed);
    if s.view.headers.Some? {
      PumpedPipe(s, s.view.log);
      FedBurst(P.WithHeaders(empty, s.view.headers.value), s.sent);
      assert [] + [s.view.headers.value] + s.sent == s.view.log;
    } else {
      P.TrimDone([]);
    }
  }

  /** The listener has drained the pipe and never fallen behind. */
  predicate CaughtUp(s: P.System, id: nat) {
    id in s.bodies && s.bodies[id].firstLag.None? && s.bodies[id].taken == |s.bodies[id].msgs| &&
      s.bodies[id].next == |s.view.log|
  }

  /** All the bytes a listener has been handed. */
  function HeardBytes(s: P.System, id: nat): Bytes
    requires id in s.bodies
  {
    Concat(P.Heard(s.bodies[id]))
  }

  /** The bytes of a run of pages. */
  function RunBytes(pages: seq<Bytes>, from: nat, end: nat): Bytes
    requires from <= end <= |pages|
  {
    Concat(pages[from..end])
  }

  /** Of a pipe fed with a message and some pages it has the message and the last of the pages. */
  lemma HearsMessages(s: P.System, id: nat, message: Bytes, pages: seq<Bytes>, k: nat)
    requires P.Reachable(s) && CaughtUp(s, id) && k <= |pages|
    requires s.view.log != [] && s.view.log <= [message] + pages[k..]
    ensures var from, end := k + s.bodies[id].from, k + |s.view.log| - 1;
      from <= end <= |pages| && HeardBytes(s, id) == message + RunBytes(pages, from, end)
  {
    var b, log := s.bodies[id], s.view.log;
    PumpedPipe(s, log);
    P.ExactlyOnce(s, id);
    SentRun(pages, k, [message] + pages[k..], log, b.from);
    ConcatAppend([message], s.sent[b.from..]);
    ConcatOne(message);
  }

  /**
   What a listener hears that has never fallen behind and has drained a pipe into which a source was pumped,
   to its end or up to some point: the header message, and then byte for byte the run of the source's own
   pages from the start of its burst to the last one sent.
   */
  lemma ListenerHearsSource(s: P.System, id: nat, bytes: Bytes, ending: Ending, base: nat, pages: seq<Bytes>, h: nat,
                            k: nat)
    requires pages == Split(bytes, ending).pages && h == HeadersEnd(pages, 0) && k == StartOf(pages, base)
    requires P.Reachable(s) && CaughtUp(s, id)
    requires s.view.log != [] && s.view.log <= Pass(bytes, ending, base)
    ensures 0 < h < |pages| && |pages[0]| >= HEADER_LEN
    ensures k + s.bodies[id].from <= k + |s.view.log| - 1 <= |pages|
    ensures HeardBytes(s, id) == HeaderMessage(pages, h) + RunBytes(pages, k + s.bodies[id].from, k + |s.view.log| - 1)
    ensures IsAnnouncement(HeaderMessage(pages, h), pages[0], NumberOf(pages, h))
    ensures s.view.log == Pass(bytes, ending, base) ==> k + |s.view.log| - 1 == |pages|
  {
    SplitWellFormed(bytes, ending);
    AnnouncesItself(bytes, ending, base, pages, h);
    PassIsPassPages(bytes, ending, base);
    PassShape(pages, base, Pass(bytes, ending, base));
    HearsMessages(s, id, HeaderMessage(pages, h), pages, k);
  }

  /** From `from` to `joined` is the longest run up to there within the burst buffer, and at least two pages. */
  predicate StartsAtBurst(pages: seq<Bytes>, k: nat, from: nat, joined: nat) {
    && k <= from <= joined <= |pages| && P.Total(pages[from..joined]) <= 131_072
    && (forall n :: k <= n < from ==> P.Total(pages[n..joined]) > 131_072)
    && (joined - k >= 2 ==> joined - from >= 2)
  }

  lemma AnnouncesItself(bytes: Bytes, ending: Ending, base: nat, pages: seq<Bytes>, h: nat)
    requires AllPages(pages) && pages == Split(bytes, ending).pages && h == HeadersEnd(pages, 0)
    requires Pass(bytes, ending, base) != []
    ensures 0 < h < |pages| && |pages[0]| >= HEADER_LEN
    ensures IsAnnouncement(HeaderMessage(pages, h), pages[0], NumberOf(pages, h))
  {
    PassIsPassPages(bytes, ending, base);
    PassShape(pages, base, Pass(bytes, ending, base));
    HeaderMessageIs(pages, h);
  }

  /**
   Where that run starts: at the longest run of pages, within 131072 bytes, that ends with the last one sent
   before the listener joined; and since they are pages, at least the last two of those are in it.
   */
  lemma ListenerStartsAtBurst(s: P.System, id: nat, bytes: Bytes, ending: Ending, base: nat, pages: seq<Bytes>, k: nat)
    requires pages == Split(bytes, ending).pages && k == StartOf(pages, base)
    requires P.Reachable(s) && id in s.bodies && s.view.log != [] && s.view.log <= Pass(bytes, ending, base)
    ensures StartsAtBurst(pages, k, k + s.bodies[id].from, k + s.bodies[id].joined)
  {
    SourceSent(s, bytes, ending, base, pages, k);
    JoinedAtBurst(s, id, pages, k);
  }

  /** The pages sent into such a pipe are a run of the source's, from the start page on. */
  lemma SourceSent(s: P.System, bytes: Bytes, ending: Ending, base: nat, pages: seq<Bytes>, k: nat)
    requires pages == Split(bytes, ending).pages && k == StartOf(pages, base)
    requires P.Reachable(s) && s.view.log != [] && s.view.log <= Pass(bytes, ending, base)
    ensures AllPages(pages) && k + |s.sent| <= |pages| && s.sent == pages[k..k + |s.sent|]
  {
    PassTail(bytes, ending, base, pages, k);
    SentFrom(s, Pass(bytes, ending, base), pages, k);
  }

  lemma SentFrom(s: P.System, pass: seq<Bytes>, pages: seq<Bytes>, k: nat)
    requires P.Reachable(s) && s.view.log != [] && s.view.log <= pass
    requires k <= |pages| && pass[1..] == pages[k..]
    ensures k + |s.sent| <= |pages| && s.sent == pages[k..k + |s.sent|]
  {
    PumpedPipe(s, s.view.log);
    SentPages(pages, k, pass, s.view.log, s.sent);
  }

  lemma PassTail(bytes: Bytes, ending: Ending, base: nat, pages: seq<Bytes>, k: nat)
    requires pages == Split(bytes, ending).pages && k == StartOf(pages, base) && Pass(bytes, ending, base) != []
    ensures AllPages(pages) && k < |pages| && Pass(bytes, ending, base)[1..] == pages[k..]
  {
    PassIsPassPages(bytes, ending, base);
    PassShape(pages, base, Pass(bytes, ending, base));
  }

  lemma JoinedAtBurst(s: P.System, id: nat, pages: seq<Bytes>, k: nat)
    requires P.Reachable(s) && id in s.bodies
    requires AllPages(pages) && k + |s.sent| <= |pages| && s.sent == pages[k..k + |s.sent|]
    ensures StartsAtBurst(pages, k, k + s.bodies[id].from, k + s.bodies[id].joined)
  {
    var b := s.bodies[id];
    JoinedRun(s, id, pages, k, 0);
    var joined := k + b.joined;
    forall n | k <= n < k + b.from ensures P.Total(pages[n..joined]) > 131_072 {
      JoinedRun(s, id, pages, k, n - k);
    }
    if b.joined >= 2 {
      TwoPages(s, id, pages, k);
    }
  }

  lemma JoinedRun(s: P.System, id: nat, pages: seq<Bytes>, k: nat, n: nat)
    requires P.Reachable(s) && id in s.bodies
    requires k + |s.sent| <= |pages| && s.sent == pages[k..k + |s.sent|]
    ensures var from, joined := s.bodies[id].from, s.bodies[id].joined;
      && from <= joined <= |s.sent| && P.Total(pages[k + from..k + joined]) <= 131_072
      && (n < from ==> P.Total(pages[k + n..k + joined]) > 131_072)
  {
    var b := s.bodies[id];
    P.RunStartsAtBurst(s, id, n);
    SliceOfSlice(pages, k, |s.sent|, b.from, b.joined);
    if n < b.from {
      SliceOfSlice(pages, k, |s.sent|, n, b.joined);
    }
  }

  lemma SliceOfSlice(pages: seq<Bytes>, k: nat, m: nat, i: nat, j: nat)
    requires k + m <= |pages| && i <= j <= m
    ensures pages[k..k + m][i..j] == pages[k + i..k + j]
  {
    var run := pages[k..k + m];
    assert forall q :: 0 <= q < j - i ==> run[i..j][q] == run[i + q] == pages[k + i..k + j][q];
  }

  lemma SentPages(pages: seq<Bytes>, k: nat, pass: seq<Bytes>, log: seq<Bytes>, sent: seq<Bytes>)
    requires k <= |pages| && pass != [] && pass[1..] == pages[k..] && log != [] && log <= pass && sent == log[1..]
    ensures k + |sent| <= |pages| && sent == pages[k..k + |sent|]
  {
    SentRun(pages, k, pass, log, 0);
    assert log[1..][0..] == log[1..];
  }

  lemma TwoPages(s: P.System, id: nat, pages: seq<Bytes>, k: nat)
    requires P.Reachable(s) && id in s.bodies && s.bodies[id].joined >= 2
    requires AllPages(pages) && k + |s.sent| <= |pages| && s.sent == pages[k..k + |s.sent|]
    ensures s.bodies[id].joined - s.bodies[id].from >= 2
  {
    var b := s.bodies[id];
    var last := b.joined - 2;
    P.RunStartsAtBurst(s, id, last);
    if b.from > last {
      assert s.sent[last..b.joined] == [s.sent[last], s.sent[last + 1]];
      assert s.sent[last] == pages[k + last] && s.sent[last + 1] == pages[k + last + 1];
      PageLengthBound(s.sent[last]);
      PageLengthBound(s.sent[last + 1]);
      TotalTwo(s.sent[last], s.sent[last + 1]);
    }
  }

  lemma TotalTwo(p: Bytes, q: Bytes)
    ensures P.Total([p, q]) == |p| + |q|
  {
    assert [p, q][1..] == [q] && [q][1..] == [];
    assert P.Total([q]) == |q| + P.Total([q][1..]);
  }

  lemma ConcatOne(m: Bytes)
    ensures Concat([m]) == m
  {
    assert Concat([m]) == m + Concat([m][1..]);
  }

  lemma PassShape(pages: seq<Bytes>, base: nat, pass: seq<Bytes>)
    requires AllPages(pages) && pass == PassPages(pages, base) && pass != []
    ensures 0 < HeadersEnd(pages, 0) < |pages| && |pages[0]| >= HEADER_LEN && StartOf(pages, base) < |pages|
    ensures pass == [HeaderMessage(pages, HeadersEnd(pages, 0))] + pages[StartOf(pages, base)..]
  {
    FirstPage0(pages);
  }

  /** The pages of a prefix of a pass are a run of the source's. */
  lemma SentRun(pages: seq<Bytes>, k: nat, pass: seq<Bytes>, log: seq<Bytes>, from: nat)
    requires k <= |pages| && pass != [] && pass[1..] == pages[k..] && log != [] && log <= pass && from <= |log| - 1
    ensures k + |log| - 1 <= |pages| && log[0] == pass[0]
    ensures log[1..][from..] == pages[k + from..k + |log| - 1]
  {
    assert |pass[1..]| == |pages[k..]|;
    assert log == pass[..|log|];
    assert log[1..] == pass[1..][..|log| - 1];
  }
}
