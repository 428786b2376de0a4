/**
 One playback generation: headers, a bounded burst of recent pages and a broadcast ring of
 fixed capacity. A listener takes a snapshot (its prefix) and a ring position, and from then
 on pulls; one that falls more than the capacity behind jumps to the oldest retained message.
 */
module Pipe {
  import opened Prelude

  const MAX_BURST_BUFFER: nat := 128 * 1024
  const LIVE_BACKLOG: nat := 2048
  const FILE_BACKLOG: nat := 64

  // ----- The burst -----

  function Total(pages: seq<Bytes>): nat {
    if pages == [] then 0 else |pages[0]| + Total(pages[1..])
  }

  lemma {:induction false} TotalAppend(a: seq<Bytes>, b: seq<Bytes>)
    ensures Total(a + b) == Total(a) + Total(b)
  {
    if a == [] {
      assert a + b == b;
    } else {
      assert (a + b)[1..] == a[1..] + b;
      TotalAppend(a[1..], b);
    }
  }

  /** Pages dropped from the front until the rest fits the burst buffer. */
  function Trim(pages: seq<Bytes>): (burst: seq<Bytes>)
    ensures |burst| <= |pages|
  {
    if Total(pages) <= MAX_BURST_BUFFER then pages else Trim(pages[1..])
  }

  lemma {:induction false} TrimIsSuffix(pages: seq<Bytes>)
    ensures Trim(pages) == pages[|pages| - |Trim(pages)|..]
    ensures Total(Trim(pages)) <= MAX_BURST_BUFFER
  {
    if Total(pages) > MAX_BURST_BUFFER {
      TrimIsSuffix(pages[1..]);
    }
  }

  lemma TrimOne(pages: seq<Bytes>)
    requires pages != [] && Total(pages) > MAX_BURST_BUFFER
    ensures Trim(pages) == Trim(pages[1..]) && Total(pages) == |pages[0]| + Total(pages[1..])
  {
  }

  lemma TrimDone(pages: seq<Bytes>)
    requires pages == [] || Total(pages) <= MAX_BURST_BUFFER
    ensures Trim(pages) == pages
  {
  }

  /** No longer suffix fits. */
  lemma {:induction false} TrimIsLongest(pages: seq<Bytes>, n: nat)
    requires |Trim(pages)| < n <= |pages|
    ensures Total(pages[|pages| - n..]) > MAX_BURST_BUFFER
  {
    if n < |pages| {
      TrimIsLongest(pages[1..], n);
      assert pages[1..][|pages| - 1 - n..] == pages[|pages| - n..];
    } else {
      assert pages[0..] == pages;
    }
  }

  /** Trimming as pages arrive gives what trimming everything sent would. */
  lemma {:induction false} TrimIncremental(pages: seq<Bytes>, page: Bytes)
    ensures Trim(Trim(pages) + [page]) == Trim(pages + [page])
  {
    if Total(pages) > MAX_BURST_BUFFER {
      TotalAppend(pages, [page]);
      assert (pages + [page])[1..] == pages[1..] + [page];
      TrimIncremental(pages[1..], page);
    }
  }

  /** Any parsed page is at most 65307 bytes, so the burst always reaches back two pages. */
  lemma {:induction false} BurstKeepsTwoPages(pages: seq<Bytes>)
    requires forall p :: p in pages ==> |p| <= 65307
    ensures |Trim(pages)| >= 2 || Trim(pages) == pages
  {
    if |pages| > 2 {
      if Total(pages) > MAX_BURST_BUFFER {
        BurstKeepsTwoPages(pages[1..]);
      }
    } else if |pages| == 2 {
      assert Total(pages) == |pages[0]| + (|pages[1]| + Total(pages[1..][1..]));
    } else if |pages| == 1 {
      assert Total(pages) == |pages[0]| + Total(pages[1..]);
    }
  }

  // ----- The pipe as a value -----

  /** `log` is every message broadcast so far, the ring retains its last `cap`; closed, all senders are gone. */
  datatype View = View(headers: Option<Bytes>, burst: seq<Bytes>, log: seq<Bytes>, cap: nat, closed: bool)

  function WithHeaders(v: View, h: Bytes): View {
    v.(headers := Some(h), log := v.log + [h])
  }

  function WithPage(v: View, p: Bytes): View {
    v.(burst := Trim(v.burst + [p]), log := v.log + [p])
  }

  function WithPages(v: View, pages: seq<Bytes>): View
    decreases |pages|
  {
    if pages == [] then v else WithPage(WithPages(v, pages[..|pages| - 1]), pages[|pages| - 1])
  }

  predicate IsWithPages(v: View, pages: seq<Bytes>, w: View) {
    w == WithPages(v, pages)
  }

  /** Sending `pages` takes `v` to `u` (quantified, so that callers never unfold the trimming). */
  ghost predicate Sends(v: View, pages: seq<Bytes>, u: View) {
    forall w :: IsWithPages(v, pages, w) ==> w == u
  }

  lemma SendsNothing(v: View)
    ensures Sends(v, [], v)
  {
  }

  lemma SendsOne(v: View, pages: seq<Bytes>, u: View, p: Bytes, w: View)
    requires Sends(v, pages, u) && w == WithPage(u, p)
    ensures Sends(v, pages + [p], w)
  {
    assert IsWithPages(v, pages, WithPages(v, pages));
    WithPagesSnoc(v, pages, p);
  }

  lemma SendsIsWithPages(v: View, pages: seq<Bytes>, u: View)
    ensures Sends(v, pages, u) <==> u == WithPages(v, pages)
  {
    assert IsWithPages(v, pages, WithPages(v, pages));
  }

  /** What a producer leaves behind that announces its first message as headers and sends the rest. */
  function Fed(v: View, messages: seq<Bytes>): View {
    if messages == [] then v else WithPages(WithHeaders(v, messages[0]), messages[1..])
  }

  lemma WithPagesSnoc(v: View, pages: seq<Bytes>, p: Bytes)
    ensures WithPages(v, pages + [p]) == WithPage(WithPages(v, pages), p)
  {
    assert (pages + [p])[..|pages|] == pages;
  }

  lemma {:induction false} WithPagesLog(v: View, pages: seq<Bytes>)
    ensures WithPages(v, pages).log == v.log + pages
    decreases |pages|
  {
    if pages != [] {
      WithPagesLog(v, pages[..|pages| - 1]);
      assert pages[..|pages| - 1] + [pages[|pages| - 1]] == pages;
    }
  }

  lemma FedLog(v: View, messages: seq<Bytes>)
    ensures Fed(v, messages).log == v.log + messages
  {
    if messages != [] {
      WithPagesLog(WithHeaders(v, messages[0]), messages[1..]);
      assert [messages[0]] + messages[1..] == messages;
    }
  }

  function Prefix(v: View): seq<Bytes> {
    (if v.headers.Some? then [v.headers.value] else []) + v.burst
  }

  datatype Received = Got(message: Bytes) | Empty | Lagged(next: nat) | Closed

  /** What a receiver at position `next` gets. */
  function Receive(v: View, next: nat): (r: Received)
    requires next <= |v.log|
    ensures r.Lagged? ==> next < r.next <= |v.log|
  {
    if next == |v.log| then (if v.closed then Closed else Empty)
    else if |v.log| - next > v.cap then Lagged(|v.log| - v.cap)
    else Got(v.log[next])
  }

  /**
   What a receiver gets: the next message while the ring still has it; nothing yet, or the end, when it has
   caught up; and one too far behind is moved to the oldest message the ring retains, which it gets next.
   */
  lemma ReceiveOutcome(v: View, next: nat)
    requires next <= |v.log|
    ensures next == |v.log| ==> Receive(v, next) == if v.closed then Closed else Empty
    ensures next < |v.log| <= next + v.cap ==> Receive(v, next) == Got(v.log[next])
    ensures |v.log| > next + v.cap ==> Receive(v, next) == Lagged(|v.log| - v.cap)
    ensures |v.log| > next + v.cap && v.cap > 0 ==> Receive(v, |v.log| - v.cap) == Got(v.log[|v.log| - v.cap])
  {
  }

  // ----- The pipe as an object -----

  lemma SlotsDistinct(i: nat, j: nat, cap: nat)
    requires i < j < i + cap
    ensures i % cap != j % cap
  {
    var q, r := i / cap, j / cap;
    assert j % cap - i % cap == (j - i) - cap * (r - q);
    assert r - q >= 1 ==> cap * (r - q) >= cap;
    assert r - q <= -1 ==> cap * (r - q) <= 0 - cap;
  }

  /** The clock, in ticks of the 48 kHz granule clock, and whoever may retire the pipe meanwhile. */
  class Environment {
    var now: int
    ghost var asked: nat  // all the waits asked for so far

    method Yield(pipe: Pipe)
      modifies this, pipe`shutdown
      ensures now >= old(now) && asked == old(asked) && (old(pipe.shutdown) ==> pipe.shutdown)
    {
      var passed: nat :| true;
      var retire: bool := *;
      now, pipe.shutdown := now + passed, pipe.shutdown || retire;
    }

    /** Sleeps `wait` at least, unless the pipe is retired in the meantime. */
    method Sleep(wait: nat, pipe: Pipe) returns (retired: bool)
      modifies this, pipe`shutdown
      ensures now >= old(now) && asked == old(asked) + wait && (old(pipe.shutdown) ==> pipe.shutdown)
      ensures if retired then pipe.shutdown else now >= old(now) + wait
    {
      Yield(pipe);
      var extra: nat :| true;
      retired := *;
      retired := retired && pipe.shutdown;
      asked := asked + wait;
      if !retired {
        now := now + wait + extra;
      }
    }
  }

  class Pipe {
    var headers: Option<Bytes>
    var burst: seq<Bytes>
    var burstLen: nat
    var shutdown: bool
    var senders: nat  // handles that can still send
    const slots: array<Bytes>
    var tail: nat
    ghost var log: seq<Bytes>
    ghost var times: seq<int>  // when each message was sent
    ghost var late: nat  // messages sent after the pipe was retired

    ghost predicate Valid()
      reads this, slots
    {
      && slots.Length > 0 && tail == |log| == |times| && burstLen == Total(burst)
      && forall i {:trigger log[i]} :: 0 <= i < tail && tail - slots.Length <= i ==> slots[i % slots.Length] == log[i]
    }

    ghost function Abs(): View
      reads this
    {
      View(headers, burst, log, slots.Length, senders == 0)
    }

    constructor (backlog: nat)
      requires backlog > 0
      ensures Valid() && fresh(slots) && !shutdown && late == 0 && senders == 1
      ensures Abs() == View(None, [], [], backlog, false)
    {
      headers, burst, burstLen, shutdown, tail, log := None, [], 0, false, 0, [];
      senders, times, late := 1, [], 0;
      slots := new Bytes[backlog](_ => []);
    }

    method Broadcast(m: Bytes, ghost env: Environment)
      requires Valid()
      modifies this`tail, this`log, this`times, this`late, slots
      ensures Valid() && log == old(log) + [m] && times == old(times) + [env.now]
      ensures late == old(late) + (if shutdown then 1 else 0)
    {
      forall i | 0 <= i < tail && tail + 1 - slots.Length <= i ensures i % slots.Length != tail % slots.Length {
        SlotsDistinct(i, tail, slots.Length);
      }
      slots[tail % slots.Length] := m;
      tail, log, times := tail + 1, log + [m], times + [env.now];
      late := late + (if shutdown then 1 else 0);
    }

    method SetHeaders(h: Bytes, ghost env: Environment)
      requires Valid()
      modifies this, slots
      ensures Valid() && shutdown == old(shutdown) && times == old(times) + [env.now]
      ensures late == old(late) + (if shutdown then 1 else 0)
      ensures Abs() == WithHeaders(old(Abs()), h)
    {
      headers := Some(h);
      Broadcast(h, env);
    }

    method Send(page: Bytes, ghost env: Environment)
      requires Valid()
      modifies this, slots
      ensures Valid() && shutdown == old(shutdown) && times == old(times) + [env.now]
      ensures late == old(late) + (if shutdown then 1 else 0)
      ensures Abs() == WithPage(old(Abs()), page)
    {
      TotalAppend(burst, [page]);
      assert Total([page]) == |page|;
      burstLen := burstLen + |page|;
      burst := burst + [page];
      TrimBurst();
      Broadcast(page, env);
    }

    method TrimBurst()
      requires burstLen == Total(burst)
      modifies this`burst, this`burstLen
      ensures burst == Trim(old(burst)) && burstLen == Total(burst)
    {
      ghost var goal := Trim(burst);
      while burstLen > MAX_BURST_BUFFER && burst != []
        invariant burstLen == Total(burst)
        invariant Trim(burst) == goal
        decreases |burst|
      {
        TrimOne(burst);
        burstLen, burst := burstLen - |burst[0]|, burst[1..];
      }
      TrimDone(burst);
    }

    /** The prefix and the ring position, taken together. */
    method Subscribe() returns (next: nat, prefix: seq<Bytes>)
      requires Valid()
      ensures next == |Abs().log| && prefix == Prefix(Abs())
    {
      prefix := (if headers.Some? then [headers.value] else []) + burst;
      next := tail;
    }

    method Recv(next: nat) returns (r: Received)
      requires Valid() && next <= tail
      ensures r == Receive(Abs(), next)
    {
      if next == tail {
        return if senders == 0 then Closed else Empty;
      }
      if tail - next > slots.Length {
        return Lagged(tail - slots.Length);
      }
      assert log[next] == slots[next % slots.Length];
      return Got(slots[next % slots.Length]);
    }

    method Retire()
      modifies this`shutdown
      ensures shutdown
    {
      shutdown := true;
    }

    /** Another handle that can send, as the producer gets one. */
    method Share()
      requires senders > 0
      modifies this`senders
      ensures senders == old(senders) + 1 && Abs() == old(Abs())
    {
      senders := senders + 1;
    }

    /** A handle is dropped; with the last one, whoever has drained the ring is at the end. */
    method DropSender()
      requires senders > 0
      modifies this`senders
      ensures senders == old(senders) - 1 && Abs() == old(Abs()).(closed := senders == 0)
    {
      senders := senders - 1;
    }
  }

  // ----- One producer, any number of listeners -----

  /**
   A listener body. `msgs` is its prefix followed by what it took off the ring, `at` the log
   position of each message, and the first `taken` have been handed to its client. `from` counts
   the pages sent before its burst began, `early` says it joined before the headers, and
   `firstLag` is how much it had when it first fell behind.
   */
  datatype Body = Body(msgs: seq<Bytes>, at: seq<nat>, taken: nat, next: nat,
                       from: nat, joined: nat, early: bool, firstLag: Option<nat>)

  datatype System = System(view: View, sent: seq<Bytes>, bodies: map<nat, Body>)

  datatype Event = HeadersEvent(h: Bytes) | PageEvent(p: Bytes) | CloseEvent | JoinEvent(id: nat) | PullEvent(id: nat)

  function Initial(cap: nat): System {
    System(View(None, [], [], cap, false), [], map[])
  }

  /** Log positions of a prefix: the headers, then pages from the `from`-th on. */
  function Positions(n: nat, from: nat): (at: seq<nat>)
    ensures |at| == n && forall i :: 0 <= i < n ==> at[i] == if i == 0 then 0 else from + i
  {
    seq(n, i => if i == 0 then 0 else from + i)
  }

  function JoinBody(s: System): Body {
    var from := if |s.view.burst| <= |s.sent| then |s.sent| - |s.view.burst| else 0;
    var prefix := Prefix(s.view);
    Body(prefix, Positions(|prefix|, from), 0, |s.view.log|, from, |s.sent|, s.view.headers.None?, None)
  }

  function PullBody(v: View, b: Body): Body {
    if b.taken < |b.msgs| then b.(taken := b.taken + 1)
    else if b.next > |v.log| then b
    else
      match Receive(v, b.next)
      case Got(m) => b.(msgs := b.msgs + [m], at := b.at + [b.next], taken := b.taken + 1, next := b.next + 1)
      case Lagged(n) => b.(next := n, firstLag := if b.firstLag.None? then Some(|b.msgs|) else b.firstLag)
      case Empty => b
      case Closed => b
  }

  /** What the client of a body has received so far. */
  function Heard(b: Body): seq<Bytes> {
    if b.taken <= |b.msgs| then b.msgs[..b.taken] else b.msgs
  }

  function Announce(s: System, h: Bytes): System {
    s.(view := WithHeaders(s.view, h))
  }

  function Publish(s: System, p: Bytes): System {
    s.(view := WithPage(s.view, p), sent := s.sent + [p])
  }

  function Shut(s: System): System {
    s.(view := s.view.(closed := true))
  }

  /** One atomic step; the producer sends its headers once, then pages, and at last drops its sender. */
  function Step(s: System, e: Event): System {
    match e
    case HeadersEvent(h) => if s.view.headers.None? && !s.view.closed then Announce(s, h) else s
    case PageEvent(p) => if s.view.headers.Some? && !s.view.closed then Publish(s, p) else s
    case CloseEvent => Shut(s)
    case JoinEvent(id) => if id in s.bodies then s else s.(bodies := s.bodies[id := JoinBody(s)])
    case PullEvent(id) => if id in s.bodies then s.(bodies := s.bodies[id := PullBody(s.view, s.bodies[id])]) else s
  }

  function Run(s: System, events: seq<Event>): System
    decreases |events|
  {
    if events == [] then s else Run(Step(s, events[0]), events[1..])
  }

  predicate IsTrim(sent: seq<Bytes>, burst: seq<Bytes>) {
    burst == Trim(sent)
  }

  /** Sending `sent` leaves `burst` (quantified, so that nobody unfolds `Trim` by accident). */
  ghost predicate HasBurst(sent: seq<Bytes>, burst: seq<Bytes>) {
    forall x :: IsTrim(sent, x) ==> x == burst
  }

  lemma HasBurstIsTrim(sent: seq<Bytes>, burst: seq<Bytes>)
    ensures HasBurst(sent, burst) <==> burst == Trim(sent)
  {
    assert IsTrim(sent, Trim(sent));
  }

  lemma BurstIsSuffix(sent: seq<Bytes>, burst: seq<Bytes>)
    requires HasBurst(sent, burst)
    ensures |burst| <= |sent| && burst == sent[|sent| - |burst|..]
  {
    HasBurstIsTrim(sent, burst);
    TrimIsSuffix(sent);
  }

  /** Everything broadcast so far, in terms of what the producer did. */
  ghost predicate LogInv(s: System) {
    && HasBurst(s.sent, s.view.burst)
    && (s.view.headers.None? ==> s.sent == [] && s.view.log == [])
    && (s.view.headers.Some? ==> s.view.log == [s.view.headers.value] + s.sent)
  }

  predicate Increasing(a: seq<nat>) {
    forall i, j :: 0 <= i < j < |a| ==> a[i] < a[j]
  }

  predicate Placed(log: seq<Bytes>, b: Body) {
    && b.next <= |log| && b.taken <= |b.msgs| == |b.at| && Increasing(b.at)
    && forall k {:trigger b.at[k]} :: 0 <= k < |b.at| ==> b.at[k] < b.next && log[b.at[k]] == b.msgs[k]
  }

  /** A body starts with the headers unless it joined before them and lagged straight away. */
  predicate Started(headersSet: bool, b: Body) {
    && (b.firstLag == Some(0) ==> b.next > 0)
    && (b.msgs != [] && |b.at| == |b.msgs| ==> (b.at[0] == 0 <==> !(b.early && b.firstLag == Some(0))))
    && (b.msgs == [] ==> b.early)
    && (b.early && b.msgs == [] && b.firstLag.None? ==> b.next == 0)
    && (b.early && b.msgs == [] ==> b.firstLag.None? || b.firstLag == Some(0))
    && (!b.early ==> headersSet)
  }

  /** The body's pages start with the burst of when it joined. */
  ghost predicate AtBurst(sent: seq<Bytes>, b: Body) {
    b.from <= b.joined <= |sent| && HasBurst(sent[..b.joined], sent[b.from..b.joined])
  }

  /** Before any lag, what a body has and what is ahead of it is the headers and a run of pages. */
  predicate Whole(s: System, b: Body)
    requires b.next <= |s.view.log|
  {
    b.from <= |s.sent| &&
    (b.firstLag.None? ==> b.msgs + s.view.log[b.next..] == Owed(s, b.from))
  }

  function Owed(s: System, from: nat): seq<Bytes>
    requires from <= |s.sent|
  {
    if s.view.headers.None? then [] else [s.view.headers.value] + s.sent[from..]
  }

  ghost predicate BodyInv(s: System, b: Body) {
    Placed(s.view.log, b) && Started(s.view.headers.Some?, b) && Whole(s, b) && AtBurst(s.sent, b)
  }

  ghost predicate Inv(s: System) {
    LogInv(s) && forall id :: id in s.bodies ==> BodyInv(s, s.bodies[id])
  }

  /** A body that has just joined: the headers and the burst, which is where the pages sent so far end. */
  predicate Joining(s: System, b: Body) {
    && b.from <= |s.sent| && s.sent[b.from..] == s.view.burst
    && b.msgs == (if s.view.headers.Some? then [s.view.headers.value] + s.sent[b.from..] else [])
    && b.at == Positions(|b.msgs|, b.from) && b.taken == 0 && b.next == |s.view.log| && b.joined == |s.sent|
    && b.early == s.view.headers.None? && b.firstLag.None?
  }

  lemma JoinShape(s: System)
    requires LogInv(s)
    ensures Joining(s, JoinBody(s))
  {
    BurstIsSuffix(s.sent, s.view.burst);
  }

  lemma PrefixPlaced(log: seq<Bytes>, h: Bytes, sent: seq<Bytes>, b: Body)
    requires b.from <= |sent| && b.msgs == [h] + sent[b.from..] && b.at == Positions(|b.msgs|, b.from)
    requires b.taken == 0 && b.next == |log| && log == [h] + sent
    ensures Placed(log, b)
  {
    forall k {:trigger b.at[k]} | 0 < k < |b.at| ensures log[b.at[k]] == b.msgs[k] {
      assert b.msgs[k] == sent[b.from..][k - 1];
    }
  }

  lemma JoiningPlaced(s: System, b: Body)
    requires LogInv(s) && Joining(s, b)
    ensures Placed(s.view.log, b)
  {
    if s.view.headers.Some? {
      PrefixPlaced(s.view.log, s.view.headers.value, s.sent, b);
    }
  }

  lemma JoiningWhole(s: System, b: Body)
    requires LogInv(s) && Joining(s, b)
    ensures Started(s.view.headers.Some?, b) && Whole(s, b) && AtBurst(s.sent, b)
  {
    var log := s.view.log;
    assert log[|log|..] == [];
    assert s.sent[..|s.sent|] == s.sent;
  }

  lemma PublishAtBurst(sent: seq<Bytes>, p: Bytes, b: Body)
    requires AtBurst(sent, b)
    ensures AtBurst(sent + [p], b)
  {
    assert (sent + [p])[..b.joined] == sent[..b.joined];
    assert (sent + [p])[b.from..b.joined] == sent[b.from..b.joined];
  }

  lemma PublishPlaced(log: seq<Bytes>, p: Bytes, b: Body)
    requires Placed(log, b)
    ensures Placed(log + [p], b)
  {
  }

  lemma PublishWhole(s: System, p: Bytes, b: Body)
    requires s.view.headers.Some? && b.next <= |s.view.log| && Whole(s, b)
    ensures Whole(Publish(s, p), b)
  {
    var log := s.view.log;
    assert (log + [p])[b.next..] == log[b.next..] + [p];
    assert (s.sent + [p])[b.from..] == s.sent[b.from..] + [p];
    assert b.msgs + (log[b.next..] + [p]) == b.msgs + log[b.next..] + [p];
    assert [s.view.headers.value] + (s.sent[b.from..] + [p]) == [s.view.headers.value] + s.sent[b.from..] + [p];
  }

  lemma PublishLog(s: System, p: Bytes)
    requires LogInv(s) && s.view.headers.Some?
    ensures LogInv(Publish(s, p))
  {
    HasBurstIsTrim(s.sent, s.view.burst);
    TrimIncremental(s.sent, p);
    HasBurstIsTrim(s.sent + [p], Publish(s, p).view.burst);
    assert [s.view.headers.value] + (s.sent + [p]) == [s.view.headers.value] + s.sent + [p];
  }

  lemma PublishKeeps(s: System, p: Bytes)
    requires Inv(s) && s.view.headers.Some?
    ensures Inv(Publish(s, p))
  {
    var t := Publish(s, p);
    PublishLog(s, p);
    forall id | id in t.bodies ensures BodyInv(t, t.bodies[id]) {
      assert BodyInv(s, s.bodies[id]);
      PublishPlaced(s.view.log, p, s.bodies[id]);
      PublishWhole(s, p, s.bodies[id]);
      PublishAtBurst(s.sent, p, s.bodies[id]);
    }
  }

  lemma AnnounceKeepsBody(s: System, h: Bytes, b: Body)
    requires LogInv(s) && s.view.headers.None? && BodyInv(s, b)
    ensures BodyInv(Announce(s, h), b)
  {
    assert s.view.log == [] && b.next == 0;
    assert b.at == [] && b.msgs == [];
    assert s.view.log + [h] == [h];
  }

  lemma AnnounceKeeps(s: System, h: Bytes)
    requires Inv(s) && s.view.headers.None?
    ensures Inv(Announce(s, h))
  {
    var t := Announce(s, h);
    forall id | id in t.bodies ensures BodyInv(t, t.bodies[id]) {
      assert BodyInv(s, s.bodies[id]);
      AnnounceKeepsBody(s, h, s.bodies[id]);
    }
  }

  lemma PullPlaced(v: View, b: Body)
    requires v.cap > 0 && Placed(v.log, b)
    ensures Placed(v.log, PullBody(v, b))
  {
  }

  lemma PullWhole(s: System, b: Body)
    requires s.view.cap > 0 && b.next <= |s.view.log| && b.taken <= |b.msgs| && Whole(s, b)
    ensures PullBody(s.view, b).next <= |s.view.log| && Whole(s, PullBody(s.view, b))
  {
    if b.taken == |b.msgs| && Receive(s.view, b.next).Got? {
      TakeOne(b.msgs, s.view.log, b.next);
    }
  }

  lemma TakeOne(msgs: seq<Bytes>, log: seq<Bytes>, next: nat)
    requires next < |log|
    ensures msgs + log[next..] == msgs + [log[next]] + log[next + 1..]
  {
  }

  lemma PullStarted(v: View, b: Body)
    requires v.cap > 0 && b.next <= |v.log| && b.taken <= |b.msgs| == |b.at|
    requires (v.headers.None? ==> v.log == []) && Started(v.headers.Some?, b)
    ensures Started(v.headers.Some?, PullBody(v, b))
  {
  }

  lemma ReplaceBody(s: System, id: nat, b: Body)
    requires Inv(s) && BodyInv(s, b)
    ensures Inv(s.(bodies := s.bodies[id := b]))
  {
    var t := s.(bodies := s.bodies[id := b]);
    forall j | j in t.bodies ensures BodyInv(t, t.bodies[j]) {
      if j != id {
        assert BodyInv(s, s.bodies[j]);
      }
      SameBody(s, t, t.bodies[j]);
    }
  }

  lemma SameBody(s: System, t: System, b: Body)
    requires s.view == t.view && s.sent == t.sent && BodyInv(s, b)
    ensures BodyInv(t, b)
  {
  }

  lemma JoinKeeps(s: System, id: nat)
    requires Inv(s)
    ensures Inv(s.(bodies := s.bodies[id := JoinBody(s)]))
  {
    JoinShape(s);
    JoiningPlaced(s, JoinBody(s));
    JoiningWhole(s, JoinBody(s));
    ReplaceBody(s, id, JoinBody(s));
  }

  lemma PullAtBurst(sent: seq<Bytes>, v: View, b: Body)
    requires AtBurst(sent, b)
    ensures AtBurst(sent, PullBody(v, b))
  {
    assert PullBody(v, b).from == b.from && PullBody(v, b).joined == b.joined;
  }

  lemma PullBodyKeeps(s: System, b: Body)
    requires LogInv(s) && s.view.cap > 0 && BodyInv(s, b)
    ensures BodyInv(s, PullBody(s.view, b))
  {
    PullPlaced(s.view, b);
    PullWhole(s, b);
    PullStarted(s.view, b);
    PullAtBurst(s.sent, s.view, b);
  }

  lemma PullKeeps(s: System, id: nat)
    requires Inv(s) && s.view.cap > 0 && id in s.bodies
    ensures Inv(s.(bodies := s.bodies[id := PullBody(s.view, s.bodies[id])]))
  {
    PullBodyKeeps(s, s.bodies[id]);
    ReplaceBody(s, id, PullBody(s.view, s.bodies[id]));
  }

  lemma ShutKeeps(s: System)
    requires Inv(s)
    ensures Inv(Shut(s))
  {
    forall id | id in s.bodies ensures BodyInv(Shut(s), s.bodies[id]) {
      assert BodyInv(s, s.bodies[id]);
      ShutKeepsBody(s, s.bodies[id]);
    }
  }

  lemma ShutKeepsBody(s: System, b: Body)
    requires BodyInv(s, b)
    ensures BodyInv(Shut(s), b)
  {
  }

  lemma StepKeeps(s: System, e: Event)
    requires s.view.cap > 0 && Inv(s)
    ensures Inv(Step(s, e)) && Step(s, e).view.cap == s.view.cap
  {
    match e
    case HeadersEvent(h) => if s.view.headers.None? { AnnounceKeeps(s, h); }
    case PageEvent(p) => if s.view.headers.Some? { PublishKeeps(s, p); }
    case CloseEvent => ShutKeeps(s);
    case JoinEvent(id) =>
      if id !in s.bodies {
        JoinKeeps(s, id);
      }
    case PullEvent(id) =>
      if id in s.bodies {
        PullKeeps(s, id);
      }
  }

  lemma {:induction false} RunKeeps(s: System, events: seq<Event>)
    requires s.view.cap > 0 && Inv(s)
    ensures Inv(Run(s, events))
    decreases |events|
  {
    if events != [] {
      StepKeeps(s, events[0]);
      RunKeeps(Step(s, events[0]), events[1..]);
    }
  }

  // ----- What listeners get -----

  /** Some interleaving of the producer, joins and pulls leads to `s`. */
  ghost predicate Reachable(s: System) {
    exists cap: nat, events: seq<Event> :: cap > 0 && s == Run(Initial(cap), events)
  }

  lemma ReachableInv(s: System)
    requires Reachable(s)
    ensures Inv(s)
  {
    var cap: nat, events: seq<Event> :| cap > 0 && s == Run(Initial(cap), events);
    HasBurstIsTrim([], []);
    RunKeeps(Initial(cap), events);
  }

  /**
   A listener that never fell behind the backlog has received a prefix of: the headers, then every
   page from the start of its burst on, each exactly once and in order; once drained, all of it.
   */
  lemma ExactlyOnce(s: System, id: nat)
    requires Reachable(s) && id in s.bodies && s.bodies[id].firstLag.None?
    ensures var b := s.bodies[id];
      && b.from <= |s.sent|
      && Heard(b) <= Owed(s, b.from)
      && (b.taken == |b.msgs| && b.next == |s.view.log| ==> Heard(b) == Owed(s, b.from))
  {
    ReachableInv(s);
    assert BodyInv(s, s.bodies[id]);
    WholeIsHeard(s, s.bodies[id]);
  }

  lemma WholeIsHeard(s: System, b: Body)
    requires b.next <= |s.view.log| && b.taken <= |b.msgs| && Whole(s, b) && b.firstLag.None?
    ensures Heard(b) <= Owed(s, b.from)
    ensures b.taken == |b.msgs| && b.next == |s.view.log| ==> Heard(b) == Owed(s, b.from)
  {
    assert b.msgs <= Owed(s, b.from);
    assert s.view.log[|s.view.log|..] == [];
  }

  /** Lagging or not, a listener gets messages at strictly increasing positions: no repeats. */
  lemma NoRepeats(s: System, id: nat)
    requires Reachable(s) && id in s.bodies
    ensures var b := s.bodies[id];
      && |Heard(b)| <= |b.at| && Increasing(b.at)
      && forall k {:trigger b.at[k]} :: 0 <= k < |Heard(b)| ==>
        b.at[k] < |s.view.log| && Heard(b)[k] == s.view.log[b.at[k]]
  {
    ReachableInv(s);
    assert BodyInv(s, s.bodies[id]);
  }

  /** Once the sender is gone nothing changes for anyone: a listener told so has been told everything. */
  lemma {:induction false} ClosedIsFinal(s: System, events: seq<Event>)
    requires s.view.closed
    ensures Run(s, events).view == s.view && Run(s, events).sent == s.sent
    decreases |events|
  {
    if events != [] {
      ClosedIsFinal(Step(s, events[0]), events[1..]);
    }
  }

  /** A body told that the pipe is closed has heard all it was owed, unless it lagged. */
  lemma EndedIsComplete(s: System, id: nat, events: seq<Event>)
    requires Reachable(s) && id in s.bodies && s.bodies[id].firstLag.None? && s.bodies[id].taken == |s.bodies[id].msgs|
    requires s.bodies[id].next <= |s.view.log| && Receive(s.view, s.bodies[id].next).Closed?
    ensures var b := s.bodies[id];
      b.from <= |s.sent| == |Run(s, events).sent| && Heard(b) == Owed(Run(s, events), b.from)
  {
    ExactlyOnce(s, id);
    ClosedIsFinal(s, events);
  }

  /** The first thing a listener gets is the headers, except when it joined before them and lagged at once. */
  lemma HeadersFirstIff(s: System, id: nat)
    requires Reachable(s) && id in s.bodies && Heard(s.bodies[id]) != []
    ensures var b := s.bodies[id];
      b.at != [] && (b.at[0] == 0 <==> !(b.early && b.firstLag == Some(0)))
  {
    ReachableInv(s);
    assert BodyInv(s, s.bodies[id]);
  }

  /**
   What that means for a listener about to take its first message: two pulls get it one, and it is the
   headers unless its prefix was empty and it is already more than the capacity behind.
   */
  lemma FirstPullIff(s: System, id: nat)
    requires Reachable(s) && id in s.bodies && s.view.log != []
    requires s.bodies[id].taken == 0 && s.bodies[id].firstLag.None?
    ensures var b, u := s.bodies[id], Step(Step(s, PullEvent(id)), PullEvent(id));
      && id in u.bodies && Heard(u.bodies[id]) != [] && u.bodies[id].at != []
      && (u.bodies[id].at[0] == 0 <==> !(b.msgs == [] && |s.view.log| - b.next > s.view.cap))
  {
    ReachableInv(s);
    ReachableCap(s);
    var b := s.bodies[id];
    assert BodyInv(s, b);
    if b.msgs != [] {
      PullPrefix(s.view, b);
    } else {
      PullEmpty(s.view, b);
    }
  }

  /** From a prefix two pulls take the first two messages, or the only one and whatever is next. */
  lemma PullPrefix(v: View, b: Body)
    requires v.cap > 0 && b.msgs != [] && |b.msgs| == |b.at| && b.taken == 0 && b.next <= |v.log|
    ensures var u := PullBody(v, PullBody(v, b));
      Heard(u) != [] && u.at != [] && u.at[0] == b.at[0]
  {
    var b1 := PullBody(v, b);
    assert b1 == b.(taken := 1);
  }

  /** With nothing before it, the first message is the next one, or the oldest one the ring retains. */
  lemma PullEmpty(v: View, b: Body)
    requires v.cap > 0 && b.msgs == [] && b.at == [] && b.taken == 0 && b.next == 0 && v.log != []
    ensures var u := PullBody(v, PullBody(v, b));
      Heard(u) != [] && u.at != [] && (u.at[0] == 0 <==> |v.log| <= v.cap)
  {
    if |v.log| > v.cap {
      assert PullBody(v, b).next == |v.log| - v.cap;
    } else {
      assert PullBody(v, b).msgs == [v.log[0]];
    }
  }

  lemma ReachableCap(s: System)
    requires Reachable(s)
    ensures s.view.cap > 0
  {
    var cap: nat, events: seq<Event> :| cap > 0 && s == Run(Initial(cap), events);
    CapStays(Initial(cap), events);
  }

  lemma {:induction false} CapStays(s: System, events: seq<Event>)
    ensures Run(s, events).view.cap == s.view.cap
    decreases |events|
  {
    if events != [] {
      CapStays(Step(s, events[0]), events[1..]);
    }
  }

  // ----- A listener that misses the headers -----

  function Pages(p: Bytes, n: nat): (events: seq<Event>)
    ensures |events| == n
  {
    if n == 0 then [] else [PageEvent(p)] + Pages(p, n - 1)
  }

  lemma {:induction false} RunAppend(s: System, a: seq<Event>, b: seq<Event>)
    ensures Run(s, a + b) == Run(Run(s, a), b)
    decreases |a|
  {
    if a == [] {
      assert a + b == b;
    } else {
      assert (a + b)[1..] == a[1..] + b;
      RunAppend(Step(s, a[0]), a[1..], b);
    }
  }

  lemma RunFirst(s: System, e: Event, rest: seq<Event>)
    ensures Run(s, [e] + rest) == Run(Step(s, e), rest)
  {
    assert ([e] + rest)[1..] == rest;
  }

  /** Sending a page over and over only adds to the log. */
  lemma {:induction false} RunPages(s: System, p: Bytes, n: nat)
    requires s.view.headers.Some? && !s.view.closed
    ensures var u := Run(s, Pages(p, n));
      && u.bodies == s.bodies && u.view.cap == s.view.cap
      && |u.view.log| == |s.view.log| + n && forall i :: |s.view.log| <= i < |u.view.log| ==> u.view.log[i] == p
    decreases n
  {
    if n > 0 {
      RunFirst(s, PageEvent(p), Pages(p, n - 1));
      RunPages(Step(s, PageEvent(p)), p, n - 1);
      RunPagesKeep(Step(s, PageEvent(p)), p, n - 1);
    }
  }

  lemma {:induction false} RunPagesKeep(s: System, p: Bytes, n: nat)
    requires s.view.headers.Some? && !s.view.closed
    ensures s.view.log <= Run(s, Pages(p, n)).view.log
    decreases n
  {
    if n > 0 {
      RunFirst(s, PageEvent(p), Pages(p, n - 1));
      RunPagesKeep(Step(s, PageEvent(p)), p, n - 1);
      assert s.view.log <= Step(s, PageEvent(p)).view.log;
    }
  }

  /** Joins early, then one capacity's worth of pages goes by before its first pull. */
  function EarlyAndSlow(h: Bytes, p: Bytes, cap: nat): seq<Event> {
    [JoinEvent(0)] + ([HeadersEvent(h)] + (Pages(p, cap) + ([PullEvent(0)] + [PullEvent(0)])))
  }

  /** At every capacity such a listener never hears the headers first. */
  lemma EarlyAndSlowMissesHeaders(h: Bytes, p: Bytes, cap: nat)
    requires cap > 0
    ensures var s := Run(Initial(cap), EarlyAndSlow(h, p, cap));
      Reachable(s) && 0 in s.bodies && Heard(s.bodies[0]) == [p] && s.bodies[0].at == [1]
  {
    var pulls := [PullEvent(0)] + [PullEvent(0)];
    var s1 := Step(Initial(cap), JoinEvent(0));
    var s2 := Step(s1, HeadersEvent(h));
    var s3 := Run(s2, Pages(p, cap));
    RunFirst(Initial(cap), JoinEvent(0), [HeadersEvent(h)] + (Pages(p, cap) + pulls));
    RunFirst(s1, HeadersEvent(h), Pages(p, cap) + pulls);
    RunAppend(s2, Pages(p, cap), pulls);
    RunPages(s2, p, cap);
    RunFirst(s3, PullEvent(0), [PullEvent(0)]);
    var s4 := Step(s3, PullEvent(0));
    assert Run(s4, [PullEvent(0)]) == Run(Step(s4, PullEvent(0)), []);
    EarlyBody(s2, h);
    SlowPulls(s3, p);
  }

  lemma EarlyBody(s: System, h: Bytes)
    requires exists cap: nat :: s == Step(Step(Initial(cap), JoinEvent(0)), HeadersEvent(h))
    ensures 0 in s.bodies && s.bodies[0] == Body([], [], 0, 0, 0, 0, true, None)
    ensures |s.view.log| == 1 && s.view.headers.Some? && !s.view.closed
  {
  }

  lemma SlowPulls(s: System, p: Bytes)
    requires 0 in s.bodies && s.bodies[0] == Body([], [], 0, 0, 0, 0, true, None)
    requires s.view.cap > 0 && |s.view.log| == s.view.cap + 1 && s.view.log[1] == p
    ensures var u := Step(Step(s, PullEvent(0)), PullEvent(0));
      0 in u.bodies && Heard(u.bodies[0]) == [p] && u.bodies[0].at == [1]
  {
    assert Step(s, PullEvent(0)).bodies[0] == Body([], [], 0, 1, 0, 0, true, Some(0));
  }

  /**
   Where a listener's run of pages starts: with the longest suffix, within the burst buffer, of all that had
   been sent when it joined.
   */
  lemma RunStartsAtBurst(s: System, id: nat, n: nat)
    requires Reachable(s) && id in s.bodies
    ensures var b := s.bodies[id];
      && b.from <= b.joined <= |s.sent| && Total(s.sent[b.from..b.joined]) <= 131_072
      && (n < b.from ==> Total(s.sent[n..b.joined]) > 131_072)
  {
    ReachableInv(s);
    var b := s.bodies[id];
    assert BodyInv(s, b);
    var before := s.sent[..b.joined];
    TrimIsSuffix(before);
    HasBurstIsTrim(before, s.sent[b.from..b.joined]);
    assert |before| == b.joined;
    if n < b.from {
      TrimIsLongest(before, |before| - n);
      assert before[n..] == s.sent[n..b.joined];
    }
  }

  lemma {:induction false} TotalIsBytes(pages: seq<Bytes>)
    ensures Total(pages) == |Concat(pages)|
  {
    if pages != [] {
      TotalIsBytes(pages[1..]);
    }
  }

  /** In every reachable state the burst is the longest suffix of all pages sent of at most 131072 bytes. */
  lemma BurstIsLongestSuffix(s: System, n: nat)
    requires Reachable(s)
    ensures |s.view.burst| <= |s.sent| && s.view.burst == s.sent[|s.sent| - |s.view.burst|..]
    ensures |Concat(s.view.burst)| <= 131_072
    ensures |s.view.burst| < n <= |s.sent| ==> |Concat(s.sent[|s.sent| - n..])| > 131_072
  {
    TotalIsBytes(s.view.burst);
    ReachableInv(s);
    HasBurstIsTrim(s.sent, s.view.burst);
    TrimIsSuffix(s.sent);
    if |s.view.burst| < n <= |s.sent| {
      TotalIsBytes(s.sent[|s.sent| - n..]);
      TrimIsLongest(s.sent, n);
    }
  }
}
