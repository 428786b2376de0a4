/**
 Per-address connection counts and the listener count, over every interleaving of stream and socket
 handlers. The locked regions are methods of `PeerTable`; the handlers' phases are steps.
 */
module Connections {
  import opened Prelude

  type Ip = string
  type Conn = nat

  const MAX_CONNECTIONS_PER_IP: nat := 10
  const MAX_TOTAL_STREAM_LISTENERS: nat := 250

  /** Counters are integers here, so that a decrement below zero would show. */
  datatype Peer = Peer(streams: int, sockets: int, listening: int, lastTrack: string)

  const NO_PEER: Peer := Peer(0, 0, 0, "")

  predicate Idle(p: Peer) {
    p.streams == 0 && p.sockets == 0 && p.listening == 0
  }

  function PeerOf(peers: map<Ip, Peer>, ip: Ip): Peer {
    if ip in peers then peers[ip] else NO_PEER
  }

  /** A peer's entry after an update: gone once nothing from it is open. */
  function WithPeer(peers: map<Ip, Peer>, ip: Ip, p: Peer): map<Ip, Peer> {
    if Idle(p) then peers - {ip} else peers[ip := p]
  }

  predicate Free(count: int) {
    count < MAX_CONNECTIONS_PER_IP
  }

  function SaturatingDecrement(n: int): int {
    if n > 0 then n - 1 else 0
  }

  function WithStreams(p: Peer, n: int): Peer {
    p.(streams := n)
  }

  function WithSockets(p: Peer, n: int): Peer {
    p.(sockets := n)
  }

  function WithListening(p: Peer, on: bool): Peer {
    if on then p.(listening := p.listening + 1)
    else if p.listening > 0 then p.(listening := p.listening - 1)
    else p
  }

  // ----- The locked regions -----

  class PeerTable {
    var peers: map<Ip, Peer>

    /** Runs an update on a peer's entry, made if missing and dropped if it ends idle. */
    method UpdatePeer(ip: Ip, update: Peer -> Peer)
      modifies this`peers
      ensures peers == WithPeer(old(peers), ip, update(PeerOf(old(peers), ip)))
    {
      var peer := if ip in peers then peers[ip] else NO_PEER;
      peer := update(peer);
      if peer.streams == 0 && peer.sockets == 0 && peer.listening == 0 {
        peers := peers - {ip};
      } else {
        peers := peers[ip := peer];
      }
    }

    method TakeStreamSlot(ip: Ip) returns (free: bool)
      modifies this`peers
      ensures free <==> PeerOf(old(peers), ip).streams < 10
      ensures var p := PeerOf(old(peers), ip);
        peers == WithPeer(old(peers), ip, if free then WithStreams(p, p.streams + 1) else p)
    {
      free := Free(PeerOf(peers, ip).streams);
      var taken := if free then 1 else 0;
      UpdatePeer(ip, (p: Peer) => WithStreams(p, p.streams + taken));
    }

    method TakeSocketSlot(ip: Ip) returns (free: bool)
      modifies this`peers
      ensures free <==> PeerOf(old(peers), ip).sockets < 10
      ensures var p := PeerOf(old(peers), ip);
        peers == WithPeer(old(peers), ip, if free then WithSockets(p, p.sockets + 1) else p)
    {
      free := Free(PeerOf(peers, ip).sockets);
      var taken := if free then 1 else 0;
      UpdatePeer(ip, (p: Peer) => WithSockets(p, p.sockets + taken));
    }

    method SetListening(ip: Ip, on: bool)
      modifies this`peers
      ensures peers == WithPeer(old(peers), ip, WithListening(PeerOf(old(peers), ip), on))
    {
      UpdatePeer(ip, (p: Peer) => WithListening(p, on));
    }
  }

  // ----- Handlers -----

  /** `Admitted`: a stream slot taken, the listener not yet; `Leaving`: the listener returned, the slot not yet. */
  datatype Phase =
    | Admitted(ip: Ip)
    | Streaming(ip: Ip)
    | Leaving(ip: Ip)
    | Upgrading(ip: Ip)
    | Socket(ip: Ip, listening: bool)
    | Closing(ip: Ip)
    | Gone(ip: Ip)

  datatype State = State(peers: map<Ip, Peer>, listeners: int, conns: map<Conn, Phase>)

  datatype Step =
    | OpenStream(c: Conn, ip: Ip)
    | OpenSocket(c: Conn, ip: Ip)
    | Listen(c: Conn, on: bool)
    | NoteTrack(c: Conn, track: string)
    | FailUpgrade(c: Conn)
    | Advance(c: Conn)  // the handler's next locked region

  function Put(s: State, c: Conn, p: Phase, ip: Ip, peer: Peer): State {
    s.(conns := s.conns[c := p], peers := WithPeer(s.peers, ip, peer))
  }

  function AdvanceStep(s: State, c: Conn, p: Phase): State {
    var peer := PeerOf(s.peers, p.ip);
    match p
    case Admitted(ip) =>
      if s.listeners < MAX_TOTAL_STREAM_LISTENERS
        then s.(listeners := s.listeners + 1, conns := s.conns[c := Streaming(ip)])
      else Put(s, c, Gone(ip), ip, WithStreams(peer, peer.streams - 1))
    case Streaming(ip) => s.(listeners := SaturatingDecrement(s.listeners), conns := s.conns[c := Leaving(ip)])
    case Leaving(ip) => Put(s, c, Gone(ip), ip, WithStreams(peer, SaturatingDecrement(peer.streams)))
    case Upgrading(ip) => s.(conns := s.conns[c := Socket(ip, false)])
    case Socket(ip, listening) =>
      if listening then Put(s, c, Closing(ip), ip, WithListening(peer, false))
        else s.(conns := s.conns[c := Closing(ip)])
    case Closing(ip) => Put(s, c, Gone(ip), ip, WithSockets(peer, SaturatingDecrement(peer.sockets)))
    case Gone(_) => s
  }

  function Apply(s: State, e: Step): State {
    match e
    case OpenStream(c, ip) =>
      var peer := PeerOf(s.peers, ip);
      if c in s.conns then s
      else if Free(peer.streams) then Put(s, c, Admitted(ip), ip, WithStreams(peer, peer.streams + 1))
      else Put(s, c, Gone(ip), ip, peer)
    case OpenSocket(c, ip) =>
      var peer := PeerOf(s.peers, ip);
      if c in s.conns then s
      else if Free(peer.sockets) then Put(s, c, Upgrading(ip), ip, WithSockets(peer, peer.sockets + 1))
      else Put(s, c, Gone(ip), ip, peer)
    case Listen(c, on) =>
      if c in s.conns && s.conns[c].Socket? && s.conns[c].listening != on then
        Put(s, c, Socket(s.conns[c].ip, on), s.conns[c].ip, WithListening(PeerOf(s.peers, s.conns[c].ip), on))
      else s
    case NoteTrack(c, track) =>
      if c in s.conns && s.conns[c].Streaming? then
        s.(peers := WithPeer(s.peers, s.conns[c].ip, PeerOf(s.peers, s.conns[c].ip).(lastTrack := track)))
      else s
    case FailUpgrade(c) =>
      if c in s.conns && s.conns[c].Upgrading? then
        var ip := s.conns[c].ip;
        Put(s, c, Gone(ip), ip, WithSockets(PeerOf(s.peers, ip), PeerOf(s.peers, ip).sockets - 1))
      else s
    case Advance(c) => if c in s.conns then AdvanceStep(s, c, s.conns[c]) else s
  }

  function Run(s: State, steps: seq<Step>): State
    decreases |steps|
  {
    if steps == [] then s else Run(Apply(s, steps[0]), steps[1..])
  }

  const INITIAL: State := State(map[], 0, map[])

  // ----- Counting what is open -----

  datatype Kind = StreamsOf(ip: Ip) | SocketsOf(ip: Ip) | ListeningOf(ip: Ip) | Bodies

  predicate Is(k: Kind, p: Phase) {
    match k
    case StreamsOf(ip) => (p.Admitted? || p.Streaming? || p.Leaving?) && p.ip == ip
    case SocketsOf(ip) => (p.Upgrading? || p.Socket? || p.Closing?) && p.ip == ip
    case ListeningOf(ip) => p.Socket? && p.listening && p.ip == ip
    case Bodies => p.Streaming?
  }

  function Members(conns: map<Conn, Phase>, k: Kind): set<Conn> {
    set c | c in conns && Is(k, conns[c])
  }

  function Count(conns: map<Conn, Phase>, k: Kind): nat {
    |Members(conns, k)|
  }

  function Weight(k: Kind, p: Phase): nat {
    if Is(k, p) then 1 else 0
  }

  lemma CountMove(conns: map<Conn, Phase>, c: Conn, q: Phase, k: Kind)
    ensures Count(conns[c := q], k)
         == Count(conns, k) - (if c in conns then Weight(k, conns[c]) else 0) + Weight(k, q)
  {
    CountSplit(conns, c, k);
    CountSplit(conns[c := q], c, k);
    SameOthers(conns, c, q, k);
  }

  lemma SameOthers(conns: map<Conn, Phase>, c: Conn, q: Phase, k: Kind)
    ensures Members(conns[c := q], k) - {c} == Members(conns, k) - {c}
  {
  }

  lemma CountSplit(conns: map<Conn, Phase>, c: Conn, k: Kind)
    ensures Count(conns, k) == |Members(conns, k) - {c}| + if c in conns then Weight(k, conns[c]) else 0
  {
    MembersSplit(conns, c, k);
    var others := Members(conns, k) - {c};
    assert |others + {c}| == |others| + 1;
  }

  lemma MembersSplit(conns: map<Conn, Phase>, c: Conn, k: Kind)
    ensures var others := Members(conns, k) - {c};
      Members(conns, k) == if c in conns && Is(k, conns[c]) then others + {c} else others
  {
  }

  lemma CountAtLeastOne(conns: map<Conn, Phase>, c: Conn, k: Kind)
    requires c in conns && Is(k, conns[c])
    ensures Count(conns, k) >= 1
  {
    assert c in Members(conns, k);
  }

  // ----- Conservation -----

  /** The counters of one address are exactly what it has open. */
  predicate Balanced(peers: map<Ip, Peer>, conns: map<Conn, Phase>, ip: Ip) {
    var p := PeerOf(peers, ip);
    && p.streams == Count(conns, StreamsOf(ip)) <= MAX_CONNECTIONS_PER_IP
    && p.sockets == Count(conns, SocketsOf(ip)) <= MAX_CONNECTIONS_PER_IP
    && p.listening == Count(conns, ListeningOf(ip))
    && (ip in peers ==> !Idle(p))
  }

  ghost predicate Inv(s: State) {
    && (forall ip :: Balanced(s.peers, s.conns, ip))
    && s.listeners == Count(s.conns, Bodies) <= MAX_TOTAL_STREAM_LISTENERS
  }

  /** What moving connection `c` from one phase to another must do to the counters to keep them balanced. */
  predicate Accounts(s: State, u: State, c: Conn, p: Phase, q: Phase) {
    var a, b := PeerOf(s.peers, q.ip), PeerOf(u.peers, q.ip);
    && p.ip == q.ip && u.conns == s.conns[c := q]
    && (u.peers == s.peers || u.peers == WithPeer(s.peers, q.ip, b))
    && b.streams == a.streams - Weight(StreamsOf(q.ip), p) + Weight(StreamsOf(q.ip), q) <= MAX_CONNECTIONS_PER_IP
    && b.sockets == a.sockets - Weight(SocketsOf(q.ip), p) + Weight(SocketsOf(q.ip), q) <= MAX_CONNECTIONS_PER_IP
    && b.listening == a.listening - Weight(ListeningOf(q.ip), p) + Weight(ListeningOf(q.ip), q)
    && (q.ip in u.peers ==> !Idle(b))
    && u.listeners == s.listeners - Weight(Bodies, p) + Weight(Bodies, q) <= MAX_TOTAL_STREAM_LISTENERS
  }

  lemma AccountsKeep(s: State, u: State, c: Conn, p: Phase, q: Phase)
    requires Inv(s) && Accounts(s, u, c, p, q)
    requires if c in s.conns then s.conns[c] == p else p == Gone(q.ip)
    ensures Inv(u)
  {
    forall ip ensures Balanced(u.peers, u.conns, ip) {
      assert Balanced(s.peers, s.conns, ip);
      CountMove(s.conns, c, q, StreamsOf(ip));
      CountMove(s.conns, c, q, SocketsOf(ip));
      CountMove(s.conns, c, q, ListeningOf(ip));
    }
    CountMove(s.conns, c, q, Bodies);
  }

  /** A connection's own counters are at least one while it holds them, so no decrement can underflow. */
  lemma OwnCounters(s: State, c: Conn)
    requires Inv(s) && c in s.conns
    ensures var p, peer := s.conns[c], PeerOf(s.peers, s.conns[c].ip);
      && (Is(StreamsOf(p.ip), p) ==> peer.streams >= 1)
      && (Is(SocketsOf(p.ip), p) ==> peer.sockets >= 1)
      && (Is(ListeningOf(p.ip), p) ==> peer.listening >= 1)
      && (p.Streaming? ==> s.listeners >= 1)
  {
    var p := s.conns[c];
    assert Balanced(s.peers, s.conns, p.ip);
    if Is(StreamsOf(p.ip), p) { CountAtLeastOne(s.conns, c, StreamsOf(p.ip)); }
    if Is(SocketsOf(p.ip), p) { CountAtLeastOne(s.conns, c, SocketsOf(p.ip)); }
    if Is(ListeningOf(p.ip), p) { CountAtLeastOne(s.conns, c, ListeningOf(p.ip)); }
    if p.Streaming? { CountAtLeastOne(s.conns, c, Bodies); }
  }

  lemma AdvanceStreamAccounts(s: State, c: Conn)
    requires Inv(s) && c in s.conns && Is(StreamsOf(s.conns[c].ip), s.conns[c])
    ensures var u := AdvanceStep(s, c, s.conns[c]);
      c in u.conns && Accounts(s, u, c, s.conns[c], u.conns[c])
  {
    OwnCounters(s, c);
    assert Balanced(s.peers, s.conns, s.conns[c].ip);
  }

  lemma AdvanceSocketAccounts(s: State, c: Conn)
    requires Inv(s) && c in s.conns && !Is(StreamsOf(s.conns[c].ip), s.conns[c])
    ensures var u := AdvanceStep(s, c, s.conns[c]);
      c in u.conns && Accounts(s, u, c, s.conns[c], u.conns[c])
  {
    OwnCounters(s, c);
    assert Balanced(s.peers, s.conns, s.conns[c].ip);
    assert s.conns == s.conns[c := s.conns[c]];
  }

  lemma OpenAccounts(s: State, e: Step)
    requires Inv(s) && (e.OpenStream? || e.OpenSocket?) && e.c !in s.conns
    ensures var u := Apply(s, e);
      e.c in u.conns && u.conns[e.c].ip == e.ip && Accounts(s, u, e.c, Gone(e.ip), u.conns[e.c])
  {
    assert Balanced(s.peers, s.conns, e.ip);
  }

  lemma ListenAccounts(s: State, c: Conn, on: bool)
    requires Inv(s) && c in s.conns
    ensures var u := Apply(s, Listen(c, on));
      c in u.conns && Accounts(s, u, c, s.conns[c], u.conns[c])
  {
    OwnCounters(s, c);
    assert Balanced(s.peers, s.conns, s.conns[c].ip);
    assert s.conns == s.conns[c := s.conns[c]];
  }

  lemma NoteAccounts(s: State, c: Conn, track: string)
    requires Inv(s) && c in s.conns
    ensures var u := Apply(s, NoteTrack(c, track));
      c in u.conns && Accounts(s, u, c, s.conns[c], u.conns[c])
  {
    OwnCounters(s, c);
    assert Balanced(s.peers, s.conns, s.conns[c].ip);
    assert s.conns == s.conns[c := s.conns[c]];
  }

  lemma FailAccounts(s: State, c: Conn)
    requires Inv(s) && c in s.conns
    ensures var u := Apply(s, FailUpgrade(c));
      c in u.conns && Accounts(s, u, c, s.conns[c], u.conns[c])
  {
    OwnCounters(s, c);
    assert Balanced(s.peers, s.conns, s.conns[c].ip);
    assert s.conns == s.conns[c := s.conns[c]];
  }

  lemma StepKeeps(s: State, e: Step)
    requires Inv(s)
    ensures Inv(Apply(s, e))
  {
    if e.c in s.conns {
      if e.Advance? {
        if Is(StreamsOf(s.conns[e.c].ip), s.conns[e.c]) {
          AdvanceStreamAccounts(s, e.c);
        } else {
          AdvanceSocketAccounts(s, e.c);
        }
        AccountsKeep(s, Apply(s, e), e.c, s.conns[e.c], Apply(s, e).conns[e.c]);
      } else if e.Listen? || e.NoteTrack? || e.FailUpgrade? {
        match e {
          case Listen(c, on) => ListenAccounts(s, c, on);
          case NoteTrack(c, track) => NoteAccounts(s, c, track);
          case FailUpgrade(c) => FailAccounts(s, c);
          case _ =>
        }
        AccountsKeep(s, Apply(s, e), e.c, s.conns[e.c], Apply(s, e).conns[e.c]);
      }
    } else if e.OpenStream? || e.OpenSocket? {
      OpenAccounts(s, e);
      AccountsKeep(s, Apply(s, e), e.c, Gone(e.ip), Apply(s, e).conns[e.c]);
    }
  }

  lemma {:induction false} RunKeeps(s: State, steps: seq<Step>)
    requires Inv(s)
    ensures Inv(Run(s, steps))
    decreases |steps|
  {
    if steps != [] {
      StepKeeps(s, steps[0]);
      RunKeeps(Apply(s, steps[0]), steps[1..]);
    }
  }

  lemma ReachableInv(steps: seq<Step>)
    ensures Inv(Run(INITIAL, steps))
  {
    assert forall k :: Members(map[], k) == {};
    RunKeeps(INITIAL, steps);
  }

  // ----- Main results -----

  /** On every interleaving the listener count is exactly the live stream bodies, and never above 250. */
  lemma ListenersAreLiveBodies(steps: seq<Step>)
    ensures var s := Run(INITIAL, steps);
      s.listeners == Count(s.conns, Bodies) <= 250
  {
    ReachableInv(steps);
  }

  /**
   Per address: the counters are exactly the streams, sockets and listening sockets open, at most ten
   streams and ten sockets, no more listening than sockets, and an entry exactly while a counter is not zero.
   */
  lemma PeersAreExact(steps: seq<Step>, ip: Ip)
    ensures var s := Run(INITIAL, steps);
      var p := PeerOf(s.peers, ip);
      && p.streams == Count(s.conns, StreamsOf(ip)) <= 10
      && p.sockets == Count(s.conns, SocketsOf(ip)) <= 10
      && p.listening == Count(s.conns, ListeningOf(ip)) <= p.sockets
      && (ip in s.peers <==> Count(s.conns, StreamsOf(ip)) + Count(s.conns, SocketsOf(ip)) > 0)
  {
    ReachableInv(steps);
    var s := Run(INITIAL, steps);
    assert Balanced(s.peers, s.conns, ip);
    ListeningAtMostSockets(s.conns, ip);
  }

  /** A stream or socket is admitted exactly when its address has fewer than ten of its kind. */
  lemma OpenedIff(steps: seq<Step>, c: Conn, ip: Ip)
    ensures var s := Run(INITIAL, steps);
      c !in s.conns ==>
        var streams, sockets := Count(s.conns, StreamsOf(ip)), Count(s.conns, SocketsOf(ip));
        && Apply(s, OpenStream(c, ip)).conns[c] == (if streams < 10 then Admitted(ip) else Gone(ip))
        && Apply(s, OpenSocket(c, ip)).conns[c] == (if sockets < 10 then Upgrading(ip) else Gone(ip))
  {
    PeersAreExact(steps, ip);
  }

  /** An admitted stream gets its body exactly when there are fewer than 250 in all. */
  lemma ListenedIff(steps: seq<Step>, c: Conn)
    ensures var s := Run(INITIAL, steps);
      c in s.conns && s.conns[c].Admitted? ==>
        var ip := s.conns[c].ip;
        Apply(s, Advance(c)).conns[c] == if Count(s.conns, Bodies) < 250 then Streaming(ip) else Gone(ip)
  {
    ListenersAreLiveBodies(steps);
  }

  lemma ListeningAtMostSockets(conns: map<Conn, Phase>, ip: Ip)
    ensures Count(conns, ListeningOf(ip)) <= Count(conns, SocketsOf(ip))
  {
    var a, b := Members(conns, ListeningOf(ip)), Members(conns, SocketsOf(ip));
    assert a <= b;
    assert b == a + (b - a);
  }

  /** No decrement underflows, and no saturating one saturates. */
  lemma NoUnderflow(steps: seq<Step>, c: Conn)
    ensures var s := Run(INITIAL, steps);
      c in s.conns ==>
        var p, peer := s.conns[c], PeerOf(s.peers, s.conns[c].ip);
        && (p.Admitted? || p.Leaving? ==> peer.streams > 0)
        && (p.Streaming? ==> s.listeners > 0)
        && (p.Upgrading? || p.Closing? ==> peer.sockets > 0)
        && (p.Socket? && p.listening ==> peer.listening > 0)
  {
    ReachableInv(steps);
    var s := Run(INITIAL, steps);
    if c in s.conns {
      OwnCounters(s, c);
    }
  }

  /** Once everything an address opened is gone, nothing of it remains. */
  lemma NothingLeaks(steps: seq<Step>, ip: Ip)
    requires forall c :: c in Run(INITIAL, steps).conns && Run(INITIAL, steps).conns[c].ip == ip ==>
      Run(INITIAL, steps).conns[c].Gone?
    ensures ip !in Run(INITIAL, steps).peers
  {
    var s := Run(INITIAL, steps);
    PeersAreExact(steps, ip);
    assert Members(s.conns, StreamsOf(ip)) == {} && Members(s.conns, SocketsOf(ip)) == {};
  }
}
