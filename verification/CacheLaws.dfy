/** What the cache promises over whole runs: least-recently-used eviction and surviving a restart. */
module CacheLaws {
  import opened Prelude
  import opened TrackCache

  // ----- Runs -----

  /** A store with its true history: when each track was last put or successfully looked up. */
  datatype History = History(store: Store, use: map<Id, int>, clock: int)

  datatype Op =
    | LookupOp(id: Id, now: int)
    | PutOp(id: Id, e: Entry)        // its entry prepared before
    | LimitOp(mb: nat)
    | ClearOp
    | VanishOp(path: Path)             // a file disappears underneath the cache
    | AppearOp(path: Path, size: nat)  // a finished download is renamed into place

  /** The clock never runs backwards, but a put reads it up to `d` seconds before it gets the lock. */
  predicate Timely(h: History, op: Op, d: nat) {
    match op
    case LookupOp(_, now) => h.clock <= now
    case PutOp(_, e) => h.clock <= e.lastAccessedAt + d
    case _ => true
  }

  function Apply(s: Store, op: Op): Store {
    match op
    case LookupOp(id, now) => GetPath(s, id, now).0
    case PutOp(id, e) => Put(s, id, e)
    case LimitOp(mb) => SetMaxMb(s, mb)
    case ClearOp => Clear(s)
    case VanishOp(path) => s.(files := s.files - {path})
    case AppearOp(path, size) => s.(files := s.files[path := size])
  }

  function UsedAt(use: map<Id, int>, id: Id, now: int): map<Id, int> {
    use[id := if id in use then Max(use[id], now) else now]
  }

  function Use(h: History, op: Op): map<Id, int> {
    match op
    case LookupOp(id, now) => if GetPath(h.store, id, now).1.Some? then h.use[id := now] else h.use
    case PutOp(id, e) => UsedAt(h.use, id, e.lastAccessedAt)
    case _ => h.use
  }

  function Clock(h: History, op: Op): int {
    match op
    case LookupOp(_, now) => now
    case PutOp(_, e) => Max(h.clock, e.lastAccessedAt)
    case _ => h.clock
  }

  /** One operation, or a restart, which may order ties as it likes. */
  ghost predicate Next(h: History, t: History, d: nat) {
    || (exists op: Op :: Timely(h, op, d) && t == History(Apply(h.store, op), Use(h, op), Clock(h, op)))
    || (IsLoad(h.store, t.store) && t.use == h.use && t.clock == h.clock)
  }

  ghost predicate Behaviour(run: seq<History>, d: nat) {
    && run != [] && run[0].use == map[]
    && run[0].store.entries == map[] && run[0].store.order == [] && run[0].store.total == 0 && run[0].store.disk.None?
    && forall i :: 0 < i < |run| ==> Next(run[i - 1], run[i], d)
  }

  // ----- The invariant -----

  /** How far a recorded access time may lag the true last use: less than 300 s, unless puts are later than that. */
  function Slack(d: nat): nat {
    if d < TOUCH_PERSIST_SECS then TOUCH_PERSIST_SECS - 1 else d
  }

  predicate Tracked(entries: map<Id, Entry>, use: map<Id, int>, clock: int, d: nat) {
    forall id :: id in entries ==>
      id in use && entries[id].lastAccessedAt <= use[id] <= clock && use[id] <= entries[id].lastAccessedAt + Slack(d)
  }

  predicate PastUses(use: map<Id, int>, clock: int) {
    forall id :: id in use ==> use[id] <= clock
  }

  /** Oldest access first, but for `d` seconds. */
  predicate SortedWithin(entries: map<Id, Entry>, order: seq<Id>, d: nat) {
    forall i, j :: 0 <= i < j < |order| ==> Access(entries, order[i]) <= Access(entries, order[j]) + d
  }

  /** Every entry in memory is on disk as it is; the disk may also hold entries dropped by a restart. */
  predicate Persisted(s: Store) {
    (s.entries != map[] ==> s.disk.Some?) &&
    (s.disk.Some? ==> forall id :: id in s.entries ==> id in s.disk.value && s.disk.value[id] == s.entries[id])
  }

  ghost predicate Inv(h: History, d: nat) {
    && Rep(h.store)
    && SortedWithin(h.store.entries, h.store.order, d)
    && Persisted(h.store)
    && PastUses(h.use, h.clock) && Tracked(h.store.entries, h.use, h.clock, d)
    && (h.store.disk.Some? ==> Tracked(h.store.disk.value, h.use, h.clock, d))
  }

  lemma {:induction false} WithoutSorted(entries: map<Id, Entry>, order: seq<Id>, id: Id, d: nat)
    requires SortedWithin(entries, order, d)
    ensures SortedWithin(entries, Without(order, id), d)
  {
    if order != [] {
      assert SortedWithin(entries, order[1..], d);
      WithoutSorted(entries, order[1..], id, d);
      WithoutMembers(order[1..], id);
      forall x | x in order[1..] ensures Access(entries, order[0]) <= Access(entries, x) + d {
        var i :| 0 <= i < |order[1..]| && order[1..][i] == x;
        assert order[i + 1] == x;
      }
    }
  }

  /** Re-dating one entry to now and moving it to the back keeps the order sorted. */
  lemma MoveToBackSorted(h: History, id: Id, e: Entry, d: nat)
    requires Rep(h.store) && SortedWithin(h.store.entries, h.store.order, d)
    requires Tracked(h.store.entries, h.use, h.clock, d) && h.clock <= e.lastAccessedAt + d
    ensures SortedWithin(h.store.entries[id := e], Without(h.store.order, id) + [id], d)
  {
    var s := h.store;
    var rest, after := Without(s.order, id), s.entries[id := e];
    WithoutMembers(s.order, id);
    WithoutSorted(s.entries, s.order, id, d);
    forall i, j | 0 <= i < j < |rest| + 1
      ensures Access(after, (rest + [id])[i]) <= Access(after, (rest + [id])[j]) + d
    {
      assert rest[i] in rest && rest[i] in s.entries;
      if j < |rest| {
        assert rest[j] in rest;
      }
    }
  }

  lemma EvictSorted(s: Store, d: nat)
    requires Rep(s) && SortedWithin(s.entries, s.order, d)
    ensures SortedWithin(Evict(s).entries, Evict(s).order, d)
  {
    EvictRep(s);
    EvictOrder(s);
    var t, n := Evict(s), Evicted(s);
    SuffixSorted(s.entries, s.order, n, d);
    AccessFrame(s.entries, t.entries, t.order, d);
  }

  lemma SuffixSorted(entries: map<Id, Entry>, order: seq<Id>, n: nat, d: nat)
    requires SortedWithin(entries, order, d) && n <= |order|
    ensures SortedWithin(entries, order[n..], d)
  {
  }

  lemma LookupKeeps(h: History, id: Id, now: int, d: nat)
    requires Inv(h, d) && h.clock <= now
    ensures Inv(History(Apply(h.store, LookupOp(id, now)), Use(h, LookupOp(id, now)), now), d)
  {
    var s := h.store;
    if id in s.entries {
      if s.entries[id].filePath !in s.files {
        RemoveRep(s, id);
        RemoveSorted(s, id, d);
      } else if Due(s, id, now) {
        TouchRep(s, id, now);
        MoveToBackSorted(h, id, s.entries[id].(lastAccessedAt := now), d);
      }
    }
  }

  lemma RemoveSorted(s: Store, id: Id, d: nat)
    requires Rep(s) && SortedWithin(s.entries, s.order, d)
    ensures SortedWithin(Remove(s, id).entries, Remove(s, id).order, d)
  {
    WithoutSorted(s.entries, s.order, id, d);
    WithoutMembers(s.order, id);
    AccessFrame(s.entries, Remove(s, id).entries, Without(s.order, id), d);
  }

  lemma AccessFrame(e: map<Id, Entry>, f: map<Id, Entry>, order: seq<Id>, d: nat)
    requires SortedWithin(e, order, d) && forall id :: id in order ==> Access(e, id) == Access(f, id)
    ensures SortedWithin(f, order, d)
  {
  }

  /** The state in which an operation starts to evict, the put track already counted as used. */
  function BeforeEviction(h: History, op: Op): History
    requires op.PutOp? || op.LimitOp?
  {
    match op
    case PutOp(id, e) =>
      History(Insert(h.store, id, e), UsedAt(h.use, id, e.lastAccessedAt), Max(h.clock, e.lastAccessedAt))
    case LimitOp(mb) => h.(store := h.store.(maxBytes := MaxBytes(mb)))
  }

  lemma BeforeEvictionKeeps(h: History, op: Op, d: nat)
    requires Inv(h, d) && Timely(h, op, d) && (op.PutOp? || op.LimitOp?)
    ensures var b := BeforeEviction(h, op);
      Rep(b.store) && SortedWithin(b.store.entries, b.store.order, d) && PastUses(b.use, b.clock) &&
        Tracked(b.store.entries, b.use, b.clock, d)
    ensures Apply(h.store, op) == Save(Evict(BeforeEviction(h, op).store))
  {
    if op.PutOp? {
      InsertRep(h.store, op.id, op.e);
      MoveToBackSorted(h, op.id, op.e, d);
    }
  }

  lemma EvictingKeeps(h: History, op: Op, d: nat)
    requires Inv(h, d) && Timely(h, op, d) && (op.PutOp? || op.LimitOp?)
    ensures Inv(History(Apply(h.store, op), Use(h, op), Clock(h, op)), d)
  {
    BeforeEvictionKeeps(h, op, d);
    EvictedStore(BeforeEviction(h, op), d);
  }

  lemma EvictedStore(b: History, d: nat)
    requires Rep(b.store) && SortedWithin(b.store.entries, b.store.order, d) && PastUses(b.use, b.clock) &&
      Tracked(b.store.entries, b.use, b.clock, d)
    ensures Inv(b.(store := Save(Evict(b.store))), d)
  {
    EvictRep(b.store);
    EvictOrder(b.store);
    EvictSorted(b.store, d);
  }

  lemma RestartKeeps(h: History, t: Store, d: nat)
    requires Inv(h, d) && IsLoad(h.store, t)
    ensures Inv(History(t, h.use, h.clock), d)
  {
  }

  lemma NextKeeps(h: History, t: History, d: nat)
    requires Inv(h, d) && Next(h, t, d)
    ensures Inv(t, d)
  {
    if IsLoad(h.store, t.store) && t.use == h.use && t.clock == h.clock {
      RestartKeeps(h, t.store, d);
    } else {
      var op :| Timely(h, op, d) && t == History(Apply(h.store, op), Use(h, op), Clock(h, op));
      match op
      case LookupOp(id, now) => LookupKeeps(h, id, now, d);
      case PutOp(_, _) => EvictingKeeps(h, op, d);
      case LimitOp(_) => EvictingKeeps(h, op, d);
      case _ =>
    }
  }

  lemma {:induction false} BehaviourKeeps(run: seq<History>, i: nat, d: nat)
    requires Behaviour(run, d) && i < |run|
    ensures Inv(run[i], d)
  {
    if i > 0 {
      BehaviourKeeps(run, i - 1, d);
      NextKeeps(run[i - 1], run[i], d);
    }
  }

  // ----- What one operation does -----

  lemma {:induction false} WithoutMiddle(a: seq<Id>, id: Id, b: seq<Id>)
    requires id !in a && id !in b
    ensures Without(a + [id] + b, id) == a + b
  {
    if a == [] {
      assert [] + [id] + b == [id] + b;
      assert ([id] + b)[1..] == b;
      WithoutAbsent(b, id);
      assert [] + b == b;
    } else {
      assert (a + [id] + b)[1..] == a[1..] + [id] + b;
      WithoutMiddle(a[1..], id, b);
      assert [a[0]] + (a[1..] + b) == a + b;
    }
  }

  /** A lookup of a track that is not there, or was dated less than 300 s ago, changes nothing. */
  lemma LookupQuiet(s: Store, id: Id, now: int)
    ensures id !in s.entries ==> GetPath(s, id, now) == (s, None)
    ensures id in s.entries && s.entries[id].filePath in s.files && now < s.entries[id].lastAccessedAt + 300 ==>
      GetPath(s, id, now) == (s, Some(s.entries[id].filePath))
  {
  }

  /** Dated 300 s ago or earlier it is re-dated and moved to the back, everything else in place, and persisted. */
  lemma LookupRefreshes(s: Store, id: Id, now: int, a: seq<Id>, b: seq<Id>)
    requires id in s.entries && s.entries[id].filePath in s.files && now >= s.entries[id].lastAccessedAt + 300
    requires s.order == a + [id] + b && id !in a && id !in b
    ensures var e := s.entries[id].(lastAccessedAt := now);
      var entries := s.entries[id := e];
      GetPath(s, id, now) == (s.(entries := entries, order := a + b + [id], disk := Some(entries)), Some(e.filePath))
  {
    WithoutMiddle(a, id, b);
  }

  /** Without its file it is dropped, everything else in place, and that persisted. */
  lemma LookupDrops(s: Store, id: Id, now: int, a: seq<Id>, b: seq<Id>)
    requires Rep(s) && id in s.entries && s.entries[id].filePath !in s.files
    requires s.order == a + [id] + b && id !in a && id !in b
    ensures var entries := s.entries - {id};
      GetPath(s, id, now) ==
        (s.(entries := entries, order := a + b, total := s.total - s.entries[id].fileSize, disk := Some(entries)), None)
  {
    WithoutMiddle(a, id, b);
    RemoveRep(s, id);
    assert s.files - {s.entries[id].filePath} == s.files;
  }

  /** A put of a new track adds it at the back, before anything is evicted. */
  lemma InsertAdds(s: Store, id: Id, e: Entry)
    requires Rep(s) && id !in s.entries
    ensures Insert(s, id, e) ==
      s.(entries := s.entries[id := e], order := s.order + [id], total := s.total + e.fileSize)
  {
    assert id !in s.order;
    WithoutAbsent(s.order, id);
    InsertRep(s, id, e);
  }

  /** A put of a known track replaces it at the back; its old file goes, unless the new one has its name. */
  lemma InsertReplaces(s: Store, id: Id, e: Entry, a: seq<Id>, b: seq<Id>)
    requires Rep(s) && id in s.entries && s.order == a + [id] + b && id !in a && id !in b
    ensures var was := s.entries[id];
      var files := if was.filePath == e.filePath then s.files else s.files - {was.filePath};
      Insert(s, id, e) == s.(entries := s.entries[id := e], order := a + b + [id],
                             total := s.total - was.fileSize + e.fileSize, files := files)
  {
    WithoutMiddle(a, id, b);
    InsertRep(s, id, e);
  }

  /** A file that no entry lost on the way from `s` to `t` had. */
  predicate Spared(s: Store, t: Store, p: Path) {
    p in s.files && forall y :: y in s.entries && y !in t.entries ==> s.entries[y].filePath != p
  }

  /** An eviction deletes the files of what it drops, and no others. */
  lemma {:induction false} EvictDeletes(s: Store)
    ensures forall p :: p in Evict(s).files <==> Spared(s, Evict(s), p)
    ensures forall p :: p in Evict(s).files ==> p in s.files && Evict(s).files[p] == s.files[p]
    ensures forall y :: y in Evict(s).entries ==> y in s.entries
    decreases |s.order|
  {
    if s.total > s.maxBytes && s.order != [] {
      EvictDeletes(DropOldest(s));
      EvictDeletesOne(s, Evict(DropOldest(s)));
    }
  }

  lemma EvictDeletesOne(s: Store, t: Store)
    requires s.order != []
    requires forall p :: p in t.files <==> Spared(DropOldest(s), t, p)
    requires forall y :: y in t.entries ==> y in DropOldest(s).entries
    ensures forall p :: p in t.files <==> Spared(s, t, p)
  {
    var u := DropOldest(s);
    forall p ensures Spared(u, t, p) <==> Spared(s, t, p) {
      if s.order[0] in s.entries {
        assert s.order[0] !in t.entries;
      }
    }
  }

  // ----- Main results -----

  /**
   In every run, restarts included, whose puts read the clock at most `d` seconds before they get the lock:
   whatever a put or a lowered limit evicts was last used less than 300 + `d` seconds after the last use of
   anything it keeps (for `d` below 300; twice `d` otherwise).
   */
  lemma EvictionIsLru(run: seq<History>, i: nat, op: Op, gone: Id, kept: Id, d: nat)
    requires Behaviour(run, d) && i < |run| && Timely(run[i], op, d) && (op.PutOp? || op.LimitOp?)
    requires gone in BeforeEviction(run[i], op).store.entries && gone !in Apply(run[i].store, op).entries
    requires kept in Apply(run[i].store, op).entries
    ensures var use := BeforeEviction(run[i], op).use;
      && gone in use && kept in use
      && (d < TOUCH_PERSIST_SECS ==> use[gone] < use[kept] + TOUCH_PERSIST_SECS + d)
      && (d >= TOUCH_PERSIST_SECS ==> use[gone] <= use[kept] + 2 * d)
  {
    BehaviourKeeps(run, i, d);
    BeforeEvictionKeeps(run[i], op, d);
    var b := BeforeEviction(run[i], op);
    var p, q := EvictedBefore(b.store, gone, kept);
    assert Access(b.store.entries, gone) <= Access(b.store.entries, kept) + d;
  }

  /**
   A put stamps its entry before it takes the lock. Should another operation date a track in between, the
   order is sorted afterwards if and only if no other entry has a later date than the stamp.
   */
  lemma PutKeepsOrderIff(s: Store, id: Id, e: Entry)
    requires Rep(s) && SortedByAccess(s.entries, s.order)
    ensures SortedByAccess(Insert(s, id, e).entries, Insert(s, id, e).order) <==>
      forall x :: x in s.entries && x != id ==> s.entries[x].lastAccessedAt <= e.lastAccessedAt
  {
    var rest, after := Without(s.order, id), s.entries[id := e];
    WithoutMembers(s.order, id);
    WithoutSorted(s.entries, s.order, id, 0);
    AccessFrame(s.entries, after, rest, 0);
    LastSortedIff(after, rest, id);
  }

  lemma LastSortedIff(entries: map<Id, Entry>, rest: seq<Id>, id: Id)
    requires SortedByAccess(entries, rest)
    ensures SortedByAccess(entries, rest + [id]) <==>
      forall x :: x in rest ==> Access(entries, x) <= Access(entries, id)
  {
    var order := rest + [id];
    if SortedByAccess(entries, order) {
      forall x | x in rest ensures Access(entries, x) <= Access(entries, id) {
        var i :| 0 <= i < |rest| && rest[i] == x;
        assert order[i] == x && order[|rest|] == id;
      }
    }
    if forall x :: x in rest ==> Access(entries, x) <= Access(entries, id) {
      forall i, j | 0 <= i < j < |order| ensures Access(entries, order[i]) <= Access(entries, order[j]) {
        assert rest[i] in rest;
      }
    }
  }

  function Bare(path: Path, size: nat, now: int): Entry {
    Entry(now, path, size, "", false)
  }

  /** A put with room for its file leaves it as the last entry. */
  lemma PutFits(s: Store, id: Id, e: Entry)
    requires id !in s.entries && id !in s.order && s.total >= 0 && s.total + e.fileSize <= s.maxBytes
    ensures var t := Put(s, id, e);
      && t.entries == s.entries[id := e] && t.order == s.order + [id]
      && t.total == s.total + e.fileSize && t.files == s.files && t.maxBytes == s.maxBytes
  {
    WithoutAbsent(s.order, id);
  }

  function FirstStore(s: Store, a: Id, p: Path): Store {
    Put(s, a, Bare(p, 1, 0))
  }

  /** One track put at time 0 and looked up at time 301. */
  function LookedUp(s: Store, a: Id, p: Path): seq<History> {
    var h0 := History(s, map[], 0);
    var h1 := History(FirstStore(s, a, p), map[a := 0], 0);
    [h0, h1, History(GetPath(h1.store, a, 301).0, map[a := 301], 301)]
  }

  lemma LookupRedates(s: Store, a: Id, p: Path)
    requires s.order == [a] && a in s.entries && s.entries[a].lastAccessedAt == 0 && s.entries[a].filePath == p
    requires p in s.files
    ensures GetPath(s, a, 301).1 == Some(p)
    ensures var t := GetPath(s, a, 301).0;
      && t.entries == s.entries[a := s.entries[a].(lastAccessedAt := 301)] && t.order == [a]
      && t.total == s.total && t.files == s.files && t.maxBytes == s.maxBytes
  {
    assert Without([a], a) == Without([a][1..], a) == [];
  }

  /**
   The overtaken put happens: a track is put at time 0, another put takes its stamp at time 300, a lookup
   re-dates the first track at 301, and then that put gets the lock. The order is no longer sorted.
   */
  lemma LatePutBreaksOrder(s: Store, a: Id, p: Path, b: Id, q: Path)
    requires s.entries == map[] && s.order == [] && s.total == 0 && s.disk.None?
    requires a != b && p in s.files && s.maxBytes >= 2
    ensures var run, late := LookedUp(s, a, p), PutOp(b, Bare(q, 1, 300));
      Behaviour(run, 0) && Timely(run[2], late, 1) &&
      var t := Apply(run[2].store, late);
      !SortedByAccess(t.entries, t.order)
  {
    var run := LookedUp(s, a, p);
    PutFits(s, a, Bare(p, 1, 0));
    assert [] + [a] == [a];
    LookupRedates(run[1].store, a, p);
    LookedUpNext(s, a, p);
    PutFits(run[2].store, b, Bare(q, 1, 300));
    var t := Put(run[2].store, b, Bare(q, 1, 300));
    assert t.order == [a] + [b];
    assert Access(t.entries, t.order[0]) == 301 && Access(t.entries, t.order[1]) == 300;
  }

  lemma LookedUpNext(s: Store, a: Id, p: Path)
    requires GetPath(FirstStore(s, a, p), a, 301).1 == Some(p)
    ensures Next(LookedUp(s, a, p)[0], LookedUp(s, a, p)[1], 0) && Next(LookedUp(s, a, p)[1], LookedUp(s, a, p)[2], 0)
  {
    var run := LookedUp(s, a, p);
    var put, lookup := PutOp(a, Bare(p, 1, 0)), LookupOp(a, 301);
    assert Timely(run[0], put, 0) && run[1] == History(Apply(run[0].store, put), Use(run[0], put), Clock(run[0], put));
    assert map[a := 0][a := 301] == map[a := 301];
    assert Timely(run[1], lookup, 0) &&
      run[2] == History(Apply(run[1].store, lookup), Use(run[1], lookup), Clock(run[1], lookup));
  }

  /** An evicted track stands before every survivor in the recency order. */
  lemma EvictedBefore(s: Store, gone: Id, kept: Id) returns (p: nat, q: nat)
    requires Rep(s) && gone in s.entries && gone !in Evict(s).entries && kept in Evict(s).entries
    ensures p < q < |s.order| && s.order[p] == gone && s.order[q] == kept && kept in s.entries
  {
    EvictRep(s);
    EvictOrder(s);
    assert gone in s.order && gone !in Evict(s).order && kept in Evict(s).order;
    p, q := PrefixBeforeSuffix(s.order, Evicted(s), gone, kept);
  }

  lemma PrefixBeforeSuffix(order: seq<Id>, n: nat, gone: Id, kept: Id) returns (p: nat, q: nat)
    requires n <= |order| && gone in order && gone !in order[n..] && kept in order[n..]
    ensures p < q < |order| && order[p] == gone && order[q] == kept
  {
    p :| 0 <= p < |order| && order[p] == gone;
    var k :| 0 <= k < |order[n..]| && order[n..][k] == kept;
    q := n + k;
    InSuffix(order, n, p);
  }

  lemma InSuffix(order: seq<Id>, n: nat, p: nat)
    requires p < |order| && n <= |order|
    ensures p >= n ==> order[p] in order[n..]
  {
    if p >= n {
      assert order[n..][p - n] == order[p];
    }
  }

  lemma SomeMember(order: seq<Id>)
    ensures order == [] || exists id :: id in order
  {
    if order != [] {
      assert order[0] in order;
    }
  }

  /** In every run the total is the exact sum of sizes, each listed track once, oldest access first but for `d`. */
  lemma RepresentationHolds(run: seq<History>, i: nat, d: nat)
    requires Behaviour(run, d) && i < |run|
    ensures Rep(run[i].store) && SortedWithin(run[i].store.entries, run[i].store.order, d)
    ensures Persisted(run[i].store)
  {
    BehaviourKeeps(run, i, d);
  }

  /** Memory and disk hold the same entries. */
  predicate Synced(s: Store) {
    s.disk == Some(s.entries)
  }

  /** Every public operation keeps memory and disk the same; a put, a new limit and a clear make them so. */
  lemma OperationsStaySynced(s: Store, op: Op)
    ensures Synced(s) ==> Synced(Apply(s, op))
    ensures op.PutOp? || op.LimitOp? || op.ClearOp? ==> Synced(Apply(s, op))
  {
  }

  /** An operation that writes the metadata. */
  predicate Saves(s: Store, op: Op) {
    match op
    case LookupOp(id, now) => id in s.entries && (s.entries[id].filePath !in s.files || Due(s, id, now))
    case PutOp(_, _) => true
    case LimitOp(_) => true
    case ClearOp => true
    case _ => false
  }

  lemma SyncedAfterIff(s: Store, op: Op)
    ensures Synced(Apply(s, op)) <==> Saves(s, op) || Synced(s)
  {
  }

  /** What happens to a cache: an operation, or a restart that leaves it as `after`. */
  datatype Event = Did(op: Op) | Restarted(after: Store)

  ghost function After(s: Store, e: Event): Store {
    match e
    case Did(op) => Apply(s, op)
    case Restarted(after) => if IsLoad(s, after) then after else s
  }

  ghost function Run(s: Store, events: seq<Event>): Store
    decreases |events|
  {
    if events == [] then s else After(Run(s, events[..|events| - 1]), events[|events| - 1])
  }

  /** Every persisted entry has its file. */
  predicate NothingLost(s: Store) {
    s.disk.Some? && forall id :: id in s.disk.value ==> s.disk.value[id].filePath in s.files
  }

  /** Since the last restart something has been written, or that restart found every file. */
  ghost predicate WrittenSince(s: Store, events: seq<Event>)
    decreases |events|
  {
    if events == [] then Synced(s)
    else
      var front := events[..|events| - 1];
      match events[|events| - 1]
      case Did(op) => Saves(Run(s, front), op) || WrittenSince(s, front)
      case Restarted(after) =>
        if IsLoad(Run(s, front), after) then NothingLost(Run(s, front)) else WrittenSince(s, front)
  }

  lemma RestartSyncedIff(s: Store, t: Store)
    requires IsLoad(s, t)
    ensures Synced(t) <==> NothingLost(s)
  {
    if NothingLost(s) {
      assert Existing(s.disk.value, s.files) == s.disk.value;
    }
    if Synced(t) {
      assert forall id :: id in t.entries ==> s.disk.value[id].filePath in s.files;
    }
  }

  /** Over every run of operations, losses and restarts: exactly when memory and disk hold the same. */
  lemma {:induction false} SyncedIff(s: Store, events: seq<Event>)
    ensures Synced(Run(s, events)) <==> WrittenSince(s, events)
    decreases |events|
  {
    if events != [] {
      var front := events[..|events| - 1];
      SyncedIff(s, front);
      match events[|events| - 1]
      case Did(op) => SyncedAfterIff(Run(s, front), op);
      case Restarted(after) =>
        if IsLoad(Run(s, front), after) {
          RestartSyncedIff(Run(s, front), after);
        }
    }
  }

  /** A put, the loss of its file, a restart that finds it gone, and a lookup. */
  function LossyRestart(s: Store, a: Id, p: Path): seq<Event> {
    var put := Put(s, a, Bare(p, 1, 0));
    var lost := put.(files := put.files - {p});
    [Did(PutOp(a, Bare(p, 1, 0))), Did(VanishOp(p)), Restarted(lost.(entries := map[], order := [], total := 0)),
     Did(LookupOp(a, 1))]
  }

  lemma RunFour(s: Store, e1: Event, e2: Event, e3: Event, e4: Event)
    ensures Run(s, [e1, e2, e3, e4]) == After(After(After(After(s, e1), e2), e3), e4)
  {
    assert [e1, e2, e3, e4][..3] == [e1, e2, e3] && [e1, e2, e3][..2] == [e1, e2];
    assert [e1, e2][..1] == [e1] && [e1][..0] == [];
    assert Run(s, [e1]) == After(Run(s, []), e1);
    assert Run(s, [e1, e2]) == After(Run(s, [e1]), e2);
    assert Run(s, [e1, e2, e3]) == After(Run(s, [e1, e2]), e3);
  }

  /** After it the disk still has an entry that the cache has not. */
  lemma LossyRestartIsUnsynced(s: Store, a: Id, p: Path)
    requires s.entries == map[] && s.order == [] && s.total == 0 && s.maxBytes >= 1
    ensures !Synced(Run(s, LossyRestart(s, a, p)))
  {
    var events := LossyRestart(s, a, p);
    PutFits(s, a, Bare(p, 1, 0));
    var lost := After(After(s, events[0]), events[1]);
    assert Existing(lost.disk.value, lost.files) == map[];
    assert IsLoad(lost, events[2].after);
    RunFour(s, events[0], events[1], events[2], events[3]);
    assert a in lost.disk.value;
  }

  lemma {:induction false} SameMembersSameSum(e: map<Id, Entry>, a: seq<Id>, b: seq<Id>)
    requires NoDup(a) && NoDup(b) && forall x :: x in a <==> x in b
    requires forall x :: x in a ==> x in e
    ensures Sum(e, a) == Sum(e, b)
  {
    if a == [] {
      SomeMember(b);
    } else {
      var id := a[0];
      assert id in a && id !in a[1..];
      assert forall x :: x in a <==> x == id || x in a[1..];
      WithoutMembers(b, id);
      WithoutNoDup(b, id);
      SumWithout(e, b, id);
      SameMembersSameSum(e, a[1..], Without(b, id));
    }
  }

  lemma SortedHead(e: map<Id, Entry>, a: seq<Id>, id: Id)
    requires SortedByAccess(e, a) && id in a
    ensures Access(e, a[0]) <= Access(e, id)
  {
    var i :| 0 <= i < |a| && a[i] == id;
  }

  lemma {:induction false} SortedUnique(e: map<Id, Entry>, a: seq<Id>, b: seq<Id>)
    requires NoDup(a) && NoDup(b) && forall x :: x in a <==> x in b
    requires SortedByAccess(e, a) && SortedByAccess(e, b)
    requires forall x, y :: x in a && y in a && x != y ==> Access(e, x) != Access(e, y)
    ensures a == b
  {
    if a == [] {
      SomeMember(b);
    } else {
      assert a[0] in a && a[0] in b;
      assert b[0] in b && b[0] in a;
      SortedHead(e, a, b[0]);
      SortedHead(e, b, a[0]);
      assert a[0] == b[0];
      assert forall x :: x in a <==> x == a[0] || x in a[1..];
      assert forall x :: x in b <==> x == b[0] || x in b[1..];
      assert a[0] !in a[1..] && b[0] !in b[1..];
      SortedUnique(e, a[1..], b[1..]);
    }
  }

  /**
   A restart brings back every entry whose file is still there, and memory and disk then agree if and
   only if no persisted entry lost its file.
   */
  lemma RestartRestores(s: Store, t: Store)
    requires Synced(s) && IsLoad(s, t)
    ensures forall id :: id in t.entries <==> id in s.entries && s.entries[id].filePath in s.files
    ensures forall id :: id in t.entries ==> t.entries[id] == s.entries[id]
    ensures Synced(t) <==> forall id :: id in s.entries ==> s.entries[id].filePath in s.files
  {
    if forall id :: id in s.entries ==> s.entries[id].filePath in s.files {
      assert Existing(s.entries, s.files) == s.entries;
    }
    assert forall id :: id in t.entries ==> s.entries[id].filePath in s.files;
  }

  /** Any two access times are more than `gap` apart. */
  predicate Apart(entries: map<Id, Entry>, gap: nat) {
    forall x, y :: x in entries && y in entries && x != y ==>
      entries[x].lastAccessedAt + gap < entries[y].lastAccessedAt ||
        entries[y].lastAccessedAt + gap < entries[x].lastAccessedAt
  }

  /**
   With all files in place a restart loses nothing. Where access times are distinct it gives back the same
   order if and only if that was sorted by them, as it always is where they are more than `d` apart.
   */
  lemma RestartRoundTrip(run: seq<History>, i: nat, t: Store, d: nat)
    requires Behaviour(run, d) && i < |run| && Synced(run[i].store) && IsLoad(run[i].store, t)
    requires forall id :: id in run[i].store.entries ==> run[i].store.entries[id].filePath in run[i].store.files
    ensures t.entries == run[i].store.entries && t.total == run[i].store.total
    ensures Apart(t.entries, 0) ==> (t.order == run[i].store.order <==> SortedByAccess(t.entries, run[i].store.order))
    ensures Apart(t.entries, d) ==> t.order == run[i].store.order
  {
    var s := run[i].store;
    BehaviourKeeps(run, i, d);
    RestartRestores(s, t);
    SameMembersSameSum(t.entries, t.order, s.order);
    if Apart(t.entries, d) {
      ApartIsSorted(s, d);
    }
    if Apart(t.entries, 0) && SortedByAccess(t.entries, s.order) {
      SortedUnique(t.entries, t.order, s.order);
    }
  }

  lemma ApartIsSorted(s: Store, d: nat)
    requires Rep(s) && SortedWithin(s.entries, s.order, d) && Apart(s.entries, d)
    ensures SortedByAccess(s.entries, s.order) && Apart(s.entries, 0)
  {
    forall i, j | 0 <= i < j < |s.order| ensures Access(s.entries, s.order[i]) <= Access(s.entries, s.order[j]) {
      assert s.order[i] in s.order && s.order[j] in s.order;
    }
  }
}
