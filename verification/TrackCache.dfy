/**
 The track cache: entries, a recency order and a running total, bounded in size. The operations are
 defined on values (`Store`); the class `Manager` updates the same fields in place and is proved to
 follow them. `files` stands for the cache directory and `disk` for the persisted metadata.
 */
module TrackCache {
  import opened Prelude

  type Id = string
  type Path = string

  /** A track's recency is rewritten at most this often (seconds). */
  const TOUCH_PERSIST_SECS: int := 300

  const I64_MAX: nat := 0x7FFF_FFFF_FFFF_FFFF
  const U64_MAX: nat := 0xFFFF_FFFF_FFFF_FFFF

  datatype Entry = Entry(lastAccessedAt: int, filePath: Path, fileSize: nat, bitrate: string, normalized: bool)

  datatype Store = Store(maxBytes: nat, entries: map<Id, Entry>, order: seq<Id>, total: int,
                         files: map<Path, nat>, disk: Option<map<Id, Entry>>)

  /** The byte limit: at least 64 MB, saturating at both integer widths. */
  function MaxBytes(mb: nat): nat {
    var product := (if mb < 64 then 64 else mb) * 0x10_0000;
    var saturated := if product > U64_MAX then U64_MAX else product;
    if saturated > I64_MAX then I64_MAX else saturated
  }

  /** The limit in numbers: never under 64 MB, and no more than a signed 64-bit number holds. */
  predicate IsLimit(bytes: nat, mb: nat) {
    && (mb <= 64 ==> bytes == 67_108_864)
    && (64 <= mb < 8_796_093_022_208 ==> bytes == mb * 1_048_576)
    && (mb >= 8_796_093_022_208 ==> bytes == 9_223_372_036_854_775_807)
  }

  lemma MaxBytesIsLimit(mb: nat)
    ensures IsLimit(MaxBytes(mb), mb)
  {
  }

  // ----- Operations on values -----

  function Without(order: seq<Id>, id: Id): seq<Id> {
    if order == [] then []
    else if order[0] == id then Without(order[1..], id)
    else [order[0]] + Without(order[1..], id)
  }

  function Clamp(n: int): int {
    if n < 0 then 0 else n
  }

  function Save(s: Store): Store {
    s.(disk := Some(s.entries))
  }

  function RemoveEntry(s: Store, id: Id): Store {
    if id in s.entries then
      s.(entries := s.entries - {id}, total := Clamp(s.total - s.entries[id].fileSize),
         files := s.files - {s.entries[id].filePath})
    else s
  }

  function Remove(s: Store, id: Id): Store {
    var t := RemoveEntry(s, id);
    t.(order := Without(t.order, id))
  }

  function DropOldest(s: Store): Store
    requires s.order != []
  {
    RemoveEntry(s.(order := s.order[1..]), s.order[0])
  }

  function Evict(s: Store): Store
    decreases |s.order|
  {
    if s.total <= s.maxBytes || s.order == [] then s else Evict(DropOldest(s))
  }

  /** Whether a lookup is due to rewrite the track's recency. */
  predicate Due(s: Store, id: Id, now: int) {
    id in s.entries && now - s.entries[id].lastAccessedAt >= TOUCH_PERSIST_SECS
  }

  function Touch(s: Store, id: Id, now: int): Store {
    if Due(s, id, now) then
      s.(entries := s.entries[id := s.entries[id].(lastAccessedAt := now)], order := Without(s.order, id) + [id])
    else s
  }

  function GetPath(s: Store, id: Id, now: int): (Store, Option<Path>) {
    if id !in s.entries then (s, None)
    else if s.entries[id].filePath !in s.files then (Save(Remove(s, id)), None)
    else (if Due(s, id, now) then Save(Touch(s, id, now)) else s, Some(s.entries[id].filePath))
  }

  /** What a put prepares before it takes the lock: the time and the file's size, or 0 without a file. */
  function NewEntry(s: Store, path: Path, bitrate: string, normalized: bool, now: int): Entry {
    Entry(now, path, if path in s.files then s.files[path] else 0, bitrate, normalized)
  }

  /** `id` replaced or added as the newest entry, before any eviction. */
  function Insert(s: Store, id: Id, e: Entry): Store {
    var freed := if id in s.entries then s.entries[id].fileSize else 0;
    s.(entries := s.entries[id := e],
       order := Without(s.order, id) + [id],
       total := Clamp(s.total - freed) + e.fileSize,
       files := if id in s.entries && s.entries[id].filePath != e.filePath
                then s.files - {s.entries[id].filePath} else s.files)
  }

  function Put(s: Store, id: Id, e: Entry): Store {
    Save(Evict(Insert(s, id, e)))
  }

  function SetMaxMb(s: Store, mb: nat): Store {
    Save(Evict(s.(maxBytes := MaxBytes(mb))))
  }

  function Clear(s: Store): Store {
    Save(s.(entries := map[], order := [], total := 0, files := map[]))
  }

  // ----- The representation -----

  predicate NoDup(order: seq<Id>) {
    forall i, j :: 0 <= i < j < |order| ==> order[i] != order[j]
  }

  function Sum(entries: map<Id, Entry>, order: seq<Id>): nat {
    if order == [] then 0
    else (if order[0] in entries then entries[order[0]].fileSize else 0) + Sum(entries, order[1..])
  }

  /** The order lists exactly the entries, once each, and the total is the sum of their sizes. */
  ghost predicate Rep(s: Store) {
    && NoDup(s.order)
    && (forall id :: id in s.order <==> id in s.entries)
    && s.total == Sum(s.entries, s.order)
  }

  lemma {:induction false} WithoutMembers(order: seq<Id>, id: Id)
    ensures forall x :: x in Without(order, id) <==> x in order && x != id
    ensures |Without(order, id)| <= |order|
  {
    if order != [] {
      WithoutMembers(order[1..], id);
      assert forall x :: x in order <==> x == order[0] || x in order[1..];
    }
  }

  lemma {:induction false} WithoutNoDup(order: seq<Id>, id: Id)
    requires NoDup(order)
    ensures NoDup(Without(order, id))
  {
    if order != [] {
      WithoutNoDup(order[1..], id);
      WithoutMembers(order[1..], id);
      assert order[0] !in order[1..];
    }
  }

  lemma {:induction false} WithoutAbsent(order: seq<Id>, id: Id)
    requires id !in order
    ensures Without(order, id) == order
  {
    if order != [] {
      WithoutAbsent(order[1..], id);
    }
  }

  lemma {:induction false} SumFrame(e: map<Id, Entry>, f: map<Id, Entry>, order: seq<Id>)
    requires forall id :: id in order ==> id in e && id in f && e[id].fileSize == f[id].fileSize
    ensures Sum(e, order) == Sum(f, order)
  {
    if order != [] {
      SumFrame(e, f, order[1..]);
    }
  }

  lemma {:induction false} SumWithout(e: map<Id, Entry>, order: seq<Id>, id: Id)
    requires NoDup(order) && id in order && id in e
    ensures Sum(e, Without(order, id)) == Sum(e, order) - e[id].fileSize
  {
    if order[0] == id {
      assert id !in order[1..];
      WithoutAbsent(order[1..], id);
    } else {
      SumWithout(e, order[1..], id);
    }
  }

  lemma {:induction false} SumAppend(e: map<Id, Entry>, order: seq<Id>, id: Id)
    ensures Sum(e, order + [id]) == Sum(e, order) + (if id in e then e[id].fileSize else 0)
  {
    if order != [] {
      assert (order + [id])[1..] == order[1..] + [id];
      SumAppend(e, order[1..], id);
    } else {
      assert order + [id] == [id];
    }
  }

  /** Dropping the oldest entry keeps the representation, and the clamp never acts. */
  lemma DropOldestRep(s: Store)
    requires Rep(s) && s.order != []
    ensures Rep(DropOldest(s))
    ensures var id := s.order[0]; id in s.entries && DropOldest(s).total == s.total - s.entries[id].fileSize
  {
    var id := s.order[0];
    var t := DropOldest(s);
    assert id in s.order;
    assert id !in s.order[1..];
    SumFrame(s.entries, t.entries, s.order[1..]);
    assert forall x :: x in s.order <==> x == id || x in s.order[1..];
  }

  lemma RemoveRep(s: Store, id: Id)
    requires Rep(s)
    ensures Rep(Remove(s, id))
    ensures id in s.entries ==> Remove(s, id).total == s.total - s.entries[id].fileSize
  {
    var t := Remove(s, id);
    WithoutMembers(s.order, id);
    WithoutNoDup(s.order, id);
    if id in s.entries {
      assert id in s.order;
      SumWithout(s.entries, s.order, id);
      SumFrame(s.entries, t.entries, t.order);
    } else {
      WithoutAbsent(s.order, id);
    }
  }

  lemma MoveToBackRep(s: Store, id: Id, e: Entry)
    requires Rep(s)
    ensures var t := s.entries[id := e];
      && NoDup(Without(s.order, id) + [id])
      && (forall x :: x in Without(s.order, id) + [id] <==> x in t)
      && Sum(t, Without(s.order, id) + [id]) ==
        s.total - (if id in s.entries then s.entries[id].fileSize else 0) + e.fileSize
  {
    var t, rest := s.entries[id := e], Without(s.order, id);
    WithoutMembers(s.order, id);
    WithoutNoDup(s.order, id);
    SumAppend(t, rest, id);
    SumFrame(s.entries, t, rest);
    if id in s.entries {
      assert id in s.order;
      SumWithout(s.entries, s.order, id);
    } else {
      WithoutAbsent(s.order, id);
    }
  }

  lemma TouchRep(s: Store, id: Id, now: int)
    requires Rep(s)
    ensures Rep(Touch(s, id, now))
  {
    if Due(s, id, now) {
      MoveToBackRep(s, id, s.entries[id].(lastAccessedAt := now));
    }
  }

  lemma InsertRep(s: Store, id: Id, e: Entry)
    requires Rep(s)
    ensures Rep(Insert(s, id, e))
    ensures Insert(s, id, e).total == s.total - (if id in s.entries then s.entries[id].fileSize else 0) + e.fileSize
  {
    MoveToBackRep(s, id, e);
    if id in s.entries {
      assert id in s.order;
      SumWithout(s.entries, s.order, id);
    }
  }

  lemma {:induction false} EvictRep(s: Store)
    requires Rep(s)
    ensures Rep(Evict(s)) && Evict(s).total <= s.maxBytes && Evict(s).maxBytes == s.maxBytes
    decreases |s.order|
  {
    if s.total > s.maxBytes && s.order != [] {
      DropOldestRep(s);
      EvictRep(DropOldest(s));
    }
  }

  /** How many entries are evicted. */
  function Evicted(s: Store): (n: nat)
    ensures n <= |s.order|
    decreases |s.order|
  {
    if s.total <= s.maxBytes || s.order == [] then 0 else 1 + Evicted(DropOldest(s))
  }

  lemma {:induction false} EvictOrder(s: Store)
    ensures Evict(s).order == s.order[Evicted(s)..]
    ensures forall id :: id in Evict(s).entries ==> id in s.entries && Evict(s).entries[id] == s.entries[id]
    decreases |s.order|
  {
    if s.total > s.maxBytes && s.order != [] {
      EvictOrder(DropOldest(s));
    }
  }

  /**
   Eviction keeps exactly the longest suffix of the recency order that fits: the survivors fit, and
   with one more entry they would not.
   */
  lemma {:induction false} EvictKeepsLongestSuffix(s: Store)
    requires Rep(s)
    ensures Evict(s).order == s.order[Evicted(s)..]
    ensures Evict(s).total == Sum(Evict(s).entries, Evict(s).order) <= s.maxBytes
    ensures Evicted(s) > 0 ==> Sum(s.entries, s.order[Evicted(s) - 1..]) > s.maxBytes
    decreases |s.order|
  {
    EvictRep(s);
    EvictOrder(s);
    if s.total > s.maxBytes && s.order != [] {
      var t, n := DropOldest(s), Evicted(s);
      DropOldestRep(s);
      EvictKeepsLongestSuffix(t);
      if n > 1 {
        assert s.order[n - 1..] == t.order[n - 2..];
        SuffixFrame(s, n - 2);
      } else {
        assert s.order[0..] == s.order;
      }
    }
  }

  /** Suffixes below the oldest entry weigh the same before and after it is dropped. */
  lemma SuffixFrame(s: Store, m: nat)
    requires Rep(s) && s.order != [] && m <= |s.order| - 1
    ensures var t := DropOldest(s);
      Sum(t.entries, t.order[m..]) == Sum(s.entries, t.order[m..])
  {
    var t := DropOldest(s);
    assert s.order[0] in s.order && s.order[0] !in s.order[1..];
    forall id | id in t.order[m..] ensures id in s.entries && id in t.entries && s.entries[id] == t.entries[id] {
      assert id in s.order[1..] && id in s.order;
    }
    SumFrame(s.entries, t.entries, t.order[m..]);
  }

  // ----- Reloading -----

  function Access(entries: map<Id, Entry>, id: Id): int {
    if id in entries then entries[id].lastAccessedAt else 0
  }

  predicate SortedByAccess(entries: map<Id, Entry>, order: seq<Id>) {
    forall i, j :: 0 <= i < j < |order| ==> Access(entries, order[i]) <= Access(entries, order[j])
  }

  /** The persisted entries whose files are still there. */
  function Existing(entries: map<Id, Entry>, files: map<Path, nat>): map<Id, Entry> {
    map id | id in entries && entries[id].filePath in files :: entries[id]
  }

  /** What a restart may produce: missing or unreadable metadata leaves the cache empty. */
  ghost predicate IsLoad(s: Store, t: Store) {
    && t.files == s.files && t.disk == s.disk
    && t.entries == (if s.disk.None? then map[] else Existing(s.disk.value, s.files))
    && Rep(t) && SortedByAccess(t.entries, t.order)
  }
}
