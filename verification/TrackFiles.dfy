/**
 Choosing file names for downloads, and when cached tracks keep files of their own: downloads are
 serialised, each takes a name no file has, and only its own commit puts that name into the cache.
 */
module TrackFiles {
  import opened Prelude
  import opened TrackCache

  // ----- The first free name -----

  function Decimal(n: nat): string {
    if n < 10 then [('0' as int + n) as char] else Decimal(n / 10) + [('0' as int + n % 10) as char]
  }

  lemma {:induction false} DecimalInjective(m: nat, n: nat)
    requires Decimal(m) == Decimal(n)
    ensures m == n
  {
    var a, b := Decimal(m), Decimal(n);
    assert a[|a| - 1] == b[|b| - 1];
    DecimalLonger(m);
    DecimalLonger(n);
    if m >= 10 && n >= 10 {
      assert a[..|a| - 1] == Decimal(m / 10) && b[..|b| - 1] == Decimal(n / 10);
      DecimalInjective(m / 10, n / 10);
    }
  }

  function DigitsValue(d: string): int {
    if d == "" then 0 else 10 * DigitsValue(d[..|d| - 1]) + (d[|d| - 1] as int - '0' as int)
  }

  /** Decimal digits of the number, without leading zeros. */
  lemma {:induction false} DecimalValue(n: nat)
    ensures DigitsValue(Decimal(n)) == n && forall i :: 0 <= i < |Decimal(n)| ==> '0' <= Decimal(n)[i] <= '9'
    ensures Decimal(n) != "" && (n > 0 ==> Decimal(n)[0] != '0')
  {
    var d := Decimal(n);
    if n >= 10 {
      DecimalValue(n / 10);
      assert d[..|d| - 1] == Decimal(n / 10);
    } else {
      assert d[..|d| - 1] == "" && DigitsValue("") == 0;
    }
  }

  lemma DecimalLonger(n: nat)
    ensures |Decimal(n)| == 1 <==> n < 10
  {
    if n >= 10 {
      assert |Decimal(n / 10)| >= 1;
    }
  }

  /** The `k`-th name tried: plain first, then numbered from 1. */
  function Candidate(stem: string, ext: string, k: nat): Path {
    if k == 0 then stem + "." + ext else stem + " (" + Decimal(k) + ")." + ext
  }

  /** The names themselves: the plain one, then " (1)", " (2)" and so on before the extension. */
  lemma CandidateText(stem: string, ext: string, k: nat)
    ensures k == 0 ==> Candidate(stem, ext, k) == stem + "." + ext
    ensures k > 0 ==> exists d: string ::
      DigitsValue(d) == k && d != "" && d[0] != '0' && Candidate(stem, ext, k) == stem + " (" + d + ")." + ext
  {
    DecimalValue(k);
  }

  lemma CandidateInjective(stem: string, ext: string, j: nat, k: nat)
    requires j < k
    ensures Candidate(stem, ext, j) != Candidate(stem, ext, k)
  {
    var a, b, n := Candidate(stem, ext, j), Candidate(stem, ext, k), |stem|;
    assert b[n] == ' ';
    if j == 0 {
      assert a[n] == '.';
    } else if a == b {
      assert a == stem + " (" + (Decimal(j) + (")." + ext));
      assert b == stem + " (" + (Decimal(k) + (")." + ext));
      assert a[n + 2..] == Decimal(j) + (")." + ext);
      assert b[n + 2..] == Decimal(k) + (")." + ext);
      assert Decimal(j) == a[n + 2..][..|a| - n - 4 - |ext|];
      assert Decimal(k) == b[n + 2..][..|b| - n - 4 - |ext|];
      DecimalInjective(j, k);
    }
  }

  /** The first `n` names tried. */
  ghost function Tried(stem: string, ext: string, n: nat): set<Path> {
    set k: nat | k < n :: Candidate(stem, ext, k)
  }

  lemma TriedNext(stem: string, ext: string, n: nat)
    ensures Tried(stem, ext, n + 1) == Tried(stem, ext, n) + {Candidate(stem, ext, n)}
    ensures Candidate(stem, ext, n) !in Tried(stem, ext, n)
  {
    forall k: nat | k < n ensures Candidate(stem, ext, k) != Candidate(stem, ext, n) {
      CandidateInjective(stem, ext, k, n);
    }
  }

  lemma {:induction false} TriedSize(stem: string, ext: string, n: nat)
    ensures |Tried(stem, ext, n)| == n
  {
    if n > 0 {
      TriedSize(stem, ext, n - 1);
      TriedNext(stem, ext, n - 1);
    }
  }

  lemma {:induction false} SubsetSize(a: set<Path>, b: set<Path>)
    requires a <= b
    ensures |a| <= |b|
  {
    assert b == a + (b - a);
  }

  /** `k` is the least number whose name is free. */
  predicate LeastFree(stem: string, ext: string, taken: set<Path>, k: nat) {
    Candidate(stem, ext, k) !in taken && forall j: nat :: j < k ==> Candidate(stem, ext, j) in taken
  }

  /** The search ends in any finite directory, at the first free name. */
  method TrackPath(stem: string, ext: string, taken: set<Path>) returns (path: Path)
    ensures exists k: nat :: k <= |taken| && LeastFree(stem, ext, taken, k) && path == Candidate(stem, ext, k)
  {
    path := stem + "." + ext;
    var idx := 1;
    ghost var k: nat := 0;
    while path in taken
      invariant idx == k + 1 && path == Candidate(stem, ext, k) && k <= |taken|
      invariant forall j: nat :: j < k ==> Candidate(stem, ext, j) in taken
      decreases |taken| - k
    {
      TriedSize(stem, ext, k + 1);
      SubsetSize(Tried(stem, ext, k + 1), taken);
      path := stem + " (" + Decimal(idx) + ")." + ext;
      idx, k := idx + 1, k + 1;
    }
  }

  // ----- Who owns which file -----

  predicate Distinct(entries: map<Id, Entry>) {
    forall x, y :: x in entries && y in entries && x != y ==> entries[x].filePath != entries[y].filePath
  }

  /** Every entry but those excepted has its file. */
  predicate Backed(s: Store, except: set<Id>) {
    forall x :: x in s.entries && x !in except ==> s.entries[x].filePath in s.files
  }

  predicate Unowned(entries: map<Id, Entry>, path: Path) {
    forall x :: x in entries ==> entries[x].filePath != path
  }

  lemma RemoveEntryFiles(s: Store, id: Id, except: set<Id>)
    requires Distinct(s.entries) && Backed(s, except)
    ensures Distinct(RemoveEntry(s, id).entries) && Backed(RemoveEntry(s, id), except)
    ensures RemoveEntry(s, id).files.Keys <= s.files.Keys
    ensures forall p :: Unowned(s.entries, p) ==>
      Unowned(RemoveEntry(s, id).entries, p) && (p in s.files <==> p in RemoveEntry(s, id).files)
  {
  }

  /** Eviction never takes the file of an entry it keeps, nor one no entry owns. */
  lemma {:induction false} EvictFiles(s: Store, except: set<Id>)
    requires Distinct(s.entries) && Backed(s, except)
    ensures Distinct(Evict(s).entries) && Backed(Evict(s), except)
    ensures Evict(s).files.Keys <= s.files.Keys
    ensures forall p :: Unowned(s.entries, p) ==>
      Unowned(Evict(s).entries, p) && (p in s.files <==> p in Evict(s).files)
    decreases |s.order|
  {
    if s.total > s.maxBytes && s.order != [] {
      RemoveEntryFiles(s.(order := s.order[1..]), s.order[0], except);
      EvictFiles(DropOldest(s), except);
    }
  }

  /** All entries have different files, and all of them are there. */
  predicate Kept(s: Store) {
    Distinct(s.entries) && Backed(s, {})
  }

  // ----- Committing a download -----

  /** Inserting a file nobody else owns keeps names distinct, and every other entry its file. */
  lemma InsertFiles(s: Store, id: Id, e: Entry)
    requires Distinct(s.entries) && Backed(s, {}) && Unowned(s.entries - {id}, e.filePath)
    ensures Distinct(Insert(s, id, e).entries)
    ensures Backed(Insert(s, id, e), if e.filePath in s.files then {} else {id})
    ensures e.filePath in Insert(s, id, e).files <==> e.filePath in s.files
  {
    var t := Insert(s, id, e);
    forall x | x in t.entries && x != id
      ensures t.entries[x].filePath in t.files && t.entries[x].filePath != e.filePath
    {
      assert x in s.entries - {id};
    }
  }

  lemma SameEntries(s: Store)
    ensures forall id :: id in Evict(s).entries ==> id in s.entries && Evict(s).entries[id] == s.entries[id]
  {
    EvictOrder(s);
  }

  lemma {:induction false} SumAtLeast(entries: map<Id, Entry>, order: seq<Id>, id: Id)
    requires id in order && id in entries
    ensures Sum(entries, order) >= entries[id].fileSize
  {
    if order[0] != id {
      SumAtLeast(entries, order[1..], id);
    }
  }

  lemma NewestEntry(s: Store, id: Id)
    requires Rep(s) && s.order != [] && s.order[|s.order| - 1] == id
    ensures id in s.entries && Sum(s.entries, s.order[|s.order| - 1..]) == s.entries[id].fileSize
  {
    assert id in s.order;
    assert s.order[|s.order| - 1..] == [id];
    assert Sum(s.entries, [id]) == s.entries[id].fileSize + Sum(s.entries, [id][1..]);
  }

  /** Of the longest suffix that fits, `t`, the newest entry is part exactly when it fits by itself. */
  lemma NewestInSuffixIff(s: Store, t: Store, n: nat, id: Id)
    requires Rep(s) && s.order != [] && s.order[|s.order| - 1] == id && id in s.entries
    requires Rep(t) && n <= |s.order| && t.order == s.order[n..] && t.total <= s.maxBytes
    requires n > 0 ==> Sum(s.entries, s.order[n - 1..]) > s.maxBytes
    requires forall x :: x in t.entries ==> x in s.entries && t.entries[x] == s.entries[x]
    ensures id in t.entries <==> s.entries[id].fileSize <= s.maxBytes
    ensures id !in t.entries ==> t.entries == map[]
  {
    NewestEntry(s, id);
    if n < |s.order| {
      assert t.order[|s.order| - 1 - n] == id;
      SumAtLeast(t.entries, t.order, id);
    } else {
      assert forall x :: x in t.entries ==> x in t.order;
    }
  }

  /** The newest entry survives an eviction exactly when it fits by itself; else everything goes. */
  lemma LastSurvivesIff(s: Store, id: Id)
    requires Rep(s) && s.order != [] && s.order[|s.order| - 1] == id && id in s.entries
    ensures id in Evict(s).entries <==> s.entries[id].fileSize <= s.maxBytes
    ensures id !in Evict(s).entries ==> Evict(s).entries == map[]
  {
    EvictRep(s);
    EvictKeepsLongestSuffix(s);
    EvictOrder(s);
    NewestInSuffixIff(s, Evict(s), Evicted(s), id);
  }

  /** So does a put's own entry. */
  lemma NewestSurvivesIff(s: Store, id: Id, e: Entry)
    requires Rep(s)
    ensures id in Evict(Insert(s, id, e)).entries <==> e.fileSize <= s.maxBytes
    ensures e.fileSize > s.maxBytes ==> Evict(Insert(s, id, e)).entries == map[]
  {
    InsertRep(s, id, e);
    LastSurvivesIff(Insert(s, id, e), id);
  }

  /** Whatever eviction drops takes its file along. */
  lemma {:induction false} EvictedFileGoes(s: Store, y: Id)
    requires y in s.entries && y !in Evict(s).entries
    ensures s.entries[y].filePath !in Evict(s).files
    decreases |s.order|
  {
    if s.total > s.maxBytes && s.order != [] {
      var t := DropOldest(s);
      EvictOnlyRemoves(t);
      if y in t.entries {
        EvictedFileGoes(t, y);
      }
    }
  }

  lemma {:induction false} EvictOnlyRemoves(s: Store)
    ensures Evict(s).files.Keys <= s.files.Keys
    decreases |s.order|
  {
    if s.total > s.maxBytes && s.order != [] {
      EvictOnlyRemoves(DropOldest(s));
    }
  }

  /** A put of a path nobody else owns keeps all files exactly when its own is there, or nothing is kept at all. */
  lemma CommitOwnFile(s: Store, id: Id, e: Entry)
    requires Rep(s) && Kept(s) && Unowned(s.entries - {id}, e.filePath)
    ensures Kept(Put(s, id, e)) <==> e.fileSize > s.maxBytes || e.filePath in s.files
  {
    var u := Insert(s, id, e);
    InsertFiles(s, id, e);
    EvictFiles(u, if e.filePath in s.files then {} else {id});
    SameEntries(u);
    NewestSurvivesIff(s, id, e);
    EvictOnlyRemoves(u);
  }

  /** A put of another entry's path leaves them sharing it, or one of them without it, unless nothing is kept. */
  lemma CommitOthersFile(s: Store, id: Id, e: Entry, y: Id)
    requires Rep(s) && Kept(s) && y in s.entries && y != id && s.entries[y].filePath == e.filePath
    ensures Kept(Put(s, id, e)) <==> e.fileSize > s.maxBytes
  {
    var u := Insert(s, id, e);
    NewestSurvivesIff(s, id, e);
    SameEntries(u);
    if e.fileSize <= s.maxBytes {
      if y !in Evict(u).entries {
        EvictedFileGoes(u, y);
      }
    }
  }

  /**
   When a commit leaves all entries with different files, all of them there, whatever it is given: its file
   must be there and nobody else own it, unless its size is beyond the limit and the put empties the cache.
   */
  lemma CommitKeepsFilesIff(s: Store, id: Id, e: Entry)
    requires Rep(s) && Kept(s)
    ensures Kept(Put(s, id, e)) <==>
      e.fileSize > s.maxBytes ||
      (e.filePath in s.files && forall y :: y in s.entries && y != id ==> s.entries[y].filePath != e.filePath)
  {
    if y :| y in s.entries && y != id && s.entries[y].filePath == e.filePath {
      CommitOthersFile(s, id, e, y);
    } else {
      CommitOwnFile(s, id, e);
    }
  }

  /**
   The cache is a map as far as callers can tell: after a put the track is found under its path if and
   only if it fits the limit by itself, and no other entry has changed, though some may be gone.
   */
  lemma PutThenLookup(s: Store, id: Id, e: Entry, later: int)
    requires Rep(s) && Kept(s) && Unowned(s.entries - {id}, e.filePath) && e.filePath in s.files
    ensures var t := Put(s, id, e);
      && GetPath(t, id, later).1 == (if e.fileSize <= s.maxBytes then Some(e.filePath) else None)
      && forall x :: x in t.entries && x != id ==> x in s.entries && t.entries[x] == s.entries[x]
  {
    NewestSurvivesIff(s, id, e);
    SameEntries(Insert(s, id, e));
    CommitOwnFile(s, id, e);
  }

  // ----- Who survives -----

  lemma {:induction false} SumSuffix(entries: map<Id, Entry>, order: seq<Id>, n: nat)
    requires n <= |order|
    ensures Sum(entries, order[n..]) <= Sum(entries, order)
  {
    if n > 0 {
      assert order[1..][n - 1..] == order[n..];
      SumSuffix(entries, order[1..], n - 1);
    } else {
      assert order[n..] == order;
    }
  }

  lemma LaterWeighsLess(entries: map<Id, Entry>, order: seq<Id>, i: nat, j: nat)
    requires i <= j <= |order|
    ensures Sum(entries, order[j..]) <= Sum(entries, order[i..])
  {
    assert order[i..][j - i..] == order[j..];
    SumSuffix(entries, order[i..], j - i);
  }

  /** Of the longest suffix that fits, an entry is part exactly when it and all more recent ones fit. */
  lemma InSuffixIff(s: Store, t: Store, n: nat, i: nat)
    requires Rep(s) && Rep(t) && n <= |s.order| && i < |s.order| && t.order == s.order[n..]
    requires Sum(s.entries, s.order[n..]) <= s.maxBytes
    requires n > 0 ==> Sum(s.entries, s.order[n - 1..]) > s.maxBytes
    ensures s.order[i] in t.entries <==> Sum(s.entries, s.order[i..]) <= s.maxBytes
  {
    if i >= n {
      LaterWeighsLess(s.entries, s.order, n, i);
      assert t.order[i - n] == s.order[i];
    } else {
      LaterWeighsLess(s.entries, s.order, i, n - 1);
    }
  }

  /** An entry survives an eviction exactly when it and all more recent ones fit the limit together. */
  lemma SurvivesIff(s: Store, i: nat)
    requires Rep(s) && i < |s.order|
    ensures s.order[i] in Evict(s).entries <==> Sum(s.entries, s.order[i..]) <= s.maxBytes
  {
    EvictRep(s);
    EvictKeepsLongestSuffix(s);
    SurvivorsSum(s, Evict(s), Evicted(s));
    InSuffixIff(s, Evict(s), Evicted(s), i);
  }

  lemma SurvivorsSum(s: Store, t: Store, n: nat)
    requires t == Evict(s) && n == Evicted(s) && t.order == s.order[n..] && Rep(t)
    ensures Sum(s.entries, s.order[n..]) == Sum(t.entries, t.order)
  {
    SameEntries(s);
    SumFrame(s.entries, t.entries, t.order);
  }

  // ----- One download at a time -----

  /** The download in progress: its name chosen, its file renamed into place, its cache entry prepared. */
  datatype Download = Idle | Chosen(path: Path) | Written(path: Path) | Prepared(entry: Entry)

  function PathOf(d: Download): Option<Path> {
    match d
    case Idle => None
    case Chosen(path) => Some(path)
    case Written(path) => Some(path)
    case Prepared(entry) => Some(entry.filePath)
  }

  datatype System = System(store: Store, download: Download)

  datatype Move =
    | Choose(path: Path)
    | Write(size: nat)
    | Prepare(bitrate: string, normalized: bool, now: int)
    | Commit(id: Id)
    | Abandon
    | Lookup(id: Id, now: int)
    | Limit(mb: nat)
    | ClearAll
    | Restart(after: Store)

  /** Moves that do not fit the download's stage do nothing; a chosen name is one no file has. */
  ghost function Apply(s: System, m: Move): System {
    match m
    case Choose(path) => if s.download.Idle? && path !in s.store.files then s.(download := Chosen(path)) else s
    case Write(size) =>
      if s.download.Chosen? then
        System(s.store.(files := s.store.files[s.download.path := size]), Written(s.download.path))
      else s
    case Prepare(bitrate, normalized, now) =>
      if s.download.Written? then s.(download := Prepared(NewEntry(s.store, s.download.path, bitrate, normalized, now)))
      else s
    case Commit(id) => if s.download.Prepared? then System(Put(s.store, id, s.download.entry), Idle) else s
    case Abandon => s.(download := Idle)
    case Lookup(id, now) => s.(store := GetPath(s.store, id, now).0)
    case Limit(mb) => s.(store := SetMaxMb(s.store, mb))
    case ClearAll => s.(store := Clear(s.store))
    case Restart(after) => if IsLoad(s.store, after) then System(after, Idle) else s
  }

  ghost function Run(s: System, moves: seq<Move>): System
    decreases |moves|
  {
    if moves == [] then s else Run(Apply(s, moves[0]), moves[1..])
  }

  /** Nothing cached, nothing downloading. */
  ghost predicate Fresh(s: System) {
    s.download.Idle? && s.store.entries == map[] && s.store.order == [] && s.store.total == 0 && s.store.disk.None?
  }

  lemma RunSplit(s: System, moves: seq<Move>, k: nat)
    requires 0 < k <= |moves|
    ensures Run(s, moves[..k]) == Run(Apply(s, moves[0]), moves[1..][..k - 1])
  {
    assert moves[..k][1..] == moves[1..][..k - 1];
  }

  /** `good` holds at every point of the run. */
  ghost predicate Always(s: System, moves: seq<Move>, good: System -> bool) {
    forall k :: 0 <= k <= |moves| ==> good(Run(s, moves[..k]))
  }

  /** No move of the run is `bad` where it is made. */
  ghost predicate Never(s: System, moves: seq<Move>, bad: (System, Move) -> bool) {
    forall k :: 0 <= k < |moves| ==> !bad(Run(s, moves[..k]), moves[k])
  }

  lemma AlwaysShift(s: System, moves: seq<Move>, good: System -> bool)
    requires moves != []
    ensures Always(s, moves, good) <==> good(s) && Always(Apply(s, moves[0]), moves[1..], good)
  {
    var u, rest := Apply(s, moves[0]), moves[1..];
    assert Run(s, moves[..0]) == s;
    if Always(s, moves, good) {
      assert good(Run(s, moves[..0]));
      forall k | 0 <= k <= |rest| ensures good(Run(u, rest[..k])) {
        RunSplit(s, moves, k + 1);
        assert good(Run(s, moves[..k + 1]));
      }
    }
    if good(s) && Always(u, rest, good) {
      forall k | 0 <= k <= |moves| ensures good(Run(s, moves[..k])) {
        if k > 0 {
          RunSplit(s, moves, k);
          assert good(Run(u, rest[..k - 1]));
        }
      }
    }
  }

  lemma NeverShift(s: System, moves: seq<Move>, bad: (System, Move) -> bool)
    requires moves != []
    ensures Never(s, moves, bad) <==> !bad(s, moves[0]) && Never(Apply(s, moves[0]), moves[1..], bad)
  {
    var u, rest := Apply(s, moves[0]), moves[1..];
    assert Run(s, moves[..0]) == s;
    if Never(s, moves, bad) {
      assert !bad(Run(s, moves[..0]), moves[0]);
      forall k | 0 <= k < |rest| ensures !bad(Run(u, rest[..k]), rest[k]) {
        RunSplit(s, moves, k + 1);
        assert !bad(Run(s, moves[..k + 1]), moves[k + 1]);
      }
    }
    if !bad(s, moves[0]) && Never(u, rest, bad) {
      forall k | 0 <= k < |moves| ensures !bad(Run(s, moves[..k]), moves[k]) {
        if k > 0 {
          RunSplit(s, moves, k);
          assert !bad(Run(u, rest[..k - 1]), rest[k - 1]);
        }
      }
    }
  }

  /** Where each `bad` move spoils `good` at once and every other move keeps an invariant, runs do as their moves do. */
  lemma {:induction false} AlwaysIff(s: System, moves: seq<Move>, inv: System -> bool, good: System -> bool,
                                     bad: (System, Move) -> bool)
    requires inv(s) && forall x :: inv(x) ==> good(x)
    requires forall x, m :: inv(x) ==> if bad(x, m) then !good(Apply(x, m)) else inv(Apply(x, m))
    ensures Always(s, moves, good) <==> Never(s, moves, bad)
    decreases |moves|
  {
    if moves == [] {
      assert Run(s, moves[..0]) == s;
    } else {
      AlwaysShift(s, moves, good);
      NeverShift(s, moves, bad);
      if bad(s, moves[0]) {
        assert Run(Apply(s, moves[0]), moves[1..][..0]) == Apply(s, moves[0]);
      } else {
        AlwaysIff(Apply(s, moves[0]), moves[1..], inv, good, bad);
      }
    }
  }

  // ----- When every entry keeps its own file -----

  /** A commit that finds its file gone, and whose entry stays. */
  predicate Orphaned(s: System, m: Move) {
    m.Commit? && s.download.Prepared? && s.download.entry.filePath !in s.store.files
    && s.download.entry.fileSize <= s.store.maxBytes
  }

  ghost predicate Inv(s: System) {
    && Rep(s.store) && Kept(s.store)
    && (s.store.disk == Some(s.store.entries) || (s.store.disk.None? && s.store.entries == map[]))
    && (s.download.Chosen? ==> s.download.path !in s.store.files)
    && (PathOf(s.download).Some? ==> Unowned(s.store.entries, PathOf(s.download).value))
  }

  lemma LookupKeeps(s: System, id: Id, now: int)
    requires Inv(s)
    ensures Inv(Apply(s, Lookup(id, now)))
  {
    RemoveRep(s.store, id);
    TouchRep(s.store, id, now);
  }

  lemma LimitKeeps(s: System, mb: nat)
    requires Inv(s)
    ensures Inv(Apply(s, Limit(mb)))
  {
    var t := s.store.(maxBytes := MaxBytes(mb));
    EvictFiles(t, {});
    EvictRep(t);
  }

  lemma CommitKeepsIff(s: System, m: Move)
    requires Inv(s) && m.Commit? && s.download.Prepared?
    ensures Orphaned(s, m) ==> !Kept(Apply(s, m).store)
    ensures !Orphaned(s, m) ==> Inv(Apply(s, m))
  {
    CommitKeepsFilesIff(s.store, m.id, s.download.entry);
    InsertRep(s.store, m.id, s.download.entry);
    EvictRep(Insert(s.store, m.id, s.download.entry));
  }

  /** A move breaks what every run should keep exactly when it is a commit that finds its file gone. */
  lemma MoveKeepsIff(s: System, m: Move)
    requires Inv(s)
    ensures Orphaned(s, m) ==> !Kept(Apply(s, m).store)
    ensures !Orphaned(s, m) ==> Inv(Apply(s, m))
  {
    match m
    case Commit(_) => if s.download.Prepared? { CommitKeepsIff(s, m); }
    case Lookup(id, now) => LookupKeeps(s, id, now);
    case Limit(mb) => LimitKeeps(s, mb);
    case Restart(after) =>
      if s.store.disk.Some? {
        assert Existing(s.store.entries, s.store.files) == s.store.entries;
      }
    case _ =>
  }

  /** Only a clear takes the file of a download under way. */
  lemma FileGoneIffCleared(s: System, m: Move)
    requires Inv(s) && PathOf(s.download).Some? && PathOf(s.download).value in s.store.files
    requires PathOf(Apply(s, m).download) == PathOf(s.download) && !m.Restart? && !m.Abandon?
    ensures PathOf(s.download).value !in Apply(s, m).store.files <==> m.ClearAll?
  {
    if m.Limit? {
      EvictFiles(s.store.(maxBytes := MaxBytes(m.mb)), {});
    }
  }

  /**
   In every run of serialised downloads, lookups, evictions, clears and restarts, with no file deleted from
   outside: at every point all entries have different files and all of them are there, so that nothing ever
   deletes a file another entry uses, if and only if no commit of the run found its file gone.
   */
  lemma FilesNeverSharedIff(s: System, moves: seq<Move>)
    requires Fresh(s)
    ensures (forall k :: 0 <= k <= |moves| ==>
               Distinct(Run(s, moves[..k]).store.entries) && Backed(Run(s, moves[..k]).store, {})) <==>
            forall k :: 0 <= k < |moves| ==> !Orphaned(Run(s, moves[..k]), moves[k])
  {
    var inv, good, bad := (x: System) => Inv(x), (x: System) => Kept(x.store), (x: System, m: Move) => Orphaned(x, m);
    forall x, m | inv(x) ensures if bad(x, m) then !good(Apply(x, m)) else inv(Apply(x, m)) {
      MoveKeepsIff(x, m);
    }
    AlwaysIff(s, moves, inv, good, bad);
    forall k | 0 <= k <= |moves|
      ensures good(Run(s, moves[..k])) <==>
        Distinct(Run(s, moves[..k]).store.entries) && Backed(Run(s, moves[..k]).store, {})
    {
    }
    forall k | 0 <= k < |moves| ensures bad(Run(s, moves[..k]), moves[k]) <==> Orphaned(Run(s, moves[..k]), moves[k]) {
    }
  }

  // ----- When two tracks come to share a file -----

  predicate IsWeight(s: Store, i: nat, w: int)
    requires i <= |s.order|
  {
    w == Sum(s.entries, s.order[i..])
  }

  /** The `i`-th entry and all more recent ones fit the limit together (quantified, so that nobody unfolds `Sum`). */
  ghost predicate Fits(s: Store, i: nat)
    requires i <= |s.order|
  {
    forall w :: IsWeight(s, i, w) ==> w <= s.maxBytes
  }

  lemma FitsIff(s: Store, i: nat)
    requires i <= |s.order|
    ensures Fits(s, i) <==> Sum(s.entries, s.order[i..]) <= s.maxBytes
  {
    assert IsWeight(s, i, Sum(s.entries, s.order[i..]));
  }

  lemma LaterFits(s: Store, i: nat, j: nat)
    requires i <= j <= |s.order| && Fits(s, i)
    ensures Fits(s, j)
  {
    FitsIff(s, i);
    FitsIff(s, j);
    LaterWeighsLess(s.entries, s.order, i, j);
  }

  /** An entry of path `p` other than `id` that fits the limit along with all more recent ones. */
  ghost predicate StaysOwned(s: Store, id: Id, p: Path) {
    exists i {:trigger Fits(s, i)} :: 0 <= i < |s.order| && s.order[i] != id && s.order[i] in s.entries
                                      && s.entries[s.order[i]].filePath == p && Fits(s, i)
  }

  /** A commit of a path another entry still owns, both of which stay. */
  ghost predicate TakesOwned(s: System, m: Move) {
    m.Commit? && s.download.Prepared? &&
    StaysOwned(Insert(s.store, m.id, s.download.entry), m.id, s.download.entry.filePath)
  }

  ghost predicate DistinctInv(s: System) {
    Rep(s.store) && Distinct(s.store.entries) && (s.store.disk.Some? ==> Distinct(s.store.disk.value))
  }

  /** `t` is what fits of `s`, counted from the most recent entry back. */
  ghost predicate Survivors(s: Store, t: map<Id, Entry>) {
    && (forall i {:trigger s.order[i]} :: 0 <= i < |s.order| ==> (s.order[i] in t <==> Fits(s, i)))
    && (forall x :: x in t ==> x in s.order && x in s.entries && t[x] == s.entries[x])
  }

  lemma EvictSurvivors(s: Store)
    requires Rep(s)
    ensures Survivors(s, Evict(s).entries)
  {
    SameEntries(s);
    forall i {:trigger s.order[i]} | 0 <= i < |s.order| ensures s.order[i] in Evict(s).entries <==> Fits(s, i) {
      SurvivesIff(s, i);
      FitsIff(s, i);
    }
  }

  /** The owner stays, and so does the new entry, which is more recent. */
  lemma OwnedIsShared(u: Store, t: map<Id, Entry>, id: Id, p: Path)
    requires Survivors(u, t) && StaysOwned(u, id, p)
    requires u.order != [] && u.order[|u.order| - 1] == id && id in u.entries && u.entries[id].filePath == p
    ensures !Distinct(t)
  {
    var i :| 0 <= i < |u.order| && u.order[i] != id && u.order[i] in u.entries && u.entries[u.order[i]].filePath == p
             && Fits(u, i);
    LaterFits(u, i, |u.order| - 1);
    assert u.order[i] in t && u.order[|u.order| - 1] in t;
  }

  lemma OwnerStays(u: Store, t: map<Id, Entry>, id: Id, y: Id, p: Path)
    requires Survivors(u, t) && !StaysOwned(u, id, p) && y in t && y != id
    ensures t[y].filePath != p
  {
    var i :| 0 <= i < |u.order| && u.order[i] == y;
    assert Fits(u, i);
  }

  lemma DistinctUnlessOwned(u: Store, t: map<Id, Entry>, id: Id, p: Path)
    requires Survivors(u, t) && !StaysOwned(u, id, p) && Distinct(u.entries - {id})
    requires id in u.entries && u.entries[id].filePath == p
    ensures Distinct(t)
  {
    forall x, y | x in t && y in t && x != y ensures t[x].filePath != t[y].filePath {
      if x == id {
        OwnerStays(u, t, id, y, p);
      } else if y == id {
        OwnerStays(u, t, id, x, p);
      } else {
        assert x in u.entries - {id} && y in u.entries - {id};
      }
    }
  }

  lemma SurvivorsShareIff(u: Store, t: map<Id, Entry>, id: Id, p: Path)
    requires Survivors(u, t) && Distinct(u.entries - {id})
    requires u.order != [] && u.order[|u.order| - 1] == id && id in u.entries && u.entries[id].filePath == p
    ensures Distinct(t) <==> !StaysOwned(u, id, p)
  {
    if StaysOwned(u, id, p) {
      OwnedIsShared(u, t, id, p);
    } else {
      DistinctUnlessOwned(u, t, id, p);
    }
  }

  lemma InsertShape(s: Store, id: Id, e: Entry)
    requires Distinct(s.entries)
    ensures var u := Insert(s, id, e);
      && u.order != [] && u.order[|u.order| - 1] == id && id in u.entries && u.entries[id] == e
      && Distinct(u.entries - {id})
  {
    assert Insert(s, id, e).entries - {id} == s.entries - {id};
  }

  lemma SharesIff(s: Store, id: Id, e: Entry)
    requires Rep(s) && Distinct(s.entries)
    ensures Distinct(Put(s, id, e).entries) <==> !StaysOwned(Insert(s, id, e), id, e.filePath)
  {
    InsertRep(s, id, e);
    EvictSurvivors(Insert(s, id, e));
    InsertShape(s, id, e);
    SurvivorsShareIff(Insert(s, id, e), Evict(Insert(s, id, e)).entries, id, e.filePath);
  }

  lemma PutRep(s: Store, id: Id, e: Entry)
    requires Rep(s)
    ensures Rep(Put(s, id, e)) && Put(s, id, e).disk == Some(Put(s, id, e).entries)
  {
    InsertRep(s, id, e);
    EvictRep(Insert(s, id, e));
  }

  lemma DistinctCommit(s: System, id: Id)
    requires DistinctInv(s) && s.download.Prepared?
    ensures TakesOwned(s, Commit(id)) ==> !Distinct(Apply(s, Commit(id)).store.entries)
    ensures !TakesOwned(s, Commit(id)) ==> DistinctInv(Apply(s, Commit(id)))
  {
    PutRep(s.store, id, s.download.entry);
    SharesIff(s.store, id, s.download.entry);
  }

  lemma DistinctLookup(s: System, id: Id, now: int)
    requires DistinctInv(s)
    ensures DistinctInv(Apply(s, Lookup(id, now)))
  {
    RemoveRep(s.store, id);
    TouchRep(s.store, id, now);
  }

  lemma DistinctLimit(s: System, mb: nat)
    requires DistinctInv(s)
    ensures DistinctInv(Apply(s, Limit(mb)))
  {
    EvictRep(s.store.(maxBytes := MaxBytes(mb)));
    SameEntries(s.store.(maxBytes := MaxBytes(mb)));
  }

  lemma DistinctMove(s: System, m: Move)
    requires DistinctInv(s)
    ensures TakesOwned(s, m) ==> !Distinct(Apply(s, m).store.entries)
    ensures !TakesOwned(s, m) ==> DistinctInv(Apply(s, m))
  {
    match m
    case Commit(id) => if s.download.Prepared? { DistinctCommit(s, id); }
    case Lookup(id, now) => DistinctLookup(s, id, now);
    case Limit(mb) => DistinctLimit(s, mb);
    case _ =>
  }

  /**
   In every run two tracks never come to have one file if and only if no commit of it is of a path that
   another entry, which must have lost its file to be taken for free, still owns and keeps.
   */
  lemma TracksNeverShareIff(s: System, moves: seq<Move>)
    requires Fresh(s)
    ensures (forall k :: 0 <= k <= |moves| ==> Distinct(Run(s, moves[..k]).store.entries)) <==>
            forall k :: 0 <= k < |moves| ==> !TakesOwned(Run(s, moves[..k]), moves[k])
  {
    var inv, good, bad := (x: System) => DistinctInv(x), (x: System) => Distinct(x.store.entries),
                          (x: System, m: Move) => TakesOwned(x, m);
    forall x, m | inv(x) ensures if bad(x, m) then !good(Apply(x, m)) else inv(Apply(x, m)) {
      DistinctMove(x, m);
    }
    AlwaysIff(s, moves, inv, good, bad);
    forall k | 0 <= k <= |moves| ensures good(Run(s, moves[..k])) <==> Distinct(Run(s, moves[..k]).store.entries) {
    }
    forall k | 0 <= k < |moves|
      ensures bad(Run(s, moves[..k]), moves[k]) <==> TakesOwned(Run(s, moves[..k]), moves[k])
    {
    }
  }

  /** The clear that lets this happen, and what it leads to: a run at whose end two tracks have one file. */
  function SharingRun(p: Path, a: Id, b: Id): seq<Move> {
    [Choose(p), Write(1), Prepare("", false, 0), ClearAll, Commit(a)] +
      [Choose(p), Write(1), Prepare("", false, 1), Commit(b)]
  }

  lemma RunOne(s: System, m: Move, rest: seq<Move>)
    ensures Run(s, [m] + rest) == Run(Apply(s, m), rest)
  {
    assert ([m] + rest)[1..] == rest;
  }

  lemma RunFour(s: System, m1: Move, m2: Move, m3: Move, m4: Move, rest: seq<Move>)
    ensures Run(s, [m1, m2, m3, m4] + rest) == Run(Apply(Apply(Apply(Apply(s, m1), m2), m3), m4), rest)
  {
    assert [m1, m2, m3, m4] + rest == [m1] + ([m2] + ([m3] + ([m4] + rest)));
    RunOne(s, m1, [m2] + ([m3] + ([m4] + rest)));
    RunOne(Apply(s, m1), m2, [m3] + ([m4] + rest));
    RunOne(Apply(Apply(s, m1), m2), m3, [m4] + rest);
    RunOne(Apply(Apply(Apply(s, m1), m2), m3), m4, rest);
  }

  /** Up to the clear: the entry is prepared, its file is gone. */
  lemma ClearedStates(s: System, p: Path)
    requires Fresh(s) && p !in s.store.files
    ensures var t := Apply(Apply(Apply(Apply(s, Choose(p)), Write(1)), Prepare("", false, 0)), ClearAll);
      && t.download == Prepared(Entry(0, p, 1, "", false)) && t.store.files == map[] &&
        t.store.maxBytes == s.store.maxBytes
      && t.store.entries == map[] && t.store.order == [] && t.store.total == 0
  {
  }

  /** Then the first commit, and the second download of the same name. */
  lemma SharedStates(t: System, p: Path, a: Id, b: Id)
    requires t.download == Prepared(Entry(0, p, 1, "", false)) && t.store.files == map[] && t.store.maxBytes >= 2
    requires t.store.entries == map[] && t.store.order == [] && t.store.total == 0 && a != b
    ensures Orphaned(t, Commit(a))
    ensures var u := Apply(Apply(Apply(Apply(t, Commit(a)), Choose(p)), Write(1)), Prepare("", false, 1));
      u.download == Prepared(Entry(1, p, 1, "", false)) && u.store.entries == map[a := Entry(0, p, 1, "", false)]
      && u.store.order == [a] && u.store.total == 1 && u.store.maxBytes == t.store.maxBytes
  {
    var t1 := Apply(t, Commit(a));
    assert Without([], a) == [];
    assert t1.store.entries == map[a := Entry(0, p, 1, "", false)] && t1.store.order == [a] && t1.store.files == map[];
  }

  lemma SharedAtLast(u: System, p: Path, a: Id, b: Id)
    requires u.download == Prepared(Entry(1, p, 1, "", false)) && u.store.entries == map[a := Entry(0, p, 1, "", false)]
    requires u.store.order == [a] && u.store.total == 1 && u.store.maxBytes >= 2 && a != b
    ensures var t := Apply(u, Commit(b)).store.entries;
      a in t && b in t && !Distinct(t)
  {
    assert Without([a], b) == [a];
  }

  lemma ClearDuringCommitSharesAFile(s: System, p: Path, a: Id, b: Id)
    requires Fresh(s) && p !in s.store.files && a != b && s.store.maxBytes >= 2
    ensures var t := Run(s, SharingRun(p, a, b));
      a in t.store.entries && b in t.store.entries && !Distinct(t.store.entries)
  {
    var t := Apply(Apply(Apply(Apply(s, Choose(p)), Write(1)), Prepare("", false, 0)), ClearAll);
    var u := Apply(Apply(Apply(Apply(t, Commit(a)), Choose(p)), Write(1)), Prepare("", false, 1));
    var rest := [Commit(a), Choose(p), Write(1), Prepare("", false, 1)] + [Commit(b)];
    assert SharingRun(p, a, b) == [Choose(p), Write(1), Prepare("", false, 0), ClearAll] + rest;
    RunFour(s, Choose(p), Write(1), Prepare("", false, 0), ClearAll, rest);
    RunFour(t, Commit(a), Choose(p), Write(1), Prepare("", false, 1), [Commit(b)]);
    ClearedStates(s, p);
    SharedStates(t, p, a, b);
    SharedAtLast(u, p, a, b);
    assert Run(u, [Commit(b)]) == Run(Apply(u, Commit(b)), []);
  }
}
