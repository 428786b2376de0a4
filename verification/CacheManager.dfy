/** The cache object: the program's in-place updates, each proved to do what the value operation says. */
module CacheManager {
  import opened Prelude
  import opened C = TrackCache

  lemma {:induction false} OldestExists(entries: map<Id, Entry>, todo: set<Id>) returns (oldest: Id)
    requires todo != {}
    ensures oldest in todo && forall id :: id in todo ==> Access(entries, oldest) <= Access(entries, id)
    decreases |todo|
  {
    oldest :| oldest in todo;
    if todo != {oldest} {
      var other := OldestExists(entries, todo - {oldest});
      if Access(entries, other) < Access(entries, oldest) {
        oldest := other;
      }
    }
  }

  /** Part way through a load: everything but `todo` has been sorted in, or dropped for want of its file. */
  ghost predicate Loading(stored: map<Id, Entry>, files: map<Path, nat>, todo: set<Id>,
                          entries: map<Id, Entry>, order: seq<Id>, total: int) {
    && NoDup(order) && SortedByAccess(stored, order)
    && (forall id :: id in order <==> id in entries)
    && (forall id :: id in entries <==> id in stored && id !in todo && stored[id].filePath in files)
    && (forall id :: id in entries ==> entries[id] == stored[id])
    && (forall i, id :: 0 <= i < |order| && id in todo ==> Access(stored, order[i]) <= Access(stored, id))
    && total == Sum(entries, order)
  }

  lemma LoadOne(stored: map<Id, Entry>, files: map<Path, nat>, todo: set<Id>,
                entries: map<Id, Entry>, order: seq<Id>, total: int, id: Id)
    requires todo <= stored.Keys && Loading(stored, files, todo, entries, order, total)
    requires id in todo && forall x :: x in todo ==> Access(stored, id) <= Access(stored, x)
    ensures if stored[id].filePath in files
            then Loading(stored, files, todo - {id}, entries[id := stored[id]], order + [id],
              total + stored[id].fileSize)
            else Loading(stored, files, todo - {id}, entries, order, total)
  {
    if stored[id].filePath in files {
      var after := entries[id := stored[id]];
      SumAppend(after, order, id);
      SumFrame(entries, after, order);
      assert id !in order;
    }
  }

  lemma LoadDone(stored: map<Id, Entry>, files: map<Path, nat>, entries: map<Id, Entry>, order: seq<Id>, total: int)
    requires Loading(stored, files, {}, entries, order, total)
    ensures entries == Existing(stored, files) && NoDup(order) && total == Sum(entries, order)
    ensures SortedByAccess(entries, order)
  {
    SortFrame(stored, entries, order);
  }

  lemma EmptyLoad(s: Store)
    requires s.disk.None? && s.entries == map[] && s.order == [] && s.total == 0
    ensures IsLoad(s, s)
  {
  }

  lemma ReinsertKey(entries: map<Id, Entry>, id: Id, e: Entry)
    ensures (entries - {id})[id := e] == entries[id := e]
  {
  }

  /** Any of the least recently accessed: ties come in the map's arbitrary order. */
  method PickOldest(entries: map<Id, Entry>, todo: set<Id>) returns (oldest: Id)
    requires todo != {}
    ensures oldest in todo && forall id :: id in todo ==> Access(entries, oldest) <= Access(entries, id)
  {
    ghost var least := OldestExists(entries, todo);
    oldest :| oldest in todo && forall id :: id in todo ==> Access(entries, oldest) <= Access(entries, id);
  }

  class Manager {
    var maxBytes: nat
    var entries: map<Id, Entry>
    var order: seq<Id>
    var total: int
    var files: map<Path, nat>
    var disk: Option<map<Id, Entry>>

    ghost function View(): Store
      reads this
    {
      Store(maxBytes, entries, order, total, files, disk)
    }

    ghost predicate Valid()
      reads this
    {
      Rep(View())
    }

    /** Starts from a directory and whatever metadata was persisted. */
    constructor (mb: nat, files: map<Path, nat>, disk: Option<map<Id, Entry>>)
      ensures Valid() && IsLimit(maxBytes, mb)
      ensures IsLoad(Store(MaxBytes(mb), map[], [], 0, files, disk), View())
    {
      MaxBytesIsLimit(mb);
      maxBytes, entries, order, total := MaxBytes(mb), map[], [], 0;
      this.files, this.disk := files, disk;
      new;
      Load();
    }

    /** Rebuilds entries, order and total from the persisted metadata, oldest access first. */
    method Load()
      requires entries == map[] && order == [] && total == 0
      modifies this`entries, this`order, this`total
      ensures IsLoad(old(View()), View())
    {
      if disk.None? {
        EmptyLoad(View());
        return;
      }
      var stored := disk.value;
      var todo := stored.Keys;
      while todo != {}
        invariant todo <= stored.Keys
        invariant Loading(stored, files, todo, entries, order, total)
        decreases |todo|
      {
        var id := PickOldest(stored, todo);
        LoadOne(stored, files, todo, entries, order, total, id);
        todo := todo - {id};
        if stored[id].filePath in files {
          total := total + stored[id].fileSize;
          order := order + [id];
          entries := entries[id := stored[id]];
        }
      }
      LoadDone(stored, files, entries, order, total);
    }

    method Save()
      modifies this`disk
      ensures View() == C.Save(old(View()))
    {
      disk := Some(entries);
    }

    method RemoveEntry(id: Id)
      modifies this`entries, this`total, this`files
      ensures View() == C.RemoveEntry(old(View()), id)
    {
      if id in entries {
        var removed := entries[id];
        entries := entries - {id};
        total := Clamp(total - removed.fileSize);
        files := files - {removed.filePath};
      }
    }

    method Remove(id: Id)
      modifies this`entries, this`total, this`files, this`order
      ensures View() == C.Remove(old(View()), id)
    {
      RemoveEntry(id);
      order := Without(order, id);
    }

    method EvictIfNeeded()
      modifies this`entries, this`total, this`files, this`order
      ensures View() == Evict(old(View()))
    {
      while total > maxBytes
        invariant Evict(View()) == Evict(old(View()))
        decreases |order|
      {
        if order == [] {
          break;
        }
        var oldest := order[0];
        order := order[1..];
        RemoveEntry(oldest);
      }
    }

    method Touch(id: Id, now: int) returns (persist: bool)
      requires Valid()
      modifies this`entries, this`order
      ensures persist == Due(old(View()), id, now)
      ensures View() == C.Touch(old(View()), id, now)
    {
      var alreadyNewest := order != [] && order[|order| - 1] == id;
      if id !in entries || now - entries[id].lastAccessedAt < TOUCH_PERSIST_SECS {
        return false;
      }
      entries := entries[id := entries[id].(lastAccessedAt := now)];
      if alreadyNewest {
        WithoutLast(order, id);
      } else {
        order := Without(order, id) + [id];
      }
      return true;
    }

    /** A cached track's path, dropping the entry if its file has vanished. */
    method GetPath(id: Id, now: int) returns (path: Option<Path>)
      requires Valid()
      modifies this
      ensures Valid()
      ensures (View(), path) == C.GetPath(old(View()), id, now)
    {
      RemoveRep(View(), id);
      TouchRep(View(), id, now);
      if id !in entries {
        return None;
      }
      path := Some(entries[id].filePath);
      if path.value !in files {
        Remove(id);
        Save();
        return None;
      }
      var persist := Touch(id, now);
      if persist {
        Save();
      }
    }

    /** Replaces or adds an entry as the newest; a replaced entry's own file goes, if it is another one. */
    method Insert(id: Id, entry: Entry)
      requires total >= 0 && (id in order ==> id in entries)
      modifies this`entries, this`order, this`total, this`files
      ensures View() == C.Insert(old(View()), id, entry)
    {
      if id in entries {
        var replaced := entries[id];
        entries := entries - {id};
        total := Clamp(total - replaced.fileSize);
        order := Without(order, id);
        if replaced.filePath != entry.filePath {
          files := files - {replaced.filePath};
        }
      } else {
        WithoutAbsent(order, id);
      }
      total := total + entry.fileSize;
      entries := entries[id := entry];
      order := order + [id];
      ReinsertKey(old(entries), id, entry);
    }

    /** The first half of a put, without the lock: anything may happen before the second. */
    method Prepare(path: Path, bitrate: string, normalized: bool, now: int) returns (entry: Entry)
      ensures entry == NewEntry(View(), path, bitrate, normalized, now)
      ensures entry == Entry(now, path, if path in files then files[path] else 0, bitrate, normalized)
    {
      var size := if path in files then files[path] else 0;
      entry := Entry(now, path, size, bitrate, normalized);
    }

    method Put(id: Id, entry: Entry)
      requires Valid()
      modifies this
      ensures Valid() && total <= maxBytes
      ensures View() == C.Put(old(View()), id, entry)
    {
      InsertRep(View(), id, entry);
      EvictRep(C.Insert(View(), id, entry));
      Insert(id, entry);
      EvictIfNeeded();
      Save();
    }

    method SetMaxMb(mb: nat)
      requires Valid()
      modifies this
      ensures Valid() && total <= maxBytes && IsLimit(maxBytes, mb)
      ensures View() == C.SetMaxMb(old(View()), mb)
    {
      MaxBytesIsLimit(mb);
      EvictRep(View().(maxBytes := MaxBytes(mb)));
      maxBytes := MaxBytes(mb);
      EvictIfNeeded();
      Save();
    }

    method Clear()
      modifies this
      ensures Valid()
      ensures View() == C.Clear(old(View()))
      ensures entries == map[] && files == map[] && disk == Some(map[]) && maxBytes == old(maxBytes)
    {
      entries, order, total, files := map[], [], 0, map[];
      Save();
    }
  }

  lemma {:induction false} WithoutLast(order: seq<Id>, id: Id)
    requires NoDup(order) && order != [] && order[|order| - 1] == id
    ensures Without(order, id) + [id] == order
  {
    if |order| > 1 {
      WithoutLast(order[1..], id);
    }
  }

  lemma SortFrame(e: map<Id, Entry>, f: map<Id, Entry>, order: seq<Id>)
    requires SortedByAccess(e, order) && forall id :: id in order ==> Access(e, id) == Access(f, id)
    ensures SortedByAccess(f, order)
  {
  }
}
