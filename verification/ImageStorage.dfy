/** Content-addressed image files, the table that maps images to them, and the queue of files to delete
    (src/ingestion/storage/image_storage.py). */
module ImageStorage {
  import opened Outcomes
  import opened Text
  import opened ExternalCalls

  /** `(collection, image_id)`, the primary key. */
  type Key = (string, string)

  datatype Row = Row(path: string, document: Option<string>)
  type Index = map<Key, Row>

  /** How a transaction ended: the database error is raised again by the caller. */
  datatype Saving = Saved(cleanup: bool) | NotSaved(created: bool)

  /** What fails during one `save_bytes`: whether the file can be written, whether the transaction commits, and whether
      the queue takes the file when the transaction did not. */
  datatype Luck = Luck(written: bool, committed: bool, queued: bool)

  datatype Outcome = Done | Raised | Invalid

  predicate Referenced(index: Index, path: string) {
    exists k :: k in index && index[k].path == path
  }

  /** The rows a removal selects. */
  predicate Selected(k: Key, row: Row, document: string, collection: Option<string>) {
    row.document == Some(document) && (collection.None? || k.0 == collection.value)
  }

  function Matching(index: Index, document: string, collection: Option<string>): set<Key> {
    set k | k in index && Selected(k, index[k], document, collection)
  }

  function Paths(index: Index, keys: set<Key>): set<string> {
    set k | k in keys && k in index :: index[k].path
  }

  /** What `_upsert` queues: the file the image had before, if nothing refers to it any more. */
  function Superseded(before: Index, after: Index, key: Key, path: string): set<string> {
    if key in before && before[key].path != path && !Referenced(after, before[key].path) then {before[key].path} else {}
  }

  /** A new file is written, its row is rolled back, and the file cannot be queued either. */
  predicate LeavesFile(files: set<string>, queue: set<string>, path: string, luck: Luck) {
    path !in files && path !in queue && luck == Luck(true, false, false)
  }

  class ImageStorage {
    var index: Index
    var queue: set<string>
    var files: set<string>
    /** Whether a path is inside the storage root. */
    const managed: string -> bool
    const calls: Calls

    constructor (managed: string -> bool, calls: Calls)
      ensures this.managed == managed && this.calls == calls
      ensures index == map[] && queue == {} && files == {} && Mapped() && Tidy()
    {
      this.managed, this.calls, index, queue, files := managed, calls, map[], {}, {};
    }

    /** Every mapped path exists. */
    ghost predicate Mapped()
      reads this
    {
      forall k :: k in index ==> index[k].path in files
    }

    /** Every managed file that nothing refers to is queued for deletion. */
    ghost predicate Tidy()
      reads this
    {
      forall p :: p in files && managed(p) ==> p in queue || Referenced(index, p)
    }

    // ----- transactions ------------------------------------------------------------------------------
    // A transaction holds the write lock of the database from its first statement to its end, so whatever
    // other processes do happens between transactions, and each of them alone keeps every mapped path.

    /** The transaction of `save_bytes`: the file if it is missing, then the row; a failure rolls the row back
        and leaves the file. */
    method SaveTransaction(key: Key, path: string, document: Option<string>, luck: Luck) returns (r: Saving)
      requires Mapped()
      modifies this
      ensures Mapped()
      ensures r.Saved? <==> (path in old(files) || luck.written) && luck.committed
      ensures r.Saved? ==>
        && index == old(index)[key := Row(path, document)] && files == old(files) + {path}
        && queue == (old(queue) - {path}) + Superseded(old(index), index, key, path)
        && r.cleanup == (Superseded(old(index), index, key, path) != {})
      ensures r.NotSaved? ==>
        && index == old(index) && queue == old(queue) && (r.created <==> path !in old(files) && luck.written)
        && files == if r.created then old(files) + {path} else old(files)
    {
      var created := false;
      if path !in files {
        if !luck.written {
          return NotSaved(false);
        }
        files := files + {path};
        created := true;
      }
      var after := index[key := Row(path, document)];
      var superseded := Superseded(index, after, key, path);
      if !luck.committed {
        return NotSaved(created);
      }
      index, queue := after, (queue - {path}) + superseded;
      r := Saved(superseded != {});
    }

    /** `_queue_file_if_unreferenced`, up to its purge: nothing happens when the database refuses. */
    method QueueIfUnreferenced(path: string, ok: bool)
      requires Mapped()
      modifies `queue
      ensures Mapped()
      ensures queue == if !ok || Referenced(index, path) then old(queue) else old(queue) + {path}
    {
      if ok && !Referenced(index, path) {
        queue := queue + {path};
      }
    }

    /** The transaction of `remove_document`, for the paths it had read before. */
    method RemoveTransaction(document: string, collection: Option<string>, paths: set<string>) returns (ok: bool)
      requires Mapped()
      modifies `index, `queue, calls`failed
      ensures Mapped()
      ensures calls.failed == old(calls.failed) + if ok then 0 else 1
      ensures ok ==>
        && index == old(index) - Matching(old(index), document, collection)
        && queue == old(queue) + set p | p in paths && !Referenced(index, p)
      ensures !ok ==> index == old(index) && queue == old(queue)
    {
      ok := calls.Forward();
      if ok {
        index := index - Matching(index, document, collection);
        queue := queue + set p | p in paths && !Referenced(index, p);
      }
    }

    /** One round of `_purge_delete_queue`: a file is unlinked only while nothing can start to refer to it. */
    method PurgeOne(path: string) returns (raised: bool)
      requires Mapped()
      modifies `queue, `files, calls`failed
      ensures calls.failed >= old(calls.failed) && (raised ==> calls.failed > old(calls.failed))
      ensures calls.failed == old(calls.failed) ==>
        && queue == old(queue) - {path}
        && files == if managed(path) && !Referenced(index, path) then old(files) - {path} else old(files)
      ensures Mapped() && (old(Tidy()) ==> Tidy())
      ensures old(files) - {path} <= files <= old(files) && old(queue) - {path} <= queue <= old(queue)
      ensures path in old(files) && path !in files ==> managed(path) && !Referenced(index, path)
    {
      if !Referenced(index, path) && managed(path) {
        var unlinked := calls.Forward();
        if !unlinked {
          return false;
        }
        files := files - {path};
      }
      var dequeued := calls.Forward();
      if dequeued {
        queue := queue - {path};
      }
      raised := !dequeued;
    }

    // ----- operations --------------------------------------------------------------------------------

    /** `_purge_delete_queue`: what is deleted was queued and is referred to by nothing, and all of that is deleted
        unless a call fails. */
    method PurgeDeleteQueue() returns (raised: bool)
      requires Mapped()
      modifies `queue, `files, calls`failed
      ensures calls.failed >= old(calls.failed) && (raised ==> calls.failed > old(calls.failed))
      ensures calls.failed == old(calls.failed) ==>
        && queue == {}
        && forall p :: p in old(queue) && managed(p) && !Referenced(index, p) ==> p !in files
      ensures Mapped() && (old(Tidy()) ==> Tidy())
      ensures files <= old(files) && queue <= old(queue)
      ensures forall p :: p in old(files) && p !in files ==> p in old(queue) && managed(p) && !Referenced(index, p)
    {
      var listed := calls.Forward();
      if !listed {
        return true;
      }
      var queued := queue;
      raised := false;
      while queued != {} && !raised
        invariant calls.failed >= old(calls.failed) && (raised ==> calls.failed > old(calls.failed))
        invariant calls.failed == old(calls.failed) ==>
          && queue == queued
          && forall p :: p in old(queue) && p !in queued && managed(p) && !Referenced(index, p) ==> p !in files
        invariant Mapped() && (old(Tidy()) ==> Tidy()) && queued <= old(queue)
        invariant files <= old(files) && queue <= old(queue)
        invariant forall p :: p in old(files) && p !in files ==> p in old(queue) && managed(p) && !Referenced(index, p)
        decreases |queued|
      {
        var path :| path in queued;
        raised := PurgeOne(path);
        queued := queued - {path};
      }
      if !raised {
        var checkpointed := calls.Forward();
        raised := !checkpointed;
      }
    }

    /** `save_bytes`. When it does not overlap with other operations, an unreferenced file is left behind exactly when
        the file was new, its transaction failed after writing it, and queueing it failed too. */
    method SaveBytes(imageId: string, data: seq<bv8>, collection: string, path: string, document: Option<string>,
                     luck: Luck)
      returns (outcome: Outcome)
      requires Mapped() && managed(path)
      modifies this, calls`failed
      ensures Mapped()
      ensures outcome == Raised && (path in old(files) || luck.written) && luck.committed ==>
        calls.failed > old(calls.failed)
      ensures outcome == Invalid <==> Blank(imageId) || data == []
      ensures outcome == Invalid ==> queue == old(queue) && files == old(files)
      ensures old(Tidy()) && outcome != Invalid ==> (Tidy() <==> !LeavesFile(old(files), old(queue), path, luck))
      ensures outcome == Done ==> (path in old(files) || luck.written) && luck.committed
      ensures outcome != Invalid && (path in old(files) || luck.written) && luck.committed ==>
        index == old(index)[(collection, imageId) := Row(path, document)]
      ensures outcome == Invalid || !((path in old(files) || luck.written) && luck.committed) ==> index == old(index)
    {
      if Blank(imageId) || data == [] {
        return Invalid;
      }
      var saving := SaveTransaction((collection, imageId), path, document, luck);
      match saving
      case NotSaved(created) =>
        outcome := Raised;
        if created {
          RecoverFile(path, luck.queued);
        }
      case Saved(cleanup) =>
        SavedStaysTidy(old(index), old(queue), old(files), (collection, imageId), Row(path, document));
        var checkpointed := calls.Forward();
        outcome := if checkpointed then Done else Raised;
        if checkpointed && cleanup {
          var raised := PurgeDeleteQueue();
          outcome := if raised then Raised else Done;
        }
    }

    /** A new row for a path leaves no file unqueued and unreferenced. */
    lemma SavedStaysTidy(index: Index, queue: set<string>, files: set<string>, key: Key, row: Row)
      ensures var after := index[key := row];
        (forall p :: p in files && managed(p) ==> p in queue || Referenced(index, p)) ==>
        forall p :: p in files + {row.path} && managed(p) ==>
          p in (queue - {row.path}) + Superseded(index, after, key, row.path) || Referenced(after, p)
    {
      var after := index[key := row];
      assert after[key].path == row.path;
      forall p | Referenced(index, p) ensures Referenced(after, p) || p in Superseded(index, after, key, row.path) {
        var k :| k in index && index[k].path == p;
        if k != key {
          assert after[k].path == p;
        }
      }
    }

    /** `_queue_file_if_unreferenced`, for the file of a save that was rolled back. */
    method RecoverFile(path: string, queued: bool)
      requires Mapped() && managed(path)
      modifies `queue, `files, calls`failed
      ensures Mapped()
      ensures queued &&
        (forall p :: p in old(files) && managed(p) && p != path ==> p in old(queue) || Referenced(index, p))
        ==> Tidy()
      ensures !queued ==> files == old(files) && queue == old(queue)
    {
      QueueIfUnreferenced(path, queued);
      if queued {
        var raised := PurgeDeleteQueue();
      }
    }

    /** `remove_document`. Nothing else is unmapped, and a file other images still refer to stays. */
    method RemoveDocument(document: string, collection: Option<string>) returns (outcome: Outcome, count: nat)
      requires Mapped()
      modifies this, calls`failed
      ensures Mapped() && (old(Tidy()) ==> Tidy())
      ensures outcome == Invalid <==> Blank(document)
      ensures outcome == Raised ==> calls.failed > old(calls.failed)
      ensures outcome == Done ==> forall k :: k in old(index) ==>
        (k in index <==> old(index)[k].document != Some(document) || (collection.Some? && collection.value != k.0))
      ensures outcome == Done ==>
        && index == old(index) - Matching(old(index), document, collection)
        && count == |Matching(old(index), document, collection)|
      ensures index == old(index) || index == old(index) - Matching(old(index), document, collection)
      ensures files <= old(files)
      ensures forall p :: p in old(files) && p !in files ==> managed(p) && !Referenced(index, p)
    {
      count := 0;
      if Blank(document) {
        return Invalid, 0;
      }
      var rows := Matching(index, document, collection);
      if rows == {} {
        assert index - rows == index;
        return Done, 0;
      }
      var removed := RemoveTransaction(document, collection, Paths(index, rows));
      if !removed {
        return Raised, 0;
      }
      RemovedStaysTidy(old(index), rows);
      var checkpointed := calls.Forward();
      if !checkpointed {
        return Raised, |rows|;
      }
      var raised := PurgeDeleteQueue();
      outcome, count := if raised then Raised else Done, |rows|;
    }

    lemma RemovedStaysTidy(before: Index, rows: set<Key>)
      ensures forall p :: Referenced(before, p) ==> Referenced(before - rows, p) || p in Paths(before, rows)
    {
      var after := before - rows;
      forall p | Referenced(before, p) && p !in Paths(before, rows) ensures Referenced(after, p) {
        var k :| k in before && before[k].path == p;
        assert k in after && after[k].path == p;
      }
    }
  }

  /** The first image of a fresh storage, whose transaction and whose queueing both fail, leaves its file behind. */
  method FileLeftBehind(managed: string -> bool, path: string, calls: Calls) returns (storage: ImageStorage)
    requires managed(path)
    modifies calls
    ensures fresh(storage) && storage.index == map[] && !storage.Tidy()
  {
    storage := new ImageStorage(managed, calls);
    var outcome := storage.SaveBytes("i", [1], "c", path, None, Luck(true, false, false));
    assert !Blank("i") by {
      assert !IsSpace("i"[0]);
    }
  }
}
