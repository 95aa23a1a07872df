/** The corpus swap of the vector store (src/libs/vector_store/chroma_store.py).

    Every call into Chroma or the file system may fail, and then has no effect. A method returns false where the
    source raises. */
module ChromaSwap {
  import opened Outcomes
  import opened Corpus
  import opened Resync
  import opened IndexStores
  import opened ExternalCalls

  /** The names a collection can carry; `tx` is the random identifier of one swap. */
  datatype Name = Canonical | Staging(tx: nat) | Backup(tx: nat) | Failed(tx: nat) | Unrelated(name: string)

  datatype Phase = Preparing | Staged | BackupRenamed | Switched | Finalized

  datatype Collection = Collection(id: nat, records: DenseIndex)

  /** What survives a crash: the named collections and the swap journal. */
  datatype Disk = Disk(collections: map<Name, Collection>, journal: Option<Phase>)

  datatype Outcome = Done | Raised(compensated: bool)

  /** What `__init__` finds when it opens the store. */
  datatype Opening = Refused | Opened(records: DenseIndex) | CreatedEmpty

  /** `_wait_for_active_swap` waits or raises while a journal exists; then `get_or_create_collection`. */
  function Open(d: Disk): Opening {
    if d.journal.Some? then Refused
    else if Canonical in d.collections then Opened(d.collections[Canonical].records)
    else CreatedEmpty
  }

  /** Whoever opens the store now is refused, or sees one of the two complete corpora. */
  predicate CrashSafe(d: Disk, before: DenseIndex, after: DenseIndex) {
    Open(d) == Refused || Open(d) == Opened(before) || Open(d) == Opened(after)
  }

  /** The records of a batch written over what a collection already holds. */
  function Put(index: DenseIndex, records: seq<(string, DenseRecord)>): DenseIndex {
    if records == [] then index else
    var last := records[|records| - 1];
    Put(index, records[..|records| - 1])[last.0 := last.1]
  }

  function RecordIndex(records: seq<(string, DenseRecord)>): DenseIndex {
    Put(map[], records)
  }

  lemma {:induction false} PutConcat(index: DenseIndex, a: seq<(string, DenseRecord)>, b: seq<(string, DenseRecord)>)
    ensures Put(index, a + b) == Put(Put(index, a), b)
  {
    if b == [] {
      assert a + b == a;
    } else {
      assert (a + b)[..|a + b| - 1] == a + b[..|b| - 1];
      PutConcat(index, a, b[..|b| - 1]);
    }
  }

  class ChromaStore {
    const calls: Calls
    var disk: Disk
    /** Identity of the collection `self.collection` points at. */
    var active: nat
    var nextId: nat
    /** Every disk state there has been, for a crash can happen after any step. */
    ghost var seen: set<Disk>

    /** A store that finds no collection and creates it. */
    constructor (calls: Calls)
      ensures this.calls == calls && Fresh() && seen == {disk}
      ensures disk == Disk(map[Canonical := Collection(0, map[])], None) && nextId == 1
    {
      this.calls := calls;
      active, nextId := 0, 1;
      disk := Disk(map[Canonical := Collection(0, map[])], None);
      seen := {Disk(map[Canonical := Collection(0, map[])], None)};
    }

    /** The handle points at the canonical collection. */
    predicate Fresh()
      reads this`disk, this`active
    {
      Canonical in disk.collections && disk.collections[Canonical].id == active
    }

    /** The random identifier of a new swap is not in use. */
    predicate Unused(tx: nat)
      reads this
    {
      Staging(tx) !in disk.collections && Backup(tx) !in disk.collections && Failed(tx) !in disk.collections
    }

    /** `refresh_active_generation`: point the handle at whatever now carries the canonical name. */
    method RefreshActiveGeneration() returns (ok: bool)
      modifies this`active, calls`failed
      ensures ok ==> Fresh()
      ensures !ok ==> active == old(active)
      ensures calls.failed >= old(calls.failed)
      ensures !ok && Canonical in disk.collections ==> calls.failed > old(calls.failed)
    {
      ok := calls.Forward();
      ok := ok && Canonical in disk.collections;
      if ok {
        active := disk.collections[Canonical].id;
      }
    }

    // ----- one external effect each ------------------------------------------------------------

    method WriteJournal(phase: Phase) returns (ok: bool)
      modifies this`disk, this`seen, calls`failed
      ensures disk == if ok then old(disk).(journal := Some(phase)) else old(disk)
      ensures seen == old(seen) + {disk}
      ensures calls.failed == old(calls.failed) + if ok then 0 else 1
    {
      ok := calls.Forward();
      if ok {
        disk := disk.(journal := Some(phase));
      }
      seen := seen + {disk};
    }

    method UnlinkJournal()
      modifies this`disk, this`seen
      ensures disk == old(disk).(journal := None) && seen == old(seen) + {disk}
    {
      disk := disk.(journal := None);
      seen := seen + {disk};
    }

    method CreateCollection(name: Name) returns (ok: bool)
      modifies this`disk, this`seen, this`nextId, calls`failed
      ensures ok ==> name !in old(disk).collections
      ensures calls.failed >= old(calls.failed)
      ensures !ok && name !in old(disk).collections ==> calls.failed > old(calls.failed)
      ensures disk ==
        if ok then old(disk).(collections := old(disk).collections[name := Collection(old(nextId), map[])])
                      else old(disk)
      ensures nextId == old(nextId) + if ok then 1 else 0
      ensures seen == old(seen) + {disk}
    {
      ok := calls.Forward();
      ok := ok && name !in disk.collections;
      if ok {
        disk := disk.(collections := disk.collections[name := Collection(nextId, map[])]);
        nextId := nextId + 1;
      }
      seen := seen + {disk};
    }

    method RenameCollection(from: Name, to: Name, undo: bool) returns (ok: bool)
      modifies this`disk, this`seen, calls
      ensures calls.Failures(!undo) == old(calls.Failures(!undo))
      ensures calls.Failures(undo) >= old(calls.Failures(undo))
      ensures !ok && from in old(disk).collections && to !in old(disk).collections ==>
                calls.Failures(undo) > old(calls.Failures(undo))
      ensures ok ==> from in old(disk).collections && to !in old(disk).collections
      ensures disk == if ok then old(disk).(collections := Renamed(old(disk).collections, from, to)) else old(disk)
      ensures seen == old(seen) + {disk}
    {
      ok := calls.Try(undo);
      ok := ok && from in disk.collections && to !in disk.collections;
      if ok {
        disk := disk.(collections := Renamed(disk.collections, from, to));
      }
      seen := seen + {disk};
    }

    static function Renamed(cs: map<Name, Collection>, from: Name, to: Name): map<Name, Collection>
      requires from in cs
    {
      (cs - {from})[to := cs[from]]
    }

    method DeleteCollection(name: Name, undo: bool) returns (ok: bool)
      modifies this`disk, this`seen, calls
      ensures calls.Failures(!undo) == old(calls.Failures(!undo))
      ensures calls.Failures(undo) >= old(calls.Failures(undo))
      ensures !ok && name in old(disk).collections ==> calls.Failures(undo) > old(calls.Failures(undo))
      ensures disk == if ok then old(disk).(collections := old(disk).collections - {name}) else old(disk)
      ensures seen == old(seen) + {disk}
    {
      ok := calls.Try(undo);
      ok := ok && name in disk.collections;
      if ok {
        disk := disk.(collections := disk.collections - {name});
      }
      seen := seen + {disk};
    }

    method UpsertBatch(name: Name, batch: seq<(string, DenseRecord)>) returns (ok: bool)
      requires name in disk.collections
      modifies this`disk, this`seen, calls`failed
      ensures calls.failed == old(calls.failed) + if ok then 0 else 1
      ensures disk == if ok then old(disk).(collections := Upserted(old(disk).collections, name, batch)) else old(disk)
      ensures seen == old(seen) + {disk}
    {
      ok := calls.Forward();
      if ok {
        disk := disk.(collections := Upserted(disk.collections, name, batch));
      }
      seen := seen + {disk};
    }

    static function Upserted(cs: map<Name, Collection>, name: Name, batch: seq<(string, DenseRecord)>)
      : map<Name, Collection>
      requires name in cs
    {
      cs[name := Collection(cs[name].id, Put(cs[name].records, batch))]
    }

    // ----- replace_all_atomically ----------------------------------------------------------------

    /** `_upsert_collection`: batches of 256 records, so that what a failure leaves behind is some whole batches. */
    method UpsertCollection(name: Name, records: seq<(string, DenseRecord)>)
      returns (ok: bool, ghost written: nat)
      requires name in disk.collections && disk.journal.Some?
      modifies this`disk, this`seen, calls`failed
      ensures calls.failed == old(calls.failed) + if ok then 0 else 1
      ensures disk.journal == old(disk).journal && disk.collections.Keys == old(disk).collections.Keys
      ensures forall n :: n in disk.collections && n != name ==> disk.collections[n] == old(disk).collections[n]
      ensures disk.collections[name].id == old(disk).collections[name].id
      ensures ok ==> disk.collections[name].records == Put(old(disk).collections[name].records, records)
      ensures !ok ==> written < |records| && written % 256 == 0
      ensures !ok ==> disk.collections[name].records == Put(old(disk).collections[name].records, records[..written])
      ensures forall d :: d in seen ==> d in old(seen) || d.journal.Some?
    {
      var start := 0;
      while start < |records|
        invariant 0 <= start <= |records| && (start < |records| ==> start % 256 == 0)
        invariant disk.journal == old(disk).journal && disk.collections.Keys == old(disk).collections.Keys
        invariant forall n :: n in disk.collections && n != name ==> disk.collections[n] == old(disk).collections[n]
        invariant calls.failed == old(calls.failed)
        invariant disk.collections[name].id == old(disk).collections[name].id
        invariant disk.collections[name].records == Put(old(disk).collections[name].records, records[..start])
        invariant forall d :: d in seen ==> d in old(seen) || d.journal.Some?
      {
        var end := if start + 256 < |records| then start + 256 else |records|;
        var batch := records[start..end];
        ok := UpsertBatch(name, batch);
        if !ok {
          return false, start;
        }
        assert records[..end] == records[..start] + batch;
        PutConcat(old(disk).collections[name].records, records[..start], batch);
        start := end;
      }
      assert records[..start] == records;
      return true, start;
    }

    /** What the disk looks like, apart from the staging collection, after each half of the switch. */
    static ghost predicate Progress(now: map<Name, Collection>, was: map<Name, Collection>, tx: nat,
                                    targetRenamed: bool, switched: bool, staged: Collection)
      requires Canonical in was
    {
      if switched then now == (was - {Canonical})[Backup(tx) := was[Canonical]][Canonical := staged]
      else if targetRenamed then now - {Staging(tx)} == (was - {Canonical})[Backup(tx) := was[Canonical]]
      else now - {Staging(tx)} == was
    }

    /** Fill a staging collection with the new corpus. */
    method FillStaging(records: seq<(string, DenseRecord)>, tx: nat) returns (ok: bool)
      requires Staging(tx) !in disk.collections && disk.journal.Some?
      modifies this`disk, this`seen, this`nextId, calls`failed
      ensures calls.failed >= old(calls.failed) && (!ok ==> calls.failed > old(calls.failed))
      ensures disk.journal == old(disk).journal && disk.collections - {Staging(tx)} == old(disk).collections
      ensures ok ==> Staging(tx) in disk.collections && nextId == old(nextId) + 1
      ensures ok ==> disk.collections[Staging(tx)] == Collection(old(nextId), RecordIndex(records))
      ensures forall d :: d in seen ==> d in old(seen) || d.journal.Some?
    {
      ok := CreateCollection(Staging(tx));
      if !ok {
        return;
      }
      ghost var written;
      ok, written := UpsertCollection(Staging(tx), records);
      assert disk.collections - {Staging(tx)} == old(disk).collections;
    }

    /** Fill the staging collection and count it. */
    method StageCorpus(records: seq<(string, DenseRecord)>, tx: nat) returns (ok: bool)
      requires Staging(tx) !in disk.collections && disk.journal.Some?
      modifies this`disk, this`seen, this`nextId, calls`failed
      ensures calls.failed >= old(calls.failed)
      ensures !ok && |RecordIndex(records)| == |records| ==> calls.failed > old(calls.failed)
      ensures disk.journal.Some? && disk.collections - {Staging(tx)} == old(disk).collections
      ensures ok ==> |RecordIndex(records)| == |records|
      ensures ok ==> Staging(tx) in disk.collections && nextId == old(nextId) + 1
      ensures ok ==> disk.collections[Staging(tx)] == Collection(old(nextId), RecordIndex(records))
      ensures forall d :: d in seen ==> d in old(seen) || d.journal.Some?
    {
      ok := FillStaging(records, tx);
      if !ok {
        return;
      }
      if |disk.collections[Staging(tx)].records| != |records| {
        return false;
      }
      ok := WriteJournal(Staged);
    }

    /** Rename the old corpus away and the staged one in; `self.collection` follows. */
    method SwitchNames(tx: nat) returns (ok: bool, targetRenamed: bool, switched: bool)
      requires Canonical in disk.collections && Staging(tx) in disk.collections && disk.journal.Some?
      requires Backup(tx) !in disk.collections
      modifies this`disk, this`seen, this`active, calls
      ensures calls.failedUndo == old(calls.failedUndo) && calls.failed >= old(calls.failed)
      ensures !ok ==> calls.failed > old(calls.failed)
      ensures disk.journal.Some? && (switched ==> targetRenamed) && (ok ==> switched)
      ensures Progress(disk.collections, old(disk).collections - {Staging(tx)}, tx, targetRenamed, switched,
                       old(disk).collections[Staging(tx)])
      ensures active == if switched then old(disk).collections[Staging(tx)].id else old(active)
      ensures forall d :: d in seen ==> d in old(seen) || d.journal.Some?
    {
      targetRenamed, switched := false, false;
      ok := RenameCollection(Canonical, Backup(tx), false);
      if !ok {
        return;
      }
      targetRenamed := true;
      ok := WriteJournal(BackupRenamed);
      if !ok {
        return;
      }
      ok := RenameCollection(Staging(tx), Canonical, false);
      if !ok {
        return;
      }
      switched := true;
      active := disk.collections[Canonical].id;
      ok := WriteJournal(Switched);
      if !ok {
        return;
      }
    }

    /** The `try` block: stage, rename the old corpus away, rename the new one in, finalize. */
    method TrySwap(records: seq<(string, DenseRecord)>, tx: nat, stores: CoordinatedStores,
                   index: SparseIndex, key: RowKey, row: Row)
      returns (ok: bool, targetRenamed: bool, switched: bool)
      requires Fresh() && Unused(tx) && disk.journal == Some(Preparing) && stores.calls == calls
      modifies this, calls,
               stores`documents, stores`indexFile, stores`modelFile, stores`history, stores`sparseAttempted
      ensures calls.failedUndo == old(calls.failedUndo) && calls.failed >= old(calls.failed)
      ensures !ok && |RecordIndex(records)| == |records| == |index| ==> calls.failed > old(calls.failed)
      ensures disk.journal.Some? && (switched ==> targetRenamed)
      ensures Progress(disk.collections, old(disk).collections, tx, targetRenamed, switched,
                       Collection(old(nextId), RecordIndex(records)))
      ensures active == if switched then old(nextId) else old(active)
      ensures switched ==> nextId == old(nextId) + 1
      ensures forall d :: d in seen ==> d in old(seen) || d.journal.Some?
      ensures !stores.sparseAttempted ==> !old(stores.sparseAttempted)
      ensures !stores.sparseAttempted ==> stores.documents == old(stores.documents)
      ensures !stores.sparseAttempted ==> stores.indexFile == old(stores.indexFile)
      ensures !stores.modelPrepared ==> stores.modelFile == old(stores.modelFile)
      ensures stores.history == old(stores.history) || stores.history == old(stores.history)[key := row]
      ensures ok ==> switched && stores.documents == index && stores.indexFile == index
      ensures ok ==> |RecordIndex(records)| == |records| == |index|
      ensures ok && stores.modelPrepared && stores.preparedBackup.Some? ==> stores.modelFile == stores.model
      ensures ok ==> stores.history == old(stores.history)[key := row]
    {
      targetRenamed, switched := false, false;
      ok := StageCorpus(records, tx);
      if !ok {
        return;
      }
      ok, targetRenamed, switched := SwitchNames(tx);
      if !ok {
        return;
      }
      ok := stores.CommitSparseAndModel(index, key, row, |disk.collections[Canonical].records|, |records|);
      if !ok {
        return;
      }
      ok := WriteJournal(Finalized);
    }

    static lemma NameGivenBack(cs: map<Name, Collection>, was: map<Name, Collection>, backup: Name, extra: Name)
      requires Canonical in was && backup !in was && extra !in was
      requires backup != Canonical && extra != Canonical && extra != backup
      requires cs - {extra} == (was - {Canonical})[backup := was[Canonical]]
      ensures backup in cs && Renamed(cs, backup, Canonical) - {extra} == was
    {
      assert backup in cs - {extra} && (cs - {extra})[backup] == cs[backup];
      forall n | n in was ensures n in Renamed(cs, backup, Canonical) && Renamed(cs, backup, Canonical)[n] == was[n] {
        if n != Canonical {
          assert n in cs - {extra} && (cs - {extra})[n] == cs[n];
        }
      }
      forall n | n in Renamed(cs, backup, Canonical) && n != extra ensures n in was {
        if n != Canonical {
          assert n in cs - {extra};
        }
      }
    }

    /** Free the canonical name of the switched collection and give it back to the old one. */
    method UndoSwitch(tx: nat, ghost was: map<Name, Collection>, ghost staged: Collection)
      returns (ok: bool)
      requires Canonical in was && Staging(tx) !in was && Backup(tx) !in was && Failed(tx) !in was
      requires disk.journal.Some? && Progress(disk.collections, was, tx, true, true, staged)
      modifies this`disk, this`seen, calls
      ensures calls.failed == old(calls.failed) && calls.failedUndo >= old(calls.failedUndo)
      ensures !ok ==> calls.failedUndo > old(calls.failedUndo)
      ensures !ok && Canonical in disk.collections ==> calls.failedUndo > old(calls.failedUndo) + 1
      ensures disk.journal == old(disk).journal
      ensures ok ==> disk.collections - {Failed(tx)} == was
      ensures forall d :: d in seen ==> d in old(seen) || d.journal.Some?
    {
      ok := RenameCollection(Canonical, Failed(tx), true);
      if !ok {
        ok := DeleteCollection(Canonical, true);
        if !ok {
          return;
        }
      }
      assert disk.collections - {Failed(tx)} == (was - {Canonical})[Backup(tx) := was[Canonical]];
      assert Canonical !in disk.collections - {Failed(tx)};
      NameGivenBack(disk.collections, was, Backup(tx), Failed(tx));
      ok := RenameCollection(Backup(tx), Canonical, true);
    }

    /** The `except` block: give the old corpus its name back. False only when a step of it raises; when none does,
        nothing of the attempt is left over. */
    method UndoSwap(tx: nat, targetRenamed: bool, switched: bool, ghost was: map<Name, Collection>,
                    ghost staged: Collection, target: nat)
      returns (ok: bool)
      requires disk.journal.Some? && Canonical in was && (switched ==> targetRenamed)
      requires Staging(tx) !in was && Backup(tx) !in was && Failed(tx) !in was
      requires Progress(disk.collections, was, tx, targetRenamed, switched, staged)
      requires was[Canonical].id == target && (switched || active == target)
      modifies this`disk, this`seen, this`active, calls
      ensures calls.failed == old(calls.failed) && calls.failedUndo >= old(calls.failedUndo)
      ensures !ok ==> calls.failedUndo > old(calls.failedUndo)
      ensures !ok && Canonical in disk.collections ==> calls.failedUndo > old(calls.failedUndo) + 1
      ensures calls.failedUndo == old(calls.failedUndo) ==> disk.collections == was
      ensures disk.journal == old(disk).journal
      ensures ok ==> disk.collections - {Staging(tx), Failed(tx)} == was && active == target
      ensures forall d :: d in seen ==> d in old(seen) || d.journal.Some?
    {
      if switched {
        ok := UndoSwitch(tx, was, staged);
        if !ok {
          return;
        }
        active := target;
        var suppressed := DeleteCollection(Failed(tx), true);
        assert disk.collections - {Failed(tx)} == was;
      } else if targetRenamed {
        assert Canonical !in disk.collections - {Staging(tx)};
        NameGivenBack(disk.collections, was, Backup(tx), Staging(tx));
        ok := RenameCollection(Backup(tx), Canonical, true);
        if !ok {
          return;
        }
        active := target;
      }
      var suppressed := DeleteCollection(Staging(tx), true);
      assert disk.collections - {Staging(tx), Failed(tx)} == was;
      ok := true;
    }

    /** Whenever it may have been opened since, the store was refused, or opened on the old corpus or on this one. */
    twostate predicate SafeThroughout(after: DenseIndex)
      requires Canonical in old(disk).collections
      reads this`seen
    {
      forall d :: d in seen ==> d in old(seen) || CrashSafe(d, old(disk).collections[Canonical].records, after)
    }

    /** Replace the whole corpus: all of it, or nothing, and at every moment a crash leaves a store
        that is refused or opens on one complete corpus. */
    method ReplaceAllAtomically(records: seq<(string, DenseRecord)>, tx: nat, stores: CoordinatedStores,
                                index: SparseIndex, key: RowKey, row: Row)
      returns (r: Outcome)
      requires Fresh() && Unused(tx) && stores.calls == calls
      modifies this, calls,
               stores`documents, stores`indexFile, stores`modelFile, stores`history, stores`sparseAttempted
      ensures calls.failed >= old(calls.failed) && calls.failedUndo >= old(calls.failedUndo)
      ensures r.Raised? && |RecordIndex(records)| == |records| == |index| ==> calls.failed > old(calls.failed)
      ensures r == Raised(false) ==> calls.failedUndo > old(calls.failedUndo)
      ensures r == Raised(false) && Canonical in disk.collections ==> calls.failedUndo > old(calls.failedUndo) + 1
      ensures r.Raised? && calls.failedUndo == old(calls.failedUndo) ==> disk.collections == old(disk).collections
      ensures r == Done && calls.failed == old(calls.failed) ==> Backup(tx) !in disk.collections
      ensures SafeThroughout(RecordIndex(records))
      ensures r == Done ==> Fresh() && disk.journal == None
      ensures var staged := Collection(old(nextId), RecordIndex(records));
              r == Done ==> disk.collections - {Backup(tx)} == old(disk).collections[Canonical := staged]
      ensures r == Done ==> disk.collections[Canonical].records == RecordIndex(records)
      ensures r == Raised(true) ==> Fresh() && (disk.journal == None || disk.journal == old(disk).journal)
      ensures r == Raised(true) ==> active == old(active)
      ensures r == Raised(true) ==> disk.collections - {Staging(tx), Failed(tx)} == old(disk).collections
      ensures r == Raised(false) ==> Open(disk) == Refused
      ensures !stores.sparseAttempted ==> !old(stores.sparseAttempted)
      ensures !stores.sparseAttempted ==> stores.documents == old(stores.documents)
      ensures !stores.sparseAttempted ==> stores.indexFile == old(stores.indexFile)
      ensures !stores.modelPrepared ==> stores.modelFile == old(stores.modelFile)
      ensures stores.history == old(stores.history) || stores.history == old(stores.history)[key := row]
      ensures r == Done ==> stores.documents == index && stores.indexFile == index
      ensures r == Done ==> |RecordIndex(records)| == |records| == |index|
      ensures r == Done && stores.modelPrepared && stores.preparedBackup.Some? ==> stores.modelFile == stores.model
      ensures r == Done ==> stores.history == old(stores.history)[key := row]
    {
      ghost var was := disk.collections;
      ghost var staged := Collection(nextId, RecordIndex(records));
      var target := active;
      var ok := WriteJournal(Preparing);
      if !ok {
        assert disk.collections - {Staging(tx), Failed(tx)} == was;
        return Raised(true);
      }
      var targetRenamed, switched;
      ok, targetRenamed, switched := TrySwap(records, tx, stores, index, key, row);
      if !ok {
        ok := UndoSwap(tx, targetRenamed, switched, was, staged, target);
        if !ok {
          return Raised(false);
        }
        NamesKept(disk.collections, was, {Staging(tx), Failed(tx)});
        UnlinkJournal();
        return Raised(true);
      }
      SwitchedNames(disk.collections, was, Backup(tx), staged);
      UnlinkJournal();
      var suppressed := DeleteCollection(Backup(tx), false);
      return Done;
    }

    static lemma NamesKept(cs: map<Name, Collection>, was: map<Name, Collection>, extra: set<Name>)
      requires Canonical in was && cs - extra == was
      ensures Canonical in cs && cs[Canonical] == was[Canonical]
    {
      assert Canonical in cs - extra && (cs - extra)[Canonical] == cs[Canonical];
    }

    static lemma SwitchedNames(cs: map<Name, Collection>, was: map<Name, Collection>, backup: Name, staged: Collection)
      requires Canonical in was && backup !in was && backup != Canonical
      requires cs == (was - {Canonical})[backup := was[Canonical]][Canonical := staged]
      ensures cs - {backup} == was[Canonical := staged] && (cs - {backup}) - {backup} == cs - {backup}
      ensures Canonical in cs && cs[Canonical] == staged && Canonical in cs - {backup}
    {
    }
  }
}
