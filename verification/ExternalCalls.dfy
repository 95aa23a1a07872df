/** Calls into the outside world: the file system, Chroma, SQLite, a model. Any of them may fail, and then has no
    effect; a ledger counts the ones that did. */
module ExternalCalls {

  class Calls {
    /** How many calls of the work itself have failed, and how many of the calls that undo it. */
    ghost var failed: nat
    ghost var failedUndo: nat

    constructor ()
      ensures failed == 0 && failedUndo == 0
    {
      failed, failedUndo := 0, 0;
    }

    ghost function Failures(undo: bool): nat
      reads this
    {
      if undo then failedUndo else failed
    }

    /** One call of either kind; false where the source sees an exception. */
    method Try(undo: bool) returns (ok: bool)
      modifies this
      ensures Failures(undo) == old(Failures(undo)) + if ok then 0 else 1
      ensures Failures(!undo) == old(Failures(!undo))
    {
      ok := *;
      if !ok {
        failed, failedUndo := failed + if undo then 0 else 1, failedUndo + if undo then 1 else 0;
      }
    }

    /** One call of the work itself. */
    method Forward() returns (ok: bool)
      modifies this`failed
      ensures failed == old(failed) + if ok then 0 else 1
    {
      ok := *;
      failed := failed + if ok then 0 else 1;
    }

    /** One call of what undoes the work. */
    method Backward() returns (ok: bool)
      modifies this`failedUndo
      ensures failedUndo == old(failedUndo) + if ok then 0 else 1
    {
      ok := *;
      failedUndo := failedUndo + if ok then 0 else 1;
    }
  }
}
