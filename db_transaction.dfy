/**
 * The database handler's transaction state: at most one transaction is
 * open at a time; begin, commit and rollback open and close it, and the
 * wrapping helpers run a callback inside a transaction. The driver's
 * answers (whether beginning, committing or rolling back fails) and the
 * callback's own error are parameters. The history of transaction events
 * and the transaction each callback ran in are recorded as fields.
 */
module DbTransaction {
  import opened Wrappers

  /** What the database sees of the transaction life cycle. */
  datatype TxEvent = Begun(id: nat) | Committed(id: nat) | RolledBack(id: nat)

  datatype DbError =
    | NoActiveTransaction
    | AlreadyActive
    | BeginFailed(cause: string)
    | CommitFailed(cause: string)
    /** A failed rollback keeps the error that caused it as its inner error. */
    | RollbackFailed(cause: string, initial: DbError)
    | CallbackFailed(message: string)
    /** An error passed out of `WrapInTx` with its context added. */
    | WrapInTxFailed(inner: DbError)

  /**
   * A history in which transactions are numbered in order, each begun then
   * closed by one commit or rollback before the next one begins.
   */
  ghost predicate WellFormed(history: seq<TxEvent>) {
    forall i :: 0 <= i < |history| ==> history[i].id == i / 2 && (history[i].Begun? <==> i % 2 == 0)
  }

  /** The transaction left open by a history: the last one, if it was begun and not closed. */
  function OpenTx(history: seq<TxEvent>): Option<nat> {
    if |history| % 2 == 1 then Some(|history| / 2) else None
  }

  class HandlerDB {
    var tx: Option<nat>
    var history: seq<TxEvent>
    /** For each callback run, the transaction it ran in. */
    var runs: seq<Option<nat>>

    ghost predicate Valid()
      reads this
    {
      WellFormed(history) && tx == OpenTx(history)
    }

    constructor ()
      ensures Valid() && tx.None? && history == [] && runs == []
    {
      tx := None;
      history := [];
      runs := [];
    }

    /** Opens a transaction unless one is already open or the driver refuses. */
    method BeginTx(driverErr: Option<string>) returns (started: Option<nat>, err: Option<DbError>)
      requires Valid()
      modifies this
      ensures Valid() && runs == old(runs)
      ensures old(tx).Some? ==> err == Some(AlreadyActive) && started.None? && history == old(history)
      ensures old(tx).None? && driverErr.Some? ==>
        err == Some(BeginFailed(driverErr.value)) && started.None? && history == old(history)
      ensures old(tx).None? && driverErr.None? ==>
        err.None? && started.Some? && tx == started && history == old(history) + [Begun(started.value)]
    {
      if tx.Some? {
        return None, Some(AlreadyActive);
      }
      if driverErr.Some? {
        return None, Some(BeginFailed(driverErr.value));
      }
      var id := |history| / 2;
      history := history + [Begun(id)];
      tx := Some(id);
      return tx, None;
    }

    /** Commits and forgets the open transaction, even when the commit fails. */
    method CommitIfTxOrErr(driverErr: Option<string>) returns (err: Option<DbError>)
      requires Valid()
      modifies this
      ensures Valid() && tx.None? && runs == old(runs)
      ensures old(tx).None? ==> err == Some(NoActiveTransaction) && history == old(history)
      ensures old(tx).Some? ==>
        history == old(history) + [Committed(old(tx).value)] &&
        err == (if driverErr.Some? then Some(CommitFailed(driverErr.value)) else None)
    {
      if tx.Some? {
        history := history + [Committed(tx.value)];
        tx := None;
        if driverErr.Some? {
          return Some(CommitFailed(driverErr.value));
        }
        return None;
      }
      return Some(NoActiveTransaction);
    }

    /** Rolls back and forgets the open transaction, passing on the error that caused it. */
    method RollbackIfTxOrErr(initialError: DbError, driverErr: Option<string>) returns (err: DbError)
      requires Valid()
      modifies this
      ensures Valid() && tx.None? && runs == old(runs)
      ensures old(tx).None? ==> err == NoActiveTransaction && history == old(history)
      ensures old(tx).Some? ==>
        history == old(history) + [RolledBack(old(tx).value)] &&
        err == (if driverErr.Some? then RollbackFailed(driverErr.value, initialError) else initialError)
    {
      if tx.Some? {
        history := history + [RolledBack(tx.value)];
        tx := None;
        if driverErr.Some? {
          return RollbackFailed(driverErr.value, initialError);
        }
        return initialError;
      }
      return NoActiveTransaction;
    }

    /** Runs the callback in whatever transaction is open; its own error is `fErr`. */
    method RunCallback(fErr: Option<string>) returns (err: Option<DbError>)
      modifies this
      ensures runs == old(runs) + [tx] && tx == old(tx) && history == old(history)
      ensures err == (if fErr.Some? then Some(CallbackFailed(fErr.value)) else None)
    {
      runs := runs + [tx];
      if fErr.Some? {
        return Some(CallbackFailed(fErr.value));
      }
      return None;
    }

    /**
     * `WrapInTx`: begin, run the callback, then roll back on its error or
     * commit. Whenever the transaction was begun here it is closed again on
     * return, and the callback ran inside it.
     */
    method WrapInTx(fErr: Option<string>, beginErr: Option<string>, commitErr: Option<string>, rollbackErr: Option<string>)
      returns (err: Option<DbError>)
      requires Valid()
      modifies this
      ensures Valid()
      ensures old(tx).Some? ==>
        err == Some(WrapInTxFailed(AlreadyActive)) && tx == old(tx) && history == old(history) && runs == old(runs)
      ensures old(tx).None? && beginErr.Some? ==>
        err == Some(WrapInTxFailed(BeginFailed(beginErr.value))) && tx.None? && history == old(history) && runs == old(runs)
      ensures old(tx).None? && beginErr.None? ==>
        var id := |old(history)| / 2;
        tx.None? && runs == old(runs) + [Some(id)] &&
        (fErr.Some? ==>
          history == old(history) + [Begun(id), RolledBack(id)] &&
          err == Some(WrapInTxFailed(
            if rollbackErr.Some? then RollbackFailed(rollbackErr.value, CallbackFailed(fErr.value))
            else CallbackFailed(fErr.value)))) &&
        (fErr.None? ==>
          history == old(history) + [Begun(id), Committed(id)] &&
          err == (if commitErr.Some? then Some(WrapInTxFailed(CommitFailed(commitErr.value))) else None))
      ensures err.None? <==> old(tx).None? && beginErr.None? && fErr.None? && commitErr.None?
    {
      var started, beginFailure := BeginTx(beginErr);
      if beginFailure.Some? {
        return Some(WrapInTxFailed(beginFailure.value));
      }
      var callbackErr := RunCallback(fErr);
      if callbackErr.Some? {
        var rollbackResult := RollbackIfTxOrErr(callbackErr.value, rollbackErr);
        return Some(WrapInTxFailed(rollbackResult));
      }
      var commitFailure := CommitIfTxOrErr(commitErr);
      if commitFailure.Some? {
        return Some(WrapInTxFailed(commitFailure.value));
      }
      return None;
    }

    /**
     * `useExistingTxOrWrap`: with a transaction open the callback runs in
     * it and nothing else happens; otherwise it is wrapped in a new one.
     * Either way the callback never runs outside a transaction.
     */
    method UseExistingTxOrWrap(fErr: Option<string>, beginErr: Option<string>, commitErr: Option<string>, rollbackErr: Option<string>)
      returns (err: Option<DbError>)
      requires Valid()
      modifies this
      ensures Valid()
      ensures old(tx).Some? ==>
        tx == old(tx) && history == old(history) && runs == old(runs) + [old(tx)] &&
        err == (if fErr.Some? then Some(CallbackFailed(fErr.value)) else None)
      ensures old(tx).None? ==> tx.None?
      ensures old(tx).None? && beginErr.Some? ==>
        err == Some(WrapInTxFailed(BeginFailed(beginErr.value))) && history == old(history) && runs == old(runs)
      ensures old(tx).None? && beginErr.None? ==>
        var id := |old(history)| / 2;
        runs == old(runs) + [Some(id)] &&
        (fErr.Some? ==>
          history == old(history) + [Begun(id), RolledBack(id)] &&
          err == Some(WrapInTxFailed(
            if rollbackErr.Some? then RollbackFailed(rollbackErr.value, CallbackFailed(fErr.value))
            else CallbackFailed(fErr.value)))) &&
        (fErr.None? ==>
          history == old(history) + [Begun(id), Committed(id)] &&
          err == (if commitErr.Some? then Some(WrapInTxFailed(CommitFailed(commitErr.value))) else None))
      ensures old(tx).None? ==> (err.None? <==> beginErr.None? && fErr.None? && commitErr.None?)
      ensures runs == old(runs) || (|runs| == |old(runs)| + 1 && runs[..|old(runs)|] == old(runs) && runs[|old(runs)|].Some?)
    {
      if tx.None? {
        err := WrapInTx(fErr, beginErr, commitErr, rollbackErr);
        return;
      }
      err := RunCallback(fErr);
    }
  }
}
