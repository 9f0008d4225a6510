/**
 * The scenario's time-checkpoint registry: named instants that may be set
 * once, and the background operations started at checkpoints with the
 * number still awaited. Instants are integers (nanoseconds); the clock read
 * on an error path is the parameter `now`. The lock is left out: every
 * method here runs as one atomic step.
 */
module CheckpointState {
  import opened Wrappers
  import FxValues

  /** Why a checkpoint operation failed. */
  datatype CheckpointError =
    | InvalidExpression(expr: string)
    | InvalidOffset(expr: string, offset: string)
    | UnknownCheckpoint(name: string)
    | AlreadyRegistered(name: string)
    | DuplicateOperation(key: string)
    | OperationNotFound(key: string)

  datatype BackgroundOperation = BackgroundOperation(
    baseKey: string,
    checkpoint: string,
    registeredAt: int,
    startedAt: Option<int>,
    completedAt: Option<int>,
    completionError: Option<string>)

  /** The compound key "<checkpoint>_<baseKey>". */
  function GetKey(o: BackgroundOperation): string {
    o.checkpoint + "_" + o.baseKey
  }

  /** What a completion report led to. */
  datatype CompletionOutcome =
    | Completed
    | NotFound
    /** `WaitGroup.Done` on a zero counter panics, after the entry was replaced. */
    | NegativeCounterPanic

  class TimeCheckpointState {
    var isInit: bool
    var checkpoints: map<string, int>
    var backgroundOperations: map<string, BackgroundOperation>
    var backgroundErrors: seq<string>
    /** The `WaitGroup` counter: operations registered minus completions reported. */
    var pending: int

    /** Every operation is filed under its own key, and the wait counter is never negative. */
    predicate Valid()
      reads this
    {
      (forall k :: k in backgroundOperations ==> GetKey(backgroundOperations[k]) == k) &&
      pending >= 0
    }

    constructor ()
      ensures Valid()
      ensures isInit && checkpoints == map[] && backgroundOperations == map[]
      ensures backgroundErrors == [] && pending == 0
    {
      isInit := true;
      checkpoints := map[];
      backgroundOperations := map[];
      backgroundErrors := [];
      pending := 0;
    }

    /** A checkpoint is set once: a second registration fails and keeps the first instant. */
    method RegisterCheckpoint(checkpoint: string, t: int) returns (err: Option<CheckpointError>)
      modifies this
      ensures checkpoint in old(checkpoints) ==>
        err == Some(AlreadyRegistered(checkpoint)) && checkpoints == old(checkpoints)
      ensures checkpoint !in old(checkpoints) ==>
        err.None? && checkpoints == old(checkpoints)[checkpoint := t]
      ensures backgroundOperations == old(backgroundOperations) && backgroundErrors == old(backgroundErrors)
      ensures pending == old(pending) && isInit == old(isInit)
    {
      if checkpoint in checkpoints {
        return Some(AlreadyRegistered(checkpoint));
      }
      checkpoints := checkpoints[checkpoint := t];
      return None;
    }

    /** The registered instant, or an error and the current time for an unknown name. */
    method GetCheckpointValue(checkpoint: string, now: int) returns (t: int, err: Option<CheckpointError>)
      ensures checkpoint in checkpoints ==> err.None? && t == checkpoints[checkpoint]
      ensures checkpoint !in checkpoints ==> err == Some(UnknownCheckpoint(checkpoint)) && t == now
    {
      if checkpoint in checkpoints {
        return checkpoints[checkpoint], None;
      }
      return now, Some(UnknownCheckpoint(checkpoint));
    }

    /** Files a new operation and counts it as awaited; a key already in use is refused. */
    method RegisterBackgroundOperation(operation: BackgroundOperation) returns (err: Option<CheckpointError>)
      requires Valid()
      modifies this
      ensures Valid()
      ensures GetKey(operation) in old(backgroundOperations) ==>
        err == Some(DuplicateOperation(GetKey(operation))) &&
        backgroundOperations == old(backgroundOperations) && pending == old(pending)
      ensures GetKey(operation) !in old(backgroundOperations) ==>
        err.None? &&
        backgroundOperations == old(backgroundOperations)[GetKey(operation) := operation] &&
        pending == old(pending) + 1
      ensures checkpoints == old(checkpoints) && backgroundErrors == old(backgroundErrors) && isInit == old(isInit)
    {
      var key := GetKey(operation);
      if key in backgroundOperations {
        return Some(DuplicateOperation(key));
      }
      pending := pending + 1;
      backgroundOperations := backgroundOperations[key := operation];
      return None;
    }

    /**
     * Replaces a known operation by its completed form and counts one
     * completion. An unknown key is refused; a completion with nothing
     * awaited panics.
     */
    method RegisterBackgroundOperationComplete(operation: BackgroundOperation)
      returns (outcome: CompletionOutcome, err: Option<CheckpointError>)
      requires Valid()
      modifies this
      ensures Valid()
      ensures GetKey(operation) !in old(backgroundOperations) ==>
        outcome == NotFound && err == Some(OperationNotFound(GetKey(operation))) &&
        backgroundOperations == old(backgroundOperations) && pending == old(pending)
      ensures GetKey(operation) in old(backgroundOperations) ==>
        err.None? &&
        backgroundOperations == old(backgroundOperations)[GetKey(operation) := operation] &&
        (old(pending) > 0 ==> outcome == Completed && pending == old(pending) - 1) &&
        (old(pending) == 0 ==> outcome == NegativeCounterPanic && pending == 0)
      ensures checkpoints == old(checkpoints) && backgroundErrors == old(backgroundErrors) && isInit == old(isInit)
    {
      var key := GetKey(operation);
      if key !in backgroundOperations {
        return NotFound, Some(OperationNotFound(key));
      }
      backgroundOperations := backgroundOperations[key := operation];
      if pending == 0 {
        return NegativeCounterPanic, None;
      }
      pending := pending - 1;
      return Completed, None;
    }

    /**
     * A snapshot of the operations, rebuilt from their values keyed by
     * their own keys; it equals the registry because every operation is
     * filed under its own key.
     */
    method GetBackgroundOperations() returns (snapshot: map<string, BackgroundOperation>)
      requires Valid()
      ensures snapshot == backgroundOperations
    {
      var v, order := FxValues.Values(backgroundOperations);
      snapshot := map[];
      var i := 0;
      while i < |v|
        invariant 0 <= i <= |v|
        invariant forall k :: k in snapshot <==> k in order[..i]
        invariant forall k :: k in snapshot ==> k in backgroundOperations && snapshot[k] == backgroundOperations[k]
      {
        assert v[i] == backgroundOperations[order[i]];
        assert GetKey(v[i]) == order[i];
        snapshot := snapshot[GetKey(v[i]) := v[i]];
        assert order[..i + 1] == order[..i] + [order[i]];
        i := i + 1;
      }
      assert order[..i] == order;
    }

    method ReportBackgroundError(err: string)
      modifies this
      ensures backgroundErrors == old(backgroundErrors) + [err]
      ensures checkpoints == old(checkpoints) && backgroundOperations == old(backgroundOperations)
      ensures pending == old(pending) && isInit == old(isInit)
    {
      backgroundErrors := backgroundErrors + [err];
    }

    method GetBackgroundErrors() returns (errs: seq<string>)
      ensures errs == backgroundErrors
    {
      return backgroundErrors;
    }
  }
}
