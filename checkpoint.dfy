/**
 * Time-checkpoint expressions "base>offset" and "base>offset>out": the
 * instant of checkpoint `base` moved by the duration `offset`, registered
 * under `out` when a third part is given. Go's `time.ParseDuration` is the
 * parameter `parseDuration` (nanoseconds), the clock read on an error path
 * the parameter `now`.
 */
module Checkpoint {
  import opened Wrappers
  import opened Strings
  import opened CheckpointState

  datatype Expression = Expression(base: string, offset: string, out: string)

  /** The parts of an expression: two or three pieces between '>' separators, `out` empty for two. */
  function ParseExpression(expr: string): (r: Option<Expression>)
    ensures r.Some? <==> 2 <= |Split(expr, '>')| <= 3
    ensures r.Some? ==> '>' !in r.value.base && '>' !in r.value.offset && '>' !in r.value.out
    ensures r.Some? && r.value.out != "" ==> expr == r.value.base + ">" + r.value.offset + ">" + r.value.out
  {
    var parts := Split(expr, '>');
    if |parts| < 2 || |parts| > 3 then None
    else
      JoinSplit(expr, '>');
      if |parts| == 3 then
        assert parts[1..][1..] == [parts[2]];
        assert Join(parts[1..], '>') == parts[1] + ['>'] + parts[2];
        assert Join(parts, '>') == parts[0] + ['>'] + (parts[1] + ['>'] + parts[2]);
        Some(Expression(parts[0], parts[1], parts[2]))
      else Some(Expression(parts[0], parts[1], ""))
  }

  /** Writing the parts with '>' between them and parsing again gives them back. */
  lemma ParseFormatted(base: string, offset: string, out: string)
    requires '>' !in base && '>' !in offset && '>' !in out
    ensures out != "" ==> ParseExpression(base + ">" + offset + ">" + out) == Some(Expression(base, offset, out))
    ensures ParseExpression(base + ">" + offset) == Some(Expression(base, offset, ""))
  {
    var three := [base, offset, out];
    assert three[1..][1..] == [out];
    assert Join(three[1..], '>') == offset + ['>'] + out;
    assert Join(three, '>') == base + ['>'] + (offset + ['>'] + out);
    assert Join(three, '>') == base + ">" + offset + ">" + out;
    SplitJoin(three, '>');
    var two := [base, offset];
    assert Join(two, '>') == base + ">" + offset;
    SplitJoin(two, '>');
  }

  /** The result of evaluating: the instant, the error if any, and the checkpoints afterwards. */
  datatype Evaluation = Evaluation(t: int, err: Option<CheckpointError>, checkpoints: map<string, int>)

  /**
   * What `EvaluateCheckpoint` computes. On success the instant is the base
   * checkpoint's plus the offset and, with a non-empty output name, it is
   * registered under that name; a malformed expression, an offset that does
   * not parse, an unknown base or an output name already set is an error,
   * and only a failed registration still reports the computed instant.
   */
  function Evaluate(checkpoints: map<string, int>, expr: string, parseDuration: string -> Option<int>, now: int): (r: Evaluation)
    ensures ParseExpression(expr).None? ==> r == Evaluation(now, Some(InvalidExpression(expr)), checkpoints)
    ensures r.err.None? ==>
      var e := ParseExpression(expr).value;
      e.base in checkpoints && parseDuration(e.offset).Some? &&
      r.t == checkpoints[e.base] + parseDuration(e.offset).value &&
      (e.out == "" ==> r.checkpoints == checkpoints) &&
      (e.out != "" ==> e.out !in checkpoints && r.checkpoints == checkpoints[e.out := r.t])
    ensures ParseExpression(expr).Some? ==>
      var e := ParseExpression(expr).value;
      (r.err.None? <==> parseDuration(e.offset).Some? && e.base in checkpoints && (e.out == "" || e.out !in checkpoints))
    ensures ParseExpression(expr).Some? ==>
      var e := ParseExpression(expr).value;
      (parseDuration(e.offset).None? ==> r.t == now && r.err == Some(InvalidOffset(expr, e.offset))) &&
      (parseDuration(e.offset).Some? && e.base !in checkpoints ==> r.t == now && r.err == Some(UnknownCheckpoint(e.base))) &&
      (parseDuration(e.offset).Some? && e.base in checkpoints && e.out != "" && e.out in checkpoints ==>
        r.t == checkpoints[e.base] + parseDuration(e.offset).value && r.err == Some(AlreadyRegistered(e.out)))
    ensures r.err.Some? ==> r.checkpoints == checkpoints
    ensures r.checkpoints.Keys >= checkpoints.Keys
    ensures forall k :: k in checkpoints ==> r.checkpoints[k] == checkpoints[k]
  {
    match ParseExpression(expr)
    case None => Evaluation(now, Some(InvalidExpression(expr)), checkpoints)
    case Some(e) =>
      match parseDuration(e.offset)
      case None => Evaluation(now, Some(InvalidOffset(expr, e.offset)), checkpoints)
      case Some(offset) =>
        if e.base !in checkpoints then Evaluation(now, Some(UnknownCheckpoint(e.base)), checkpoints)
        else
          var outT := checkpoints[e.base] + offset;
          if e.out == "" then Evaluation(outT, None, checkpoints)
          else if e.out in checkpoints then Evaluation(outT, Some(AlreadyRegistered(e.out)), checkpoints)
          else Evaluation(outT, None, checkpoints[e.out := outT])
  }

  /** An expression with an output name can be evaluated successfully at most once. */
  lemma EvaluateTwiceFails(checkpoints: map<string, int>, expr: string, parseDuration: string -> Option<int>, now: int)
    requires var first := Evaluate(checkpoints, expr, parseDuration, now);
      first.err.None? && ParseExpression(expr).value.out != ""
    ensures var first := Evaluate(checkpoints, expr, parseDuration, now);
      Evaluate(first.checkpoints, expr, parseDuration, now) ==
        Evaluation(first.t, Some(AlreadyRegistered(ParseExpression(expr).value.out)), first.checkpoints)
  {
  }

  /** `EvaluateCheckpoint`: parse, look up the base, add the offset and register the output. */
  method EvaluateCheckpoint(s: TimeCheckpointState, expr: string, parseDuration: string -> Option<int>, now: int)
    returns (t: int, err: Option<CheckpointError>)
    modifies s
    ensures Evaluation(t, err, s.checkpoints) == Evaluate(old(s.checkpoints), expr, parseDuration, now)
    ensures s.backgroundOperations == old(s.backgroundOperations) && s.backgroundErrors == old(s.backgroundErrors)
    ensures s.pending == old(s.pending) && s.isInit == old(s.isInit)
  {
    var parts := Split(expr, '>');
    if |parts| < 2 || |parts| > 3 {
      return now, Some(InvalidExpression(expr));
    }
    var baseCheckpoint := parts[0];
    var offsetStr := parts[1];
    var outCheckpoint := "";
    if |parts| == 3 {
      outCheckpoint := parts[2];
    }
    assert ParseExpression(expr) == Some(Expression(baseCheckpoint, offsetStr, outCheckpoint));
    var offset := parseDuration(offsetStr);
    if offset.None? {
      return now, Some(InvalidOffset(expr, offsetStr));
    }
    var baseT, getErr := s.GetCheckpointValue(baseCheckpoint, now);
    if getErr.Some? {
      return now, getErr;
    }
    var outT := baseT + offset.value;
    if outCheckpoint != "" {
      err := s.RegisterCheckpoint(outCheckpoint, outT);
      if err.Some? {
        return outT, err;
      }
    }
    return outT, None;
  }

  /** `EvaluateOptionalCheckpoint`: the empty expression is no checkpoint and no error. */
  method EvaluateOptionalCheckpoint(s: TimeCheckpointState, expr: string, parseDuration: string -> Option<int>, now: int)
    returns (t: Option<int>, err: Option<CheckpointError>)
    modifies s
    ensures expr == "" ==> t.None? && err.None? && s.checkpoints == old(s.checkpoints)
    ensures expr != "" ==>
      t.Some? && Evaluation(t.value, err, s.checkpoints) == Evaluate(old(s.checkpoints), expr, parseDuration, now)
    ensures s.backgroundOperations == old(s.backgroundOperations) && s.backgroundErrors == old(s.backgroundErrors)
    ensures s.pending == old(s.pending) && s.isInit == old(s.isInit)
  {
    if expr == "" {
      return None, None;
    }
    var v;
    v, err := EvaluateCheckpoint(s, expr, parseDuration, now);
    return Some(v), err;
  }
}
