/**
  The bounded retry-and-correction engine (`GenericErrorHandler.run`).

  The engine's own source is not part of this model; the integration tests
  fix its behaviour.  The operation never raises: it returns a value (the
  tests' operations turn exceptions into values), and the failure
  predicate alone decides whether that value is a failure.  Attempts are
  numbered from 1.  After a failing attempt the correction callback is
  called with the attempt number and the failing value; the trace of those
  calls is part of the result.  When `maxRetries` attempts have all failed
  the engine raises `RuntimeError`, which the model returns as `Exhausted`.

  The operation is a function of a state, so that its calls are counted
  and each attempt may see a different result.
 */
module Retry {

  /** One call of the correction callback. */
  datatype Correction<R> = Correction(attempt: nat, lastResult: R)

  /** How a run ends: with the first value that is no failure, or with the bound exhausted. */
  datatype RunResult<R, S> =
    | Succeeded(value: R, corrections: seq<Correction<R>>, state: S)
    | Exhausted(corrections: seq<Correction<R>>, state: S)

  /** The attempts from number `attempt` on. */
  function RunFrom<R, S>(op: S -> (R, S), isFailure: R -> bool, maxRetries: nat, attempt: nat, s: S): (r: RunResult<R, S>)
    requires 1 <= attempt <= maxRetries + 1
    ensures r.Succeeded? ==> |r.corrections| < maxRetries + 1 - attempt
    ensures r.Exhausted? ==> |r.corrections| == maxRetries + 1 - attempt
    ensures forall j :: 0 <= j < |r.corrections| ==> r.corrections[j].attempt == attempt + j
    decreases maxRetries + 1 - attempt
  {
    if attempt > maxRetries then Exhausted([], s)
    else
      var result, s1 := op(s).0, op(s).1;
      if !isFailure(result) then Succeeded(result, [], s1)
      else
        match RunFrom(op, isFailure, maxRetries, attempt + 1, s1)
        case Succeeded(v, cs, t) => Succeeded(v, [Correction(attempt, result)] + cs, t)
        case Exhausted(cs, t) => Exhausted([Correction(attempt, result)] + cs, t)
  }

  /** `run()`: attempts 1 to `maxRetries`.  The callback runs once per failing
      attempt, numbered 1, 2, ... in order, and at most `maxRetries` times;
      exhaustion means exactly `maxRetries` failing attempts. */
  function Run<R, S>(op: S -> (R, S), isFailure: R -> bool, maxRetries: nat, s: S): (r: RunResult<R, S>)
    ensures |r.corrections| <= maxRetries
    ensures r.Exhausted? <==> |r.corrections| == maxRetries
    ensures forall j :: 0 <= j < |r.corrections| ==> r.corrections[j].attempt == j + 1
  {
    RunFrom(op, isFailure, maxRetries, 1, s)
  }

  // ---------------------------------------------------------------------------
  // Reference reading: the operation's results call by call

  /** The operation's state after `k` calls. */
  function StateAfter<R, S>(op: S -> (R, S), s: S, k: nat): S
    decreases k
  {
    if k == 0 then s else op(StateAfter(op, s, k - 1)).1
  }

  /** The result of call number `k + 1`. */
  function ResultOf<R, S>(op: S -> (R, S), s: S, k: nat): R
  {
    op(StateAfter(op, s, k)).0
  }

  /** The number of operation calls a run made. */
  function Calls<R, S>(r: RunResult<R, S>): nat
  {
    match r
    case Succeeded(_, cs, _) => |cs| + 1
    case Exhausted(cs, _) => |cs|
  }

  /** Corrections `cs` record failing calls `first + 1`, `first + 2`, ... of `op` from `s`. */
  ghost predicate RecordsFailures<R, S>(op: S -> (R, S), isFailure: R -> bool, s: S, first: nat, cs: seq<Correction<R>>)
  {
    forall j :: 0 <= j < |cs| ==>
      && cs[j].lastResult == ResultOf(op, s, first + j)
      && isFailure(cs[j].lastResult)
  }

  /** A failing first attempt puts its correction in front of the later attempts' run. */
  lemma RunFromFailingStep<R, S>(op: S -> (R, S), isFailure: R -> bool, maxRetries: nat, attempt: nat, s: S)
    requires 1 <= attempt <= maxRetries && isFailure(op(s).0)
    ensures var r, rest := RunFrom(op, isFailure, maxRetries, attempt, s),
                           RunFrom(op, isFailure, maxRetries, attempt + 1, op(s).1);
      && r.corrections == [Correction(attempt, op(s).0)] + rest.corrections
      && r.Succeeded? == rest.Succeeded?
      && r.state == rest.state
      && (r.Succeeded? ==> r.value == rest.value)
  {
  }

  lemma {:induction false} RunFromRecordsFailures<R, S>(op: S -> (R, S), isFailure: R -> bool, maxRetries: nat,
                                                        attempt: nat, s: S)
    requires 1 <= attempt <= maxRetries + 1
    ensures RecordsFailures(op, isFailure, s, attempt - 1,
                            RunFrom(op, isFailure, maxRetries, attempt, StateAfter(op, s, attempt - 1)).corrections)
    decreases maxRetries + 1 - attempt
  {
    var s0 := StateAfter(op, s, attempt - 1);
    if attempt <= maxRetries && isFailure(op(s0).0) {
      RunFromRecordsFailures(op, isFailure, maxRetries, attempt + 1, s);
      RunFromFailingStep(op, isFailure, maxRetries, attempt, s0);
      var rest := RunFrom(op, isFailure, maxRetries, attempt + 1, StateAfter(op, s, attempt)).corrections;
      RecordsFailuresCons(op, isFailure, s, attempt - 1, Correction(attempt, op(s0).0), rest);
    }
  }

  lemma RecordsFailuresCons<R, S>(op: S -> (R, S), isFailure: R -> bool, s: S, first: nat,
                                  c: Correction<R>, rest: seq<Correction<R>>)
    requires c.lastResult == ResultOf(op, s, first) && isFailure(c.lastResult)
    requires RecordsFailures(op, isFailure, s, first + 1, rest)
    ensures RecordsFailures(op, isFailure, s, first, [c] + rest)
  {
    var cs := [c] + rest;
    forall j | 0 < j < |cs|
      ensures cs[j].lastResult == ResultOf(op, s, first + j) && isFailure(cs[j].lastResult)
    {
      assert cs[j] == rest[j - 1];
    }
  }

  lemma {:induction false} RunFromEnds<R, S>(op: S -> (R, S), isFailure: R -> bool, maxRetries: nat,
                                             attempt: nat, s: S)
    requires 1 <= attempt <= maxRetries + 1
    ensures var r := RunFrom(op, isFailure, maxRetries, attempt, StateAfter(op, s, attempt - 1));
      && (r.Succeeded? ==>
            && r.value == ResultOf(op, s, attempt - 1 + |r.corrections|)
            && !isFailure(r.value)
            && r.state == StateAfter(op, s, attempt + |r.corrections|))
      && (r.Exhausted? ==> r.state == StateAfter(op, s, maxRetries))
    decreases maxRetries + 1 - attempt
  {
    var s0 := StateAfter(op, s, attempt - 1);
    if attempt <= maxRetries && isFailure(op(s0).0) {
      RunFromEnds(op, isFailure, maxRetries, attempt + 1, s);
      RunFromFailingStep(op, isFailure, maxRetries, attempt, s0);
    }
  }

  /** The run is the operation's calls in order: every correction records a
      failing call, a success is the result of the next call, and the final
      state is the state after exactly `Calls(r)` calls, never more than
      `maxRetries`. */
  lemma RunFollowsCalls<R, S>(op: S -> (R, S), isFailure: R -> bool, maxRetries: nat, s: S)
    ensures var r := Run(op, isFailure, maxRetries, s);
      && RecordsFailures(op, isFailure, s, 0, r.corrections)
      && Calls(r) <= maxRetries
      && r.state == StateAfter(op, s, Calls(r))
      && (r.Succeeded? ==> r.value == ResultOf(op, s, |r.corrections|) && !isFailure(r.value))
  {
    RunFromRecordsFailures(op, isFailure, maxRetries, 1, s);
    RunFromEnds(op, isFailure, maxRetries, 1, s);
  }

  /** The run succeeds exactly when one of the first `maxRetries` calls returns
      no failure, and then it returns the first such result. */
  lemma SucceedsIff<R, S>(op: S -> (R, S), isFailure: R -> bool, maxRetries: nat, s: S)
    ensures Run(op, isFailure, maxRetries, s).Succeeded? <==>
      exists k :: 0 <= k < maxRetries && !isFailure(ResultOf(op, s, k))
    ensures Run(op, isFailure, maxRetries, s).Succeeded? ==>
      var k := |Run(op, isFailure, maxRetries, s).corrections|;
      && Run(op, isFailure, maxRetries, s).value == ResultOf(op, s, k)
      && forall j :: 0 <= j < k ==> isFailure(ResultOf(op, s, j))
  {
    var r := Run(op, isFailure, maxRetries, s);
    RunFollowsCalls(op, isFailure, maxRetries, s);
    if r.Exhausted? {
      forall k | 0 <= k < maxRetries
        ensures isFailure(ResultOf(op, s, k))
      {
        assert r.corrections[k].lastResult == ResultOf(op, s, k);
      }
    } else {
      forall j | 0 <= j < |r.corrections|
        ensures isFailure(ResultOf(op, s, j))
      {
        assert r.corrections[j].lastResult == ResultOf(op, s, j);
      }
    }
  }
}
