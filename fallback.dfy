/**
 * The two "first success wins" shapes scraper.py is built from.
 *
 * - `FirstHit`: a `for x in xs:` loop that returns on the first element yielding a value,
 *   goes on past elements yielding nothing, and ends with nothing when an exception
 *   escapes into the handler around the loop.
 * - `FirstSuccess`: the ordered strategy chain of `get_price`, where each strategy may also
 *   change the state (the page) the next one sees, with the trace of strategies invoked.
 */
module Fallback {
  import opened Optional

  /** What one element of a scanned list yields. */
  datatype Step<+V> = Found(value: V) | Skip | Abort

  /**
   * The value of the first element, in list order, that does not `Skip`: nothing when every
   * element skips or when that first element aborts.
   */
  function FirstHit<T, V>(xs: seq<T>, step: T -> Step<V>): (r: Option<V>)
    ensures r.Some? ==>
      exists i :: 0 <= i < |xs| && step(xs[i]) == Found(r.value) && forall j :: 0 <= j < i ==> step(xs[j]).Skip?
    ensures r.None? ==>
      || (forall i :: 0 <= i < |xs| ==> step(xs[i]).Skip?)
      || (exists i :: 0 <= i < |xs| && step(xs[i]).Abort? && forall j :: 0 <= j < i ==> step(xs[j]).Skip?)
  {
    if xs == [] then None
    else
      match step(xs[0])
      case Found(v) => Some(v)
      case Abort => None
      case Skip =>
        var r := FirstHit(xs[1..], step);
        assert forall i :: 1 <= i < |xs| ==> xs[1..][i - 1] == xs[i];
        r
  }

  /** Every value a scan can yield satisfies `ok` when every element's value does. */
  lemma {:induction false} FirstHitKeeps<T, V>(xs: seq<T>, step: T -> Step<V>, ok: V -> bool)
    requires forall i :: 0 <= i < |xs| && step(xs[i]).Found? ==> ok(step(xs[i]).value)
    ensures FirstHit(xs, step).Some? ==> ok(FirstHit(xs, step).value)
  {
  }

  /**
   * The scan is decided by its first element that does not skip: its value when it is found,
   * nothing when it aborts.
   */
  lemma FirstHitAt<T, V>(xs: seq<T>, step: T -> Step<V>, i: nat)
    requires i < |xs| && !step(xs[i]).Skip?
    requires forall j :: 0 <= j < i ==> step(xs[j]).Skip?
    ensures FirstHit(xs, step) == if step(xs[i]).Found? then Some(step(xs[i]).value) else None
  {
    var r := FirstHit(xs, step);
    if r.Some? {
      var k :| 0 <= k < |xs| && step(xs[k]) == Found(r.value) && forall j :: 0 <= j < k ==> step(xs[j]).Skip?;
      assert k == i;
    } else if !forall j :: 0 <= j < |xs| ==> step(xs[j]).Skip? {
      var k :| 0 <= k < |xs| && step(xs[k]).Abort? && forall j :: 0 <= j < k ==> step(xs[j]).Skip?;
      assert k == i;
    }
  }

  /** The `for x in xs:` loop that `FirstHit` specifies, returning from inside the loop. */
  method Scan<T, V>(xs: seq<T>, step: T -> Step<V>) returns (r: Option<V>)
    ensures r == FirstHit(xs, step)
  {
    var i := 0;
    while i < |xs|
      invariant i <= |xs|
      invariant forall j :: 0 <= j < i ==> step(xs[j]).Skip?
    {
      var outcome := step(xs[i]);
      if !outcome.Skip? {
        FirstHitAt(xs, step, i);
        return if outcome.Found? then Some(outcome.value) else None;
      }
      i := i + 1;
    }
    return None;
  }

  /** One invocation of a strategy and what it returned. */
  datatype Attempt<S, V> = Attempt(strategy: S, outcome: Option<V>)

  /** The outcome of a chain: its value, the state it leaves and the strategies it invoked. */
  datatype Run<S, P, V> = Run(result: Option<V>, state: P, attempts: seq<Attempt<S, V>>)

  /**
   * `for method in methods: result = method(); if result: return result`, where applying a
   * strategy to a state gives its outcome and the state after it.
   */
  function FirstSuccess<S, P, V>(strategies: seq<S>, apply: (S, P) -> (Option<V>, P), state: P): (run: Run<S, P, V>)
    ensures |run.attempts| <= |strategies|
    ensures strategies != [] ==> run.attempts != []
    decreases |strategies|
  {
    if strategies == [] then Run(None, state, [])
    else
      var (outcome, next) := apply(strategies[0], state);
      if outcome.Some? then Run(outcome, next, [Attempt(strategies[0], outcome)])
      else
        var rest := FirstSuccess(strategies[1..], apply, next);
        Run(rest.result, rest.state, [Attempt(strategies[0], outcome)] + rest.attempts)
  }

  /**
   * The trace of a chain: the strategies were invoked in list order; every attempt but the
   * last returned nothing; a value is the last attempt's; no value means that every strategy
   * was invoked and none returned one.
   */
  ghost predicate ChainTrace<S, P, V>(strategies: seq<S>, run: Run<S, P, V>) {
    && |run.attempts| <= |strategies|
    && (forall k :: 0 <= k < |run.attempts| ==> run.attempts[k].strategy == strategies[k])
    && (forall k :: 0 <= k < |run.attempts| - 1 ==> run.attempts[k].outcome.None?)
    && (run.result.Some? ==> run.attempts != [] && run.attempts[|run.attempts| - 1].outcome == run.result)
    && (run.result.None? ==> |run.attempts| == |strategies| && forall k :: 0 <= k < |run.attempts| ==> run.attempts[k].outcome.None?)
  }

  /** Every chain leaves such a trace. */
  lemma {:induction false} FirstSuccessTrace<S, P, V>(strategies: seq<S>, apply: (S, P) -> (Option<V>, P), state: P)
    ensures ChainTrace(strategies, FirstSuccess(strategies, apply, state))
    decreases |strategies|
  {
    if strategies != [] {
      var (outcome, next) := apply(strategies[0], state);
      if outcome.None? {
        var rest := FirstSuccess(strategies[1..], apply, next);
        FirstSuccessTrace(strategies[1..], apply, next);
        var a := [Attempt(strategies[0], outcome)] + rest.attempts;
        assert forall k :: 1 <= k < |a| ==> a[k] == rest.attempts[k - 1];
      }
    }
  }

  /**
   * One turn of the loop that runs a chain: when the first `i` strategies have returned
   * nothing (the attempts `done`), leaving `state`, the `whole` run either ends with the
   * `i`-th strategy or is left to the rest.
   */
  lemma FirstSuccessStep<S, P, V>(strategies: seq<S>, apply: (S, P) -> (Option<V>, P), whole: Run<S, P, V>,
                                  done: seq<Attempt<S, V>>, i: nat, state: P)
    requires i < |strategies|
    requires var rest := FirstSuccess(strategies[i..], apply, state);
      whole == Run(rest.result, rest.state, done + rest.attempts)
    ensures var (outcome, next) := apply(strategies[i], state);
      var now := done + [Attempt(strategies[i], outcome)];
      var rest := FirstSuccess(strategies[i + 1..], apply, next);
      whole == if outcome.Some? then Run(outcome, next, now) else Run(rest.result, rest.state, now + rest.attempts)
  {
    var tail := strategies[i..];
    assert tail[0] == strategies[i] && tail[1..] == strategies[i + 1..];
    var (outcome, next) := apply(strategies[i], state);
    var rest := FirstSuccess(strategies[i + 1..], apply, next);
    var a := Attempt(strategies[i], outcome);
    FirstSuccessHead(tail, apply, state);
    if outcome.None? {
      assert done + ([a] + rest.attempts) == done + [a] + rest.attempts;
    }
  }

  /** A chain begins by invoking its first strategy. */
  lemma FirstSuccessHead<S, P, V>(strategies: seq<S>, apply: (S, P) -> (Option<V>, P), state: P)
    requires strategies != []
    ensures var (outcome, next) := apply(strategies[0], state);
      var rest := FirstSuccess(strategies[1..], apply, next);
      FirstSuccess(strategies, apply, state) ==
        if outcome.Some? then Run(outcome, next, [Attempt(strategies[0], outcome)])
        else Run(rest.result, rest.state, [Attempt(strategies[0], outcome)] + rest.attempts)
  {
  }

  /** A chain returns a value satisfying `ok` whenever every strategy, from any state, does. */
  lemma {:induction false} FirstSuccessKeeps<S, P, V>(strategies: seq<S>, apply: (S, P) -> (Option<V>, P), state: P, ok: V -> bool)
    requires forall s, p :: apply(s, p).0.Some? ==> ok(apply(s, p).0.value)
    ensures FirstSuccess(strategies, apply, state).result.Some? ==> ok(FirstSuccess(strategies, apply, state).result.value)
    decreases |strategies|
  {
    FirstSuccessTrace(strategies, apply, state);
    if strategies != [] {
      var (outcome, next) := apply(strategies[0], state);
      if outcome.None? {
        FirstSuccessKeeps(strategies[1..], apply, next, ok);
      }
    }
  }
}
