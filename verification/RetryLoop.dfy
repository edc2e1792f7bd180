/** The retry loop of a provider call: attempts with a capped, geometrically growing pause between them. */
module RetryLoop {
  type Answer(!new)
  type Error(!new)

  /** Times are whole nanoseconds. */
  datatype RetryConfig = RetryConfig(maxAttempts: int, initialBackoff: int, maxBackoff: int, multiplier: real)

  /** What one call gives. */
  datatype Call = Success(answer: Answer) | Failure(error: Error)

  /** What the loop gives: an answer, an error not worth retrying, the last error once the attempts are used
      up, the cancellation of the context, or, when no attempt is allowed, no answer and no error. */
  datatype Outcome =
    | Answered(answer: Answer)
    | GivenUp(error: Error)
    | Exhausted(attempts: int, error: Error)
    | Cancelled
    | NothingTried
    | NotFound
    | FilterFailed(error: Error)
    | NoMatch

  /** A method of a provider; an empty `filter` lets every call through. */
  datatype Method = Method(name: string, filter: string)

  /** What evaluating a filter gives. */
  datatype Verdict = Matches | Differs | Fails(error: Error)

  // ---- The pauses ----

  /** A real number cut to a whole one, towards zero. */
  function Trunc(x: real): (t: int)
    ensures x - 1.0 < t as real < x + 1.0
    ensures x >= 0.0 ==> 0 <= t && t as real <= x
  {
    if x >= 0.0 then x.Floor else -(-x).Floor
  }

  function Times(x: real, m: real): real {
    x * m
  }

  /** The pause after a pause of `b`: cut to whole nanoseconds, and capped. */
  function NextPause(cfg: RetryConfig, b: int): (r: int)
    ensures r <= cfg.maxBackoff
  {
    var t := Trunc(Times(b as real, cfg.multiplier));
    if t > cfg.maxBackoff then cfg.maxBackoff else t
  }

  /** The pause after attempt `i`, counted from 1. */
  function Pause(cfg: RetryConfig, i: nat): (r: int)
    ensures i > 0 ==> r <= cfg.maxBackoff
  {
    if i == 0 then cfg.initialBackoff else NextPause(cfg, Pause(cfg, i - 1))
  }

  function Pow(x: real, n: nat): real {
    if n == 0 then 1.0 else Pow(x, n - 1) * x
  }

  function Min(x: real, y: real): real {
    if x <= y then x else y
  }

  /** The capped geometric term. */
  function Closed(cfg: RetryConfig, i: nat): real {
    Min(cfg.maxBackoff as real, cfg.initialBackoff as real * Pow(cfg.multiplier, i))
  }

  /** How far cutting at every step can have drifted from the geometric term: 1 + m + ... + m^(i-1). */
  function Drift(m: real, i: nat): real {
    if i == 0 then 0.0 else Times(Drift(m, i - 1), m) + 1.0
  }

  function Sum(s: seq<int>): int {
    if s == [] then 0 else Sum(s[..|s| - 1]) + s[|s| - 1]
  }

  /** A configuration whose geometric term moves away from zero. */
  predicate Growing(cfg: RetryConfig) {
    cfg.multiplier >= 1.0 && cfg.maxBackoff >= 0
  }

  lemma MulGrows(x: real, y: real)
    requires x >= 1.0 && y >= 0.0
    ensures y * x >= y
  {
    assert y * x - y == y * (x - 1.0);
  }

  lemma MulSame(x: real, y: real, z: real)
    requires x == y
    ensures x * z == y * z && z * x == z * y
  {}

  lemma MulShift(x: real, y: real, z: real)
    ensures x * (y * z) == (x * y) * z
  {}

  lemma MulMinus(x: real, y: real, z: real)
    ensures (x - y) * z == x * z - y * z
  {}

  lemma MulMonotone(x: real, y: real, z: real)
    requires x <= y && z >= 0.0
    ensures x * z <= y * z
  {
    MulMinus(y, x, z);
    assert (y - x) * z >= 0.0;
  }

  /** Growing a capped value and capping again is growing and then capping. */
  lemma NextCapped(limit: real, x: real, m: real, c: real, y: real, z: real)
    requires m >= 1.0 && limit >= 0.0 && c == Min(limit, x) && y == x * m && z == c * m
    ensures Min(limit, y) == Min(limit, z)
  {
    if limit <= x {
      MulGrows(m, c);
      MulGrows(m, x);
    } else {
      MulSame(c, x, m);
    }
  }

  /** Capping as one goes gives the capped closed form. */
  lemma ClosedNext(cfg: RetryConfig, i: nat)
    requires Growing(cfg)
    ensures Closed(cfg, i + 1) == Min(cfg.maxBackoff as real, Times(Closed(cfg, i), cfg.multiplier))
  {
    var b, m, p, q := cfg.initialBackoff as real, cfg.multiplier, Pow(cfg.multiplier, i), Pow(cfg.multiplier, i + 1);
    MulSame(q, p * m, b);
    MulShift(b, p, m);
    assert b * q == (b * p) * m;
    NextCapped(cfg.maxBackoff as real, b * p, m, Closed(cfg, i), b * q, Closed(cfg, i) * m);
  }

  lemma ClosedFirst(cfg: RetryConfig)
    ensures Closed(cfg, 1) == Min(cfg.maxBackoff as real, Times(cfg.initialBackoff as real, cfg.multiplier))
  {
    var m, p := cfg.multiplier, Pow(cfg.multiplier, 1);
    assert Pow(m, 0) == 1.0;
    MulSame(p, m, cfg.initialBackoff as real);
  }

  predicate Near(x: real, y: real, d: real) {
    -d <= x - y <= d
  }

  /** One step: what is off by at most `d` before is off by at most one more than `d` times the multiplier. */
  lemma NextNear(cfg: RetryConfig, b: int, c: real, d: real)
    requires Growing(cfg) && Near(b as real, c, d)
    ensures Near(NextPause(cfg, b) as real, Min(cfg.maxBackoff as real, Times(c, cfg.multiplier)),
                 Times(d, cfg.multiplier) + 1.0)
  {
    hide Times;
    var m, x := cfg.multiplier, Times(b as real, cfg.multiplier);
    TimesNear(b, c, m, d);
    assert x - 1.0 < Trunc(x) as real < x + 1.0;
    hide Trunc;
  }

  lemma TimesNear(b: int, c: real, m: real, d: real)
    requires m >= 1.0 && -d <= b as real - c <= d
    ensures -Times(d, m) <= Times(b as real, m) - Times(c, m) <= Times(d, m)
  {
    MulMinus(b as real, c, m);
    MulMonotone(b as real - c, d, m);
    MulMonotone(-d, b as real - c, m);
    MulMinus(0.0, d, m);
  }

  lemma NearItself(x: real)
    ensures Near(x, x, 0.0)
  {}

  lemma DriftFirst(m: real)
    ensures Drift(m, 1) == Times(0.0, m) + 1.0
  {
    assert Drift(m, 0) == 0.0;
  }

  /** Cutting to whole nanoseconds at every step keeps the pause near the capped geometric term. */
  lemma {:induction false} PauseNear(cfg: RetryConfig, i: nat)
    requires Growing(cfg) && i >= 1
    ensures Near(Pause(cfg, i) as real, Closed(cfg, i), Drift(cfg.multiplier, i))
  {
    hide NextPause, Closed, Growing, Near, Min, Times;
    var b, m := Pause(cfg, i - 1), cfg.multiplier;
    if i == 1 {
      ClosedFirst(cfg);
      assert b == cfg.initialBackoff;
      NearItself(b as real);
      NextNear(cfg, b, b as real, 0.0);
      DriftFirst(m);
    } else {
      PauseNear(cfg, i - 1);
      ClosedNext(cfg, i - 1);
      NextNear(cfg, b, Closed(cfg, i - 1), Drift(m, i - 1));
    }
  }

  /** The drift is a geometric sum. */
  lemma {:induction false} DriftClosed(m: real, i: nat)
    ensures Drift(m, i) * (m - 1.0) == Pow(m, i) - 1.0
  {
    if i > 0 {
      DriftClosed(m, i - 1);
      var d, p := Drift(m, i - 1), Pow(m, i - 1);
      DriftStep(d, m, p);
    }
  }

  lemma DriftStep(d: real, m: real, p: real)
    requires d * (m - 1.0) == p - 1.0
    ensures (d * m + 1.0) * (m - 1.0) == p * m - 1.0
  {
    var k := m - 1.0;
    MulShift(d, m, k);
    MulShift(d, k, m);
    assert d * (m * k) == d * (k * m);
    assert (d * m + 1.0) * k == (d * m) * k + k;
    MulMinus(p, 1.0, m);
    MulSame(d * k, p - 1.0, m);
  }

  lemma NextBelow(cfg: RetryConfig, b: int, c: real)
    requires Growing(cfg) && 0 <= b && b as real <= c
    ensures 0 <= NextPause(cfg, b) && NextPause(cfg, b) as real <= Min(cfg.maxBackoff as real, Times(c, cfg.multiplier))
  {
    hide Times;
    TimesBelow(b, c, cfg.multiplier);
    assert Trunc(Times(b as real, cfg.multiplier)) as real <= Times(b as real, cfg.multiplier);
    hide Trunc;
  }

  lemma TimesBelow(b: int, c: real, m: real)
    requires m >= 1.0 && 0 <= b && b as real <= c
    ensures 0.0 <= Times(b as real, m) <= Times(c, m)
  {
    MulMonotone(0.0, b as real, m);
    MulMonotone(b as real, c, m);
  }

  /** The pause is never above the capped geometric term when the initial one is not negative. */
  lemma {:induction false} PauseBelow(cfg: RetryConfig, i: nat)
    requires Growing(cfg) && cfg.initialBackoff >= 0 && i >= 1
    ensures 0 <= Pause(cfg, i) && Pause(cfg, i) as real <= Closed(cfg, i)
  {
    hide NextPause, Closed, Growing, Times;
    if i == 1 {
      ClosedFirst(cfg);
      NextBelow(cfg, cfg.initialBackoff, cfg.initialBackoff as real);
    } else {
      PauseBelow(cfg, i - 1);
      ClosedNext(cfg, i - 1);
      NextBelow(cfg, Pause(cfg, i - 1), Closed(cfg, i - 1));
    }
  }

  lemma {:induction false} WholeProduct(b: nat, k: int)
    ensures b as real * k as real == (b * k) as real
  {
    if b > 0 {
      WholeProduct(b - 1, k);
      assert b * k == (b - 1) * k + k;
      MulMinus(b as real, 1.0, k as real);
    }
  }

  /** A whole multiple of a whole number is not cut. */
  lemma TimesWhole(b: int, m: real)
    requires m == m.Floor as real
    ensures Trunc(Times(b as real, m)) as real == Times(b as real, m)
  {
    var k := m.Floor;
    if b >= 0 {
      WholeProduct(b, k);
      WholeFixed(b * k, Times(b as real, m));
    } else {
      WholeProduct(-b, k);
      assert (-b) * k == -(b * k);
      MulMinus(0.0, (-b) as real, k as real);
      WholeFixed(b * k, Times(b as real, m));
    }
  }

  lemma WholeFixed(n: int, x: real)
    requires x == n as real
    ensures Trunc(x) == n
  {}

  lemma NextExact(cfg: RetryConfig, b: int)
    requires cfg.multiplier == cfg.multiplier.Floor as real
    ensures NextPause(cfg, b) as real == Min(cfg.maxBackoff as real, Times(b as real, cfg.multiplier))
  {
    TimesWhole(b, cfg.multiplier);
    hide Times, Trunc;
  }

  /** With a whole multiplier nothing is ever cut: the pause is the capped geometric term. */
  lemma {:induction false} PauseExact(cfg: RetryConfig, i: nat)
    requires Growing(cfg) && cfg.multiplier == cfg.multiplier.Floor as real && i >= 1
    ensures Pause(cfg, i) as real == Closed(cfg, i)
  {
    hide NextPause, Closed, Growing, Times;
    NextExact(cfg, Pause(cfg, i - 1));
    if i == 1 {
      ClosedFirst(cfg);
    } else {
      PauseExact(cfg, i - 1);
      ClosedNext(cfg, i - 1);
    }
  }

  lemma {:induction false} SumBound(s: seq<int>, limit: int, n: nat)
    requires |s| <= n && limit >= 0 && forall i :: 0 <= i < |s| ==> s[i] <= limit
    ensures Sum(s) <= limit * n
  {
    if s == [] {
      assert limit * n >= 0;
    } else {
      SumBound(s[..|s| - 1], limit, n - 1);
      assert limit * (n - 1) == limit * n - limit;
    }
  }

  // ---- The attempts ----

  /** Whether the loop goes on after attempt `i`: it failed in a way worth retrying, it was not the last,
      and the context lived through the pause. */
  predicate GoesOn(cfg: RetryConfig, call: Call, retryable: Error -> bool, survives: (nat, int) -> bool, i: nat) {
    call.Failure? && retryable(call.error) && i < cfg.maxAttempts && survives(i, Pause(cfg, i))
  }

  /** What the attempts gave, in order, and the pauses between them, for an outcome of the loop: at most the
      allowed attempts, each after a failure worth retrying; the exact cause of each outcome; and the pauses. */
  ghost predicate Follows(retry: RetryConfig, call: nat -> Call, retryable: Error -> bool,
                          survives: (nat, int) -> bool, outcome: Outcome, calls: seq<Call>, pauses: seq<int>)
  {
    && |calls| <= (if retry.maxAttempts < 0 then 0 else retry.maxAttempts)
    && (forall i :: 0 <= i < |calls| ==> calls[i] == call(i + 1))
    && (forall i :: 0 <= i < |calls| - 1 ==> GoesOn(retry, calls[i], retryable, survives, i + 1))
    && (outcome.NothingTried? <==> retry.maxAttempts <= 0)
    && (outcome.Answered? ==> calls != [] && calls[|calls| - 1] == Success(outcome.answer))
    && (outcome.GivenUp? ==>
          calls != [] && calls[|calls| - 1] == Failure(outcome.error) && !retryable(outcome.error))
    && (outcome.Exhausted? ==> |calls| == retry.maxAttempts == outcome.attempts &&
                               calls[|calls| - 1] == Failure(outcome.error) && retryable(outcome.error))
    && (outcome.Cancelled? ==> 0 < |calls| < retry.maxAttempts && calls[|calls| - 1].Failure? &&
                               retryable(calls[|calls| - 1].error) && !survives(|calls|, Pause(retry, |calls|)))
    && !outcome.NotFound? && !outcome.FilterFailed? && !outcome.NoMatch?
    && |pauses| == (if outcome.Cancelled? then |calls| else if calls == [] then 0 else |calls| - 1)
    && (forall i :: 0 <= i < |pauses| ==> pauses[i] == Pause(retry, i + 1))
    && (retry.maxAttempts >= 1 && retry.maxBackoff >= 0 ==>
          Sum(pauses) <= retry.maxBackoff * (retry.maxAttempts - 1))
  }

  /** Every attempt but the last has failed in a way worth retrying, and the context lived through its pause. */
  lemma AttemptGoesOn(retry: RetryConfig, call: nat -> Call, retryable: Error -> bool, survives: (nat, int) -> bool,
                      outcome: Outcome, calls: seq<Call>, pauses: seq<int>, i: nat)
    requires Follows(retry, call, retryable, survives, outcome, calls, pauses) && 1 <= i < |calls|
    ensures i <= |pauses| && call(i).Failure? && retryable(call(i).error)
    ensures i < retry.maxAttempts && survives(i, pauses[i - 1])
  {
    hide Pause, Sum;
    assert calls[i - 1] == call(i) && GoesOn(retry, calls[i - 1], retryable, survives, i - 1 + 1);
    assert pauses[i - 1] == Pause(retry, i);
  }

  /** What the last attempt gave is the outcome, its error being the last one when no attempt is left. */
  lemma LastDecides(retry: RetryConfig, call: nat -> Call, retryable: Error -> bool, survives: (nat, int) -> bool,
                    outcome: Outcome, calls: seq<Call>, pauses: seq<int>)
    requires Follows(retry, call, retryable, survives, outcome, calls, pauses)
    ensures |calls| == 0 <==> retry.maxAttempts <= 0
    ensures retry.maxAttempts <= 0 ==> outcome == NothingTried && pauses == []
    ensures retry.maxAttempts > 0 ==>
              var n := |calls|;
              match call(n)
              case Success(answer) => outcome == Answered(answer)
              case Failure(error) =>
                if !retryable(error) then outcome == GivenUp(error)
                else if n == retry.maxAttempts then outcome == Exhausted(n, error)
                else outcome == Cancelled && |pauses| == n && !survives(n, pauses[n - 1])
  {
    hide Pause, Sum, GoesOn;
    if calls != [] {
      assert calls[|calls| - 1] == call(|calls|);
      if |pauses| == |calls| {
        assert pauses[|calls| - 1] == Pause(retry, |calls|);
      }
    }
  }

  /** A provider; `call` stands for the remote call, one result for each attempt, and `survives` for whether the
      context lives through the pause after an attempt. */
  class Provider {
    const retry: RetryConfig
    const methods: map<string, Method>

    constructor (retry: RetryConfig, methods: map<string, Method>)
      ensures this.retry == retry && this.methods == methods
    {
      this.retry, this.methods := retry, methods;
    }

    /** A call by method name: no attempt is made for an unknown method, or when the filter does not match. */
    method ExecuteMethod(name: string, evaluate: string -> Verdict, call: Method -> nat -> Call,
                         retryable: Error -> bool, survives: (nat, int) -> bool)
      returns (outcome: Outcome, calls: seq<Call>, pauses: seq<int>)
      ensures outcome.NotFound? <==> name !in methods
      ensures outcome.NoMatch? <==>
              name in methods && methods[name].filter != "" && evaluate(methods[name].filter).Differs?
      ensures outcome.FilterFailed? <==>
              name in methods && methods[name].filter != "" && evaluate(methods[name].filter).Fails?
      ensures outcome.FilterFailed? ==> evaluate(methods[name].filter) == Fails(outcome.error)
      ensures if outcome.NotFound? || outcome.NoMatch? || outcome.FilterFailed? then calls == [] && pauses == []
              else Follows(retry, call(methods[name]), retryable, survives, outcome, calls, pauses)
    {
      calls, pauses := [], [];
      if name !in methods {
        return NotFound, calls, pauses;
      }
      var m := methods[name];
      if m.filter != "" {
        match evaluate(m.filter)
        case Fails(error) => return FilterFailed(error), calls, pauses;
        case Differs => return NoMatch, calls, pauses;
        case Matches =>
      }
      hide Follows;
      outcome, calls, pauses := Attempts(call(m), retryable, survives);
      Tried(call(m), retryable, survives, outcome, calls, pauses);
    }

    lemma Tried(call: nat -> Call, retryable: Error -> bool, survives: (nat, int) -> bool,
                outcome: Outcome, calls: seq<Call>, pauses: seq<int>)
      requires Follows(retry, call, retryable, survives, outcome, calls, pauses)
      ensures !outcome.NotFound? && !outcome.FilterFailed? && !outcome.NoMatch?
    {}

    /** The attempts of one call. `calls` and `pauses` are what happened: the results in order, and the
        pauses waited, or begun, between them. */
    method Attempts(call: nat -> Call, retryable: Error -> bool, survives: (nat, int) -> bool)
      returns (outcome: Outcome, calls: seq<Call>, pauses: seq<int>)
      ensures Follows(retry, call, retryable, survives, outcome, calls, pauses)
    {
      hide Pause, Sum;
      calls, pauses := [], [];
      var backoff := retry.initialBackoff;
      PauseNone();
      var attempt := 1;
      while attempt <= retry.maxAttempts
        invariant 1 <= attempt && |calls| == |pauses| == attempt - 1
        invariant if retry.maxAttempts >= 1 then attempt <= retry.maxAttempts else attempt == 1
        invariant forall i :: 0 <= i < |calls| ==> calls[i] == call(i + 1)
        invariant forall i :: 0 <= i < |calls| ==> GoesOn(retry, calls[i], retryable, survives, i + 1)
        invariant backoff == Pause(retry, attempt - 1)
        invariant forall i :: 0 <= i < |pauses| ==> pauses[i] == Pause(retry, i + 1)
        decreases retry.maxAttempts - attempt
      {
        var result := call(attempt);
        calls := calls + [result];
        if result.Success? {
          Within(pauses);
          return Answered(result.answer), calls, pauses;
        }
        if !retryable(result.error) {
          Within(pauses);
          return GivenUp(result.error), calls, pauses;
        }
        if attempt == retry.maxAttempts {
          Within(pauses);
          return Exhausted(attempt, result.error), calls, pauses;
        }
        backoff := NextBackoff(backoff, attempt);
        pauses := pauses + [backoff];
        if !survives(attempt, backoff) {
          Within(pauses);
          return Cancelled, calls, pauses;
        }
        attempt := attempt + 1;
      }
      return NothingTried, calls, pauses;
    }

    lemma PauseNone()
      ensures Pause(retry, 0) == retry.initialBackoff && Sum([]) == 0
    {}

    /** The pause after an attempt, from the pause before it. */
    method NextBackoff(backoff: int, ghost attempt: nat) returns (b: int)
      requires attempt >= 1 && backoff == Pause(retry, attempt - 1)
      ensures b == Pause(retry, attempt)
    {
      hide Trunc, Times;
      b := Trunc(Times(backoff as real, retry.multiplier));
      if b > retry.maxBackoff {
        b := retry.maxBackoff;
      }
    }

    /** The pauses add up to at most the longest one for each attempt but the last. */
    lemma Within(pauses: seq<int>)
      requires |pauses| < retry.maxAttempts && forall i :: 0 <= i < |pauses| ==> pauses[i] == Pause(retry, i + 1)
      ensures retry.maxBackoff >= 0 ==> Sum(pauses) <= retry.maxBackoff * (retry.maxAttempts - 1)
    {
      if retry.maxBackoff >= 0 {
        SumBound(pauses, retry.maxBackoff, retry.maxAttempts - 1);
      }
    }
  }
}
