/**
 * Model of the bounded-retry wrapper `request_until_success`.
 *
 * The request function `fn` is abstracted as the outcome of each of its calls:
 * `fn(i)` is what the i-th call (counting from 0) does, either return a value
 * or raise an exception. The wrapper calls it at most `maxAttempts` times,
 * returns the first value returned, and raises `InvalidResponse` carrying
 * `maxAttempts` when no call succeeds.
 */
module RequestErrorManager {

  /** The exceptions an attempt may raise. The wrapper catches every
      `Exception`, so besides the two server exceptions any other one is
      represented by `OtherError` (for example the `StopIteration` a mock
      raises once its side effects run out). */
  datatype ErrorKind = ResponseTimeout | InvalidResponse | OtherError

  /** What one call of the request function does. */
  datatype Outcome<T> = Ok(value: T) | Fail(kind: ErrorKind)

  /** What the wrapper does: return a value, or raise the `InvalidResponse`
      whose message names the attempt count. */
  datatype Response<T> = Success(value: T) | Exhausted(maxAttempts: int)

  /** A response together with the number of calls made to produce it. */
  datatype Run<T> = Run(response: Response<T>, calls: nat)

  /** The number of iterations of `range(0, maxAttempts)`. */
  function Attempts(maxAttempts: int): nat
  {
    if maxAttempts < 0 then 0 else maxAttempts
  }

  /** Each of the first `k` calls raises. */
  ghost predicate FailsBefore<T>(fn: nat -> Outcome<T>, k: nat)
  {
    forall i: nat :: i < k ==> fn(i).Fail?
  }

  /** What the wrapper promises, stated without the loop: never more calls than
      attempts allowed; a success is the value of the last call made and every
      earlier call raised; exhaustion means that every allowed call raised. */
  ghost predicate RetryContract<T>(fn: nat -> Outcome<T>, maxAttempts: int, run: Run<T>)
  {
    && run.calls <= Attempts(maxAttempts)
    && match run.response
       case Success(v) =>
         1 <= run.calls && fn(run.calls - 1) == Ok(v) && FailsBefore(fn, run.calls - 1)
       case Exhausted(n) =>
         n == maxAttempts && run.calls == Attempts(maxAttempts) && FailsBefore(fn, run.calls)
  }

  /** Reference definition: the attempts from the i-th on. */
  function RetryFrom<T>(fn: nat -> Outcome<T>, i: nat, maxAttempts: int): Run<T>
    decreases maxAttempts - i
  {
    if maxAttempts <= i then Run(Exhausted(maxAttempts), i)
    else
      match fn(i)
      case Ok(v) => Run(Success(v), i + 1)
      case Fail(_) => RetryFrom(fn, i + 1, maxAttempts)
  }

  /** Reference definition of a whole call of the wrapper; it keeps the
      wrapper's contract, which no other run meets (ContractDeterminesRun). */
  function Retry<T>(fn: nat -> Outcome<T>, maxAttempts: int): (run: Run<T>)
    ensures RetryContract(fn, maxAttempts, run)
  {
    RetryFromMeetsContract(fn, 0, maxAttempts);
    RetryFrom(fn, 0, maxAttempts)
  }

  /** The retry loop. `calls` counts the calls of `fn` made. */
  method RequestUntilSuccess<T>(fn: nat -> Outcome<T>, maxAttempts: int)
    returns (response: Response<T>, calls: nat)
    ensures RetryContract(fn, maxAttempts, Run(response, calls))
    ensures Run(response, calls) == Retry(fn, maxAttempts)
  {
    var i: nat := 0;
    while i < maxAttempts
      invariant i <= Attempts(maxAttempts)
      invariant FailsBefore(fn, i)
      decreases maxAttempts - i
    {
      match fn(i) {
        case Ok(v) =>
          response, calls := Success(v), i + 1;
                ContractDeterminesRun(fn, maxAttempts, Run(response, calls), Retry(fn, maxAttempts));
          return;
        case Fail(_) =>
      }
      i := i + 1;
    }
    response, calls := Exhausted(maxAttempts), i;
    ContractDeterminesRun(fn, maxAttempts, Run(response, calls), Retry(fn, maxAttempts));
  }

  lemma {:induction false} RetryFromMeetsContract<T>(fn: nat -> Outcome<T>, i: nat, maxAttempts: int)
    requires i <= Attempts(maxAttempts) && FailsBefore(fn, i)
    ensures RetryContract(fn, maxAttempts, RetryFrom(fn, i, maxAttempts))
    decreases maxAttempts - i
  {
    if i < maxAttempts && fn(i).Fail? {
      assert FailsBefore(fn, i + 1) by {
        forall j: nat | j < i + 1 ensures fn(j).Fail? {
          if j < i { assert fn(j).Fail?; }
        }
      }
      RetryFromMeetsContract(fn, i + 1, maxAttempts);
    }
  }

  /** The contract leaves no freedom: at most one run meets it. */
  lemma ContractDeterminesRun<T>(fn: nat -> Outcome<T>, maxAttempts: int, r1: Run<T>, r2: Run<T>)
    requires RetryContract(fn, maxAttempts, r1) && RetryContract(fn, maxAttempts, r2)
    ensures r1 == r2
  {
  }

  /** The wrapper succeeds exactly when one of the allowed calls returns. */
  lemma SuccessIffSomeAttemptReturns<T>(fn: nat -> Outcome<T>, maxAttempts: int)
    ensures Retry(fn, maxAttempts).response.Success?
        <==> exists k: nat :: k < maxAttempts && fn(k).Ok?
  {
    var run := Retry(fn, maxAttempts);
    if run.response.Success? {
      assert fn(run.calls - 1).Ok?;
    } else {
      forall k: nat | k < maxAttempts ensures fn(k).Fail? {
        assert k < run.calls;
      }
    }
  }

  /** If calls 0..k-1 raise and call k returns, the wrapper returns that value,
      unchanged, after exactly k + 1 calls. */
  lemma FirstSuccessIsReturned<T>(fn: nat -> Outcome<T>, maxAttempts: int, k: nat)
    requires k < maxAttempts && FailsBefore(fn, k) && fn(k).Ok?
    ensures Retry(fn, maxAttempts) == Run(Success(fn(k).value), k + 1)
  {
    ContractDeterminesRun(fn, maxAttempts, Retry(fn, maxAttempts), Run(Success(fn(k).value), k + 1));
  }

  /** If every allowed call raises, the wrapper raises `InvalidResponse` with
      the attempt count after making every allowed call. */
  lemma AllFailuresExhaust<T>(fn: nat -> Outcome<T>, maxAttempts: int)
    requires FailsBefore(fn, Attempts(maxAttempts))
    ensures Retry(fn, maxAttempts) == Run(Exhausted(maxAttempts), Attempts(maxAttempts))
  {
    ContractDeterminesRun(fn, maxAttempts, Retry(fn, maxAttempts), Run(Exhausted(maxAttempts), Attempts(maxAttempts)));
  }

  /** With no attempts allowed, the loop body never runs. */
  lemma NoAttemptsNoCalls<T>(fn: nat -> Outcome<T>, maxAttempts: int)
    requires maxAttempts <= 0
    ensures Retry(fn, maxAttempts) == Run(Exhausted(maxAttempts), 0)
  {
  }

  /** A failed first call, whatever exception it raised, is swallowed and uses
      up exactly one attempt: the rest behaves as the wrapper over the later
      calls with one attempt fewer. */
  lemma {:induction false} FailureConsumesOneAttempt<T>(fn: nat -> Outcome<T>, maxAttempts: int, kind: ErrorKind)
    requires 1 <= maxAttempts && fn(0) == Fail(kind)
    ensures var rest := Retry((i: nat) => fn(i + 1), maxAttempts - 1);
            && Retry(fn, maxAttempts).calls == rest.calls + 1
            && (rest.response.Success? ==> Retry(fn, maxAttempts).response == rest.response)
            && (rest.response.Exhausted? ==> Retry(fn, maxAttempts).response == Exhausted(maxAttempts))
  {
    var later := (i: nat) => fn(i + 1);
    var rest := Retry(later, maxAttempts - 1);
    var shifted := Run(if rest.response.Success? then rest.response else Exhausted(maxAttempts), rest.calls + 1);
    assert FailsBefore(fn, rest.calls + (if rest.response.Success? then 0 else 1)) by {
      forall j: nat | j < rest.calls + (if rest.response.Success? then 0 else 1) ensures fn(j).Fail? {
        if j > 0 { assert later(j - 1).Fail?; }
      }
    }
    if rest.response.Success? {
      assert fn(rest.calls) == later(rest.calls - 1);
    }
    assert RetryContract(fn, maxAttempts, shifted);
    ContractDeterminesRun(fn, maxAttempts, Retry(fn, maxAttempts), shifted);
  }

  // The module's unit tests, with the mocked request function as call outcomes.

  /** `Mock(return_value='some value')`. */
  function AlwaysReturns(i: nat): Outcome<string>
  {
    Ok("some value")
  }

  /** `side_effect = [InvalidResponse, ResponseTimeout, 'some value']`; a mock
      called after its side effects run out raises `StopIteration`. */
  function FailsTwiceThenReturns(i: nat): Outcome<string>
  {
    if i == 0 then Fail(InvalidResponse)
    else if i == 1 then Fail(ResponseTimeout)
    else if i == 2 then Ok("some value")
    else Fail(OtherError)
  }

  /** `Mock(side_effect=ResponseTimeout('timeout'))`. */
  function AlwaysTimesOut(i: nat): Outcome<string>
  {
    Fail(ResponseTimeout)
  }

  lemma ValidResponse()
    ensures Retry(AlwaysReturns, 5) == Run(Success("some value"), 1)
  {
    FirstSuccessIsReturned(AlwaysReturns, 5, 0);
  }

  lemma ValidResponseAfterFailures()
    ensures Retry(FailsTwiceThenReturns, 5) == Run(Success("some value"), 3)
  {
    assert FailsBefore(FailsTwiceThenReturns, 2) by {
      forall j: nat | j < 2 ensures FailsTwiceThenReturns(j).Fail? { }
    }
    FirstSuccessIsReturned(FailsTwiceThenReturns, 5, 2);
  }

  lemma AlwaysInvalidResponse()
    ensures Retry(AlwaysTimesOut, 5) == Run(Exhausted(5), 5)
  {
    AllFailuresExhaust(AlwaysTimesOut, 5);
  }
}
