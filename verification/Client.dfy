/** The retry loop of `AsyncClient.execute`, src/pymod/client.py. */
module Client {
  import opened Basics
  import opened Errors

  /** The attempt failed with an error that the caller wants retried. */
  predicate Retryable(r: Result<seq<byte>, Error>, retryOn: Error -> bool)
  {
    r.Err? && retryOn(r.error)
  }

  /** How the loop ends, when `outcome(n)` is what the transport does on attempt n, counted from
      zero. The first attempt whose outcome ends the loop is the last one made: everything before
      it failed with a retryable error, its own outcome is the result, and there are at most
      `maxAttempts`. With no attempts allowed the source trips its own assertion, here None. */
  ghost predicate Ended(maxAttempts: int, retryOn: Error -> bool, outcome: nat -> Result<seq<byte>, Error>,
                        r: Option<Result<seq<byte>, Error>>, sends: nat)
  {
    && (r.None? <==> maxAttempts <= 0)
    && (r.None? ==> sends == 0)
    && (r.Some? ==> 1 <= sends <= maxAttempts && r.value == outcome(sends - 1))
    && (forall n :: 0 <= n < sends - 1 ==> Retryable(outcome(n), retryOn))
    && (r.Some? && Retryable(r.value, retryOn) ==> sends == maxAttempts)
  }

  /** The outcomes of the attempts leave no choice: result and number of sends are determined. */
  lemma EndedOnce(maxAttempts: int, retryOn: Error -> bool, outcome: nat -> Result<seq<byte>, Error>,
                  r: Option<Result<seq<byte>, Error>>, sends: nat, q: Option<Result<seq<byte>, Error>>, more: nat)
    requires Ended(maxAttempts, retryOn, outcome, r, sends) && Ended(maxAttempts, retryOn, outcome, q, more)
    ensures r == q && sends == more
  {}

  /** Where the loop stops, attempt by attempt: the first attempt that succeeds, or that fails with
      an error the caller does not want retried, is the last one made and gives the result. When
      every allowed attempt fails with an error to be retried, all are made and the last error is
      raised. */
  lemma StopsAtFirst(maxAttempts: int, retryOn: Error -> bool, outcome: nat -> Result<seq<byte>, Error>,
                     r: Option<Result<seq<byte>, Error>>, sends: nat, n: nat)
    requires Ended(maxAttempts, retryOn, outcome, r, sends) && n < maxAttempts
    requires forall k :: 0 <= k < n ==> outcome(k).Err? && retryOn(outcome(k).error)
    ensures outcome(n).Ok? ==> r == Some(Ok(outcome(n).value)) && sends == n + 1
    ensures outcome(n).Err? && !retryOn(outcome(n).error) ==> r == Some(Err(outcome(n).error)) && sends == n + 1
    ensures outcome(n).Err? && n + 1 == maxAttempts ==> r == Some(Err(outcome(n).error)) && sends == maxAttempts
    ensures outcome(n).Err? && retryOn(outcome(n).error) && n + 1 < maxAttempts ==> sends > n + 1
  {
    assert sends >= 1;
    assert sends > n + 1 ==> Retryable(outcome(n), retryOn);
  }

  method Execute(maxAttempts: int, retryOn: Error -> bool, outcome: nat -> Result<seq<byte>, Error>)
    returns (r: Option<Result<seq<byte>, Error>>, sends: nat)
    ensures Ended(maxAttempts, retryOn, outcome, r, sends)
  {
    sends := 0;
    while sends < maxAttempts
      invariant if maxAttempts > 0 then sends < maxAttempts else sends == 0
      invariant forall n :: 0 <= n < sends ==> Retryable(outcome(n), retryOn)
      decreases maxAttempts - sends
    {
      var one := outcome(sends);
      sends := sends + 1;
      if !Retryable(one, retryOn) || sends == maxAttempts {
        return Some(one), sends;
      }
    }
    r := None;
  }
}
