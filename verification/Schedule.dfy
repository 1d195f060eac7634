/** The waits between two attempts, as the service computes them and as its documentation states them. */
module Schedule {
  import opened Wrappers

  const I64_MAX := 0x7FFF_FFFF_FFFF_FFFF
  const FIRST_RETRY_SECONDS := 30
  const LONGEST_RETRY_SECONDS := 1800

  function Pow(base: nat, exponent: nat): nat {
    if exponent == 0 then 1 else base * Pow(base, exponent - 1)
  }

  // ----- Retries of a capture ----------------------------------------------------------------

  /** `i64::saturating_pow` for a base that is not negative. */
  function SaturatingPow(base: nat, exponent: nat): nat {
    Min(Pow(base, exponent), I64_MAX)
  }

  function SaturatingMul(a: nat, b: nat): nat {
    Min(a * b, I64_MAX)
  }

  /** `retry_delay`: the wait, in seconds, after the `attempt`-th failure. */
  function RetryDelay(attempt: nat): nat {
    var factor := SaturatingPow(4, if attempt == 0 then 0 else attempt - 1);
    Min(SaturatingMul(FIRST_RETRY_SECONDS, factor), LONGEST_RETRY_SECONDS)
  }

  lemma {:induction false} PowGrows(base: nat, small: nat, large: nat)
    requires 1 <= base && small <= large
    ensures 1 <= Pow(base, small) <= Pow(base, large)
    decreases large
  {
    if small < large {
      PowGrows(base, small, large - 1);
    } else if small > 0 {
      PowGrows(base, small - 1, small - 1);
    }
  }

  /** Saturation never shows: the wait is the unbounded one, for every attempt. */
  lemma RetryDelayIsExact(attempt: nat)
    requires 1 <= attempt
    ensures RetryDelay(attempt) == Min(30 * Pow(4, attempt - 1), 1800)
    ensures 30 <= RetryDelay(attempt) <= RetryDelay(attempt + 1) <= 1800
  {
    PowGrows(4, 0, attempt - 1);
    PowGrows(4, attempt - 1, attempt);
  }

  // ----- Copies of a removal -----------------------------------------------------------------

  datatype ResendPolicy = ResendPolicy(after: nat, cap: nat)

  const RESEND_EXPONENT_LIMIT := 30

  /** `record_resend`: the wait, in seconds, before the copy that follows `resends` earlier ones. */
  function ResendDelay(policy: ResendPolicy, resends: nat): nat {
    Min(policy.after * Pow(2, Min(resends, RESEND_EXPONENT_LIMIT)), policy.cap)
  }

  /** The bounds a loaded configuration carries. */
  predicate Loadable(policy: ResendPolicy) {
    30 <= policy.after <= 86_400 && policy.after <= policy.cap <= 604_800
  }

  /** The clamp of the exponent never shows, waits never shrink, and each lies between the two settings. */
  lemma ResendDelayIsExact(policy: ResendPolicy, resends: nat)
    requires Loadable(policy)
    ensures ResendDelay(policy, resends) == Min(policy.after * Pow(2, resends), policy.cap)
    ensures policy.after <= ResendDelay(policy, resends) <= ResendDelay(policy, resends + 1) <= policy.cap
  {
    var near, far := Min(resends, RESEND_EXPONENT_LIMIT), Min(resends + 1, RESEND_EXPONENT_LIMIT);
    PowGrows(2, near, resends);
    PowGrows(2, near, far);
    Scaled(policy.after, Pow(2, near), Pow(2, resends));
    Scaled(policy.after, Pow(2, near), Pow(2, far));
    if RESEND_EXPONENT_LIMIT < resends {
      PowGrows(2, 15, near);
      assert Pow(2, 15) == 32768 by { PowersOfTwo(); }
      Scaled(policy.after, 32768, Pow(2, near));
    }
  }

  lemma PowersOfTwo()
    ensures Pow(2, 15) == 32768
  {
    assert Pow(2, 5) == 32;
    assert Pow(2, 10) == 1024;
  }

  lemma Scaled(factor: nat, small: nat, large: nat)
    requires 1 <= small <= large
    ensures factor <= factor * small <= factor * large
  {
  }

  // ----- Failed publications -----------------------------------------------------------------

  const LARGEST_EXPONENT := 1023

  /** `record_failure`: two to the count so far, at most 300 s; beyond 2^1023 the database refuses the statement. */
  function FailureBackoff(attempts: nat): Option<nat> {
    if attempts <= LARGEST_EXPONENT then Some(Min(Pow(2, attempts), 300)) else None
  }

  /**
   The first wait is one second, half of what the documentation of the pump says; every later one
   doubles up to the cap.
   */
  lemma FailureBackoffDoubles(attempts: nat)
    ensures FailureBackoff(0) == Some(1)
    ensures FailureBackoff(attempts).Some? <==> attempts < 1024
    ensures attempts < 1023 ==> FailureBackoff(attempts + 1) == Some(Min(2 * FailureBackoff(attempts).value, 300))
  {
  }
}
