/** How one failed attempt is classified, and what its disposal does to the model. */
module Verdicts {
  import opened Common

  datatype CallStatus = OK | RateLimited | Unavailable | Error | SupersededRow

  datatype ProviderError = ProviderError(code: int)

  datatype Fate =
    | Failed(error: Option<ProviderError>)
    | BudgetExpired

  datatype Verdict = Verdict(
    status: CallStatus,
    httpStatus: Option<int>,
    coolBase: Option<int>,
    outcome: Option<Fate>)

  /** A `Retry-After` as it is parsed: none, or one nobody can read; a number of seconds, of
      either sign and any size; or a date whose year or zone is beyond what the date parser
      holds, over which it raises. */
  datatype RetryAfter = NoDelay | DelaySeconds(n: int) | OffCalendar

  /** What an attempt fails with. */
  datatype Fault =
    | HttpFault(code: int, header: RetryAfter)
    | InvalidResponse
    | TimedOut
    | Transport

  const DEFAULT_RATE_LIMIT_SEC := 60

  predicate IsRateLimit(code: int) { code == 429 || code == 503 }

  predicate IsUnavailable(code: int) { code == 503 }

  predicate IsAuthFailure(code: int) { code == 401 || code == 403 }

  predicate IsClientError(code: int) {
    400 <= code < 500 && !(IsRateLimit(code) || IsAuthFailure(code))
  }

  /** Nothing where reading the header raises: only a rate limit's header is read. */
  function ClassifyStatus(code: int, header: RetryAfter): Option<Verdict> {
    if IsRateLimit(code) then
      if header.OffCalendar? then None
      else
        Some(Verdict(if IsUnavailable(code) then Unavailable else RateLimited, Some(code),
                     Some(if header.DelaySeconds? then header.n else DEFAULT_RATE_LIMIT_SEC), None))
    else if IsAuthFailure(code) then Some(Verdict(Error, Some(code), None, Some(Failed(None))))
    else if IsClientError(code) then Some(Verdict(Error, Some(code), None, Some(Failed(Some(ProviderError(code))))))
    else Some(Verdict(Error, Some(code), Some(DEFAULT_RATE_LIMIT_SEC), None))
  }

  function Classify(fault: Fault, budgetBound: bool): Option<Verdict> {
    match fault
    case HttpFault(code, header) => ClassifyStatus(code, header)
    case InvalidResponse => Some(Verdict(Error, None, Some(DEFAULT_RATE_LIMIT_SEC), None))
    case TimedOut =>
      Some(Verdict(Error, None, Some(DEFAULT_RATE_LIMIT_SEC), if budgetBound then Some(BudgetExpired) else None))
    case Transport => Some(Verdict(Error, None, Some(DEFAULT_RATE_LIMIT_SEC), None))
  }

  function Power(base: nat, exponent: nat): nat {
    if exponent == 0 then 1 else base * Power(base, exponent - 1)
  }

  /** The least whole number that rounds beyond the largest double: 2^1024 - 2^970. */
  function FloatLimit(): nat { 0x3F_FFFF_FFFF_FFFF * Power(2, 970) }

  /** Multiplying a whole number by a float converts it first, and raises where it is too large. */
  predicate FitsAFloat(n: int) {
    var limit: int := FloatLimit();
    -limit < n < limit
  }

  lemma {:induction false} PowerIsPositive(exponent: nat)
    ensures Power(2, exponent) >= 1
  {
    if exponent > 0 {
      PowerIsPositive(exponent - 1);
    }
  }

  lemma SmallFits(n: int)
    requires -0x3F_FFFF_FFFF_FFFF < n < 0x3F_FFFF_FFFF_FFFF
    ensures FitsAFloat(n)
  {
    hide Power;
    PowerIsPositive(970);
  }

  /** `_capped_wait`: the streak scales the base and the optimizer's ceiling caps it. */
  function CappedWait(base: int, backoff: real, cap: Option<real>): real {
    var ceiling := if cap.Some? then cap.value else base as real;
    Min(base as real * backoff, ceiling)
  }

  /** A failure the caller's clock did not cause either excludes its model for the rest of
      the call or cools it, never both and never neither; the request's own faults and dead
      keys are exactly the excluded ones, and only the former have an error worth raising. The
      one failure that is never classified is a rate limit with a date off the calendar. */
  lemma EveryFailureExcludesOrCools(fault: Fault, budgetBound: bool)
    ensures Classify(fault, budgetBound).None? <==>
              fault.HttpFault? && IsRateLimit(fault.code) && fault.header.OffCalendar?
    ensures Classify(fault, budgetBound).Some? ==>
              var v := Classify(fault, budgetBound).value;
              && (v.outcome != Some(BudgetExpired) ==> (v.coolBase.Some? <==> v.outcome.None?))
              && (v.outcome == Some(BudgetExpired) <==> fault.TimedOut? && budgetBound)
              && (v.coolBase.None? <==> fault.HttpFault? && (IsClientError(fault.code) || IsAuthFailure(fault.code)))
              && ((exists e :: v.outcome == Some(Failed(Some(e)))) <==> fault.HttpFault? && IsClientError(fault.code))
              && v.status != OK && v.status != SupersededRow
  {}

  /** The wait is positive, and so withdraws the model for a while, exactly where the base
      is: a `Retry-After` of nothing or less cools nobody. */
  lemma WaitIsPositive(base: int, backoff: real, cap: Option<real>)
    requires backoff > 0.0 && (cap.Some? ==> cap.value > 0.0)
    ensures CappedWait(base, backoff, cap) > 0.0 <==> base > 0
    ensures cap.Some? ==> CappedWait(base, backoff, cap) <= cap.value
  {
    if base > 0 {
      assert base as real * backoff > 0.0;
    } else {
      assert base as real * backoff <= 0.0;
    }
  }

  /** A non-positive wait comes from one place only: the provider's own header. */
  lemma OnlyAHeaderCoolsForNothing(fault: Fault, budgetBound: bool)
    requires Classify(fault, budgetBound).Some? && Classify(fault, budgetBound).value.coolBase.Some?
    ensures Classify(fault, budgetBound).value.coolBase.value <= 0 <==>
              fault.HttpFault? && IsRateLimit(fault.code) && fault.header.DelaySeconds? && fault.header.n <= 0
  {}
}
