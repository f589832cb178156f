/** execqueue/runner/error_classification.py: retry policies, backoff and retry decisions. */
module Retry {
  import opened Prelude
  import opened Tables

  datatype ErrorType = Transient | Permanent | ConflictError | Timeout | ContractViolation | ValidationFailed

  predicate IsRetryable(kind: ErrorType) {
    kind == Transient || kind == Timeout
  }

  datatype PhasePolicy = PhasePolicy(
    maxAttempts: nat,
    baseDelay: real,
    maxDelay: real,
    multiplier: real,
    jitter: real)

  datatype RetryMatrix = RetryMatrix(
    claim: PhasePolicy,
    session: PhasePolicy,
    dispatch: PhasePolicy,
    stream: PhasePolicy,
    result: PhasePolicy,
    adoption: PhasePolicy)

  const DEFAULT_MATRIX: RetryMatrix := RetryMatrix(
    PhasePolicy(3, 1.0, 30.0, 2.0, 0.1),
    PhasePolicy(3, 2.0, 60.0, 2.0, 0.1),
    PhasePolicy(3, 5.0, 120.0, 2.0, 0.1),
    PhasePolicy(2, 10.0, 300.0, 2.0, 0.1),
    PhasePolicy(2, 5.0, 120.0, 2.0, 0.1),
    PhasePolicy(2, 10.0, 300.0, 2.0, 0.1))

  function GetPolicy(matrix: RetryMatrix, phase: RunnerPhase): PhasePolicy {
    match phase
    case ClaimPhase => matrix.claim
    case SessionPhase => matrix.session
    case DispatchPhase => matrix.dispatch
    case StreamPhase => matrix.stream
    case ResultPhase => matrix.result
    case AdoptionPhase => matrix.adoption
  }

  function Power(x: real, n: nat): real {
    if n == 0 then 1.0 else x * Power(x, n - 1)
  }

  function Min(a: real, b: real): real {
    if b < a then b else a
  }

  /** The delay before jitter. */
  function Nominal(policy: PhasePolicy, attempt: nat): real
    requires attempt >= 1
  {
    Min(policy.baseDelay * Power(policy.multiplier, attempt - 1), policy.maxDelay)
  }

  /** The delay for a draw of random.random(): symmetric jitter, then a floor at zero. */
  function Delay(policy: PhasePolicy, attempt: nat, draw: real): real
    requires attempt >= 1
  {
    var delay := Nominal(policy, attempt);
    var jittered := delay + delay * policy.jitter * (2.0 * draw - 1.0);
    if jittered < 0.0 then 0.0 else jittered
  }

  datatype RetryDecision = RetryDecision(
    shouldRetry: bool,
    nextAttempt: nat,
    delay: real,
    nextRetryAt: Option<Time>,
    exhausted: bool)

  /** `execution.attempt or 1` */
  function CurrentAttempt(row: TaskExecution): (a: nat)
    ensures a >= 1
  {
    if row.attempt == 0 then 1 else row.attempt
  }

  /** `execution.max_attempts or policy.max_attempts` */
  function AttemptLimit(row: TaskExecution, policy: PhasePolicy): nat {
    if row.maxAttempts == 0 then policy.maxAttempts else row.maxAttempts
  }

  function CalculateRetry(row: TaskExecution, kind: ErrorType, phase: RunnerPhase, matrix: RetryMatrix, draw: real,
                          now: Time): (d: RetryDecision)
    ensures d.shouldRetry <==> IsRetryable(kind) && CurrentAttempt(row) < AttemptLimit(row, GetPolicy(matrix, phase))
    ensures d.exhausted <==> !d.shouldRetry
    ensures d.nextRetryAt.Some? <==> d.shouldRetry
    ensures d.shouldRetry ==> d.nextRetryAt == Some(now + Delay(GetPolicy(matrix, phase), CurrentAttempt(row), draw))
    ensures d.nextAttempt == CurrentAttempt(row) + if d.shouldRetry then 1 else 0
    ensures d.shouldRetry ==> kind == Transient || kind == Timeout
    ensures var current := if row.attempt == 0 then 1 else row.attempt;
            d.nextAttempt == current + if d.shouldRetry then 1 else 0
    ensures row.attempt == 0 && row.maxAttempts == 0 ==>
              (d.shouldRetry <==> (kind == Transient || kind == Timeout) && 1 < GetPolicy(matrix, phase).maxAttempts)
    ensures row.attempt >= 1 && row.maxAttempts >= 1 ==>
              (d.shouldRetry <==> (kind == Transient || kind == Timeout) && row.attempt < row.maxAttempts)
  {
    var policy := GetPolicy(matrix, phase);
    var current := CurrentAttempt(row);
    if !IsRetryable(kind) then RetryDecision(false, current, 0.0, None, true)
    else if current >= AttemptLimit(row, policy) then RetryDecision(false, current, 0.0, None, true)
    else
      var delay := Delay(policy, current, draw);
      RetryDecision(true, current + 1, delay, Some(now + delay), false)
  }
}
