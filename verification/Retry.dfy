/** Exponential backoff, and the delivery loop of budget webhooks (`webhook.rs`).  Durations are unbounded numbers. */
module Retry {
  import opened Options

  /** `next_backoff` of `webhook.rs` and of `gateway.rs`. */
  function NextBackoff(current: nat, max: nat): nat {
    if current * 2 <= max then current * 2 else max
  }

  /** The `k`-th sleep of a retry loop. */
  function SleepAt(initial: nat, max: nat, k: nat): nat {
    if k == 0 then initial else NextBackoff(SleepAt(initial, max, k - 1), max)
  }

  function Pow2(k: nat): nat {
    if k == 0 then 1 else 2 * Pow2(k - 1)
  }

  /** The first sleep is the initial one even when that is above the cap; after it the doubled values are capped. */
  lemma {:induction false} SleepClosedForm(initial: nat, max: nat, k: nat)
    ensures SleepAt(initial, max, k)
            == if k == 0 then initial else if initial * Pow2(k) <= max then initial * Pow2(k) else max
  {
    if k > 1 {
      SleepClosedForm(initial, max, k - 1);
      Doubled(initial, k);
    } else if k == 1 {
      assert Pow2(1) == 2 * Pow2(0);
      assert SleepAt(initial, max, 0) == initial;
    }
  }

  lemma Doubled(initial: nat, k: nat)
    requires k > 0
    ensures initial * Pow2(k) == initial * Pow2(k - 1) * 2
  {
  }

  // --- Webhook delivery ------------------------------------------------------------------

  datatype Policy = Policy(initialBackoff: nat, maxBackoff: nat, maxRetries: nat)

  datatype Response = Status(code: nat) | NetworkError

  predicate IsSuccess(r: Response) {
    r.Status? && 200 <= r.code < 300
  }

  /** A server error or a network error is worth another attempt; a 4xx is permanent. */
  predicate Retryable(r: Response) {
    r.NetworkError? || 500 <= r.code < 600
  }

  /** One POST: what it was answered with, and the sleep before the next one, if there is a next one. */
  datatype Attempt = Attempt(response: Response, slept: Option<nat>)

  /** The attempt, from attempt `k` on, after which the loop returns. */
  function LastAttempt(policy: Policy, responses: nat -> Response, k: nat): (last: nat)
    requires k <= policy.maxRetries
    ensures k <= last <= policy.maxRetries
    ensures forall j: nat | k <= j < last :: Retryable(responses(j))
    ensures last == policy.maxRetries || !Retryable(responses(last))
    decreases policy.maxRetries - k
  {
    if k == policy.maxRetries || !Retryable(responses(k)) then k else LastAttempt(policy, responses, k + 1)
  }

  function AttemptAt(policy: Policy, responses: nat -> Response, k: nat): Attempt {
    Attempt(responses(k),
            if k < LastAttempt(policy, responses, 0) then
              Some(SleepAt(policy.initialBackoff, policy.maxBackoff, k))
            else None)
  }

  /** The loop of `WebhookNotifier::send`, when attempt `k` would be answered with `responses(k)`. */
  method Send(policy: Policy, responses: nat -> Response) returns (log: seq<Attempt>)
    ensures |log| == LastAttempt(policy, responses, 0) + 1
    ensures forall k | 0 <= k < |log| :: log[k] == AttemptAt(policy, responses, k)
  {
    log := [];
    var backoff := policy.initialBackoff;
    var attempt: nat := 0;
    while true
      invariant |log| == attempt <= policy.maxRetries
      invariant LastAttempt(policy, responses, attempt) == LastAttempt(policy, responses, 0)
      invariant backoff == SleepAt(policy.initialBackoff, policy.maxBackoff, attempt)
      invariant forall k | 0 <= k < attempt :: log[k] == AttemptAt(policy, responses, k)
      decreases policy.maxRetries - attempt
    {
      var response := responses(attempt);
      if IsSuccess(response) || !Retryable(response) || attempt >= policy.maxRetries {
        log := log + [Attempt(response, None)];
        return;
      }
      log := log + [Attempt(response, Some(backoff))];
      backoff := NextBackoff(backoff, policy.maxBackoff);
      attempt := attempt + 1;
    }
  }

  /** The answer calls for another attempt: there was none, or the server is at fault. */
  predicate CallsForRetry(r: Response) {
    match r
    case NetworkError => true
    case Status(code) => code / 100 == 5
  }

  /** An allowed attempt that would be answered with a 2xx after nothing but such answers. */
  ghost predicate DeliversAt(policy: Policy, responses: nat -> Response, k: nat) {
    && k <= policy.maxRetries
    && responses(k).Status? && responses(k).code / 100 == 2
    && forall j: nat | j < k :: CallsForRetry(responses(j))
  }

  /** Main result: a delivery makes at most `max_retries + 1` attempts; every answer but the last one is missing or a
    5xx; the last one is of another kind, such as a 2xx or 4xx, or the last allowed; and the event is delivered exactly
    when some allowed attempt would get a 2xx after such answers only. */
  lemma DeliveredIff(policy: Policy, responses: nat -> Response)
    ensures var last := LastAttempt(policy, responses, 0);
            && last <= policy.maxRetries
            && (forall j: nat | j < last :: CallsForRetry(responses(j)))
            && (last == policy.maxRetries || !CallsForRetry(responses(last)))
            && (responses(last).Status? && responses(last).code / 100 == 2
                <==> exists k: nat :: DeliversAt(policy, responses, k))
  {
    var last := LastAttempt(policy, responses, 0);
    assert forall j: nat :: Retryable(responses(j)) <==> CallsForRetry(responses(j));
    if responses(last).Status? && responses(last).code / 100 == 2 {
      assert DeliversAt(policy, responses, last);
    }
    forall k: nat | DeliversAt(policy, responses, k)
      ensures k == last
    {
      assert !CallsForRetry(responses(k));
    }
  }
}
