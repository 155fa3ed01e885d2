/** The retry policy of a send: what the attempts decide, how often it tries and
    how long it sleeps. */
module SendPolicy {
  import opened Basics

  const SEND_MAX_ATTEMPTS := 6

  /** How one `send_message` ended: fine, with an error that mentions a closing
      websocket, with any other error, or in a panic. */
  datatype Attempt = Sent | Closing | OtherError | Panicked

  datatype Verdict = Completed | Failed | Deferred

  /** Answer of the network to attempt 1, 2, ... */
  type Network = nat -> Attempt

  function Pow2(n: nat): (p: nat)
    ensures p > 0
  {
    if n == 0 then 1 else 2 * Pow2(n - 1)
  }

  /** Seconds slept after a failed attempt. */
  function BackoffFor(attempt: nat): nat {
    Pow2(Min(attempt, 5))
  }

  /** The attempt that decides: the first that is not a closing websocket, or
      the sixth. */
  predicate Decides(net: Network, n: nat) {
    && 1 <= n <= SEND_MAX_ATTEMPTS
    && (forall b :: 1 <= b < n ==> net(b) == Closing)
    && (net(n) == Closing ==> n == SEND_MAX_ATTEMPTS)
  }

  function VerdictOf(answer: Attempt): Verdict {
    match answer
    case Sent => Completed
    case Closing => Deferred
    case _ => Failed
  }

  function VerdictAt(net: Network, n: nat): Verdict {
    VerdictOf(net(n))
  }

  /** Exactly one attempt decides, so a send has exactly one verdict. */
  lemma {:induction false} OneDecides(net: Network, from: nat) returns (n: nat)
    requires 1 <= from <= SEND_MAX_ATTEMPTS && forall b :: 1 <= b < from ==> net(b) == Closing
    ensures Decides(net, n) && forall m: nat :: Decides(net, m) ==> m == n
    decreases SEND_MAX_ATTEMPTS - from
  {
    if net(from) != Closing || from == SEND_MAX_ATTEMPTS {
      n := from;
      forall m: nat | Decides(net, m) ensures m == n {
        assert m < n ==> net(m) == Closing;
      }
    } else {
      n := OneDecides(net, from + 1);
    }
  }

  function SleepBefore(n: nat): nat {
    if n <= 1 then 0 else SleepBefore(n - 1) + BackoffFor(n - 1)
  }

  /** Total sleep before attempt `n`, in seconds; 62 is the most. */
  lemma {:induction false} SleepBound(n: nat)
    requires 1 <= n <= SEND_MAX_ATTEMPTS
    ensures SleepBefore(n) + 2 == Pow2(n) && SleepBefore(n) == [0, 2, 6, 14, 30, 62][n - 1]
  {
    if n > 1 {
      SleepBound(n - 1);
    }
  }
}
