// The exponential back-off shared by the retry loops of the repository: the delay starts at
// 0.5 s and doubles after every failed attempt, capped at 8 s. Delays are kept in milliseconds.
module Backoff {
  import opened Wrappers

  const InitialDelayMs: nat := 500
  const MaxDelayMs: nat := 8000

  /** `backoff = min(backoff * 2, 8)`, in milliseconds. */
  function NextDelay(d: nat): nat
  {
    if 2 * d <= MaxDelayMs then 2 * d else MaxDelayMs
  }

  /** The delay slept after the k-th failure (counting from 0). */
  function Delay(k: nat): (r: nat)
    ensures InitialDelayMs <= r <= MaxDelayMs
  {
    if k == 0 then InitialDelayMs else NextDelay(Delay(k - 1))
  }

  /** The first n delays, in the order they are slept. */
  function Schedule(n: nat): (r: seq<nat>)
    ensures |r| == n
    ensures forall k :: 0 <= k < n ==> r[k] == Delay(k)
  {
    if n == 0 then [] else Schedule(n - 1) + [Delay(n - 1)]
  }

  function Sum(s: seq<nat>): nat
  {
    if s == [] then 0 else Sum(s[..|s| - 1]) + s[|s| - 1]
  }

  /** The delays are 0.5, 1, 2, 4 and 8 seconds, and stay at 8 from then on. */
  lemma DelayValues(k: nat)
    ensures k < 5 ==> Delay(k) == [500, 1000, 2000, 4000, 8000][k]
    ensures k >= 4 ==> Delay(k) == MaxDelayMs
  {
    if k > 4 {
      DelayValues(k - 1);
    }
  }

  /** The delays never decrease. */
  lemma DelayMonotone(j: nat, k: nat)
    requires j <= k
    ensures Delay(j) <= Delay(k)
  {
    if j < k {
      DelayMonotone(j, k - 1);
    }
  }

  /** Sleeping through the first n delays takes 500 * (2^n - 1) ms while n <= 5. */
  lemma {:induction false} ScheduleSum(n: nat)
    requires n <= 5
    ensures Sum(Schedule(n)) == [0, 500, 1500, 3500, 7500, 15500][n]
  {
    if n > 0 {
      ScheduleSum(n - 1);
      DelayValues(n - 1);
      assert Schedule(n)[..n - 1] == Schedule(n - 1);
    }
  }

  /** The total sleep of at most five back-offs is at most 15.5 s. */
  lemma ScheduleSumBound(n: nat)
    requires n <= 5
    ensures Sum(Schedule(n)) <= 15500
  {
    ScheduleSum(n);
  }

  /** Scanning the attempts from, up to limit, for the first one whose request succeeds. */
  function FirstOkFrom(ok: nat -> bool, from: nat, limit: nat): (r: Option<nat>)
    ensures r.Some? ==> from <= r.value < limit && ok(r.value)
    ensures r.Some? ==> forall j :: from <= j < r.value ==> !ok(j)
    ensures r.None? ==> forall j :: from <= j < limit ==> !ok(j)
    decreases limit - from
  {
    if from >= limit then None
    else if ok(from) then Some(from)
    else FirstOkFrom(ok, from + 1, limit)
  }

  /** The attempt (counting from 0) that first succeeds among the first limit, if any. */
  function FirstOk(ok: nat -> bool, limit: nat): (r: Option<nat>)
    ensures r.Some? <==> exists j :: 0 <= j < limit && ok(j)
    ensures r.Some? ==> r.value < limit && ok(r.value) && forall j :: 0 <= j < r.value ==> !ok(j)
  {
    FirstOkFrom(ok, 0, limit)
  }

  /** How a retry loop ends: it returns (with the value of the return statement), or raises. */
  datatype Outcome = Returned(value: Option<int>) | Raised(error: string)
}
