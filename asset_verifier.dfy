/**
 * Polling a remote asset until it answers 200 (lib/asset-verifier.js).
 *
 * The wall clock is a logical clock: it starts at 0 when polling starts, the
 * k-th HEAD request (k = 1, 2, ...) takes `latency(k)` milliseconds and
 * answers `probe(k)`, and each round then sleeps `interval` milliseconds.
 */
module AssetVerifier {
  import opened Wrappers

  /** What one HEAD request yields: a status code, or a thrown network error. */
  datatype Probe = Status(code: int) | NetworkError

  datatype WaitOptions = WaitOptions(timeout: int, interval: int, silent: bool)

  const DefaultTimeout: int := 60000
  const DefaultInterval: int := 2000

  /** Destructuring `options` with its defaults: a missing key takes the default. */
  function ResolveOptions(timeout: Option<int>, interval: Option<int>, silent: Option<bool>): (o: WaitOptions)
    ensures timeout.None? ==> o.timeout == 60000
    ensures interval.None? ==> o.interval == 2000
    ensures silent.None? ==> !o.silent
    ensures timeout.Some? ==> o.timeout == timeout.value
    ensures interval.Some? ==> o.interval == interval.value
    ensures silent.Some? ==> o.silent == silent.value
  {
    WaitOptions(timeout.GetOr(DefaultTimeout), interval.GetOr(DefaultInterval), silent.GetOr(false))
  }

  predicate IsOk(p: Probe) {
    p == Status(200)
  }

  /** The clock reading after `n` unsuccessful rounds. */
  function Clock(n: nat, interval: nat, latency: nat -> nat): nat {
    if n == 0 then 0 else Clock(n - 1, interval, latency) + latency(n) + interval
  }

  lemma {:induction false} ClockAtLeast(n: nat, interval: nat, latency: nat -> nat)
    ensures Clock(n, interval, latency) >= n * interval
  {
    if n > 0 {
      ClockAtLeast(n - 1, interval, latency);
    }
  }

  /**
   * `waitForUrl(url, options)`. Returns whether the asset became available,
   * the number of requests made, and the clock reading at the end.
   */
  method WaitForUrl(url: string, opts: WaitOptions, probe: nat -> Probe, latency: nat -> nat)
    returns (available: bool, attempts: nat, elapsed: nat)
    requires opts.interval > 0
    ensures !("http" <= url) ==> available && attempts == 0
    ensures "http" <= url && available ==>
      attempts >= 1 && IsOk(probe(attempts)) && Clock(attempts - 1, opts.interval, latency) < opts.timeout
    ensures "http" <= url && !available ==> elapsed == Clock(attempts, opts.interval, latency) >= opts.timeout
    ensures "http" <= url && !available ==> forall k :: 1 <= k <= attempts ==> !IsOk(probe(k))
    ensures "http" <= url ==> forall k :: 1 <= k < attempts ==> !IsOk(probe(k))
    ensures "http" <= url ==> forall k :: 0 <= k < attempts ==> Clock(k, opts.interval, latency) < opts.timeout
  {
    if !("http" <= url) {
      return true, 0, 0;
    }
    var interval: nat := opts.interval;
    attempts, elapsed := 0, 0;
    while elapsed < opts.timeout
      invariant elapsed == Clock(attempts, interval, latency)
      invariant forall k :: 1 <= k <= attempts ==> !IsOk(probe(k))
      invariant forall k :: 0 <= k < attempts ==> Clock(k, interval, latency) < opts.timeout
      decreases opts.timeout - elapsed
    {
      attempts := attempts + 1;
      var response := probe(attempts);
      if response == Status(200) {
        return true, attempts, elapsed + latency(attempts);
      }
      elapsed := elapsed + latency(attempts) + interval;
    }
    return false, attempts, elapsed;
  }

  /**
   * Polling ends: every request but the first is preceded by a full interval
   * of sleep, so the requests made before the deadline number fewer than
   * `timeout / interval + 1`.
   */
  lemma AttemptsBounded(attempts: nat, interval: nat, timeout: int, latency: nat -> nat)
    requires attempts >= 1 && Clock(attempts - 1, interval, latency) < timeout
    ensures (attempts - 1) * interval < timeout
  {
    ClockAtLeast(attempts - 1, interval, latency);
  }
}
