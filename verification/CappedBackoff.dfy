/** The capped exponential backoff that src/events/reactive.ts and src/executor.ts both compute.
 *
 * The first attempt waits for the base delay, each further one twice as long as the one before, and none longer than
 * the cap. Event delivery keeps the time of the next attempt in memory; the job loop stores it as the lease of the
 * queued job, so that no worker claims the job before. Attempts are counted from one, and delays are whole
 * milliseconds.
 */
module CappedBackoff {
  function Pow2(n: nat): nat {
    if n == 0 then 1 else 2 * Pow2(n - 1)
  }

  // Math.min(base * 2 ** (attempts - 1), cap)
  function Delay(base: nat, cap: nat, attempts: nat): nat
    requires attempts >= 1
  {
    var delay := base * Pow2(attempts - 1);
    if delay < cap then delay else cap
  }

  // The next attempt waits at least as long, and never longer than the cap.
  lemma DelayGrows(base: nat, cap: nat, attempts: nat)
    requires attempts >= 1
    ensures Delay(base, cap, attempts) <= Delay(base, cap, attempts + 1) <= cap
  {
    var p := Pow2(attempts - 1);
    assert Pow2(attempts) == 2 * p;
    assert base * (2 * p) == base * p + base * p;
    assert base * p >= 0;
  }

  function Product(factors: seq<nat>): nat {
    if factors == [] then 1 else factors[0] * Product(factors[1..])
  }

  // The delay is the base times one factor two for each attempt after the first, or the cap where that is less.
  lemma DelayExact(base: nat, cap: nat, attempts: nat)
    requires attempts >= 1
    ensures var full := base * Product(seq(attempts - 1, _ => 2));
            Delay(base, cap, attempts) == if full <= cap then full else cap
  {
    PowerIsProduct(attempts - 1);
  }

  lemma {:induction false} PowerIsProduct(n: nat)
    ensures Pow2(n) == Product(seq(n, _ => 2))
  {
    if n > 0 {
      assert seq(n, _ => 2)[1..] == seq(n - 1, _ => 2);
      PowerIsProduct(n - 1);
    }
  }

  // So the first delay is the base and each further one twice the one before, up to the cap.
  lemma DelayDoubles(base: nat, cap: nat, attempts: nat)
    requires attempts >= 1
    ensures Delay(base, cap, 1) == if base <= cap then base else cap
    ensures var twice := 2 * Delay(base, cap, attempts);
            Delay(base, cap, attempts + 1) == if twice <= cap then twice else cap
  {
    var p := Pow2(attempts - 1);
    assert Pow2(0) == 1 && Pow2(attempts) == 2 * p;
    assert base * (2 * p) == 2 * (base * p);
  }
}
