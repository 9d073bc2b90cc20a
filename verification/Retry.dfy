// The retry policy: its validation, and the capped doubling of delays in 64-bit
// arithmetic.
module Retry {
  import opened Model

  const TWO_62: int := 0x4000_0000_0000_0000
  const TWO_63: int := 0x8000_0000_0000_0000
  const TWO_64: int := 0x1_0000_0000_0000_0000

  predicate Int64(x: int) {
    -TWO_63 <= x < TWO_63
  }

  // The 64-bit two's complement value congruent to x.
  function Wrap(x: int): (r: int)
    ensures Int64(r) && (Int64(x) ==> r == x)
    ensures TWO_63 <= x < TWO_64 ==> r < 0
  {
    var m := x % TWO_64;
    if m >= TWO_63 then m - TWO_64 else m
  }

  lemma WrapIsCongruent(x: int)
    ensures Int64(Wrap(x)) && (x - Wrap(x)) % TWO_64 == 0
  {
    var q := x / TWO_64;
    assert x - Wrap(x) == q * TWO_64 || x - Wrap(x) == (q + 1) * TWO_64;
  }

  // The doubling loop from its current delay, with `left` rounds to go.
  function Doubling(delay: int, left: nat, maxDelay: int): int
    decreases left
  {
    if left == 0 then delay
    else
      var next := Wrap(2 * delay);
      if next > maxDelay then maxDelay else Doubling(next, left - 1, maxDelay)
  }

  function Backoff(attempt: int, baseDelay: int, maxDelay: int): int {
    if attempt <= 0 then baseDelay else Doubling(baseDelay, attempt, maxDelay)
  }

  method BackoffDuration(attempt: int, baseDelay: int, maxDelay: int) returns (delay: int)
    ensures delay == Backoff(attempt, baseDelay, maxDelay)
  {
    if attempt <= 0 {
      return baseDelay;
    }
    delay := baseDelay;
    for i := 0 to attempt
      invariant Doubling(delay, attempt - i, maxDelay) == Doubling(baseDelay, attempt, maxDelay)
    {
      delay := Wrap(delay * 2);
      if delay > maxDelay {
        return maxDelay;
      }
    }
  }

  // ------------------------------------------------------------- closed form

  function Pow2(n: nat): (p: nat)
    ensures p >= 1
  {
    if n == 0 then 1 else 2 * Pow2(n - 1)
  }

  function Min(x: int, y: int): int {
    if x < y then x else y
  }

  lemma {:induction false} Pow2Monotone(m: nat, n: nat)
    requires m <= n
    ensures Pow2(m) <= Pow2(n)
  {
    if m < n { Pow2Monotone(m, n - 1); }
  }

  lemma ScaledMonotone(base: nat, m: nat, n: nat)
    requires m <= n
    ensures base * Pow2(m) <= base * Pow2(n)
  {
    Pow2Monotone(m, n);
  }

  // Some doubling of the base that is still below the cap does not fit when
  // doubled again.
  ghost predicate Overflows(base: int, maxDelay: int, rounds: nat) {
    exists i: nat | i < rounds :: TWO_62 <= base * Pow2(i) <= maxDelay
  }

  lemma {:induction false} DoublingClosed(base: int, start: nat, left: nat, maxDelay: int)
    requires 0 < base && base * Pow2(start) <= maxDelay < TWO_63
    requires forall i: nat | start <= i < start + left :: !(TWO_62 <= base * Pow2(i) <= maxDelay)
    ensures Doubling(base * Pow2(start), left, maxDelay) == Min(base * Pow2(start + left), maxDelay)
    decreases left
  {
    if left > 0 {
      assert base * Pow2(start + 1) == 2 * (base * Pow2(start));
      if base * Pow2(start + 1) <= maxDelay {
        DoublingClosed(base, start + 1, left - 1, maxDelay);
      } else {
        ScaledMonotone(base, start + 1, start + left);
      }
    }
  }

  // For every attempt, even one whose exact delay exceeds 64 bits.
  lemma BackoffClosedForm(attempt: nat, base: int, maxDelay: int)
    requires 0 < base <= maxDelay < TWO_63 && !Overflows(base, maxDelay, attempt)
    ensures Backoff(attempt, base, maxDelay) == Min(base * Pow2(attempt), maxDelay)
  {
    if attempt > 0 { DoublingClosed(base, 0, attempt, maxDelay); }
  }

  lemma {:induction false} DoublingOverflows(base: int, start: nat, at: nat, maxDelay: int)
    requires 0 < base && start <= at && TWO_62 <= base * Pow2(at) <= maxDelay < TWO_63
    requires forall i: nat | start <= i < at :: base * Pow2(i) < TWO_62
    ensures Doubling(base * Pow2(start), at + 1 - start, maxDelay) < 0
    decreases at - start
  {
    assert base * Pow2(start + 1) == 2 * (base * Pow2(start));
    if start < at {
      ScaledMonotone(base, start + 1, at);
      DoublingOverflows(base, start + 1, at, maxDelay);
    }
  }

  lemma FirstOverflow(base: int, maxDelay: int, rounds: nat) returns (at: nat)
    requires 0 < base && Overflows(base, maxDelay, rounds)
    ensures at < rounds && TWO_62 <= base * Pow2(at) <= maxDelay
    ensures forall i: nat | i < at :: base * Pow2(i) < TWO_62
    decreases rounds
  {
    at :| at < rounds && TWO_62 <= base * Pow2(at) <= maxDelay;
    if i: nat :| i < at && base * Pow2(i) >= TWO_62 {
      ScaledMonotone(base, i, at);
      assert Overflows(base, maxDelay, at);
      at := FirstOverflow(base, maxDelay, at);
    }
  }

  // The first overflow makes the very next attempt's delay negative.
  lemma OverflowGoesNegative(base: int, maxDelay: int, rounds: nat) returns (attempt: nat)
    requires 0 < base <= maxDelay < TWO_63 && Overflows(base, maxDelay, rounds)
    ensures Backoff(attempt, base, maxDelay) < 0
  {
    var at := FirstOverflow(base, maxDelay, rounds);
    DoublingOverflows(base, 0, at, maxDelay);
    attempt := at + 1;
  }

  predicate Exact(base: int, maxDelay: int, attempt: nat) {
    Backoff(attempt, base, maxDelay) == Min(base * Pow2(attempt), maxDelay)
  }

  // The closed form holds for every attempt exactly when no doubling of the base
  // lands between 2^62 and the cap; otherwise some attempt gets a negative delay.
  lemma BackoffExact(base: int, maxDelay: int)
    requires 0 < base <= maxDelay < TWO_63
    ensures (forall n: nat :: Exact(base, maxDelay, n)) <==> (forall rounds: nat :: !Overflows(base, maxDelay, rounds))
  {
    hide Backoff, Overflows;
    forall n: nat | !Overflows(base, maxDelay, n) ensures Exact(base, maxDelay, n) {
      BackoffClosedForm(n, base, maxDelay);
    }
    if rounds: nat :| Overflows(base, maxDelay, rounds) {
      var attempt := OverflowGoesNegative(base, maxDelay, rounds);
      assert base * Pow2(attempt) >= 0;
      assert !Exact(base, maxDelay, attempt);
    }
  }

  // ---------------------------------------------------------------- validation

  datatype Policy = Policy(maxAttempts: int, baseDelay: Time, maxDelay: Time, backoff: string, retryOn: seq<int>)

  predicate Exponential(p: Policy) {
    p.backoff == "exponential"
  }

  function Validated(p: Policy): Policy {
    var base := if p.baseDelay == 0 then 5 * SECOND else p.baseDelay;
    Policy(
      if p.maxAttempts == 0 then 3 else p.maxAttempts,
      base,
      if p.maxDelay == 0 || p.maxDelay < base then base else p.maxDelay,
      if p.backoff != "fixed" && p.backoff != "exponential" then "fixed" else p.backoff,
      p.retryOn)
  }

  // What the retry loop may rely on.
  predicate Sane(p: Policy) {
    && p.maxAttempts != 0 && p.baseDelay != 0 && p.baseDelay <= p.maxDelay && p.maxDelay != 0
    && (p.backoff == "fixed" || p.backoff == "exponential")
  }

  // The defaults: three attempts, five seconds, a cap that is at least the base, and
  // fixed delays. Every other field value is kept, whatever the others are.
  lemma DefaultsExactly(p: Policy)
    ensures
      var v := Validated(p);
      && (p.maxAttempts != 0 ==> v.maxAttempts == p.maxAttempts) && (p.maxAttempts == 0 ==> v.maxAttempts == 3)
      && (p.baseDelay != 0 ==> v.baseDelay == p.baseDelay) && (p.baseDelay == 0 ==> v.baseDelay == 5_000_000_000)
      && (p.maxDelay != 0 && p.maxDelay >= v.baseDelay ==> v.maxDelay == p.maxDelay)
      && (p.maxDelay == 0 || p.maxDelay < v.baseDelay ==> v.maxDelay == v.baseDelay)
      && (p.backoff == "exponential" || p.backoff == "fixed" ==> v.backoff == p.backoff)
      && (p.backoff != "exponential" && p.backoff != "fixed" ==> v.backoff == "fixed")
      && v.retryOn == p.retryOn
  {
  }

  // Validation establishes it, changes nothing where it holds already, and so does
  // nothing the second time.
  lemma ValidationIsExact(p: Policy)
    ensures Sane(Validated(p)) && (Sane(p) <==> Validated(p) == p)
    ensures Validated(Validated(p)) == Validated(p)
    ensures Validated(p).retryOn == p.retryOn
  {
  }

  // The section of a configuration that the validator rewrites in place.
  class HttpRetryPolicySection {
    var maxAttempts: int
    var baseDelay: Time
    var maxDelay: Time
    var backoff: string
    var retryOnStatus: seq<int>

    function Value(): Policy
      reads this
    {
      Policy(maxAttempts, baseDelay, maxDelay, backoff, retryOnStatus)
    }

    constructor (p: Policy)
      ensures Value() == p
    {
      maxAttempts, baseDelay, maxDelay, backoff, retryOnStatus :=
        p.maxAttempts, p.baseDelay, p.maxDelay, p.backoff, p.retryOn;
    }

    method Validate()
      modifies this
      ensures Value() == Validated(old(Value())) && Sane(Value())
      ensures Sane(old(Value())) ==> Value() == old(Value())
      ensures maxAttempts == (if old(maxAttempts) == 0 then 3 else old(maxAttempts))
      ensures baseDelay == (if old(baseDelay) == 0 then 5_000_000_000 else old(baseDelay))
      ensures maxDelay == (if old(maxDelay) != 0 && old(maxDelay) >= baseDelay then old(maxDelay) else baseDelay)
      ensures backoff == (if old(backoff) == "exponential" then "exponential" else "fixed")
      ensures retryOnStatus == old(retryOnStatus)
    {
      if maxAttempts == 0 {
        maxAttempts := 3;
      }
      if baseDelay == 0 {
        baseDelay := 5 * SECOND;
      }
      if maxDelay == 0 || maxDelay < baseDelay {
        maxDelay := baseDelay;
      }
      if backoff != "fixed" && backoff != "exponential" {
        backoff := "fixed";
      }
    }
  }

  // After validation of a policy with a base that is not negative and a cap
  // below 2^62, delays follow the closed form for every attempt, and so grow
  // with the attempt and stay between base and cap.
  lemma ValidatedBackoff(p: Policy, m: nat, n: nat)
    requires p.baseDelay >= 0 && Validated(p).maxDelay < TWO_62 && m <= n
    ensures
      var v := Validated(p);
      var delay := Backoff(n, v.baseDelay, v.maxDelay);
      && delay == Min(v.baseDelay * Pow2(n), v.maxDelay)
      && Backoff(m, v.baseDelay, v.maxDelay) <= delay
      && v.baseDelay <= delay <= v.maxDelay
  {
    var v := Validated(p);
    BackoffClosedForm(m, v.baseDelay, v.maxDelay);
    BackoffClosedForm(n, v.baseDelay, v.maxDelay);
    ScaledMonotone(v.baseDelay, m, n);
    ScaledMonotone(v.baseDelay, 0, n);
  }
}
