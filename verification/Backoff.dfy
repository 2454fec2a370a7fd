// The retry delay that grows with the age of a resource: wait as long as it has existed, but at
// least a second and at most five minutes. Ages are exact reals; delays are whole seconds.

module Backoff {
  function Min(a: real, b: real): real {
    if a < b then a else b
  }

  function Max(a: real, b: real): real {
    if a > b then a else b
  }

  /** Seconds until the retry; the conversion to a duration drops the fraction. */
  function Delay(age: real): (secs: int)
    ensures 1 <= secs <= 300
    ensures secs as real <= Max(age, 1.0) < (if age < 300.0 then secs as real + 1.0 else Max(age, 1.0) + 1.0)
  {
    Max(Min(age, 300.0), 1.0).Floor
  }

  lemma DelayMonotone(a: real, b: real)
    requires a <= b
    ensures Delay(a) <= Delay(b) && a + Delay(a) as real <= b + Delay(b) as real
  {
  }

  /** A delay is never shorter than any whole number of seconds up to 300 that the resource has lived. */
  lemma DelayAtLeast(age: real, k: int)
    requires k as real <= age
    ensures Delay(age) >= if k <= 300 then k else 300
  {
  }

  lemma DelayOfWhole(k: nat, age: real)
    requires age == k as real
    ensures age + Delay(age) as real == (k + if k == 0 then 1 else if k <= 300 then k else 300) as real
  {
  }

  /** The ages at which a resource is tried: each retry waits at least the delay of the last. */
  ghost predicate Retries(ages: seq<real>) {
    && ages != [] && ages[0] >= 0.0
    && forall i :: 0 <= i < |ages| - 1 ==> ages[i + 1] >= ages[i] + Delay(ages[i]) as real
  }

  function Pow2(n: nat): nat {
    if n == 0 then 1 else 2 * Pow2(n - 1)
  }

  /** Doubling up to 512, then 300 at a time. */
  function LeastAge(n: nat): nat {
    if n == 0 then 0 else if n <= 10 then Pow2(n - 1) else 512 + 300 * (n - 10)
  }

  lemma LeastAgeStep(n: nat)
    ensures LeastAge(n + 1) == LeastAge(n) + if LeastAge(n) == 0 then 1 else if LeastAge(n) <= 300 then LeastAge(n) else 300
  {
    assert Pow2(0) == 1 && Pow2(1) == 2 && Pow2(2) == 4 && Pow2(3) == 8 && Pow2(4) == 16;
    assert Pow2(5) == 32 && Pow2(6) == 64 && Pow2(7) == 128 && Pow2(8) == 256 && Pow2(9) == 512;
  }

  /** After n retries a resource is at least 2^(n-1) seconds old, from the eleventh on 300 seconds older each time. */
  lemma {:induction false} AgeAfter(ages: seq<real>, n: nat)
    requires Retries(ages) && n < |ages|
    ensures ages[n] >= LeastAge(n) as real
  {
    if n > 0 {
      AgeAfter(ages, n - 1);
      LeastAgeStep(n - 1);
      DelayAtLeast(ages[n - 1], LeastAge(n - 1));
    }
  }

  /** At most 10 + T/300 retries happen in the first T seconds. */
  lemma RetriesWithin(ages: seq<real>, T: real)
    requires Retries(ages) && ages[|ages| - 1] <= T
    ensures (|ages| - 1) as real <= 10.0 + T / 300.0
  {
    AgeAfter(ages, |ages| - 1);
  }

  /** The ages of a new resource that is always retried on the dot. */
  function OnTheDot(n: nat): real {
    if n == 0 then 0.0 else OnTheDot(n - 1) + Delay(OnTheDot(n - 1)) as real
  }

  /** The bound is met: no smaller one would hold. */
  lemma {:induction false} AgeAfterIsTight(n: nat)
    ensures OnTheDot(n) == LeastAge(n) as real
  {
    if n > 0 {
      AgeAfterIsTight(n - 1);
      LeastAgeStep(n - 1);
      DelayOfWhole(LeastAge(n - 1), OnTheDot(n - 1));
    }
  }
}
