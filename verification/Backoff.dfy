/** The retry schedule of one delivery: delays, their sum, and how long it takes to give up. */
module Backoff {
  import opened Records
  import opened StoreSpec

  lemma Pow2Values()
    ensures Pow2(0) == 1 && Pow2(1) == 2 && Pow2(2) == 4 && Pow2(3) == 8
    ensures Pow2(4) == 16 && Pow2(5) == 32 && Pow2(6) == 64 && Pow2(7) == 128
  {
    assert Pow2(3) == 8;
    assert Pow2(5) == 32;
  }

  lemma {:induction false} Pow2Monotone(a: nat, b: nat)
    requires a <= b
    ensures Pow2(a) <= Pow2(b)
    decreases b
  {
    if a < b { Pow2Monotone(a, b - 1); }
  }

  /** Each delay doubles the one before it until the seventh, and lies between base and 64 base. */
  lemma DelayShape(base: nat, n: nat)
    requires n >= 1
    ensures Delay(base, 1) == base
    ensures Delay(base, n + 1) == if n <= 6 then 2 * Delay(base, n) else Delay(base, n)
    ensures base <= Delay(base, n) <= 64 * base
  {
    Pow2Values();
    var p := Pow2(if n - 1 > 6 then 6 else n - 1);
    Pow2Monotone(if n - 1 > 6 then 6 else n - 1, 6);
    assert base * 1 <= base * p <= base * 64 by {
      MulMonotone(base, 1, p);
      MulMonotone(base, p, 64);
    }
    if n <= 6 {
      assert Pow2(n) == 2 * Pow2(n - 1);
      assert base * (2 * Pow2(n - 1)) == 2 * (base * Pow2(n - 1));
    }
  }

  /** Where nothing is configured: five attempts, and delays of two seconds and up. */
  lemma DefaultDelays(cfg: Config)
    requires cfg.maxRetries <= 0 && cfg.baseBackoff <= 0
    ensures cfg.Max() == 5 && Delay(cfg.Base(), 1) == 2 * SECOND && Delay(cfg.Base(), 2) == 4 * SECOND
    ensures Delay(cfg.Base(), 3) == 8 * SECOND && Delay(cfg.Base(), 4) == 16 * SECOND
  {
    Pow2Values();
  }

  lemma MulMonotone(x: nat, a: nat, b: nat)
    requires a <= b
    ensures x * a <= x * b
  {
  }

  lemma Distribute(x: nat, a: nat, b: nat)
    ensures x * a + x * b == x * (a + b)
  {
  }

  function TotalDelay(base: nat, n: nat): nat {
    if n == 0 then 0 else TotalDelay(base, n - 1) + Delay(base, n)
  }

  /** The sum of the first `n` delays in closed form. */
  lemma {:induction false} TotalDelayClosed(base: nat, n: nat)
    ensures TotalDelay(base, n) == if n <= 7 then base * (Pow2(n) - 1) else base * (127 + 64 * (n - 7))
    decreases n
  {
    Pow2Values();
    if n > 0 {
      TotalDelayClosed(base, n - 1);
      if n <= 7 {
        Distribute(base, Pow2(n - 1) - 1, Pow2(n - 1));
      } else if n == 8 {
        Distribute(base, 127, 64);
      } else {
        Distribute(base, 127 + 64 * (n - 8), 64);
      }
    }
  }

  /** An entry after failed attempts at the given times, oldest first. */
  function Failed(e: Entry, err: string, cfg: Config, times: seq<nat>): Entry {
    if times == [] then e
    else FailEntry(Failed(e, err, cfg, times[..|times| - 1]), err, cfg, times[|times| - 1])
  }

  /** A fresh entry is dead after exactly maxRetries failures, not before, and until then its
      retry time is its last attempt plus the delay for that failure. */
  lemma {:induction false} FreshDiesAtLimit(user: string, err: string, cfg: Config, times: seq<nat>)
    ensures var e := Failed(FreshEntry(user), err, cfg, times);
      && e.retry == |times|
      && (e.dead <==> |times| >= cfg.Max())
      && e.acked == e.read == false
      && (0 < |times| < cfg.Max() ==>
            e.nextRetryAt == Unix(times[|times| - 1] + Delay(cfg.Base(), |times|)))
    decreases |times|
  {
    if times != [] {
      FreshDiesAtLimit(user, err, cfg, times[..|times| - 1]);
    }
  }

  /** Each attempt after the first was made by a tick that found the entry due. */
  ghost predicate MadeWhenDue(user: string, err: string, cfg: Config, times: seq<nat>) {
    forall i :: 0 < i < |times| ==> Failed(FreshEntry(user), err, cfg, times[..i]).nextRetryAt <= Unix(times[i])
  }

  lemma UnixShift(t: nat, secs: nat)
    ensures Unix(t + secs * SECOND) == Unix(t) + secs
  {
  }

  lemma ScaledDelay(b: nat, n: nat)
    requires n >= 1
    ensures Delay(b * SECOND, n) == Delay(b, n) * SECOND
  {
    Reassociate(b, SECOND, Pow2(if n - 1 > 6 then 6 else n - 1));
  }

  lemma Reassociate(x: nat, y: nat, z: nat)
    ensures (x * y) * z == (x * z) * y
  {
    assert (x * y) * z == x * (y * z);
    assert (x * z) * y == x * (z * y);
  }

  lemma {:induction false} ElapsedAtLeast(user: string, err: string, cfg: Config, times: seq<nat>, b: nat)
    requires cfg.Base() == b * SECOND
    requires 0 < |times| <= cfg.Max() && MadeWhenDue(user, err, cfg, times)
    ensures Unix(times[|times| - 1]) >= Unix(times[0]) + TotalDelay(b, |times| - 1)
    decreases |times|
  {
    if |times| > 1 {
      var n := |times| - 1;
      var front := times[..n];
      forall i | 0 < i < n ensures front[..i] == times[..i] {
      }
      ElapsedAtLeast(user, err, cfg, front, b);
      FreshDiesAtLimit(user, err, cfg, front);
      ScaledDelay(b, n);
      UnixShift(front[n - 1], Delay(b, n));
    }
  }

  /** With a base of `b` whole seconds, a delivery that is only retried when due is given up no
      earlier than the sum of its delays after the first attempt, counted in whole seconds. */
  lemma GivingUpTakes(user: string, err: string, cfg: Config, times: seq<nat>, b: nat)
    requires cfg.Base() == b * SECOND
    requires |times| == cfg.Max() && MadeWhenDue(user, err, cfg, times)
    ensures Failed(FreshEntry(user), err, cfg, times).dead
    ensures !Failed(FreshEntry(user), err, cfg, times[..|times| - 1]).dead
    ensures Unix(times[|times| - 1]) - Unix(times[0])
            >= if cfg.Max() <= 8 then b * (Pow2(cfg.Max() - 1) - 1) else b * (127 + 64 * (cfg.Max() - 8))
  {
    FreshDiesAtLimit(user, err, cfg, times);
    FreshDiesAtLimit(user, err, cfg, times[..|times| - 1]);
    ElapsedAtLeast(user, err, cfg, times, b);
    TotalDelayClosed(b, cfg.Max() - 1);
  }
}
