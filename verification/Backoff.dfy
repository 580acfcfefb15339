/** NewWorker's dial loop: exponential backoff with jitter. */
module Backoff {

  const MAX_ATTEMPTS := 9
  const BASE_DELAY := 1_000_000_000

  /** One attempt as the environment decides it: whether the dial succeeds, and the
      number the random source draws if a jitter is asked for. */
  datatype Attempt = Attempt(ok: bool, draw: nat)

  /** 2 to the power e, as `1 << e`. */
  function Pow2(e: nat): (p: nat)
    ensures p >= 1
  {
    if e == 0 then 1 else 2 * Pow2(e - 1)
  }

  /** Half the nominal delay after failure i, counting from zero. */
  function HalfDelay(i: nat): (d: nat)
    ensures d >= 1
  {
    BASE_DELAY / 2 * Pow2(i)
  }

  function Total(sleeps: seq<nat>): nat {
    if sleeps == [] then 0 else Total(sleeps[..|sleeps| - 1]) + sleeps[|sleeps| - 1]
  }

  /** Attempt k is the first that succeeds. */
  predicate FirstSuccess(attempts: seq<Attempt>, k: nat) {
    && k < |attempts| && attempts[k].ok
    && forall j :: 0 <= j < k ==> !attempts[j].ok
  }

  /** Every sleep lies in the upper half of its nominal delay, which doubles. */
  predicate Doubling(sleeps: seq<nat>) {
    forall i :: 0 <= i < |sleeps| ==> HalfDelay(i) <= sleeps[i] < 2 * HalfDelay(i)
  }

  /** The jitter is the draw reduced below the half delay. */
  predicate Drawn(sleep: nat, i: nat, draw: nat) { sleep == HalfDelay(i) + draw % HalfDelay(i) }

  lemma Reduced(draw: nat, n: nat)
    requires n > 0
    ensures 0 <= draw % n < n
  {
  }

  /** The loop for any list of attempts; a failure at the last one still sleeps.
      rand.Int63n(n) is a draw reduced below n. */
  method Dial(attempts: seq<Attempt>) returns (connected: bool, sleeps: seq<nat>)
    ensures connected <==> exists k :: FirstSuccess(attempts, k)
    ensures forall k :: FirstSuccess(attempts, k) ==> |sleeps| == k
    ensures !connected ==> |sleeps| == |attempts|
    ensures Doubling(sleeps)
    ensures forall i :: 0 <= i < |sleeps| ==> Drawn(sleeps[i], i, attempts[i].draw)
  {
    connected, sleeps := false, [];
    for i := 0 to |attempts|
      invariant |sleeps| == i && Doubling(sleeps) && !connected
      invariant forall j :: 0 <= j < i ==> !attempts[j].ok
      invariant forall j :: 0 <= j < i ==> Drawn(sleeps[j], j, attempts[j].draw)
    {
      if attempts[i].ok {
        assert FirstSuccess(attempts, i);
        return true, sleeps;
      }
      var backoff := BASE_DELAY * Pow2(i);
      assert backoff / 2 == HalfDelay(i) > 0;
      var jitter := attempts[i].draw % (backoff / 2);
      Reduced(attempts[i].draw, HalfDelay(i));
      sleeps := sleeps + [backoff / 2 + jitter];
    }
  }

  /** n failures sleep for at least half of 2^n - 1 seconds and for less than all of it. */
  lemma {:induction false} TotalBounds(sleeps: seq<nat>)
    requires Doubling(sleeps)
    ensures BASE_DELAY / 2 * (Pow2(|sleeps|) - 1) <= Total(sleeps)
    ensures sleeps != [] ==> Total(sleeps) < BASE_DELAY * (Pow2(|sleeps|) - 1)
  {
    if sleeps != [] {
      var n := |sleeps| - 1;
      TotalBounds(sleeps[..n]);
      var p := Pow2(n);
      assert Pow2(n + 1) == 2 * p;
      assert 500_000_000 * p <= sleeps[n] < 1_000_000_000 * p;
    }
  }

  /** NewWorker's own bound: giving up takes from 255.5 to 511 seconds. */
  lemma NineFailures(sleeps: seq<nat>)
    requires Doubling(sleeps) && |sleeps| == MAX_ATTEMPTS
    ensures 255_500_000_000 <= Total(sleeps) < 511_000_000_000
  {
    TotalBounds(sleeps);
    assert Pow2(9) == 512;
  }
}
