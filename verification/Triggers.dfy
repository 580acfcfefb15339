/** The two autoscaling triggers and what they do under a constant offered load. */
module Triggers {

  /** The CPU limit that the scripts set for a peer. */
  const PEER_CPU := 0.25

  /** sum(rate(cpu)) / sum(limits) */
  function Utilisation(usage: real, capacity: real): real
    requires capacity > 0.0
  {
    usage / capacity
  }

  function ClampMax(x: int, ceiling: int): int { if x > ceiling then ceiling else x }

  /** `... >= bool 0.8`, threshold 1; with no limit anywhere the query is empty. */
  predicate UpTriggered(usage: real, capacity: real) {
    capacity > 0.0 && Utilisation(usage, capacity) >= 0.8
  }

  /** `(1 - ...) * clamp_max(count - 1, 1) >= 0.8`; without peers the query is empty. */
  predicate DownTriggered(n: nat, usage: real, capacity: real) {
    n > 0 && capacity > 0.0 && (1.0 - Utilisation(usage, capacity)) * ClampMax(n - 1, 1) as real >= 0.8
  }

  /** The guard: with one peer the query is zero whatever the load. */
  lemma DownNeedsTwo(n: nat, usage: real, capacity: real)
    requires DownTriggered(n, usage, capacity)
    ensures n >= 2
  {
    var idle := 1.0 - Utilisation(usage, capacity);
    assert idle * 0.0 == 0.0;
    assert ClampMax(0, 1) as real == 0.0;
  }

  // ----- constant offered load -----

  /** What peers of this summed limit may use when `load` is offered: all of it, or, if
      it exceeds the limits and these throttle the peers, less, but not less than the
      limits. */
  predicate Offers(load: real, capacity: real, usage: real) {
    Usage(load, capacity) <= usage <= load
  }

  function Usage(load: real, capacity: real): real { if load <= capacity then load else capacity }

  /** Throttled usage is the most that neither the load nor the limits exceed. */
  lemma UsageIs(load: real, capacity: real, usage: real)
    ensures usage == Usage(load, capacity) <==>
            usage <= load && usage <= capacity && (usage == load || usage == capacity)
  {
  }

  lemma QuotientBounds(a: real, c: real, t: real)
    requires c > 0.0
    ensures a / c >= t <==> a >= t * c
    ensures a / c <= t <==> a <= t * c
  {
    var q := a / c;
    assert q * c == a;
    assert q > t ==> q * c > t * c;
    assert q < t ==> q * c < t * c;
  }

  /** Throttled or not, the up trigger fires exactly from 0.8 of the summed limits on. */
  lemma UpFires(load: real, capacity: real, usage: real)
    requires capacity > 0.0 && Offers(load, capacity, usage)
    ensures UpTriggered(usage, capacity) <==> load >= 0.8 * capacity
  {
    QuotientBounds(usage, capacity, 0.8);
  }

  lemma DownFires(n: nat, load: real, capacity: real, usage: real)
    requires capacity > 0.0 && Offers(load, capacity, usage)
    ensures DownTriggered(n, usage, capacity) <==> n >= 2 && load <= 0.2 * capacity
  {
    QuotientBounds(usage, capacity, 0.2);
    var idle := 1.0 - Utilisation(usage, capacity);
    if n >= 2 {
      assert idle * 1.0 == idle;
    } else if n == 1 {
      assert idle * 0.0 == 0.0;
    }
  }

  // ----- equal limits -----

  /** The summed limits of n peers. */
  function Capacity(n: nat, limit: real): real { n as real * limit }

  predicate Up(n: nat, load: real, limit: real) {
    UpTriggered(Usage(load, Capacity(n, limit)), Capacity(n, limit))
  }

  predicate Down(n: nat, load: real, limit: real) {
    DownTriggered(n, Usage(load, Capacity(n, limit)), Capacity(n, limit))
  }

  /** The load in units of one peer's limit. */
  function Demand(load: real, limit: real): real
    requires limit > 0.0
  {
    load / limit
  }

  lemma Scaled(t: real, n: nat, limit: real)
    requires limit > 0.0
    ensures t * Capacity(n, limit) == (t * n as real) * limit
    ensures n > 0 ==> Capacity(n, limit) > 0.0
  {
    assert n > 0 ==> n as real >= 1.0;
  }

  lemma UpIff(n: nat, load: real, limit: real)
    requires limit > 0.0 && load >= 0.0 && n > 0
    ensures Up(n, load, limit) <==> Demand(load, limit) >= 0.8 * n as real
  {
    Scaled(0.8, n, limit);
    var c := Capacity(n, limit);
    UpFires(load, c, Usage(load, c));
    QuotientBounds(load, limit, 0.8 * n as real);
  }

  lemma DownIff(n: nat, load: real, limit: real)
    requires limit > 0.0 && load >= 0.0 && n > 0
    ensures Down(n, load, limit) <==> n >= 2 && Demand(load, limit) <= 0.2 * n as real
  {
    Scaled(0.2, n, limit);
    var c := Capacity(n, limit);
    DownFires(n, load, c, Usage(load, c));
    QuotientBounds(load, limit, 0.2 * n as real);
  }

  // ----- convergence -----

  function Max(a: int, b: int): int { if a > b then a else b }

  function Ceiling(x: real): int { -(-x).Floor }

  /** Where the scaler comes to rest from n peers. */
  function Settle(n: nat, load: real, limit: real): int
    requires limit > 0.0
  {
    var demand := Demand(load, limit);
    if Up(n, load, limit) then (1.25 * demand).Floor + 1
    else if Down(n, load, limit) then Max(1, Ceiling(5.0 * demand) - 1)
    else n
  }

  /** One completed job, started by its trigger. */
  predicate Follows(m: nat, n: nat, load: real, limit: real)
    requires limit > 0.0
  {
    (Up(m, load, limit) && n == m + 1) || (Down(m, load, limit) && n as int == m as int - 1)
  }

  /** Peer counts as completed jobs change them. */
  ghost predicate IsRun(counts: seq<nat>, load: real, limit: real)
    requires limit > 0.0
  {
    counts != [] && forall i, j :: 0 <= i && j == i + 1 < |counts| ==> Follows(counts[i], counts[j], load, limit)
  }

  /** Scaling up never overshoots into a scale-down, nor the other way round: the
      two thresholds are a factor of four apart. */
  lemma NoReversal(m: nat, n: nat, load: real, limit: real)
    requires limit > 0.0 && load >= 0.0 && m >= 1 && Follows(m, n, load, limit)
    ensures n >= 1
    ensures Up(m, load, limit) ==> n == m + 1 && !Down(n, load, limit)
    ensures !Up(m, load, limit) ==> n as int == m as int - 1 && !Up(n, load, limit)
  {
    UpIff(m, load, limit);
    DownIff(m, load, limit);
    if n >= 1 {
      UpIff(n, load, limit);
      DownIff(n, load, limit);
    }
  }

  lemma {:induction false} UpRun(counts: seq<nat>, load: real, limit: real, k: nat)
    requires limit > 0.0 && load >= 0.0 && IsRun(counts, load, limit) && counts[0] >= 1 && k < |counts|
    requires Up(counts[0], load, limit)
    ensures counts[k] == counts[0] + k
    ensures k > 0 ==> Up(counts[k - 1], load, limit) && !Down(counts[k], load, limit)
  {
    if k > 0 {
      UpRun(counts, load, limit, k - 1);
      NoReversal(counts[k - 1], counts[k], load, limit);
    }
  }

  lemma {:induction false} DownRun(counts: seq<nat>, load: real, limit: real, k: nat)
    requires limit > 0.0 && load >= 0.0 && IsRun(counts, load, limit) && counts[0] >= 1 && k < |counts|
    requires !Up(counts[0], load, limit)
    ensures counts[k] as int == counts[0] as int - k && counts[k] >= 1
    ensures !Up(counts[k], load, limit)
    ensures k > 0 ==> Down(counts[k - 1], load, limit)
  {
    if k > 0 {
      DownRun(counts, load, limit, k - 1);
      NoReversal(counts[k - 1], counts[k], load, limit);
    }
  }

  predicate Between(a: int, b: int, c: int) { a <= b <= c || c <= b <= a }

  lemma SettleUp(first: nat, last: nat, load: real, limit: real)
    requires limit > 0.0 && load >= 0.0 && 1 <= first <= last && Up(first, load, limit)
    requires last > first ==> Up(last - 1, load, limit)
    ensures last <= Settle(first, load, limit)
    ensures last == Settle(first, load, limit) <==> !Up(last, load, limit)
  {
    UpIff(last, load, limit);
    UpIff(first, load, limit);
    if last > first {
      UpIff(last - 1, load, limit);
    }
  }

  lemma SettleDown(first: nat, last: nat, load: real, limit: real)
    requires limit > 0.0 && load >= 0.0 && 1 <= last <= first && !Up(first, load, limit)
    requires last < first ==> Down(last + 1, load, limit)
    requires Down(first, load, limit) || last == first
    ensures last >= Settle(first, load, limit)
    ensures last == Settle(first, load, limit) <==> !Down(last, load, limit)
  {
    DownIff(last, load, limit);
    DownIff(first, load, limit);
    if last < first {
      DownIff(last + 1, load, limit);
    }
  }

  /** The scaler never alternates, never needs more jobs than the distance to its
      resting point, and rests exactly there. */
  lemma Converges(counts: seq<nat>, load: real, limit: real)
    requires limit > 0.0 && load >= 0.0 && IsRun(counts, load, limit) && counts[0] >= 1
    ensures var first := counts[0] as int;
            (forall k :: 0 <= k < |counts| ==> counts[k] as int == first + k)
            || (forall k :: 0 <= k < |counts| ==> counts[k] as int == first - k)
    ensures var (rest, last) := (Settle(counts[0], load, limit), counts[|counts| - 1]);
            && Between(counts[0], last, rest)
            && (last == rest <==> !Up(last, load, limit) && !Down(last, load, limit))
  {
    var n := |counts| - 1;
    if Up(counts[0], load, limit) {
      forall k | 0 <= k < |counts|
        ensures counts[k] as int == counts[0] as int + k
      {
        UpRun(counts, load, limit, k);
      }
      UpRun(counts, load, limit, n);
      SettleUp(counts[0], counts[n], load, limit);
      NotBoth(counts[n], load, limit);
    } else {
      forall k | 0 <= k < |counts|
        ensures counts[k] as int == counts[0] as int - k
      {
        DownRun(counts, load, limit, k);
      }
      DownRun(counts, load, limit, n);
      if n > 0 {
        DownRun(counts, load, limit, 1);
      }
      SettleDown(counts[0], counts[n], load, limit);
    }
  }

  lemma NotBoth(n: nat, load: real, limit: real)
    requires limit > 0.0 && load >= 0.0 && n >= 1
    ensures !(Up(n, load, limit) && Down(n, load, limit))
  {
    UpIff(n, load, limit);
    DownIff(n, load, limit);
  }
}
