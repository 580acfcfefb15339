/** The consumer's counting loop over registration deliveries. */
module Registrations {
  import opened GoText

  newtype uint32 = x: int | 0 <= x < 0x1_0000_0000

  const WRAP := 0x1_0000_0000
  const REG_CONTENT_TYPE: Bytes := "text/plain"

  datatype Delivery = Delivery(contentType: Bytes, correlationId: Bytes, body: Bytes)

  /** Fatal is the log.Fatalln exit. */
  datatype Outcome = Fatal | Registered(count: uint32)

  function Increment(x: uint32): uint32 { if x as int == WRAP - 1 then 0 else x + 1 }

  function Subtract(x: uint32, y: uint32): uint32 {
    if x >= y then x - y else (x as int - y as int + WRAP) as uint32
  }

  predicate IsRegistration(d: Delivery) { d.contentType == REG_CONTENT_TYPE }

  predicate IsFailure(d: Delivery) { IsRegistration(d) && d.body != [] }

  predicate IsSuccess(d: Delivery) { IsRegistration(d) && d.body == [] }

  function Count(p: Delivery -> bool, ds: seq<Delivery>): (n: nat)
    ensures n <= |ds|
  {
    if ds == [] then 0
    else Count(p, ds[..|ds| - 1]) + if p(ds[|ds| - 1]) then 1 else 0
  }

  /** The loop compares after each increment, so an expectation of zero is met only
      when the 32-bit count wraps. */
  function Target(expected: uint32): nat { if expected == 0 then WRAP else expected as int }

  /** n deliveries are the shortest prefix with `target` registrations, or all of
      them if the channel closes before that. */
  ghost predicate Consumes(ds: seq<Delivery>, target: nat, n: nat) {
    && n <= |ds|
    && (forall m :: 0 <= m < n ==> Count(IsRegistration, ds[..m]) < target)
    && (Count(IsRegistration, ds[..n]) == target || (n == |ds| && Count(IsRegistration, ds) < target))
  }

  /** A count kept in 32 bits. */
  function Low(n: nat): uint32 {
    if n < WRAP then n as uint32 else Low(n - WRAP)
  }

  lemma LowSmall(n: nat)
    ensures n < WRAP ==> Low(n) as int == n
    ensures n == WRAP ==> Low(n) == 0
  {
  }

  /** What the consumer does with the deliveries it has seen. */
  function Decide(seen: seq<Delivery>, expected: uint32): Outcome {
    var (regCount, errCount) := (Low(Count(IsRegistration, seen)), Low(Count(IsFailure, seen)));
    if errCount == expected then Fatal else Registered(Subtract(regCount, errCount))
  }

  method WaitForRegistrations(regDelivery: seq<Delivery>, expected: uint32)
    returns (consumed: nat, outcome: Outcome)
    ensures Consumes(regDelivery, Target(expected), consumed)
    ensures outcome == Decide(regDelivery[..consumed], expected)
  {
    var errCount: uint32, regCount: uint32 := 0, 0;
    consumed := 0;
    while consumed < |regDelivery|
      invariant consumed <= |regDelivery|
      invariant forall m :: 0 <= m <= consumed ==> Count(IsRegistration, regDelivery[..m]) < Target(expected)
      invariant regCount as int == Count(IsRegistration, regDelivery[..consumed])
      invariant errCount as int == Count(IsFailure, regDelivery[..consumed]) <= regCount as int
    {
      var regStatus := regDelivery[consumed];
      CountNext(regDelivery, consumed);
      consumed := consumed + 1;
      if regStatus.contentType != REG_CONTENT_TYPE {
        continue;
      }
      regCount := Increment(regCount);
      if |regStatus.body| > 0 {
        errCount := Increment(errCount);
      }
      if regCount == expected {
        LowSmall(Count(IsRegistration, regDelivery[..consumed]));
        LowSmall(Count(IsFailure, regDelivery[..consumed]));
        outcome := Leave(regDelivery[..consumed], regCount, errCount, expected);
        return;
      }
    }
    assert regDelivery[..|regDelivery|] == regDelivery;
    LowSmall(Count(IsRegistration, regDelivery));
    LowSmall(Count(IsFailure, regDelivery));
    outcome := Leave(regDelivery, regCount, errCount, expected);
  }

  method Leave(ghost seen: seq<Delivery>, regCount: uint32, errCount: uint32, expected: uint32)
    returns (outcome: Outcome)
    requires regCount == Low(Count(IsRegistration, seen)) && errCount == Low(Count(IsFailure, seen))
    ensures outcome == Decide(seen, expected)
  {
    if errCount == expected {
      return Fatal;
    }
    outcome := Registered(Subtract(regCount, errCount));
  }

  lemma CountNext(ds: seq<Delivery>, i: nat)
    requires i < |ds|
    ensures Count(IsRegistration, ds[..i + 1])
            == Count(IsRegistration, ds[..i]) + if IsRegistration(ds[i]) then 1 else 0
    ensures Count(IsFailure, ds[..i + 1]) == Count(IsFailure, ds[..i]) + if IsFailure(ds[i]) then 1 else 0
    ensures Count(IsSuccess, ds[..i + 1]) == Count(IsSuccess, ds[..i]) + if IsSuccess(ds[i]) then 1 else 0
  {
    assert ds[..i + 1][..i] == ds[..i];
  }

  lemma {:induction false} CountsAddUp(ds: seq<Delivery>)
    ensures Count(IsRegistration, ds) == Count(IsFailure, ds) + Count(IsSuccess, ds)
  {
    if ds != [] {
      CountsAddUp(ds[..|ds| - 1]);
    }
  }

  /** With a positive expectation nothing wraps: the result is the number of empty
      bodies seen, at least one when the expected number was reached; the exit is
      fatal exactly when that number was reached by failures alone. */
  lemma PositiveExpectation(ds: seq<Delivery>, expected: uint32, n: nat)
    requires expected > 0 && Consumes(ds, Target(expected), n)
    ensures var seen := ds[..n];
            && (Decide(seen, expected) == Fatal <==>
                Count(IsRegistration, seen) == expected as int && Count(IsSuccess, seen) == 0)
            && (Decide(seen, expected) != Fatal ==>
                  Decide(seen, expected).count as int == Count(IsSuccess, seen)
                  && (Count(IsRegistration, seen) == expected as int ==> Count(IsSuccess, seen) >= 1))
  {
    var seen := ds[..n];
    assert ds[..|ds|] == ds;
    CountsAddUp(seen);
    LowSmall(Count(IsRegistration, seen));
    LowSmall(Count(IsFailure, seen));
  }

  /** An expectation of zero would make a run without failures fatal. */
  lemma ZeroExpectation(ds: seq<Delivery>)
    requires Count(IsRegistration, ds) < WRAP
    ensures Decide(ds, 0) == Fatal <==> Count(IsFailure, ds) == 0
  {
    CountsAddUp(ds);
    LowSmall(Count(IsFailure, ds));
  }

  function Registrations(ds: seq<Delivery>): seq<Delivery> {
    if ds == [] then []
    else
      var d := ds[|ds| - 1];
      Registrations(ds[..|ds| - 1]) + if IsRegistration(d) then [d] else []
  }

  lemma {:induction false} RegistrationCounts(ds: seq<Delivery>)
    ensures Count(IsRegistration, Registrations(ds)) == Count(IsRegistration, ds)
    ensures Count(IsFailure, Registrations(ds)) == Count(IsFailure, ds)
  {
    if ds != [] {
      var n := |ds| - 1;
      var kept := Registrations(ds[..n]);
      RegistrationCounts(ds[..n]);
      assert (kept + [ds[n]])[..|kept|] == kept && kept + [] == kept;
    }
  }

  /** Foreign content types have no effect. */
  lemma ForeignIgnored(ds: seq<Delivery>, expected: uint32)
    ensures Decide(Registrations(ds), expected) == Decide(ds, expected)
  {
    RegistrationCounts(ds);
  }
}
