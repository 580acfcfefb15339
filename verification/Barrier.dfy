/** The start barrier: N workers and one consumer around a message broker, as
    interleaved steps.  Every lemma about `Exec(n, expected, steps)` holds for every
    interleaving, since a step that is not enabled leaves the state alone. */
module Barrier {
  import opened GoText
  import opened Registrations

  /** What ended a worker's wait: Start from its queue, its timeout, or the closing of
      its delivery channel, from which a receive yields at once. */
  datatype Cause = Command | Timeout | Closed

  /** Where a worker is in Register.  Left covers error returns, the worker whose
      registration failed, and crashes; Started is a nil return, after which the
      benchmark begins.  Leaving Register closes the channel, and with it the
      worker's auto-delete start queue. */
  datatype Phase =
    | Fresh
    | Declared
    | Bound
    | Consuming
    | Initialised
    | Waiting
    | Started(cause: Cause)
    | Left

  datatype ConsumerPhase = Counting | Announcing | Announced | Stopped

  /** A delivery with the worker that published it, if one did. */
  datatype Sent = Sent(from: Option<nat>, delivery: Delivery)

  /** `inits` (InitFunc results so far), `closedEarly` and `woken` (queues bound at
      the broadcast) are history: no step depends on the last two. */
  datatype State = State(
    workers: seq<Phase>,
    startQueues: map<nat, nat>,
    queue: seq<Sent>,
    seen: seq<Sent>,
    consumer: ConsumerPhase,
    inits: map<nat, Option<Bytes>>,
    closedEarly: bool,
    woken: set<nat>)

  datatype Step =
    | Declare(w: nat)
    | Bind(w: nat)
    | Consume(w: nat)
    | Init(w: nat, error: Option<Bytes>)
    | Publish(w: nat, correlationId: Bytes)
    | TakeStart(w: nat)
    | TimeOut(w: nat)
    | CloseStart(w: nat)
    | Leave(w: nat)
    | Foreign(delivery: Delivery)
    | Deliver
    | CloseDeliveries
    | Announce
    | FailToAnnounce

  function Initial(n: nat): State {
    State(seq(n, _ => Fresh), map[], [], [], Counting, map[], false, {})
  }

  function At(s: State, w: nat): Option<Phase> {
    if w < |s.workers| then Some(s.workers[w]) else None
  }

  function Deliveries(sent: seq<Sent>): seq<Delivery> {
    seq(|sent|, i requires 0 <= i < |sent| => sent[i].delivery)
  }

  /** errorText: empty for success, the error's text otherwise. */
  function ErrorText(error: Option<Bytes>): Bytes {
    match error case None => [] case Some(text) => text
  }

  /** The consumer leaves its loop: fatal exit, or on to the broadcast. */
  function LeaveLoop(s: State, expected: uint32): State {
    s.(consumer := if Decide(Deliveries(s.seen), expected) == Fatal then Stopped else Announcing)
  }

  /** The delivery that makes the count reach its target. */
  predicate Reaches(s: State, expected: uint32) {
    && s.consumer == Counting && s.queue != [] && IsRegistration(s.queue[0].delivery)
    && Count(IsRegistration, Deliveries(s.seen + [s.queue[0]])) == Target(expected)
  }

  function Take(s: State): State
    requires s.queue != []
  {
    s.(seen := s.seen + [s.queue[0]], queue := s.queue[1..])
  }

  function Do(s: State, expected: uint32, step: Step): State {
    match step
    case Declare(w) =>
      if At(s, w) == Some(Fresh) then s.(workers := s.workers[w := Declared]) else s
    case Bind(w) =>
      if At(s, w) == Some(Declared)
      then s.(workers := s.workers[w := Bound], startQueues := s.startQueues[w := 0]) else s
    case Consume(w) =>
      if At(s, w) == Some(Bound) then s.(workers := s.workers[w := Consuming]) else s
    case Init(w, error) =>
      if At(s, w) == Some(Consuming)
      then s.(workers := s.workers[w := Initialised], inits := s.inits[w := error]) else s
    case Publish(w, correlationId) =>
      if At(s, w) == Some(Initialised) && w in s.inits then
        var error := s.inits[w];
        var message := Sent(Some(w), Delivery(REG_CONTENT_TYPE, correlationId, ErrorText(error)));
        if error == None then s.(workers := s.workers[w := Waiting], queue := s.queue + [message])
        else s.(workers := s.workers[w := Left], queue := s.queue + [message],
                startQueues := s.startQueues - {w})
      else s
    case TakeStart(w) =>
      if At(s, w) == Some(Waiting) && w in s.startQueues && s.startQueues[w] > 0
      then s.(workers := s.workers[w := Started(Command)], startQueues := s.startQueues - {w}) else s
    case TimeOut(w) =>
      if At(s, w) == Some(Waiting)
      then s.(workers := s.workers[w := Started(Timeout)], startQueues := s.startQueues - {w}) else s
    case CloseStart(w) =>
      if At(s, w) == Some(Waiting)
      then s.(workers := s.workers[w := Started(Closed)], startQueues := s.startQueues - {w}) else s
    case Leave(w) =>
      if w < |s.workers| && !s.workers[w].Started?
      then s.(workers := s.workers[w := Left], startQueues := s.startQueues - {w}) else s
    case Foreign(delivery) =>
      if IsRegistration(delivery) then s else s.(queue := s.queue + [Sent(None, delivery)])
    case Deliver =>
      if s.consumer == Counting && s.queue != [] then
        if Reaches(s, expected) then LeaveLoop(Take(s), expected) else Take(s)
      else s
    case CloseDeliveries =>
      if s.consumer == Counting then LeaveLoop(s.(closedEarly := true), expected) else s
    case Announce =>
      if s.consumer == Announcing
      then s.(consumer := Announced, woken := s.startQueues.Keys,
              startQueues := map w | w in s.startQueues :: s.startQueues[w] + 1) else s
    case FailToAnnounce =>
      if s.consumer == Announcing then s.(consumer := Stopped) else s
  }

  function Exec(n: nat, expected: uint32, steps: seq<Step>): State {
    if steps == [] then Initial(n)
    else Do(Exec(n, expected, steps[..|steps| - 1]), expected, steps[|steps| - 1])
  }

  // ----- invariants -----

  function Sends(s: State): seq<Sent> { s.seen + s.queue }

  predicate HasQueue(p: Phase) { p == Bound || p == Consuming || p == Initialised || p == Waiting }

  predicate PastInit(p: Phase) { p == Initialised || p == Waiting || p.Started? || p == Left }

  /** A start queue exists exactly from Bind to the end of Register; only a worker
      whose InitFunc returned without error waits or starts. */
  predicate WorkerOk(s: State, w: nat) {
    if w < |s.workers| then
      var p := s.workers[w];
      && (w in s.startQueues <==> HasQueue(p))
      && (w in s.inits ==> PastInit(p))
      && (p == Initialised ==> w in s.inits)
      && (p == Waiting || p.Started? ==> w in s.inits && s.inits[w] == None)
    else w !in s.startQueues && w !in s.inits
  }

  ghost predicate WorkersOk(s: State) { forall w: nat :: WorkerOk(s, w) }

  predicate FromPublished(s: State, m: Sent) {
    match m.from
    case None => !IsRegistration(m.delivery)
    case Some(w) =>
      && w in s.inits && w < |s.workers| && s.workers[w] != Initialised
      && IsRegistration(m.delivery) && m.delivery.body == ErrorText(s.inits[w])
  }

  /** Messages: each worker sent at most one, after its InitFunc, with its result. */
  ghost predicate MessagesOk(s: State) {
    && (forall i :: 0 <= i < |Sends(s)| ==> FromPublished(s, Sends(s)[i]))
    && (forall i, j :: 0 <= i < j < |Sends(s)| && Sends(s)[i].from.Some? ==>
          Sends(s)[i].from != Sends(s)[j].from)
  }

  /** The consumer leaves its loop with the expected count or a closed channel. */
  ghost predicate ConsumerOk(s: State, expected: uint32) {
    var registered := Count(IsRegistration, Deliveries(s.seen));
    && registered <= Target(expected)
    && (s.consumer == Counting ==> registered < Target(expected) && !s.closedEarly)
    && (s.consumer != Counting && !s.closedEarly ==> registered == Target(expected))
    && (s.closedEarly ==> registered < Target(expected))
  }

  /** A fatal verdict ends the consumer. */
  predicate Cleared(s: State, expected: uint32) {
    s.consumer == Announcing || s.consumer == Announced ==> Decide(Deliveries(s.seen), expected) != Fatal
  }

  /** The broadcast reaches exactly the queues bound at that moment, once. */
  predicate WakeUpOk(s: State, w: nat) {
    && (w in s.woken ==> s.consumer == Announced && w < |s.workers|
                         && s.workers[w] != Fresh && s.workers[w] != Declared)
    && (w in s.startQueues ==> (s.startQueues[w] > 0 <==> w in s.woken))
    && (At(s, w) == Some(Started(Command)) ==> w in s.woken)
  }

  ghost predicate WakeUpsOk(s: State) { forall w: nat :: WakeUpOk(s, w) }

  predicate Excused(s: State, w: nat) {
    w in s.woken ||
    match At(s, w)
    case Some(Left) => true
    case Some(Started(cause)) => cause != Command
    case _ => false
  }

  /** Every worker whose message was counted before the broadcast was woken or is gone. */
  ghost predicate NobodyMissed(s: State) {
    s.consumer == Announced ==>
      forall i :: 0 <= i < |s.seen| && s.seen[i].from.Some? ==> Excused(s, s.seen[i].from.value)
  }

  ghost predicate Inv(s: State, n: nat, expected: uint32) {
    && |s.workers| == n
    && WorkersOk(s) && MessagesOk(s) && ConsumerOk(s, expected) && Cleared(s, expected)
    && WakeUpsOk(s) && NobodyMissed(s)
  }

  predicate StepOf(step: Step, w: nat) {
    match step
    case Foreign(_) => false
    case Deliver => false
    case CloseDeliveries => false
    case Announce => false
    case FailToAnnounce => false
    case _ => step.w == w
  }

  lemma OtherWorkerStep(s: State, expected: uint32, step: Step, w: nat)
    requires WorkerOk(s, w) && !StepOf(step, w)
    ensures WorkerOk(Do(s, expected, step), w)
  {
  }

  lemma OwnWorkerStep(s: State, expected: uint32, step: Step, w: nat)
    requires WorkerOk(s, w) && StepOf(step, w)
    ensures WorkerOk(Do(s, expected, step), w)
  {
  }

  lemma WorkerStep(s: State, expected: uint32, step: Step, w: nat)
    requires WorkerOk(s, w)
    ensures WorkerOk(Do(s, expected, step), w)
  {
    if StepOf(step, w) {
      OwnWorkerStep(s, expected, step, w);
    } else {
      OtherWorkerStep(s, expected, step, w);
    }
  }

  lemma FromPublishedStep(s: State, expected: uint32, step: Step, m: Sent)
    requires m.from.Some? ==> WorkerOk(s, m.from.value)
    requires FromPublished(s, m)
    ensures FromPublished(Do(s, expected, step), m)
  {
  }

  lemma PublishSends(s: State, expected: uint32, w: nat, correlationId: Bytes) returns (added: seq<Sent>)
    ensures var s' := Do(s, expected, Publish(w, correlationId));
            && Sends(s') == Sends(s) + added && |added| <= 1
            && (added != [] ==> FromPublished(s', added[0]) && added[0].from == Some(w)
                                && At(s, w) == Some(Initialised))
  {
    var s' := Do(s, expected, Publish(w, correlationId));
    if At(s, w) == Some(Initialised) && w in s.inits {
      added := [Sent(Some(w), Delivery(REG_CONTENT_TYPE, correlationId, ErrorText(s.inits[w])))];
      assert s'.queue == s.queue + added;
    } else {
      added := [];
    }
  }

  lemma QuietSends(s: State, expected: uint32, step: Step)
    requires !step.Publish? && !step.Foreign?
    ensures Sends(Do(s, expected, step)) == Sends(s)
  {
    if step.Deliver? {
      assert s.queue != [] ==> [s.queue[0]] + s.queue[1..] == s.queue;
    }
  }

  /** One step sends nothing or appends one message. */
  lemma SendsStep(s: State, expected: uint32, step: Step) returns (added: seq<Sent>)
    ensures var s' := Do(s, expected, step);
            && Sends(s') == Sends(s) + added && |added| <= 1
            && (added != [] ==>
                  FromPublished(s', added[0])
                  && (added[0].from.Some? ==> At(s, added[0].from.value) == Some(Initialised)))
  {
    added := [];
    if step.Publish? {
      added := PublishSends(s, expected, step.w, step.correlationId);
    } else if step.Foreign? {
      added := if IsRegistration(step.delivery) then [] else [Sent(None, step.delivery)];
      assert Do(s, expected, step).queue == s.queue + added;
    } else {
      QuietSends(s, expected, step);
    }
  }

  lemma MessagesStep(s: State, s': State, added: seq<Sent>)
    requires MessagesOk(s) && Sends(s') == Sends(s) + added && |added| <= 1
    requires forall i :: 0 <= i < |Sends(s)| ==> FromPublished(s', Sends(s)[i])
    requires added != [] ==> FromPublished(s', added[0])
    requires added != [] && added[0].from.Some? ==> At(s, added[0].from.value) == Some(Initialised)
    ensures MessagesOk(s')
  {
    forall i, j | 0 <= i < j < |Sends(s')| && Sends(s')[i].from.Some?
      ensures Sends(s')[i].from != Sends(s')[j].from
    {
      assert FromPublished(s, Sends(s)[i]);
    }
  }

  lemma SeenStep(s: State, d: Sent)
    ensures Deliveries(s.seen + [d]) == Deliveries(s.seen) + [d.delivery]
    ensures Count(IsRegistration, Deliveries(s.seen + [d]))
            == Count(IsRegistration, Deliveries(s.seen)) + if IsRegistration(d.delivery) then 1 else 0
  {
    var ds := Deliveries(s.seen);
    assert Deliveries(s.seen + [d]) == ds + [d.delivery];
    assert (ds + [d.delivery])[..|ds|] == ds;
  }

  lemma LeaveLoopOk(s: State, expected: uint32)
    requires Count(IsRegistration, Deliveries(s.seen)) <= Target(expected)
    requires s.closedEarly <==> Count(IsRegistration, Deliveries(s.seen)) < Target(expected)
    ensures ConsumerOk(LeaveLoop(s, expected), expected)
  {
  }

  lemma TakeOk(s: State, expected: uint32)
    requires ConsumerOk(s, expected) && s.consumer == Counting && s.queue != []
    ensures !Reaches(s, expected) ==> ConsumerOk(Take(s), expected)
    ensures Reaches(s, expected) ==> ConsumerOk(LeaveLoop(Take(s), expected), expected)
  {
    SeenStep(s, s.queue[0]);
    if Reaches(s, expected) {
      LeaveLoopOk(Take(s), expected);
    }
  }

  lemma ConsumerStep(s: State, expected: uint32, step: Step)
    requires ConsumerOk(s, expected)
    ensures ConsumerOk(Do(s, expected, step), expected)
  {
    if step.Deliver? && s.consumer == Counting && s.queue != [] {
      TakeOk(s, expected);
    } else if step.CloseDeliveries? && s.consumer == Counting {
      LeaveLoopOk(s.(closedEarly := true), expected);
    } else {
      var s' := Do(s, expected, step);
      assert s'.seen == s.seen && s'.closedEarly == s.closedEarly;
      assert s'.consumer == s.consumer || (s.consumer == Announcing && s'.consumer in {Announced, Stopped});
    }
  }

  lemma ClearedStep(s: State, expected: uint32, step: Step)
    requires Cleared(s, expected)
    ensures Cleared(Do(s, expected, step), expected)
  {
    var s' := Do(s, expected, step);
    if s'.consumer != Counting && s.consumer != Counting {
      assert s'.seen == s.seen;
    }
  }

  lemma WakeUpStep(s: State, expected: uint32, step: Step, w: nat)
    requires WorkerOk(s, w) && WakeUpOk(s, w)
    ensures WakeUpOk(Do(s, expected, step), w)
  {
  }

  lemma ExcusedStep(s: State, expected: uint32, step: Step, m: Sent)
    requires m.from.Some? && WorkerOk(s, m.from.value) && WakeUpOk(s, m.from.value)
    requires FromPublished(s, m)
    requires s.consumer == Announced ==> Excused(s, m.from.value)
    ensures var s' := Do(s, expected, step);
            s'.consumer == Announced ==> s'.seen == s.seen && Excused(s', m.from.value)
  {
  }

  lemma StepMessages(s: State, expected: uint32, step: Step)
    requires WorkersOk(s) && MessagesOk(s)
    ensures MessagesOk(Do(s, expected, step))
  {
    var s' := Do(s, expected, step);
    forall i | 0 <= i < |Sends(s)|
      ensures FromPublished(s', Sends(s)[i])
    {
      FromPublishedStep(s, expected, step, Sends(s)[i]);
    }
    var added := SendsStep(s, expected, step);
    MessagesStep(s, s', added);
  }

  lemma StepWorkers(s: State, expected: uint32, step: Step)
    requires WorkersOk(s) && WakeUpsOk(s)
    ensures var s' := Do(s, expected, step);
            |s'.workers| == |s.workers| && WorkersOk(s') && WakeUpsOk(s')
  {
    forall w: nat
      ensures WorkerOk(Do(s, expected, step), w) && WakeUpOk(Do(s, expected, step), w)
    {
      WorkerStep(s, expected, step, w);
      WakeUpStep(s, expected, step, w);
    }
  }

  lemma StepKeepsInv(s: State, n: nat, expected: uint32, step: Step)
    requires Inv(s, n, expected)
    ensures Inv(Do(s, expected, step), n, expected)
  {
    StepWorkers(s, expected, step);
    StepMessages(s, expected, step);
    ConsumerStep(s, expected, step);
    ClearedStep(s, expected, step);
    StepMissesNobody(s, n, expected, step);
  }

  lemma StepMissesNobody(s: State, n: nat, expected: uint32, step: Step)
    requires Inv(s, n, expected)
    ensures NobodyMissed(Do(s, expected, step))
  {
    var s' := Do(s, expected, step);
    if s'.consumer == Announced {
      assert s'.seen == s.seen;
      forall i | 0 <= i < |s.seen| && s.seen[i].from.Some?
        ensures Excused(s', s.seen[i].from.value)
      {
        assert Sends(s)[i] == s.seen[i];
        ExcusedStep(s, expected, step, s.seen[i]);
      }
    }
  }

  /** Every reachable state satisfies the invariant. */
  lemma {:induction false} Invariant(n: nat, expected: uint32, steps: seq<Step>)
    ensures Inv(Exec(n, expected, steps), n, expected)
  {
    if steps == [] {
      assert Deliveries([]) == [];
    } else {
      var init := steps[..|steps| - 1];
      Invariant(n, expected, init);
      StepKeepsInv(Exec(n, expected, init), n, expected, steps[|steps| - 1]);
    }
  }

  // ----- the theorems -----

  /** No lost wake-up: once Start is broadcast, every worker whose registration was
      counted as successful has Start in its queue, has taken it, or has left the
      wait by its timeout, a closed channel or dying. */
  lemma NoLostWakeUp(n: nat, expected: uint32, steps: seq<Step>, i: nat, w: nat)
    requires var s := Exec(n, expected, steps);
             s.consumer == Announced && i < |s.seen|
             && s.seen[i].from == Some(w) && IsSuccess(s.seen[i].delivery)
    ensures var s := Exec(n, expected, steps);
            match At(s, w)
            case Some(Waiting) => w in s.startQueues && s.startQueues[w] > 0
            case Some(Started(_)) => true
            case Some(Left) => true
            case _ => false
  {
    Invariant(n, expected, steps);
    var s := Exec(n, expected, steps);
    assert Sends(s)[i] == s.seen[i];
    assert WorkerOk(s, w) && WakeUpOk(s, w);
  }

  /** Start is taken only after the broadcast, which needs the expected number of
      registrations or, with fewer of them, a delivery channel that closed early; and
      no fatal verdict. */
  lemma StartNeedsRegistrations(n: nat, expected: uint32, steps: seq<Step>, w: nat)
    requires At(Exec(n, expected, steps), w) == Some(Started(Command))
    ensures var s := Exec(n, expected, steps);
            && s.consumer == Announced && w in s.woken
            && (if s.closedEarly then Count(IsRegistration, Deliveries(s.seen)) < Target(expected)
                else Count(IsRegistration, Deliveries(s.seen)) == Target(expected))
            && Decide(Deliveries(s.seen), expected) != Fatal
  {
    Invariant(n, expected, steps);
    assert WakeUpOk(Exec(n, expected, steps), w);
  }

  /** In every reachable state, a step starts a worker before the broadcast exactly if
      the worker waits and its timeout fires or its start channel closes: the receive
      does not tell a closed channel from a Start. */
  lemma StartsBeforeBroadcast(n: nat, expected: uint32, steps: seq<Step>, step: Step, w: nat)
    requires Exec(n, expected, steps).consumer != Announced && w < n
    ensures var (before, after) := (At(Exec(n, expected, steps), w), At(Exec(n, expected, steps + [step]), w));
            (after.Some? && after.value.Started? && after != before) <==>
            before == Some(Waiting) && (step == TimeOut(w) || step == CloseStart(w))
  {
    Invariant(n, expected, steps);
    var s := Exec(n, expected, steps);
    assert (steps + [step])[..|steps|] == steps;
    assert WorkerOk(s, w) && WakeUpOk(s, w);
  }

  /** In every reachable state, before and after the broadcast, a worker is started
      exactly while it waits: by its timeout at any time, by its channel closing at any
      time, and by taking Start if the broadcast has reached it. */
  lemma StartsIff(n: nat, expected: uint32, steps: seq<Step>, step: Step, w: nat, c: Cause)
    requires w < n
    ensures var s := Exec(n, expected, steps);
            var (before, after) := (At(s, w), At(Exec(n, expected, steps + [step]), w));
            after == Some(Started(c)) && before != after <==>
            && before == Some(Waiting)
            && match c
               case Command => step == TakeStart(w) && w in s.woken
               case Timeout => step == TimeOut(w)
               case Closed => step == CloseStart(w)
  {
    Invariant(n, expected, steps);
    var s := Exec(n, expected, steps);
    var run := Then(n, expected, steps, step);
    assert WorkerOk(s, w) && WakeUpOk(s, w);
    StartStep(s, expected, step, w, c);
  }

  lemma StartStep(s: State, expected: uint32, step: Step, w: nat, c: Cause)
    requires w < |s.workers| && WorkerOk(s, w) && WakeUpOk(s, w)
    ensures var (before, after) := (At(s, w), At(Do(s, expected, step), w));
            after == Some(Started(c)) && before != after <==>
            && before == Some(Waiting)
            && match c
               case Command => step == TakeStart(w) && w in s.woken
               case Timeout => step == TimeOut(w)
               case Closed => step == CloseStart(w)
  {
  }

  /** A worker may die at any time before it starts, and then never starts. */
  lemma {:induction false} DeadStaysDead(n: nat, expected: uint32, steps: seq<Step>, w: nat, more: seq<Step>)
    requires w < n
    requires var before := At(Exec(n, expected, steps), w); before.Some? && !before.value.Started?
    ensures At(Exec(n, expected, steps + [Leave(w)] + more), w) == Some(Left)
  {
    Invariant(n, expected, steps);
    var run := Then(n, expected, steps, Leave(w));
    if more == [] {
      assert run + more == run;
    } else {
      var k := |more| - 1;
      DeadStaysDead(n, expected, steps, w, more[..k]);
      var run' := Then(n, expected, run + more[..k], more[k]);
      assert run' == run + more;
      LeftStays(Exec(n, expected, run + more[..k]), expected, more[k], w);
    }
  }

  lemma LeftStays(s: State, expected: uint32, step: Step, w: nat)
    requires At(s, w) == Some(Left)
    ensures At(Do(s, expected, step), w) == Some(Left)
  {
  }

  /** The whole-run form: a worker that has started while no Start was broadcast was
      started by its timeout or by a closed channel. */
  lemma StartedBeforeBroadcast(n: nat, expected: uint32, steps: seq<Step>, w: nat)
    requires Exec(n, expected, steps).consumer != Announced
    ensures At(Exec(n, expected, steps), w) != Some(Started(Command))
  {
    Invariant(n, expected, steps);
    assert WakeUpOk(Exec(n, expected, steps), w);
  }

  /** Worker w goes through Register up to its registration. */
  function Registers(w: nat, error: Option<Bytes>, id: Bytes): seq<Step> {
    [Declare(w), Bind(w), Consume(w), Init(w, error), Publish(w, id)]
  }

  lemma Then(n: nat, expected: uint32, steps: seq<Step>, step: Step) returns (steps': seq<Step>)
    ensures steps' == steps + [step]
    ensures Exec(n, expected, steps') == Do(Exec(n, expected, steps), expected, step)
  {
    steps' := steps + [step];
    assert steps'[..|steps|] == steps;
  }

  lemma RegisteredWaits(n: nat, expected: uint32, correlationId: Bytes)
    requires n > 0
    ensures var s := Exec(n, expected, Registers(0, None, correlationId));
            At(s, 0) == Some(Waiting) && s.consumer == Counting && s.seen == [] && 0 in s.startQueues
  {
    var run := Then(n, expected, [], Declare(0));
    run := Then(n, expected, run, Bind(0));
    run := Then(n, expected, run, Consume(0));
    run := Then(n, expected, run, Init(0, None));
    run := Then(n, expected, run, Publish(0, correlationId));
    assert run == Registers(0, None, correlationId);
  }

  /** A run in which a worker begins its benchmark although nothing was counted, no
      Start was sent and no timeout fired: its channel closed while it waited. */
  lemma ClosedChannelStarts(n: nat, expected: uint32, correlationId: Bytes)
    requires n > 0
    ensures var s := Exec(n, expected, Registers(0, None, correlationId) + [CloseStart(0)]);
            At(s, 0) == Some(Started(Closed)) && s.consumer == Counting && s.seen == []
  {
    RegisteredWaits(n, expected, correlationId);
    var run := Then(n, expected, Registers(0, None, correlationId), CloseStart(0));
  }

  /** A run in which the broker cancels the consumer before it has counted anything: the
      broadcast goes out all the same, and the worker that waits starts by command. */
  lemma EarlyEndBroadcasts(n: nat, expected: uint32, correlationId: Bytes)
    requires n > 0 && expected > 0
    ensures var s := Exec(n, expected, Registers(0, None, correlationId) + [CloseDeliveries, Announce, TakeStart(0)]);
            && s.consumer == Announced && s.closedEarly && s.seen == []
            && At(s, 0) == Some(Started(Command))
  {
    RegisteredWaits(n, expected, correlationId);
    var run := Then(n, expected, Registers(0, None, correlationId), CloseDeliveries);
    assert Low(0) == 0 && Deliveries([]) == [];
    run := Then(n, expected, run, Announce);
    run := Then(n, expected, run, TakeStart(0));
    assert run == Registers(0, None, correlationId) + [CloseDeliveries, Announce, TakeStart(0)];
  }

  /** A worker whose InitFunc failed never starts, for whatever cause. */
  lemma FailedInitNeverStarts(n: nat, expected: uint32, steps: seq<Step>, w: nat)
    requires var s := Exec(n, expected, steps); w in s.inits && s.inits[w].Some?
    ensures forall c :: At(Exec(n, expected, steps), w) != Some(Started(c))
  {
    Invariant(n, expected, steps);
    assert WorkerOk(Exec(n, expected, steps), w);
  }

  /** The consumer judges by the error text alone: a registration counts as
      successful exactly when InitFunc succeeded or its error text is empty. */
  lemma CountedSuccessful(n: nat, expected: uint32, steps: seq<Step>, i: nat, w: nat)
    requires var s := Exec(n, expected, steps); i < |s.seen| && s.seen[i].from == Some(w)
    ensures var s := Exec(n, expected, steps);
            w in s.inits && (IsSuccess(s.seen[i].delivery) <==> s.inits[w] == None || s.inits[w] == Some([]))
  {
    Invariant(n, expected, steps);
    assert Sends(Exec(n, expected, steps))[i] == Exec(n, expected, steps).seen[i];
  }

  ghost function Senders(sent: seq<Sent>): set<nat> {
    set i | 0 <= i < |sent| && sent[i].from.Some? :: sent[i].from.value
  }

  ghost predicate DistinctSenders(sent: seq<Sent>) {
    && (forall i :: 0 <= i < |sent| ==> (sent[i].from.Some? <==> IsRegistration(sent[i].delivery)))
    && (forall i, j :: 0 <= i < j < |sent| && sent[i].from.Some? ==> sent[i].from != sent[j].from)
  }

  lemma {:induction false} CountSenders(sent: seq<Sent>)
    requires DistinctSenders(sent)
    ensures |Senders(sent)| == Count(IsRegistration, Deliveries(sent))
  {
    if sent != [] {
      var k := |sent| - 1;
      var init, last := sent[..k], sent[k];
      CountSenders(init);
      assert Deliveries(sent)[..k] == Deliveries(init);
      assert Deliveries(sent)[k] == last.delivery;
      if last.from.Some? {
        assert Senders(sent) == Senders(init) + {last.from.value};
        assert last.from.value !in Senders(init);
      } else {
        assert Senders(sent) == Senders(init);
      }
    }
  }

  lemma SeenSenders(n: nat, expected: uint32, steps: seq<Step>)
    ensures var s := Exec(n, expected, steps);
            DistinctSenders(s.seen) && forall w :: w in Senders(s.seen) ==> w in s.inits && w < n
  {
    Invariant(n, expected, steps);
    var s := Exec(n, expected, steps);
    assert forall i :: 0 <= i < |s.seen| ==> s.seen[i] == Sends(s)[i];
  }

  lemma {:induction false} Covers(a: set<nat>, n: nat)
    requires |a| == n && forall w :: w in a ==> w < n
    ensures forall w :: 0 <= w < n ==> w in a
  {
    if n > 0 {
      var m := n - 1;
      if m in a {
        Covers(a - {m}, m);
      } else {
        Bounded(a, m);
      }
    }
  }

  lemma {:induction false} Bounded(a: set<nat>, n: nat)
    requires forall w :: w in a ==> w < n
    ensures |a| <= n
  {
    if n == 0 {
      assert a == {};
    } else {
      Bounded(a - {n - 1}, n - 1);
    }
  }

  /** With as many workers as registrations expected, and deliveries not cut short,
      every worker's InitFunc has returned before any benchmark that Start begins;
      timeouts and closed channels begin theirs regardless. */
  lemma EveryoneInitialised(n: nat, expected: uint32, steps: seq<Step>, w: nat)
    requires expected > 0 && n == expected as int && !Exec(n, expected, steps).closedEarly
    requires At(Exec(n, expected, steps), w) == Some(Started(Command))
    ensures forall v :: 0 <= v < n ==> v in Exec(n, expected, steps).inits
  {
    StartNeedsRegistrations(n, expected, steps, w);
    SeenSenders(n, expected, steps);
    var s := Exec(n, expected, steps);
    CountSenders(s.seen);
    Covers(Senders(s.seen), n);
  }

  lemma {:induction false} AllFailures(ds: seq<Delivery>)
    requires Count(IsSuccess, ds) == 0
    ensures forall i :: 0 <= i < |ds| && IsRegistration(ds[i]) ==> ds[i].body != []
  {
    if ds != [] {
      AllFailures(ds[..|ds| - 1]);
    }
  }

  /** The fatal exit wakes nobody, and is taken only when every worker's InitFunc
      failed. */
  lemma FatalMeansAllFailed(n: nat, expected: uint32, steps: seq<Step>)
    requires expected > 0 && n == expected as int && !Exec(n, expected, steps).closedEarly
    requires var s := Exec(n, expected, steps);
             s.consumer == Stopped && Decide(Deliveries(s.seen), expected) == Fatal
    ensures var s := Exec(n, expected, steps);
            && s.woken == {}
            && (forall v :: 0 <= v < n ==> v in s.inits && s.inits[v].Some?)
  {
    Invariant(n, expected, steps);
    SeenSenders(n, expected, steps);
    var s := Exec(n, expected, steps);
    forall w: nat
      ensures w !in s.woken
    {
      assert WakeUpOk(s, w);
    }
    CountSenders(s.seen);
    Covers(Senders(s.seen), n);
    FatalCounts(Deliveries(s.seen), expected);
    AllFailures(Deliveries(s.seen));
    forall v | 0 <= v < n
      ensures v in s.inits && s.inits[v].Some?
    {
      SenderFailed(s, v);
    }
  }

  lemma SenderFailed(s: State, v: nat)
    requires MessagesOk(s) && v in Senders(s.seen)
    requires var ds := Deliveries(s.seen); forall i :: 0 <= i < |ds| && IsRegistration(ds[i]) ==> ds[i].body != []
    ensures v in s.inits && s.inits[v].Some?
  {
    var i :| 0 <= i < |s.seen| && s.seen[i].from.Some? && s.seen[i].from.value == v;
    assert Sends(s)[i] == s.seen[i];
    assert FromPublished(s, Sends(s)[i]);
    assert Deliveries(s.seen)[i].body != [];
  }

  lemma FatalCounts(ds: seq<Delivery>, expected: uint32)
    requires expected > 0 && Count(IsRegistration, ds) == expected as int && Decide(ds, expected) == Fatal
    ensures Count(IsSuccess, ds) == 0
  {
    CountsAddUp(ds);
    LowSmall(Count(IsFailure, ds));
  }

  /** A worker with no queue at the broadcast never gets Start, however the run goes
      on: if it starts, then by its timeout or a closed channel. */
  lemma LateWorkerNeverGetsStart(n: nat, expected: uint32, steps: seq<Step>, more: seq<Step>, w: nat)
    requires Exec(n, expected, steps).consumer == Announced && w !in Exec(n, expected, steps).woken
    ensures At(Exec(n, expected, steps + more), w) != Some(Started(Command))
  {
    WokenIsFinal(n, expected, steps, more);
    Invariant(n, expected, steps + more);
    assert WakeUpOk(Exec(n, expected, steps + more), w);
  }

  lemma AnnouncedStays(s: State, expected: uint32, step: Step)
    requires s.consumer == Announced
    ensures Do(s, expected, step).consumer == Announced && Do(s, expected, step).woken == s.woken
  {
  }

  lemma {:induction false} WokenIsFinal(n: nat, expected: uint32, steps: seq<Step>, more: seq<Step>)
    requires Exec(n, expected, steps).consumer == Announced
    ensures Exec(n, expected, steps + more).consumer == Announced
    ensures Exec(n, expected, steps + more).woken == Exec(n, expected, steps).woken
  {
    hide Do;
    if more == [] {
      assert steps + more == steps;
    } else {
      var init := more[..|more| - 1];
      WokenIsFinal(n, expected, steps, init);
      var run := Then(n, expected, steps + init, more[|more| - 1]);
      assert run == steps + more;
      AnnouncedStays(Exec(n, expected, steps + init), expected, more[|more| - 1]);
    }
  }

  /** The state machine's consumer does what the counting loop does. */
  lemma ConsumerRunsTheLoop(n: nat, expected: uint32, steps: seq<Step>)
    ensures var s := Exec(n, expected, steps);
            s.consumer != Counting ==> Consumes(Deliveries(s.seen), Target(expected), |s.seen|)
  {
    Invariant(n, expected, steps);
    PrefixesBelow(n, expected, steps);
    var ds := Deliveries(Exec(n, expected, steps).seen);
    assert ds[..|ds|] == ds;
  }

  ghost predicate Below(ds: seq<Delivery>, target: nat) {
    forall m :: 0 <= m < |ds| ==> Count(IsRegistration, ds[..m]) < target
  }

  lemma BelowGrows(ds: seq<Delivery>, d: Delivery, target: nat)
    requires Below(ds, target) && Count(IsRegistration, ds) < target
    ensures Below(ds + [d], target)
  {
    forall m | 0 <= m < |ds| + 1
      ensures Count(IsRegistration, (ds + [d])[..m]) < target
    {
      assert (ds + [d])[..m] == ds[..m];
      assert ds[..|ds|] == ds;
    }
  }

  lemma {:induction false} PrefixesBelow(n: nat, expected: uint32, steps: seq<Step>)
    ensures Below(Deliveries(Exec(n, expected, steps).seen), Target(expected))
  {
    if steps != [] {
      var init := steps[..|steps| - 1];
      PrefixesBelow(n, expected, init);
      Invariant(n, expected, init);
      StepBelow(Exec(n, expected, init), n, expected, steps[|steps| - 1]);
    }
  }

  lemma StepBelow(s: State, n: nat, expected: uint32, step: Step)
    requires Inv(s, n, expected) && Below(Deliveries(s.seen), Target(expected))
    ensures Below(Deliveries(Do(s, expected, step).seen), Target(expected))
  {
    SeenGrows(s, expected, step);
    if s.consumer == Counting && s.queue != [] {
      SeenStep(s, s.queue[0]);
      BelowGrows(Deliveries(s.seen), s.queue[0].delivery, Target(expected));
    }
  }

  lemma SeenGrows(s: State, expected: uint32, step: Step)
    ensures var s' := Do(s, expected, step);
            s'.seen == s.seen
            || (s.consumer == Counting && s.queue != [] && s'.seen == s.seen + [s.queue[0]])
  {
  }

  // ----- the consumer always reaches its decision -----

  ghost predicate Published(n: nat, expected: uint32, steps: seq<Step>, i: nat) {
    i < |steps| && steps[i] == Announce && Exec(n, expected, steps[..i]).consumer == Announcing
  }

  ghost predicate PublishFailed(n: nat, expected: uint32, steps: seq<Step>, i: nat) {
    i < |steps| && steps[i] == FailToAnnounce && Exec(n, expected, steps[..i]).consumer == Announcing
  }

  /** The expected number was counted, and not one success among them. */
  predicate OnlyFailures(s: State, expected: uint32) {
    && Count(IsRegistration, Deliveries(s.seen)) == expected as int
    && Count(IsSuccess, Deliveries(s.seen)) == 0
  }

  lemma FatalIff(s: State, expected: uint32)
    requires expected > 0 && Count(IsRegistration, Deliveries(s.seen)) <= expected as int
    ensures Decide(Deliveries(s.seen), expected) == Fatal <==> OnlyFailures(s, expected)
  {
    CountsAddUp(Deliveries(s.seen));
    LowSmall(Count(IsFailure, Deliveries(s.seen)));
  }

  /** Leaving the loop, the consumer stops exactly if all that were expected failed. */
  lemma LeavesTo(s: State, expected: uint32)
    requires expected > 0 && Count(IsRegistration, Deliveries(s.seen)) <= expected as int
    ensures var s' := LeaveLoop(s, expected);
            && s'.seen == s.seen && s'.closedEarly == s.closedEarly
            && s'.consumer == if OnlyFailures(s, expected) then Stopped else Announcing
  {
    FatalIff(s, expected);
  }

  /** What the consumer has become, from what it has counted and what became of its
      publish. */
  predicate ConsumerIs(s: State, expected: uint32, published: bool, failed: bool) {
    var registered := Count(IsRegistration, Deliveries(s.seen));
    s.consumer ==
      if registered < expected as int && !s.closedEarly then Counting
      else if OnlyFailures(s, expected) || failed then Stopped
      else if published then Announced
      else Announcing
  }

  lemma DeliverIs(s: State, expected: uint32)
    requires s.consumer == Counting && s.queue != []
    ensures Do(s, expected, Deliver) == if Reaches(s, expected) then LeaveLoop(Take(s), expected) else Take(s)
  {
    hide LeaveLoop, Reaches;
  }

  lemma DeliverTo(s: State, expected: uint32)
    requires expected > 0 && ConsumerOk(s, expected) && ConsumerIs(s, expected, false, false)
    requires s.consumer == Counting && s.queue != []
    ensures ConsumerIs(Do(s, expected, Deliver), expected, false, false)
  {
    hide Do, LeaveLoop, Decide;
    DeliverIs(s, expected);
    SeenStep(s, s.queue[0]);
    if Reaches(s, expected) {
      LeavesTo(Take(s), expected);
    }
  }

  lemma CloseTo(s: State, expected: uint32)
    requires expected > 0 && ConsumerOk(s, expected) && s.consumer == Counting
    ensures ConsumerIs(Do(s, expected, CloseDeliveries), expected, false, false)
  {
    LeavesTo(s.(closedEarly := true), expected);
  }

  lemma QuietDecision(s: State, expected: uint32, step: Step)
    requires !(step.Deliver? && s.consumer == Counting && s.queue != [])
    requires !(step.CloseDeliveries? && s.consumer == Counting)
    ensures var s' := Do(s, expected, step);
            && s'.seen == s.seen && s'.closedEarly == s.closedEarly
            && s'.consumer == (if s.consumer == Announcing && step == Announce then Announced
                               else if s.consumer == Announcing && step == FailToAnnounce then Stopped
                               else s.consumer)
  {
  }

  lemma DecisionStep(s: State, expected: uint32, step: Step, published: bool, failed: bool)
    requires expected > 0 && ConsumerOk(s, expected) && ConsumerIs(s, expected, published, failed)
    requires published || failed ==> s.consumer == Announced || s.consumer == Stopped
    ensures var s' := Do(s, expected, step);
            var published' := published || (step == Announce && s.consumer == Announcing);
            var failed' := failed || (step == FailToAnnounce && s.consumer == Announcing);
            && ConsumerIs(s', expected, published', failed')
            && (published' || failed' ==> s'.consumer == Announced || s'.consumer == Stopped)
  {
    hide Do, ConsumerOk;
    if step.Deliver? && s.consumer == Counting && s.queue != [] {
      DeliverTo(s, expected);
    } else if step.CloseDeliveries? && s.consumer == Counting {
      CloseTo(s, expected);
    } else {
      QuietDecision(s, expected, step);
    }
  }

  lemma EarlierPublish(n: nat, expected: uint32, steps: seq<Step>, i: nat)
    requires i + 1 < |steps|
    ensures Published(n, expected, steps, i) == Published(n, expected, steps[..|steps| - 1], i)
    ensures PublishFailed(n, expected, steps, i) == PublishFailed(n, expected, steps[..|steps| - 1], i)
  {
    assert steps[..|steps| - 1][..i] == steps[..i];
  }

  ghost predicate EverPublished(n: nat, expected: uint32, steps: seq<Step>) {
    exists i :: Published(n, expected, steps, i)
  }

  ghost predicate EverFailed(n: nat, expected: uint32, steps: seq<Step>) {
    exists i :: PublishFailed(n, expected, steps, i)
  }

  lemma EverThen(n: nat, expected: uint32, steps: seq<Step>)
    requires steps != []
    ensures var k := |steps| - 1;
            var announcing := Exec(n, expected, steps[..k]).consumer == Announcing;
            && EverPublished(n, expected, steps)
               == (EverPublished(n, expected, steps[..k]) || (steps[k] == Announce && announcing))
            && EverFailed(n, expected, steps)
               == (EverFailed(n, expected, steps[..k]) || (steps[k] == FailToAnnounce && announcing))
  {
    hide Exec, Do;
    var k := |steps| - 1;
    forall i: nat | i < k
      ensures Published(n, expected, steps, i) == Published(n, expected, steps[..k], i)
      ensures PublishFailed(n, expected, steps, i) == PublishFailed(n, expected, steps[..k], i)
    {
      EarlierPublish(n, expected, steps, i);
    }
    assert Published(n, expected, steps, k)
           == (steps[k] == Announce && Exec(n, expected, steps[..k]).consumer == Announcing);
    assert PublishFailed(n, expected, steps, k)
           == (steps[k] == FailToAnnounce && Exec(n, expected, steps[..k]).consumer == Announcing);
  }

  lemma {:induction false} Decides(n: nat, expected: uint32, steps: seq<Step>)
    requires expected > 0
    ensures var s := Exec(n, expected, steps);
            && ConsumerIs(s, expected, EverPublished(n, expected, steps), EverFailed(n, expected, steps))
            && (EverPublished(n, expected, steps) || EverFailed(n, expected, steps) ==>
                  s.consumer == Announced || s.consumer == Stopped)
  {
    if steps == [] {
      assert Deliveries([]) == [];
    } else {
      var k := |steps| - 1;
      Decides(n, expected, steps[..k]);
      Invariant(n, expected, steps[..k]);
      EverThen(n, expected, steps);
      DecisionStep(Exec(n, expected, steps[..k]), expected, steps[k], EverPublished(n, expected, steps[..k]),
                   EverFailed(n, expected, steps[..k]));
    }
  }

  /** In every run with a positive expectation: the consumer has left its loop exactly
      when the expected number was counted or its deliveries ended; it stops exactly if
      all that were expected failed or its publish failed, and it has announced exactly
      if its publish went out.  Nothing else ends it. */
  lemma ConsumerEnds(n: nat, expected: uint32, steps: seq<Step>)
    requires expected > 0
    ensures var s := Exec(n, expected, steps);
            && (s.consumer == Counting <==>
                Count(IsRegistration, Deliveries(s.seen)) < expected as int && !s.closedEarly)
            && (s.consumer == Stopped <==>
                OnlyFailures(s, expected) || exists i :: PublishFailed(n, expected, steps, i))
            && (s.consumer == Announced <==> exists i :: Published(n, expected, steps, i))
  {
    Decides(n, expected, steps);
    Invariant(n, expected, steps);
    Exclusive(n, expected, steps);
  }

  /** A consumer that stops never announces, and one that announces has not failed. */
  lemma {:induction false} Exclusive(n: nat, expected: uint32, steps: seq<Step>)
    requires expected > 0
    ensures EverPublished(n, expected, steps) ==> Exec(n, expected, steps).consumer == Announced
    ensures EverFailed(n, expected, steps) ==> Exec(n, expected, steps).consumer == Stopped
  {
    if steps != [] {
      var k := |steps| - 1;
      Exclusive(n, expected, steps[..k]);
      EverThen(n, expected, steps);
      EndedStays(Exec(n, expected, steps[..k]), expected, steps[k]);
    }
  }

  lemma EndedStays(s: State, expected: uint32, step: Step)
    ensures var s' := Do(s, expected, step);
            && (s.consumer == Announced || s.consumer == Stopped ==> s'.consumer == s.consumer)
            && (s.consumer == Announcing && step == Announce ==> s'.consumer == Announced)
            && (s.consumer == Announcing && step == FailToAnnounce ==> s'.consumer == Stopped)
  {
  }
}
