/** The ordinary run of the start barrier: every worker registers, the consumer counts
    them all and broadcasts, and every worker that waits starts. */
module Rendezvous {
  import opened GoText
  import opened Registrations
  import opened Barrier

  function Message(w: nat, error: Option<Bytes>, id: Bytes): Sent {
    Sent(Some(w), Delivery(REG_CONTENT_TYPE, id, ErrorText(error)))
  }

  /** Worker w's results: what its InitFunc returned, and its correlation id. */
  type Workers = seq<(Option<Bytes>, Bytes)>

  function RegisterAll(ws: Workers, k: nat): seq<Step>
    requires k <= |ws|
  {
    if k == 0 then [] else RegisterAll(ws, k - 1) + Registers(k - 1, ws[k - 1].0, ws[k - 1].1)
  }

  function Messages(ws: Workers, k: nat): seq<Sent>
    requires k <= |ws|
  {
    seq(k, w requires 0 <= w < k => Message(w, ws[w].0, ws[w].1))
  }

  /** The first k workers have registered, and nothing has been delivered. */
  ghost predicate AllRegistered(s: State, ws: Workers, k: nat)
    requires k <= |ws|
  {
    && |s.workers| == |ws|
    && (forall w :: 0 <= w < k ==> s.workers[w] == if ws[w].0 == None then Waiting else Left)
    && (forall w :: k <= w < |ws| ==> s.workers[w] == Fresh)
    && s.startQueues == (map w: nat | w < k && ws[w].0 == None :: 0)
    && s.queue == Messages(ws, k) && s.seen == [] && s.consumer == Counting && !s.closedEarly
  }

  lemma RegisterOne(s: State, expected: uint32, w: nat, error: Option<Bytes>, id: Bytes)
    requires At(s, w) == Some(Fresh) && w !in s.startQueues
    ensures var d1 := Do(s, expected, Declare(w));
            var d2 := Do(d1, expected, Bind(w));
            var d3 := Do(d2, expected, Consume(w));
            var d4 := Do(d3, expected, Init(w, error));
            var s' := Do(d4, expected, Publish(w, id));
            && s'.workers == s.workers[w := if error == None then Waiting else Left]
            && s'.startQueues == (if error == None then s.startQueues[w := 0] else s.startQueues)
            && s'.queue == s.queue + [Message(w, error, id)]
            && s'.seen == s.seen && s'.consumer == s.consumer && s'.closedEarly == s.closedEarly
  {
    var d1 := Do(s, expected, Declare(w));
    assert d1 == s.(workers := s.workers[w := Declared]);
    var d2 := Do(d1, expected, Bind(w));
    assert d2 == s.(workers := s.workers[w := Bound], startQueues := s.startQueues[w := 0]);
    var d3 := Do(d2, expected, Consume(w));
    assert d3 == d2.(workers := s.workers[w := Consuming]);
    var d4 := Do(d3, expected, Init(w, error));
    assert d4 == d3.(workers := s.workers[w := Initialised], inits := s.inits[w := error]);
    assert s.startQueues[w := 0] - {w} == s.startQueues;
  }

  lemma RegistersThen(n: nat, expected: uint32, steps: seq<Step>, w: nat, error: Option<Bytes>, id: Bytes)
    requires At(Exec(n, expected, steps), w) == Some(Fresh) && w !in Exec(n, expected, steps).startQueues
    ensures var (s, s') := (Exec(n, expected, steps), Exec(n, expected, steps + Registers(w, error, id)));
            && s'.workers == s.workers[w := if error == None then Waiting else Left]
            && s'.startQueues == (if error == None then s.startQueues[w := 0] else s.startQueues)
            && s'.queue == s.queue + [Message(w, error, id)]
            && s'.seen == s.seen && s'.consumer == s.consumer && s'.closedEarly == s.closedEarly
  {
    RegisterOne(Exec(n, expected, steps), expected, w, error, id);
    hide Exec, Do;
    var run := Then(n, expected, steps, Declare(w));
    run := Then(n, expected, run, Bind(w));
    run := Then(n, expected, run, Consume(w));
    run := Then(n, expected, run, Init(w, error));
    run := Then(n, expected, run, Publish(w, id));
    assert run == steps + Registers(w, error, id);
  }

  lemma RegisteredNext(s: State, s': State, ws: Workers, k: nat)
    requires k < |ws| && AllRegistered(s, ws, k)
    requires s'.workers == s.workers[k := if ws[k].0 == None then Waiting else Left]
    requires s'.startQueues == if ws[k].0 == None then s.startQueues[k := 0] else s.startQueues
    requires s'.queue == s.queue + [Message(k, ws[k].0, ws[k].1)]
    requires s'.seen == s.seen && s'.consumer == s.consumer && s'.closedEarly == s.closedEarly
    ensures AllRegistered(s', ws, k + 1)
  {
    assert Messages(ws, k + 1) == Messages(ws, k) + [Message(k, ws[k].0, ws[k].1)];
  }

  lemma NobodyRegistered(ws: Workers, expected: uint32)
    ensures AllRegistered(Exec(|ws|, expected, []), ws, 0)
  {
  }

  lemma NextIsFresh(s: State, ws: Workers, k: nat)
    requires k < |ws| && AllRegistered(s, ws, k)
    ensures At(s, k) == Some(Fresh) && k !in s.startQueues
  {
  }

  lemma {:induction false} EveryoneRegisters(ws: Workers, expected: uint32, k: nat)
    requires k <= |ws|
    ensures AllRegistered(Exec(|ws|, expected, RegisterAll(ws, k)), ws, k)
  {
    hide Exec, Do, AllRegistered;
    if k == 0 {
      NobodyRegistered(ws, expected);
    } else {
      var (before, error, id) := (RegisterAll(ws, k - 1), ws[k - 1].0, ws[k - 1].1);
      EveryoneRegisters(ws, expected, k - 1);
      NextIsFresh(Exec(|ws|, expected, before), ws, k - 1);
      RegistersThen(|ws|, expected, before, k - 1, error, id);
      RegisteredNext(Exec(|ws|, expected, before), Exec(|ws|, expected, RegisterAll(ws, k)), ws, k - 1);
    }
  }

  // ----- the consumer counts -----

  function Times(k: nat, step: Step): seq<Step> { seq(k, _ => step) }

  /** The consumer has taken the first m messages. */
  ghost predicate Counted(s: State, ws: Workers, m: nat)
    requires m <= |ws|
  {
    && |s.workers| == |ws|
    && (forall w :: 0 <= w < |ws| ==> s.workers[w] == if ws[w].0 == None then Waiting else Left)
    && s.startQueues == (map w: nat | w < |ws| && ws[w].0 == None :: 0)
    && s.seen == Messages(ws, m) && s.queue == Messages(ws, |ws|)[m..]
    && s.consumer == (if m < |ws| then Counting else Announcing) && !s.closedEarly
  }

  lemma {:induction false} CountMessages(ws: Workers, m: nat)
    requires m <= |ws|
    ensures Count(IsRegistration, Deliveries(Messages(ws, m))) == m
    ensures Count(IsSuccess, Deliveries(Messages(ws, m))) == 0 ==> forall w :: 0 <= w < m ==> ws[w].0 != None
  {
    if m > 0 {
      CountMessages(ws, m - 1);
      var ds := Deliveries(Messages(ws, m));
      assert ds[..m - 1] == Deliveries(Messages(ws, m - 1));
      assert ds[m - 1] == Message(m - 1, ws[m - 1].0, ws[m - 1].1).delivery;
    } else {
      assert Deliveries(Messages(ws, 0)) == [];
    }
  }

  lemma TakeNext(ws: Workers, m: nat)
    requires m < |ws|
    ensures Messages(ws, |ws|)[m..][0] == Message(m, ws[m].0, ws[m].1)
    ensures Messages(ws, |ws|)[m..][1..] == Messages(ws, |ws|)[m + 1..]
    ensures Messages(ws, m) + [Message(m, ws[m].0, ws[m].1)] == Messages(ws, m + 1)
  {
  }

  lemma DeliverOne(s: State, expected: uint32, ws: Workers, m: nat)
    requires |ws| == expected as int && m < |ws| && Counted(s, ws, m)
    requires exists w :: 0 <= w < |ws| && ws[w].0 == None
    ensures Counted(Do(s, expected, Deliver), ws, m + 1)
  {
    TakeNext(ws, m);
    CountMessages(ws, m + 1);
    assert Take(s).seen == Messages(ws, m + 1);
    if m + 1 == |ws| {
      LeavesTo(Take(s), expected);
    }
  }

  lemma {:induction false} EveryoneCounted(ws: Workers, expected: uint32, m: nat)
    requires |ws| == expected as int && m <= |ws|
    requires exists w :: 0 <= w < |ws| && ws[w].0 == None
    ensures Counted(Exec(|ws|, expected, RegisterAll(ws, |ws|) + Times(m, Deliver)), ws, m)
  {
    hide Exec, Do;
    if m == 0 {
      EveryoneRegisters(ws, expected, |ws|);
      assert RegisterAll(ws, |ws|) + Times(0, Deliver) == RegisterAll(ws, |ws|);
    } else {
      EveryoneCounted(ws, expected, m - 1);
      var run := Then(|ws|, expected, RegisterAll(ws, |ws|) + Times(m - 1, Deliver), Deliver);
      assert run == RegisterAll(ws, |ws|) + Times(m, Deliver);
      DeliverOne(Exec(|ws|, expected, RegisterAll(ws, |ws|) + Times(m - 1, Deliver)), expected, ws, m - 1);
    }
  }

  // ----- the broadcast and the starts -----

  function UpToBroadcast(ws: Workers): seq<Step> {
    RegisterAll(ws, |ws|) + Times(|ws|, Deliver) + [Announce]
  }

  function TakeAll(k: nat): seq<Step> { seq(k, w requires 0 <= w < k => TakeStart(w)) }

  /** The first k workers have been asked to take Start. */
  ghost predicate Taken(s: State, ws: Workers, k: nat)
    requires k <= |ws|
  {
    && |s.workers| == |ws| && s.consumer == Announced && s.seen == Messages(ws, |ws|)
    && (forall w :: 0 <= w < |ws| ==>
          s.workers[w] == if ws[w].0 != None then Left else if w < k then Started(Command) else Waiting)
    && (forall w :: k <= w < |ws| && ws[w].0 == None ==> w in s.startQueues && s.startQueues[w] == 1)
  }

  lemma AnnounceReaches(s: State, expected: uint32, ws: Workers)
    requires ws != [] && Counted(s, ws, |ws|)
    ensures Taken(Do(s, expected, Announce), ws, 0)
  {
  }

  lemma Broadcast(ws: Workers, expected: uint32)
    requires |ws| == expected as int && exists w :: 0 <= w < |ws| && ws[w].0 == None
    ensures Taken(Exec(|ws|, expected, UpToBroadcast(ws)), ws, 0)
  {
    hide Exec, Do, Counted, Taken;
    EveryoneCounted(ws, expected, |ws|);
    var run := Then(|ws|, expected, RegisterAll(ws, |ws|) + Times(|ws|, Deliver), Announce);
    AnnounceReaches(Exec(|ws|, expected, RegisterAll(ws, |ws|) + Times(|ws|, Deliver)), expected, ws);
  }

  lemma TakeOne(s: State, expected: uint32, ws: Workers, k: nat)
    requires k < |ws| && Taken(s, ws, k)
    ensures Taken(Do(s, expected, TakeStart(k)), ws, k + 1)
  {
  }

  /** Whatever the InitFuncs return, as long as one succeeds: after every worker has
      registered and every registration is delivered, Start goes out, and every worker
      whose InitFunc succeeded starts by command; the others are gone. */
  lemma {:induction false} EveryoneStarts(ws: Workers, expected: uint32, k: nat)
    requires |ws| == expected as int && k <= |ws| && exists w :: 0 <= w < |ws| && ws[w].0 == None
    ensures var s := Exec(|ws|, expected, UpToBroadcast(ws) + TakeAll(k));
            && s.consumer == Announced && |s.workers| == |ws|
            && forall w :: 0 <= w < |ws| ==>
                 s.workers[w] == if ws[w].0 != None then Left else if w < k then Started(Command) else Waiting
    ensures Taken(Exec(|ws|, expected, UpToBroadcast(ws) + TakeAll(k)), ws, k)
  {
    hide Exec, Do;
    if k == 0 {
      Broadcast(ws, expected);
      assert UpToBroadcast(ws) + TakeAll(0) == UpToBroadcast(ws);
    } else {
      EveryoneStarts(ws, expected, k - 1);
      var run := Then(|ws|, expected, UpToBroadcast(ws) + TakeAll(k - 1), TakeStart(k - 1));
      assert run == UpToBroadcast(ws) + TakeAll(k);
      TakeOne(Exec(|ws|, expected, UpToBroadcast(ws) + TakeAll(k - 1)), expected, ws, k - 1);
    }
  }

  /** A message of another content type takes its place in the queue, is delivered and
      counts for nothing. */
  lemma ForeignArrives(n: nat, expected: uint32, delivery: Delivery)
    requires !IsRegistration(delivery)
    ensures var s := Exec(n, expected, [Foreign(delivery), Deliver]);
            s.seen == [Sent(None, delivery)] && s.queue == [] && s.consumer == Counting
  {
    var run := Then(n, expected, [], Foreign(delivery));
    run := Then(n, expected, run, Deliver);
  }
}
