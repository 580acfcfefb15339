/** Any number of scale jobs racing for one Lease, as interleaved steps with every
    request in flight: a POST or DELETE may be served late, lost, or outlive its
    sender, and its reply may be lost. */
module ScaleJobs {
  import opened GoText
  import opened Topology
  import opened ScriptInvariant
  import opened Triggers

  /** Posting waits for the reply to the POST; Releasing is the EXIT trap after its
      DELETE is sent; Done is a normal exit, also that of a job refused the lease. */
  datatype Phase = Idle | Posting | Running(script: Script) | Releasing | Done | Crashed

  datatype Job = Job(kind: Kind, phase: Phase, lockAcquired: bool)

  /** The lease as the job whose POST created it.  The server never tells them apart:
      steps only ask whether a lease exists.  `clean` says that every job that held
      the lock so far ran its script to the end, or still does, with the profile read. */
  datatype System = System(
    topology: Topology,
    lease: Option<nat>,
    jobs: seq<Job>,
    posts: set<nat>,
    acks: set<nat>,
    deletes: set<nat>,
    clean: bool)

  /** Spawn carries the sample that fired the trigger: the CPU used, and the limit that
      counts for a peer whose own was not set, zero if it has none. */
  datatype Step =
    | Spawn(kind: Kind, usage: real, bare: real)
    | SendPost(j: nat)
    | ServePost(j: nat)
    | LosePost(j: nat)
    | PostSucceeds(j: nat)
    | PostFails(j: nat)
    | RunCommand(j: nat, seen: Seen)
    | Exit(j: nat)
    | ServeDelete(j: nat)
    | LoseDelete(j: nat)
    | Finish(j: nat)
    | Crash(j: nat)

  /** create-dln.sh ends with one peer everywhere. */
  function Initial(): System {
    System(Topology([PeerName(0)], [PeerName(0)], 1, {PeerName(0)}, {PeerName(0)}), None, [], {}, {}, {}, true)
  }

  function PhaseOf(s: System, j: nat): Option<Phase> {
    if j < |s.jobs| then Some(s.jobs[j].phase) else None
  }

  function SetPhase(s: System, j: nat, phase: Phase): System
    requires j < |s.jobs|
  {
    s.(jobs := s.jobs[j := s.jobs[j].(phase := phase)])
  }

  predicate IsRunning(s: System, j: nat) { j < |s.jobs| && s.jobs[j].phase.Running? }

  /** release_lock, run by the EXIT trap: DELETE if LOCK_ACQUIRED, else nothing. */
  function Trap(s: System, j: nat): System
    requires j < |s.jobs|
  {
    if s.jobs[j].lockAcquired
    then SetPhase(s, j, Releasing).(deletes := s.deletes + {j})
    else SetPhase(s, j, Done)
  }

  function Do(s: System, step: Step): System {
    match step
    case Spawn(kind, _, _) => s.(jobs := s.jobs + [Job(kind, Idle, false)])
    case SendPost(j) =>
      if PhaseOf(s, j) == Some(Idle) then SetPhase(s, j, Posting).(posts := s.posts + {j}) else s
    case ServePost(j) =>
      if j !in s.posts then s
      else if s.lease == None then s.(posts := s.posts - {j}, lease := Some(j), acks := s.acks + {j})
      else s.(posts := s.posts - {j})
    case LosePost(j) => s.(posts := s.posts - {j})
    case PostSucceeds(j) =>
      if PhaseOf(s, j) == Some(Posting) && j in s.acks then
        var job := Job(s.jobs[j].kind, Running(Begin(s.jobs[j].kind)), true);
        s.(jobs := s.jobs[j := job], acks := s.acks - {j})
      else s
    case PostFails(j) =>
      if PhaseOf(s, j) == Some(Posting) then Trap(s, j).(acks := s.acks - {j}) else s
    case RunCommand(j, seen) =>
      if IsRunning(s, j) then
        match Command(s.topology, s.jobs[j].phase.script, seen)
        case Some((t, script)) =>
          SetPhase(s, j, Running(script)).(
            topology := t, clean := s.clean && !ReadsNothing(s.jobs[j].phase.script, seen))
        case None => Trap(s, j).(clean := s.clean && Completed(s.jobs[j].phase.script))
      else s
    case Exit(j) =>
      if IsRunning(s, j) then Trap(s, j).(clean := s.clean && Completed(s.jobs[j].phase.script)) else s
    case ServeDelete(j) =>
      if j in s.deletes then s.(deletes := s.deletes - {j}, lease := None) else s
    case LoseDelete(j) => s.(deletes := s.deletes - {j})
    case Finish(j) =>
      if PhaseOf(s, j) == Some(Releasing) then SetPhase(s, j, Done) else s
    case Crash(j) =>
      if j < |s.jobs| && s.jobs[j].phase != Done then
        SetPhase(s, j, Crashed).(
          clean := s.clean && (s.jobs[j].phase.Running? ==> Completed(s.jobs[j].phase.script)))
      else s
  }

  function Exec(steps: seq<Step>): System {
    if steps == [] then Initial() else Do(Exec(steps[..|steps| - 1]), steps[|steps| - 1])
  }

  lemma ExecMore(steps: seq<Step>, more: seq<Step>)
    requires more != []
    ensures var k := |more| - 1;
            Exec(steps + more) == Do(Exec(steps + more[..k]), more[k])
  {
    var k := |more| - 1;
    assert (steps + more)[..|steps + more| - 1] == steps + more[..k];
    assert (steps + more)[|steps + more| - 1] == more[k];
  }

  // ----- the lease -----

  /** j's POST succeeded and its DELETE has not been served: it may yet run its
      script, or its DELETE is on the way. */
  predicate Claims(s: System, j: nat) { j in s.acks || j in s.deletes || IsRunning(s, j) }

  /** LOCK_ACQUIRED is true and the lock is not released. */
  predicate Holds(s: System, j: nat) {
    j < |s.jobs| && s.jobs[j].lockAcquired && (s.jobs[j].phase.Running? || j in s.deletes)
  }

  predicate LeaseOk(s: System, j: nat) {
    && (Claims(s, j) ==> s.lease == Some(j))
    && (j in s.posts ==> !Claims(s, j) && s.lease != Some(j))
    && (j in s.acks ==> j !in s.deletes && !IsRunning(s, j))
    && (IsRunning(s, j) ==> j !in s.deletes)
    && match PhaseOf(s, j)
       case None => j !in s.posts && !Claims(s, j) && s.lease != Some(j)
       case Some(phase) =>
         && (phase == Idle ==> j !in s.posts && !Claims(s, j) && s.lease != Some(j))
         && (phase == Idle || phase == Posting ==> !s.jobs[j].lockAcquired && j !in s.deletes)
         && (phase.Running? || phase == Releasing || j in s.deletes ==> s.jobs[j].lockAcquired)
         && (s.jobs[j].lockAcquired ==> j !in s.posts && j !in s.acks)
  }

  ghost predicate LeaseInv(s: System) { forall j: nat :: LeaseOk(s, j) }

  /** A step of another job leaves j's part of the invariant alone, but for the lease. */
  lemma LeaseOther(s: System, step: Step, j: nat)
    requires LeaseInv(s) && !step.Spawn? && step.j != j
    ensures LeaseOk(Do(s, step), j)
  {
    assert LeaseOk(s, j) && LeaseOk(s, step.j);
  }

  lemma LeaseSpawn(s: System, step: Step, j: nat)
    requires LeaseInv(s) && step.Spawn?
    ensures LeaseOk(Do(s, step), j)
  {
    assert LeaseOk(s, j);
  }

  lemma LeaseRequest(s: System, step: Step)
    requires LeaseInv(s)
    requires step.ServePost? || step.LosePost? || step.ServeDelete? || step.LoseDelete?
    ensures LeaseOk(Do(s, step), step.j)
  {
    assert LeaseOk(s, step.j);
  }

  lemma LeasePosting(s: System, step: Step)
    requires LeaseInv(s) && (step.SendPost? || step.PostSucceeds? || step.PostFails?)
    ensures LeaseOk(Do(s, step), step.j)
  {
    assert LeaseOk(s, step.j);
  }

  lemma LeaseRunning(s: System, step: Step)
    requires LeaseInv(s) && (step.RunCommand? || step.Exit? || step.Finish? || step.Crash?)
    ensures LeaseOk(Do(s, step), step.j)
  {
    assert LeaseOk(s, step.j);
  }

  lemma LeaseStep(s: System, step: Step, j: nat)
    requires LeaseInv(s)
    ensures LeaseOk(Do(s, step), j)
  {
    if step.Spawn? {
      LeaseSpawn(s, step, j);
    } else if step.j != j {
      LeaseOther(s, step, j);
    } else if step.SendPost? || step.PostSucceeds? || step.PostFails? {
      LeasePosting(s, step);
    } else if step.RunCommand? || step.Exit? || step.Finish? || step.Crash? {
      LeaseRunning(s, step);
    } else {
      LeaseRequest(s, step);
    }
  }

  lemma {:induction false} LeaseInvariant(steps: seq<Step>)
    ensures LeaseInv(Exec(steps))
  {
    if steps != [] {
      var init := steps[..|steps| - 1];
      LeaseInvariant(init);
      forall j: nat
        ensures LeaseOk(Exec(steps), j)
      {
        LeaseStep(Exec(init), steps[|steps| - 1], j);
      }
    }
  }

  /** Mutual exclusion, over every interleaving: at most one job holds the lock, and
      its lease is in place. */
  lemma MutualExclusion(steps: seq<Step>, i: nat, j: nat)
    requires Holds(Exec(steps), i) && Holds(Exec(steps), j)
    ensures i == j && Exec(steps).lease == Some(i)
  {
    LeaseInvariant(steps);
    assert LeaseOk(Exec(steps), i) && LeaseOk(Exec(steps), j);
  }

  /** Only the holder's commands change the topology. */
  lemma OnlyHolderChangesTopology(steps: seq<Step>, step: Step)
    requires Do(Exec(steps), step).topology != Exec(steps).topology
    ensures step.RunCommand? && Holds(Exec(steps), step.j)
  {
    LeaseInvariant(steps);
    if step.RunCommand? {
      assert LeaseOk(Exec(steps), step.j);
    }
  }

  /** A lease disappears only through the DELETE of the job that created it, sent
      after that job saw its own success: a loser's trap never deletes it. */
  lemma OnlyCreatorDeletes(steps: seq<Step>, step: Step)
    requires Exec(steps).lease.Some? && Do(Exec(steps), step).lease != Exec(steps).lease
    ensures step.ServeDelete? && Exec(steps).lease == Some(step.j) && Holds(Exec(steps), step.j)
  {
    LeaseInvariant(steps);
    if step.ServeDelete? {
      assert LeaseOk(Exec(steps), step.j);
    }
  }

  /** A job that never acquired the lock sends no DELETE. */
  lemma LoserSendsNoDelete(steps: seq<Step>, j: nat)
    requires j < |Exec(steps).jobs| && !Exec(steps).jobs[j].lockAcquired
    ensures j !in Exec(steps).deletes && Exec(steps).jobs[j].phase != Releasing
  {
    LeaseInvariant(steps);
    assert LeaseOk(Exec(steps), j);
  }

  /** A script whose next command fails, or that has none left, ends, and so does one
      that stops of itself: the holder sends its DELETE and the topology stays. */
  lemma ScriptEnds(steps: seq<Step>, step: Step)
    requires step.RunCommand? || step.Exit?
    requires IsRunning(Exec(steps), step.j)
    requires step.RunCommand? ==>
               Command(Exec(steps).topology, Exec(steps).jobs[step.j].phase.script, step.seen) == None
    ensures var (s, s') := (Exec(steps), Exec(steps + [step]));
            && PhaseOf(s', step.j) == Some(Releasing) && s'.deletes == s.deletes + {step.j}
            && s'.topology == s.topology && s'.lease == s.lease == Some(step.j)
  {
    LeaseInvariant(steps);
    assert LeaseOk(Exec(steps), step.j);
    ExecMore(steps, [step]);
    assert [step][..0] == [] && steps + [] == steps;
  }

  // ----- one request, one chance -----

  /** j has used its POST and does not own the lease. */
  predicate Out(s: System, j: nat) {
    && j < |s.jobs| && s.jobs[j].phase != Idle
    && j !in s.posts && s.lease != Some(j)
  }

  lemma OutStays(s: System, step: Step, j: nat)
    requires LeaseInv(s) && Out(s, j)
    ensures Out(Do(s, step), j)
  {
    assert LeaseOk(s, j);
  }

  lemma GoesOut(s: System, step: Step, j: nat)
    requires LeaseInv(s) && j < |s.jobs| && s.jobs[j].phase != Idle
    requires || (step == ServePost(j) && s.lease.Some? && s.lease != Some(j))
             || (step == LosePost(j) && s.lease != Some(j))
             || (step == ServeDelete(j) && j in s.deletes)
    ensures Out(Do(s, step), j)
  {
    assert LeaseOk(s, j);
  }

  /** A job has one chance: once its POST was refused or lost, or its lease released, it
      never owns a lease and never holds the lock again, however the run goes on. */
  lemma {:induction false} OneChance(steps: seq<Step>, step: Step, more: seq<Step>, j: nat)
    requires var s := Exec(steps);
             && j < |s.jobs| && s.jobs[j].phase != Idle
             && (|| (step == ServePost(j) && s.lease.Some? && s.lease != Some(j))
                 || (step == LosePost(j) && s.lease != Some(j))
                 || (step == ServeDelete(j) && j in s.deletes))
    ensures var s := Exec(steps + [step] + more); Out(s, j) && s.lease != Some(j) && !Holds(s, j)
  {
    hide Do, Out, LeaseInv;
    if more == [] {
      assert steps + [step] + more == steps + [step];
      ExecMore(steps, [step]);
      assert steps + [step][..0] == steps;
      LeaseInvariant(steps);
      GoesOut(Exec(steps), step, j);
    } else {
      var k := |more| - 1;
      OneChance(steps, step, more[..k], j);
      ExecMore(steps + [step], more);
      LeaseInvariant(steps + [step] + more[..k]);
      OutStays(Exec(steps + [step] + more[..k]), more[k], j);
    }
    LeaseInvariant(steps + [step] + more);
    OutHoldsNothing(Exec(steps + [step] + more), j);
  }

  lemma OutHoldsNothing(s: System, j: nat)
    requires LeaseInv(s) && Out(s, j)
    ensures s.lease != Some(j) && !Holds(s, j)
  {
    assert LeaseOk(s, j);
  }

  // ----- orphaned leases -----

  predicate Gone(s: System, j: nat) { PhaseOf(s, j) == Some(Done) || PhaseOf(s, j) == Some(Crashed) }

  /** The lease's creator is gone and no DELETE of its is on the way. */
  predicate Orphaned(s: System) {
    s.lease.Some? && s.lease.value !in s.deletes && Gone(s, s.lease.value)
  }

  /** The five ways a lease loses its last chance: the reply to an accepted POST is
      lost; a POST is served after its sender is gone; the creator crashes with no
      DELETE on the way; the DELETE of a creator that is gone is lost; the creator
      finishes after its DELETE was lost. */
  predicate Orphans(s: System, step: Step) {
    match step
    case PostFails(j) => PhaseOf(s, j) == Some(Posting) && j in s.acks
    case ServePost(j) => j in s.posts && s.lease == None && Gone(s, j)
    case Crash(j) => s.lease == Some(j) && j !in s.deletes
    case LoseDelete(j) => j in s.deletes && Gone(s, j)
    case Finish(j) => PhaseOf(s, j) == Some(Releasing) && s.lease == Some(j) && j !in s.deletes
    case _ => false
  }

  /** A creator that still waits for its reply has one on the way. */
  predicate Acked(s: System) {
    s.lease.Some? && PhaseOf(s, s.lease.value) == Some(Posting) ==> s.lease.value in s.acks
  }

  lemma AckedStep(s: System, step: Step)
    requires LeaseInv(s) && Acked(s)
    ensures Acked(Do(s, step))
  {
    if s.lease.Some? {
      assert LeaseOk(s, s.lease.value);
    }
  }

  lemma {:induction false} AckedInvariant(steps: seq<Step>)
    ensures Acked(Exec(steps))
  {
    if steps != [] {
      AckedInvariant(steps[..|steps| - 1]);
      LeaseInvariant(steps[..|steps| - 1]);
      AckedStep(Exec(steps[..|steps| - 1]), steps[|steps| - 1]);
    }
  }

  lemma OrphansOrphan(s: System, step: Step)
    requires LeaseInv(s) && Orphans(s, step)
    ensures Orphaned(Do(s, step))
  {
    assert LeaseOk(s, step.j);
  }

  lemma NothingElseOrphans(s: System, step: Step)
    requires LeaseInv(s) && Acked(s) && !Orphaned(s) && Orphaned(Do(s, step))
    ensures Orphans(s, step)
  {
    assert LeaseOk(s, Do(s, step).lease.value);
  }

  /** In every reachable state with no orphaned lease, a step orphans one exactly if it
      is one of the five. */
  lemma OrphanedNextIff(steps: seq<Step>, step: Step)
    requires !Orphaned(Exec(steps))
    ensures Orphaned(Exec(steps + [step])) <==> Orphans(Exec(steps), step)
  {
    LeaseInvariant(steps);
    AckedInvariant(steps);
    assert (steps + [step])[..|steps|] == steps;
    if Orphans(Exec(steps), step) {
      OrphansOrphan(Exec(steps), step);
    }
    if Orphaned(Exec(steps + [step])) {
      NothingElseOrphans(Exec(steps), step);
    }
  }

  lemma OrphanStep(s: System, step: Step)
    requires LeaseInv(s) && Orphaned(s)
    ensures var s' := Do(s, step);
            Orphaned(s') && s'.lease == s.lease && s'.topology == s.topology
  {
    assert LeaseOk(s, s.lease.value);
    if !step.Spawn? {
      assert LeaseOk(s, step.j);
    }
  }

  /** An orphaned lease is never released and nothing is ever scaled again: the code
      has neither the expiry nor the renewal that autoscaling/README.md describes. */
  lemma {:induction false} OrphanFreezesScaling(steps: seq<Step>, more: seq<Step>)
    requires Orphaned(Exec(steps))
    ensures Orphaned(Exec(steps + more))
    ensures Exec(steps + more).lease == Exec(steps).lease
    ensures Exec(steps + more).topology == Exec(steps).topology
  {
    hide Exec, Do, LeaseInv, Orphaned;
    if more == [] {
      assert steps + more == steps;
    } else {
      var k := |more| - 1;
      OrphanFreezesScaling(steps, more[..k]);
      ExecMore(steps, more);
      LeaseInvariant(steps + more[..k]);
      OrphanStep(Exec(steps + more[..k]), more[k]);
    }
  }

  ghost predicate OrphanedBy(steps: seq<Step>, i: nat) {
    i < |steps| && Orphans(Exec(steps[..i]), steps[i])
  }

  /** Over whole runs: the lease ends orphaned exactly if some step was one of the five. */
  lemma {:induction false} OrphanedIff(steps: seq<Step>)
    ensures Orphaned(Exec(steps)) <==> exists i: nat :: OrphanedBy(steps, i)
  {
    if steps != [] {
      var k := |steps| - 1;
      var init := steps[..k];
      OrphanedIff(init);
      assert steps == init + [steps[k]];
      if Orphaned(Exec(init)) {
        OrphanFreezesScaling(init, [steps[k]]);
        var i: nat :| OrphanedBy(init, i);
        assert init[..i] == steps[..i];
        assert OrphanedBy(steps, i);
      } else {
        OrphanedNextIff(init, steps[k]);
        assert OrphanedBy(steps, k) <==> Orphans(Exec(init), steps[k]);
        forall i: nat | i < k
          ensures OrphanedBy(steps, i) == OrphanedBy(init, i)
        {
          assert init[..i] == steps[..i];
        }
      }
    }
  }

  // ----- governed runs: the chart's triggers start the jobs -----

  predicate Live(job: Job) { job.phase != Done && job.phase != Crashed }

  /** sum(kube_pod_container_resource_limits) */
  function LimitSum(peers: seq<Bytes>, patched: set<Bytes>, bare: real): real {
    if peers == [] then 0.0
    else
      LimitSum(peers[..|peers| - 1], patched, bare) + if peers[|peers| - 1] in patched then PEER_CPU else bare
  }

  function Limits(t: Topology, bare: real): real { LimitSum(t.peers, t.patched, bare) }

  predicate Triggered(kind: Kind, t: Topology, usage: real, bare: real) {
    if kind == Up then UpTriggered(usage, Limits(t, bare)) else DownTriggered(|t.peers|, usage, Limits(t, bare))
  }

  /** A job is started only if its trigger fires on a fresh sample and, with
      maxReplicaCount 1, no job of its kind is live; pod listings are accurate. */
  predicate Allowed(s: System, step: Step) {
    match step
    case Spawn(kind, usage, bare) =>
      Triggered(kind, s.topology, usage, bare)
      && forall i :: 0 <= i < |s.jobs| ==> !(s.jobs[i].kind == kind && Live(s.jobs[i]))
    case RunCommand(j, seen) => IsRunning(s, j) ==> PodsListed(s.topology, s.jobs[j].phase.script, seen.pods)
    case _ => true
  }

  predicate Governed(steps: seq<Step>) {
    steps == []
    || (Governed(steps[..|steps| - 1]) && Allowed(Exec(steps[..|steps| - 1]), steps[|steps| - 1]))
  }

  /** The step is a command that succeeds. */
  predicate Commands(s: System, step: Step) {
    && step.RunCommand? && IsRunning(s, step.j)
    && Command(s.topology, s.jobs[step.j].phase.script, step.seen).Some?
  }

  // ----- each of the five happens in a run that the chart allows -----

  lemma Then(steps: seq<Step>, step: Step) returns (steps': seq<Step>)
    requires Governed(steps) && Allowed(Exec(steps), step)
    ensures steps' == steps + [step] && Governed(steps') && Exec(steps') == Do(Exec(steps), step)
  {
    steps' := steps + [step];
    assert steps'[..|steps|] == steps;
  }

  predicate EndsOrphaning(steps: seq<Step>, last: Step) {
    Governed(steps) && !Orphaned(Exec(steps)) && Orphaned(Exec(steps + [last]))
  }

  /** A first job whose POST is on the way, and the same job holding the lock. */
  const POSTED: seq<Step> := [Spawn(Up, PEER_CPU, 0.0), SendPost(0)]
  const HOLDING: seq<Step> := POSTED + [ServePost(0), PostSucceeds(0)]

  lemma PostedRun()
    ensures Governed(POSTED)
    ensures Exec(POSTED).jobs == [Job(Up, Posting, false)] && Exec(POSTED).posts == {0}
    ensures Exec(POSTED).lease == None && Exec(POSTED).acks == Exec(POSTED).deletes == {}
  {
    assert Limits(Initial().topology, 0.0) == PEER_CPU;
    var run := Then([], Spawn(Up, PEER_CPU, 0.0));
    run := Then(run, SendPost(0));
    assert run == POSTED;
  }

  lemma HoldingRun()
    ensures Governed(HOLDING)
    ensures Exec(HOLDING).jobs == [Job(Up, Running(Begin(Up)), true)]
    ensures Exec(HOLDING).lease == Some(0) && Exec(HOLDING).deletes == {}
  {
    PostedRun();
    var run := Then(POSTED, ServePost(0));
    run := Then(run, PostSucceeds(0));
    assert run == HOLDING;
  }

  lemma LostReply()
    ensures EndsOrphaning(POSTED + [ServePost(0)], PostFails(0))
  {
    PostedRun();
    var run := Then(POSTED, ServePost(0));
    OrphanedNextIff(run, PostFails(0));
  }

  lemma LatePost()
    ensures EndsOrphaning(POSTED + [PostFails(0)], ServePost(0))
  {
    PostedRun();
    var run := Then(POSTED, PostFails(0));
    OrphanedNextIff(run, ServePost(0));
  }

  lemma HolderCrashes()
    ensures EndsOrphaning(HOLDING, Crash(0))
  {
    HoldingRun();
    OrphanedNextIff(HOLDING, Crash(0));
  }

  lemma ReleaseLost()
    ensures EndsOrphaning(HOLDING + [Exit(0), Finish(0)], LoseDelete(0))
  {
    HoldingRun();
    var run := Then(HOLDING, Exit(0));
    run := Then(run, Finish(0));
    OrphanedNextIff(run, LoseDelete(0));
    assert run == HOLDING + [Exit(0), Finish(0)];
  }

  lemma ReleaseLostFirst()
    ensures EndsOrphaning(HOLDING + [Exit(0), LoseDelete(0)], Finish(0))
  {
    HoldingRun();
    var run := Then(HOLDING, Exit(0));
    run := Then(run, LoseDelete(0));
    OrphanedNextIff(run, Finish(0));
    assert run == HOLDING + [Exit(0), LoseDelete(0)];
  }

  // ----- the topology -----

  ghost predicate JobOk(s: System, j: nat) {
    j < |s.jobs| ==>
      var job := s.jobs[j];
      && (job.phase.Running? ==> job.phase.script.kind == job.kind && ScriptOk(s.topology, job.phase.script))
      && (job.kind == Down && (job.phase == Idle || job.phase == Posting) ==> |s.topology.peers| >= 2)
      && (s.clean && job.phase.Running? ==> Clean(s.topology, job.phase.script))
  }

  ghost predicate NoneRunning(s: System) { forall j: nat :: !IsRunning(s, j) }

  ghost predicate OneLiveDown(s: System) {
    forall i, j :: 0 <= i < j < |s.jobs| && s.jobs[i].kind == Down && s.jobs[j].kind == Down ==>
      !Live(s.jobs[i]) || !Live(s.jobs[j])
  }

  ghost predicate TopologyInv(s: System) {
    && TopologyOk(s.topology)
    && OneLiveDown(s)
    && (forall j: nat :: JobOk(s, j))
    && (s.clean && NoneRunning(s) ==> AtRest(s.topology))
  }

  lemma OnlyOneRuns(s: System, i: nat, j: nat)
    requires LeaseInv(s) && IsRunning(s, i) && Claims(s, j)
    ensures i == j
  {
    assert LeaseOk(s, i) && LeaseOk(s, j);
  }

  lemma CommandSucceeds(t: Topology, s: Script, seen: Seen)
    requires TopologyOk(t) && ScriptOk(t, s) && PodsListed(t, s, seen.pods) && !Completed(s)
    ensures Command(t, s, seen).Some?
    ensures var (t', s') := Command(t, s, seen).value; TopologyOk(t') && ScriptOk(t', s')
  {
    if s.kind == Up {
      UpKeeps(t, s, seen);
    } else {
      DownKeeps(t, s, seen);
    }
  }

  lemma CommandKeepsClean(t: Topology, s: Script, seen: Seen)
    requires TopologyOk(t) && ScriptOk(t, s) && PodsListed(t, s, seen.pods) && !Completed(s)
    requires Clean(t, s) && !ReadsNothing(s, seen)
    ensures Command(t, s, seen).Some?
    ensures var (t', s') := Command(t, s, seen).value; Clean(t', s')
  {
    if s.kind == Up {
      UpKeepsClean(t, s, seen);
    } else {
      DownKeepsClean(t, s, seen);
    }
  }

  lemma CommandFrame(t: Topology, s: Script, seen: Seen)
    requires Command(t, s, seen).Some?
    ensures var (t', s') := Command(t, s, seen).value;
            s'.kind == s.kind && (s.kind == Up ==> |t'.peers| >= |t.peers|)
  {
  }

  lemma CommandKeeps(t: Topology, s: Script, seen: Seen)
    requires TopologyOk(t) && ScriptOk(t, s) && PodsListed(t, s, seen.pods) && !Completed(s)
    ensures Command(t, s, seen).Some?
    ensures var (t', s') := Command(t, s, seen).value;
            && TopologyOk(t') && ScriptOk(t', s') && s'.kind == s.kind
            && (Clean(t, s) && !ReadsNothing(s, seen) ==> Clean(t', s'))
            && (s.kind == Up ==> |t'.peers| >= |t.peers|)
  {
    CommandSucceeds(t, s, seen);
    CommandFrame(t, s, seen);
    if Clean(t, s) && !ReadsNothing(s, seen) {
      CommandKeepsClean(t, s, seen);
    }
  }

  lemma CompletedAtRest(t: Topology, s: Script)
    requires Clean(t, s) && Completed(s)
    ensures AtRest(t)
  {
  }

  lemma SpawnStep(s: System, step: Step)
    requires TopologyInv(s) && step.Spawn? && Allowed(s, step)
    ensures TopologyInv(Do(s, step))
  {
    var s' := Do(s, step);
    if step.kind == Down {
      DownNeedsTwo(|s.topology.peers|, step.usage, Limits(s.topology, step.bare));
    }
    forall j: nat
      ensures JobOk(s', j) && IsRunning(s', j) == IsRunning(s, j)
    {
      assert JobOk(s, j);
    }
  }

  lemma PostSucceedsStep(s: System, step: Step)
    requires LeaseInv(s) && TopologyInv(s) && step.PostSucceeds?
    ensures TopologyInv(Do(s, step))
  {
    var s' := Do(s, step);
    if s' != s {
      forall i: nat
        ensures !IsRunning(s, i)
      {
        if IsRunning(s, i) {
          OnlyOneRuns(s, i, step.j);
        }
      }
      assert IsRunning(s', step.j);
      forall i: nat
        ensures JobOk(s', i)
      {
        assert JobOk(s, i);
      }
    }
  }

  /** The running job's script moves on, with the topology it works on. */
  lemma ScriptMoves(s: System, j: nat, t: Topology, script: Script, clean: bool)
    requires LeaseInv(s) && TopologyInv(s) && IsRunning(s, j)
    requires TopologyOk(t) && ScriptOk(t, script) && script.kind == s.jobs[j].kind
    requires clean ==> s.clean && Clean(t, script)
    requires s.jobs[j].kind == Up ==> |t.peers| >= |s.topology.peers|
    ensures TopologyInv(SetPhase(s, j, Running(script)).(topology := t, clean := clean))
  {
    var s' := SetPhase(s, j, Running(script)).(topology := t, clean := clean);
    assert IsRunning(s', j);
    forall i: nat
      ensures JobOk(s', i)
    {
      assert JobOk(s, i);
      if i != j && i < |s.jobs| {
        assert s'.jobs[i] == s.jobs[i];
        if IsRunning(s, i) {
          OnlyOneRuns(s, i, j);
        }
      }
    }
  }

  lemma RunCommandStep(s: System, step: Step)
    requires LeaseInv(s) && TopologyInv(s) && step.RunCommand? && Allowed(s, step)
    requires IsRunning(s, step.j) && !Completed(s.jobs[step.j].phase.script)
    ensures TopologyInv(Do(s, step))
  {
    var script := s.jobs[step.j].phase.script;
    assert JobOk(s, step.j);
    CommandKeeps(s.topology, script, step.seen);
    var (t, next) := Command(s.topology, script, step.seen).value;
    ScriptMoves(s, step.j, t, next, s.clean && !ReadsNothing(script, step.seen));
  }

  /** Job i ends, or changes in ways the topology does not see. */
  predicate JobWinds(s: System, s': System, i: nat)
    requires i < |s.jobs| == |s'.jobs|
  {
    var (before, after) := (s.jobs[i], s'.jobs[i]);
    && after.kind == before.kind
    && (Live(after) ==> Live(before))
    && (after.phase == Idle || after.phase == Posting ==> before.phase == Idle || before.phase == Posting)
    && (after.phase.Running? ==> after.phase == before.phase)
    && (before.phase.Running? && !after.phase.Running? && s'.clean ==> Completed(before.phase.script))
  }

  ghost predicate Winds(s: System, s': System) {
    && s'.topology == s.topology && |s'.jobs| == |s.jobs|
    && (s'.clean ==> s.clean)
    && forall i :: 0 <= i < |s.jobs| ==> JobWinds(s, s', i)
  }

  lemma OtherStepFrame(s: System, step: Step)
    requires !step.Spawn?
    requires step.RunCommand? && IsRunning(s, step.j) ==> Completed(s.jobs[step.j].phase.script)
    ensures var s' := Do(s, step);
            s'.topology == s.topology && |s'.jobs| == |s.jobs| && (s'.clean ==> s.clean)
  {
  }

  lemma OtherStepWinds(s: System, step: Step, i: nat)
    requires !step.Spawn? && !step.PostSucceeds? && i < |s.jobs| == |Do(s, step).jobs|
    requires step.RunCommand? && IsRunning(s, step.j) ==> Completed(s.jobs[step.j].phase.script)
    ensures JobWinds(s, Do(s, step), i)
  {
  }

  lemma WindsKeeps(s: System, s': System)
    requires TopologyInv(s) && Winds(s, s')
    ensures TopologyInv(s')
  {
    forall i: nat
      ensures JobOk(s', i) && (IsRunning(s', i) ==> IsRunning(s, i))
    {
      assert JobOk(s, i);
      if i < |s.jobs| {
        assert JobWinds(s, s', i);
      }
    }
    forall i, j | 0 <= i < j < |s.jobs| && s'.jobs[i].kind == Down && s'.jobs[j].kind == Down
      ensures !Live(s'.jobs[i]) || !Live(s'.jobs[j])
    {
      assert JobWinds(s, s', i) && JobWinds(s, s', j);
    }
    if s'.clean && NoneRunning(s') && !NoneRunning(s) {
      var i: nat :| IsRunning(s, i);
      assert JobOk(s, i) && JobWinds(s, s', i);
      assert !IsRunning(s', i);
      CompletedAtRest(s.topology, s.jobs[i].phase.script);
    }
  }

  lemma OtherStep(s: System, step: Step)
    requires TopologyInv(s) && !step.Spawn? && !step.PostSucceeds?
    requires step.RunCommand? && IsRunning(s, step.j) ==> Completed(s.jobs[step.j].phase.script)
    ensures TopologyInv(Do(s, step))
  {
    OtherStepFrame(s, step);
    forall i | 0 <= i < |s.jobs|
      ensures JobWinds(s, Do(s, step), i)
    {
      OtherStepWinds(s, step, i);
    }
    WindsKeeps(s, Do(s, step));
  }

  lemma {:induction false} TopologyInvariant(steps: seq<Step>)
    requires Governed(steps)
    ensures TopologyInv(Exec(steps))
  {
    if steps == [] {
      var t := Initial().topology;
      assert Stack(1) == [PeerName(0)];
      assert Names(t.peers) == {PeerName(0)};
      assert AtRest(t);
    } else {
      var init, step := steps[..|steps| - 1], steps[|steps| - 1];
      TopologyInvariant(init);
      LeaseInvariant(init);
      var s := Exec(init);
      if step.Spawn? {
        SpawnStep(s, step);
      } else if step.PostSucceeds? {
        PostSucceedsStep(s, step);
      } else if step.RunCommand? && IsRunning(s, step.j) && !Completed(s.jobs[step.j].phase.script) {
        RunCommandStep(s, step);
      } else {
        OtherStep(s, step);
      }
    }
  }

  /** Names stay unique and the floor holds over every governed run, with any scripts
      interrupted and any jobs crashed: n >= 1 peers are named peer0, peer2, ...,
      peer n in creation order, the next name is fresh, and only peers are joined. */
  lemma NamesAndFloor(steps: seq<Step>)
    requires Governed(steps)
    ensures var t := Exec(steps).topology;
            && |t.peers| >= 1
            && t.peers == Stack(|t.peers|)
            && Distinct(t.peers)
            && PeerName(|t.peers| + 1) !in t.peers
            && Names(t.joined) <= Names(t.peers)
            && Distinct(t.joined)
  {
    TopologyInvariant(steps);
    var n := |Exec(steps).topology.peers|;
    StackFresh(n, n + 1);
    StackDistinct(n);
  }

  lemma {:induction false} StackDistinct(n: nat)
    ensures Distinct(Stack(n))
  {
    if n > 1 {
      StackDistinct(n - 1);
      StackFresh(n - 1, n);
    }
  }

  /** In a governed run no command of a script fails on its own account: the name it
      creates is free and the peer it deletes exists. */
  lemma NoCommandClashes(steps: seq<Step>, j: nat, seen: Seen)
    requires Governed(steps) && IsRunning(Exec(steps), j)
    requires var s := Exec(steps);
             PodsListed(s.topology, s.jobs[j].phase.script, seen.pods) && !Completed(s.jobs[j].phase.script)
    ensures Command(Exec(steps).topology, Exec(steps).jobs[j].phase.script, seen).Some?
  {
    TopologyInvariant(steps);
    assert JobOk(Exec(steps), j);
    CommandSucceeds(Exec(steps).topology, Exec(steps).jobs[j].phase.script, seen);
  }

  /** If every job that held the lock completed and could read the profile, the three
      copies of the peer set agree whenever no script runs, and so whenever the lease
      is free; replicas equal the peer count or are one behind, without drift, and
      every peer has its CPU limit. */
  lemma AgreementAtRest(steps: seq<Step>)
    requires Governed(steps) && Exec(steps).clean
    ensures NoneRunning(Exec(steps)) ==> AtRest(Exec(steps).topology)
    ensures Exec(steps).lease == None ==> NoneRunning(Exec(steps))
  {
    TopologyInvariant(steps);
    LeaseInvariant(steps);
    var s := Exec(steps);
    if s.lease == None {
      forall j: nat
        ensures !IsRunning(s, j)
      {
        assert LeaseOk(s, j);
      }
    }
  }

  /** While a script runs after completed ones, its own peer is the only difference
      between the copies: a scale-up keeps profile <= joined <= created, a scale-down
      joined <= created <= profile + victim. */
  lemma AgreementInFlight(steps: seq<Step>, j: nat)
    requires Governed(steps) && Exec(steps).clean && IsRunning(Exec(steps), j)
    ensures var (t, script) := (Exec(steps).topology, Exec(steps).jobs[j].phase.script);
            && Names(t.joined) <= Names(t.peers) <= Names(t.joined) + {script.peer}
            && (script.kind == Up ==>
                  t.profile <= Names(t.joined) && Names(t.peers) <= t.profile + {script.peer})
            && (script.kind == Down ==>
                  Names(t.peers) <= t.profile <= Names(t.peers) + {script.peer})
  {
    TopologyInvariant(steps);
    assert JobOk(Exec(steps), j);
    var t, script := Exec(steps).topology, Exec(steps).jobs[j].phase.script;
    NamesAppend(t.joined, [script.peer]);
    assert Names([script.peer]) == {script.peer};
  }
}
