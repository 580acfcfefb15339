/** Scale jobs under a constant offered load, over every run the chart allows: jobs may
    be refused the lease, stop after any command or crash. */
module SteadyLoad {
  import opened GoText
  import opened ScriptInvariant
  import opened Triggers
  import S = ScaleJobs
  import T = Topology

  function Peers(s: S.System): nat { |s.topology.peers| }

  predicate Quiet(s: S.System) { forall i :: 0 <= i < |s.jobs| ==> !S.Live(s.jobs[i]) }

  /** The samples that start jobs come from one offered load and one default limit. */
  predicate Steady(steps: seq<S.Step>, more: seq<S.Step>, load: real, bare: real) {
    more == []
    || (var k := |more| - 1;
        && Steady(steps, more[..k], load, bare)
        && (more[k].Spawn? ==> Sampled(S.Exec(steps + more[..k]), more[k], load, bare)))
  }

  predicate Sampled(s: S.System, step: S.Step, load: real, bare: real)
    requires step.Spawn?
  {
    step.bare == bare && Offers(load, S.Limits(s.topology, bare), step.usage)
  }

  /** No trigger is sampled while some peer's limit is not set. */
  ghost predicate SeesPatched(steps: seq<S.Step>, more: seq<S.Step>) {
    more == []
    || (var k := |more| - 1;
        && SeesPatched(steps, more[..k])
        && (more[k].Spawn? ==> AllPatched(S.Exec(steps + more[..k]).topology)))
  }

  /** The trigger fires under this load. */
  predicate Enabled(kind: T.Kind, t: T.Topology, load: real, bare: real) {
    S.Triggered(kind, t, Usage(load, S.Limits(t, bare)), bare)
  }

  lemma {:induction false} EqualLimits(peers: seq<Bytes>, patched: set<Bytes>, bare: real)
    requires forall i :: 0 <= i < |peers| ==> peers[i] in patched
    ensures S.LimitSum(peers, patched, bare) == Capacity(|peers|, PEER_CPU)
  {
    if peers != [] {
      EqualLimits(peers[..|peers| - 1], patched, bare);
    }
  }

  lemma PatchedLimits(t: T.Topology, bare: real)
    requires AllPatched(t)
    ensures S.Limits(t, bare) == Capacity(|t.peers|, PEER_CPU)
  {
    forall i | 0 <= i < |t.peers|
      ensures t.peers[i] in t.patched
    {
      assert t.peers[i] in T.Names(t.peers);
    }
    EqualLimits(t.peers, t.patched, bare);
  }

  /** With every limit set, a sample fires the triggers of equal limits. */
  lemma PatchedTriggers(kind: T.Kind, t: T.Topology, load: real, usage: real, bare: real)
    requires AllPatched(t) && |t.peers| >= 1 && Offers(load, S.Limits(t, bare), usage)
    ensures S.Triggered(kind, t, usage, bare) <==>
            if kind == T.Up then Up(|t.peers|, load, PEER_CPU) else Down(|t.peers|, load, PEER_CPU)
  {
    var n := |t.peers|;
    PatchedLimits(t, bare);
    var c := Capacity(n, PEER_CPU);
    Scaled(1.0, n, PEER_CPU);
    UpFires(load, c, usage);
    UpFires(load, c, Usage(load, c));
    DownFires(n, load, c, usage);
    DownFires(n, load, c, Usage(load, c));
  }

  /** Under this load only this kind of job can start from `first` peers. */
  function Toward(first: nat, load: real): T.Kind {
    if Up(first, load, PEER_CPU) then T.Up else T.Down
  }

  function Rest(first: nat, load: real): int { Settle(first, load, PEER_CPU) }

  /** Between the start and the resting count, the trigger of the one direction is
      enabled exactly before the resting count, and the other never. */
  lemma Zone(first: nat, n: nat, load: real)
    requires first >= 1 && n >= 1 && load >= 0.0 && Between(first, n, Rest(first, load))
    ensures Up(n, load, PEER_CPU) <==> Toward(first, load) == T.Up && n != Rest(first, load)
    ensures Down(n, load, PEER_CPU) <==> Toward(first, load) == T.Down && n != Rest(first, load)
  {
    UpIff(first, load, PEER_CPU);
    DownIff(first, load, PEER_CPU);
    UpIff(n, load, PEER_CPU);
    DownIff(n, load, PEER_CPU);
  }

  /** The job has yet to change the number of peers, if it ever does. */
  predicate Pending(job: S.Job) {
    match job.phase
    case Idle => true
    case Posting => true
    case Running(script) => script.pc <= if job.kind == T.Up then 1 else 4
    case _ => false
  }

  predicate JobSteady(s: S.System, base: nat, first: nat, load: real, i: nat) {
    i < |s.jobs| ==>
      && (i < base ==> !S.Live(s.jobs[i]))
      && (i >= base ==> s.jobs[i].kind == Toward(first, load))
      && (Pending(s.jobs[i]) ==> Peers(s) != Rest(first, load))
  }

  ghost predicate OneLive(s: S.System) {
    forall i, j :: 0 <= i < j < |s.jobs| ==> !S.Live(s.jobs[i]) || !S.Live(s.jobs[j])
  }

  ghost predicate SteadyInv(s: S.System, base: nat, first: nat, load: real) {
    && base <= |s.jobs|
    && OneLive(s)
    && Between(first, Peers(s), Rest(first, load))
    && forall i: nat :: JobSteady(s, base, first, load, i)
  }

  lemma SpawnSteady(s: S.System, step: S.Step, base: nat, first: nat, load: real, bare: real)
    requires first >= 1 && load >= 0.0 && Peers(s) >= 1 && SteadyInv(s, base, first, load)
    requires step.Spawn? && S.Allowed(s, step) && Sampled(s, step, load, bare) && AllPatched(s.topology)
    ensures SteadyInv(S.Do(s, step), base, first, load)
  {
    PatchedTriggers(step.kind, s.topology, load, step.usage, bare);
    Zone(first, Peers(s), load);
    var s' := S.Do(s, step);
    forall i: nat
      ensures JobSteady(s', base, first, load, i)
    {
      assert JobSteady(s, base, first, load, i);
    }
    forall i | 0 <= i < |s.jobs|
      ensures !S.Live(s.jobs[i])
    {
      assert JobSteady(s, base, first, load, i);
    }
  }

  /** A step that starts no job changes one job, and the peers only through it. */
  predicate Advances(before: S.Job, after: S.Job, n: nat, n': nat) {
    && after.kind == before.kind
    && (S.Live(after) ==> S.Live(before))
    && (Pending(after) ==> Pending(before) && n' == n)
    && (n' != n ==> Pending(before) && n' as int == if before.kind == T.Up then n + 1 else n - 1)
  }

  lemma QuietStep(s: S.System, step: S.Step)
    requires !step.Spawn? && !S.Commands(s, step)
    ensures var s' := S.Do(s, step);
            && s'.topology == s.topology && |s'.jobs| == |s.jobs|
            && (forall i :: 0 <= i < |s.jobs| && i != step.j ==> s'.jobs[i] == s.jobs[i])
            && (step.j < |s.jobs| ==> Advances(s.jobs[step.j], s'.jobs[step.j], Peers(s), Peers(s)))
  {
  }

  lemma UpAdvances(t: T.Topology, script: T.Script, seen: T.Seen)
    requires script.kind == T.Up && T.UpCommand(t, script, seen).Some?
    ensures var (t', script') := T.UpCommand(t, script, seen).value;
            && script'.kind == script.kind && script'.pc == script.pc + 1
            && |t'.peers| == |t.peers| + if script.pc == 1 then 1 else 0
  {
  }

  lemma DownAdvances(t: T.Topology, script: T.Script, seen: T.Seen)
    requires script.kind == T.Down && T.DownCommand(t, script, seen).Some?
    requires script.pc == 4 ==> |T.Remove(t.peers, script.peer)| == |t.peers| - 1
    ensures var (t', script') := T.DownCommand(t, script, seen).value;
            && script'.kind == script.kind && script'.pc == script.pc + 1
            && |t'.peers| == |t.peers| - if script.pc == 4 then 1 else 0
  {
  }

  lemma Shrinks(t: T.Topology, script: T.Script)
    requires TopologyOk(t) && DownOk(t, script) && script.pc == 4
    ensures |T.Remove(t.peers, script.peer)| == |t.peers| - 1
  {
    DeleteKeeps(t, script.peer);
  }

  lemma CommandAdvances(t: T.Topology, script: T.Script, seen: T.Seen)
    requires T.Command(t, script, seen).Some?
    requires script.kind == T.Down && script.pc == 4 ==> |T.Remove(t.peers, script.peer)| == |t.peers| - 1
    ensures var (t', script') := T.Command(t, script, seen).value;
            Advances(S.Job(script.kind, S.Running(script), true), S.Job(script.kind, S.Running(script'), true),
                     |t.peers|, |t'.peers|)
  {
    hide T.UpCommand, T.DownCommand;
    if script.kind == T.Up {
      UpAdvances(t, script, seen);
    } else {
      DownAdvances(t, script, seen);
    }
  }

  /** What a command that succeeds does to the system. */
  lemma CommandDoes(s: S.System, step: S.Step)
    requires S.Commands(s, step)
    ensures var (t, script) := T.Command(s.topology, s.jobs[step.j].phase.script, step.seen).value;
            var s' := S.Do(s, step);
            s'.topology == t && s'.jobs == s.jobs[step.j := s.jobs[step.j].(phase := S.Running(script))]
  {
    hide T.UpCommand, T.DownCommand;
  }

  lemma JobShrinks(s: S.System, j: nat)
    requires S.IsRunning(s, j) && S.JobOk(s, j) && TopologyOk(s.topology)
    ensures var script := s.jobs[j].phase.script;
            script.kind == s.jobs[j].kind
            && (script.kind == T.Down && script.pc == 4 ==>
                  |T.Remove(s.topology.peers, script.peer)| == |s.topology.peers| - 1)
  {
    var script := s.jobs[j].phase.script;
    if script.kind == T.Down && script.pc == 4 {
      Shrinks(s.topology, script);
    }
  }

  lemma CommandStep(s: S.System, step: S.Step)
    requires S.Commands(s, step) && S.JobOk(s, step.j) && TopologyOk(s.topology)
    ensures var s' := S.Do(s, step);
            && |s'.jobs| == |s.jobs|
            && (forall i :: 0 <= i < |s.jobs| && i != step.j ==> s'.jobs[i] == s.jobs[i])
            && Advances(s.jobs[step.j], s'.jobs[step.j], Peers(s), Peers(s'))
  {
    hide S.Do, S.JobOk, TopologyOk, T.Command;
    CommandDoes(s, step);
    JobShrinks(s, step.j);
    CommandAdvances(s.topology, s.jobs[step.j].phase.script, step.seen);
  }

  /** The resting count lies in the direction of the jobs. */
  lemma RestSide(first: nat, load: real)
    requires first >= 1 && load >= 0.0
    ensures Toward(first, load) == T.Up ==> first < Rest(first, load)
    ensures Toward(first, load) == T.Down ==> 1 <= Rest(first, load) <= first
  {
    UpIff(first, load, PEER_CPU);
    DownIff(first, load, PEER_CPU);
  }

  lemma OneMove(before: S.Job, after: S.Job, n: nat, n': nat, first: nat, load: real)
    requires first >= 1 && load >= 0.0
    requires Advances(before, after, n, n') && Between(first, n, Rest(first, load))
    requires n' != n ==> before.kind == Toward(first, load)
    requires Pending(before) ==> n != Rest(first, load)
    ensures Between(first, n', Rest(first, load)) && Between(first, n, n')
  {
    RestSide(first, load);
  }

  lemma AdvanceSteady(s: S.System, s': S.System, j: nat, base: nat, first: nat, load: real)
    requires first >= 1 && load >= 0.0 && SteadyInv(s, base, first, load) && |s'.jobs| == |s.jobs|
    requires forall i :: 0 <= i < |s.jobs| && i != j ==> s'.jobs[i] == s.jobs[i]
    requires if j < |s.jobs| then Advances(s.jobs[j], s'.jobs[j], Peers(s), Peers(s')) else Peers(s') == Peers(s)
    ensures SteadyInv(s', base, first, load)
    ensures Between(first, Peers(s), Peers(s'))
  {
    assert JobSteady(s, base, first, load, j);
    if j < |s.jobs| {
      OneMove(s.jobs[j], s'.jobs[j], Peers(s), Peers(s'), first, load);
    }
    forall i: nat
      ensures JobSteady(s', base, first, load, i)
    {
      assert JobSteady(s, base, first, load, i);
    }
  }

  lemma StepSteady(s: S.System, step: S.Step, base: nat, first: nat, load: real, bare: real)
    requires first >= 1 && load >= 0.0 && S.TopologyInv(s) && SteadyInv(s, base, first, load)
    requires S.Allowed(s, step)
    requires step.Spawn? ==> Sampled(s, step, load, bare) && AllPatched(s.topology)
    ensures SteadyInv(S.Do(s, step), base, first, load)
    ensures Between(first, Peers(s), Peers(S.Do(s, step)))
  {
    if step.Spawn? {
      SpawnSteady(s, step, base, first, load, bare);
    } else {
      if S.Commands(s, step) {
        assert S.JobOk(s, step.j);
        CommandStep(s, step);
      } else {
        QuietStep(s, step);
      }
      AdvanceSteady(s, S.Do(s, step), step.j, base, first, load);
    }
  }

  lemma QuietSteady(s: S.System, load: real)
    requires Peers(s) >= 1 && Quiet(s) && load >= 0.0
    ensures SteadyInv(s, |s.jobs|, Peers(s), load)
  {
    RestSide(Peers(s), load);
  }

  /** A run the chart allows from a quiet state, with its samples from one load. */
  predicate Continues(steps: seq<S.Step>, more: seq<S.Step>, load: real, bare: real) {
    S.Governed(steps + more) && Quiet(S.Exec(steps)) && Steady(steps, more, load, bare)
  }

  lemma Shorter(steps: seq<S.Step>, more: seq<S.Step>, load: real, bare: real)
    requires Continues(steps, more, load, bare) && more != []
    ensures var k := |more| - 1;
            && Continues(steps, more[..k], load, bare)
            && S.Allowed(S.Exec(steps + more[..k]), more[k])
            && S.Exec(steps + more) == S.Do(S.Exec(steps + more[..k]), more[k])
            && (more[k].Spawn? ==> Sampled(S.Exec(steps + more[..k]), more[k], load, bare))
  {
    hide S.Do, S.Allowed, Sampled;
    var k := |more| - 1;
    assert (steps + more)[..|steps + more| - 1] == steps + more[..k];
    assert (steps + more)[|steps + more| - 1] == more[k];
  }

  lemma {:induction false} SteadyInvariant(steps: seq<S.Step>, more: seq<S.Step>, load: real, bare: real)
    requires Continues(steps, more, load, bare) && SeesPatched(steps, more) && load >= 0.0
    ensures S.TopologyInv(S.Exec(steps + more))
    ensures Peers(S.Exec(steps)) >= 1
    ensures SteadyInv(S.Exec(steps + more), |S.Exec(steps).jobs|, Peers(S.Exec(steps)), load)
  {
    S.TopologyInvariant(steps + more);
    if more == [] {
      assert steps + more == steps;
      QuietSteady(S.Exec(steps), load);
    } else {
      var k := |more| - 1;
      Shorter(steps, more, load, bare);
      SteadyInvariant(steps, more[..k], load, bare);
      StepSteady(S.Exec(steps + more[..k]), more[k], |S.Exec(steps).jobs|, Peers(S.Exec(steps)), load, bare);
    }
  }

  /** The peer count never turns back. */
  lemma {:induction false} OneWay(steps: seq<S.Step>, more: seq<S.Step>, load: real, bare: real, i: nat)
    requires Continues(steps, more, load, bare) && SeesPatched(steps, more) && load >= 0.0 && i <= |more|
    ensures Between(Peers(S.Exec(steps)), Peers(S.Exec(steps + more[..i])), Peers(S.Exec(steps + more)))
    decreases more
  {
    if i == |more| {
      assert more[..i] == more;
    } else {
      var k := |more| - 1;
      Shorter(steps, more, load, bare);
      OneWay(steps, more[..k], load, bare, i);
      assert more[..k][..i] == more[..i];
      SteadyInvariant(steps, more[..k], load, bare);
      var (s, first) := (S.Exec(steps + more[..k]), Peers(S.Exec(steps)));
      StepSteady(s, more[k], |S.Exec(steps).jobs|, first, load, bare);
    }
  }

  /** The peer count moves one way and never passes the resting count. */
  ghost predicate Direct(steps: seq<S.Step>, more: seq<S.Step>, load: real) {
    var (first, n) := (Peers(S.Exec(steps)), Peers(S.Exec(steps + more)));
    && (forall i :: 0 <= i <= |more| ==> Between(first, Peers(S.Exec(steps + more[..i])), n))
    && Between(first, n, Rest(first, load))
  }

  /** From a quiet state, for every continuation the chart allows while one load is
      offered, with refusals, stops and crashes anywhere, whatever limit a peer has
      before its own is set, if no trigger is sampled then: jobs of one kind only are
      started; the peer count moves one way and never passes the closed-form resting
      count; and with every limit set, no trigger fires exactly when it is there. */
  lemma SteadyRun(steps: seq<S.Step>, more: seq<S.Step>, load: real, bare: real)
    requires Continues(steps, more, load, bare) && SeesPatched(steps, more) && load >= 0.0
    ensures Direct(steps, more, load)
    ensures var (before, after) := (S.Exec(steps), S.Exec(steps + more));
            var first := Peers(before);
            && (forall i :: |before.jobs| <= i < |after.jobs| ==> after.jobs[i].kind == Toward(first, load))
            && (AllPatched(after.topology) ==>
                  (Peers(after) == Rest(first, load) <==>
                   !Enabled(T.Up, after.topology, load, bare) && !Enabled(T.Down, after.topology, load, bare)))
  {
    SteadyInvariant(steps, more, load, bare);
    var (before, after) := (S.Exec(steps), S.Exec(steps + more));
    forall i | |before.jobs| <= i < |after.jobs|
      ensures after.jobs[i].kind == Toward(Peers(before), load)
    {
      assert JobSteady(after, |before.jobs|, Peers(before), load, i);
    }
    forall i | 0 <= i <= |more|
      ensures Between(Peers(before), Peers(S.Exec(steps + more[..i])), Peers(after))
    {
      OneWay(steps, more, load, bare, i);
    }
    Settled(after, Peers(before), load, bare);
  }

  lemma Settled(s: S.System, first: nat, load: real, bare: real)
    requires first >= 1 && Peers(s) >= 1 && load >= 0.0 && Between(first, Peers(s), Rest(first, load))
    ensures AllPatched(s.topology) ==>
              (Peers(s) == Rest(first, load) <==>
               !Enabled(T.Up, s.topology, load, bare) && !Enabled(T.Down, s.topology, load, bare))
  {
    if AllPatched(s.topology) {
      PatchedLimits(s.topology, bare);
      Scaled(1.0, Peers(s), PEER_CPU);
      Zone(first, Peers(s), load);
    }
  }

  /** If moreover every job that held the lock completed and could read the profile, and
      no script runs, the copies agree, under the names of the resting count exactly
      when no trigger fires. */
  lemma SteadyTopology(steps: seq<S.Step>, more: seq<S.Step>, load: real, bare: real)
    requires Continues(steps, more, load, bare) && SeesPatched(steps, more) && load >= 0.0
    requires S.Exec(steps + more).clean && S.NoneRunning(S.Exec(steps + more))
    ensures Rest(Peers(S.Exec(steps)), load) >= 1
    ensures var t := S.Exec(steps + more).topology;
            && AtRest(t)
            && (t.peers == T.Stack(Rest(Peers(S.Exec(steps)), load)) <==>
                !Enabled(T.Up, t, load, bare) && !Enabled(T.Down, t, load, bare))
  {
    SteadyInvariant(steps, more, load, bare);
    RestSide(Peers(S.Exec(steps)), load);
    SteadyRun(steps, more, load, bare);
    S.AgreementAtRest(steps + more);
  }
}
