/** A scale-up creates its peer in one command and sets the peer's CPU limit in the
    next.  Between the two, and for ever if the script stops there, the operator's
    default limit counts.  For which defaults does that never lead the scaler astray? */
module Limits {
  import opened GoText
  import opened ScriptInvariant
  import opened SteadyLoad
  import opened Triggers
  import S = ScaleJobs
  import T = Topology

  /** The defaults that keep the scaler on its way from `first` peers: one more peer
      with the default limit, at the count before the resting one, must not look idle;
      and peers with the default limit up to the resting count must look like enough. */
  predicate Tame(first: nat, load: real, bare: real) {
    Up(first, load, PEER_CPU) ==>
      var (n, rest) := (first as real, Rest(first, load) as real);
      && PEER_CPU * (rest - 1.0) + bare < 5.0 * load
      && PEER_CPU * n + bare * (rest - n) > 1.25 * load
  }

  lemma UpRest(first: nat, load: real)
    requires first >= 1 && load >= 0.0 && Up(first, load, PEER_CPU)
    ensures load >= 0.2 * first as real && load >= 0.2
    ensures var rest := Rest(first, load); rest as real - 1.0 <= 5.0 * load < rest as real && first < rest
  {
    UpIff(first, load, PEER_CPU);
    assert 1.25 * Demand(load, PEER_CPU) == 5.0 * load;
  }

  /** The limit that the scripts set is such a default. */
  lemma PeerCpuIsTame(first: nat, load: real)
    requires first >= 1 && load >= 0.0
    ensures Tame(first, load, PEER_CPU)
  {
    if Up(first, load, PEER_CPU) {
      UpRest(first, load);
    }
  }

  // ----- sums of limits -----

  lemma SumAppend(peers: seq<Bytes>, peer: Bytes, patched: set<Bytes>, bare: real)
    ensures S.LimitSum(peers + [peer], patched, bare)
            == S.LimitSum(peers, patched, bare) + if peer in patched then PEER_CPU else bare
  {
    assert (peers + [peer])[..|peers|] == peers;
  }

  lemma {:induction false} SumFrame(peers: seq<Bytes>, peer: Bytes, patched: set<Bytes>, bare: real)
    requires peer !in peers
    ensures S.LimitSum(peers, patched + {peer}, bare) == S.LimitSum(peers, patched, bare)
  {
    if peers != [] {
      SumFrame(peers[..|peers| - 1], peer, patched, bare);
    }
  }

  predicate FirstPatched(t: T.Topology, first: nat) {
    first <= |t.peers| && forall i :: 0 <= i < first ==> t.peers[i] in t.patched
  }

  lemma Grown(m: real, n: nat, first: nat)
    requires n > first
    ensures m * (n - first) as real == m * (n - 1 - first) as real + m
  {
  }

  lemma {:induction false} SumLow(peers: seq<Bytes>, patched: set<Bytes>, bare: real, first: nat, low: real)
    requires first <= |peers| && forall i :: 0 <= i < first ==> peers[i] in patched
    requires low <= bare && low <= PEER_CPU
    ensures S.LimitSum(peers, patched, bare) >= PEER_CPU * first as real + low * (|peers| - first) as real
  {
    if |peers| == first {
      EqualLimits(peers, patched, bare);
    } else {
      SumLow(peers[..|peers| - 1], patched, bare, first, low);
      Grown(low, |peers|, first);
    }
  }

  lemma {:induction false} SumBare(peers: seq<Bytes>, patched: set<Bytes>, bare: real)
    requires bare >= 0.0
    ensures S.LimitSum(peers, patched, bare) >= 0.0
    ensures !(T.Names(peers) <= patched) ==> S.LimitSum(peers, patched, bare) >= bare
  {
    if peers != [] {
      var k := |peers| - 1;
      SumBare(peers[..k], patched, bare);
      assert peers == peers[..k] + [peers[k]];
      T.NamesAppend(peers[..k], [peers[k]]);
      assert T.Names([peers[k]]) == {peers[k]};
    }
  }

  // ----- the invariant on the way up -----

  /** Between the create and the limit. */
  predicate InWindow(job: S.Job) { job.phase.Running? && job.phase.script.pc == 2 && job.kind == T.Up }

  predicate JobTame(s: S.System, base: nat, load: real, bare: real, i: nat) {
    i < |s.jobs| ==>
      && (i < base ==> !S.Live(s.jobs[i]))
      && (i >= base ==> s.jobs[i].kind == T.Up)
      && (Pending(s.jobs[i]) ==> S.Limits(s.topology, bare) <= 1.25 * load)
      && (InWindow(s.jobs[i]) ==> S.Limits(s.topology, bare) - bare <= 1.25 * load)
  }

  ghost predicate TameInv(s: S.System, base: nat, first: nat, load: real, bare: real) {
    && base <= |s.jobs|
    && OneLive(s)
    && Peers(s) <= Rest(first, load)
    && FirstPatched(s.topology, first)
    && S.Limits(s.topology, bare) < 5.0 * load
    && forall i: nat :: JobTame(s, base, load, bare, i)
  }

  lemma LowLimits(t: T.Topology, first: nat, load: real, bare: real)
    requires first >= 1 && load >= 0.0 && Up(first, load, PEER_CPU) && Tame(first, load, bare)
    requires FirstPatched(t, first) && |t.peers| == Rest(first, load)
    ensures S.Limits(t, bare) > 1.25 * load
  {
    UpRest(first, load);
    var low := if bare < PEER_CPU then bare else PEER_CPU;
    SumLow(t.peers, t.patched, bare, first, low);
  }

  /** While the up trigger fires there is room for one peer with the default limit. */
  lemma Room(t: T.Topology, first: nat, load: real, bare: real)
    requires first >= 1 && load >= 0.0 && bare >= 0.0 && Up(first, load, PEER_CPU) && Tame(first, load, bare)
    requires FirstPatched(t, first) && |t.peers| <= Rest(first, load) && S.Limits(t, bare) <= 1.25 * load
    ensures |t.peers| < Rest(first, load) && S.Limits(t, bare) + bare < 5.0 * load
  {
    UpRest(first, load);
    if |t.peers| == Rest(first, load) {
      LowLimits(t, first, load, bare);
    }
    if AllPatched(t) {
      PatchedLimits(t, bare);
    } else {
      SumBare(t.peers, t.patched, bare);
    }
  }

  /** What one step does to the job that takes it, the peers and their limits. */
  predicate Moves(before: S.Job, after: S.Job, n: nat, n': nat, sum: real, sum': real, bare: real) {
    && after.kind == before.kind
    && (S.Live(after) ==> S.Live(before))
    && (Pending(after) ==> Pending(before) && n' == n && sum' == sum)
    && (InWindow(after) ==>
          || (InWindow(before) && n' == n && sum' == sum)
          || (Pending(before) && n' == n + 1 && sum' == sum + bare))
    && (|| (n' == n && sum' == sum)
        || (InWindow(after) && Pending(before) && n' == n + 1 && sum' == sum + bare)
        || (InWindow(before) && n' == n && sum' == sum - bare + PEER_CPU))
  }

  lemma QuietMoves(s: S.System, step: S.Step, bare: real)
    requires !step.Spawn? && !S.Commands(s, step)
    ensures var s' := S.Do(s, step);
            && s'.topology == s.topology && |s'.jobs| == |s.jobs|
            && (forall i :: 0 <= i < |s.jobs| && i != step.j ==> s'.jobs[i] == s.jobs[i])
            && (step.j < |s.jobs| ==>
                  var sum := S.Limits(s.topology, bare);
                  Moves(s.jobs[step.j], s'.jobs[step.j], Peers(s), Peers(s), sum, sum, bare))
  {
  }

  lemma Created(t: T.Topology, bare: real)
    requires TopologyOk(t)
    ensures var t' := t.(peers := t.peers + [T.PeerName(|t.peers| + 1)]);
            S.Limits(t', bare) == S.Limits(t, bare) + bare
  {
    CreateKeeps(t);
    SumAppend(t.peers, T.PeerName(|t.peers| + 1), t.patched, bare);
  }

  lemma LimitSet(t: T.Topology, peer: Bytes, bare: real)
    requires TopologyOk(t) && |t.peers| >= 2 && peer == T.PeerName(|t.peers|) && peer !in t.patched
    ensures S.Limits(t.(patched := t.patched + {peer}), bare) == S.Limits(t, bare) - bare + PEER_CPU
  {
    var n := |t.peers|;
    var init := T.Stack(n - 1);
    T.StackFresh(n - 1, n);
    assert t.peers == init + [peer];
    SumAppend(init, peer, t.patched, bare);
    SumAppend(init, peer, t.patched + {peer}, bare);
    SumFrame(init, peer, t.patched, bare);
  }

  lemma UpTouches(t: T.Topology, script: T.Script, seen: T.Seen)
    requires T.UpCommand(t, script, seen).Some?
    ensures var (t', script') := T.UpCommand(t, script, seen).value;
            && script'.kind == script.kind && script'.pc == script.pc + 1
            && t'.peers == t.peers + (if script.pc == 1 then [script.peer] else [])
            && t'.patched == t.patched + (if script.pc == 2 then {script.peer} else {})
  {
  }

  lemma UpSums(t: T.Topology, script: T.Script, bare: real)
    requires TopologyOk(t) && UpOk(t, script)
    ensures script.pc == 1 ==> S.LimitSum(t.peers + [script.peer], t.patched, bare) == S.Limits(t, bare) + bare
    ensures script.pc == 2 ==>
              S.LimitSum(t.peers, t.patched + {script.peer}, bare) == S.Limits(t, bare) - bare + PEER_CPU
  {
    if script.pc == 1 {
      Created(t, bare);
    } else if script.pc == 2 {
      LimitSet(t, script.peer, bare);
    }
  }

  lemma ScriptMoves(script: T.Script, script': T.Script, n: nat, n': nat, sum: real, sum': real, bare: real)
    requires script.kind == script'.kind == T.Up && script'.pc == script.pc + 1
    requires n' == n + (if script.pc == 1 then 1 else 0)
    requires sum' == (if script.pc == 1 then sum + bare else if script.pc == 2 then sum - bare + PEER_CPU else sum)
    ensures Moves(S.Job(T.Up, S.Running(script), true), S.Job(T.Up, S.Running(script'), true), n, n', sum, sum', bare)
  {
  }

  lemma UpMoves(t: T.Topology, script: T.Script, seen: T.Seen, bare: real)
    requires TopologyOk(t) && script.kind == T.Up && UpOk(t, script) && T.UpCommand(t, script, seen).Some?
    ensures var (t', script') := T.UpCommand(t, script, seen).value;
            && Moves(S.Job(T.Up, S.Running(script), true), S.Job(T.Up, S.Running(script'), true),
                     |t.peers|, |t'.peers|, S.Limits(t, bare), S.Limits(t', bare), bare)
            && t.peers <= t'.peers && t.patched <= t'.patched
  {
    hide T.UpCommand, TopologyOk, UpOk, S.LimitSum;
    var (t', script') := T.UpCommand(t, script, seen).value;
    UpTouches(t, script, seen);
    UpSums(t, script, bare);
    assert t.peers + [] == t.peers && t.patched + {} == t.patched;
    ScriptMoves(script, script', |t.peers|, |t'.peers|, S.Limits(t, bare), S.Limits(t', bare), bare);
  }

  lemma JobUp(s: S.System, j: nat)
    requires S.IsRunning(s, j) && S.JobOk(s, j) && s.jobs[j].kind == T.Up
    ensures s.jobs[j].phase.script.kind == T.Up && UpOk(s.topology, s.jobs[j].phase.script)
  {
  }

  lemma CommandMoves(s: S.System, step: S.Step, bare: real)
    requires S.Commands(s, step) && S.JobOk(s, step.j) && TopologyOk(s.topology) && s.jobs[step.j].kind == T.Up
    ensures var s' := S.Do(s, step);
            && |s'.jobs| == |s.jobs|
            && (forall i :: 0 <= i < |s.jobs| && i != step.j ==> s'.jobs[i] == s.jobs[i])
            && Moves(s.jobs[step.j], s'.jobs[step.j], Peers(s), Peers(s'),
                     S.Limits(s.topology, bare), S.Limits(s'.topology, bare), bare)
            && s.topology.peers <= s'.topology.peers && s.topology.patched <= s'.topology.patched
  {
    hide S.Do, S.JobOk, TopologyOk, UpOk, T.UpCommand, S.LimitSum;
    CommandDoes(s, step);
    JobUp(s, step.j);
    UpMoves(s.topology, s.jobs[step.j].phase.script, step.seen, bare);
  }

  lemma MoveTame(s: S.System, s': S.System, j: nat, base: nat, first: nat, load: real, bare: real)
    requires first >= 1 && load >= 0.0 && bare >= 0.0 && Up(first, load, PEER_CPU) && Tame(first, load, bare)
    requires TameInv(s, base, first, load, bare) && |s'.jobs| == |s.jobs|
    requires s.topology.peers <= s'.topology.peers && s.topology.patched <= s'.topology.patched
    requires forall i :: 0 <= i < |s.jobs| && i != j ==> s'.jobs[i] == s.jobs[i]
    requires if j < |s.jobs| then Moves(s.jobs[j], s'.jobs[j], Peers(s), Peers(s'), S.Limits(s.topology, bare),
                                        S.Limits(s'.topology, bare), bare)
             else Peers(s') == Peers(s) && S.Limits(s'.topology, bare) == S.Limits(s.topology, bare)
    ensures TameInv(s', base, first, load, bare)
  {
    UpRest(first, load);
    assert JobTame(s, base, load, bare, j);
    if j < |s.jobs| && Pending(s.jobs[j]) {
      Room(s.topology, first, load, bare);
    }
    forall i: nat
      ensures JobTame(s', base, load, bare, i)
    {
      assert JobTame(s, base, load, bare, i);
    }
  }

  lemma SpawnTame(s: S.System, step: S.Step, base: nat, first: nat, load: real, bare: real)
    requires first >= 1 && load >= 0.0 && bare >= 0.0 && Up(first, load, PEER_CPU)
    requires TameInv(s, base, first, load, bare)
    requires step.Spawn? && S.Allowed(s, step) && Sampled(s, step, load, bare)
    ensures TameInv(S.Do(s, step), base, first, load, bare)
  {
    UpFires(load, S.Limits(s.topology, bare), step.usage);
    DownFires(Peers(s), load, S.Limits(s.topology, bare), step.usage);
    var s' := S.Do(s, step);
    forall i: nat
      ensures JobTame(s', base, load, bare, i)
    {
      assert JobTame(s, base, load, bare, i);
    }
    forall i | 0 <= i < |s.jobs|
      ensures !S.Live(s.jobs[i])
    {
      assert JobTame(s, base, load, bare, i);
    }
  }

  lemma StepTame(s: S.System, step: S.Step, base: nat, first: nat, load: real, bare: real)
    requires first >= 1 && load >= 0.0 && bare >= 0.0 && Up(first, load, PEER_CPU) && Tame(first, load, bare)
    requires S.TopologyInv(s) && TameInv(s, base, first, load, bare) && S.Allowed(s, step)
    requires step.Spawn? ==> Sampled(s, step, load, bare)
    ensures TameInv(S.Do(s, step), base, first, load, bare) && Peers(S.Do(s, step)) >= Peers(s)
  {
    if step.Spawn? {
      SpawnTame(s, step, base, first, load, bare);
    } else {
      if S.Commands(s, step) {
        assert S.JobOk(s, step.j) && JobTame(s, base, load, bare, step.j);
        CommandMoves(s, step, bare);
      } else {
        QuietMoves(s, step, bare);
      }
      MoveTame(s, S.Do(s, step), step.j, base, first, load, bare);
    }
  }

  lemma QuietTame(s: S.System, load: real, bare: real)
    requires Peers(s) >= 1 && Quiet(s) && AllPatched(s.topology) && load >= 0.0 && Up(Peers(s), load, PEER_CPU)
    ensures TameInv(s, |s.jobs|, Peers(s), load, bare)
  {
    UpRest(Peers(s), load);
    PatchedLimits(s.topology, bare);
    forall i | 0 <= i < Peers(s)
      ensures s.topology.peers[i] in s.topology.patched
    {
      assert s.topology.peers[i] in T.Names(s.topology.peers);
    }
  }

  lemma {:induction false} TameInvariant(steps: seq<S.Step>, more: seq<S.Step>, load: real, bare: real)
    requires Continues(steps, more, load, bare) && AllPatched(S.Exec(steps).topology) && load >= 0.0 && bare >= 0.0
    requires Up(Peers(S.Exec(steps)), load, PEER_CPU) && Tame(Peers(S.Exec(steps)), load, bare)
    ensures S.TopologyInv(S.Exec(steps + more))
    ensures Peers(S.Exec(steps)) >= 1
    ensures TameInv(S.Exec(steps + more), |S.Exec(steps).jobs|, Peers(S.Exec(steps)), load, bare)
  {
    S.TopologyInvariant(steps + more);
    if more == [] {
      assert steps + more == steps;
      QuietTame(S.Exec(steps), load, bare);
    } else {
      var k := |more| - 1;
      Shorter(steps, more, load, bare);
      TameInvariant(steps, more[..k], load, bare);
      StepTame(S.Exec(steps + more[..k]), more[k], |S.Exec(steps).jobs|, Peers(S.Exec(steps)), load, bare);
    }
  }

  lemma {:induction false} TameGrows(steps: seq<S.Step>, more: seq<S.Step>, load: real, bare: real, i: nat)
    requires Continues(steps, more, load, bare) && AllPatched(S.Exec(steps).topology) && load >= 0.0 && bare >= 0.0
    requires Up(Peers(S.Exec(steps)), load, PEER_CPU) && Tame(Peers(S.Exec(steps)), load, bare) && i <= |more|
    ensures Peers(S.Exec(steps)) <= Peers(S.Exec(steps + more[..i])) <= Peers(S.Exec(steps + more))
    decreases more
  {
    if i == |more| {
      assert more[..i] == more;
      TameInvariant(steps, more, load, bare);
    } else {
      var k := |more| - 1;
      Shorter(steps, more, load, bare);
      TameGrows(steps, more[..k], load, bare, i);
      assert more[..k][..i] == more[..i];
      TameInvariant(steps, more[..k], load, bare);
      StepTame(S.Exec(steps + more[..k]), more[k], |S.Exec(steps).jobs|, Peers(S.Exec(steps)), load, bare);
    }
  }

  // ----- the way down: every limit stays set -----

  lemma DownTouches(t: T.Topology, script: T.Script, seen: T.Seen)
    requires T.DownCommand(t, script, seen).Some?
    ensures var t' := T.DownCommand(t, script, seen).value.0;
            && t'.peers == (if script.pc == 4 then T.Remove(t.peers, script.peer) else t.peers)
            && t'.patched == (if script.pc == 4 then t.patched - {script.peer} else t.patched)
  {
  }

  lemma DownKeepsPatched(t: T.Topology, script: T.Script, seen: T.Seen)
    requires script.kind == T.Down && AllPatched(t) && T.Command(t, script, seen).Some?
    ensures AllPatched(T.Command(t, script, seen).value.0)
  {
    DownTouches(t, script, seen);
    T.RemoveNames(t.peers, script.peer);
  }

  lemma QuietTopology(s: S.System, step: S.Step)
    ensures S.Do(s, step).topology
            == if S.Commands(s, step) then T.Command(s.topology, s.jobs[step.j].phase.script, step.seen).value.0
               else s.topology
  {
  }

  lemma DownPatched(s: S.System, step: S.Step)
    requires S.TopologyInv(s) && AllPatched(s.topology)
    requires step.RunCommand? && S.IsRunning(s, step.j) ==> s.jobs[step.j].kind == T.Down
    ensures AllPatched(S.Do(s, step).topology)
  {
    QuietTopology(s, step);
    if S.Commands(s, step) {
      assert S.JobOk(s, step.j);
      DownKeepsPatched(s.topology, s.jobs[step.j].phase.script, step.seen);
    }
  }

  lemma {:induction false} DownSees(steps: seq<S.Step>, more: seq<S.Step>, load: real, bare: real)
    requires Continues(steps, more, load, bare) && AllPatched(S.Exec(steps).topology) && load >= 0.0
    requires !Up(Peers(S.Exec(steps)), load, PEER_CPU)
    ensures SeesPatched(steps, more) && AllPatched(S.Exec(steps + more).topology)
  {
    if more == [] {
      assert steps + more == steps;
    } else {
      var k := |more| - 1;
      Shorter(steps, more, load, bare);
      DownSees(steps, more[..k], load, bare);
      SteadyInvariant(steps, more[..k], load, bare);
      var s := S.Exec(steps + more[..k]);
      if more[k].RunCommand? {
        assert JobSteady(s, |S.Exec(steps).jobs|, Peers(S.Exec(steps)), load, more[k].j);
      }
      DownPatched(s, more[k]);
    }
  }

  /** With a tame default, and every limit set at the start, every run is direct. */
  lemma TameRun(steps: seq<S.Step>, more: seq<S.Step>, load: real, bare: real)
    requires Continues(steps, more, load, bare) && AllPatched(S.Exec(steps).topology) && load >= 0.0 && bare >= 0.0
    requires Tame(Peers(S.Exec(steps)), load, bare)
    ensures Direct(steps, more, load)
    ensures var (before, after) := (S.Exec(steps), S.Exec(steps + more));
            forall i :: |before.jobs| <= i < |after.jobs| ==>
                          after.jobs[i].kind == Toward(Peers(before), load)
  {
    var (before, after) := (S.Exec(steps), S.Exec(steps + more));
    if Up(Peers(before), load, PEER_CPU) {
      TameInvariant(steps, more, load, bare);
      forall i | 0 <= i <= |more|
        ensures Between(Peers(before), Peers(S.Exec(steps + more[..i])), Peers(after))
      {
        TameGrows(steps, more, load, bare, i);
      }
      forall i | |before.jobs| <= i < |after.jobs|
        ensures after.jobs[i].kind == T.Up
      {
        assert JobTame(after, |before.jobs|, load, bare, i);
      }
    } else {
      DownSees(steps, more, load, bare);
      SteadyRun(steps, more, load, bare);
    }
  }
}
