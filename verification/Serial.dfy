/** Every run the chart allows, however its jobs interleave, stop and crash, leaves the
    topology that the scripts leave one after another, each run alone to where it
    stopped.  So where the scripts stopped decides how far the copies have drifted. */
module Serial {
  import opened GoText
  import opened ScriptInvariant
  import S = ScaleJobs
  import T = Topology

  /** A script that held the lock: what its pipelines saw, and how many of its commands
      were run. */
  datatype Run = Run(kind: T.Kind, seen: T.Seen, done: nat)

  /** The command that counts pods. */
  function CountAt(kind: T.Kind): nat { if kind == T.Up then 0 else 7 }

  function Advanced(run: Run, seen: T.Seen): Run {
    var pods := if run.done == CountAt(run.kind) then seen.pods else run.seen.pods;
    var read := if run.kind == T.Down && run.done == 5 then seen.profileRead else run.seen.profileRead;
    Run(run.kind, T.Seen(pods, read), run.done + 1)
  }

  predicate Acquires(s: S.System, step: S.Step) {
    step.PostSucceeds? && S.PhaseOf(s, step.j) == Some(S.Posting) && step.j in s.acks
  }

  function LogNext(log: seq<Run>, s: S.System, step: S.Step): seq<Run> {
    if Acquires(s, step) then log + [Run(s.jobs[step.j].kind, T.Seen(0, true), 0)]
    else if S.Commands(s, step) && log != [] then log[..|log| - 1] + [Advanced(log[|log| - 1], step.seen)]
    else log
  }

  /** The scripts of a run, in the order in which they got the lock. */
  function Log(steps: seq<S.Step>): seq<Run> {
    if steps == [] then []
    else LogNext(Log(steps[..|steps| - 1]), S.Exec(steps[..|steps| - 1]), steps[|steps| - 1])
  }

  /** The scripts one after another, each alone and to where it stopped. */
  function Replay(log: seq<Run>): T.Topology {
    if log == [] then S.Initial().topology
    else
      var last := log[|log| - 1];
      T.After(Replay(log[..|log| - 1]), last.kind, last.seen, last.done)
  }

  // ----- one script, whatever is listed at commands that do not look -----

  /** The two agree on what the first k commands look at. */
  predicate SameSoFar(kind: T.Kind, a: T.Seen, b: T.Seen, k: nat) {
    && (k > CountAt(kind) ==> a.pods == b.pods)
    && (kind == T.Down && k > 5 ==> a.profileRead == b.profileRead)
  }

  lemma SameCommand(t: T.Topology, s: T.Script, a: T.Seen, b: T.Seen)
    requires s.pc == CountAt(s.kind) ==> a.pods == b.pods
    requires s.kind == T.Down && s.pc == 5 ==> a.profileRead == b.profileRead
    ensures T.Command(t, s, a) == T.Command(t, s, b)
  {
  }

  /** A script that starts on t may have seen this. */
  ghost predicate Startable(t: T.Topology, run: Run) {
    && TopologyOk(t) && run.done <= T.Length(run.kind)
    && (run.kind == T.Up && run.done > 0 ==> run.seen.pods == |t.peers|)
    && (run.kind == T.Down ==> |t.peers| >= 2)
    && (run.kind == T.Down && run.done > 7 ==> |t.peers| - 1 <= run.seen.pods <= |t.peers|)
  }

  /** The topology and the script while the run is at work. */
  function Working(t: T.Topology, run: Run): (T.Topology, T.Script) {
    T.Alone(t, T.Begin(run.kind), run.seen, run.done)
  }

  lemma WorkingIs(t: T.Topology, run: Run)
    requires Startable(t, run)
    ensures var (t', s) := Working(t, run);
            t' == T.After(t, run.kind, run.seen, run.done) && s.kind == run.kind && s.pc == run.done
  {
    if run.kind == T.Down {
      T.DownAlone(t, run.seen, run.done);
    } else if run.done > 0 {
      T.StackFresh(|t.peers|, |t.peers| + 1);
      T.UpAlone(t, run.seen, run.done);
    }
  }

  lemma {:induction false} SameWork(t: T.Topology, run: Run, other: T.Seen)
    requires Startable(t, run) && SameSoFar(run.kind, run.seen, other, run.done)
    ensures Working(t, run.(seen := other)) == Working(t, run)
    decreases run.done
  {
    if run.done > 0 {
      var before := run.(done := run.done - 1);
      SameWork(t, before, other);
      WorkingIs(t, before);
      SameCommand(Working(t, before).0, Working(t, before).1, run.seen, other);
    }
  }

  /** One command takes the work of a run to that of the run advanced. */
  lemma AdvancedWork(t: T.Topology, run: Run, seen: T.Seen)
    requires Startable(t, run) && run.done < T.Length(run.kind)
    requires var (u, s) := Working(t, run); PodsListed(u, s, seen.pods) && T.Command(u, s, seen).Some?
    ensures var (u, s) := Working(t, run); Working(t, Advanced(run, seen)) == T.Command(u, s, seen).value
    ensures Startable(t, Advanced(run, seen))
  {
    var next := Advanced(run, seen);
    WorkingIs(t, run);
    SameWork(t, run, next.seen);
    var (u, s) := Working(t, run);
    SameCommand(u, s, seen, next.seen);
    if run.kind == T.Down && run.done == 7 {
      T.Popped(|t.peers|);
    }
  }

  // ----- the invariant -----

  /** Job j works on the last run of the log, from what the runs before it left. */
  ghost predicate AtWork(s: S.System, log: seq<Run>, j: nat) {
    S.IsRunning(s, j) ==>
      && log != []
      && var (t, run) := (Replay(log[..|log| - 1]), log[|log| - 1]);
         Startable(t, run) && Working(t, run) == (s.topology, s.jobs[j].phase.script)
  }

  ghost predicate LogOk(log: seq<Run>) {
    forall i :: 0 <= i < |log| ==> Startable(Replay(log[..i]), log[i])
  }

  ghost predicate SerialInv(s: S.System, log: seq<Run>) {
    && s.topology == Replay(log) && LogOk(log)
    && forall j: nat :: AtWork(s, log, j)
  }

  lemma ReplayThen(log: seq<Run>, run: Run)
    requires LogOk(log) && Startable(Replay(log), run)
    ensures Replay(log + [run]) == T.After(Replay(log), run.kind, run.seen, run.done)
    ensures LogOk(log + [run])
  {
    assert (log + [run])[..|log|] == log;
    forall i | 0 <= i < |log|
      ensures (log + [run])[..i] == log[..i]
    {
    }
  }

  lemma LogInit(log: seq<Run>)
    requires LogOk(log) && log != []
    ensures LogOk(log[..|log| - 1]) && log == log[..|log| - 1] + [log[|log| - 1]]
    ensures Startable(Replay(log[..|log| - 1]), log[|log| - 1])
  {
    hide Startable, Replay;
    var k := |log| - 1;
    forall i | 0 <= i < k
      ensures Startable(Replay(log[..k][..i]), log[..k][i])
    {
      assert log[..k][..i] == log[..i];
    }
  }

  lemma AcquireSerial(s: S.System, log: seq<Run>, step: S.Step)
    requires S.LeaseInv(s) && S.TopologyInv(s) && SerialInv(s, log) && Acquires(s, step)
    ensures SerialInv(S.Do(s, step), LogNext(log, s, step))
  {
    var run := Run(s.jobs[step.j].kind, T.Seen(0, true), 0);
    assert S.JobOk(s, step.j);
    ReplayThen(log, run);
    assert (log + [run])[..|log|] == log;
    var s' := S.Do(s, step);
    forall j: nat
      ensures AtWork(s', log + [run], j)
    {
      if j != step.j && S.IsRunning(s, j) {
        S.OnlyOneRuns(s, j, step.j);
      }
    }
  }

  lemma CommandSerial(s: S.System, log: seq<Run>, step: S.Step)
    requires S.LeaseInv(s) && SerialInv(s, log) && S.Commands(s, step) && S.Allowed(s, step)
    requires !T.Completed(s.jobs[step.j].phase.script)
    ensures SerialInv(S.Do(s, step), LogNext(log, s, step))
  {
    assert AtWork(s, log, step.j);
    var (init, run) := (log[..|log| - 1], log[|log| - 1]);
    var next := Advanced(run, step.seen);
    LogInit(log);
    WorkingIs(Replay(init), run);
    AdvancedWork(Replay(init), run, step.seen);
    WorkingIs(Replay(init), next);
    ReplayThen(init, next);
    assert (init + [next])[..|init|] == init;
    var s' := S.Do(s, step);
    forall j: nat
      ensures AtWork(s', init + [next], j)
    {
      if j != step.j && S.IsRunning(s, j) {
        S.OnlyOneRuns(s, j, step.j);
      }
    }
  }

  lemma OtherFrame(s: S.System, step: S.Step, j: nat)
    requires !Acquires(s, step) && !S.Commands(s, step)
    ensures var s' := S.Do(s, step);
            s'.topology == s.topology
            && (S.IsRunning(s', j) ==> S.IsRunning(s, j) && s'.jobs[j].phase == s.jobs[j].phase)
  {
  }

  lemma OtherSerial(s: S.System, log: seq<Run>, step: S.Step)
    requires SerialInv(s, log) && !Acquires(s, step) && !S.Commands(s, step)
    ensures SerialInv(S.Do(s, step), LogNext(log, s, step))
  {
    forall j: nat
      ensures AtWork(S.Do(s, step), log, j) && S.Do(s, step).topology == s.topology
    {
      OtherFrame(s, step, j);
      assert AtWork(s, log, j);
    }
    OtherFrame(s, step, 0);
  }

  lemma CompletedStuck(t: T.Topology, s: T.Script, seen: T.Seen)
    requires T.Completed(s)
    ensures T.Command(t, s, seen) == None
  {
  }

  lemma {:induction false} SerialInvariant(steps: seq<S.Step>)
    requires S.Governed(steps)
    ensures SerialInv(S.Exec(steps), Log(steps))
  {
    if steps == [] {
      assert S.Exec(steps) == S.Initial();
    } else {
      var k := |steps| - 1;
      var s, step := S.Exec(steps[..k]), steps[k];
      SerialInvariant(steps[..k]);
      S.LeaseInvariant(steps[..k]);
      S.TopologyInvariant(steps[..k]);
      if Acquires(s, step) {
        AcquireSerial(s, Log(steps[..k]), step);
      } else if S.Commands(s, step) {
        if T.Completed(s.jobs[step.j].phase.script) {
          CompletedStuck(s.topology, s.jobs[step.j].phase.script, step.seen);
        }
        CommandSerial(s, Log(steps[..k]), step);
      } else {
        OtherSerial(s, Log(steps[..k]), step);
      }
    }
  }

  /** The interleaved run and the scripts one after another leave the same topology. */
  lemma Serialises(steps: seq<S.Step>)
    requires S.Governed(steps)
    ensures S.Exec(steps).topology == Replay(Log(steps))
    ensures forall i :: 0 <= i < |Log(steps)| ==> Startable(Replay(Log(steps)[..i]), Log(steps)[i])
  {
    SerialInvariant(steps);
  }
}
