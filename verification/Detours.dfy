/** Runs that the chart allows and that take the scaler astray when the default limit
    is not tame, and with them the exact condition. */
module Detours {
  import opened GoText
  import opened Limits
  import opened ScriptInvariant
  import opened SteadyLoad
  import opened Triggers
  import S = ScaleJobs
  import T = Topology

  /** No job is live and the lock is free. */
  predicate Ready(s: S.System) { Quiet(s) && s.lease == None }

  /** Only job j differs, if there are equally many. */
  predicate Others(s: S.System, s': S.System, j: nat) {
    |s'.jobs| == |s.jobs| && forall i :: 0 <= i < |s.jobs| && i != j ==> s'.jobs[i] == s.jobs[i]
  }

  lemma Prefixes(a: seq<S.Step>, b: seq<S.Step>, c: seq<S.Step>)
    requires a <= b <= c
    ensures a <= c
  {
  }

  // ----- one job, step by step -----

  lemma Go(steps: seq<S.Step>, more: seq<S.Step>, load: real, bare: real, step: S.Step)
    returns (more': seq<S.Step>)
    requires Continues(steps, more, load, bare) && S.Allowed(S.Exec(steps + more), step)
    requires step.Spawn? ==> Sampled(S.Exec(steps + more), step, load, bare)
    ensures Continues(steps, more', load, bare) && more' == more + [step]
    ensures S.Exec(steps + more') == S.Do(S.Exec(steps + more), step)
  {
    more' := more + [step];
    assert more'[..|more'| - 1] == more;
    assert steps + more' == steps + more + [step];
    assert (steps + more')[..|steps + more'| - 1] == steps + more;
  }

  /** A job is started by its trigger. */
  lemma Starts(steps: seq<S.Step>, more: seq<S.Step>, load: real, bare: real, kind: T.Kind)
    returns (more': seq<S.Step>)
    requires Continues(steps, more, load, bare)
    requires var s := S.Exec(steps + more);
             && Enabled(kind, s.topology, load, bare)
             && forall i :: 0 <= i < |s.jobs| ==> !(s.jobs[i].kind == kind && S.Live(s.jobs[i]))
    ensures Continues(steps, more', load, bare) && more <= more'
    ensures var s := S.Exec(steps + more);
            S.Exec(steps + more') == s.(jobs := s.jobs + [S.Job(kind, S.Idle, false)])
  {
    var t := S.Exec(steps + more).topology;
    more' := Go(steps, more, load, bare, S.Spawn(kind, Usage(load, S.Limits(t, bare)), bare));
  }

  /** An idle job takes the free lock. */
  lemma Wins(steps: seq<S.Step>, more: seq<S.Step>, load: real, bare: real, j: nat)
    returns (more': seq<S.Step>)
    requires Continues(steps, more, load, bare)
    requires var s := S.Exec(steps + more);
             j < |s.jobs| && s.jobs[j].phase == S.Idle && s.lease == None
    ensures Continues(steps, more', load, bare) && more <= more'
    ensures var (s, s') := (S.Exec(steps + more), S.Exec(steps + more'));
            && Others(s, s', j)
            && s'.jobs[j] == S.Job(s.jobs[j].kind, S.Running(T.Begin(s.jobs[j].kind)), true)
            && s'.lease == Some(j) && s'.topology == s.topology && s'.clean == s.clean
  {
    more' := Go(steps, more, load, bare, S.SendPost(j));
    more' := Go(steps, more', load, bare, S.ServePost(j));
    more' := Go(steps, more', load, bare, S.PostSucceeds(j));
  }

  /** A running job ends and its DELETE is served. */
  lemma Leaves(steps: seq<S.Step>, more: seq<S.Step>, load: real, bare: real, j: nat)
    returns (more': seq<S.Step>)
    requires Continues(steps, more, load, bare)
    requires S.IsRunning(S.Exec(steps + more), j) && S.Exec(steps + more).jobs[j].lockAcquired
    ensures Continues(steps, more', load, bare) && more <= more'
    ensures var (s, s') := (S.Exec(steps + more), S.Exec(steps + more'));
            && Others(s, s', j) && s'.jobs[j] == S.Job(s.jobs[j].kind, S.Done, true)
            && s'.lease == None && s'.topology == s.topology
            && s'.clean == (s.clean && T.Completed(s.jobs[j].phase.script))
  {
    more' := Go(steps, more, load, bare, S.Exit(j));
    more' := Go(steps, more', load, bare, S.ServeDelete(j));
    more' := Go(steps, more', load, bare, S.Finish(j));
  }

  // ----- a script that runs undisturbed -----

  /** Job j holds the lock and has run k commands of its script since the topology t. */
  predicate At(s: S.System, j: nat, t: T.Topology, kind: T.Kind, seen: T.Seen, k: nat) {
    && j < |s.jobs| && s.lease == Some(j)
    && s.topology == T.Alone(t, T.Begin(kind), seen, k).0
    && s.jobs[j] == S.Job(kind, S.Running(T.Alone(t, T.Begin(kind), seen, k).1), true)
  }

  lemma UpAt(t: T.Topology, seen: T.Seen, k: nat)
    requires TopologyOk(t) && seen.pods == |t.peers| && k <= T.Length(T.Up)
    ensures var (t', script) := T.Alone(t, T.Begin(T.Up), seen, k);
            && t' == T.AfterUp(t, seen.pods, k)
            && script.kind == T.Up && script.pc == k
            && (k == 0 ==> seen.pods == |t'.peers|)
  {
    T.StackFresh(|t.peers|, |t.peers| + 1);
    hide T.Alone;
    T.UpAlone(t, seen, k);
  }

  lemma DownAt(t: T.Topology, seen: T.Seen, k: nat)
    requires TopologyOk(t) && |t.peers| >= 2 && seen.pods == |t.peers| && k <= T.Length(T.Down)
    ensures var (t', script) := T.Alone(t, T.Begin(T.Down), seen, k);
            && t' == T.AfterDown(t, seen, k)
            && script.kind == T.Down && script.pc == k
            && (k == 7 ==> seen.pods == |t'.peers| + 1)
  {
    T.Popped(|t.peers|);
    hide T.Alone;
    T.DownAlone(t, seen, k);
  }

  lemma AloneAt(t: T.Topology, kind: T.Kind, seen: T.Seen, k: nat)
    requires TopologyOk(t) && (kind == T.Down ==> |t.peers| >= 2)
    requires seen.pods == |t.peers| && k <= T.Length(kind)
    ensures var (t', script) := T.Alone(t, T.Begin(kind), seen, k);
            && t' == T.After(t, kind, seen, k)
            && script.kind == kind && script.pc == k
            && PodsListed(t', script, seen.pods)
  {
    hide T.Alone, T.AfterUp, T.AfterDown, TopologyOk;
    if kind == T.Up {
      UpAt(t, seen, k);
    } else {
      DownAt(t, seen, k);
    }
  }

  lemma CommandAt(s: S.System, j: nat, t: T.Topology, kind: T.Kind, seen: T.Seen, k: nat)
    requires At(s, j, t, kind, seen, k) && T.Command(s.topology, s.jobs[j].phase.script, seen).Some?
    ensures var s' := S.Do(s, S.RunCommand(j, seen));
            && At(s', j, t, kind, seen, k + 1) && Others(s, s', j)
            && (seen.profileRead ==> s'.clean == s.clean)
  {
  }

  lemma Works(steps: seq<S.Step>, more: seq<S.Step>, load: real, bare: real, j: nat,
              t: T.Topology, kind: T.Kind, seen: T.Seen, k: nat)
    returns (more': seq<S.Step>)
    requires Continues(steps, more, load, bare) && At(S.Exec(steps + more), j, t, kind, seen, k)
    requires TopologyOk(t) && (kind == T.Down ==> |t.peers| >= 2)
    requires seen.pods == |t.peers| && k < T.Length(kind)
    ensures Continues(steps, more', load, bare) && more <= more'
    ensures var (s, s') := (S.Exec(steps + more), S.Exec(steps + more'));
            && At(s', j, t, kind, seen, k + 1) && Others(s, s', j)
            && (seen.profileRead ==> s'.clean == s.clean)
  {
    var s := S.Exec(steps + more);
    AloneAt(t, kind, seen, k);
    S.TopologyInvariant(steps + more);
    assert S.JobOk(s, j);
    S.CommandSucceeds(s.topology, s.jobs[j].phase.script, seen);
    CommandAt(s, j, t, kind, seen, k);
    more' := Go(steps, more, load, bare, S.RunCommand(j, seen));
  }

  lemma {:induction false} WorksUntil(steps: seq<S.Step>, more: seq<S.Step>, load: real, bare: real, j: nat,
                                      t: T.Topology, kind: T.Kind, seen: T.Seen, k: nat, goal: nat)
    returns (more': seq<S.Step>)
    requires Continues(steps, more, load, bare) && At(S.Exec(steps + more), j, t, kind, seen, k)
    requires TopologyOk(t) && (kind == T.Down ==> |t.peers| >= 2)
    requires seen.pods == |t.peers| && k <= goal <= T.Length(kind)
    ensures Continues(steps, more', load, bare) && more <= more'
    ensures var (s, s') := (S.Exec(steps + more), S.Exec(steps + more'));
            && At(s', j, t, kind, seen, goal) && Others(s, s', j)
            && (seen.profileRead ==> s'.clean == s.clean)
    decreases goal - k
  {
    hide S.Exec, T.Alone;
    if k == goal {
      more' := more;
    } else {
      var next := Works(steps, more, load, bare, j, t, kind, seen, k);
      more' := WorksUntil(steps, next, load, bare, j, t, kind, seen, k + 1, goal);
      Prefixes(more, next, more');
    }
  }

  /** From a ready state a triggered job takes the lock. */
  lemma Enters(steps: seq<S.Step>, more: seq<S.Step>, load: real, bare: real, kind: T.Kind, seen: T.Seen)
    returns (more': seq<S.Step>)
    requires Continues(steps, more, load, bare) && Ready(S.Exec(steps + more))
    requires Enabled(kind, S.Exec(steps + more).topology, load, bare)
    ensures Continues(steps, more', load, bare) && more <= more'
    ensures var (s, s') := (S.Exec(steps + more), S.Exec(steps + more'));
            && At(s', |s.jobs|, s.topology, kind, seen, 0) && s'.clean == s.clean
            && |s'.jobs| == |s.jobs| + 1 && s'.jobs[..|s.jobs|] == s.jobs
  {
    var a := Starts(steps, more, load, bare, kind);
    more' := Wins(steps, a, load, bare, |S.Exec(steps + more).jobs|);
    Prefixes(more, a, more');
  }

  lemma DownEnabled(t: T.Topology, load: real, bare: real)
    requires Enabled(T.Down, t, load, bare)
    ensures |t.peers| >= 2
  {
    DownNeedsTwo(|t.peers|, Usage(load, S.Limits(t, bare)), S.Limits(t, bare));
  }

  /** A job that holds the lock over dead ones runs to `goal` and leaves. */
  lemma Ends(steps: seq<S.Step>, more: seq<S.Step>, load: real, bare: real, j: nat,
             t: T.Topology, kind: T.Kind, seen: T.Seen, k: nat, goal: nat)
    returns (more': seq<S.Step>)
    requires Continues(steps, more, load, bare) && At(S.Exec(steps + more), j, t, kind, seen, k)
    requires TopologyOk(t) && (kind == T.Down ==> |t.peers| >= 2)
    requires seen.pods == |t.peers| && k <= goal <= T.Length(kind)
    ensures Continues(steps, more', load, bare) && more <= more'
    ensures var (s, s') := (S.Exec(steps + more), S.Exec(steps + more'));
            && Others(s, s', j) && j < |s'.jobs| && s'.jobs[j] == S.Job(kind, S.Done, true)
            && s'.lease == None && s'.topology == T.After(t, kind, seen, goal)
            && (seen.profileRead ==> s'.clean == (s.clean && goal == T.Length(kind)))
  {
    var a := WorksUntil(steps, more, load, bare, j, t, kind, seen, k, goal);
    AloneAt(t, kind, seen, goal);
    more' := Leaves(steps, a, load, bare, j);
    Prefixes(more, a, more');
  }

  /** From a ready state a triggered job runs alone for `goal` commands and leaves. */
  lemma Visit(steps: seq<S.Step>, more: seq<S.Step>, load: real, bare: real, kind: T.Kind, read: bool, goal: nat)
    returns (more': seq<S.Step>)
    requires Continues(steps, more, load, bare) && Ready(S.Exec(steps + more))
    requires Enabled(kind, S.Exec(steps + more).topology, load, bare) && goal <= T.Length(kind)
    ensures Continues(steps, more', load, bare) && Ready(S.Exec(steps + more')) && more <= more'
    ensures var (s, s') := (S.Exec(steps + more), S.Exec(steps + more'));
            && s'.topology == T.After(s.topology, kind, T.Seen(|s.topology.peers|, read), goal)
            && (read ==> s'.clean == (s.clean && goal == T.Length(kind)))
  {
    var s := S.Exec(steps + more);
    var seen := T.Seen(|s.topology.peers|, read);
    S.TopologyInvariant(steps + more);
    if kind == T.Down {
      DownEnabled(s.topology, load, bare);
    }
    var a := Enters(steps, more, load, bare, kind, seen);
    more' := Ends(steps, a, load, bare, |s.jobs|, s.topology, kind, seen, 0, goal);
    Prefixes(more, a, more');
    QuietAgain(s, S.Exec(steps + a), S.Exec(steps + more'));
  }

  lemma QuietAgain(s: S.System, held: S.System, s': S.System)
    requires Quiet(s) && |held.jobs| == |s.jobs| + 1 && held.jobs[..|s.jobs|] == s.jobs
    requires Others(held, s', |s.jobs|) && s'.jobs[|s.jobs|].phase == S.Done
    ensures Quiet(s')
  {
    forall i | 0 <= i < |s'.jobs|
      ensures !S.Live(s'.jobs[i])
    {
      if i < |s.jobs| {
        assert s'.jobs[i] == held.jobs[i] == s.jobs[i];
      }
    }
  }

  // ----- completed scale-ups -----

  lemma UpLeaves(t: T.Topology, bare: real, goal: nat)
    requires TopologyOk(t) && 2 <= goal <= T.Length(T.Up)
    ensures var t' := T.AfterUp(t, |t.peers|, goal);
            && |t'.peers| == |t.peers| + 1
            && (goal >= 3 && AllPatched(t) ==> AllPatched(t'))
            && (goal == 2 ==> S.Limits(t', bare) == S.Limits(t, bare) + bare)
  {
    var peer := T.PeerName(|t.peers| + 1);
    CreateKeeps(t);
    Created(t, bare);
    T.NamesAppend(t.peers, [peer]);
    assert T.Names([peer]) == {peer};
  }

  lemma UpEnabled(t: T.Topology, first: nat, load: real, bare: real)
    requires first >= 1 && load >= 0.0 && Up(first, load, PEER_CPU)
    requires AllPatched(t) && first <= |t.peers| < Rest(first, load)
    ensures Enabled(T.Up, t, load, bare)
  {
    PatchedTriggers(T.Up, t, load, Usage(load, S.Limits(t, bare)), bare);
    Zone(first, |t.peers|, load);
  }

  /** Undisturbed scale-ups lead to every count up to the resting one. */
  lemma {:induction false} Climb(steps: seq<S.Step>, more: seq<S.Step>, load: real, bare: real, first: nat, goal: nat)
    returns (more': seq<S.Step>)
    requires first >= 1 && load >= 0.0 && Up(first, load, PEER_CPU)
    requires Continues(steps, more, load, bare) && Ready(S.Exec(steps + more))
    requires AllPatched(S.Exec(steps + more).topology)
    requires first <= Peers(S.Exec(steps + more)) <= goal <= Rest(first, load)
    ensures Continues(steps, more', load, bare) && Ready(S.Exec(steps + more')) && more <= more'
    ensures AllPatched(S.Exec(steps + more').topology) && Peers(S.Exec(steps + more')) == goal
    ensures S.Exec(steps + more').clean == S.Exec(steps + more).clean
    decreases goal - Peers(S.Exec(steps + more))
  {
    var s := S.Exec(steps + more);
    if Peers(s) == goal {
      more' := more;
    } else {
      UpEnabled(s.topology, first, load, bare);
      S.TopologyInvariant(steps + more);
      UpLeaves(s.topology, bare, 9);
      var next := Visit(steps, more, load, bare, T.Up, true, 9);
      more' := Climb(steps, next, load, bare, first, goal);
      Prefixes(more, next, more');
    }
  }

  // ----- a default that is too high: a sample between create and limit -----

  /** One new peer without its limit, and the group looks idle. */
  lemma WindowLooksIdle(t: T.Topology, first: nat, load: real, bare: real)
    requires first >= 1 && load >= 0.0 && bare >= 0.0 && Up(first, load, PEER_CPU)
    requires PEER_CPU * (Rest(first, load) as real - 1.0) + bare >= 5.0 * load
    requires TopologyOk(t) && AllPatched(t) && |t.peers| == Rest(first, load) - 1
    ensures Enabled(T.Down, T.AfterUp(t, |t.peers|, 2), load, bare)
  {
    UpRest(first, load);
    PatchedLimits(t, bare);
    UpLeaves(t, bare, 2);
    var t' := T.AfterUp(t, |t.peers|, 2);
    DownFires(|t'.peers|, load, S.Limits(t', bare), Usage(load, S.Limits(t', bare)));
  }

  lemma NoDownLive(s: S.System, held: S.System, s': S.System)
    requires Quiet(s) && |held.jobs| == |s.jobs| + 1 && held.jobs[..|s.jobs|] == s.jobs
    requires Others(held, s', |s.jobs|) && s'.jobs[|s.jobs|].kind == T.Up
    ensures forall i :: 0 <= i < |s'.jobs| ==> !(s'.jobs[i].kind == T.Down && S.Live(s'.jobs[i]))
  {
    forall i | 0 <= i < |s.jobs|
      ensures !S.Live(s'.jobs[i])
    {
      assert s'.jobs[i] == held.jobs[i] == s.jobs[i];
    }
  }

  /** The last scale-up is sampled before it sets its peer's limit. */
  lemma SampledInWindow(steps: seq<S.Step>, more: seq<S.Step>, load: real, bare: real, first: nat)
    returns (more': seq<S.Step>)
    requires first >= 1 && load >= 0.0 && bare >= 0.0 && Up(first, load, PEER_CPU)
    requires PEER_CPU * (Rest(first, load) as real - 1.0) + bare >= 5.0 * load
    requires Continues(steps, more, load, bare) && Ready(S.Exec(steps + more))
    requires var s := S.Exec(steps + more);
             AllPatched(s.topology) && first <= Peers(s) == Rest(first, load) - 1
    ensures Continues(steps, more', load, bare) && more <= more'
    ensures var (s, s') := (S.Exec(steps + more), S.Exec(steps + more'));
            var j := |s.jobs|;
            && At(s', j, s.topology, T.Up, T.Seen(Peers(s), true), 2) && s'.clean == s.clean
            && |s'.jobs| == j + 2 && s'.jobs[j + 1] == S.Job(T.Down, S.Idle, false)
  {
    var s := S.Exec(steps + more);
    var (j, t) := (|s.jobs|, s.topology);
    var seen := T.Seen(|t.peers|, true);
    S.TopologyInvariant(steps + more);
    UpEnabled(t, first, load, bare);
    WindowLooksIdle(t, first, load, bare);
    var a := Enters(steps, more, load, bare, T.Up, seen);
    var b := WorksUntil(steps, a, load, bare, j, t, T.Up, seen, 0, 2);
    AloneAt(t, T.Up, seen, 2);
    NoDownLive(s, S.Exec(steps + a), S.Exec(steps + b));
    more' := Starts(steps, b, load, bare, T.Down);
    Prefixes(more, a, b);
    Prefixes(more, b, more');
  }

  /** A waiting scale-down takes the free lock and completes. */
  lemma WaitingDown(steps: seq<S.Step>, more: seq<S.Step>, load: real, bare: real, j: nat)
    returns (more': seq<S.Step>)
    requires Continues(steps, more, load, bare)
    requires var s := S.Exec(steps + more);
             && j < |s.jobs| && s.jobs[j] == S.Job(T.Down, S.Idle, false) && s.lease == None
             && Peers(s) >= 2
    ensures Continues(steps, more', load, bare) && more <= more'
    ensures Peers(S.Exec(steps + more')) == Peers(S.Exec(steps + more)) - 1
    ensures S.Exec(steps + more').clean == S.Exec(steps + more).clean
  {
    S.TopologyInvariant(steps + more);
    var t := S.Exec(steps + more).topology;
    var a := Wins(steps, more, load, bare, j);
    more' := Ends(steps, a, load, bare, j, t, T.Down, T.Seen(|t.peers|, true), 0, 10);
    T.Popped(|t.peers|);
    Prefixes(more, a, more');
  }

  /** With a default that is too high the count turns back although every job that held
      the lock completes: `up` ends with the resting count, `down` with one peer less. */
  lemma WindowReverses(steps: seq<S.Step>, more: seq<S.Step>, load: real, bare: real, first: nat)
    returns (up: seq<S.Step>, down: seq<S.Step>)
    requires first >= 1 && load >= 0.0 && bare >= 0.0 && Up(first, load, PEER_CPU)
    requires PEER_CPU * (Rest(first, load) as real - 1.0) + bare >= 5.0 * load
    requires Continues(steps, more, load, bare) && Ready(S.Exec(steps + more))
    requires var s := S.Exec(steps + more);
             AllPatched(s.topology) && first <= Peers(s) == Rest(first, load) - 1
    ensures Continues(steps, down, load, bare) && up <= down
    ensures Peers(S.Exec(steps + up)) == Rest(first, load) && Peers(S.Exec(steps + down)) == Rest(first, load) - 1
    ensures S.Exec(steps + down).clean == S.Exec(steps + more).clean
  {
    var s := S.Exec(steps + more);
    S.TopologyInvariant(steps + more);
    UpLeaves(s.topology, bare, 9);
    var a := SampledInWindow(steps, more, load, bare, first);
    up := Ends(steps, a, load, bare, |s.jobs|, s.topology, T.Up, T.Seen(Peers(s), true), 2, 9);
    down := WaitingDown(steps, up, load, bare, |s.jobs| + 1);
  }

  // ----- a default that is too low: scale-ups that stop before the limit -----

  lemma StillBusy(t: T.Topology, load: real, bare: real)
    requires 0.0 < S.Limits(t, bare) <= 1.25 * load
    ensures Enabled(T.Up, t, load, bare)
  {
    UpFires(load, S.Limits(t, bare), Usage(load, S.Limits(t, bare)));
  }

  lemma OneOfPile(sum: real, bare: real, count: nat, bound: real)
    requires bare >= 0.0 && count > 0 && sum + bare * count as real <= bound
    ensures sum <= bound - bare
    ensures sum + bare + bare * (count - 1) as real <= bound
  {
    Grown(bare, count, 0);
    assert bare * (count - 1) as real >= 0.0;
  }

  /** Scale-ups that stop after the create, one after another. */
  lemma {:induction false} Pile(steps: seq<S.Step>, more: seq<S.Step>, load: real, bare: real, count: nat)
    returns (more': seq<S.Step>)
    requires load >= 0.0 && bare >= 0.0
    requires Continues(steps, more, load, bare) && Ready(S.Exec(steps + more))
    requires var sum := S.Limits(S.Exec(steps + more).topology, bare);
             sum > 0.0 && sum + bare * count as real <= 1.25 * load + bare
    ensures Continues(steps, more', load, bare) && Ready(S.Exec(steps + more')) && more <= more'
    ensures Peers(S.Exec(steps + more')) == Peers(S.Exec(steps + more)) + count
    decreases count
  {
    hide S.Exec, S.Governed, S.LimitSum, Steady;
    if count == 0 {
      more' := more;
    } else {
      var t := S.Exec(steps + more).topology;
      OneOfPile(S.Limits(t, bare), bare, count, 1.25 * load + bare);
      StillBusy(t, load, bare);
      S.TopologyInvariant(steps + more);
      UpLeaves(t, bare, 2);
      var next := Visit(steps, more, load, bare, T.Up, true, 2);
      more' := Pile(steps, next, load, bare, count - 1);
      Prefixes(more, next, more');
    }
  }

  // ----- the exact condition -----

  lemma FromStart(steps: seq<S.Step>, load: real, bare: real)
    requires S.Governed(steps) && Quiet(S.Exec(steps))
    ensures steps + [] == steps && Continues(steps, [], load, bare)
    ensures Peers(S.Exec(steps)) >= 1
  {
    S.TopologyInvariant(steps);
    assert steps + [] == steps;
  }

  lemma TooHigh(steps: seq<S.Step>, load: real, bare: real) returns (more: seq<S.Step>)
    requires S.Governed(steps) && Ready(S.Exec(steps)) && AllPatched(S.Exec(steps).topology)
    requires load >= 0.0 && bare >= 0.0 && Up(Peers(S.Exec(steps)), load, PEER_CPU)
    requires PEER_CPU * (Rest(Peers(S.Exec(steps)), load) as real - 1.0) + bare >= 5.0 * load
    ensures Continues(steps, more, load, bare) && !Direct(steps, more, load)
    ensures S.Exec(steps + more).clean == S.Exec(steps).clean
  {
    var first := Peers(S.Exec(steps));
    FromStart(steps, load, bare);
    UpRest(first, load);
    var a := Climb(steps, [], load, bare, first, Rest(first, load) - 1);
    var up, down := WindowReverses(steps, a, load, bare, first);
    more := down;
    assert more[..|up|] == up;
    assert !Between(first, Peers(S.Exec(steps + more[..|up|])), Peers(S.Exec(steps + more)));
  }

  lemma PileFits(first: nat, rest: nat, load: real, bare: real)
    requires first <= rest && PEER_CPU * first as real + bare * (rest as real - first as real) <= 1.25 * load
    ensures Capacity(first, PEER_CPU) + bare * (rest - first + 1) as real <= 1.25 * load + bare
  {
    var k := (rest - first) as real;
    assert bare * (k + 1.0) == bare * k + bare;
  }

  lemma TooLow(steps: seq<S.Step>, load: real, bare: real) returns (more: seq<S.Step>)
    requires S.Governed(steps) && Ready(S.Exec(steps)) && AllPatched(S.Exec(steps).topology)
    requires load >= 0.0 && bare >= 0.0 && Up(Peers(S.Exec(steps)), load, PEER_CPU)
    requires var (n, rest) := (Peers(S.Exec(steps)) as real, Rest(Peers(S.Exec(steps)), load) as real);
             PEER_CPU * n + bare * (rest - n) <= 1.25 * load
    ensures Continues(steps, more, load, bare) && Peers(S.Exec(steps + more)) == Rest(Peers(S.Exec(steps)), load) + 1
  {
    hide S.Exec, S.Governed, S.LimitSum, Steady;
    var first := Peers(S.Exec(steps));
    FromStart(steps, load, bare);
    UpRest(first, load);
    PatchedLimits(S.Exec(steps).topology, bare);
    PileFits(first, Rest(first, load), load, bare);
    more := Pile(steps, [], load, bare, Rest(first, load) - first + 1);
  }

  lemma Overshoots(steps: seq<S.Step>, more: seq<S.Step>, load: real)
    requires Peers(S.Exec(steps + more)) == Rest(Peers(S.Exec(steps)), load) + 1 > Peers(S.Exec(steps))
    ensures !Direct(steps, more, load)
  {
  }

  lemma NotTame(steps: seq<S.Step>, load: real, bare: real) returns (more: seq<S.Step>)
    requires S.Governed(steps) && Ready(S.Exec(steps)) && AllPatched(S.Exec(steps).topology)
    requires load >= 0.0 && bare >= 0.0 && !Tame(Peers(S.Exec(steps)), load, bare)
    ensures Continues(steps, more, load, bare) && !Direct(steps, more, load)
  {
    hide S.Exec, S.Governed, Steady, Direct;
    var first := Peers(S.Exec(steps));
    if PEER_CPU * (Rest(first, load) as real - 1.0) + bare < 5.0 * load {
      FromStart(steps, load, bare);
      UpRest(first, load);
      more := TooLow(steps, load, bare);
      Overshoots(steps, more, load);
    } else {
      more := TooHigh(steps, load, bare);
    }
  }

  /** From a quiet state with the lock free and every limit set, under one load, every
      run that the chart allows moves one way and never passes the resting count,
      exactly if the default limit is tame. */
  lemma TameIff(steps: seq<S.Step>, load: real, bare: real)
    requires S.Governed(steps) && Ready(S.Exec(steps)) && AllPatched(S.Exec(steps).topology)
    requires load >= 0.0 && bare >= 0.0
    ensures Tame(Peers(S.Exec(steps)), load, bare) <==>
            forall more | Continues(steps, more, load, bare) :: Direct(steps, more, load)
  {
    hide S.Exec, S.Governed, Steady, Direct;
    if Tame(Peers(S.Exec(steps)), load, bare) {
      forall more | Continues(steps, more, load, bare)
        ensures Direct(steps, more, load)
      {
        TameRun(steps, more, load, bare);
      }
    } else {
      var more := NotTame(steps, load, bare);
    }
  }

  /** One peer under a load of 0.2: with a default of 0.75 the count turns back, without
      any default limit it passes the resting count of two, with 0.25 neither. */
  lemma ThreeDefaults()
    ensures Rest(1, 0.2) == 2
    ensures !Tame(1, 0.2, 0.75) && !Tame(1, 0.2, 0.0) && Tame(1, 0.2, PEER_CPU)
  {
    UpIff(1, 0.2, PEER_CPU);
    UpRest(1, 0.2);
  }

  // ----- a profile that could not be read -----

  lemma QuietRest(steps: seq<S.Step>)
    requires S.Governed(steps) && Quiet(S.Exec(steps)) && S.Exec(steps).clean
    ensures AtRest(S.Exec(steps).topology) && TopologyOk(S.Exec(steps).topology)
  {
    S.TopologyInvariant(steps);
    S.AgreementAtRest(steps);
    forall j: nat
      ensures !S.IsRunning(S.Exec(steps), j)
    {
    }
  }

  /** A first scale-up that completes. */
  lemma TwoPeers() returns (steps: seq<S.Step>)
    ensures S.Governed(steps) && Ready(S.Exec(steps))
    ensures var t := S.Exec(steps).topology;
            t == T.AfterUp(S.Initial().topology, 1, 9) && |t.peers| == 2 && TopologyOk(t) && AtRest(t)
  {
    var t := S.Initial().topology;
    FromStart([], 0.2, 0.0);
    assert S.Limits(t, 0.0) == PEER_CPU;
    UpFires(0.2, PEER_CPU, Usage(0.2, PEER_CPU));
    UpLeaves(t, 0.0, 9);
    var more := Visit([], [], 0.2, 0.0, T.Up, true, 9);
    steps := [] + more;
    QuietRest(steps);
  }

  /** Two idle peers enable the scale-down. */
  lemma IdlePair(t: T.Topology)
    requires |t.peers| == 2 && AllPatched(t)
    ensures Enabled(T.Down, t, 0.0, 0.0)
  {
    PatchedLimits(t, 0.0);
    DownFires(2, 0.0, S.Limits(t, 0.0), Usage(0.0, S.Limits(t, 0.0)));
  }

  /** Two jobs that run every command of their scripts; the second could not read the
      profile, and uploads one without peers. */
  lemma BlindRun() returns (steps: seq<S.Step>)
    ensures S.Governed(steps) && Ready(S.Exec(steps))
    ensures S.Exec(steps).topology
            == T.AfterDown(T.AfterUp(S.Initial().topology, 1, 9), T.Seen(2, false), 10)
    ensures S.Exec(steps).topology.profile == {} && !T.Agreed(S.Exec(steps).topology)
  {
    var first := TwoPeers();
    var t := S.Exec(first).topology;
    FromStart(first, 0.0, 0.0);
    IdlePair(t);
    var more := Visit(first, [], 0.0, 0.0, T.Down, false, 10);
    steps := first + more;
    T.DownAgreesIff(t, T.Seen(2, false), 10);
  }
}
