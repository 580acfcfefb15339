/** Autoscaling as a whole: one scale job as the shell runs it, and the loop of
    triggers and completed jobs under a constant offered load. */
module ClosedLoop {
  import opened GoText
  import T = Topology
  import S = ScaleJobs
  import opened Triggers

  // ----- one job -----

  /** What becomes of the POST: lost on the way, served but the reply lost, or answered. */
  datatype Post = Lost | ReplyLost | Answered

  class LeaseApi {
    var leaseExists: bool
  }

  class ScaleJob {
    var lockAcquired: bool

    constructor ()
      ensures !lockAcquired
    {
      lockAcquired := false;
    }

    method AcquireLock(api: LeaseApi, post: Post) returns (go: bool)
      modifies this, api
      ensures go == (post == Answered && !old(api.leaseExists))
      ensures lockAcquired == (old(lockAcquired) || go)
      ensures api.leaseExists == (old(api.leaseExists) || post != Lost)
    {
      var created := false;
      if post != Lost && !api.leaseExists {
        api.leaseExists := true;
        created := true;
      }
      go := created && post == Answered;
      if go {
        lockAcquired := true;
      }
    }

    method ReleaseLock(api: LeaseApi, delivered: bool)
      modifies api
      ensures api.leaseExists == (old(api.leaseExists) && !(lockAcquired && delivered))
    {
      if lockAcquired && delivered {
        api.leaseExists := false;
      }
    }

    /** Acquire, run the script for `budget` commands, and release on exit.  A job
        that is refused the lease, or never learns that it got it, leaves the cluster
        alone and never removes a lease. */
    method Run(api: LeaseApi, cluster: T.Cluster, kind: T.Kind, seen: T.Seen, budget: nat, post: Post, delivered: bool)
      requires !lockAcquired
      modifies this, api, cluster
      ensures var won := post == Answered && !old(api.leaseExists);
              && lockAcquired == won
              && (won ==> api.leaseExists == !delivered
                          && cluster.View() == T.After(old(cluster.View()), kind, seen, budget))
              && (!won ==> cluster.View() == old(cluster.View())
                           && api.leaseExists == (old(api.leaseExists) || post == ReplyLost))
    {
      var go := AcquireLock(api, post);
      if go {
        if kind == T.Up {
          var completed := cluster.PeerScaleUp(seen.pods, budget);
        } else {
          var completed := cluster.PeerScaleDown(seen, budget);
        }
      }
      ReleaseLock(api, delivered);
    }
  }

  /** AcquireLock is what the interleaved steps of one job amount to when no other
      job steps between them: the same answer, flag and lease. */
  lemma AcquireIsSteps(s: S.System, j: nat, post: Post)
    requires S.LeaseInv(s) && S.PhaseOf(s, j) == Some(S.Idle)
    ensures var won := post == Answered && s.lease == None;
            var served := S.Do(S.Do(s, S.SendPost(j)), if post == Lost then S.LosePost(j) else S.ServePost(j));
            var s' := S.Do(served, if won then S.PostSucceeds(j) else S.PostFails(j));
            && s'.jobs[j].lockAcquired == won
            && s'.jobs[j].phase == (if won then S.Running(T.Begin(s.jobs[j].kind)) else S.Done)
            && s'.lease.Some? == (s.lease.Some? || post != Lost)
            && s'.topology == s.topology
            && j !in s'.deletes
  {
    assert S.LeaseOk(s, j);
  }

  /** ReleaseLock likewise, for the job that runs. */
  lemma ReleaseIsSteps(s: S.System, j: nat, delivered: bool)
    requires S.LeaseInv(s) && S.IsRunning(s, j)
    ensures var sent := S.Do(s, S.Exit(j));
            var served := S.Do(sent, if delivered then S.ServeDelete(j) else S.LoseDelete(j));
            var s' := S.Do(served, S.Finish(j));
            && s'.jobs[j].phase == S.Done
            && s'.lease.Some? == !delivered
            && s'.topology == s.topology
  {
    assert S.LeaseOk(s, j);
  }

  // ----- the loop -----

  /** A job runs to its end after its trigger fired; the deleted peer's pod may still
      be listed when the scale-down counts pods, and the profile is read. */
  ghost predicate JobDone(t: T.Topology, t': T.Topology, load: real) {
    || (Up(|t.peers|, load, PEER_CPU) && t' == T.AfterUp(t, |t.peers|, T.Length(T.Up)))
    || (Down(|t.peers|, load, PEER_CPU)
        && exists pods: nat :: |t.peers| - 1 <= pods <= |t.peers|
                               && t' == T.AfterDown(t, T.Seen(pods, true), T.Length(T.Down)))
  }

  ghost predicate IsLoop(ts: seq<T.Topology>, load: real) {
    ts != [] && forall i, j :: 0 <= i && j == i + 1 < |ts| ==> JobDone(ts[i], ts[j], load)
  }

  ghost predicate Sound(t: T.Topology) {
    |t.peers| >= 1 && t.peers == T.Stack(|t.peers|) && T.Agreed(t)
  }

  lemma JobDoneSound(t: T.Topology, t': T.Topology, load: real)
    requires Sound(t) && JobDone(t, t', load) && load >= 0.0
    ensures Sound(t') && Follows(|t.peers|, |t'.peers|, load, PEER_CPU)
  {
    var n := |t.peers|;
    if Up(n, load, PEER_CPU) && t' == T.AfterUp(t, n, T.Length(T.Up)) {
      T.UpAgreesIff(t, T.Length(T.Up));
    } else {
      DownNeedsTwo(n, Usage(load, Capacity(n, PEER_CPU)), Capacity(n, PEER_CPU));
      var pods: nat :| n - 1 <= pods <= n && t' == T.AfterDown(t, T.Seen(pods, true), T.Length(T.Down));
      T.DownAgreesIff(t, T.Seen(pods, true), T.Length(T.Down));
    }
  }

  function Counts(ts: seq<T.Topology>): seq<nat> {
    seq(|ts|, i requires 0 <= i < |ts| => |ts[i].peers|)
  }

  lemma {:induction false} LoopSound(ts: seq<T.Topology>, load: real, k: nat)
    requires IsLoop(ts, load) && load >= 0.0 && Sound(ts[0]) && k < |ts|
    ensures Sound(ts[k])
    ensures k > 0 ==> Follows(|ts[k - 1].peers|, |ts[k].peers|, load, PEER_CPU)
  {
    if k > 0 {
      LoopSound(ts, load, k - 1);
      JobDoneSound(ts[k - 1], ts[k], load);
    }
  }

  lemma CountsRun(ts: seq<T.Topology>, load: real, k: nat)
    requires IsLoop(ts, load) && load >= 0.0 && Sound(ts[0]) && k < |ts|
    ensures IsRun(Counts(ts)[..k + 1], load, PEER_CPU)
  {
    var counts := Counts(ts)[..k + 1];
    forall i, j | 0 <= i && j == i + 1 < |counts|
      ensures Follows(counts[i], counts[j], load, PEER_CPU)
    {
      LoopSound(ts, load, j);
    }
  }

  lemma SettlePositive(n: nat, load: real)
    requires n >= 1 && load >= 0.0
    ensures Settle(n, load, PEER_CPU) >= 1
  {
    UpIff(n, load, PEER_CPU);
  }

  /** From any agreeing topology, whenever the jobs fire: after every job the three
      copies agree and the peer count lies between the start and the closed-form
      resting count, and no trigger is left enabled exactly when it has got there,
      with the names of that count. */
  lemma LoopConverges(ts: seq<T.Topology>, load: real, k: nat)
    requires IsLoop(ts, load) && load >= 0.0 && Sound(ts[0]) && k < |ts|
    ensures var (t, first) := (ts[k], |ts[0].peers|);
            var rest := Settle(first, load, PEER_CPU);
            && rest >= 1 && Sound(t) && Between(first, |t.peers|, rest)
            && (t.peers == T.Stack(rest) <==>
                !Up(|t.peers|, load, PEER_CPU) && !Down(|t.peers|, load, PEER_CPU))
  {
    LoopSound(ts, load, k);
    CountsRun(ts, load, k);
    SettlePositive(|ts[0].peers|, load);
    var counts := Counts(ts)[..k + 1];
    assert counts[0] == |ts[0].peers| && counts[|counts| - 1] == |ts[k].peers|;
    Converges(counts, load, PEER_CPU);
  }
}
