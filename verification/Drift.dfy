/** How far the copies of the peer set have drifted apart, as a function of where the
    scripts so far stopped and of what they could read. */
module Drift {
  import opened GoText
  import opened ScriptInvariant
  import opened Serial
  import S = ScaleJobs
  import T = Topology

  function Unlisted(t: T.Topology): set<Bytes> { T.Names(t.peers) - t.profile }

  function Unlimited(t: T.Topology): set<Bytes> { T.Names(t.peers) - t.patched }

  /** Peers missing from the channel, profile entries without a peer, peers missing from
      the profile, peers without their CPU limit. */
  datatype Gaps = Gaps(
    peers: nat,
    missing: set<Bytes>,
    stale: set<Bytes>,
    unlisted: set<Bytes>,
    unlimited: set<Bytes>)

  function GapsOf(t: T.Topology): Gaps {
    Gaps(|t.peers|, T.Missing(t), T.Stale(t), Unlisted(t), Unlimited(t))
  }

  /** A scale-up that ran `done` commands.  Its new peer may bear the name of a stale
      entry, which then counts as its own. */
  function UpGaps(g: Gaps, done: nat): Gaps {
    var peer := T.PeerName(g.peers + 1);
    if done < 2 then g
    else Gaps(
           g.peers + 1,
           if done < 6 then g.missing + {peer} else g.missing,
           if done < 9 then g.stale - {peer} else {},
           if done < 9 then g.unlisted + ({peer} - g.stale) else {},
           if done < 3 then g.unlimited + {peer} else g.unlimited)
  }

  /** A scale-down; stopped before the delete it leaves a peer out of the channel, and
      stopped before the upload a stale entry. */
  function DownGaps(g: Gaps, read: bool, done: nat): Gaps
    requires g.peers >= 1
  {
    var victim := T.PeerName(g.peers);
    if done < 4 then g
    else if done < 5 then g.(missing := g.missing + {victim})
    else Gaps(
           g.peers - 1,
           g.missing - {victim},
           if done < 10 then g.stale + ({victim} - g.unlisted) else if read then g.stale else {},
           if done < 10 || read then g.unlisted - {victim} else T.Names(T.Stack(g.peers - 1)),
           g.unlimited - {victim})
  }

  function NextGaps(g: Gaps, run: Run): Gaps {
    if run.kind == T.Up then UpGaps(g, run.done)
    else if g.peers == 0 then g
    else DownGaps(g, run.seen.profileRead, run.done)
  }

  function LogGaps(log: seq<Run>): Gaps {
    if log == [] then Gaps(1, {}, {}, {}, {}) else NextGaps(LogGaps(log[..|log| - 1]), log[|log| - 1])
  }

  lemma UpDrifts(t: T.Topology, run: Run)
    requires Startable(t, run) && run.kind == T.Up
    ensures GapsOf(T.AfterUp(t, run.seen.pods, run.done)) == UpGaps(GapsOf(t), run.done)
  {
    if run.done >= 2 {
      var peer := T.PeerName(|t.peers| + 1);
      CreateKeeps(t);
      T.NamesAppend(t.peers, [peer]);
      T.NamesAppend(t.joined, [peer]);
      assert T.Names([peer]) == {peer};
      assert peer !in T.Names(t.peers) && peer !in T.Names(t.joined);
    }
  }

  /** What the delete does to the names. */
  lemma Deleted(t: T.Topology)
    requires TopologyOk(t) && |t.peers| >= 2
    ensures var (peers, victim) := (T.Names(t.peers), T.PeerName(|t.peers|));
            && t.peers[|t.peers| - 1] == victim && victim in peers
            && T.Remove(t.peers, victim) == T.Stack(|t.peers| - 1)
            && T.Names(T.Stack(|t.peers| - 1)) == peers - {victim}
            && T.Names(T.Remove(t.joined, victim)) == T.Names(t.joined) - {victim}
  {
    var victim := T.PeerName(|t.peers|);
    T.Popped(|t.peers|);
    T.RemoveNames(t.joined, victim);
    assert victim in T.Names(t.peers);
  }

  lemma WithoutBoth(a: set<Bytes>, b: set<Bytes>, x: Bytes)
    ensures (a - {x}) - (b - {x}) == (a - b) - {x}
  {
  }

  lemma WithoutPeer(peers: set<Bytes>, profile: set<Bytes>, x: Bytes)
    requires x in peers
    ensures peers - (profile - {x}) == (peers - profile) + {x}
    ensures (profile - {x}) - (peers - {x}) == profile - peers
    ensures profile - (peers - {x}) == (profile - peers) + ({x} - (peers - profile))
    ensures (peers - {x}) - profile == (peers - profile) - {x}
  {
  }

  lemma UnjoinDrifts(t: T.Topology, run: Run)
    requires Startable(t, run) && run.kind == T.Down && run.done == 4
    ensures GapsOf(T.AfterDown(t, run.seen, 4)) == DownGaps(GapsOf(t), run.seen.profileRead, 4)
  {
    Deleted(t);
    WithoutPeer(T.Names(t.peers), T.Names(t.joined), T.PeerName(|t.peers|));
  }

  /** The delete alone, with the profile that is there at the end. */
  lemma DeleteDrifts(t: T.Topology, t': T.Topology)
    requires TopologyOk(t) && |t.peers| >= 2
    requires var victim := T.PeerName(|t.peers|);
             && t'.peers == T.Remove(t.peers, victim) && t'.joined == T.Remove(t.joined, victim)
             && t'.patched == t.patched - {victim}
    ensures var (g, victim, rest) := (GapsOf(t), T.PeerName(|t.peers|), T.Names(T.Stack(|t.peers| - 1)));
            && T.Names(t'.peers) == rest == T.Names(t.peers) - {victim} && victim in T.Names(t.peers)
            && GapsOf(t') == Gaps(g.peers - 1, g.missing - {victim}, t'.profile - rest, rest - t'.profile,
                                  g.unlimited - {victim})
  {
    var victim := T.PeerName(|t.peers|);
    Deleted(t);
    WithoutBoth(T.Names(t.peers), T.Names(t.joined), victim);
    WithoutBoth(T.Names(t.peers), t.patched, victim);
  }

  lemma StoppedDrifts(t: T.Topology, run: Run)
    requires Startable(t, run) && run.kind == T.Down && 5 <= run.done < 10
    ensures GapsOf(T.AfterDown(t, run.seen, run.done)) == DownGaps(GapsOf(t), run.seen.profileRead, run.done)
  {
    Deleted(t);
    DeleteDrifts(t, T.AfterDown(t, run.seen, run.done));
    WithoutPeer(T.Names(t.peers), t.profile, T.PeerName(|t.peers|));
  }

  lemma UploadDrifts(t: T.Topology, run: Run)
    requires Startable(t, run) && run.kind == T.Down && run.done == 10 && run.seen.profileRead
    ensures GapsOf(T.AfterDown(t, run.seen, 10)) == DownGaps(GapsOf(t), true, 10)
  {
    Deleted(t);
    DeleteDrifts(t, T.AfterDown(t, run.seen, 10));
    WithoutPeer(T.Names(t.peers), t.profile, T.PeerName(|t.peers|));
    WithoutBoth(T.Names(t.peers), t.profile, T.PeerName(|t.peers|));
  }

  lemma BlindDrifts(t: T.Topology, run: Run)
    requires Startable(t, run) && run.kind == T.Down && run.done == 10 && !run.seen.profileRead
    ensures GapsOf(T.AfterDown(t, run.seen, 10)) == DownGaps(GapsOf(t), false, 10)
  {
    Deleted(t);
    DeleteDrifts(t, T.AfterDown(t, run.seen, 10));
  }

  lemma DownDrifts(t: T.Topology, run: Run)
    requires Startable(t, run) && run.kind == T.Down
    ensures GapsOf(T.AfterDown(t, run.seen, run.done)) == DownGaps(GapsOf(t), run.seen.profileRead, run.done)
  {
    if run.done == 4 {
      UnjoinDrifts(t, run);
    } else if 5 <= run.done < 10 {
      StoppedDrifts(t, run);
    } else if run.done == 10 && run.seen.profileRead {
      UploadDrifts(t, run);
    } else if run.done == 10 {
      BlindDrifts(t, run);
    }
  }

  lemma {:induction false} ReplayDrifts(log: seq<Run>)
    requires LogOk(log)
    ensures GapsOf(Replay(log)) == LogGaps(log)
  {
    if log == [] {
      assert T.Names([T.PeerName(0)]) == {T.PeerName(0)};
    } else {
      var k := |log| - 1;
      LogInit(log);
      ReplayDrifts(log[..k]);
      assert Startable(Replay(log[..k]), log[k]);
      if log[k].kind == T.Up {
        UpDrifts(Replay(log[..k]), log[k]);
      } else {
        DownDrifts(Replay(log[..k]), log[k]);
      }
    }
  }

  /** At every moment of every run the chart allows, the scripts' stopping points and
      reads alone give the count and all four gaps. */
  lemma DriftIs(steps: seq<S.Step>)
    requires S.Governed(steps)
    ensures GapsOf(S.Exec(steps).topology) == LogGaps(Log(steps))
  {
    SerialInvariant(steps);
    ReplayDrifts(Log(steps));
  }

  // ----- completed scripts -----

  predicate AllCompleted(log: seq<Run>) {
    forall i :: 0 <= i < |log| ==> log[i].done == T.Length(log[i].kind)
  }

  /** Some scale-down since the last scale-up could not read the profile. */
  predicate Blind(log: seq<Run>) {
    && log != []
    && log[|log| - 1].kind == T.Down
    && (!log[|log| - 1].seen.profileRead || Blind(log[..|log| - 1]))
  }

  /** The copies after completed scripts. */
  ghost predicate Whole(t: T.Topology, blind: bool) {
    && t.joined == t.peers && AllPatched(t) && Trails(t.replicas, |t.peers|)
    && t.profile == if blind then {} else T.Names(t.peers)
  }

  lemma UpWhole(t: T.Topology, run: Run, blind: bool)
    requires Startable(t, run) && run.kind == T.Up && run.done == 9 && Whole(t, blind)
    ensures Whole(T.AfterUp(t, run.seen.pods, 9), false)
  {
    var peer := T.PeerName(|t.peers| + 1);
    CreateKeeps(t);
    T.NamesAppend(t.peers, [peer]);
    assert T.Names([peer]) == {peer};
  }

  lemma DownWhole(t: T.Topology, run: Run, blind: bool)
    requires Startable(t, run) && run.kind == T.Down && run.done == 10 && Whole(t, blind)
    ensures Whole(T.AfterDown(t, run.seen, 10), blind || !run.seen.profileRead)
  {
    T.Popped(|t.peers|);
  }

  lemma {:induction false} ReplayWhole(log: seq<Run>)
    requires LogOk(log) && AllCompleted(log)
    ensures Whole(Replay(log), Blind(log))
  {
    if log == [] {
      assert T.Names([T.PeerName(0)]) == {T.PeerName(0)};
    } else {
      var k := |log| - 1;
      LogInit(log);
      ReplayWhole(log[..k]);
      assert Startable(Replay(log[..k]), log[k]);
      if log[k].kind == T.Up {
        UpWhole(Replay(log[..k]), log[k], Blind(log[..k]));
      } else {
        DownWhole(Replay(log[..k]), log[k], Blind(log[..k]));
      }
    }
  }

  /** If every script that held the lock completed, then, whatever they could read, the
      channel lists exactly the peers, each has its limit, the replicas trail by at
      most one; and the profile agrees exactly if no scale-down since the last
      scale-up was unable to read it, and is empty otherwise. */
  lemma AgreementIff(steps: seq<S.Step>)
    requires S.Governed(steps) && AllCompleted(Log(steps))
    ensures var t := S.Exec(steps).topology;
            && t.joined == t.peers && AllPatched(t) && Trails(t.replicas, |t.peers|)
            && (T.Agreed(t) <==> !Blind(Log(steps)))
            && (Blind(Log(steps)) ==> t.profile == {})
  {
    SerialInvariant(steps);
    S.TopologyInvariant(steps);
    ReplayWhole(Log(steps));
    var t := S.Exec(steps).topology;
    assert t.peers[0] in T.Names(t.peers);
  }
}
