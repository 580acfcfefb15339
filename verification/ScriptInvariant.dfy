/** What each command of a scaling script keeps, for a script that is the only one
    changing the topology but may follow any number of interrupted ones. */
module ScriptInvariant {
  import opened GoText
  import opened Topology

  ghost predicate Distinct(s: seq<Bytes>) { forall i, j :: 0 <= i < j < |s| ==> s[i] != s[j] }

  /** Holds in every reachable state, whatever was interrupted before. */
  ghost predicate TopologyOk(t: Topology) {
    && |t.peers| >= 1
    && t.peers == Stack(|t.peers|)
    && Names(t.joined) <= Names(t.peers)
    && Distinct(t.joined)
    && t.patched <= Names(t.peers)
  }

  /** What the pod listing may show: all peers before a create; after a delete, the
      deleted peer's pod may still be listed. */
  predicate PodsListed(t: Topology, s: Script, pods: nat) {
    && (s.kind == Up && s.pc == 0 ==> pods == |t.peers|)
    && (s.kind == Down && s.pc == 7 ==> |t.peers| <= pods <= |t.peers| + 1)
  }

  /** The command reads the profile and gets nothing. */
  predicate ReadsNothing(s: Script, seen: Seen) { s.kind == Down && s.pc == 5 && !seen.profileRead }

  ghost predicate UpOk(t: Topology, s: Script) {
    && s.pc <= 9
    && (s.pc >= 1 ==> s.peer == PeerName(s.count + 1))
    && (s.pc == 1 ==> s.count == |t.peers|)
    && (s.pc >= 2 ==> |t.peers| >= 2 && s.count == |t.peers| - 1)
    && (s.pc == 2 ==> s.peer !in t.patched)
    && (2 <= s.pc <= 5 ==> s.peer !in t.joined)
    && (s.pc == 4 ==> s.tmp == t.joined)
    && (s.pc == 5 ==> s.tmp == t.joined + [s.peer])
    && (s.pc >= 7 ==> s.file == Names(t.peers))
  }

  ghost predicate DownOk(t: Topology, s: Script) {
    && s.pc <= 10
    && (s.pc <= 4 ==> |t.peers| >= 2)
    && (1 <= s.pc <= 4 ==> s.peer == PeerName(|t.peers|))
    && (s.pc == 2 ==> s.tmp == t.joined)
    && (s.pc == 3 ==> s.tmp == Remove(t.joined, s.peer))
    && (s.pc == 4 ==> s.peer !in t.joined)
    && (s.pc >= 5 ==> s.peer == PeerName(|t.peers| + 1))
  }

  ghost predicate ScriptOk(t: Topology, s: Script) {
    if s.kind == Up then UpOk(t, s) else DownOk(t, s)
  }

  // ----- agreement, when every earlier job completed -----

  /** Replicas equal the peers or are one behind. */
  predicate Trails(replicas: int, peers: int) { peers - 1 <= replicas <= peers }

  /** Every peer has its CPU limit. */
  ghost predicate AllPatched(t: Topology) { Names(t.peers) <= t.patched }

  ghost predicate AtRest(t: Topology) { Agreed(t) && Trails(t.replicas, |t.peers|) && AllPatched(t) }

  /** During a scale-up, profile <= joined <= created. */
  ghost predicate UpClean(t: Topology, s: Script) {
    if s.pc <= 1 then AtRest(t)
    else
      && (if s.pc == 2 then Names(t.joined) <= t.patched else AllPatched(t))
      && if s.pc <= 5 then t.peers == t.joined + [s.peer] && t.profile == Names(t.joined)
         else if s.pc <= 8 then
           t.joined == t.peers && t.profile == Names(t.peers) - {s.peer} && (s.pc == 8 ==> t.replicas == |t.peers|)
         else Agreed(t) && t.replicas == |t.peers|
  }

  /** During a scale-down the copies differ by the one victim at most. */
  ghost predicate DownClean(t: Topology, s: Script) {
    if s.pc <= 3 then AtRest(t)
    else
      && AllPatched(t)
      && if s.pc == 4 then t.peers == t.joined + [s.peer] && t.profile == Names(t.peers)
         else if s.pc <= 9 then
           && t.joined == t.peers && t.profile == Names(t.peers) + {s.peer}
           && (s.pc == 6 ==> s.file == t.profile)
           && (s.pc >= 7 ==> s.file == Names(t.peers))
           && (s.pc == 8 ==> |t.peers| <= s.count <= |t.peers| + 1)
           && (s.pc == 9 ==> Trails(t.replicas, |t.peers|))
         else AtRest(t)
  }

  ghost predicate Clean(t: Topology, s: Script) {
    if s.kind == Up then UpClean(t, s) else DownClean(t, s)
  }

  // ----- one command -----

  lemma {:induction false} RemoveDistinct(s: seq<Bytes>, x: Bytes)
    requires Distinct(s)
    ensures Distinct(Remove(s, x))
  {
    if s != [] {
      var init, last := s[..|s| - 1], s[|s| - 1];
      RemoveDistinct(init, x);
      RemoveNames(init, x);
      var r := Remove(init, x);
      forall i | 0 <= i < |r|
        ensures r[i] != last
      {
        assert r[i] in Names(r);
        assert r[i] in init;
      }
    }
  }

  lemma CreateKeeps(t: Topology)
    requires TopologyOk(t)
    ensures var peer := PeerName(|t.peers| + 1);
            && peer !in t.peers && peer !in t.joined && peer !in t.patched
            && TopologyOk(t.(peers := t.peers + [peer]))
  {
    var n := |t.peers|;
    var peer := PeerName(n + 1);
    StackFresh(n, n + 1);
    assert Stack(n + 1) == Stack(n) + [peer];
    NamesAppend(t.peers, [peer]);
    assert peer !in Names(t.peers);
    assert peer !in Names(t.joined) && peer !in t.patched;
  }

  lemma JoinKeeps(t: Topology, peer: Bytes)
    requires TopologyOk(t) && peer in t.peers && peer !in t.joined
    ensures TopologyOk(t.(joined := t.joined + [peer]))
  {
    NamesAppend(t.joined, [peer]);
    assert peer in Names(t.peers);
    assert Names([peer]) == {peer};
  }

  lemma UnjoinKeeps(t: Topology, peer: Bytes)
    requires TopologyOk(t)
    ensures TopologyOk(t.(joined := Remove(t.joined, peer))) && peer !in Remove(t.joined, peer)
  {
    RemoveNames(t.joined, peer);
    RemoveDistinct(t.joined, peer);
    assert peer !in Names(Remove(t.joined, peer));
  }

  lemma DeleteKeeps(t: Topology, peer: Bytes)
    requires TopologyOk(t) && |t.peers| >= 2 && peer == PeerName(|t.peers|) && peer !in t.joined
    ensures peer in t.peers && |Remove(t.peers, peer)| == |t.peers| - 1
    ensures TopologyOk(t.(peers := Remove(t.peers, peer), patched := t.patched - {peer}))
  {
    StackPop(|t.peers|);
    RemoveNames(t.peers, peer);
    assert peer !in Names(t.joined);
  }

  lemma UpCreateKeeps(t: Topology, s: Script, seen: Seen)
    requires s.kind == Up && s.pc == 1 && TopologyOk(t) && UpOk(t, s)
    ensures UpCommand(t, s, seen).Some?
    ensures var (t', s') := UpCommand(t, s, seen).value; TopologyOk(t') && UpOk(t', s')
  {
    CreateKeeps(t);
  }

  lemma UpPatchKeeps(t: Topology, s: Script, seen: Seen)
    requires s.kind == Up && s.pc == 2 && TopologyOk(t) && UpOk(t, s)
    ensures UpCommand(t, s, seen).Some?
    ensures var (t', s') := UpCommand(t, s, seen).value; TopologyOk(t') && UpOk(t', s')
  {
    StackPop(|t.peers|);
    assert s.peer in Names(t.peers);
  }

  lemma UpJoinKeeps(t: Topology, s: Script, seen: Seen)
    requires s.kind == Up && s.pc == 5 && TopologyOk(t) && UpOk(t, s)
    ensures UpCommand(t, s, seen).Some?
    ensures var (t', s') := UpCommand(t, s, seen).value; TopologyOk(t') && UpOk(t', s')
  {
    StackPop(|t.peers|);
    JoinKeeps(t, s.peer);
  }

  lemma UpLocalKeeps(t: Topology, s: Script, seen: Seen)
    requires s.kind == Up && s.pc in {0, 3, 4, 6, 7, 8} && UpOk(t, s) && PodsListed(t, s, seen.pods)
    requires TopologyOk(t)
    ensures UpCommand(t, s, seen).Some?
    ensures var (t', s') := UpCommand(t, s, seen).value; TopologyOk(t') && UpOk(t', s')
  {
  }

  /** No command finds its name taken or its peer gone, and each keeps the invariant. */
  lemma UpKeeps(t: Topology, s: Script, seen: Seen)
    requires s.kind == Up && s.pc < 9 && TopologyOk(t) && UpOk(t, s) && PodsListed(t, s, seen.pods)
    ensures UpCommand(t, s, seen).Some?
    ensures var (t', s') := UpCommand(t, s, seen).value; TopologyOk(t') && UpOk(t', s')
  {
    hide *;
    if s.pc == 1 {
      UpCreateKeeps(t, s, seen);
    } else if s.pc == 2 {
      UpPatchKeeps(t, s, seen);
    } else if s.pc == 5 {
      UpJoinKeeps(t, s, seen);
    } else {
      UpLocalKeeps(t, s, seen);
    }
  }

  lemma DownStartKeeps(t: Topology, s: Script, seen: Seen)
    requires s.kind == Down && s.pc <= 3 && TopologyOk(t) && DownOk(t, s)
    ensures DownCommand(t, s, seen).Some?
    ensures var (t', s') := DownCommand(t, s, seen).value; TopologyOk(t') && DownOk(t', s')
  {
    if s.pc == 0 {
      StackPop(|t.peers|);
    } else if s.pc == 3 {
      UnjoinKeeps(t, s.peer);
    }
  }

  lemma DownDeleteKeeps(t: Topology, s: Script, seen: Seen)
    requires s.kind == Down && s.pc == 4 && TopologyOk(t) && DownOk(t, s)
    ensures DownCommand(t, s, seen).Some?
    ensures var (t', s') := DownCommand(t, s, seen).value; TopologyOk(t') && DownOk(t', s')
  {
    DeleteKeeps(t, s.peer);
  }

  lemma DownKeeps(t: Topology, s: Script, seen: Seen)
    requires s.kind == Down && s.pc < 10 && TopologyOk(t) && DownOk(t, s)
    ensures DownCommand(t, s, seen).Some?
    ensures var (t', s') := DownCommand(t, s, seen).value; TopologyOk(t') && DownOk(t', s')
  {
    if s.pc <= 3 {
      DownStartKeeps(t, s, seen);
    } else if s.pc == 4 {
      DownDeleteKeeps(t, s, seen);
    }
  }

  lemma UpStartKeepsClean(t: Topology, s: Script, seen: Seen)
    requires s.kind == Up && s.pc <= 2 && TopologyOk(t) && UpOk(t, s) && PodsListed(t, s, seen.pods)
    requires UpClean(t, s)
    ensures UpCommand(t, s, seen).Some?
    ensures var (t', s') := UpCommand(t, s, seen).value; UpClean(t', s')
  {
    UpKeeps(t, s, seen);
    if s.pc == 2 {
      NamesAppend(t.joined, [s.peer]);
      assert Names([s.peer]) == {s.peer};
    }
  }

  lemma UpKeepsClean(t: Topology, s: Script, seen: Seen)
    requires s.kind == Up && s.pc < 9 && TopologyOk(t) && UpOk(t, s) && PodsListed(t, s, seen.pods)
    requires UpClean(t, s)
    ensures UpCommand(t, s, seen).Some?
    ensures var (t', s') := UpCommand(t, s, seen).value; UpClean(t', s')
  {
    if s.pc <= 2 {
      UpStartKeepsClean(t, s, seen);
    } else if s.pc == 5 {
      NamesAppend(t.joined, [s.peer]);
      assert Names([s.peer]) == {s.peer};
      assert s.peer !in Names(t.joined);
    }
  }

  lemma DownStartKeepsClean(t: Topology, s: Script, seen: Seen)
    requires s.kind == Down && s.pc <= 3 && TopologyOk(t) && DownOk(t, s) && DownClean(t, s)
    ensures DownCommand(t, s, seen).Some?
    ensures var (t', s') := DownCommand(t, s, seen).value; DownClean(t', s')
  {
    if s.pc == 3 {
      StackPop(|t.peers|);
      assert Stack(|t.peers|) == Stack(|t.peers| - 1) + [s.peer];
    }
  }

  lemma DownDeleteKeepsClean(t: Topology, s: Script, seen: Seen)
    requires s.kind == Down && s.pc == 4 && TopologyOk(t) && DownOk(t, s) && DownClean(t, s)
    ensures DownCommand(t, s, seen).Some?
    ensures var (t', s') := DownCommand(t, s, seen).value; DownClean(t', s')
  {
    RemoveTop(t.joined, s.peer);
    NamesAppend(t.joined, [s.peer]);
    assert Names([s.peer]) == {s.peer};
  }

  lemma DownProfileKeepsClean(t: Topology, s: Script, seen: Seen)
    requires s.kind == Down && 5 <= s.pc <= 6 && TopologyOk(t) && DownOk(t, s) && DownClean(t, s)
    requires !ReadsNothing(s, seen)
    ensures DownCommand(t, s, seen).Some?
    ensures var (t', s') := DownCommand(t, s, seen).value; DownClean(t', s')
  {
    StackFresh(|t.peers|, |t.peers| + 1);
    assert s.peer !in Names(t.peers);
  }

  lemma DownEndKeepsClean(t: Topology, s: Script, seen: Seen)
    requires s.kind == Down && 7 <= s.pc < 10 && DownClean(t, s) && PodsListed(t, s, seen.pods)
    ensures DownCommand(t, s, seen).Some?
    ensures var (t', s') := DownCommand(t, s, seen).value; DownClean(t', s')
  {
  }

  lemma DownKeepsClean(t: Topology, s: Script, seen: Seen)
    requires s.kind == Down && s.pc < 10 && TopologyOk(t) && DownOk(t, s) && PodsListed(t, s, seen.pods)
    requires DownClean(t, s) && !ReadsNothing(s, seen)
    ensures DownCommand(t, s, seen).Some?
    ensures var (t', s') := DownCommand(t, s, seen).value; DownClean(t', s')
  {
    if s.pc <= 3 {
      DownStartKeepsClean(t, s, seen);
    } else if s.pc == 4 {
      DownDeleteKeepsClean(t, s, seen);
    } else if s.pc <= 6 {
      DownProfileKeepsClean(t, s, seen);
    } else {
      DownEndKeepsClean(t, s, seen);
    }
  }
}
