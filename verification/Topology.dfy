/** The two scaling scripts, one command at a time, over the objects they change:
    the FabricPeers and their CPU limits, the channel's peersToJoin, the chaincode's
    replicas and the client profile in the dln-config secret. */
module Topology {
  import opened GoText

  /** peers in creation order; profile as the set of peers it lists; patched are the
      peers whose CPU limit was set, the others have the operator's default. */
  datatype Topology = Topology(
    peers: seq<Bytes>,
    joined: seq<Bytes>,
    replicas: int,
    profile: set<Bytes>,
    patched: set<Bytes>)

  datatype Kind = Up | Down

  /** A running script: the next command and its local data, the shell variables
      PEER and COUNT and the files tmp.yaml and ORG_INSPECT_FILE. */
  datatype Script = Script(kind: Kind, pc: nat, peer: Bytes, count: nat, tmp: seq<Bytes>, file: set<Bytes>)

  /** What the pipelines of a script see: how many peer pods are listed, and whether
      the profile is read.  Their exit status is the last command's, so a profile that
      cannot be read comes out empty and the script goes on. */
  datatype Seen = Seen(pods: nat, profileRead: bool)

  const PEER: Bytes := "peer"
  const ORG: Bytes := "-org1"

  function PeerName(k: nat): Bytes { PEER + Digits(k) + ORG }

  function Names(s: seq<Bytes>): set<Bytes> { set x | x in s }

  /** Deleting every element with the given name. */
  function Remove(s: seq<Bytes>, x: Bytes): seq<Bytes> {
    if s == [] then []
    else Remove(s[..|s| - 1], x) + if s[|s| - 1] == x then [] else [s[|s| - 1]]
  }

  function Length(kind: Kind): nat { if kind == Up then 9 else 10 }

  function Begin(kind: Kind): Script { Script(kind, 0, [], 0, [], {}) }

  predicate Completed(s: Script) { s.pc == Length(s.kind) }

  /** One command of peer-scale-up.sh; None is a failing command without effect. */
  function UpCommand(t: Topology, s: Script, seen: Seen): Option<(Topology, Script)> {
    var s' := s.(pc := s.pc + 1);
    match s.pc
    case 0 => Some((t, s'.(count := seen.pods, peer := PeerName(seen.pods + 1))))
    case 1 => if s.peer in t.peers then None else Some((t.(peers := t.peers + [s.peer]), s'))
    case 2 => if s.peer !in t.peers then None else Some((t.(patched := t.patched + {s.peer}), s'))
    case 3 => Some((t, s'.(tmp := t.joined)))
    case 4 => Some((t, s'.(tmp := s.tmp + [s.peer])))
    case 5 => Some((t.(joined := s.tmp), s'))
    case 6 => Some((t, s'.(file := Names(t.peers))))
    case 7 => Some((t.(replicas := s.count + 1), s'))
    case 8 => Some((t.(profile := s.file), s'))
    case _ => None
  }

  function ReadProfile(t: Topology, seen: Seen): set<Bytes> { if seen.profileRead then t.profile else {} }

  /** One command of peer-scale-down.sh. */
  function DownCommand(t: Topology, s: Script, seen: Seen): Option<(Topology, Script)> {
    var s' := s.(pc := s.pc + 1);
    match s.pc
    case 0 => Some((t, s'.(peer := if t.peers == [] then [] else t.peers[|t.peers| - 1])))
    case 1 => Some((t, s'.(tmp := t.joined)))
    case 2 => Some((t, s'.(tmp := Remove(s.tmp, s.peer))))
    case 3 => Some((t.(joined := s.tmp), s'))
    case 4 =>
      if s.peer !in t.peers then None
      else Some((t.(peers := Remove(t.peers, s.peer), patched := t.patched - {s.peer}), s'))
    case 5 => Some((t, s'.(file := ReadProfile(t, seen))))
    case 6 => Some((t, s'.(file := s.file - {s.peer})))
    case 7 => Some((t, s'.(count := seen.pods)))
    case 8 => Some((t.(replicas := s.count - 1), s'))
    case 9 => Some((t.(profile := s.file), s'))
    case _ => None
  }

  function Command(t: Topology, s: Script, seen: Seen): Option<(Topology, Script)> {
    if s.kind == Up then UpCommand(t, s, seen) else DownCommand(t, s, seen)
  }

  // ----- the scripts run without interference, stopping after `budget` commands -----

  function AfterUp(t: Topology, pods: nat, budget: nat): Topology {
    var peer := PeerName(pods + 1);
    if budget < 2 || peer in t.peers then t
    else Topology(t.peers + [peer],
                  if budget < 6 then t.joined else t.joined + [peer],
                  if budget < 8 then t.replicas else pods + 1,
                  if budget < 9 then t.profile else Names(t.peers + [peer]),
                  if budget < 3 then t.patched else t.patched + {peer})
  }

  function AfterDown(t: Topology, seen: Seen, budget: nat): Topology {
    var peer := if t.peers == [] then [] else t.peers[|t.peers| - 1];
    if budget < 4 then t
    else if budget < 5 || t.peers == [] then t.(joined := Remove(t.joined, peer))
    else Topology(Remove(t.peers, peer), Remove(t.joined, peer),
                  if budget < 9 then t.replicas else seen.pods - 1,
                  if budget < 10 then t.profile else ReadProfile(t, seen) - {peer},
                  t.patched - {peer})
  }

  function After(t: Topology, kind: Kind, seen: Seen, budget: nat): Topology {
    if kind == Up then AfterUp(t, seen.pods, budget) else AfterDown(t, seen, budget)
  }

  class Cluster {
    var peers: seq<Bytes>
    var joined: seq<Bytes>
    var replicas: int
    var profile: set<Bytes>
    var patched: set<Bytes>

    function View(): Topology
      reads this
    {
      Topology(peers, joined, replicas, profile, patched)
    }

    /** Under `set -e` the script ends at the first failure: here, when its budget of
        commands is spent or the name to create exists. */
    method PeerScaleUp(pods: nat, budget: nat) returns (completed: bool)
      modifies this
      ensures View() == AfterUp(old(View()), pods, budget)
      ensures completed <==> budget >= Length(Up) && PeerName(pods + 1) !in old(peers)
    {
      completed := false;
      if budget < 1 { return; }
      var count := pods;
      var peer := PeerName(count + 1);
      if budget < 2 || peer in peers { return; }
      peers := peers + [peer];
      if budget < 3 { return; }
      patched := patched + {peer};
      if budget < 4 { return; }
      var tmp := joined;
      if budget < 5 { return; }
      tmp := tmp + [peer];
      if budget < 6 { return; }
      joined := tmp;
      if budget < 7 { return; }
      var inspectFile := Names(peers);
      if budget < 8 { return; }
      replicas := count + 1;
      if budget < 9 { return; }
      profile := inspectFile;
      completed := true;
    }

    method PeerScaleDown(seen: Seen, budget: nat) returns (completed: bool)
      modifies this
      ensures View() == AfterDown(old(View()), seen, budget)
      ensures completed <==> budget >= Length(Down) && old(peers) != []
    {
      completed := false;
      if budget < 1 { return; }
      var peer := if peers == [] then [] else peers[|peers| - 1];
      if budget < 2 { return; }
      var tmp := joined;
      if budget < 3 { return; }
      tmp := Remove(tmp, peer);
      if budget < 4 { return; }
      joined := tmp;
      if budget < 5 || peer !in peers { return; }
      peers, patched := Remove(peers, peer), patched - {peer};
      if budget < 6 { return; }
      var inspectFile := if seen.profileRead then profile else {};
      if budget < 7 { return; }
      inspectFile := inspectFile - {peer};
      if budget < 8 { return; }
      var count: int := seen.pods;
      if budget < 9 { return; }
      replicas := count - 1;
      if budget < 10 { return; }
      profile := inspectFile;
      completed := true;
    }
  }

  /** The script and its local data after `budget` commands on a quiet cluster. */
  function Alone(t: Topology, s: Script, seen: Seen, budget: nat): (Topology, Script) {
    if budget == 0 then (t, s)
    else
      var (u, r) := Alone(t, s, seen, budget - 1);
      match Command(u, r, seen)
      case Some(next) => next
      case None => (u, r)
  }

  /** The locals of an undisturbed scale-up. */
  ghost predicate UpLocals(t: Topology, pods: nat, s: Script, k: nat) {
    var peer := PeerName(pods + 1);
    && s.kind == Up && s.pc == k
    && (k >= 1 ==> s.peer == peer && s.count == pods)
    && (k == 4 ==> s.tmp == t.joined)
    && (k == 5 ==> s.tmp == t.joined + [peer])
    && (k >= 7 ==> s.file == Names(t.peers + [peer]))
  }

  lemma {:induction false} UpAlone(t: Topology, seen: Seen, k: nat)
    requires k <= Length(Up) && PeerName(seen.pods + 1) !in t.peers
    ensures Alone(t, Begin(Up), seen, k).0 == AfterUp(t, seen.pods, k)
    ensures UpLocals(t, seen.pods, Alone(t, Begin(Up), seen, k).1, k)
  {
    if k > 0 {
      UpAlone(t, seen, k - 1);
    }
  }

  ghost predicate DownLocals(t: Topology, seen: Seen, s: Script, k: nat)
    requires t.peers != []
  {
    var peer := t.peers[|t.peers| - 1];
    && s.kind == Down && s.pc == k
    && (k >= 1 ==> s.peer == peer)
    && (k == 2 ==> s.tmp == t.joined)
    && (k == 3 ==> s.tmp == Remove(t.joined, peer))
    && (k == 6 ==> s.file == ReadProfile(t, seen))
    && (k >= 7 ==> s.file == ReadProfile(t, seen) - {peer})
    && (k >= 8 ==> s.count == seen.pods)
  }

  lemma {:induction false} DownAlone(t: Topology, seen: Seen, k: nat)
    requires k <= Length(Down) && t.peers != []
    ensures Alone(t, Begin(Down), seen, k).0 == AfterDown(t, seen, k)
    ensures DownLocals(t, seen, Alone(t, Begin(Down), seen, k).1, k)
  {
    if k > 0 {
      DownAlone(t, seen, k - 1);
    }
  }

  // ----- names -----

  lemma PeerNameInjective(k: nat, l: nat)
    ensures PeerName(k) == PeerName(l) <==> k == l
  {
    if PeerName(k) == PeerName(l) {
      assert PeerName(k)[|PEER|..|PeerName(k)| - |ORG|] == Digits(k);
      assert PeerName(l)[|PEER|..|PeerName(l)| - |ORG|] == Digits(l);
      DigitsInjective(k, l);
    }
  }

  /** The names of n peers: peer0, peer2, peer3, ..., peer n; peer1 is never used. */
  function Stack(n: nat): (s: seq<Bytes>)
    ensures |s| == n
  {
    if n == 0 then []
    else if n == 1 then [PeerName(0)]
    else Stack(n - 1) + [PeerName(n)]
  }

  /** The next name is fresh. */
  lemma {:induction false} StackFresh(n: nat, k: nat)
    requires k > n >= 1
    ensures PeerName(k) !in Stack(n)
  {
    if n == 1 {
      PeerNameInjective(k, 0);
    } else {
      StackFresh(n - 1, k);
      PeerNameInjective(k, n);
    }
  }

  lemma NamesAppend(s: seq<Bytes>, r: seq<Bytes>)
    ensures Names(s + r) == Names(s) + Names(r)
  {
  }

  lemma {:induction false} RemoveNames(s: seq<Bytes>, x: Bytes)
    ensures Names(Remove(s, x)) == Names(s) - {x}
    ensures x !in s ==> Remove(s, x) == s
  {
    if s != [] {
      var init, last := s[..|s| - 1], s[|s| - 1];
      RemoveNames(init, x);
      assert s == init + [last];
      NamesAppend(init, [last]);
      NamesAppend(Remove(init, x), if last == x then [] else [last]);
      assert Names([last]) == {last};
    }
  }

  lemma RemoveTop(s: seq<Bytes>, x: Bytes)
    requires x !in s
    ensures Remove(s + [x], x) == s
  {
    assert (s + [x])[..|s|] == s;
    RemoveNames(s, x);
  }

  /** Scaling down pops the name that scaling up pushed. */
  lemma StackPop(n: nat)
    requires n >= 2
    ensures Stack(n)[n - 1] == PeerName(n) && Remove(Stack(n), PeerName(n)) == Stack(n - 1)
    ensures PeerName(n) in Stack(n)
  {
    StackFresh(n - 1, n);
    RemoveTop(Stack(n - 1), PeerName(n));
  }

  // ----- what one whole or interrupted job does to the three copies -----

  /** The three copies of the peer set agree. */
  ghost predicate Agreed(t: Topology) { t.joined == t.peers && t.profile == Names(t.peers) }

  /** From agreement, an interrupted scale-up leaves agreement exactly if it stopped
      before the create or after the upload. */
  lemma UpAgreesIff(t: Topology, budget: nat)
    requires t.peers != [] && t.peers == Stack(|t.peers|) && Agreed(t)
    ensures Agreed(AfterUp(t, |t.peers|, budget)) <==> budget < 2 || budget >= 9
    ensures AfterUp(t, |t.peers|, budget).peers == Stack(|t.peers| + if budget < 2 then 0 else 1)
  {
    var n := |t.peers|;
    var peer := PeerName(n + 1);
    StackFresh(n, n + 1);
    assert Stack(n + 1) == Stack(n) + [peer];
    assert peer in Names(t.peers + [peer]) && peer !in Names(t.peers);
    assert |t.peers + [peer]| != |t.peers|;
  }

  /** Deleting the newest of n peers. */
  lemma Popped(n: nat)
    requires n >= 2
    ensures var (s, victim) := (Stack(n), PeerName(n));
            && s[n - 1] == victim && victim in s
            && Remove(s, victim) == Stack(n - 1) != s
            && Names(Stack(n - 1)) == Names(s) - {victim} != {}
  {
    StackPop(n);
    RemoveNames(Stack(n), PeerName(n));
    assert |Stack(n - 1)| != |Stack(n)|;
    assert Stack(n - 1)[0] in Names(Stack(n - 1));
  }

  /** From agreement, an interrupted scale-down leaves agreement exactly if it stopped
      before the channel was patched, or after the upload of a profile that was read.
      A completed one leaves as many replicas as peers exactly if the deleted pod was
      still listed when the pods were counted; if not, two peers end with no replica
      at all. */
  lemma DownAgreesIff(t: Topology, seen: Seen, budget: nat)
    requires |t.peers| >= 2 && t.peers == Stack(|t.peers|) && Agreed(t)
    requires |t.peers| - 1 <= seen.pods <= |t.peers|
    ensures var t' := AfterDown(t, seen, budget);
            && (Agreed(t') <==> budget < 4 || (budget >= 10 && seen.profileRead))
            && t'.peers == Stack(|t.peers| - if budget < 5 then 0 else 1)
            && (budget >= 10 ==>
                  (t'.replicas == |t'.peers| <==> seen.pods == |t.peers|)
                  && (t'.replicas == 0 <==> |t.peers| == 2 && seen.pods == 1))
  {
    Popped(|t.peers|);
    assert Names(t.peers) != Names(t.peers) - {PeerName(|t.peers|)};
  }

  /** Peers missing from the channel, and profile entries without a peer. */
  function Missing(t: Topology): set<Bytes> { Names(t.peers) - Names(t.joined) }

  function Stale(t: Topology): set<Bytes> { t.profile - Names(t.peers) }

  /** A completed scale-up rebuilds the profile but never joins an older peer. */
  lemma UpRepairsProfile(t: Topology, pods: nat)
    requires PeerName(pods + 1) !in t.peers
    ensures var t' := AfterUp(t, pods, Length(Up));
            t'.profile == Names(t'.peers) && Missing(t') == Missing(t)
  {
    var peer := PeerName(pods + 1);
    NamesAppend(t.peers, [peer]);
    NamesAppend(t.joined, [peer]);
    assert peer !in Names(t.peers);
  }

  /** A completed scale-down keeps every stale entry of a profile it could read, and
      every missing peer but the one it deletes; one that it could not read is lost. */
  lemma DownKeepsStale(t: Topology, seen: Seen)
    requires t.peers != []
    ensures var (t', victim) := (AfterDown(t, seen, Length(Down)), t.peers[|t.peers| - 1]);
            && Stale(t') == (if seen.profileRead then Stale(t) else {})
            && (!seen.profileRead ==> t'.profile == {})
            && Missing(t') == Missing(t) - {victim}
  {
    var victim := t.peers[|t.peers| - 1];
    RemoveNames(t.peers, victim);
    RemoveNames(t.joined, victim);
    assert victim in Names(t.peers);
  }
}
