/** What the numbering of writes means for the ledger, over runs of many clients on
    one channel that start on any ledger and may restart. */
module Numbering {
  import opened GoText
  import opened Record
  import opened Chaincode
  import opened Writer

  /** A client attempts a write, or its process starts anew with a counter of zero. */
  datatype Event = Write(worker: nat, size: nat, fate: Fate) | Restart(worker: nat)

  datatype Fleet = Fleet(ledger: Ledger, counters: seq<int64>)

  /** All clients have just started. */
  function Fresh(ids: seq<Bytes>, ledger: Ledger): (f: Fleet)
    ensures |f.counters| == |ids| && forall w :: 0 <= w < |ids| ==> f.counters[w] == 0
  {
    Fleet(ledger, seq(|ids|, _ => 0))
  }

  /** The effect of one event; one that names no client has none. */
  function Next(ids: seq<Bytes>, f: Fleet, e: Event): (f': Fleet)
    requires |f.counters| == |ids|
    ensures |f'.counters| == |ids|
  {
    if e.worker >= |ids| then f
    else
      var counter := f.counters[e.worker];
      match e
      case Restart(w) => f.(counters := f.counters[w := 0])
      case Write(w, size, fate) =>
        Fleet(LedgerAfter(f.ledger, WriteCall(ids[w], counter, size), fate),
              if fate == Reported then f.counters[w := WrapAdd(counter, 1)] else f.counters)
  }

  function Play(ids: seq<Bytes>, start: Fleet, run: seq<Event>): (f: Fleet)
    requires |start.counters| == |ids|
    ensures |f.counters| == |ids|
  {
    if run == [] then start
    else Next(ids, Play(ids, start, run[..|run| - 1]), run[|run| - 1])
  }

  /** The number under a client's key. */
  function Number(ledger: Ledger, id: Bytes): Option<int64> {
    match Stored(ledger, id)
    case Some(d) => Some(d.counter)
    case None => None
  }

  function NumberAfter(ids: seq<Bytes>, start: Fleet, run: seq<Event>, w: nat): Option<int64>
    requires |start.counters| == |ids| && w < |ids|
  {
    Number(Play(ids, start, run).ledger, ids[w])
  }

  /** No other client writes to w's key. */
  predicate OwnKey(ids: seq<Bytes>, w: nat)
    requires w < |ids|
  {
    forall v :: 0 <= v < |ids| && v != w ==> ids[v] != ids[w]
  }

  predicate NoRestart(run: seq<Event>, w: nat) { Restart(w) !in run }

  /** The event commits a write of client w. */
  predicate Stores(e: Event, w: nat) {
    e.Write? && e.worker == w && (e.fate == LostAfterCommit || e.fate == Reported)
  }

  /** The numbers that client w committed, in order. */
  function Commits(ids: seq<Bytes>, start: Fleet, run: seq<Event>, w: nat): seq<int64>
    requires |start.counters| == |ids| && w < |ids|
  {
    if run == [] then []
    else
      var init := run[..|run| - 1];
      Commits(ids, start, init, w)
      + if Stores(run[|run| - 1], w) then [Play(ids, start, init).counters[w]] else []
  }

  lemma NextNumber(ids: seq<Bytes>, f: Fleet, e: Event, w: nat)
    requires |f.counters| == |ids| && w < |ids| && OwnKey(ids, w)
    ensures Number(Next(ids, f, e).ledger, ids[w])
            == if Stores(e, w) then Some(f.counters[w]) else Number(f.ledger, ids[w])
  {
    if e.Write? && e.worker < |ids| {
      if e.worker == w {
        WriteIsStored(f.ledger, ids[w], f.counters[w], e.size);
      } else {
        OtherKeyUnchanged(f.ledger, ids[e.worker], f.counters[e.worker], e.size, ids[w]);
      }
    }
  }

  function Latest(initial: Option<int64>, commits: seq<int64>): Option<int64> {
    if commits == [] then initial else Some(commits[|commits| - 1])
  }

  lemma LatestNumber(initial: Option<int64>, commits: seq<int64>, stores: bool, counter: int64)
    ensures Latest(initial, commits + if stores then [counter] else [])
            == if stores then Some(counter) else Latest(initial, commits)
  {
    assert commits + [] == commits;
  }

  /** With one writer per key the ledger holds the writer's latest commit, restarts or
      not, and before the first commit what it held at the start. */
  lemma {:induction false} NumberIsLastCommit(ids: seq<Bytes>, start: Fleet, run: seq<Event>, w: nat)
    requires |start.counters| == |ids| && w < |ids| && OwnKey(ids, w)
    ensures NumberAfter(ids, start, run, w) == Latest(Number(start.ledger, ids[w]), Commits(ids, start, run, w))
  {
    if run != [] {
      var n := |run| - 1;
      NumberIsLastCommit(ids, start, run[..n], w);
      LatestNumber(Number(start.ledger, ids[w]), Commits(ids, start, run[..n], w), Stores(run[n], w),
                   Play(ids, start, run[..n]).counters[w]);
      NextNumber(ids, Play(ids, start, run[..n]), run[n], w);
    }
  }

  /** The counter is zero before the first commit, then the last number or its successor. */
  predicate InStep(counter: int64, commits: seq<int64>) {
    if commits == [] then counter == 0
    else
      var last := commits[|commits| - 1] as int;
      0 <= last && (counter as int == last || counter as int == last + 1)
  }

  /** Numbers start at zero and never fall or skip. */
  predicate Consecutive(s: seq<int64>) {
    && (s != [] ==> s[0] == 0)
    && forall i, j :: 0 <= i && j == i + 1 < |s| ==> s[j] == s[i] || s[j] as int == s[i] as int + 1
  }

  lemma CommitKeeps(commits: seq<int64>, counter: int64)
    requires Consecutive(commits) && InStep(counter, commits) && 0 <= counter < MAX_INT64
    ensures Consecutive(commits + [counter])
    ensures InStep(counter, commits + [counter]) && InStep(WrapAdd(counter, 1), commits + [counter])
  {
  }

  lemma NextInStep(ids: seq<Bytes>, f: Fleet, e: Event, w: nat, commits: seq<int64>, bound: nat)
    requires |f.counters| == |ids| && w < |ids| && e != Restart(w)
    requires 0 <= f.counters[w] <= bound < MAX_INT64
    requires InStep(f.counters[w], commits) && Consecutive(commits)
    ensures var commits' := commits + if Stores(e, w) then [f.counters[w]] else [];
            var counter := Next(ids, f, e).counters[w];
            0 <= counter <= bound + 1 && InStep(counter, commits') && Consecutive(commits')
  {
    if Stores(e, w) {
      CommitKeeps(commits, f.counters[w]);
    } else {
      assert commits + [] == commits;
    }
  }

  lemma {:induction false} CommitsConsecutive(ids: seq<Bytes>, start: Fleet, run: seq<Event>, w: nat)
    requires |start.counters| == |ids| && w < |ids| && |run| <= MAX_INT64
    requires NoRestart(run, w) && start.counters[w] == 0
    ensures 0 <= Play(ids, start, run).counters[w] <= |run|
    ensures InStep(Play(ids, start, run).counters[w], Commits(ids, start, run, w))
    ensures Consecutive(Commits(ids, start, run, w))
  {
    if run != [] {
      var n := |run| - 1;
      var init := run[..n];
      CommitsConsecutive(ids, start, init, w);
      assert run[n] != Restart(w);
      NextInStep(ids, Play(ids, start, init), run[n], w, Commits(ids, start, init, w), n);
    }
  }

  /** From any ledger, a client that started once and has its key to itself never
      drifts from it: until its first commit its counter is zero and the key is as it
      was, then the stored number is the counter or one behind it.  The length bound
      keeps the 64-bit counter from wrapping. */
  lemma CountersAgree(ids: seq<Bytes>, start: Fleet, run: seq<Event>, w: nat)
    requires |start.counters| == |ids| && w < |ids| && |run| <= MAX_INT64
    requires OwnKey(ids, w) && NoRestart(run, w) && start.counters[w] == 0
    ensures var (counter, number) := (Play(ids, start, run).counters[w], NumberAfter(ids, start, run, w));
            if Commits(ids, start, run, w) == [] then counter == 0 && number == Number(start.ledger, ids[w])
            else number.Some? && 0 <= number.value
                 && (counter == number.value || counter as int == number.value as int + 1)
  {
    CommitsConsecutive(ids, start, run, w);
    NumberIsLastCommit(ids, start, run, w);
  }

  /** One event leaves the stored number or raises it by one; only the client's first
      commit may do something else, and it stores zero. */
  lemma StoredNeverFallsOrSkips(ids: seq<Bytes>, start: Fleet, run: seq<Event>, w: nat)
    requires |start.counters| == |ids| && w < |ids| && |run| <= MAX_INT64
    requires OwnKey(ids, w) && NoRestart(run, w) && start.counters[w] == 0 && run != []
    ensures var init := run[..|run| - 1];
            var (before, after) := (NumberAfter(ids, start, init, w), NumberAfter(ids, start, run, w));
            || after == before
            || (Commits(ids, start, init, w) == [] && after == Some(0))
            || (before.Some? && after.Some? && after.value as int == before.value as int + 1)
  {
    var init := run[..|run| - 1];
    CommitsConsecutive(ids, start, init, w);
    NumberIsLastCommit(ids, start, init, w);
    NextNumber(ids, Play(ids, start, init), run[|run| - 1], w);
  }

  lemma {:induction false} AllNumbersOccur(s: seq<int64>, m: int64)
    requires Consecutive(s) && s != [] && 0 <= m <= s[|s| - 1]
    ensures m in s
  {
    var n := |s| - 1;
    if s[n] != m {
      assert n > 0 && s[n - 1] <= s[n];
      AllNumbersOccur(s[..n], m);
    }
  }

  /** Numbering has no gaps: up to its latest number, a client that started once has
      committed every number, whichever CLI runs failed before or after their commit. */
  lemma NoNumberSkipped(ids: seq<Bytes>, start: Fleet, run: seq<Event>, w: nat, m: int64)
    requires |start.counters| == |ids| && w < |ids| && |run| <= MAX_INT64
    requires NoRestart(run, w) && start.counters[w] == 0
    ensures var commits := Commits(ids, start, run, w);
            commits != [] && 0 <= m <= commits[|commits| - 1] ==> m in commits
  {
    CommitsConsecutive(ids, start, run, w);
    var commits := Commits(ids, start, run, w);
    if commits != [] && 0 <= m <= commits[|commits| - 1] {
      AllNumbersOccur(commits, m);
    }
  }

  lemma PlayThen(ids: seq<Bytes>, start: Fleet, run: seq<Event>, e: Event)
    requires |start.counters| == |ids|
    ensures (run + [e])[..|run|] == run
    ensures Play(ids, start, run + [e]) == Next(ids, Play(ids, start, run), e)
  {
    assert (run + [e])[..|run|] == run;
  }

  /** A run splits anywhere. */
  lemma {:induction false} PlayAppend(ids: seq<Bytes>, start: Fleet, first: seq<Event>, rest: seq<Event>)
    requires |start.counters| == |ids|
    ensures Play(ids, start, first + rest) == Play(ids, Play(ids, start, first), rest)
  {
    if rest == [] {
      assert first + rest == first;
    } else {
      var n := |rest| - 1;
      PlayAppend(ids, start, first, rest[..n]);
      assert first + rest == first + rest[..n] + [rest[n]];
      PlayThen(ids, start, first + rest[..n], rest[n]);
    }
  }

  lemma Reborn(ids: seq<Bytes>, start: Fleet, run: seq<Event>, w: nat) returns (run': seq<Event>)
    requires |start.counters| == |ids| && w < |ids|
    ensures run' == run + [Restart(w)]
    ensures Play(ids, start, run').counters[w] == 0
    ensures Play(ids, start, run').ledger == Play(ids, start, run).ledger
    ensures NumberAfter(ids, start, run', w) == NumberAfter(ids, start, run, w)
  {
    run' := run + [Restart(w)];
    assert run'[..|run|] == run;
  }

  /** From each restart on, the run is one from the ledger as it is then, with w's
      counter at zero; so what holds of a client that started once holds of the rest. */
  lemma EachIncarnation(ids: seq<Bytes>, start: Fleet, before: seq<Event>, w: nat, after: seq<Event>)
    requires |start.counters| == |ids| && w < |ids|
    ensures var run := before + [Restart(w)];
            && Play(ids, start, run).counters[w] == 0
            && Play(ids, start, run).ledger == Play(ids, start, before).ledger
            && Play(ids, start, run + after) == Play(ids, Play(ids, start, run), after)
  {
    var run := Reborn(ids, start, before, w);
    PlayAppend(ids, start, run, after);
  }

  // ----- when a stored number falls -----

  /** The number under w's key falls at the last event of the run. */
  predicate Falls(ids: seq<Bytes>, start: Fleet, run: seq<Event>, w: nat)
    requires |start.counters| == |ids| && w < |ids| && run != []
  {
    var (before, after) :=
      (NumberAfter(ids, start, run[..|run| - 1], w), NumberAfter(ids, start, run, w));
    before.Some? && after.Some? && after.value < before.value
  }

  /** Some run from this ledger makes w's number fall; w may restart if `restarts`. */
  ghost predicate MayFall(ids: seq<Bytes>, ledger: Ledger, w: nat, restarts: bool)
    requires w < |ids|
  {
    exists run: seq<Event> :: FallingRun(ids, ledger, w, restarts, run)
  }

  predicate FallingRun(ids: seq<Bytes>, ledger: Ledger, w: nat, restarts: bool, run: seq<Event>)
    requires w < |ids|
  {
    && run != [] && |run| <= MAX_INT64
    && (restarts || NoRestart(run, w))
    && Falls(ids, Fresh(ids, ledger), run, w)
  }

  /** The key starts without a record, or with one that zero does not undercut. */
  predicate StartsLow(ledger: Ledger, id: Bytes) {
    match Number(ledger, id)
    case None => true
    case Some(c) => c <= 0
  }

  /** An acknowledged write by v shows under the key of any client w that shares it. */
  lemma Acknowledged(ids: seq<Bytes>, start: Fleet, run: seq<Event>, v: nat, w: nat) returns (run': seq<Event>)
    requires |start.counters| == |ids| && v < |ids| && w < |ids| && ids[v] == ids[w]
    ensures run' == run + [Write(v, 0, Reported)] && run'[..|run|] == run
    ensures var counters := Play(ids, start, run).counters;
            && NumberAfter(ids, start, run', w) == Some(counters[v])
            && Play(ids, start, run').counters == counters[v := WrapAdd(counters[v], 1)]
  {
    run' := run + [Write(v, 0, Reported)];
    assert run'[..|run|] == run;
    var f := Play(ids, start, run);
    WriteIsStored(f.ledger, ids[v], f.counters[v], 0);
  }

  lemma OneWrite(ids: seq<Bytes>, start: Fleet, w: nat) returns (run: seq<Event>)
    requires |start.counters| == |ids| && w < |ids| && start.counters[w] == 0
    ensures run == [Write(w, 0, Reported)]
    ensures Play(ids, start, run).counters == start.counters[w := 1]
  {
    run := Acknowledged(ids, start, [], w, w);
  }

  function Twice(w: nat): seq<Event> { [Write(w, 0, Reported), Write(w, 0, Reported)] }

  /** Two acknowledged writes of w leave number one and nobody else's counter moved. */
  lemma TwoWrites(ids: seq<Bytes>, start: Fleet, w: nat) returns (run: seq<Event>)
    requires |start.counters| == |ids| && w < |ids| && start.counters[w] == 0
    ensures run == Twice(w)
    ensures NumberAfter(ids, start, run, w) == Some(1)
    ensures Play(ids, start, run).counters == start.counters[w := 2]
  {
    var one := OneWrite(ids, start, w);
    run := Acknowledged(ids, start, one, w, w);
  }

  /** A client v on w's key writes its zero over a one. */
  lemma ZeroOverOne(ids: seq<Bytes>, ledger: Ledger, run: seq<Event>, v: nat, w: nat, restarts: bool)
    returns (run': seq<Event>)
    requires v < |ids| && w < |ids| && ids[v] == ids[w] && |run| < MAX_INT64
    requires restarts || NoRestart(run, w)
    requires NumberAfter(ids, Fresh(ids, ledger), run, w) == Some(1)
    requires Play(ids, Fresh(ids, ledger), run).counters[v] == 0
    ensures run' == run + [Write(v, 0, Reported)] && FallingRun(ids, ledger, w, restarts, run')
  {
    run' := Acknowledged(ids, Fresh(ids, ledger), run, v, w);
  }

  /** One acknowledged write of a fresh client overwrites a larger number. */
  lemma HighStartFalls(ids: seq<Bytes>, ledger: Ledger, w: nat) returns (run: seq<Event>)
    requires w < |ids| && !StartsLow(ledger, ids[w])
    ensures run == [Write(w, 0, Reported)] && FallingRun(ids, ledger, w, false, run)
  {
    run := Acknowledged(ids, Fresh(ids, ledger), [], w, w);
  }

  /** After two acknowledged writes of w, the key's other writer v starts at zero. */
  lemma SharedKeyFalls(ids: seq<Bytes>, ledger: Ledger, v: nat, w: nat) returns (run: seq<Event>)
    requires v < |ids| && w < |ids| && v != w && ids[v] == ids[w]
    ensures run == Twice(w) + [Write(v, 0, Reported)]
    ensures FallingRun(ids, ledger, w, false, run)
  {
    run := TwoWrites(ids, Fresh(ids, ledger), w);
    run := ZeroOverOne(ids, ledger, run, v, w, false);
  }

  /** After two acknowledged writes and a restart, w itself starts at zero again. */
  lemma RestartFalls(ids: seq<Bytes>, ledger: Ledger, w: nat) returns (run: seq<Event>)
    requires w < |ids|
    ensures run == Twice(w) + [Restart(w)] + [Write(w, 0, Reported)]
    ensures FallingRun(ids, ledger, w, true, run)
  {
    run := TwoWrites(ids, Fresh(ids, ledger), w);
    run := Reborn(ids, Fresh(ids, ledger), run, w);
    run := ZeroOverOne(ids, ledger, run, w, w, true);
  }

  lemma NeverFalls(ids: seq<Bytes>, ledger: Ledger, w: nat, run: seq<Event>)
    requires w < |ids| && OwnKey(ids, w) && StartsLow(ledger, ids[w])
    ensures !FallingRun(ids, ledger, w, false, run)
  {
    if FallingRun(ids, ledger, w, false, run) {
      var start, init := Fresh(ids, ledger), run[..|run| - 1];
      StoredNeverFallsOrSkips(ids, start, run, w);
      CountersAgree(ids, start, init, w);
    }
  }

  /** From a given ledger, w's stored number never falls in any run exactly when w has
      its key to itself, does not restart, and the key starts absent or at most zero. */
  lemma NeverFallsIff(ids: seq<Bytes>, ledger: Ledger, w: nat, restarts: bool)
    requires w < |ids|
    ensures !MayFall(ids, ledger, w, restarts) <==>
            OwnKey(ids, w) && !restarts && StartsLow(ledger, ids[w])
  {
    if !StartsLow(ledger, ids[w]) {
      var run := HighStartFalls(ids, ledger, w);
      assert FallingRun(ids, ledger, w, restarts, run);
    } else if restarts {
      var run := RestartFalls(ids, ledger, w);
      assert FallingRun(ids, ledger, w, restarts, run);
    } else if !OwnKey(ids, w) {
      var v :| 0 <= v < |ids| && v != w && ids[v] == ids[w];
      var run := SharedKeyFalls(ids, ledger, v, w);
      assert FallingRun(ids, ledger, w, restarts, run);
    } else {
      forall run: seq<Event>
        ensures !FallingRun(ids, ledger, w, restarts, run)
      {
        NeverFalls(ids, ledger, w, run);
      }
    }
  }
}
