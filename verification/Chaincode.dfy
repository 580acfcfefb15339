/** The chaincode: argument parsing, ExperimentWrite, ExperimentRead and the
    Invoke dispatch with its metrics.  Each method is proved against an effect
    function; the lemmas are about whole histories of invocations. */
module Chaincode {
  import opened GoText
  import opened Record

  /** World state as the chaincode sees it; an absent key reads as nil. */
  type Ledger = map<Bytes, Bytes>

  datatype Response = Success | Failure

  datatype Metric = Metric(action: Bytes, success: bool)

  datatype Call = Call(fn: Bytes, args: seq<Bytes>)

  /** Whether the stub's PutState and GetState fail during a call. */
  datatype Faults = Faults(put: bool, get: bool)

  /** What one call does: its answer, its read set and its write set. */
  datatype Effect = Effect(response: Response, readSet: set<Bytes>, writeSet: Ledger)

  const PREFIX: Bytes := "osuExperiment"
  const PING: Bytes := "pingChaincode"
  const WRITE: Bytes := "experimentWrite"
  const READ: Bytes := "experimentRead"
  const HEALTHY := Faults(false, false)

  function ParseWriteArgs(args: seq<Bytes>): Option<(Bytes, ExperimentData)> {
    if |args| != 3 then None
    else
      match Atoi(args[1])
      case Some(counter) => Some((args[0], ExperimentData(args[2], counter)))
      case None => None
  }

  function ParseReadArgs(args: seq<Bytes>): Option<Bytes> {
    if |args| != 1 then None else Some(args[0])
  }

  function WriteEffect(args: seq<Bytes>, faults: Faults): Effect {
    match ParseWriteArgs(args)
    case None => Effect(Failure, {}, map[])
    case Some((key, data)) =>
      if faults.put then Effect(Failure, {}, map[])
      else Effect(Success, {}, map[PREFIX + key := Marshal(data)])
  }

  function ReadEffect(ledger: Ledger, args: seq<Bytes>, faults: Faults): Effect {
    match ParseReadArgs(args)
    case None => Effect(Failure, {}, map[])
    case Some(key) =>
      if faults.get then Effect(Failure, {PREFIX + key}, map[])
      else
        var raw := if PREFIX + key in ledger then ledger[PREFIX + key] else [];
        Effect(if Unmarshal(raw).Some? then Success else Failure, {PREFIX + key}, map[])
  }

  predicate Supported(fn: Bytes) { fn == PING || fn == WRITE || fn == READ }

  function InvokeEffect(ledger: Ledger, call: Call, faults: Faults): Effect {
    if call.fn == PING then Effect(Success, {}, map[])
    else if call.fn == WRITE then WriteEffect(call.args, faults)
    else if call.fn == READ then ReadEffect(ledger, call.args, faults)
    else Effect(Failure, {}, map[])
  }

  /** The transaction context handed to one invocation. */
  class Stub {
    const ledger: Ledger
    const faults: Faults
    var readSet: set<Bytes>
    var writeSet: Ledger

    constructor (ledger: Ledger, faults: Faults)
      ensures this.ledger == ledger && this.faults == faults && readSet == {} && writeSet == map[]
    {
      this.ledger, this.faults, readSet, writeSet := ledger, faults, {}, map[];
    }

    method PutState(key: Bytes, value: Bytes) returns (ok: bool)
      modifies this`writeSet
      ensures ok == !faults.put
      ensures writeSet == if ok then old(writeSet)[key := value] else old(writeSet)
    {
      ok := !faults.put;
      if ok {
        writeSet := writeSet[key := value];
      }
    }

    method GetState(key: Bytes) returns (ok: bool, value: Bytes)
      modifies this`readSet
      ensures ok == !faults.get && readSet == old(readSet) + {key}
      ensures ok ==> value == if key in ledger then ledger[key] else []
    {
      ok, value := !faults.get, [];
      readSet := readSet + {key};
      if ok && key in ledger {
        value := ledger[key];
      }
    }
  }

  method ExperimentWrite(stub: Stub, args: seq<Bytes>) returns (response: Response)
    modifies stub`writeSet
    ensures var e := WriteEffect(args, stub.faults);
            response == e.response && stub.writeSet == old(stub.writeSet) + e.writeSet
  {
    var parsed := ParseWriteArgs(args);
    if parsed == None {
      return Failure;
    }
    var (key, data) := parsed.value;
    var ok := stub.PutState(PREFIX + key, Marshal(data));
    response := if ok then Success else Failure;
  }

  method ExperimentRead(stub: Stub, args: seq<Bytes>) returns (response: Response)
    modifies stub`readSet
    ensures var e := ReadEffect(stub.ledger, args, stub.faults);
            response == e.response && stub.readSet == old(stub.readSet) + e.readSet
  {
    var parsed := ParseReadArgs(args);
    if parsed == None {
      return Failure;
    }
    var ok, raw := stub.GetState(PREFIX + parsed.value);
    response := if ok && Unmarshal(raw).Some? then Success else Failure;
  }

  class Service {
    var metrics: seq<Metric>

    constructor ()
      ensures metrics == []
    {
      metrics := [];
    }

    method Invoke(stub: Stub, call: Call) returns (response: Response)
      requires stub.readSet == {} && stub.writeSet == map[]
      modifies this`metrics, stub`readSet, stub`writeSet
      ensures Effect(response, stub.readSet, stub.writeSet) == InvokeEffect(stub.ledger, call, stub.faults)
      ensures metrics == old(metrics) + Recorded(call, response)
    {
      if call.fn == PING {
        response := Success;
      } else if call.fn == WRITE {
        response := ExperimentWrite(stub, call.args);
      } else if call.fn == READ {
        response := ExperimentRead(stub, call.args);
      } else {
        return Failure;
      }
      var success := true;
      if response != Success {
        success := false;
      }
      metrics := metrics + [Metric(call.fn, success)];
    }
  }

  function Recorded(call: Call, response: Response): seq<Metric> {
    if Supported(call.fn) then [Metric(call.fn, response == Success)] else []
  }

  // ----- what a call answers, whatever the stub does -----

  /** An experimentWrite succeeds exactly with three arguments, a counter that parses
      and a put that goes through; and exactly then it writes, its own key alone, a
      record that decodes to the counter and the bytes.  It never reads. */
  lemma WriteAnswers(ledger: Ledger, args: seq<Bytes>, faults: Faults)
    ensures var e := InvokeEffect(ledger, Call(WRITE, args), faults);
            && (e.response == Success <==> |args| == 3 && Atoi(args[1]).Some? && !faults.put)
            && (e.response == Failure ==> e.writeSet == map[])
            && (e.response == Success ==>
                  e.writeSet.Keys == {PREFIX + args[0]}
                  && Unmarshal(e.writeSet[PREFIX + args[0]]) == Some(ExperimentData(args[2], Atoi(args[1]).value)))
            && e.readSet == {}
  {
    if |args| == 3 && Atoi(args[1]).Some? {
      RoundTrip(ExperimentData(args[2], Atoi(args[1]).value));
    }
  }

  /** An experimentRead succeeds exactly with one argument, a get that goes through and
      a stored value that decodes; it reads its own key, unless its arguments are
      refused, and never writes. */
  lemma ReadAnswers(ledger: Ledger, args: seq<Bytes>, faults: Faults)
    ensures var e := InvokeEffect(ledger, Call(READ, args), faults);
            && (e.response == Success <==>
                && |args| == 1 && !faults.get && PREFIX + args[0] in ledger
                && Unmarshal(ledger[PREFIX + args[0]]).Some?)
            && e.readSet == (if |args| == 1 then {PREFIX + args[0]} else {})
            && e.writeSet == map[]
  {
  }

  /** Ping always succeeds, an unsupported name always fails, and neither touches the
      ledger; only the three supported calls are recorded, with their true status. */
  lemma OtherAnswers(ledger: Ledger, call: Call, faults: Faults)
    requires call.fn != WRITE && call.fn != READ
    ensures var e := InvokeEffect(ledger, call, faults);
            && (e.response == Success <==> call.fn == PING)
            && e.readSet == {} && e.writeSet == map[]
  {
  }

  // ----- histories: every call runs on the ledger its predecessors left -----

  /** A call with what its stub does to it. */
  datatype Submitted = Submitted(call: Call, faults: Faults)

  datatype World = World(ledger: Ledger, metrics: seq<Metric>)

  function After(history: seq<Submitted>): World {
    if history == [] then World(map[], [])
    else
      var before := After(history[..|history| - 1]);
      var (call, faults) := (history[|history| - 1].call, history[|history| - 1].faults);
      var e := InvokeEffect(before.ledger, call, faults);
      World(before.ledger + e.writeSet, before.metrics + Recorded(call, e.response))
  }

  predicate Succeeded(history: seq<Submitted>, i: nat)
    requires i < |history|
  {
    InvokeEffect(After(history[..i]).ledger, history[i].call, history[i].faults).response == Success
  }

  /** Call i is an experimentWrite on `key` that succeeded. */
  predicate WroteAt(history: seq<Submitted>, i: nat, key: Bytes)
    requires i < |history|
  {
    history[i].call.fn == WRITE && Succeeded(history, i) && history[i].call.args[0] == key
  }

  lemma AfterPrefix(history: seq<Submitted>, i: nat)
    requires i + 1 < |history|
    ensures var init := history[..|history| - 1];
            init[i] == history[i] && Succeeded(history, i) == Succeeded(init, i)
  {
    assert history[..|history| - 1][..i] == history[..i];
  }

  /** Distinct client ids never share a ledger key. */
  lemma KeysDistinct(k: Bytes, l: Bytes)
    ensures PREFIX + k == PREFIX + l <==> k == l
  {
    assert (PREFIX + k)[|PREFIX|..] == k;
    assert (PREFIX + l)[|PREFIX|..] == l;
  }

  /** What one call does to the value of one key. */
  lemma OneCall(ledger: Ledger, call: Call, faults: Faults, key: Bytes)
    ensures var e := InvokeEffect(ledger, call, faults);
            if call.fn == WRITE && e.response == Success && call.args[0] == key
            then ParseWriteArgs(call.args).Some?
                 && e.writeSet == map[PREFIX + key := Marshal(ParseWriteArgs(call.args).value.1)]
            else PREFIX + key !in e.writeSet
  {
    if call.fn == WRITE && ParseWriteArgs(call.args).Some? {
      KeysDistinct(ParseWriteArgs(call.args).value.0, key);
    }
  }

  /** The index of the latest successful write on a key. */
  function LastWrite(history: seq<Submitted>, key: Bytes): Option<nat> {
    if history == [] then None
    else if WroteAt(history, |history| - 1, key) then Some(|history| - 1)
    else LastWrite(history[..|history| - 1], key)
  }

  lemma {:induction false} LastWriteIsLatest(history: seq<Submitted>, key: Bytes)
    ensures var last := LastWrite(history, key);
            && (last.Some? ==> last.value < |history| && WroteAt(history, last.value, key))
            && forall j :: 0 <= j < |history| && (last.Some? ==> j > last.value) ==> !WroteAt(history, j, key)
  {
    if history != [] && !WroteAt(history, |history| - 1, key) {
      var init := history[..|history| - 1];
      LastWriteIsLatest(init, key);
      forall j | 0 <= j < |init|
        ensures WroteAt(history, j, key) == WroteAt(init, j, key)
      {
        AfterPrefix(history, j);
      }
    }
  }

  lemma LatestIsUnique(history: seq<Submitted>, key: Bytes, i: nat)
    requires i < |history| && WroteAt(history, i, key)
    requires forall j :: i < j < |history| ==> !WroteAt(history, j, key)
    ensures LastWrite(history, key) == Some(i)
  {
    LastWriteIsLatest(history, key);
    var last := LastWrite(history, key);
    assert last.Some? && last.value >= i;
    assert last.value <= i;
  }

  lemma {:induction false} StoredText(history: seq<Submitted>, key: Bytes)
    ensures var last := LastWrite(history, key);
            var ledger := After(history).ledger;
            && (PREFIX + key in ledger <==> last.Some?)
            && (last.Some? ==> last.value < |history|
                               && ParseWriteArgs(history[last.value].call.args).Some?
                               && ledger[PREFIX + key]
                                  == Marshal(ParseWriteArgs(history[last.value].call.args).value.1))
  {
    if history != [] {
      var n := |history| - 1;
      StoredText(history[..n], key);
      OneCall(After(history[..n]).ledger, history[n].call, history[n].faults, key);
    }
  }

  /** The ledger holds a key exactly when it was written, and then the record of
      the latest successful write, argument for argument: the codecs lose nothing. */
  lemma LastWriteIsStored(history: seq<Submitted>, key: Bytes, i: nat)
    requires i < |history| && WroteAt(history, i, key)
    requires forall j :: i < j < |history| ==> !WroteAt(history, j, key)
    ensures PREFIX + key in After(history).ledger
    ensures var stored := Unmarshal(After(history).ledger[PREFIX + key]);
            stored.Some? && stored.value.data == history[i].call.args[2]
            && Some(stored.value.counter) == Atoi(history[i].call.args[1])
  {
    LatestIsUnique(history, key, i);
    StoredText(history, key);
    var d := ParseWriteArgs(history[i].call.args).value.1;
    assert After(history).ledger[PREFIX + key] == Marshal(d);
    RoundTrip(d);
  }

  /** A read succeeds exactly when an earlier write on the same key succeeded. */
  lemma ReadSucceedsIffWritten(history: seq<Submitted>, key: Bytes)
    ensures InvokeEffect(After(history).ledger, Call(READ, [key]), HEALTHY).response == Success <==>
            exists i :: 0 <= i < |history| && WroteAt(history, i, key)
  {
    LastWriteIsLatest(history, key);
    StoredText(history, key);
    var last := LastWrite(history, key);
    if last.Some? {
      RoundTrip(ParseWriteArgs(history[last.value].call.args).value.1);
      assert WroteAt(history, last.value, key);
    }
  }

  /** Call i is supported and leaves the record m. */
  predicate RecordsAt(history: seq<Submitted>, i: nat, m: Metric)
    requires i < |history|
  {
    Supported(history[i].call.fn) && m == Metric(history[i].call.fn, Succeeded(history, i))
  }

  ghost function CallsRecording(history: seq<Submitted>, m: Metric): set<nat> {
    set i: nat | i < |history| && RecordsAt(history, i, m)
  }

  lemma CallsRecordingStep(history: seq<Submitted>, m: Metric)
    requires history != []
    ensures var n := |history| - 1;
            CallsRecording(history, m)
            == CallsRecording(history[..n], m) + (if RecordsAt(history, n, m) then {n} else {})
  {
    var n := |history| - 1;
    forall i: nat | i < n
      ensures RecordsAt(history, i, m) == RecordsAt(history[..n], i, m)
    {
      AfterPrefix(history, i);
    }
  }

  /** There is one metric record per supported call, labelled with its action and
      true status, and none for an unsupported name. */
  lemma {:induction false} MetricsCountCalls(history: seq<Submitted>, m: Metric)
    ensures multiset(After(history).metrics)[m] == |CallsRecording(history, m)|
  {
    hide InvokeEffect;
    if history == [] {
      assert CallsRecording(history, m) == {};
    } else {
      var n := |history| - 1;
      MetricsCountCalls(history[..n], m);
      CallsRecordingStep(history, m);
      var added := Recorded(history[n].call, if Succeeded(history, n) then Success else Failure);
      assert After(history).metrics == After(history[..n]).metrics + added;
      assert multiset(added)[m] == if RecordsAt(history, n, m) then 1 else 0;
    }
  }

  /** The successful writes of a history, in order. */
  function Writes(history: seq<Submitted>): seq<Submitted> {
    if history == [] then []
    else
      var n := |history| - 1;
      Writes(history[..n])
      + if history[n].call.fn == WRITE && Succeeded(history, n) then [history[n]] else []
  }

  /** A successful write does the same on every ledger, and nothing else does anything. */
  lemma EffectOfWrites(ledger: Ledger, other: Ledger, call: Call, faults: Faults)
    ensures var e := InvokeEffect(ledger, call, faults);
            if call.fn == WRITE && e.response == Success then InvokeEffect(other, call, faults) == e
            else ledger + e.writeSet == ledger
  {
  }

  lemma AfterThen(history: seq<Submitted>, next: Submitted)
    ensures var before := After(history).ledger;
            After(history + [next]).ledger == before + InvokeEffect(before, next.call, next.faults).writeSet
  {
    assert (history + [next])[..|history|] == history;
  }

  /** Reads, refused calls, failed puts and unsupported names leave no trace in the
      ledger: it is the one that the successful writes alone produce. */
  lemma {:induction false} OnlyWritesMatter(history: seq<Submitted>)
    ensures After(history).ledger == After(Writes(history)).ledger
  {
    if history != [] {
      var n := |history| - 1;
      var next, rest := history[n], Writes(history[..n]);
      OnlyWritesMatter(history[..n]);
      EffectOfWrites(After(history[..n]).ledger, After(rest).ledger, next.call, next.faults);
      AfterThen(rest, next);
      assert rest + [] == rest;
    }
  }
}
