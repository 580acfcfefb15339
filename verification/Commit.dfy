/** Fabric's execute-order-validate pipeline around the chaincode.  A transaction
    is endorsed on a snapshot that may be stale; blocks then apply write sets in
    order, dropping a transaction whose read versions have moved. */
module Commit {
  import opened GoText
  import opened Chaincode

  datatype Versioned = Versioned(value: Bytes, version: nat)

  type State = map<Bytes, Versioned>

  datatype Transaction = Transaction(call: Call, snapshot: State, faults: Faults)

  function Values(s: State): Ledger { map k | k in s :: s[k].value }

  function VersionOf(s: State, key: Bytes): Option<nat> {
    if key in s then Some(s[key].version) else None
  }

  function Endorse(t: Transaction): Effect {
    InvokeEffect(Values(t.snapshot), t.call, t.faults)
  }

  predicate ReadsCurrent(t: Transaction, s: State) {
    forall k :: k in Endorse(t).readSet ==> VersionOf(s, k) == VersionOf(t.snapshot, k)
  }

  function Apply(s: State, t: Transaction, height: nat): State {
    var e := Endorse(t);
    if e.response == Success && ReadsCurrent(t, s)
    then s + map k | k in e.writeSet :: Versioned(e.writeSet[k], height)
    else s
  }

  /** The state after ordering and validating `block`, transaction i at height i. */
  function CommitAll(genesis: State, block: seq<Transaction>): State {
    if block == [] then genesis
    else
      var n := |block| - 1;
      Apply(CommitAll(genesis, block[..n]), block[n], n)
  }

  /** The atomic map: each call runs on the ledger the previous one left. */
  function Sequential(ledger: Ledger, block: seq<Transaction>): Ledger {
    if block == [] then ledger
    else
      var n := |block| - 1;
      var before := Sequential(ledger, block[..n]);
      before + InvokeEffect(before, block[n].call, block[n].faults).writeSet
  }

  /** However stale the snapshots are, committing in block order leaves the ledger
      that running the same calls one after another leaves. */
  lemma {:induction false} CommitRefinesSequential(genesis: State, block: seq<Transaction>)
    ensures Values(CommitAll(genesis, block)) == Sequential(Values(genesis), block)
  {
    if block != [] {
      var n := |block| - 1;
      var t := block[n];
      var before := CommitAll(genesis, block[..n]);
      CommitRefinesSequential(genesis, block[..n]);
      WritesIgnoreTheLedger(Values(t.snapshot), Values(before), t.call, t.faults);
      ApplyWrites(before, t, n);
    }
  }

  lemma ApplyWrites(s: State, t: Transaction, height: nat)
    ensures Values(Apply(s, t, height)) == Values(s) + Endorse(t).writeSet
  {
    var e := Endorse(t);
    WritesIgnoreTheLedger(Values(t.snapshot), Values(s), t.call, t.faults);
    if e.writeSet == map[] {
      assert Apply(s, t, height) == s;
    }
  }

  /** The write set does not depend on the ledger; a call with writes reads nothing
      and is answered alike everywhere. */
  lemma WritesIgnoreTheLedger(l1: Ledger, l2: Ledger, call: Call, faults: Faults)
    ensures InvokeEffect(l1, call, faults).writeSet == InvokeEffect(l2, call, faults).writeSet
    ensures InvokeEffect(l1, call, faults).writeSet != map[] ==>
              InvokeEffect(l1, call, faults) == InvokeEffect(l2, call, faults)
              && InvokeEffect(l1, call, faults).response == Success
              && InvokeEffect(l1, call, faults).readSet == {}
  {
  }

  /** A key keeps its value through any block that never writes it, whatever the
      block reads. */
  lemma {:induction false} UnwrittenKeysKeepTheirValue(genesis: State, block: seq<Transaction>, key: Bytes)
    requires forall i :: 0 <= i < |block| ==> key !in Endorse(block[i]).writeSet
    ensures key in CommitAll(genesis, block) <==> key in genesis
    ensures key in genesis ==> CommitAll(genesis, block)[key] == genesis[key]
  {
    if block != [] {
      UnwrittenKeysKeepTheirValue(genesis, block[..|block| - 1], key);
    }
  }

  // ----- versions -----

  /** The last transaction of the block that writes the key. */
  function LastWriter(block: seq<Transaction>, key: Bytes): Option<nat> {
    if block == [] then None
    else
      var n := |block| - 1;
      if key in Endorse(block[n]).writeSet then Some(n) else LastWriter(block[..n], key)
  }

  /** A key's version is the height of the last transaction that wrote it. */
  lemma {:induction false} VersionIs(genesis: State, block: seq<Transaction>, key: Bytes)
    ensures VersionOf(CommitAll(genesis, block), key)
            == match LastWriter(block, key) case Some(i) => Some(i) case None => VersionOf(genesis, key)
  {
    if block != [] {
      var n := |block| - 1;
      VersionIs(genesis, block[..n], key);
      WritesIgnoreTheLedger(Values(block[n].snapshot), Values(block[n].snapshot), block[n].call, block[n].faults);
    }
  }

  lemma {:induction false} LastWriterIs(block: seq<Transaction>, key: Bytes)
    ensures match LastWriter(block, key)
            case None => forall i :: 0 <= i < |block| ==> key !in Endorse(block[i]).writeSet
            case Some(i) => i < |block| && key in Endorse(block[i]).writeSet
                            && forall j :: i < j < |block| ==> key !in Endorse(block[j]).writeSet
  {
    hide Endorse;
    if block != [] {
      var n := |block| - 1;
      LastWriterIs(block[..n], key);
      assert forall i :: 0 <= i < n ==> block[..n][i] == block[i];
    }
  }

  /** The transactions from j on that write the key. */
  function WrittenBy(block: seq<Transaction>, j: nat, key: Bytes): set<int> {
    set i | j <= i < |block| && key in Endorse(block[i]).writeSet
  }

  /** The version moves exactly if some transaction from j on writes the key. */
  lemma VersionMoves(block: seq<Transaction>, j: nat, key: Bytes)
    requires j <= |block|
    ensures VersionOf(CommitAll(map[], block), key) == VersionOf(CommitAll(map[], block[..j]), key)
            <==> WrittenBy(block, j, key) == {}
  {
    VersionIs(map[], block, key);
    VersionIs(map[], block[..j], key);
    hide Endorse, CommitAll, LastWriter;
    LastWriterIs(block, key);
    LastWriterIs(block[..j], key);
    assert forall i :: 0 <= i < j ==> block[..j][i] == block[i];
    var last := LastWriter(block, key);
    if last.Some? && last.value >= j {
      assert last.value in WrittenBy(block, j, key);
    } else {
      assert WrittenBy(block, j, key) == {};
      SameLast(block, j, key);
    }
  }

  lemma SameLast(block: seq<Transaction>, j: nat, key: Bytes)
    requires j <= |block| && WrittenBy(block, j, key) == {}
    ensures LastWriter(block, key) == LastWriter(block[..j], key)
  {
    hide Endorse;
    LastWriterIs(block, key);
    LastWriterIs(block[..j], key);
    hide LastWriter;
    assert forall i :: 0 <= i < j ==> block[..j][i] == block[i];
    var (a, b) := (LastWriter(block, key), LastWriter(block[..j], key));
    if a.Some? {
      assert a.value !in WrittenBy(block, j, key);
      assert a.value < j;
    }
  }

  /** A read endorsed on the state after the first j transactions is still current at
      the end exactly if no later transaction wrote what it read. */
  lemma ReadsCurrentIff(block: seq<Transaction>, j: nat, t: Transaction)
    requires j <= |block| && t.snapshot == CommitAll(map[], block[..j])
    ensures ReadsCurrent(t, CommitAll(map[], block)) <==>
            forall k, i :: k in Endorse(t).readSet && j <= i < |block| ==> k !in Endorse(block[i]).writeSet
  {
    hide Endorse, CommitAll;
    forall k | k in Endorse(t).readSet
      ensures VersionOf(CommitAll(map[], block), k) == VersionOf(t.snapshot, k) <==> WrittenBy(block, j, k) == {}
    {
      VersionMoves(block, j, k);
    }
    forall k, i | k in Endorse(t).readSet && j <= i < |block|
      ensures k in Endorse(block[i]).writeSet <==> i in WrittenBy(block, j, k)
    {
    }
  }

  /** A transaction whose reads are stale, or whose endorsement failed, is dropped; any
      other is applied at its height. */
  lemma AppliesIff(s: State, t: Transaction, height: nat, key: Bytes)
    ensures VersionOf(Apply(s, t, height), key)
            == if key in Endorse(t).writeSet && Endorse(t).response == Success && ReadsCurrent(t, s) then Some(height)
               else VersionOf(s, key)
  {
  }
}
