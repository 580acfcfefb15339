/** The benchmark client: the command line it builds and one numbered write. */
module Writer {
  import opened GoText
  import opened Record
  import opened Chaincode

  /** How one run of the CLI ends.  It may never start: no peer is found, or exec
      refuses the command line.  A chaincode invocation commits before the CLI
      returns, or never; the CLI may still report failure after the commit. */
  datatype Fate = NotStarted | LostBeforeCommit | LostAfterCommit | Reported

  datatype WriteResult = Written | WriteError | Panicked

  // ----- invokeChaincodeCli -----

  const INVOKE: Bytes := "invoke"
  const KUBECTL_PLUGIN: Bytes := "hlf"
  const COMMAND: Bytes := "chaincode"
  const CONFIG_FLAG: Bytes := "--config="
  const CONFIG_PATH: Bytes := "/fabric-config/fabric-config.yaml"
  const USER_FLAG: Bytes := "--user=admin"
  const PEER_FLAG: Bytes := "--peer="
  const CHAINCODE_FLAG: Bytes := "--chaincode="
  const CHANNEL_FLAG: Bytes := "--channel=firstchannel"
  const FCN: Bytes := "--fcn="
  const FLAG: Bytes := "-a"

  /** The fixed words that every command line starts with. */
  function Header(verb: Bytes, peer: Bytes, chaincode: Bytes, fn: Bytes): seq<Bytes> {
    [KUBECTL_PLUGIN, COMMAND, verb, CONFIG_FLAG + CONFIG_PATH, USER_FLAG,
     PEER_FLAG + peer, CHAINCODE_FLAG + chaincode, CHANNEL_FLAG, FCN + fn]
  }

  // ----- a command line as its reader sees it -----

  const DASHES: Bytes := "--"

  /** The position of the first `=`, or the length if there is none. */
  function EqualsIndex(s: Bytes): (i: nat)
    ensures i <= |s|
  {
    if s == [] || s[0] == '=' then 0 else 1 + EqualsIndex(s[1..])
  }

  /** What the options say: by name, and the values of `-a` in order. */
  datatype Options = Options(named: seq<(Bytes, Bytes)>, args: seq<Bytes>)

  /** Options as a command-line parser reads them, from the left: `-a value` adds a
      value, `--name=value` sets a name, anything else is refused. */
  function ReadOptions(words: seq<Bytes>): Option<Options> {
    if words == [] then Some(Options([], []))
    else if words[0] == FLAG then
      if |words| == 1 then None
      else
        match ReadOptions(words[2..])
        case Some(o) => Some(Options(o.named, [words[1]] + o.args))
        case None => None
    else if DASHES <= words[0] && EqualsIndex(words[0][2..]) < |words[0]| - 2 then
      var (body, i) := (words[0][2..], EqualsIndex(words[0][2..]));
      match ReadOptions(words[1..])
      case Some(o) => Some(Options([(body[..i], body[i + 1..])] + o.named, o.args))
      case None => None
    else None
  }

  /** What a command line asks of whom. */
  datatype Request = Request(
    command: seq<Bytes>,
    peer: Bytes,
    chaincode: Bytes,
    channel: Bytes,
    user: Bytes,
    config: Bytes,
    call: Call)

  const CONFIG_NAME: Bytes := "config"
  const USER_NAME: Bytes := "user"
  const PEER_NAME: Bytes := "peer"
  const CHAINCODE_NAME: Bytes := "chaincode"
  const CHANNEL_NAME: Bytes := "channel"
  const FCN_NAME: Bytes := "fcn"

  function Lookup(named: seq<(Bytes, Bytes)>, name: Bytes): Option<Bytes> {
    if named == [] then None else if named[0].0 == name then Some(named[0].1) else Lookup(named[1..], name)
  }

  function Requested(words: seq<Bytes>): Option<Request> {
    if |words| < 3 then None
    else
      match ReadOptions(words[3..])
      case None => None
      case Some(o) => Addressed(words[..3], o)
  }

  function Addressed(command: seq<Bytes>, o: Options): Option<Request> {
    match (Lookup(o.named, PEER_NAME), Lookup(o.named, CHAINCODE_NAME), Lookup(o.named, CHANNEL_NAME),
           Lookup(o.named, USER_NAME), Lookup(o.named, CONFIG_NAME), Lookup(o.named, FCN_NAME))
    case (Some(peer), Some(chaincode), Some(channel), Some(user), Some(config), Some(fn)) =>
      Some(Request(command, peer, chaincode, channel, user, config, Call(fn, o.args)))
    case _ => None
  }

  lemma {:induction false} EqualsAfter(name: Bytes, value: Bytes)
    requires '=' !in name
    ensures EqualsIndex(name + ['='] + value) == |name|
  {
    if name == [] {
      assert name + ['='] + value == ['='] + value;
    } else {
      assert (name + ['='] + value)[1..] == name[1..] + ['='] + value;
      EqualsAfter(name[1..], value);
    }
  }

  lemma OptionWord(name: Bytes, value: Bytes)
    requires '=' !in name
    ensures var (word, body) := (DASHES + name + ['='] + value, name + ['='] + value);
            && DASHES <= word && word != FLAG && word[2..] == body
            && EqualsIndex(body) == |name| < |body|
            && body[..|name|] == name && body[|name| + 1..] == value
  {
    EqualsAfter(name, value);
    hide EqualsIndex;
    var body := name + ['='] + value;
    assert DASHES + name + ['='] + value == DASHES + body;
    assert (DASHES + body)[1] != FLAG[1];
  }

  /** `--name=value` sets the name. */
  lemma ReadsOption(name: Bytes, value: Bytes, rest: seq<Bytes>)
    requires '=' !in name && ReadOptions(rest).Some?
    ensures ReadOptions([DASHES + name + ['='] + value] + rest)
            == Some(Options([(name, value)] + ReadOptions(rest).value.named, ReadOptions(rest).value.args))
  {
    OptionWord(name, value);
    hide EqualsIndex;
    var words := [DASHES + name + ['='] + value] + rest;
    assert words[0] != FLAG && words[1..] == rest;
  }

  /** Another `-a value` at the end is another value at the end. */
  lemma {:induction false} ReadsArgument(words: seq<Bytes>, value: Bytes)
    requires ReadOptions(words).Some?
    ensures ReadOptions(words + [FLAG, value])
            == Some(ReadOptions(words).value.(args := ReadOptions(words).value.args + [value]))
  {
    hide EqualsIndex;
    var more := words + [FLAG, value];
    if words == [] {
      assert more == [FLAG, value] && more[2..] == [];
      assert [value] + [] == [] + [value];
    } else if words[0] == FLAG {
      assert more[0] == FLAG && more[1] == words[1];
      assert more[2..] == words[2..] + [FLAG, value];
      ReadsArgument(words[2..], value);
      var o := ReadOptions(words[2..]).value;
      assert [words[1]] + (o.args + [value]) == ([words[1]] + o.args) + [value];
    } else {
      assert more[0] == words[0];
      assert more[1..] == words[1..] + [FLAG, value];
      ReadsArgument(words[1..], value);
    }
  }

  lemma FlagWords(peer: Bytes, chaincode: Bytes, fn: Bytes)
    ensures PEER_FLAG + peer == DASHES + PEER_NAME + ['='] + peer
    ensures CHAINCODE_FLAG + chaincode == DASHES + CHAINCODE_NAME + ['='] + chaincode
    ensures FCN + fn == DASHES + FCN_NAME + ['='] + fn
  {
    assert PEER_FLAG == DASHES + PEER_NAME + ['='];
    assert CHAINCODE_FLAG == DASHES + CHAINCODE_NAME + ['='];
    assert FCN == DASHES + FCN_NAME + ['='];
  }

  /** A call of the chaincode at the peer, as this program makes it. */
  function Asks(verb: Bytes, peer: Bytes, chaincode: Bytes, call: Call): Request {
    Request([KUBECTL_PLUGIN, COMMAND, verb], peer, chaincode, CHANNEL, ADMIN, CONFIG_PATH, call)
  }

  const ADMIN: Bytes := "admin"
  const CHANNEL: Bytes := "firstchannel"

  function Named(peer: Bytes, chaincode: Bytes, fn: Bytes): seq<(Bytes, Bytes)> {
    [(CONFIG_NAME, CONFIG_PATH), (USER_NAME, ADMIN), (PEER_NAME, peer), (CHAINCODE_NAME, chaincode),
     (CHANNEL_NAME, CHANNEL), (FCN_NAME, fn)]
  }

  lemma NamesPlain()
    ensures '=' !in CONFIG_NAME && '=' !in USER_NAME && '=' !in PEER_NAME
    ensures '=' !in CHAINCODE_NAME && '=' !in CHANNEL_NAME && '=' !in FCN_NAME
    ensures CONFIG_FLAG + CONFIG_PATH == DASHES + CONFIG_NAME + ['='] + CONFIG_PATH
    ensures USER_FLAG == DASHES + USER_NAME + ['='] + ADMIN
    ensures CHANNEL_FLAG == DASHES + CHANNEL_NAME + ['='] + CHANNEL
  {
    ConfigWord();
    UserWord();
    ChannelWord();
  }

  lemma ConfigWord()
    ensures CONFIG_FLAG + CONFIG_PATH == DASHES + CONFIG_NAME + ['='] + CONFIG_PATH
  {
    assert CONFIG_FLAG == DASHES + CONFIG_NAME + ['='];
  }

  lemma UserWord()
    ensures USER_FLAG == DASHES + USER_NAME + ['='] + ADMIN
  {
  }

  lemma ChannelWord()
    ensures CHANNEL_FLAG == DASHES + CHANNEL_NAME + ['='] + CHANNEL
  {
  }

  /** One more option to the left. */
  lemma ReadsNext(name: Bytes, value: Bytes, word: Bytes, rest: seq<Bytes>, named: seq<(Bytes, Bytes)>)
    requires '=' !in name && word == DASHES + name + ['='] + value
    requires ReadOptions(rest) == Some(Options(named, []))
    ensures ReadOptions([word] + rest) == Some(Options([(name, value)] + named, []))
  {
    ReadsOption(name, value, rest);
  }

  /** The words of the header from the peer on. */
  function Target(peer: Bytes, chaincode: Bytes, fn: Bytes): seq<Bytes> {
    [PEER_FLAG + peer] + ([CHAINCODE_FLAG + chaincode] + ([CHANNEL_FLAG] + ([FCN + fn] + [])))
  }

  lemma ReadsTarget(peer: Bytes, chaincode: Bytes, fn: Bytes)
    ensures ReadOptions(Target(peer, chaincode, fn)) == Some(Options(Named(peer, chaincode, fn)[2..], []))
  {
    FlagWords(peer, chaincode, fn);
    NamesPlain();
    assert ReadOptions([]) == Some(Options([], []));
    assert Named(peer, chaincode, fn)[2..]
           == [(PEER_NAME, peer)] + ([(CHAINCODE_NAME, chaincode)] + ([(CHANNEL_NAME, CHANNEL)]
                                                                      + ([(FCN_NAME, fn)] + [])));
    assert Target(peer, chaincode, fn)
           == [PEER_FLAG + peer] + ([CHAINCODE_FLAG + chaincode] + ([CHANNEL_FLAG] + ([FCN + fn] + [])));
    hide *;
    ReadsNext(FCN_NAME, fn, FCN + fn, [], []);
    var (w, o) := ([FCN + fn] + [], [(FCN_NAME, fn)] + []);
    ReadsNext(CHANNEL_NAME, CHANNEL, CHANNEL_FLAG, w, o);
    w, o := [CHANNEL_FLAG] + w, [(CHANNEL_NAME, CHANNEL)] + o;
    ReadsNext(CHAINCODE_NAME, chaincode, CHAINCODE_FLAG + chaincode, w, o);
    w, o := [CHAINCODE_FLAG + chaincode] + w, [(CHAINCODE_NAME, chaincode)] + o;
    ReadsNext(PEER_NAME, peer, PEER_FLAG + peer, w, o);
  }

  lemma HeaderOptions(verb: Bytes, peer: Bytes, chaincode: Bytes, fn: Bytes)
    ensures ReadOptions(Header(verb, peer, chaincode, fn)[3..]) == Some(Options(Named(peer, chaincode, fn), []))
  {
    NamesPlain();
    ReadsTarget(peer, chaincode, fn);
    var target := Target(peer, chaincode, fn);
    var named := Named(peer, chaincode, fn);
    assert Header(verb, peer, chaincode, fn)[3..] == [CONFIG_FLAG + CONFIG_PATH] + ([USER_FLAG] + target);
    assert named == [(CONFIG_NAME, CONFIG_PATH)] + ([(USER_NAME, ADMIN)] + named[2..]);
    hide *;
    ReadsNext(USER_NAME, ADMIN, USER_FLAG, target, named[2..]);
    ReadsNext(CONFIG_NAME, CONFIG_PATH, CONFIG_FLAG + CONFIG_PATH, [USER_FLAG] + target,
              [(USER_NAME, ADMIN)] + named[2..]);
  }

  lemma LookupNext(named: seq<(Bytes, Bytes)>, name: Bytes, i: nat)
    requires i < |named|
    ensures Lookup(named[i..], name) == if named[i].0 == name then Some(named[i].1) else Lookup(named[i + 1..], name)
  {
    assert named[i..][1..] == named[i + 1..];
  }

  /** No two names are equal. */
  lemma NamesDiffer()
    ensures CONFIG_NAME != USER_NAME && CONFIG_NAME != PEER_NAME && CONFIG_NAME != CHAINCODE_NAME
    ensures CONFIG_NAME != CHANNEL_NAME && CONFIG_NAME != FCN_NAME
    ensures USER_NAME != PEER_NAME && USER_NAME != CHAINCODE_NAME && USER_NAME != CHANNEL_NAME
    ensures USER_NAME != FCN_NAME && PEER_NAME != CHAINCODE_NAME && PEER_NAME != CHANNEL_NAME
    ensures PEER_NAME != FCN_NAME && CHAINCODE_NAME != CHANNEL_NAME && CHAINCODE_NAME != FCN_NAME
    ensures CHANNEL_NAME != FCN_NAME
  {
    assert CHAINCODE_NAME[3] != CHANNEL_NAME[3];
    assert USER_NAME[0] != PEER_NAME[0];
  }

  lemma LookupAll(named: seq<(Bytes, Bytes)>, name: Bytes)
    requires |named| == 6
    ensures Lookup(named, name)
            == if named[0].0 == name then Some(named[0].1)
               else if named[1].0 == name then Some(named[1].1)
               else if named[2].0 == name then Some(named[2].1)
               else if named[3].0 == name then Some(named[3].1)
               else if named[4].0 == name then Some(named[4].1)
               else if named[5].0 == name then Some(named[5].1)
               else None
  {
    assert named[0..] == named && named[6..] == [];
    LookupNext(named, name, 0);
    LookupNext(named, name, 1);
    LookupNext(named, name, 2);
    LookupNext(named, name, 3);
    LookupNext(named, name, 4);
    LookupNext(named, name, 5);
  }

  lemma AddressedIs(command: seq<Bytes>, peer: Bytes, chaincode: Bytes, fn: Bytes, args: seq<Bytes>)
    ensures Addressed(command, Options(Named(peer, chaincode, fn), args))
            == Some(Request(command, peer, chaincode, CHANNEL, ADMIN, CONFIG_PATH, Call(fn, args)))
  {
    var named := Named(peer, chaincode, fn);
    NamesDiffer();
    LookupAll(named, PEER_NAME);
    LookupAll(named, CHAINCODE_NAME);
    LookupAll(named, CHANNEL_NAME);
    LookupAll(named, USER_NAME);
    LookupAll(named, CONFIG_NAME);
    LookupAll(named, FCN_NAME);
    hide Lookup;
  }

  /** The header names its peer, chaincode, channel, user and function. */
  lemma HeaderRequests(verb: Bytes, peer: Bytes, chaincode: Bytes, fn: Bytes)
    ensures var words := Header(verb, peer, chaincode, fn);
            && |words| == 9
            && Requested(words) == Some(Asks(verb, peer, chaincode, Call(fn, [])))
  {
    var words := Header(verb, peer, chaincode, fn);
    assert words[..3] == [KUBECTL_PLUGIN, COMMAND, verb];
    hide ReadOptions, Addressed;
    HeaderOptions(verb, peer, chaincode, fn);
    AddressedIs(words[..3], peer, chaincode, fn, []);
  }

  lemma ArgumentAppended(words: seq<Bytes>, value: Bytes)
    requires Requested(words).Some?
    ensures var (r, r') := (Requested(words).value, Requested(words + [FLAG, value]));
            r' == Some(r.(call := Call(r.call.fn, r.call.args + [value])))
  {
    hide ReadOptions, Lookup;
    assert (words + [FLAG, value])[3..] == words[3..] + [FLAG, value];
    assert (words + [FLAG, value])[..3] == words[..3];
    ReadsArgument(words[3..], value);
  }

  /** The command line addresses the given peer and chaincode on the channel, as the
      admin, and carries the function name and every argument unharmed, whatever text
      they hold. */
  method BuildCommand(verb: Bytes, peer: Bytes, chaincode: Bytes, call: Call) returns (words: seq<Bytes>)
    ensures Requested(words) == Some(Asks(verb, peer, chaincode, call))
    ensures |words| == 9 + 2 * |call.args|
  {
    hide Requested, Header;
    words := Header(verb, peer, chaincode, call.fn);
    HeaderRequests(verb, peer, chaincode, call.fn);
    for i := 0 to |call.args|
      invariant |words| == 9 + 2 * i
      invariant Requested(words) == Some(Asks(verb, peer, chaincode, Call(call.fn, call.args[..i])))
    {
      ArgumentAppended(words, call.args[i]);
      words := words + [FLAG, call.args[i]];
      assert call.args[..i + 1] == call.args[..i] + [call.args[i]];
    }
    assert call.args[..|call.args|] == call.args;
  }

  /** The world state shared by all clients, and the requests that CLI runs made. */
  class Channel {
    var ledger: Ledger
    var requests: seq<Request>
  }

  /** What one run of the CLI asks for, if it starts. */
  function Made(request: Request, fate: Fate): seq<Request> { if fate == NotStarted then [] else [request] }

  function LedgerAfter(ledger: Ledger, call: Call, fate: Fate): Ledger {
    if fate == LostAfterCommit || fate == Reported
    then ledger + InvokeEffect(ledger, call, HEALTHY).writeSet
    else ledger
  }

  predicate Accepted(ledger: Ledger, call: Call, fate: Fate) {
    fate == Reported && InvokeEffect(ledger, call, HEALTHY).response == Success
  }

  method InvokeChaincodeCli(channel: Channel, peer: Bytes, chaincode: Bytes, call: Call, fate: Fate)
    returns (ok: bool)
    modifies channel
    ensures ok == Accepted(old(channel.ledger), call, fate)
    ensures channel.ledger == LedgerAfter(old(channel.ledger), call, fate)
    ensures channel.requests == old(channel.requests) + Made(Asks(INVOKE, peer, chaincode, call), fate)
  {
    if fate == NotStarted {
      return false;
    }
    var words := BuildCommand(INVOKE, peer, chaincode, call);
    var request := Requested(words).value;
    channel.requests := channel.requests + [request];
    var e := InvokeEffect(channel.ledger, request.call, HEALTHY);
    if fate != LostBeforeCommit {
      channel.ledger := channel.ledger + e.writeSet;
    }
    ok := fate == Reported && e.response == Success;
  }

  // ----- writeKey -----

  function Payload(size: nat): Bytes { seq(size, _ => 'a') }

  function WriteCall(id: Bytes, counter: int64, size: nat): Call {
    Call(WRITE, [id, Itoa(counter), Payload(size)])
  }

  class CCWorker {
    const chaincodeID: Bytes
    const id: Bytes
    var counter: int64

    constructor (chaincodeID: Bytes, id: Bytes)
      ensures this.chaincodeID == chaincodeID && this.id == id && counter == 0
    {
      this.chaincodeID, this.id, counter := chaincodeID, id, 0;
    }

    /** One request to the worker's chaincode at the given peer.  A committed write
        stores the counter's value before the call, under this worker's key; the
        counter advances only when success is reported. */
    method WriteKey(channel: Channel, peer: Bytes, size: int, fate: Fate) returns (r: WriteResult)
      modifies this`counter, channel
      ensures r == Panicked <==> size < 0
      ensures size < 0 ==>
                counter == old(counter) && channel.ledger == old(channel.ledger)
                && channel.requests == old(channel.requests)
      ensures size >= 0 ==>
                (r == Written <==> fate == Reported)
                && counter == (if fate == Reported then WrapAdd(old(counter), 1) else old(counter))
                && channel.ledger == LedgerAfter(old(channel.ledger), WriteCall(id, old(counter), size), fate)
                && channel.requests == old(channel.requests)
                   + Made(Asks(INVOKE, peer, chaincodeID, WriteCall(id, old(counter), size)), fate)
    {
      if size < 0 {
        return Panicked;
      }
      WriteIsStored(channel.ledger, id, counter, size);
      var ok := InvokeChaincodeCli(channel, peer, chaincodeID, WriteCall(id, counter, size), fate);
      if ok {
        counter := WrapAdd(counter, 1);
        return Written;
      }
      r := WriteError;
    }
  }

  /** The record under a client's key, read back from the ledger. */
  function Stored(ledger: Ledger, id: Bytes): Option<ExperimentData> {
    if PREFIX + id in ledger then Unmarshal(ledger[PREFIX + id]) else None
  }

  /** End to end, from the client's integers and bytes to the decoded record: the
      counter, and as many bytes `a` as the size says. */
  lemma WriteIsStored(ledger: Ledger, id: Bytes, counter: int64, size: nat)
    ensures var e := InvokeEffect(ledger, WriteCall(id, counter, size), HEALTHY);
            e.response == Success
            && Stored(ledger + e.writeSet, id) == Some(ExperimentData(Payload(size), counter))
    ensures |Payload(size)| == size && forall i :: 0 <= i < size ==> Payload(size)[i] == 'a'
  {
    AtoiItoa(counter);
    RoundTrip(ExperimentData(Payload(size), counter));
  }

  lemma OtherKeyUnchanged(ledger: Ledger, id: Bytes, counter: int64, size: nat, other: Bytes)
    requires other != id
    ensures Stored(ledger + InvokeEffect(ledger, WriteCall(id, counter, size), HEALTHY).writeSet, other)
            == Stored(ledger, other)
  {
    KeysDistinct(id, other);
  }
}
