// The identity registry: agents are NFTs with a URI, a wallet slot and indexed metadata.
module Identity {
  import opened Basics
  import opened Events

  const MAX_METADATA_KEY_LEN := 64
  const MAX_METADATA_VALUE_LEN := 4096
  const MAX_METADATA_KEYS := 100

  /** The contract's persistent storage, one map per storage key kind. */
  datatype State = State(
    owners: map<nat, Address>,
    next: nat,
    uris: map<nat, string>,
    wallets: map<nat, Address>,
    metadata: map<(nat, string), string>,
    keys: map<nat, seq<string>>)

  const GENESIS := State(map[], 0, map[], map[], map[], map[])

  /** `approved` is what the NFT base answers for get_approved / is_approved_for_all. */
  datatype Call =
    | Register(caller: Address)
    | RegisterWithUri(caller: Address, uri: string)
    | RegisterFull(caller: Address, uri: string, entries: seq<(string, string)>)
    | SetAgentUri(caller: Address, id: nat, uri: string, approved: bool)
    | SetMetadata(caller: Address, id: nat, key: string, value: string, approved: bool)
    | SetAgentWallet(caller: Address, id: nat, wallet: Address, approved: bool)
    | UnsetAgentWallet(caller: Address, id: nat, approved: bool)
    | Transfer(from: Address, to: Address, id: nat, authorised: bool)

  datatype Error =
    | NotOwnerOrApproved | AgentNotFound | MetadataKeyTooLong | MetadataValueTooLong
    | TooManyMetadataKeys | ReservedMetadataKey | EmptyValue | Panic

  /** An error or a panic rolls the whole call back. */
  datatype Outcome = Done(state: State, emitted: seq<Wire>) | Failed(error: Error)

  function KeysOf(s: State, id: nat): seq<string> {
    if id in s.keys then s.keys[id] else []
  }

  function RecordKey(keys: seq<string>, key: string): seq<string> {
    if key in keys then keys else keys + [key]
  }

  function PutMetadata(s: State, id: nat, key: string, value: string): State {
    s.(keys := s.keys[id := RecordKey(KeysOf(s, id), key)],
       metadata := s.metadata[(id, key) := value])
  }

  function PutAll(s: State, id: nat, entries: seq<(string, string)>): State {
    if entries == [] then s
    else
      var k := |entries| - 1;
      PutMetadata(PutAll(s, id, entries[..k]), id, entries[k].0, entries[k].1)
  }

  function Announce(id: nat, entries: seq<(string, string)>): seq<Wire> {
    if entries == [] then []
    else
      var k := |entries| - 1;
      Announce(id, entries[..k]) + [WireMetadataSet(id, entries[k].0, entries[k].1)]
  }

  /** Removes the entries the key list names, then the list itself. */
  function ClearMetadata(s: State, id: nat): State {
    s.(metadata := map e | e in s.metadata && !(e.0 == id && e.1 in KeysOf(s, id)) :: s.metadata[e],
       keys := s.keys - {id})
  }

  predicate EntryAllowed(entry: (string, string)) {
    |entry.0| <= MAX_METADATA_KEY_LEN && |entry.1| <= MAX_METADATA_VALUE_LEN && entry.0 != AGENT_WALLET
  }

  function Mint(s: State, caller: Address, uri: Option<string>, entries: seq<(string, string)>): Outcome {
    var id := s.next;
    var s1 := s.(owners := s.owners[id := caller], next := id + 1, wallets := s.wallets[id := caller],
                 uris := if uri.Some? then s.uris[id := uri.value] else s.uris);
    Done(PutAll(s1, id, entries),
         [WireMetadataSet(id, AGENT_WALLET, caller)] + Announce(id, entries)
         + [WireRegistered(id, caller, GetOr(uri, ""))])
  }

  function Authorise(s: State, caller: Address, id: nat, approved: bool): Option<Error> {
    if id !in s.owners then Some(AgentNotFound)
    else if caller == s.owners[id] || approved then None
    else Some(NotOwnerOrApproved)
  }

  function Exec(s: State, call: Call): Outcome {
    match call
    case Register(caller) => Mint(s, caller, None, [])
    case RegisterWithUri(caller, uri) => Mint(s, caller, Some(uri), [])
    case RegisterFull(caller, uri, entries) =>
      if |entries| <= MAX_METADATA_KEYS && (forall e | e in entries :: EntryAllowed(e))
      then Mint(s, caller, Some(uri), entries) else Failed(Panic)
    case SetAgentUri(caller, id, uri, approved) =>
      if uri == "" then Failed(EmptyValue)
      else
        var refusal := Authorise(s, caller, id, approved);
        if refusal.Some? then Failed(refusal.value)
        else Done(s.(uris := s.uris[id := uri]), [WireUriUpdated(id, caller, uri)])
    case SetMetadata(caller, id, key, value, approved) =>
      if key == "" then Failed(EmptyValue)
      else if |key| > MAX_METADATA_KEY_LEN then Failed(MetadataKeyTooLong)
      else if |value| > MAX_METADATA_VALUE_LEN then Failed(MetadataValueTooLong)
      else if key == AGENT_WALLET then Failed(ReservedMetadataKey)
      else
        var refusal := Authorise(s, caller, id, approved);
        if refusal.Some? then Failed(refusal.value)
        else if (id, key) !in s.metadata && |KeysOf(s, id)| >= MAX_METADATA_KEYS then Failed(TooManyMetadataKeys)
        else Done(PutMetadata(s, id, key, value), [WireMetadataSet(id, key, value)])
    case SetAgentWallet(caller, id, wallet, approved) =>
      var refusal := Authorise(s, caller, id, approved);
      if refusal.Some? then Failed(refusal.value)
      else Done(s.(wallets := s.wallets[id := wallet]), [WireMetadataSet(id, AGENT_WALLET, wallet)])
    case UnsetAgentWallet(caller, id, approved) =>
      var refusal := Authorise(s, caller, id, approved);
      if refusal.Some? then Failed(refusal.value)
      else Done(s.(wallets := s.wallets - {id}), [WireMetadataSet(id, AGENT_WALLET, "")])
    case Transfer(from, to, id, authorised) =>
      // The override clears first; a refusal by the NFT base undoes the clearing.
      if id in s.owners && s.owners[id] == from && authorised then
        var s1 := ClearMetadata(s.(wallets := s.wallets - {id}), id);
        Done(s1.(owners := s.owners[id := to]),
             [WireMetadataSet(id, AGENT_WALLET, ""), WireTransfer(from, to, id)])
      else Failed(Panic)
  }

  /** The public readers. */
  function TokenUri(s: State, id: nat): string {
    if id in s.uris then s.uris[id] else ""
  }

  function GetMetadata(s: State, id: nat, key: string): Option<string> {
    if key == AGENT_WALLET then
      if id in s.wallets then Some(s.wallets[id]) else None
    else Lookup(s.metadata, (id, key))
  }

  // ---------------------------------------------------------------- the metadata index

  predicate Distinct(keys: seq<string>) {
    forall i, j :: 0 <= i < j < |keys| ==> keys[i] != keys[j]
  }

  ghost predicate Inv(s: State) {
    && (forall id: nat :: id in s.owners <==> id < s.next)
    && (forall id: nat :: id in s.uris ==> id in s.owners)
    && (forall id: nat :: id in s.wallets ==> id in s.owners)
    && (forall id: nat :: id in s.keys ==> id in s.owners && KeyListOk(s.keys[id]))
    && (forall id: nat, key :: (id, key) in s.metadata <==> key in KeysOf(s, id))
  }

  predicate KeyListOk(keys: seq<string>) {
    Distinct(keys) && |keys| <= MAX_METADATA_KEYS && AGENT_WALLET !in keys
  }

  lemma PutMetadataKeepsInv(s: State, id: nat, key: string, value: string)
    requires Inv(s) && id in s.owners && key != AGENT_WALLET
    requires key in KeysOf(s, id) || |KeysOf(s, id)| < MAX_METADATA_KEYS
    ensures Inv(PutMetadata(s, id, key, value))
  {
    var s' := PutMetadata(s, id, key, value);
    var keys := KeysOf(s, id);
    assert KeysOf(s', id) == RecordKey(keys, key);
    assert forall k :: k in RecordKey(keys, key) <==> k in keys || k == key;
    forall i, k ensures (i, k) in s'.metadata <==> k in KeysOf(s', i) {
      assert i != id ==> KeysOf(s', i) == KeysOf(s, i);
    }
  }

  lemma {:induction false} PutAllKeepsInv(s: State, id: nat, entries: seq<(string, string)>)
    requires Inv(s) && id in s.owners
    requires |KeysOf(s, id)| + |entries| <= MAX_METADATA_KEYS
    requires forall e | e in entries :: EntryAllowed(e)
    ensures Inv(PutAll(s, id, entries))
    ensures |KeysOf(PutAll(s, id, entries), id)| <= |KeysOf(s, id)| + |entries|
    ensures PutAll(s, id, entries).(keys := s.keys, metadata := s.metadata) == s
  {
    if entries != [] {
      var k := |entries| - 1;
      PutAllKeepsInv(s, id, entries[..k]);
      assert entries[k] in entries;
      PutMetadataKeepsInv(PutAll(s, id, entries[..k]), id, entries[k].0, entries[k].1);
    }
  }

  /** Because the key list is exact, clearing what it names clears everything. */
  lemma ClearIsComplete(s: State, id: nat)
    requires Inv(s)
    ensures ClearMetadata(s, id).metadata == WithoutAgent(s.metadata, id)
  {
    assert forall e | e in s.metadata :: e.1 in KeysOf(s, e.0);
  }

  lemma ClearMetadataKeepsInv(s: State, id: nat)
    requires Inv(s)
    ensures Inv(ClearMetadata(s, id))
  {
    var s' := ClearMetadata(s, id);
    assert KeysOf(s', id) == [];
    forall i, k ensures (i, k) in s'.metadata <==> k in KeysOf(s', i) {
      assert i != id ==> KeysOf(s', i) == KeysOf(s, i);
    }
  }

  lemma MintKeepsInv(s: State, caller: Address, uri: Option<string>, entries: seq<(string, string)>)
    requires Inv(s)
    requires |entries| <= MAX_METADATA_KEYS && forall e | e in entries :: EntryAllowed(e)
    ensures Inv(Mint(s, caller, uri, entries).state)
  {
    var id := s.next;
    var s1 := s.(owners := s.owners[id := caller], next := id + 1, wallets := s.wallets[id := caller],
                 uris := if uri.Some? then s.uris[id := uri.value] else s.uris);
    assert forall i: nat :: KeysOf(s1, i) == KeysOf(s, i);
    PutAllKeepsInv(s1, id, entries);
  }

  /** Calls that leave the index alone only have to keep the URI and wallet slots inside the agents. */
  lemma SlotsKeepInv(s: State, s': State)
    requires Inv(s) && s'.keys == s.keys && s'.metadata == s.metadata && s'.next == s.next
    requires s'.owners.Keys == s.owners.Keys
    requires s'.uris.Keys <= s.owners.Keys && s'.wallets.Keys <= s.owners.Keys
    ensures Inv(s')
  {
    assert forall i: nat :: KeysOf(s', i) == KeysOf(s, i);
    assert forall i: nat :: i in s'.owners <==> i in s'.owners.Keys;
  }

  lemma TransferKeepsInv(s: State, from: Address, to: Address, id: nat)
    requires Inv(s) && id in s.owners && s.owners[id] == from
    ensures Inv(Exec(s, Transfer(from, to, id, true)).state)
  {
    var s0 := s.(wallets := s.wallets - {id});
    SlotsKeepInv(s, s0);
    ClearMetadataKeepsInv(s0, id);
    var s1 := ClearMetadata(s0, id);
    SlotsKeepInv(s1, s1.(owners := s.owners[id := to]));
  }

  /** The key list stays an exact, duplicate-free, bounded index of the metadata through every call. */
  lemma ExecKeepsInv(s: State, call: Call)
    requires Inv(s) && Exec(s, call).Done?
    ensures Inv(Exec(s, call).state)
  {
    match call
    case Register(caller) => MintKeepsInv(s, caller, None, []);
    case RegisterWithUri(caller, uri) => MintKeepsInv(s, caller, Some(uri), []);
    case RegisterFull(caller, uri, entries) => MintKeepsInv(s, caller, Some(uri), entries);
    case SetMetadata(_, id, key, value, _) => PutMetadataKeepsInv(s, id, key, value);
    case Transfer(from, to, id, _) => TransferKeepsInv(s, from, to, id);
    case SetAgentUri(_, _, _, _) => SlotsKeepInv(s, Exec(s, call).state);
    case SetAgentWallet(_, _, _, _) => SlotsKeepInv(s, Exec(s, call).state);
    case UnsetAgentWallet(_, _, _) => SlotsKeepInv(s, Exec(s, call).state);
  }

  function Replay(s: State, calls: seq<Call>): State {
    if calls == [] then s
    else
      var before := Replay(s, calls[..|calls| - 1]);
      var o := Exec(before, calls[|calls| - 1]);
      if o.Done? then o.state else before
  }

  /** After any history the key list of an agent names its metadata, each key once, at most a hundred, never the wallet's. */
  lemma {:induction false} Reachable(calls: seq<Call>)
    ensures Inv(Replay(GENESIS, calls))
    ensures forall id: nat :: var keys := KeysOf(Replay(GENESIS, calls), id);
              && |keys| <= 100 && "agentWallet" !in keys && (forall i, j :: 0 <= i < j < |keys| ==> keys[i] != keys[j])
              && forall key :: key in keys <==> (id, key) in Replay(GENESIS, calls).metadata
  {
    if calls != [] {
      Reachable(calls[..|calls| - 1]);
      var before := Replay(GENESIS, calls[..|calls| - 1]);
      if Exec(before, calls[|calls| - 1]).Done? {
        ExecKeepsInv(before, calls[|calls| - 1]);
      }
    }
  }

  /** After any history, a transfer leaves no claim behind: every key reads as absent, the wallet included. */
  lemma TransferClearsEverything(calls: seq<Call>, from: Address, to: Address, id: nat, authorised: bool, key: string)
    requires Exec(Replay(GENESIS, calls), Transfer(from, to, id, authorised)).Done?
    ensures var s := Exec(Replay(GENESIS, calls), Transfer(from, to, id, authorised)).state;
            GetMetadata(s, id, key) == None && s.owners[id] == to
  {
    Reachable(calls);
    var s0 := Replay(GENESIS, calls);
    assert (id, key) in s0.metadata ==> key in KeysOf(s0, id);
  }

  // ---------------------------------------------------------------- whose calls change an agent

  /** The call is about this agent, by its owner or one approved; a transfer is from its owner. */
  predicate Entitled(s: State, call: Call, id: nat) {
    match call
    case SetAgentUri(caller, i, _, approved) => i == id && (Lookup(s.owners, id) == Some(caller) || approved)
    case SetMetadata(caller, i, _, _, approved) => i == id && (Lookup(s.owners, id) == Some(caller) || approved)
    case SetAgentWallet(caller, i, _, approved) => i == id && (Lookup(s.owners, id) == Some(caller) || approved)
    case UnsetAgentWallet(caller, i, approved) => i == id && (Lookup(s.owners, id) == Some(caller) || approved)
    case Transfer(from, _, i, authorised) => i == id && Lookup(s.owners, id) == Some(from) && authorised
    case _ => false
  }

  /** No registration is entitled to an agent there already, and any other call only to its own, by title. */
  lemma EntitledOnlyByTitle(s: State, call: Call, id: nat)
    ensures Entitled(s, call, id) ==> !call.Register? && !call.RegisterWithUri? && !call.RegisterFull? && call.id == id
    ensures Entitled(s, call, id) && call.Transfer? ==> id in s.owners && s.owners[id] == call.from && call.authorised
    ensures Entitled(s, call, id) && !call.Transfer? ==> (id in s.owners && s.owners[id] == call.caller) || call.approved
  {
  }

  /** Everything a reader can learn about an agent. */
  ghost predicate SameAgent(s: State, s': State, id: nat) {
    && Lookup(s'.owners, id) == Lookup(s.owners, id) && TokenUri(s', id) == TokenUri(s, id)
    && forall key :: GetMetadata(s', id, key) == GetMetadata(s, id, key)
  }

  lemma {:induction false} PutAllSpares(s: State, mine: nat, entries: seq<(string, string)>, id: nat)
    requires mine != id
    ensures SameAgent(s, PutAll(s, mine, entries), id)
  {
    if entries != [] {
      PutAllSpares(s, mine, entries[..|entries| - 1], id);
    }
  }

  lemma MintSpares(s: State, caller: Address, uri: Option<string>, entries: seq<(string, string)>, id: nat)
    requires id < s.next
    ensures SameAgent(s, Mint(s, caller, uri, entries).state, id)
  {
    var s1 := s.(owners := s.owners[s.next := caller], next := s.next + 1, wallets := s.wallets[s.next := caller],
                 uris := if uri.Some? then s.uris[s.next := uri.value] else s.uris);
    PutAllSpares(s1, s.next, entries, id);
  }

  /** A call that succeeds without title to an agent leaves all of it alone. */
  lemma OnlyTheEntitledChange(s: State, call: Call, id: nat)
    requires Inv(s) && id in s.owners && Exec(s, call).Done? && !Entitled(s, call, id)
    ensures SameAgent(s, Exec(s, call).state, id)
  {
    hide SameAgent;
    match call
    case Register(caller) => MintSpares(s, caller, None, [], id);
    case RegisterWithUri(caller, uri) => MintSpares(s, caller, Some(uri), [], id);
    case RegisterFull(caller, uri, entries) => MintSpares(s, caller, Some(uri), entries, id);
    case _ => OtherAgentSpared(s, call, id);
  }

  /** A call about one agent leaves the others alone. */
  lemma OtherAgentSpared(s: State, call: Call, id: nat)
    requires Exec(s, call).Done? && !Entitled(s, call, id)
    requires !call.Register? && !call.RegisterWithUri? && !call.RegisterFull?
    ensures SameAgent(s, Exec(s, call).state, id)
  {
  }

  /** Over any history, an agent changes only through calls by its owner of the time or one approved. */
  lemma {:induction false} AgentsBelongToOwners(s: State, calls: seq<Call>, id: nat)
    requires Inv(s) && id in s.owners
    requires forall k :: 0 <= k < |calls| && Exec(Replay(s, calls[..k]), calls[k]).Done? ==> !Entitled(Replay(s, calls[..k]), calls[k], id)
    ensures Inv(Replay(s, calls)) && SameAgent(s, Replay(s, calls), id)
    ensures id in Replay(s, calls).owners && Replay(s, calls).owners[id] == s.owners[id] && TokenUri(Replay(s, calls), id) == TokenUri(s, id)
    ensures forall key :: GetMetadata(Replay(s, calls), id, key) == GetMetadata(s, id, key)
    decreases |calls|
  {
    hide Exec;
    hide Inv;
    hide Entitled;
    hide SameAgent;
    if calls == [] {
      SameAgentStays(s, id);
    } else {
      var n := |calls| - 1;
      var fewer := calls[..n];
      assert forall k | 0 <= k < n :: fewer[..k] == calls[..k];
      AgentsBelongToOwners(s, fewer, id);
      var before := Replay(s, fewer);
      AgentStillThere(s, before, id);
      if Exec(before, calls[n]).Done? {
        ExecKeepsInv(before, calls[n]);
        OnlyTheEntitledChange(before, calls[n], id);
        SameAgentTwice(s, before, Exec(before, calls[n]).state, id);
      }
    }
    NothingMoved(s, Replay(s, calls), id);
  }

  lemma NothingMoved(s: State, s': State, id: nat)
    requires id in s.owners && SameAgent(s, s', id)
    ensures id in s'.owners && s'.owners[id] == s.owners[id] && TokenUri(s', id) == TokenUri(s, id)
    ensures forall key :: GetMetadata(s', id, key) == GetMetadata(s, id, key)
  {
  }

  lemma SameAgentStays(s: State, id: nat)
    ensures SameAgent(s, s, id)
  {
  }

  lemma AgentStillThere(s: State, s': State, id: nat)
    requires id in s.owners && SameAgent(s, s', id)
    ensures id in s'.owners
  {
  }

  lemma SameAgentTwice(s: State, s': State, s'': State, id: nat)
    requires SameAgent(s, s', id) && SameAgent(s', s'', id)
    ensures SameAgent(s, s'', id)
  {
  }

  // ---------------------------------------------------------------- when calls succeed, and what is read back

  /** The owner of the agent, or a caller approved for it. */
  predicate MayAct(s: State, caller: Address, id: nat, approved: bool) {
    id in s.owners && (s.owners[id] == caller || approved)
  }

  /** The value an entry list gives a key: its last. */
  function ValueIn(entries: seq<(string, string)>, key: string): Option<string> {
    if entries == [] then None
    else if entries[|entries| - 1].0 == key then Some(entries[|entries| - 1].1)
    else ValueIn(entries[..|entries| - 1], key)
  }

  lemma {:induction false} PutAllReadsBack(s: State, id: nat, entries: seq<(string, string)>, key: string)
    ensures var s' := PutAll(s, id, entries);
            && s'.owners == s.owners && s'.uris == s.uris && s'.wallets == s.wallets
            && Lookup(s'.metadata, (id, key)) == if ValueIn(entries, key).Some? then ValueIn(entries, key) else Lookup(s.metadata, (id, key))
  {
    if entries != [] {
      PutAllReadsBack(s, id, entries[..|entries| - 1], key);
    }
  }

  function UriOf(call: Call): string
    requires call.Register? || call.RegisterWithUri? || call.RegisterFull?
  {
    if call.Register? then "" else call.uri
  }

  function EntriesOf(call: Call): seq<(string, string)> {
    if call.RegisterFull? then call.entries else []
  }

  /**
   * A registration succeeds unless its entries are too many, too long or use the wallet's key. The next
   * agent is the caller's, with the URI, the caller as wallet, the last value given for each key, and no more.
   */
  lemma RegistrationReadsBack(s: State, call: Call, key: string)
    requires Inv(s) && (call.Register? || call.RegisterWithUri? || call.RegisterFull?)
    ensures var o := Exec(s, call);
            && (o.Done? <==> |EntriesOf(call)| <= 100 && forall e | e in EntriesOf(call) :: |e.0| <= 64 && |e.1| <= 4096 && e.0 != "agentWallet")
            && (o.Done? ==>
                  && s.next !in s.owners && o.state.owners == s.owners[s.next := call.caller]
                  && TokenUri(o.state, s.next) == UriOf(call)
                  && GetMetadata(o.state, s.next, "agentWallet") == Some(call.caller)
                  && (key != "agentWallet" ==> GetMetadata(o.state, s.next, key) == ValueIn(EntriesOf(call), key)))
  {
    hide PutAll;
    var id, uri := s.next, if call.Register? then None else Some(call.uri);
    var s1 := s.(owners := s.owners[id := call.caller], next := id + 1, wallets := s.wallets[id := call.caller],
                 uris := if uri.Some? then s.uris[id := uri.value] else s.uris);
    assert id !in s.owners;
    PutAllReadsBack(s1, id, EntriesOf(call), key);
    assert (id, key) !in s.metadata by { assert KeysOf(s, id) == []; }
  }

  /** Only a nonempty URI, from the owner or one approved; it reads back, and nothing else of the agent moved. */
  lemma UriReadsBack(s: State, call: Call, key: string)
    requires call.SetAgentUri?
    ensures var o := Exec(s, call);
            && (o.Done? <==> call.uri != "" && MayAct(s, call.caller, call.id, call.approved))
            && (o.Done? ==>
                  && TokenUri(o.state, call.id) == call.uri && o.state.owners == s.owners
                  && GetMetadata(o.state, call.id, key) == GetMetadata(s, call.id, key))
  {
  }

  /** Only a key of 1 to 64 that is not the wallet's, a value of up to 4096, and up to 100 keys; the value reads back. */
  lemma MetadataReadsBack(s: State, call: Call, key: string)
    requires Inv(s) && call.SetMetadata?
    ensures var o := Exec(s, call);
            && (o.Done? <==>
                  && 1 <= |call.key| <= 64 && |call.value| <= 4096 && call.key != "agentWallet"
                  && MayAct(s, call.caller, call.id, call.approved)
                  && (GetMetadata(s, call.id, call.key).Some? || |KeysOf(s, call.id)| < 100))
            && (o.Done? ==>
                  && GetMetadata(o.state, call.id, call.key) == Some(call.value)
                  && (key != call.key ==> GetMetadata(o.state, call.id, key) == GetMetadata(s, call.id, key))
                  && o.state.owners == s.owners && TokenUri(o.state, call.id) == TokenUri(s, call.id))
  {
  }

  /** The wallet reads back as metadata once set, and as absent once unset; both take the owner or one approved. */
  lemma WalletReadsBack(s: State, call: Call, key: string)
    requires call.SetAgentWallet? || call.UnsetAgentWallet?
    ensures var o := Exec(s, call);
            && (o.Done? <==> MayAct(s, call.caller, call.id, call.approved))
            && (o.Done? ==>
                  && GetMetadata(o.state, call.id, "agentWallet") == (if call.SetAgentWallet? then Some(call.wallet) else None)
                  && (key != "agentWallet" ==> GetMetadata(o.state, call.id, key) == GetMetadata(s, call.id, key))
                  && o.state.owners == s.owners && TokenUri(o.state, call.id) == TokenUri(s, call.id))
  {
  }

  /** A transfer takes the owner and title to move the token; the new owner finds the URI, and no metadata or wallet. */
  lemma TransferReadsBack(s: State, call: Call, key: string)
    requires Inv(s) && call.Transfer?
    ensures var o := Exec(s, call);
            && (o.Done? <==> call.id in s.owners && s.owners[call.id] == call.from && call.authorised)
            && (o.Done? ==>
                  && o.state.owners == s.owners[call.id := call.to]
                  && TokenUri(o.state, call.id) == TokenUri(s, call.id)
                  && GetMetadata(o.state, call.id, key) == None)
  {
    assert (call.id, key) in s.metadata ==> key in KeysOf(s, call.id);
  }
}
