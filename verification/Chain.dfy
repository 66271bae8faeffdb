// The three registries under one history of calls, and the event log that history publishes.
module Chain {
  import opened Basics
  import opened Events
  import Identity
  import Reputation
  import Validation

  datatype World = World(id: Identity.State, rep: Reputation.State, val: Validation.State)

  const GENESIS := World(Identity.GENESIS, Reputation.GENESIS, Validation.GENESIS)

  /** `approved`: the caller is approved for the agent without owning it. */
  datatype Call =
    | OnIdentity(idCall: Identity.Call)
    | OnReputation(repCall: Reputation.Call, approved: bool)
    | OnValidation(valCall: Validation.Call, approved: bool)

  datatype Tx = Tx(ledger: nat, call: Call)

  function Target(tx: Tx): Contract {
    match tx.call
    case OnIdentity(_) => IdentityContract
    case OnReputation(_, _) => ReputationContract
    case OnValidation(_, _) => ValidationContract
  }

  predicate Controls(s: Identity.State, caller: Address, agentId: nat, approved: bool) {
    agentId in s.owners && (s.owners[agentId] == caller || approved)
  }

  /** One call: the world after it and the events it published. A failed call does neither. */
  function Step(w: World, tx: Tx): (World, seq<Event>) {
    match tx.call
    case OnIdentity(call) =>
      var o := Identity.Exec(w.id, call);
      if o.Done? then (w.(id := o.state), ParseAll(o.emitted)) else (w, [])
    case OnReputation(call, approved) =>
      var o := Reputation.Exec(w.rep, call, call.agentId in w.id.owners,
                               Controls(w.id, call.caller, call.agentId, approved));
      if o.Done? then (w.(rep := o.state), o.emitted) else (w, [])
    case OnValidation(call, approved) =>
      var o := Validation.Exec(w.val, call, call.ValidationRequest? && call.agentId in w.id.owners,
                               call.ValidationRequest? && Controls(w.id, call.caller, call.agentId, approved),
                               tx.ledger);
      if o.Done? then (w.(val := o.state), o.emitted) else (w, [])
  }

  type History = seq<Tx>

  /** Ledgers close in order. */
  predicate Ordered(chain: History) {
    forall i, j :: 0 <= i < j < |chain| ==> chain[i].ledger <= chain[j].ledger
  }

  /** No ledger is before the one of the call before it; calls may share a ledger. */
  lemma OrderedByNeighbours(chain: History)
    ensures Ordered(chain) <==> forall i :: 0 < i < |chain| ==> chain[i - 1].ledger <= chain[i].ledger
  {
    if forall i :: 0 < i < |chain| ==> chain[i - 1].ledger <= chain[i].ledger {
      forall i, j | 0 <= i < j < |chain| ensures chain[i].ledger <= chain[j].ledger {
        NeverEarlier(chain, i, j);
      }
    }
    if Ordered(chain) {
      forall i | 0 < i < |chain| ensures chain[i - 1].ledger <= chain[i].ledger {
        var j := i - 1;
        assert chain[j].ledger <= chain[i].ledger;
      }
    }
  }

  lemma {:induction false} NeverEarlier(chain: History, i: nat, j: nat)
    requires i <= j < |chain| && forall k :: 0 < k < |chain| ==> chain[k - 1].ledger <= chain[k].ledger
    ensures chain[i].ledger <= chain[j].ledger
    decreases j
  {
    if i < j {
      NeverEarlier(chain, i, j - 1);
    }
  }

  function WorldAt(chain: History, n: nat): World
    requires n <= |chain|
  {
    if n == 0 then GENESIS else Step(WorldAt(chain, n - 1), chain[n - 1]).0
  }

  function EventsOf(chain: History, n: nat): seq<Event>
    requires n < |chain|
  {
    Step(WorldAt(chain, n), chain[n]).1
  }

  function FirstId(chain: History, n: nat): nat
    requires n <= |chain|
  {
    if n == 0 then 0 else FirstId(chain, n - 1) + |EventsOf(chain, n - 1)|
  }

  /** Numbers a call's events from `first`. */
  function Number(es: seq<Event>, first: nat, ledger: nat): (ps: seq<Packet>)
    ensures |ps| == |es|
  {
    if es == [] then []
    else
      var k := |es| - 1;
      Number(es[..k], first, ledger) + [Packet(first + k, ledger, es[k])]
  }

  function PacketsOf(chain: History, n: nat): seq<Packet>
    requires n < |chain|
  {
    Number(EventsOf(chain, n), FirstId(chain, n), chain[n].ledger)
  }

  /** The events one contract published in calls i..j. */
  function Between(chain: History, c: Contract, i: nat, j: nat): seq<Packet>
    requires i <= j <= |chain|
    decreases j - i
  {
    if i == j then []
    else Between(chain, c, i, j - 1) + if Target(chain[j - 1]) == c then PacketsOf(chain, j - 1) else []
  }

  lemma BetweenOne(chain: History, c: Contract, n: nat)
    requires n < |chain|
    ensures Between(chain, c, n, n + 1) == if Target(chain[n]) == c then PacketsOf(chain, n) else []
  {
    assert Between(chain, c, n, n) == [];
  }

  function Stream(chain: History, c: Contract): seq<Packet> {
    Between(chain, c, 0, |chain|)
  }

  lemma {:induction false} BetweenSplits(chain: History, c: Contract, i: nat, j: nat, k: nat)
    requires i <= j <= k <= |chain|
    ensures Between(chain, c, i, k) == Between(chain, c, i, j) + Between(chain, c, j, k)
    decreases k
  {
    if j < k {
      BetweenSplits(chain, c, i, j, k - 1);
    }
  }

  /** How many calls the ledgers up to `ledger` hold. */
  function CallsUpTo(chain: History, ledger: nat): (n: nat)
    ensures n <= |chain|
    ensures Ordered(chain) ==> forall i :: 0 <= i < |chain| ==> (i < n <==> chain[i].ledger <= ledger)
  {
    if chain == [] then 0
    else
      var k := |chain| - 1;
      if chain[k].ledger <= ledger then |chain| else CallsUpTo(chain[..k], ledger)
  }
}
