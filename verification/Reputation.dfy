// The reputation registry: feedback per (agent, client), numbered from 1, with a dense client list.
module Reputation {
  import opened Basics
  import opened Events
  import opened CountedIndex

  const MAX_ABS_VALUE: int := 100_000_000_000_000_000_000_000_000_000_000_000_000

  datatype Feedback = Feedback(value: int, decimals: nat, revoked: bool, tag1: string, tag2: string)

  type FeedbackKey = (nat, Address, nat)

  datatype State = State(
    feedback: map<FeedbackKey, Feedback>,
    lastIndex: map<(nat, Address), nat>,
    clientIndex: Index<nat, Address>,
    clients: set<(nat, Address)>,
    responses: map<FeedbackKey, nat>)

  const GENESIS := State(map[], map[], Empty(), {}, map[])

  datatype Call =
    | GiveFeedback(caller: Address, agentId: nat, value: int, decimals: nat, tag1: string, tag2: string)
    | RevokeFeedback(caller: Address, agentId: nat, index: nat)
    | AppendResponse(caller: Address, agentId: nat, client: Address, index: nat, uri: string)

  datatype Error =
    | SelfFeedback | FeedbackNotFound | InvalidValueDecimals | AggregateOverflow | AgentNotFound
    | EmptyValue | ValueOutOfRange | ClientAddressesRequired | Panic

  datatype Outcome = Done(state: State, emitted: seq<Event>) | Failed(error: Error)

  function LastIndex(s: State, agentId: nat, client: Address): nat {
    if (agentId, client) in s.lastIndex then s.lastIndex[(agentId, client)] else 0
  }

  function ResponseCount(s: State, key: FeedbackKey): nat {
    if key in s.responses then s.responses[key] else 0
  }

  function AddClient(s: State, agentId: nat, client: Address): State {
    s.(clientIndex := Add(s.clientIndex, agentId, client), clients := s.clients + {(agentId, client)})
  }

  /** `agentExists` and `self` are the identity registry's answers about the agent and the caller. */
  function Exec(s: State, call: Call, agentExists: bool, self: bool): Outcome {
    match call
    case GiveFeedback(caller, agentId, value, decimals, tag1, tag2) =>
      if decimals > 18 then Failed(InvalidValueDecimals)
      else if !(-MAX_ABS_VALUE <= value <= MAX_ABS_VALUE) then Failed(ValueOutOfRange)
      else if !agentExists then Failed(AgentNotFound)
      else if self then Failed(SelfFeedback)
      else if (agentId, caller) !in s.clients && Count(s.clientIndex, agentId) >= MAX_U32 then Failed(AggregateOverflow)
      else if LastIndex(s, agentId, caller) >= MAX_U64 then Failed(Panic)
      else
        var s1 := if (agentId, caller) in s.clients then s else AddClient(s, agentId, caller);
        var index := LastIndex(s, agentId, caller) + 1;
        Done(s1.(lastIndex := s.lastIndex[(agentId, caller) := index],
                 feedback := s.feedback[(agentId, caller, index) := Feedback(value, decimals, false, tag1, tag2)]),
             [NewFeedback(agentId, caller, index, value, decimals, tag1, tag2)])
    case RevokeFeedback(caller, agentId, index) =>
      var key := (agentId, caller, index);
      if key !in s.feedback || s.feedback[key].revoked then Failed(FeedbackNotFound)
      else Done(s.(feedback := s.feedback[key := s.feedback[key].(revoked := true)]),
                [FeedbackRevoked(agentId, caller, index)])
    case AppendResponse(caller, agentId, client, index, uri) =>
      var key := (agentId, client, index);
      if uri == "" then Failed(EmptyValue)
      else if key !in s.feedback then Failed(FeedbackNotFound)
      else if ResponseCount(s, key) >= MAX_U32 then Failed(AggregateOverflow)
      else Done(s.(responses := s.responses[key := ResponseCount(s, key) + 1]),
                [ResponseAppended(agentId, client, index, caller, uri)])
  }

  // ---------------------------------------------------------------- the indexes

  ghost predicate Numbered(s: State) {
    && (forall a: nat, c: Address, i: nat :: (a, c, i) in s.feedback <==> 1 <= i <= LastIndex(s, a, c))
    && (forall k :: k in s.feedback ==>
          s.feedback[k].decimals <= 18 && -MAX_ABS_VALUE <= s.feedback[k].value <= MAX_ABS_VALUE)
    && (forall k :: k in s.responses ==> k in s.feedback)
  }

  ghost predicate ClientsIndexed(s: State) {
    && (forall a: nat, c: Address :: (a, c) in s.clients <==> 1 <= LastIndex(s, a, c))
    && Enumerates(s.clientIndex, s.clients)
    && (forall a: nat :: Count(s.clientIndex, a) <= MAX_U32)
  }

  ghost predicate Inv(s: State) {
    Numbered(s) && ClientsIndexed(s)
  }

  lemma ExecKeepsNumbered(s: State, call: Call, agentExists: bool, self: bool)
    requires Numbered(s) && Exec(s, call, agentExists, self).Done?
    ensures Numbered(Exec(s, call, agentExists, self).state)
  {
    hide Add;
    var s' := Exec(s, call, agentExists, self).state;
    forall a: nat, c: Address, i: nat
      ensures (a, c, i) in s'.feedback <==> 1 <= i <= LastIndex(s', a, c)
    {
      assert (a, c, i) in s.feedback <==> 1 <= i <= LastIndex(s, a, c);
    }
  }

  lemma ExecKeepsClients(s: State, call: Call, agentExists: bool, self: bool)
    requires ClientsIndexed(s) && Exec(s, call, agentExists, self).Done?
    ensures ClientsIndexed(Exec(s, call, agentExists, self).state)
  {
    hide Enumerates;
    var s' := Exec(s, call, agentExists, self).state;
    if call.GiveFeedback? && (call.agentId, call.caller) !in s.clients {
      AddEnumerates(s.clientIndex, s.clients, call.agentId, call.caller);
      assert forall a: nat | a != call.agentId :: Count(s'.clientIndex, a) == Count(s.clientIndex, a);
    }
  }

  /** Every entry point keeps both indexes exact. */
  lemma ExecKeepsInv(s: State, call: Call, agentExists: bool, self: bool)
    requires Inv(s) && Exec(s, call, agentExists, self).Done?
    ensures Inv(Exec(s, call, agentExists, self).state)
  {
    hide Exec;
    hide Numbered;
    hide ClientsIndexed;
    ExecKeepsNumbered(s, call, agentExists, self);
    ExecKeepsClients(s, call, agentExists, self);
  }

  predicate SameOrRevoked(f: Feedback, f': Feedback) {
    f' == f || (!f.revoked && f' == f.(revoked := true))
  }

  /** Stored feedback is immutable but for one step from unrevoked to revoked; response counts only grow. */
  ghost predicate Extends(s: State, s': State) {
    && (forall k :: k in s.feedback ==> k in s'.feedback && SameOrRevoked(s.feedback[k], s'.feedback[k]))
    && (forall k: FeedbackKey :: ResponseCount(s, k) <= ResponseCount(s', k))
    && (forall k :: k in s.clientIndex.at ==> k in s'.clientIndex.at && s'.clientIndex.at[k] == s.clientIndex.at[k])
  }

  /** A call with the identity registry's answers at the time. */
  datatype Request = Request(call: Call, agentExists: bool, self: bool)

  function Replay(s: State, requests: seq<Request>): State {
    if requests == [] then s
    else
      var n := |requests| - 1;
      var before := Replay(s, requests[..n]);
      var o := Exec(before, requests[n].call, requests[n].agentExists, requests[n].self);
      if o.Done? then o.state else before
  }

  /** Over every history: both indexes hold, and nothing already recorded is lost or rewritten. */
  lemma {:induction false} HistoryIsKept(s: State, requests: seq<Request>)
    requires Inv(s)
    ensures Inv(Replay(s, requests)) && Extends(s, Replay(s, requests))
    ensures forall k | k in s.feedback ::
              && k in Replay(s, requests).feedback
              && var f, f' := s.feedback[k], Replay(s, requests).feedback[k];
                 f'.value == f.value && f'.decimals == f.decimals && f'.tag1 == f.tag1 && f'.tag2 == f.tag2 && (f.revoked ==> f'.revoked)
    ensures forall k: FeedbackKey :: ResponseCount(s, k) <= ResponseCount(Replay(s, requests), k)
    ensures forall e | e in s.clientIndex.at :: Lookup(Replay(s, requests).clientIndex.at, e) == Some(s.clientIndex.at[e])
  {
    hide Inv;
    hide Exec;
    if requests != [] {
      var n := |requests| - 1;
      HistoryIsKept(s, requests[..n]);
      var before := Replay(s, requests[..n]);
      var o := Exec(before, requests[n].call, requests[n].agentExists, requests[n].self);
      if o.Done? {
        ExecKeepsInv(before, requests[n].call, requests[n].agentExists, requests[n].self);
        StepExtends(before, requests[n]);
      }
    }
  }

  /** What is recorded is within its bounds: numbers from one to the last, at most 18 decimals and 10^38, responses on feedback only. */
  lemma RecordsInRange(s: State, key: FeedbackKey)
    requires Inv(s)
    ensures key in s.feedback <==> 1 <= key.2 <= LastIndex(s, key.0, key.1)
    ensures key in s.feedback ==>
              var f := s.feedback[key];
              f.decimals <= 18 && -100_000_000_000_000_000_000_000_000_000_000_000_000 <= f.value
              && f.value <= 100_000_000_000_000_000_000_000_000_000_000_000_000
    ensures ResponseCount(s, key) > 0 ==> key in s.feedback
  {
    hide ClientsIndexed;
    assert (key.0, key.1, key.2) == key;
  }

  lemma StepExtends(s: State, r: Request)
    requires Inv(s) && Exec(s, r.call, r.agentExists, r.self).Done?
    ensures Extends(s, Exec(s, r.call, r.agentExists, r.self).state)
  {
    hide Numbered;
    hide ClientsIndexed;
    if r.call.GiveFeedback? {
      NextIsNew(s, r.call.agentId, r.call.caller);
      NextEntryIsNew(s, r.call.agentId);
    }
  }

  lemma NextIsNew(s: State, agentId: nat, client: Address)
    requires Numbered(s)
    ensures (agentId, client, LastIndex(s, agentId, client) + 1) !in s.feedback
  {
  }

  lemma NextEntryIsNew(s: State, agentId: nat)
    requires ClientsIndexed(s)
    ensures (agentId, Count(s.clientIndex, agentId)) !in s.clientIndex.at
  {
  }

  /** The client list names exactly the clients with feedback, each once. */
  lemma ClientListExact(s: State, agentId: nat)
    requires Inv(s)
    ensures forall c: Address :: c in List(s.clientIndex, agentId) <==> (agentId, c, 1) in s.feedback
    ensures var list := List(s.clientIndex, agentId); forall i, j :: 0 <= i < j < |list| ==> list[i] != list[j]
  {
    ListExact(s.clientIndex, s.clients, agentId);
  }

  lemma GenesisInv()
    ensures Inv(GENESIS)
  {
  }

  lemma PagesNow(s: State, agentId: nat, limits: seq<nat>)
    requires Inv(s)
    ensures var list := List(s.clientIndex, agentId); Walk(list, 0, limits) == list[..Min(Sum(limits), |list|)]
  {
    ListPages(s.clientIndex, s.clients, agentId, limits);
  }

  /** After any history, pages of any sizes, read one after the other, are the client list. */
  lemma ClientPages(requests: seq<Request>, agentId: nat, limits: seq<nat>)
    ensures Inv(Replay(GENESIS, requests))
    ensures var list := List(Replay(GENESIS, requests).clientIndex, agentId);
            Walk(list, 0, limits) == list[..Min(Sum(limits), |list|)]
  {
    hide Replay;
    GenesisInv();
    HistoryIsKept(GENESIS, requests);
    PagesNow(Replay(GENESIS, requests), agentId, limits);
  }

  // ---------------------------------------------------------------- when calls succeed, and what is read back

  /** Feedback is taken from whoever is neither owner nor approved, within its bounds, and reads back at the next number. */
  lemma FeedbackReadsBack(s: State, call: Call, agentExists: bool, self: bool)
    requires Inv(s) && call.GiveFeedback?
    ensures var o, next := Exec(s, call, agentExists, self), LastIndex(s, call.agentId, call.caller) + 1;
            && (o.Done? <==>
                  && call.decimals <= 18 && agentExists && !self
                  && -100_000_000_000_000_000_000_000_000_000_000_000_000 <= call.value
                  && call.value <= 100_000_000_000_000_000_000_000_000_000_000_000_000
                  && next <= 18_446_744_073_709_551_615
                  && (next == 1 ==> |List(s.clientIndex, call.agentId)| < 4_294_967_295))
            && (o.Done? ==>
                  var key := (call.agentId, call.caller, next);
                  && LastIndex(o.state, call.agentId, call.caller) == next
                  && key !in s.feedback && o.state.feedback.Keys == s.feedback.Keys + {key}
                  && o.state.feedback[key] == Feedback(call.value, call.decimals, false, call.tag1, call.tag2)
                  && (forall k | k in s.feedback :: o.state.feedback[k] == s.feedback[k])
                  && (forall k: FeedbackKey :: ResponseCount(o.state, k) == ResponseCount(s, k)))
  {
    var o, next := Exec(s, call, agentExists, self), LastIndex(s, call.agentId, call.caller) + 1;
    assert (call.agentId, call.caller) in s.clients <==> next != 1;
    NextIsNew(s, call.agentId, call.caller);
  }

  /** A client's own unrevoked feedback is revoked, and only once. */
  lemma RevocationReadsBack(s: State, call: Call, agentExists: bool, self: bool)
    requires call.RevokeFeedback?
    ensures var o, key := Exec(s, call, agentExists, self), (call.agentId, call.caller, call.index);
            && (o.Done? <==> key in s.feedback && !s.feedback[key].revoked)
            && (o.Done? ==>
                  && o.state.feedback.Keys == s.feedback.Keys
                  && var f, was := o.state.feedback[key], s.feedback[key];
                     && f.revoked && f.value == was.value && f.decimals == was.decimals && f.tag1 == was.tag1 && f.tag2 == was.tag2
                     && (forall k | k in s.feedback && k != key :: o.state.feedback[k] == s.feedback[k])
                     && Exec(o.state, call, agentExists, self) == Failed(FeedbackNotFound))
  {
  }

  /** Anyone responds to existing feedback with a text; its count is one more. */
  lemma ResponseReadsBack(s: State, call: Call, agentExists: bool, self: bool)
    requires call.AppendResponse?
    ensures var o, key := Exec(s, call, agentExists, self), (call.agentId, call.client, call.index);
            && (o.Done? <==> call.uri != "" && key in s.feedback && ResponseCount(s, key) < 4_294_967_295)
            && (o.Done? ==>
                  && o.state.feedback == s.feedback
                  && (forall k: FeedbackKey :: ResponseCount(o.state, k) == ResponseCount(s, k) + if k == key then 1 else 0))
  {
  }
}
