// The validation registry: requests keyed by hash, indexed by agent and by validator.
module Validation {
  import opened Basics
  import opened Events
  import opened CountedIndex

  datatype Status = Status(
    validator: Address, agentId: nat, response: nat, responseHash: string, tag: string,
    lastUpdate: nat, hasResponse: bool)

  datatype State = State(
    validations: map<string, Status>,
    agentIndex: Index<nat, string>,
    validatorIndex: Index<Address, string>)

  const GENESIS := State(map[], Empty(), Empty())
  const ZERO_HASH := "0000000000000000000000000000000000000000000000000000000000000000"

  datatype Call =
    | ValidationRequest(caller: Address, validator: Address, agentId: nat, uri: string, hash: string)
    | ValidationResponse(caller: Address, hash: string, response: nat, responseHash: string, tag: string)

  datatype Error =
    | NotOwnerOrApproved | AgentNotFound | InvalidResponse | RequestNotFound | NotDesignatedValidator
    | RequestAlreadyExists | CounterOverflow

  datatype Outcome = Done(state: State, emitted: seq<Event>) | Failed(error: Error)

  /** `agentExists` and `authorised` are the identity registry's answers; `ledger` the current sequence. */
  function Exec(s: State, call: Call, agentExists: bool, authorised: bool, ledger: nat): Outcome {
    match call
    case ValidationRequest(_, validator, agentId, uri, hash) =>
      if !agentExists then Failed(AgentNotFound)
      else if !authorised then Failed(NotOwnerOrApproved)
      else if hash in s.validations then Failed(RequestAlreadyExists)
      else if Count(s.agentIndex, agentId) >= MAX_U32 then Failed(CounterOverflow)
      else if Count(s.validatorIndex, validator) >= MAX_U32 then Failed(CounterOverflow)
      else Done(State(s.validations[hash := Status(validator, agentId, 0, ZERO_HASH, "", ledger, false)],
                      Add(s.agentIndex, agentId, hash), Add(s.validatorIndex, validator, hash)),
                [ValidationRequested(hash, agentId, validator, uri)])
    case ValidationResponse(caller, hash, response, responseHash, tag) =>
      if response > 100 then Failed(InvalidResponse)
      else if hash !in s.validations then Failed(RequestNotFound)
      else if caller != s.validations[hash].validator then Failed(NotDesignatedValidator)
      else Done(s.(validations := s.validations[hash := s.validations[hash].(
                     response := response, responseHash := responseHash, tag := tag,
                     lastUpdate := ledger, hasResponse := true)]),
                [ValidationResponded(hash, response, responseHash, tag)])
  }

  // ---------------------------------------------------------------- the two indexes

  ghost function ByAgent(s: State): set<(nat, string)> {
    set h | h in s.validations :: (s.validations[h].agentId, h)
  }

  ghost function ByValidator(s: State): set<(Address, string)> {
    set h | h in s.validations :: (s.validations[h].validator, h)
  }

  ghost predicate Inv(s: State) {
    && Enumerates(s.agentIndex, ByAgent(s))
    && Enumerates(s.validatorIndex, ByValidator(s))
    && (forall h :: h in s.validations ==> s.validations[h].response <= 100)
    && (forall a: nat :: Count(s.agentIndex, a) <= MAX_U32)
    && (forall v: Address :: Count(s.validatorIndex, v) <= MAX_U32)
  }

  lemma RequestAdds(s: State, s': State, hash: string, status: Status)
    requires hash !in s.validations && s'.validations == s.validations[hash := status]
    ensures ByAgent(s') == ByAgent(s) + {(status.agentId, hash)}
    ensures ByValidator(s') == ByValidator(s) + {(status.validator, hash)}
  {
    assert forall h | h in s.validations :: h in s'.validations && s'.validations[h] == s.validations[h];
    forall x ensures x in ByAgent(s') <==> x in ByAgent(s) + {(status.agentId, hash)} {
      assert x in ByAgent(s') <==> x.1 in s'.validations && s'.validations[x.1].agentId == x.0;
      assert x in ByAgent(s) <==> x.1 in s.validations && s.validations[x.1].agentId == x.0;
    }
    forall x ensures x in ByValidator(s') <==> x in ByValidator(s) + {(status.validator, hash)} {
      assert x in ByValidator(s') <==> x.1 in s'.validations && s'.validations[x.1].validator == x.0;
      assert x in ByValidator(s) <==> x.1 in s.validations && s.validations[x.1].validator == x.0;
    }
  }

  lemma ResponseKeepsMembers(s: State, s': State)
    requires s'.validations.Keys == s.validations.Keys
    requires forall h | h in s.validations :: s'.validations[h].agentId == s.validations[h].agentId
                                              && s'.validations[h].validator == s.validations[h].validator
    ensures ByAgent(s') == ByAgent(s) && ByValidator(s') == ByValidator(s)
  {
    assert forall h :: h in s.validations <==> h in s'.validations.Keys;
  }

  lemma RequestKeepsInv(s: State, s': State, hash: string, status: Status)
    requires Inv(s) && hash !in s.validations && status.response <= 100
    requires Count(s.agentIndex, status.agentId) < MAX_U32 && Count(s.validatorIndex, status.validator) < MAX_U32
    requires s' == State(s.validations[hash := status], Add(s.agentIndex, status.agentId, hash), Add(s.validatorIndex, status.validator, hash))
    ensures Inv(s')
  {
    hide Enumerates;
    hide ByAgent;
    hide ByValidator;
    NotListed(s, hash, status);
    AddEnumerates(s.agentIndex, ByAgent(s), status.agentId, hash);
    AddEnumerates(s.validatorIndex, ByValidator(s), status.validator, hash);
    RequestAdds(s, s', hash, status);
    assert forall a: nat | a != status.agentId :: Count(s'.agentIndex, a) == Count(s.agentIndex, a);
    assert forall v: Address | v != status.validator :: Count(s'.validatorIndex, v) == Count(s.validatorIndex, v);
  }

  lemma NotListed(s: State, hash: string, status: Status)
    requires hash !in s.validations
    ensures (status.agentId, hash) !in ByAgent(s) && (status.validator, hash) !in ByValidator(s)
  {
  }

  /** A request lands once in each index; a response touches neither. */
  lemma ExecKeepsInv(s: State, call: Call, agentExists: bool, authorised: bool, ledger: nat)
    requires Inv(s) && Exec(s, call, agentExists, authorised, ledger).Done?
    ensures Inv(Exec(s, call, agentExists, authorised, ledger).state)
  {
    hide Enumerates;
    hide ByAgent;
    hide ByValidator;
    hide Add;
    var s' := Exec(s, call, agentExists, authorised, ledger).state;
    if call.ValidationRequest? {
      RequestKeepsInv(s, s', call.hash, s'.validations[call.hash]);
    } else {
      ResponseKeepsMembers(s, s');
    }
  }

  /** Requests are never removed, and their agent and validator never change. */
  ghost predicate Extends(s: State, s': State) {
    forall h :: h in s.validations ==>
      h in s'.validations && s'.validations[h].agentId == s.validations[h].agentId
      && s'.validations[h].validator == s.validations[h].validator
      && (s.validations[h].hasResponse ==> s'.validations[h].hasResponse)
  }

  datatype Request = Request(call: Call, agentExists: bool, authorised: bool, ledger: nat)

  function Replay(s: State, requests: seq<Request>): State {
    if requests == [] then s
    else
      var n := |requests| - 1;
      var before := Replay(s, requests[..n]);
      var o := Exec(before, requests[n].call, requests[n].agentExists, requests[n].authorised, requests[n].ledger);
      if o.Done? then o.state else before
  }

  lemma {:induction false} HistoryIsKept(s: State, requests: seq<Request>)
    requires Inv(s)
    ensures Inv(Replay(s, requests)) && Extends(s, Replay(s, requests))
    ensures forall h | h in s.validations ::
              && h in Replay(s, requests).validations
              && var v, v' := s.validations[h], Replay(s, requests).validations[h];
                 v'.agentId == v.agentId && v'.validator == v.validator && (v.hasResponse ==> v'.hasResponse)
    ensures forall h | h in Replay(s, requests).validations :: Replay(s, requests).validations[h].response <= 100
  {
    hide Inv;
    hide Exec;
    if requests != [] {
      var n := |requests| - 1;
      HistoryIsKept(s, requests[..n]);
      var before := Replay(s, requests[..n]);
      var r := requests[n];
      if Exec(before, r.call, r.agentExists, r.authorised, r.ledger).Done? {
        ExecKeepsInv(before, r.call, r.agentExists, r.authorised, r.ledger);
        StepExtends(before, r);
      }
    }
    ResponsesBounded(Replay(s, requests));
  }

  lemma ResponsesBounded(s: State)
    requires Inv(s)
    ensures forall h | h in s.validations :: s.validations[h].response <= 100
  {
  }

  lemma StepExtends(s: State, r: Request)
    requires Exec(s, r.call, r.agentExists, r.authorised, r.ledger).Done?
    ensures Extends(s, Exec(s, r.call, r.agentExists, r.authorised, r.ledger).state)
  {
  }

  /** Each request is once in its agent's list, once in its validator's, and in no other list. */
  lemma RequestListedOnce(s: State, hash: string)
    requires Inv(s)
    ensures forall a: nat :: hash in List(s.agentIndex, a)
                             <==> hash in s.validations && s.validations[hash].agentId == a
    ensures forall v: Address :: hash in List(s.validatorIndex, v)
                                 <==> hash in s.validations && s.validations[hash].validator == v
    ensures forall a: nat, i, j :: 0 <= i < j < |List(s.agentIndex, a)|
              ==> List(s.agentIndex, a)[i] != List(s.agentIndex, a)[j]
    ensures forall v: Address, i, j :: 0 <= i < j < |List(s.validatorIndex, v)|
              ==> List(s.validatorIndex, v)[i] != List(s.validatorIndex, v)[j]
  {
    forall a: nat ensures hash in List(s.agentIndex, a) <==> (a, hash) in ByAgent(s)
                  ensures forall i, j :: 0 <= i < j < |List(s.agentIndex, a)|
                            ==> List(s.agentIndex, a)[i] != List(s.agentIndex, a)[j]
    {
      ListExact(s.agentIndex, ByAgent(s), a);
    }
    forall v: Address ensures hash in List(s.validatorIndex, v) <==> (v, hash) in ByValidator(s)
                      ensures forall i, j :: 0 <= i < j < |List(s.validatorIndex, v)|
                                ==> List(s.validatorIndex, v)[i] != List(s.validatorIndex, v)[j]
    {
      ListExact(s.validatorIndex, ByValidator(s), v);
    }
  }

  lemma GenesisInv()
    ensures Inv(GENESIS)
  {
  }

  lemma PagesNow(s: State, agentId: nat, validator: Address, limits: seq<nat>)
    requires Inv(s)
    ensures var list := List(s.agentIndex, agentId); Walk(list, 0, limits) == list[..Min(Sum(limits), |list|)]
    ensures var list := List(s.validatorIndex, validator); Walk(list, 0, limits) == list[..Min(Sum(limits), |list|)]
  {
    hide Enumerates;
    ListPages(s.agentIndex, ByAgent(s), agentId, limits);
    ListPages(s.validatorIndex, ByValidator(s), validator, limits);
  }

  /** After any history, pages of any sizes, read one after the other, are an agent's list or a validator's. */
  lemma RequestPages(requests: seq<Request>, agentId: nat, validator: Address, limits: seq<nat>)
    ensures Inv(Replay(GENESIS, requests))
    ensures var list := List(Replay(GENESIS, requests).agentIndex, agentId);
            Walk(list, 0, limits) == list[..Min(Sum(limits), |list|)]
    ensures var list := List(Replay(GENESIS, requests).validatorIndex, validator);
            Walk(list, 0, limits) == list[..Min(Sum(limits), |list|)]
  {
    hide Replay;
    hide ByAgent;
    hide ByValidator;
    GenesisInv();
    HistoryIsKept(GENESIS, requests);
    PagesNow(Replay(GENESIS, requests), agentId, validator, limits);
  }

  // ---------------------------------------------------------------- who writes a status, and what is read back

  /** One call that changes a status: by its validator, or a new request with title to the agent. */
  lemma StatusWrittenBy(s: State, r: Request, hash: string)
    requires Exec(s, r.call, r.agentExists, r.authorised, r.ledger).Done?
    ensures var s' := Exec(s, r.call, r.agentExists, r.authorised, r.ledger).state;
            Lookup(s'.validations, hash) != Lookup(s.validations, hash) ==>
              if hash in s.validations
              then r.call.ValidationResponse? && r.call.hash == hash && r.call.caller == s.validations[hash].validator
              else r.call.ValidationRequest? && r.call.hash == hash && r.agentExists && r.authorised
  {
  }

  /** Over any history a status is as it was unless its validator answered or someone with title filed the request. */
  lemma {:induction false} StatusesBelongToValidators(s: State, requests: seq<Request>, hash: string)
    requires forall k | 0 <= k < |requests| ::
               var before, r := Replay(s, requests[..k]), requests[k];
               if hash in before.validations
               then !(r.call.ValidationResponse? && r.call.hash == hash && r.call.caller == before.validations[hash].validator)
               else !(r.call.ValidationRequest? && r.call.hash == hash && r.agentExists && r.authorised)
    ensures Lookup(Replay(s, requests).validations, hash) == Lookup(s.validations, hash)
    decreases |requests|
  {
    hide Exec;
    if requests != [] {
      var n := |requests| - 1;
      var fewer, r := requests[..n], requests[n];
      assert forall k | 0 <= k < n :: fewer[..k] == requests[..k];
      StatusesBelongToValidators(s, fewer, hash);
      if Exec(Replay(s, fewer), r.call, r.agentExists, r.authorised, r.ledger).Done? {
        StatusWrittenBy(Replay(s, fewer), r, hash);
      }
    }
  }

  /** The designated validator of a known request, with a response of at most 100, and nobody else: read back as given. */
  lemma ResponseReadsBack(s: State, call: Call, agentExists: bool, authorised: bool, ledger: nat)
    requires call.ValidationResponse?
    ensures var o := Exec(s, call, agentExists, authorised, ledger);
            && (o.Done? <==> call.response <= 100 && call.hash in s.validations
                             && s.validations[call.hash].validator == call.caller)
            && (o == Failed(InvalidResponse) <==> call.response > 100)
            && (o == Failed(RequestNotFound) <==> call.response <= 100 && call.hash !in s.validations)
            && (o.Done? ==>
                  && o.state.validations.Keys == s.validations.Keys
                  && (forall h | h in s.validations && h != call.hash :: o.state.validations[h] == s.validations[h])
                  && var v, was := o.state.validations[call.hash], s.validations[call.hash];
                     && v.response == call.response && v.responseHash == call.responseHash && v.tag == call.tag
                     && v.hasResponse && v.lastUpdate == ledger && v.validator == was.validator && v.agentId == was.agentId)
  {
  }

  /** A request is taken from an owner or approved caller for a new hash, and reads back unanswered. */
  lemma RequestReadsBack(s: State, call: Call, agentExists: bool, authorised: bool, ledger: nat)
    requires Inv(s) && call.ValidationRequest?
    ensures var o := Exec(s, call, agentExists, authorised, ledger);
            && (o.Done? <==> agentExists && authorised && call.hash !in s.validations
                             && |List(s.agentIndex, call.agentId)| < 4_294_967_295
                             && |List(s.validatorIndex, call.validator)| < 4_294_967_295)
            && (o.Done? ==>
                  && o.state.validations.Keys == s.validations.Keys + {call.hash}
                  && (forall h | h in s.validations :: o.state.validations[h] == s.validations[h])
                  && o.state.validations[call.hash] ==
                     Status(call.validator, call.agentId, 0,
                            "0000000000000000000000000000000000000000000000000000000000000000", "", ledger, false))
  {
    hide ByAgent;
    hide ByValidator;
  }
}
