// The D1 projection: one table per map, and the single SQL statement each event becomes.
module Tables {
  import opened Basics
  import opened Events

  datatype Resolver = Resolver(document: Option<string>, attempts: nat, pending: bool, lastAttempt: Option<int>)

  datatype AgentRow = AgentRow(
    owner: Address, uri: string, wallet: Option<Address>, createdLedger: nat,
    uriLedger: Option<nat>, transferLedger: Option<nat>, resolver: Resolver)

  datatype FeedbackRow = FeedbackRow(
    value: int, decimals: nat, tag1: Option<string>, tag2: Option<string>,
    revoked: bool, createdLedger: nat, revokedLedger: Option<nat>)

  type FeedbackKey = (nat, Address, nat)

  datatype ResponseRow = ResponseRow(key: FeedbackKey, number: nat, responder: Address, uri: Option<string>)

  datatype ValidationRow = ValidationRow(
    agentId: nat, validator: Address, requestUri: Option<string>, hasResponse: bool, response: Option<nat>,
    responseHash: Option<string>, tag: Option<string>, responseLedger: Option<nat>)

  /** feedback_responses is keyed by its unique event_id. */
  datatype Db = Db(
    agents: map<nat, AgentRow>,
    metadata: map<(nat, string), string>,
    feedback: map<FeedbackKey, FeedbackRow>,
    responses: map<nat, ResponseRow>,
    validations: map<string, ValidationRow>)

  const EMPTY := Db(map[], map[], map[], map[], map[])

  datatype Failure = MissingParent | OtherConstraint

  /** A statement's outcome: the tables and the number of rows changed, or a constraint failure. */
  datatype Applied = Changed(db: Db, rows: nat) | Violates(failure: Failure)

  predicate NotNewer(guard: Option<nat>, ledger: nat) {
    guard.None? || guard.value <= ledger
  }

  function NullIfEmpty(text: string): Option<string> {
    if text == "" then None else Some(text)
  }

  function FreshResolver(uri: string): Resolver {
    Resolver(None, 0, uri != "", None)
  }

  /** The response numbers already used under one feedback. */
  function Numbers(responses: map<nat, ResponseRow>, key: FeedbackKey): set<nat> {
    set e | e in responses && responses[e].key == key :: responses[e].number
  }

  /** COALESCE(MAX(..), 0). */
  function MaxOf(numbers: set<nat>): (m: nat)
    ensures forall n :: n in numbers ==> n <= m
    ensures numbers != {} ==> m in numbers
    ensures numbers == {} ==> m == 0
  {
    if numbers == {} then 0
    else
      MaxExists(numbers);
      var n :| n in numbers && forall o :: o in numbers ==> o <= n;
      n
  }

  lemma {:induction false} MaxExists(numbers: set<nat>)
    requires numbers != {}
    ensures exists n :: n in numbers && forall o :: o in numbers ==> o <= n
  {
    var n :| n in numbers;
    if numbers != {n} {
      assert numbers - {n} != {};
      MaxExists(numbers - {n});
      var m :| m in numbers - {n} && forall o :: o in numbers - {n} ==> o <= m;
      assert forall o :: o in numbers ==> o == n || o in numbers - {n};
      var top := if n <= m then m else n;
      assert top in numbers && forall o :: o in numbers ==> o <= top;
    }
  }

  predicate SameDependents(db: Db, db': Db) {
    db'.feedback == db.feedback && db'.responses == db.responses && db'.validations == db.validations
  }

  predicate IsIdentityEvent(e: Event) {
    e.Registered? || e.UriUpdated? || e.MetadataSet? || e.AgentWalletSet? || e.AgentWalletUnset? || e.AgentTransferred?
  }

  predicate IsDependentEvent(e: Event) {
    e.NewFeedback? || e.FeedbackRevoked? || e.ResponseAppended? || e.ValidationRequested? || e.ValidationResponded?
  }

  /** One statement per event. Of the identity events only a metadata insert can break a constraint. */
  function Apply(db: Db, p: Packet): (r: Applied)
    ensures IsIdentityEvent(p.data) && (!p.data.MetadataSet? || p.data.agentId in db.agents) ==> r.Changed?
    ensures IsIdentityEvent(p.data) && r.Changed? ==> SameDependents(db, r.db)
  {
    match p.data
    case Registered(id, owner, uri) =>
      if id in db.agents then Changed(db, 0)
      else Changed(db.(agents := db.agents[id := AgentRow(owner, uri, None, p.ledger, None, None, FreshResolver(uri))]), 1)
    case UriUpdated(id, uri) =>
      if id !in db.agents then Changed(db, 0)
      else
        var row := db.agents[id];
        if !NotNewer(row.uriLedger, p.ledger) || (row.uriLedger == Some(p.ledger) && row.uri == uri) then Changed(db, 0)
        else Changed(db.(agents := db.agents[id := row.(uri := uri, uriLedger := Some(p.ledger),
                                                        resolver := FreshResolver(uri))]), 1)
    case MetadataSet(id, key, value) =>
      if id !in db.agents then Violates(MissingParent)
      else Changed(db.(metadata := db.metadata[(id, key) := value]), 1)
    case AgentWalletSet(id, wallet) => SetWallet(db, id, Some(wallet))
    case AgentWalletUnset(id) => SetWallet(db, id, None)
    case AgentTransferred(id, to) =>
      if id !in db.agents || !NotNewer(db.agents[id].transferLedger, p.ledger) then Changed(db, 0)
      else
        // The row update fires the trigger that deletes the agent's metadata.
        Changed(db.(agents := db.agents[id := db.agents[id].(owner := to, wallet := None,
                                                             transferLedger := Some(p.ledger))],
                    metadata := WithoutAgent(db.metadata, id)), 1)
    case NewFeedback(id, client, index, score, decimals, tag1, tag2) =>
      if index < 1 || decimals > 18 then Violates(OtherConstraint)
      else if (id, client, index) in db.feedback then Changed(db, 0)
      else if id !in db.agents then Violates(MissingParent)
      else Changed(db.(feedback := db.feedback[(id, client, index) := FeedbackRow(
                         score, decimals, NullIfEmpty(tag1), NullIfEmpty(tag2), false, p.ledger, None)]), 1)
    case FeedbackRevoked(id, client, index) =>
      var key := (id, client, index);
      if key !in db.feedback || !NotNewer(db.feedback[key].revokedLedger, p.ledger) then Changed(db, 0)
      else Changed(db.(feedback := db.feedback[key := db.feedback[key].(revoked := true,
                                                                        revokedLedger := Some(p.ledger))]), 1)
    case ResponseAppended(id, client, index, responder, uri) =>
      var key := (id, client, index);
      if p.id in db.responses then Changed(db, 0)
      else if key !in db.feedback then Violates(MissingParent)
      else Changed(db.(responses := db.responses[p.id := ResponseRow(
                         key, MaxOf(Numbers(db.responses, key)) + 1, responder, NullIfEmpty(uri))]), 1)
    case ValidationRequested(hash, id, validator, uri) =>
      if hash in db.validations then Changed(db, 0)
      else if id !in db.agents then Violates(MissingParent)
      else Changed(db.(validations := db.validations[hash := ValidationRow(
                         id, validator, NullIfEmpty(uri), false, None, None, None, None)]), 1)
    case ValidationResponded(hash, response, responseHash, tag) =>
      if hash !in db.validations || !NotNewer(db.validations[hash].responseLedger, p.ledger) then Changed(db, 0)
      else if response > 100 then Violates(OtherConstraint)
      else Changed(db.(validations := db.validations[hash := db.validations[hash].(
                         hasResponse := true, response := Some(response), responseHash := NullIfEmpty(responseHash),
                         tag := NullIfEmpty(tag), responseLedger := Some(p.ledger))]), 1)
    case Unrelated => Changed(db, 0)
    case Malformed => Changed(db, 0)
  }

  /** Wallet writes carry no ledger guard. */
  function SetWallet(db: Db, id: nat, wallet: Option<Address>): Applied {
    if id !in db.agents then Changed(db, 0)
    else Changed(db.(agents := db.agents[id := db.agents[id].(wallet := wallet)]), 1)
  }

  /** A batch is one transaction: all statements, or none. */
  function ApplyAll(db: Db, ps: seq<Packet>): Option<Db>
    decreases ps
  {
    if ps == [] then Some(db)
    else
      var first := Apply(db, ps[0]);
      if first.Violates? then None else ApplyAll(first.db, ps[1..])
  }

  lemma {:induction false} ApplyAllConcat(db: Db, ps: seq<Packet>, qs: seq<Packet>)
    ensures ApplyAll(db, ps + qs) == if ApplyAll(db, ps).None? then None else ApplyAll(ApplyAll(db, ps).value, qs)
    decreases ps
  {
    if ps == [] {
      assert ps + qs == qs;
    } else {
      assert (ps + qs)[0] == ps[0] && (ps + qs)[1..] == ps[1..] + qs;
      if Apply(db, ps[0]).Changed? {
        ApplyAllConcat(Apply(db, ps[0]).db, ps[1..], qs);
      }
    }
  }

  // ---------------------------------------------------------------- registrations first

  function Kept(p: Packet, registrations: bool): seq<Packet> {
    if p.data.Registered? == registrations then [p] else []
  }

  function Regs(ps: seq<Packet>): seq<Packet> {
    if ps == [] then [] else Kept(ps[0], true) + Regs(ps[1..])
  }

  function Others(ps: seq<Packet>): seq<Packet> {
    if ps == [] then [] else Kept(ps[0], false) + Others(ps[1..])
  }

  function ParentsFirst(ps: seq<Packet>): seq<Packet> {
    Regs(ps) + Others(ps)
  }

  lemma {:induction false} FiltersConcat(ps: seq<Packet>, qs: seq<Packet>)
    ensures Regs(ps + qs) == Regs(ps) + Regs(qs)
    ensures Others(ps + qs) == Others(ps) + Others(qs)
  {
    if ps == [] {
      assert ps + qs == qs;
    } else {
      assert (ps + qs)[0] == ps[0] && (ps + qs)[1..] == ps[1..] + qs;
      FiltersConcat(ps[1..], qs);
      var r, o := Kept(ps[0], true), Kept(ps[0], false);
      assert (r + Regs(ps[1..])) + Regs(qs) == r + (Regs(ps[1..]) + Regs(qs));
      assert (o + Others(ps[1..])) + Others(qs) == o + (Others(ps[1..]) + Others(qs));
    }
  }

  /** The agent an identity event is about; identity events are the only ones with a registration to wait for. */
  predicate AboutOther(p: Packet, id: nat) {
    match p.data
    case Registered(i, _, _) => i != id
    case UriUpdated(i, _) => i != id
    case MetadataSet(i, _, _) => i != id
    case AgentWalletSet(i, _) => i != id
    case AgentWalletUnset(i) => i != id
    case AgentTransferred(i, _) => i != id
    case _ => false
  }

  function Insert(db: Db, id: nat, row: AgentRow): Db {
    db.(agents := db.agents[id := row])
  }

  /** Inserting an agent first or last makes no difference to an event about another. */
  ghost predicate Commutes(db: Db, id: nat, row: AgentRow, p: Packet) {
    && Apply(Insert(db, id, row), p)
       == (match Apply(db, p) case Violates(f) => Violates(f) case Changed(d, n) => Changed(Insert(d, id, row), n))
    && (Apply(db, p).Changed? ==> id !in Apply(db, p).db.agents)
  }

  lemma TwoRows(agents: map<nat, AgentRow>, i: nat, id: nat, r: AgentRow, row: AgentRow)
    requires i != id
    ensures agents[id := row][i := r] == agents[i := r][id := row]
  {
  }

  lemma RowEventCommutes(db: Db, id: nat, row: AgentRow, p: Packet)
    requires id !in db.agents && AboutOther(p, id) && !p.data.MetadataSet? && !p.data.AgentTransferred?
    ensures Commutes(db, id, row, p)
  {
    hide FreshResolver;
    var i := p.data.agentId;
    if i in db.agents || p.data.Registered? {
      TwoRows(db.agents, i, id, Apply(db, p).db.agents[i], row);
    }
  }

  lemma MetadataEventCommutes(db: Db, id: nat, row: AgentRow, p: Packet)
    requires id !in db.agents && AboutOther(p, id) && (p.data.MetadataSet? || p.data.AgentTransferred?)
    ensures Commutes(db, id, row, p)
  {
    hide WithoutAgent;
    var i := p.data.agentId;
    if i in db.agents {
      TwoRows(db.agents, i, id, Apply(db, p).db.agents[i], row);
    }
  }

  lemma InsertCommutes(db: Db, id: nat, row: AgentRow, p: Packet)
    requires id !in db.agents && AboutOther(p, id)
    ensures Commutes(db, id, row, p)
  {
    hide Apply;
    if p.data.MetadataSet? || p.data.AgentTransferred? {
      MetadataEventCommutes(db, id, row, p);
    } else {
      RowEventCommutes(db, id, row, p);
    }
  }

  lemma SwapRegistration(db: Db, r: Packet, p: Packet)
    requires r.data.Registered? && AboutOther(p, r.data.agentId)
    ensures ApplyAll(db, [r, p]) == ApplyAll(db, [p, r])
  {
    hide Apply;
    hide AboutOther;
    var id, row := r.data.agentId, FreshRow(r);
    assert [r, p][1..] == [p] && [p, r][1..] == [r];
    RegisteredInserts(db, r);
    if id !in db.agents {
      InsertCommutes(db, id, row, p);
      if Apply(db, p).Changed? {
        RegisteredInserts(Apply(db, p).db, r);
      }
    } else if Apply(db, p).Changed? {
      AgentStays(db, p, id);
      RegisteredInserts(Apply(db, p).db, r);
    }
  }

  function FreshRow(r: Packet): AgentRow
    requires r.data.Registered?
  {
    AgentRow(r.data.owner, r.data.uri, None, r.ledger, None, None, FreshResolver(r.data.uri))
  }

  lemma RegisteredInserts(db: Db, r: Packet)
    requires r.data.Registered?
    ensures Apply(db, r).Changed?
    ensures Apply(db, r).db == if r.data.agentId in db.agents then db else Insert(db, r.data.agentId, FreshRow(r))
  {
  }

  lemma AgentStays(db: Db, p: Packet, id: nat)
    requires id in db.agents && Apply(db, p).Changed?
    ensures id in Apply(db, p).db.agents
  {
  }

  lemma {:induction false} DelayRegistration(db: Db, r: Packet, ps: seq<Packet>)
    requires r.data.Registered? && forall p | p in ps :: AboutOther(p, r.data.agentId)
    ensures ApplyAll(db, [r] + ps) == ApplyAll(db, ps + [r])
    decreases ps
  {
    if ps != [] {
      var p, rest := ps[0], ps[1..];
      SwapRegistration(db, r, p);
      assert [r] + ps == [r, p] + rest;
      assert [p, r] + rest == [p] + ([r] + rest);
      ApplyAllConcat(db, [r, p], rest);
      ApplyAllConcat(db, [p, r], rest);
      ApplyAllConcat(db, [p], [r] + rest);
      assert ps + [r] == [p] + (rest + [r]);
      ApplyAllConcat(db, [p], rest + [r]);
      if Apply(db, p).Changed? {
        DelayRegistration(Apply(db, p).db, r, rest);
        assert ApplyAll(db, [p]) == Some(Apply(db, p).db) by { assert [p][1..] == []; }
      }
    } else {
      assert [r] + ps == ps + [r];
    }
  }
}
