// The tables one column at a time: how each event's statement moves a single cell.
module Columns {
  import opened Basics
  import opened Events
  import opened Tables

  /** Every column of the tables but the resolver's and the response numbers; some share a guard ledger. */
  datatype Column =
    | Owner(id: nat)
    | Uri(id: nat)
    | Wallet(id: nat)
    | Metadata(id: nat, key: string)
    | Revocation(feedback: FeedbackKey)
    | Response(hash: string)
      // Columns written once, when their row is inserted.
    | Birth(id: nat)
    | Feedback(feedback: FeedbackKey)
    | Request(hash: string)
    | Reply(event: nat)

  datatype Value =
    | Text(text: string)
    | Maybe(option: Option<string>)
    | Flag(flag: bool)
    | Verdict(hasResponse: bool, response: Option<nat>, responseHash: Option<string>, tag: Option<string>)
    | Born(ledger: nat)
    | Given(score: int, decimals: nat, tag1: Option<string>, tag2: Option<string>, created: nat)
    | Asked(agentId: nat, validator: Address, uri: Option<string>)
    | Answered(key: FeedbackKey, responder: Address, uri: Option<string>)

  /** A cell's guard ledger and its value. */
  datatype Cell = Cell(at: Option<nat>, value: Value)

  function VerdictOf(row: ValidationRow): Value {
    Verdict(row.hasResponse, row.response, row.responseHash, row.tag)
  }

  /** None while the row does not exist. */
  function Read(db: Db, col: Column): Option<Cell> {
    match col
    case Owner(id) => if id in db.agents then Some(Cell(db.agents[id].transferLedger, Text(db.agents[id].owner))) else None
    case Uri(id) => if id in db.agents then Some(Cell(db.agents[id].uriLedger, Text(db.agents[id].uri))) else None
    case Wallet(id) => if id in db.agents then Some(Cell(db.agents[id].transferLedger, Maybe(db.agents[id].wallet))) else None
    case Metadata(id, key) =>
      if id in db.agents then Some(Cell(db.agents[id].transferLedger, Maybe(Lookup(db.metadata, (id, key))))) else None
    case Revocation(k) => if k in db.feedback then Some(Cell(db.feedback[k].revokedLedger, Flag(db.feedback[k].revoked))) else None
    case Response(h) =>
      if h in db.validations then Some(Cell(db.validations[h].responseLedger, VerdictOf(db.validations[h]))) else None
    case Birth(id) => if id in db.agents then Some(Cell(None, Born(db.agents[id].createdLedger))) else None
    case Feedback(k) =>
      if k in db.feedback then
        var f := db.feedback[k];
        Some(Cell(None, Given(f.value, f.decimals, f.tag1, f.tag2, f.createdLedger)))
      else None
    case Request(h) =>
      if h in db.validations then
        var v := db.validations[h];
        Some(Cell(None, Asked(v.agentId, v.validator, v.requestUri)))
      else None
    case Reply(e) =>
      if e in db.responses then
        var r := db.responses[e];
        Some(Cell(None, Answered(r.key, r.responder, r.uri)))
      else None
  }

  /** What an event does to a column: create its row, write it under its guard, write it freely, or nothing. */
  datatype Effect = Create(value: Value) | Guarded(value: Value) | Free(value: Value) | Nothing

  function EffectOn(col: Column, p: Packet): Effect {
    match (col, p.data)
    case (Owner(id), Registered(i, owner, _)) => if i == id then Create(Text(owner)) else Nothing
    case (Owner(id), AgentTransferred(i, to)) => if i == id then Guarded(Text(to)) else Nothing
    case (Uri(id), Registered(i, _, uri)) => if i == id then Create(Text(uri)) else Nothing
    case (Uri(id), UriUpdated(i, uri)) => if i == id then Guarded(Text(uri)) else Nothing
    case (Wallet(id), Registered(i, _, _)) => if i == id then Create(Maybe(None)) else Nothing
    case (Wallet(id), AgentWalletSet(i, w)) => if i == id then Free(Maybe(Some(w))) else Nothing
    case (Wallet(id), AgentWalletUnset(i)) => if i == id then Free(Maybe(None)) else Nothing
    case (Wallet(id), AgentTransferred(i, _)) => if i == id then Guarded(Maybe(None)) else Nothing
    case (Metadata(id, _), Registered(i, _, _)) => if i == id then Create(Maybe(None)) else Nothing
    case (Metadata(id, key), MetadataSet(i, k, v)) => if i == id && k == key then Free(Maybe(Some(v))) else Nothing
    case (Metadata(id, _), AgentTransferred(i, _)) => if i == id then Guarded(Maybe(None)) else Nothing
    case (Revocation(k), NewFeedback(id, client, index, _, _, _, _)) =>
      if (id, client, index) == k then Create(Flag(false)) else Nothing
    case (Revocation(k), FeedbackRevoked(id, client, index)) =>
      if (id, client, index) == k then Guarded(Flag(true)) else Nothing
    case (Response(h), ValidationRequested(hash, _, _, _)) =>
      if hash == h then Create(Verdict(false, None, None, None)) else Nothing
    case (Response(h), ValidationResponded(hash, response, responseHash, tag)) =>
      if hash == h then Guarded(Verdict(true, Some(response), NullIfEmpty(responseHash), NullIfEmpty(tag))) else Nothing
    case (Birth(id), Registered(i, _, _)) => if i == id then Create(Born(p.ledger)) else Nothing
    case (Feedback(k), NewFeedback(id, client, index, score, decimals, tag1, tag2)) =>
      if (id, client, index) == k
      then Create(Given(score, decimals, NullIfEmpty(tag1), NullIfEmpty(tag2), p.ledger)) else Nothing
    case (Request(h), ValidationRequested(hash, id, validator, uri)) =>
      if hash == h then Create(Asked(id, validator, NullIfEmpty(uri))) else Nothing
    case (Reply(event), ResponseAppended(id, client, index, responder, uri)) =>
      if p.id == event then Create(Answered((id, client, index), responder, NullIfEmpty(uri))) else Nothing
    case _ => Nothing
  }

  /** The guarded write every ledger column protects. */
  function Put(c: Cell, ledger: nat, v: Value): Cell {
    if NotNewer(c.at, ledger) then Cell(Some(ledger), v) else c
  }

  function Move(c: Option<Cell>, ledger: nat, e: Effect): Option<Cell> {
    match e
    case Create(v) => if c.None? then Some(Cell(None, v)) else c
    case Guarded(v) => if c.None? then None else Some(Put(c.value, ledger, v))
    case Free(v) => if c.None? then None else Some(c.value.(value := v))
    case Nothing => c
  }

  /** Metadata of unregistered agents: a foreign key keeps it out. */
  predicate NoStrays(db: Db) {
    forall k | k in db.metadata :: k.0 in db.agents
  }

  lemma ApplyKeepsNoStrays(db: Db, p: Packet)
    requires NoStrays(db) && Apply(db, p).Changed?
    ensures NoStrays(Apply(db, p).db)
  {
    hide Apply;
    if IsIdentityEvent(p.data) {
      IdentityKeepsNoStrays(db, p);
    } else {
      DependentFrame(db, p);
    }
  }

  lemma IdentityKeepsNoStrays(db: Db, p: Packet)
    requires NoStrays(db) && IsIdentityEvent(p.data) && Apply(db, p).Changed?
    ensures NoStrays(Apply(db, p).db)
  {
    hide FreshResolver;
  }

  lemma DependentFrame(db: Db, p: Packet)
    requires !IsIdentityEvent(p.data) && Apply(db, p).Changed?
    ensures Apply(db, p).db.agents == db.agents && Apply(db, p).db.metadata == db.metadata
  {
    hide Numbers;
    hide MaxOf;
    hide NullIfEmpty;
  }

  /** Only registration, transfer, metadata and wallet events reach an agent's columns. */
  predicate Settled(db: Db, p: Packet, col: Column)
    requires Apply(db, p).Changed?
  {
    Read(Apply(db, p).db, col) == Move(Read(db, col), p.ledger, EffectOn(col, p))
  }

  lemma OwnerMoves(db: Db, p: Packet, id: nat)
    requires IsIdentityEvent(p.data) && Apply(db, p).Changed?
    ensures Settled(db, p, Owner(id))
  {
    hide FreshResolver;
    hide WithoutAgent;
  }

  lemma UriMoves(db: Db, p: Packet, id: nat)
    requires IsIdentityEvent(p.data) && Apply(db, p).Changed?
    ensures Settled(db, p, Uri(id))
  {
    hide FreshResolver;
    hide WithoutAgent;
  }

  lemma WalletMoves(db: Db, p: Packet, id: nat)
    requires IsIdentityEvent(p.data) && Apply(db, p).Changed?
    ensures Settled(db, p, Wallet(id))
  {
    hide FreshResolver;
    hide WithoutAgent;
  }

  lemma MetadataMoves(db: Db, p: Packet, id: nat, key: string)
    requires NoStrays(db) && IsIdentityEvent(p.data) && Apply(db, p).Changed?
    ensures Settled(db, p, Metadata(id, key))
  {
    hide FreshResolver;
    match p.data
    case Registered(_, _, _) =>
    case UriUpdated(_, _) =>
    case MetadataSet(_, _, _) =>
    case AgentWalletSet(_, _) =>
    case AgentWalletUnset(_) =>
    case AgentTransferred(_, _) =>
  }

  lemma RevocationMoves(db: Db, p: Packet, k: FeedbackKey)
    requires !IsIdentityEvent(p.data) && Apply(db, p).Changed?
    ensures Settled(db, p, Revocation(k))
  {
    hide Numbers;
    hide MaxOf;
    hide NullIfEmpty;
  }

  lemma ResponseMoves(db: Db, p: Packet, h: string)
    requires !IsIdentityEvent(p.data) && Apply(db, p).Changed?
    ensures Settled(db, p, Response(h))
  {
    hide Numbers;
    hide MaxOf;
    hide NullIfEmpty;
  }

  lemma BirthMoves(db: Db, p: Packet, id: nat)
    requires IsIdentityEvent(p.data) && Apply(db, p).Changed?
    ensures Settled(db, p, Birth(id))
  {
    hide FreshResolver;
    hide WithoutAgent;
  }

  lemma FeedbackMoves(db: Db, p: Packet, k: FeedbackKey)
    requires !IsIdentityEvent(p.data) && Apply(db, p).Changed?
    ensures Settled(db, p, Feedback(k))
  {
    hide Numbers;
    hide MaxOf;
    hide NullIfEmpty;
  }

  lemma RequestMoves(db: Db, p: Packet, h: string)
    requires !IsIdentityEvent(p.data) && Apply(db, p).Changed?
    ensures Settled(db, p, Request(h))
  {
    hide Numbers;
    hide MaxOf;
    hide NullIfEmpty;
  }

  lemma ReplyMoves(db: Db, p: Packet, e: nat)
    requires !IsIdentityEvent(p.data) && Apply(db, p).Changed?
    ensures Settled(db, p, Reply(e))
  {
    hide Numbers;
    hide MaxOf;
    hide NullIfEmpty;
  }

  predicate OfDependents(col: Column) {
    col.Revocation? || col.Response? || col.Feedback? || col.Request? || col.Reply?
  }

  lemma OtherStream(db: Db, p: Packet, col: Column)
    requires Apply(db, p).Changed? && (IsIdentityEvent(p.data) <==> OfDependents(col))
    ensures Settled(db, p, col)
  {
    hide Apply;
    if !IsIdentityEvent(p.data) {
      DependentFrame(db, p);
    }
  }

  /** A statement moves each cell by its event's effect and no other way. */
  lemma CellMoves(db: Db, p: Packet, col: Column)
    requires NoStrays(db) && Apply(db, p).Changed?
    ensures Read(Apply(db, p).db, col) == Move(Read(db, col), p.ledger, EffectOn(col, p))
  {
    hide Apply;
    hide Read;
    hide EffectOn;
    hide NoStrays;
    hide IsIdentityEvent;
    if IsIdentityEvent(p.data) == OfDependents(col) {
      OtherStream(db, p, col);
    } else {
      match col
      case Owner(id) => OwnerMoves(db, p, id);
      case Uri(id) => UriMoves(db, p, id);
      case Wallet(id) => WalletMoves(db, p, id);
      case Metadata(id, key) => MetadataMoves(db, p, id, key);
      case Revocation(k) => RevocationMoves(db, p, k);
      case Response(h) => ResponseMoves(db, p, h);
      case Birth(id) => BirthMoves(db, p, id);
      case Feedback(k) => FeedbackMoves(db, p, k);
      case Request(h) => RequestMoves(db, p, h);
      case Reply(e) => ReplyMoves(db, p, e);
    }
  }

  // ---------------------------------------------------------------- many statements

  /** A cell over a stream of statements that all succeed. */
  function Moves(c: Option<Cell>, ps: seq<Packet>, col: Column): Option<Cell> {
    if ps == [] then c
    else
      var k := |ps| - 1;
      Move(Moves(c, ps[..k], col), ps[k].ledger, EffectOn(col, ps[k]))
  }

  lemma {:induction false} ApplyAllLast(db: Db, ps: seq<Packet>)
    requires ps != [] && ApplyAll(db, ps).Some?
    ensures var k := |ps| - 1;
            && ApplyAll(db, ps[..k]).Some?
            && Apply(ApplyAll(db, ps[..k]).value, ps[k]).Changed?
            && ApplyAll(db, ps) == Some(Apply(ApplyAll(db, ps[..k]).value, ps[k]).db)
  {
    hide Apply;
    var k := |ps| - 1;
    assert ps == ps[..k] + [ps[k]] && [ps[k]][1..] == [];
    ApplyAllConcat(db, ps[..k], [ps[k]]);
  }

  lemma {:induction false} ColumnMoves(db: Db, ps: seq<Packet>, col: Column)
    requires NoStrays(db) && ApplyAll(db, ps).Some?
    ensures NoStrays(ApplyAll(db, ps).value) && Read(ApplyAll(db, ps).value, col) == Moves(Read(db, col), ps, col)
    decreases |ps|
  {
    hide Apply;
    hide Read;
    hide EffectOn;
    hide NoStrays;
    if ps != [] {
      var k := |ps| - 1;
      ApplyAllLast(db, ps);
      ColumnMoves(db, ps[..k], col);
      ApplyKeepsNoStrays(ApplyAll(db, ps[..k]).value, ps[k]);
      CellMoves(ApplyAll(db, ps[..k]).value, ps[k], col);
    }
  }
}
