// The projection theorem: the indexed tables equal the state of the registries that emitted the events.
module Projection {
  import opened Basics
  import opened Events
  import opened Chain
  import opened Tables
  import Identity
  import Reputation
  import Validation

  // ---------------------------------------------------------------- what agreement means

  predicate AgentMatches(row: AgentRow, s: Identity.State, id: nat, bound: nat)
    requires id in s.owners
  {
    && row.owner == s.owners[id]
    && row.uri == Identity.TokenUri(s, id)
    && row.wallet == Lookup(s.wallets, id)
    && NotNewer(row.uriLedger, bound)
    && NotNewer(row.transferLedger, bound)
  }

  /** agents and agent_metadata hold the identity registry's state; no guard is ahead of `bound`. */
  ghost predicate IdMatch(db: Db, s: Identity.State, bound: nat) {
    && db.agents.Keys == s.owners.Keys
    && (forall id | id in s.owners :: AgentMatches(db.agents[id], s, id, bound))
    && db.metadata == s.metadata
  }

  predicate FeedbackMatches(row: FeedbackRow, f: Reputation.Feedback) {
    && row.value == f.value && row.decimals == f.decimals
    && row.tag1 == NullIfEmpty(f.tag1) && row.tag2 == NullIfEmpty(f.tag2)
    && row.revoked == f.revoked
    && (row.revokedLedger.Some? <==> f.revoked)
  }

  /** feedback holds the registry's feedback; under each, the responses are numbered 1..count, each once. */
  ghost predicate RepMatch(db: Db, s: Reputation.State, nextId: nat) {
    && db.feedback.Keys == s.feedback.Keys
    && (forall k | k in s.feedback :: FeedbackMatches(db.feedback[k], s.feedback[k]))
    && (forall e | e in db.responses :: e < nextId && db.responses[e].key in s.feedback)
    && (forall k: FeedbackKey, n: nat :: n in Numbers(db.responses, k) <==> 1 <= n <= Reputation.ResponseCount(s, k))
    && (forall e, f | e in db.responses && f in db.responses && e != f && db.responses[e].key == db.responses[f].key ::
          db.responses[e].number != db.responses[f].number)
  }

  predicate StatusMatches(row: ValidationRow, v: Validation.Status, bound: nat) {
    && row.agentId == v.agentId && row.validator == v.validator
    && row.hasResponse == v.hasResponse
    && (v.hasResponse ==>
          && row.response == Some(v.response)
          && row.responseHash == NullIfEmpty(v.responseHash)
          && row.tag == NullIfEmpty(v.tag)
          && row.responseLedger == Some(v.lastUpdate)
          && v.lastUpdate <= bound)
    && (!v.hasResponse ==> row.responseLedger == None)
  }

  ghost predicate ValMatch(db: Db, s: Validation.State, bound: nat) {
    && db.validations.Keys == s.validations.Keys
    && (forall h | h in s.validations :: StatusMatches(db.validations[h], s.validations[h], bound))
  }

  function LastLedger(chain: History, n: nat): nat
    requires n <= |chain|
  {
    if n == 0 then 0 else chain[n - 1].ledger
  }

  /** How many calls of the history each contract's tables reflect. */
  datatype Progress = Progress(id: nat, rep: nat, val: nat)

  function Of(at: Progress, c: Contract): nat {
    match c case IdentityContract => at.id case ReputationContract => at.rep case ValidationContract => at.val
  }

  function Advance(at: Progress, c: Contract, n: nat): Progress {
    match c
    case IdentityContract => at.(id := n)
    case ReputationContract => at.(rep := n)
    case ValidationContract => at.(val := n)
  }

  predicate InOrder(chain: History, at: Progress) {
    at.rep <= at.id <= |chain| && at.val <= at.id
  }

  ghost predicate Projected(db: Db, chain: History, at: Progress)
    requires InOrder(chain, at)
  {
    && IdMatch(db, WorldAt(chain, at.id).id, LastLedger(chain, at.id))
    && RepMatch(db, WorldAt(chain, at.rep).rep, FirstId(chain, at.rep))
    && ValMatch(db, WorldAt(chain, at.val).val, LastLedger(chain, at.val))
  }

  // ---------------------------------------------------------------- lists of packets

  /** The packets of the wire events `ws`. */
  function Published(ws: seq<Wire>, first: nat, ledger: nat): seq<Packet> {
    Number(ParseAll(ws), first, ledger)
  }

  lemma PublishLast(ws: seq<Wire>, w: Wire, first: nat, ledger: nat)
    ensures Published(ws + [w], first, ledger) == Published(ws, first, ledger) + [Packet(first + |ws|, ledger, Parse(w))]
  {
    hide Parse;
    assert (ws + [w])[..|ws|] == ws;
    var es := ParseAll(ws + [w]);
    assert es == ParseAll(ws) + [Parse(w)];
    assert es[..|ws|] == ParseAll(ws);
  }

  lemma PublishNone(first: nat, ledger: nat)
    ensures Published([], first, ledger) == []
  {
  }

  lemma {:induction false} PublishConcat(vs: seq<Wire>, ws: seq<Wire>, first: nat, ledger: nat)
    ensures Published(vs + ws, first, ledger) == Published(vs, first, ledger) + Published(ws, first + |vs|, ledger)
  {
    hide Published;
    hide Parse;
    if ws == [] {
      assert vs + ws == vs;
      PublishNone(first + |vs|, ledger);
    } else {
      var k := |ws| - 1;
      PublishConcat(vs, ws[..k], first, ledger);
      PublishLast(vs + ws[..k], ws[k], first, ledger);
      PublishLast(ws[..k], ws[k], first + |vs|, ledger);
      assert vs + ws == vs + ws[..k] + [ws[k]] && ws == ws[..k] + [ws[k]];
      var a, b, last := Published(vs, first, ledger), Published(ws[..k], first + |vs|, ledger),
                        [Packet(first + |vs| + k, ledger, Parse(ws[k]))];
      assert (a + b) + last == a + (b + last);
    }
  }

  lemma PublishOne(w: Wire, first: nat, ledger: nat)
    ensures Published([w], first, ledger) == [Packet(first, ledger, Parse(w))]
  {
    PublishLast([], w, first, ledger);
    assert [] + [w] == [w];
  }

  lemma {:induction false} NoRegistrations(ps: seq<Packet>)
    requires forall p | p in ps :: !p.data.Registered?
    ensures Regs(ps) == [] && Others(ps) == ps && ParentsFirst(ps) == ps
  {
    if ps != [] {
      NoRegistrations(ps[1..]);
      assert ps == [ps[0]] + ps[1..];
    }
  }

  lemma {:induction false} OthersAreMembers(ps: seq<Packet>)
    ensures forall p :: p in Others(ps) ==> p in ps
  {
    if ps != [] {
      OthersAreMembers(ps[1..]);
    }
  }

  lemma ApplyOne(db: Db, p: Packet)
    ensures ApplyAll(db, [p]) == if Apply(db, p).Violates? then None else Some(Apply(db, p).db)
  {
    assert [p][1..] == [];
  }

  // ---------------------------------------------------------------- one identity call

  lemma MatchedAgents(db: Db, s: Identity.State, bound: nat)
    requires IdMatch(db, s, bound)
    ensures db.agents.Keys == s.owners.Keys && db.metadata == s.metadata
  {
  }

  lemma {:induction false} MetadataApplied(
    db: Db, s: Identity.State, id: nat, entries: seq<(string, string)>, first: nat, ledger: nat)
    requires id in db.agents && db.metadata == s.metadata
    requires forall e | e in entries :: Identity.EntryAllowed(e)
    ensures var ps := Published(Identity.Announce(id, entries), first, ledger);
            ApplyAll(db, ps) == Some(db.(metadata := Identity.PutAll(s, id, entries).metadata))
            && forall p | p in ps :: p.data.MetadataSet? && p.data.agentId == id
  {
    if entries != [] {
      var k := |entries| - 1;
      var early := Identity.Announce(id, entries[..k]);
      assert entries[k] in entries;
      MetadataApplied(db, s, id, entries[..k], first, ledger);
      PublishLast(early, WireMetadataSet(id, entries[k].0, entries[k].1), first, ledger);
      var ps := Published(early, first, ledger);
      var p := Packet(first + |early|, ledger, MetadataSet(id, entries[k].0, entries[k].1));
      ApplyAllConcat(db, ps, [p]);
      ApplyOne(ApplyAll(db, ps).value, p);
    }
  }

  lemma PutAllSlots(s: Identity.State, id: nat, entries: seq<(string, string)>)
    ensures var s' := Identity.PutAll(s, id, entries);
            s'.owners == s.owners && s'.uris == s.uris && s'.wallets == s.wallets && s'.next == s.next
  {
  }

  /** An identity event about an agent below `n`. */
  predicate Concerns(p: Packet, n: nat) {
    match p.data
    case Registered(i, _, _) => i < n
    case UriUpdated(i, _) => i < n
    case MetadataSet(i, _, _) => i < n
    case AgentWalletSet(i, _) => i < n
    case AgentWalletUnset(i) => i < n
    case AgentTransferred(i, _) => i < n
    case _ => false
  }

  /** What one successful identity call leaves: its events, registration first, bring the tables along. */
  ghost predicate CallApplied(db: Db, db': Db, s: Identity.State, s': Identity.State, ps: seq<Packet>, ledger: nat) {
    && ApplyAll(db, ParentsFirst(ps)) == Some(db')
    && IdMatch(db', s', ledger)
    && SameDependents(db, db')
    && s.next <= s'.next
    && (forall p | p in ps :: Concerns(p, s'.next))
    && (Regs(ps) == [] || (|Regs(ps)| == 1 && Regs(ps)[0].data.Registered? && Regs(ps)[0].data.agentId == s.next))
  }

  /** Replacing one agent's row (and any metadata) keeps the match when only that agent changed. */
  lemma RowReplaced(db: Db, s: Identity.State, bound: nat, db': Db, s': Identity.State, id: nat, ledger: nat)
    requires IdMatch(db, s, bound) && bound <= ledger
    requires id in s'.owners && s'.owners.Keys == s.owners.Keys + {id}
    requires id in db'.agents && db'.agents == db.agents[id := db'.agents[id]]
    requires AgentMatches(db'.agents[id], s', id, ledger)
    requires forall i | i in s.owners && i != id ::
               s'.owners[i] == s.owners[i] && Lookup(s'.uris, i) == Lookup(s.uris, i)
               && Lookup(s'.wallets, i) == Lookup(s.wallets, i)
    requires db'.metadata == s'.metadata
    ensures IdMatch(db', s', ledger)
  {
    forall i | i in s'.owners ensures AgentMatches(db'.agents[i], s', i, ledger) {
      if i != id {
        assert i in s.owners && AgentMatches(db.agents[i], s, i, bound);
        assert Identity.TokenUri(s', i) == Identity.TokenUri(s, i);
      }
    }
  }

  /** The registry right after the NFT is minted, before its wallet is set. */
  function Enrolled(s: Identity.State, caller: Address, uri: Option<string>): Identity.State {
    s.(owners := s.owners[s.next := caller], next := s.next + 1,
       uris := if uri.Some? then s.uris[s.next := uri.value] else s.uris)
  }

  function Minted(s: Identity.State, caller: Address, uri: Option<string>): Identity.State {
    Enrolled(s, caller, uri).(wallets := s.wallets[s.next := caller])
  }

  lemma RegisteredMatches(db: Db, s: Identity.State, bound: nat, caller: Address, uri: Option<string>, r: Packet)
    requires IdMatch(db, s, bound) && Identity.Inv(s) && bound <= r.ledger
    requires r.data == Registered(s.next, caller, GetOr(uri, ""))
    ensures IdMatch(Apply(db, r).db, Enrolled(s, caller, uri), r.ledger)
  {
    assert s.next !in s.owners && s.next !in s.uris && s.next !in s.wallets;
    RowReplaced(db, s, bound, Apply(db, r).db, Enrolled(s, caller, uri), s.next, r.ledger);
  }

  /** The events of a registration, in the contract's order: wallet, metadata, Registered. */
  lemma MintPackets(s: Identity.State, caller: Address, uri: Option<string>, entries: seq<(string, string)>,
                    first: nat, ledger: nat) returns (w: Packet, ms: seq<Packet>, r: Packet)
    ensures w == Packet(first, ledger, AgentWalletSet(s.next, caller))
    ensures ms == Published(Identity.Announce(s.next, entries), first + 1, ledger)
    ensures r == Packet(first + 1 + |ms|, ledger, Registered(s.next, caller, GetOr(uri, "")))
    ensures Published(Identity.Mint(s, caller, uri, entries).emitted, first, ledger) == [w] + ms + [r]
  {
    hide Published;
    hide Identity.PutAll;
    hide Identity.Announce;
    w := Packet(first, ledger, AgentWalletSet(s.next, caller));
    ms := Published(Identity.Announce(s.next, entries), first + 1, ledger);
    r := Packet(first + 1 + |ms|, ledger, Registered(s.next, caller, GetOr(uri, "")));
    var v := WireMetadataSet(s.next, AGENT_WALLET, caller);
    var vs := Identity.Announce(s.next, entries);
    PublishedLength(vs, first + 1, ledger);
    PublishOne(v, first, ledger);
    PublishConcat([v], vs, first, ledger);
    PublishLast([v] + vs, WireRegistered(s.next, caller, GetOr(uri, "")), first, ledger);
  }

  lemma PublishedLength(ws: seq<Wire>, first: nat, ledger: nat)
    ensures |Published(ws, first, ledger)| == |ws|
  {
  }

  /** Registered moves to the front of its own transaction's events. */
  lemma RegisteredFirst(w: Packet, ms: seq<Packet>, r: Packet)
    requires r.data.Registered? && !w.data.Registered? && forall p | p in ms :: !p.data.Registered?
    ensures Regs([w] + ms + [r]) == [r] && ParentsFirst([w] + ms + [r]) == [r] + ([w] + ms)
  {
    NoRegistrations([w] + ms);
    FiltersConcat([w] + ms, [r]);
    assert [r][1..] == [];
  }

  lemma MintListed(db: Db, db': Db, s: Identity.State, s': Identity.State, w: Packet, ms: seq<Packet>, r: Packet,
                   ledger: nat)
    requires r.data.Registered? && r.data.agentId == s.next && s'.next == s.next + 1
    requires w.data.AgentWalletSet? && w.data.agentId == s.next
    requires forall p | p in ms :: p.data.MetadataSet? && p.data.agentId == s.next
    requires ApplyAll(Apply(Apply(db, r).db, w).db, ms) == Some(db')
    requires IdMatch(db', s', ledger) && SameDependents(db, db')
    ensures CallApplied(db, db', s, s', [w] + ms + [r], ledger)
  {
    RegisteredFirst(w, ms, r);
    ApplyAllConcat(db, [r], [w] + ms);
    ApplyOne(db, r);
    ApplyAllConcat(Apply(db, r).db, [w], ms);
    ApplyOne(Apply(db, r).db, w);
    assert forall p | p in [w] + ms + [r] :: p == w || p in ms || p == r;
  }

  lemma SingleApplied(db: Db, s: Identity.State, s': Identity.State, wire: Wire, p: Packet)
    requires p.data == Parse(wire) && !p.data.Registered? && Concerns(p, s.next) && s.next == s'.next
    requires Apply(db, p).Changed? && IdMatch(Apply(db, p).db, s', p.ledger) && SameDependents(db, Apply(db, p).db)
    ensures CallApplied(db, Apply(db, p).db, s, s', Published([wire], p.id, p.ledger), p.ledger)
  {
    PublishOne(wire, p.id, p.ledger);
    NoRegistrations([p]);
    ApplyOne(db, p);
  }

  lemma UriMatches(db: Db, s: Identity.State, bound: nat, p: Packet)
    requires IdMatch(db, s, bound) && bound <= p.ledger && p.data.UriUpdated? && p.data.agentId in s.owners
    ensures IdMatch(Apply(db, p).db, s.(uris := s.uris[p.data.agentId := p.data.uri]), p.ledger)
  {
    var id := p.data.agentId;
    assert AgentMatches(db.agents[id], s, id, bound);
    RowReplaced(db, s, bound, Apply(db, p).db, s.(uris := s.uris[id := p.data.uri]), id, p.ledger);
  }

  lemma MetadataMatches(db: Db, s: Identity.State, bound: nat, p: Packet)
    requires IdMatch(db, s, bound) && bound <= p.ledger && p.data.MetadataSet? && p.data.agentId in s.owners
    ensures IdMatch(Apply(db, p).db, Identity.PutMetadata(s, p.data.agentId, p.data.key, p.data.value), p.ledger)
  {
    var id := p.data.agentId;
    assert AgentMatches(db.agents[id], s, id, bound);
    RowReplaced(db, s, bound, Apply(db, p).db, Identity.PutMetadata(s, id, p.data.key, p.data.value), id, p.ledger);
  }

  lemma WalletMatches(db: Db, s: Identity.State, bound: nat, p: Packet, s': Identity.State)
    requires IdMatch(db, s, bound) && bound <= p.ledger
    requires p.data.AgentWalletSet? || p.data.AgentWalletUnset?
    requires p.data.agentId in s.owners
    requires s' == s.(wallets := if p.data.AgentWalletSet? then s.wallets[p.data.agentId := p.data.wallet]
                                 else s.wallets - {p.data.agentId})
    ensures IdMatch(Apply(db, p).db, s', p.ledger)
  {
    var id := p.data.agentId;
    assert AgentMatches(db.agents[id], s, id, bound);
    RowReplaced(db, s, bound, Apply(db, p).db, s', id, p.ledger);
  }

  /** A registration's tables: agent row, then wallet, then metadata. */
  lemma MintMatches(db: Db, s: Identity.State, bound: nat, caller: Address, uri: Option<string>,
                    entries: seq<(string, string)>, w: Packet, ms: seq<Packet>, r: Packet) returns (db': Db)
    requires IdMatch(db, s, bound) && Identity.Inv(s) && bound <= r.ledger == w.ledger
    requires forall e | e in entries :: Identity.EntryAllowed(e)
    requires r.data == Registered(s.next, caller, GetOr(uri, "")) && w.data == AgentWalletSet(s.next, caller)
    requires exists first: nat :: ms == Published(Identity.Announce(s.next, entries), first, r.ledger)
    ensures ApplyAll(Apply(Apply(db, r).db, w).db, ms) == Some(db')
    ensures IdMatch(db', Identity.PutAll(Minted(s, caller, uri), s.next, entries), r.ledger)
    ensures SameDependents(db, db')
    ensures forall p | p in ms :: p.data.MetadataSet? && p.data.agentId == s.next
  {
    hide IdMatch;
    hide Apply;
    RegisteredMatches(db, s, bound, caller, uri, r);
    var db1, s1 := Apply(db, r).db, Minted(s, caller, uri);
    WalletMatches(db1, Enrolled(s, caller, uri), r.ledger, w, s1);
    var db2 := Apply(db1, w).db;
    var first: nat :| ms == Published(Identity.Announce(s.next, entries), first, r.ledger);
    MatchedAgents(db2, s1, r.ledger);
    MetadataApplied(db2, s1, s.next, entries, first, r.ledger);
    MetadataOnly(db2, s1, r.ledger, s.next, entries);
    db' := db2.(metadata := Identity.PutAll(s1, s.next, entries).metadata);
  }

  lemma MetadataOnly(db: Db, s: Identity.State, bound: nat, id: nat, entries: seq<(string, string)>)
    requires IdMatch(db, s, bound)
    ensures var s' := Identity.PutAll(s, id, entries); IdMatch(db.(metadata := s'.metadata), s', bound)
  {
    var s' := Identity.PutAll(s, id, entries);
    PutAllSlots(s, id, entries);
    forall i | i in s'.owners ensures AgentMatches(db.agents[i], s', i, bound) {
      assert AgentMatches(db.agents[i], s, i, bound);
    }
  }

  lemma MintApplied(db: Db, s: Identity.State, bound: nat, caller: Address, uri: Option<string>,
                    entries: seq<(string, string)>, first: nat, ledger: nat) returns (db': Db)
    requires IdMatch(db, s, bound) && Identity.Inv(s) && bound <= ledger
    requires forall e | e in entries :: Identity.EntryAllowed(e)
    ensures var o := Identity.Mint(s, caller, uri, entries);
            CallApplied(db, db', s, o.state, Published(o.emitted, first, ledger), ledger)
  {
    var w, ms, r := MintPackets(s, caller, uri, entries, first, ledger);
    db' := MintMatches(db, s, bound, caller, uri, entries, w, ms, r);
    PutAllSlots(Minted(s, caller, uri), s.next, entries);
    MintListed(db, db', s, Identity.PutAll(Minted(s, caller, uri), s.next, entries), w, ms, r, ledger);
  }

  lemma UpdateMatches(db: Db, s: Identity.State, bound: nat, call: Identity.Call, p: Packet)
    requires IdMatch(db, s, bound) && bound <= p.ledger
    requires call.SetAgentUri? || call.SetMetadata? || call.SetAgentWallet? || call.UnsetAgentWallet?
    requires var o := Identity.Exec(s, call); o.Done? && p.data == Parse(o.emitted[0])
    ensures Apply(db, p).Changed? && IdMatch(Apply(db, p).db, Identity.Exec(s, call).state, p.ledger)
    ensures SameDependents(db, Apply(db, p).db)
  {
    hide IdMatch;
    assert call.id in db.agents by { MatchedAgents(db, s, bound); }
    match call
    case SetAgentUri(_, _, _, _) => UriMatches(db, s, bound, p);
    case SetMetadata(_, _, _, _, _) => MetadataMatches(db, s, bound, p);
    case SetAgentWallet(_, _, _, _) => WalletMatches(db, s, bound, p, Identity.Exec(s, call).state);
    case UnsetAgentWallet(_, _, _) => WalletMatches(db, s, bound, p, Identity.Exec(s, call).state);
  }

  lemma UpdateApplied(db: Db, s: Identity.State, bound: nat, call: Identity.Call, first: nat, ledger: nat) returns (db': Db)
    requires IdMatch(db, s, bound) && bound <= ledger && Identity.Inv(s)
    requires call.SetAgentUri? || call.SetMetadata? || call.SetAgentWallet? || call.UnsetAgentWallet?
    requires Identity.Exec(s, call).Done?
    ensures var o := Identity.Exec(s, call);
            CallApplied(db, db', s, o.state, Published(o.emitted, first, ledger), ledger)
  {
    hide IdMatch;
    hide Apply;
    var o := Identity.Exec(s, call);
    var p := Packet(first, ledger, Parse(o.emitted[0]));
    UpdateMatches(db, s, bound, call, p);
    SingleApplied(db, s, o.state, o.emitted[0], p);
    assert o.emitted == [o.emitted[0]];
    db' := Apply(db, p).db;
  }

  lemma TransferMatches(db: Db, s: Identity.State, bound: nat, x: Packet, s': Identity.State)
    requires IdMatch(db, s, bound) && Identity.Inv(s) && bound <= x.ledger
    requires x.data.AgentTransferred? && x.data.agentId in s.owners && x.data.agentId !in s.wallets
    requires s' == Identity.ClearMetadata(s, x.data.agentId).(owners := s.owners[x.data.agentId := x.data.to])
    ensures IdMatch(Apply(db, x).db, s', x.ledger)
  {
    var id := x.data.agentId;
    Identity.ClearIsComplete(s, id);
    assert AgentMatches(db.agents[id], s, id, bound);
    RowReplaced(db, s, bound, Apply(db, x).db, s', id, x.ledger);
  }

  lemma TransferListed(db: Db, u: Packet, x: Packet, s: Identity.State, s': Identity.State)
    requires u.data.AgentWalletUnset? && x.data.AgentTransferred? && s.next == s'.next
    requires u.data.agentId < s.next && x.data.agentId < s.next
    requires IdMatch(Apply(Apply(db, u).db, x).db, s', x.ledger)
    ensures CallApplied(db, Apply(Apply(db, u).db, x).db, s, s', [u] + [x], x.ledger)
  {
    hide IdMatch;
    hide Apply;
    NoRegistrations([u] + [x]);
    ApplyAllConcat(db, [u], [x]);
    ApplyOne(db, u);
    ApplyOne(Apply(db, u).db, x);
  }

  lemma TransferApplied(db: Db, s: Identity.State, bound: nat, call: Identity.Call, first: nat, ledger: nat) returns (db': Db)
    requires IdMatch(db, s, bound) && Identity.Inv(s) && bound <= ledger
    requires call.Transfer? && Identity.Exec(s, call).Done?
    ensures var o := Identity.Exec(s, call);
            CallApplied(db, db', s, o.state, Published(o.emitted, first, ledger), ledger)
  {
    hide IdMatch;
    hide Apply;
    hide Published;
    hide CallApplied;
    hide Identity.ClearMetadata;
    var u := Packet(first, ledger, AgentWalletUnset(call.id));
    var x := Packet(first + 1, ledger, AgentTransferred(call.id, call.to));
    var o := Identity.Exec(s, call);
    var s0 := s.(wallets := s.wallets - {call.id});
    WalletMatches(db, s, bound, u, s0);
    Identity.SlotsKeepInv(s, s0);
    TransferMatches(Apply(db, u).db, s0, ledger, x, o.state);
    CountKept(s, call);
    TransferListed(db, u, x, s, o.state);
    TransferPublished(call.from, call.to, call.id, first, ledger);
    db' := Apply(Apply(db, u).db, x).db;
  }

  lemma CountKept(s: Identity.State, call: Identity.Call)
    requires Identity.Inv(s) && call.Transfer? && Identity.Exec(s, call).Done?
    ensures call.id < s.next && Identity.Exec(s, call).state.next == s.next
  {
  }

  lemma TransferPublished(from: Address, to: Address, id: nat, first: nat, ledger: nat)
    ensures Published([WireMetadataSet(id, AGENT_WALLET, ""), WireTransfer(from, to, id)], first, ledger)
         == [Packet(first, ledger, AgentWalletUnset(id))] + [Packet(first + 1, ledger, AgentTransferred(id, to))]
  {
    hide Published;
    var a, b := WireMetadataSet(id, AGENT_WALLET, ""), WireTransfer(from, to, id);
    PublishConcat([a], [b], first, ledger);
    PublishOne(a, first, ledger);
    PublishOne(b, first + 1, ledger);
    assert [a, b] == [a] + [b];
  }

  lemma IdentityCallApplied(db: Db, s: Identity.State, bound: nat, call: Identity.Call, first: nat, ledger: nat)
    returns (db': Db)
    requires IdMatch(db, s, bound) && Identity.Inv(s) && bound <= ledger
    requires Identity.Exec(s, call).Done?
    ensures var o := Identity.Exec(s, call);
            CallApplied(db, db', s, o.state, Published(o.emitted, first, ledger), ledger)
  {
    match call
    case Register(caller) =>
      db' := MintApplied(db, s, bound, caller, None, [], first, ledger);
    case RegisterWithUri(caller, uri) =>
      db' := MintApplied(db, s, bound, caller, Some(uri), [], first, ledger);
    case RegisterFull(caller, uri, entries) =>
      db' := MintApplied(db, s, bound, caller, Some(uri), entries, first, ledger);
    case Transfer(_, _, _, _) =>
      db' := TransferApplied(db, s, bound, call, first, ledger);
    case _ =>
      db' := UpdateApplied(db, s, bound, call, first, ledger);
  }

  // ---------------------------------------------------------------- batches of identity calls

  lemma {:induction false} WorldInv(chain: History, n: nat)
    requires n <= |chain|
    ensures var w := WorldAt(chain, n); Identity.Inv(w.id) && Reputation.Inv(w.rep) && Validation.Inv(w.val)
  {
    hide Identity.Inv;
    hide Reputation.Inv;
    hide Validation.Inv;
    if n == 0 {
      GenesisInv();
    } else {
      WorldInv(chain, n - 1);
      var w, tx := WorldAt(chain, n - 1), chain[n - 1];
      match tx.call
      case OnIdentity(call) =>
        if Identity.Exec(w.id, call).Done? {
          Identity.ExecKeepsInv(w.id, call);
        }
      case OnReputation(call, approved) =>
        var known, self := call.agentId in w.id.owners, Controls(w.id, call.caller, call.agentId, approved);
        if Reputation.Exec(w.rep, call, known, self).Done? {
          Reputation.ExecKeepsInv(w.rep, call, known, self);
        }
      case OnValidation(call, approved) =>
        var known := call.ValidationRequest? && call.agentId in w.id.owners;
        var allowed := call.ValidationRequest? && Controls(w.id, call.caller, call.agentId, approved);
        if Validation.Exec(w.val, call, known, allowed, tx.ledger).Done? {
          Validation.ExecKeepsInv(w.val, call, known, allowed, tx.ledger);
        }
    }
  }

  lemma GenesisInv()
    ensures Identity.Inv(GENESIS.id) && Reputation.Inv(GENESIS.rep) && Validation.Inv(GENESIS.val)
  {
  }

  /** Registrations of later agents may run before updates of earlier ones: the tables come out the same. */
  lemma {:induction false} DelayRegistrations(db: Db, rs: seq<Packet>, ps: seq<Packet>, n: nat)
    requires forall r | r in rs :: r.data.Registered? && r.data.agentId >= n
    requires forall p | p in ps :: Concerns(p, n)
    ensures ApplyAll(db, rs + ps) == ApplyAll(db, ps + rs)
    decreases rs
  {
    hide Apply;
    if rs == [] {
      assert rs + ps == ps + rs;
    } else {
      var r, rest := rs[0], rs[1..];
      assert forall p | p in ps :: AboutOther(p, r.data.agentId);
      assert rs + ps == [r] + (rest + ps) && [r] + (ps + rest) == ([r] + ps) + rest;
      ApplyAllConcat(db, [r], rest + ps);
      ApplyAllConcat(db, [r], ps + rest);
      if ApplyAll(db, [r]).Some? {
        DelayRegistrations(ApplyAll(db, [r]).value, rest, ps, n);
      }
      ApplyAllConcat(db, [r] + ps, rest);
      DelayRegistration(db, r, ps);
      ApplyAllConcat(db, ps + [r], rest);
      assert (ps + [r]) + rest == ps + rs;
    }
  }

  /** Two batches give what their concatenation gives, whatever the registrations moved to the front. */
  lemma BatchesCompose(db: Db, ps: seq<Packet>, qs: seq<Packet>, n: nat)
    requires forall p | p in ps :: Concerns(p, n)
    requires forall r | r in Regs(qs) :: r.data.Registered? && r.data.agentId >= n
    ensures ApplyAll(db, ParentsFirst(ps + qs))
         == if ApplyAll(db, ParentsFirst(ps)).None? then None
            else ApplyAll(ApplyAll(db, ParentsFirst(ps)).value, ParentsFirst(qs))
  {
    hide Apply;
    hide ApplyAll;
    hide Concerns;
    hide Regs;
    hide Others;
    FiltersConcat(ps, qs);
    OthersAreMembers(ps);
    var rp, op, rq, oq := Regs(ps), Others(ps), Regs(qs), Others(qs);
    assert ParentsFirst(ps + qs) == rp + (rq + op) + oq;
    assert ParentsFirst(ps) + ParentsFirst(qs) == rp + (op + rq) + oq;
    ApplyAllConcat(db, rp, rq + op);
    ApplyAllConcat(db, rp, op + rq);
    if ApplyAll(db, rp).Some? {
      DelayRegistrations(ApplyAll(db, rp).value, rq, op, n);
    }
    ApplyAllConcat(db, rp + (rq + op), oq);
    ApplyAllConcat(db, rp + (op + rq), oq);
    ApplyAllConcat(db, ParentsFirst(ps), ParentsFirst(qs));
  }

  predicate NoneTwice(rs: seq<Packet>) {
    forall i, j :: 0 <= i < j < |rs| ==>
      rs[i].data.Registered? && rs[j].data.Registered? && rs[i].data.agentId != rs[j].data.agentId
  }

  /** Every event of the batch is about an agent below the new count; its registrations are new, distinct agents. */
  ghost predicate BatchShape(ps: seq<Packet>, lo: nat, hi: nat) {
    && lo <= hi
    && (forall p | p in ps :: Concerns(p, hi))
    && (forall r | r in Regs(ps) :: r.data.Registered? && r.data.agentId >= lo)
    && NoneTwice(Regs(ps))
  }

  lemma IdMatchLater(db: Db, s: Identity.State, bound: nat, later: nat)
    requires IdMatch(db, s, bound) && bound <= later
    ensures IdMatch(db, s, later)
  {
    forall id | id in s.owners ensures AgentMatches(db.agents[id], s, id, later) {
      assert AgentMatches(db.agents[id], s, id, bound);
    }
  }

  lemma ShapeExtends(ps: seq<Packet>, qs: seq<Packet>, lo: nat, mid: nat, hi: nat)
    requires BatchShape(ps, lo, mid) && BatchShape(qs, mid, hi)
    ensures BatchShape(ps + qs, lo, hi)
  {
    FiltersConcat(ps, qs);
    RegsAreMembers(ps);
    RegsAreMembers(qs);
  }

  lemma {:induction false} RegsAreMembers(ps: seq<Packet>)
    ensures forall r :: r in Regs(ps) <==> r in ps && r.data.Registered?
  {
    if ps != [] {
      RegsAreMembers(ps[1..]);
      assert ps == [ps[0]] + ps[1..];
    }
  }

  lemma NothingPublished(db: Db, next: nat)
    ensures ApplyAll(db, ParentsFirst([])) == Some(db) && SameDependents(db, db) && BatchShape([], next, next)
  {
  }

  /** One more call of the history, of any contract, on top of tables that match. */
  lemma IdentityStep(db: Db, chain: History, n: nat) returns (db': Db)
    requires Ordered(chain) && n < |chain|
    requires IdMatch(db, WorldAt(chain, n).id, LastLedger(chain, n))
    ensures var qs := Between(chain, IdentityContract, n, n + 1);
            && ApplyAll(db, ParentsFirst(qs)) == Some(db')
            && IdMatch(db', WorldAt(chain, n + 1).id, LastLedger(chain, n + 1))
            && SameDependents(db, db')
            && BatchShape(qs, WorldAt(chain, n).id.next, WorldAt(chain, n + 1).id.next)
  {
    hide IdMatch;
    hide Apply;
    hide Identity.Exec;
    hide Identity.Inv;
    hide Between;
    hide Step;
    hide Published;
    hide ParentsFirst;
    hide ApplyAll;
    var w, tx := WorldAt(chain, n), chain[n];
    IdMatchLater(db, w.id, LastLedger(chain, n), tx.ledger);
    IdentityPackets(chain, n);
    if tx.call.OnIdentity? && Identity.Exec(w.id, tx.call.idCall).Done? {
      WorldInv(chain, n);
      db' := IdentityCallApplied(db, w.id, tx.ledger, tx.call.idCall, FirstId(chain, n), tx.ledger);
    } else {
      db' := db;
      NothingPublished(db, w.id.next);
    }
  }

  /** What one call adds to the identity stream, and does to the identity registry. */
  lemma IdentityPackets(chain: History, n: nat)
    requires n < |chain|
    ensures var w, w', qs := WorldAt(chain, n), WorldAt(chain, n + 1), Between(chain, IdentityContract, n, n + 1);
            if chain[n].call.OnIdentity? && Identity.Exec(w.id, chain[n].call.idCall).Done?
            then var o := Identity.Exec(w.id, chain[n].call.idCall);
                 w'.id == o.state && qs == Published(o.emitted, FirstId(chain, n), chain[n].ledger)
            else w'.id == w.id && qs == []
  {
    hide Identity.Exec;
    hide Reputation.Exec;
    hide Validation.Exec;
    BetweenOne(chain, IdentityContract, n);
  }

  /** Identity calls i..j, indexed as one batch. */
  lemma {:induction false} IdentityBatch(db: Db, chain: History, i: nat, j: nat) returns (db': Db)
    requires Ordered(chain) && i <= j <= |chain|
    requires IdMatch(db, WorldAt(chain, i).id, LastLedger(chain, i))
    ensures var ps := Between(chain, IdentityContract, i, j);
            && ApplyAll(db, ParentsFirst(ps)) == Some(db')
            && IdMatch(db', WorldAt(chain, j).id, LastLedger(chain, j))
            && SameDependents(db, db')
            && BatchShape(ps, WorldAt(chain, i).id.next, WorldAt(chain, j).id.next)
    decreases j - i
  {
    hide IdMatch;
    hide Apply;
    hide Step;
    hide BatchShape;
    hide ParentsFirst;
    hide Between;
    if i == j {
      EmptyBatch(db, chain, i);
      db' := db;
    } else {
      var db1 := IdentityBatch(db, chain, i, j - 1);
      db' := IdentityStep(db1, chain, j - 1);
      var ps, qs := Between(chain, IdentityContract, i, j - 1), Between(chain, IdentityContract, j - 1, j);
      BetweenSplits(chain, IdentityContract, i, j - 1, j);
      ShapesCompose(db, ps, qs, WorldAt(chain, i).id.next, WorldAt(chain, j - 1).id.next, WorldAt(chain, j).id.next);
      ShapeExtends(ps, qs, WorldAt(chain, i).id.next, WorldAt(chain, j - 1).id.next, WorldAt(chain, j).id.next);
    }
  }

  lemma EmptyBatch(db: Db, chain: History, i: nat)
    requires i <= |chain|
    ensures var ps := Between(chain, IdentityContract, i, i);
            && ApplyAll(db, ParentsFirst(ps)) == Some(db)
            && BatchShape(ps, WorldAt(chain, i).id.next, WorldAt(chain, i).id.next)
  {
    hide Step;
  }

  lemma ShapesCompose(db: Db, ps: seq<Packet>, qs: seq<Packet>, lo: nat, mid: nat, hi: nat)
    requires BatchShape(ps, lo, mid) && BatchShape(qs, mid, hi)
    ensures ApplyAll(db, ParentsFirst(ps + qs))
         == if ApplyAll(db, ParentsFirst(ps)).None? then None
            else ApplyAll(ApplyAll(db, ParentsFirst(ps)).value, ParentsFirst(qs))
  {
    BatchesCompose(db, ps, qs, mid);
  }

  /** Paging independence: indexing i..k at once or split at any j leaves exactly the same tables. */
  lemma PagingIndependence(db: Db, chain: History, i: nat, j: nat, k: nat)
    requires Ordered(chain) && i <= j <= k <= |chain|
    requires IdMatch(db, WorldAt(chain, i).id, LastLedger(chain, i))
    ensures var whole := ApplyAll(db, ParentsFirst(Between(chain, IdentityContract, i, k)));
            var first := ApplyAll(db, ParentsFirst(Between(chain, IdentityContract, i, j)));
            whole.Some? && first.Some?
            && whole == ApplyAll(first.value, ParentsFirst(Between(chain, IdentityContract, j, k)))
  {
    hide IdMatch;
    hide Apply;
    hide Step;
    hide BatchShape;
    hide ParentsFirst;
    hide Between;
    var db1 := IdentityBatch(db, chain, i, j);
    var db2 := IdentityBatch(db1, chain, j, k);
    BetweenSplits(chain, IdentityContract, i, j, k);
    ShapesCompose(db, Between(chain, IdentityContract, i, j), Between(chain, IdentityContract, j, k),
                  WorldAt(chain, i).id.next, WorldAt(chain, j).id.next, WorldAt(chain, k).id.next);
  }

  // ---------------------------------------------------------------- what a reader of the tables finds

  /** The agents are the registry's, each with its owner, URI, wallet and every other metadata value. */
  lemma AgentsRead(db: Db, chain: History, at: Progress, id: nat, key: string)
    requires InOrder(chain, at) && Projected(db, chain, at)
    ensures var s := WorldAt(chain, at.id).id;
            && (id in db.agents <==> id in s.owners)
            && (id in db.agents ==>
                  && db.agents[id].owner == s.owners[id] && db.agents[id].uri == Identity.TokenUri(s, id)
                  && db.agents[id].wallet == Identity.GetMetadata(s, id, "agentWallet"))
            && (key != "agentWallet" ==> Lookup(db.metadata, (id, key)) == Identity.GetMetadata(s, id, key))
  {
    hide Step;
    hide RepMatch;
    hide ValMatch;
  }

  /** The feedback is the registry's, value by value, and under each its responses are numbered from one without a gap. */
  lemma FeedbackReads(db: Db, chain: History, at: Progress, k: FeedbackKey, n: nat)
    requires InOrder(chain, at) && Projected(db, chain, at)
    ensures var s := WorldAt(chain, at.rep).rep;
            && (k in db.feedback <==> k in s.feedback)
            && (k in db.feedback ==>
                  var row, f := db.feedback[k], s.feedback[k];
                  && row.value == f.value && row.decimals == f.decimals && row.revoked == f.revoked
                  && GetOr(row.tag1, "") == f.tag1 && GetOr(row.tag2, "") == f.tag2)
            && ((exists e :: e in db.responses && db.responses[e].key == k && db.responses[e].number == n)
                <==> 1 <= n <= Reputation.ResponseCount(s, k))
            && (forall e, f | e in db.responses && f in db.responses && db.responses[e].key == db.responses[f].key
                              && db.responses[e].number == db.responses[f].number :: e == f)
  {
    hide Step;
    hide IdMatch;
    hide ValMatch;
    assert n in Numbers(db.responses, k) <==> exists e :: e in db.responses && db.responses[e].key == k && db.responses[e].number == n;
  }

  /** The validations are the registry's, with their answers once given. */
  lemma ValidationsRead(db: Db, chain: History, at: Progress, hash: string)
    requires InOrder(chain, at) && Projected(db, chain, at)
    ensures var s := WorldAt(chain, at.val).val;
            && (hash in db.validations <==> hash in s.validations)
            && (hash in db.validations ==>
                  var row, v := db.validations[hash], s.validations[hash];
                  && row.agentId == v.agentId && row.validator == v.validator && row.hasResponse == v.hasResponse
                  && (v.hasResponse ==> row.response == Some(v.response) && GetOr(row.responseHash, "") == v.responseHash
                                        && GetOr(row.tag, "") == v.tag))
  {
    hide Step;
    hide IdMatch;
    hide RepMatch;
  }
}
