// Every stream of a lawful history is orderly: in ledger order, every row found, every row inserted once.
module Streams {
  import opened Basics
  import opened Events
  import opened Chain
  import opened Tables
  import opened Writer
  import opened Columns
  import opened Recovery
  import opened Projection
  import opened EndToEnd
  import opened Ledgers
  import opened Rpc
  import Identity
  import Reputation
  import Validation

  // ---------------------------------------------------------------- streams in ledger order

  lemma {:induction false} OthersSorted(ps: seq<Packet>)
    requires Sorted(ps)
    ensures Sorted(Others(ps)) && forall p | p in Others(ps) :: p in ps && !p.data.Registered?
  {
    if ps != [] {
      OthersSorted(ps[1..]);
      assert forall p | p in ps[1..] :: p in ps && ps[0].ledger <= p.ledger;
      var rest := Others(ps[1..]);
      assert forall i | 0 <= i < |rest| :: rest[i] in ps[1..];
    }
  }

  /** The write order of a sorted stream: updates in ledger order behind the registrations. */
  lemma WriteOrderIsOrdered(ps: seq<Packet>)
    requires Sorted(ps)
    ensures InLedgerOrder(ParentsFirst(ps))
    ensures forall p :: p in ParentsFirst(ps) ==> p in ps
  {
    OthersSorted(ps);
    RegsAreMembers(ps);
    var rs, os := Regs(ps), Others(ps);
    var all := rs + os;
    forall i, j | 0 <= i < j < |all| && !all[i].data.Registered? && !all[j].data.Registered?
      ensures all[i].ledger <= all[j].ledger
    {
      assert forall k | 0 <= k < |rs| :: rs[k] in rs;
      assert all[i] == os[i - |rs|] && all[j] == os[j - |rs|];
    }
  }

  lemma StretchSorted(chain: History, c: Contract, i: nat, j: nat)
    requires Chain.Ordered(chain) && i <= j <= |chain|
    ensures Sorted(Between(chain, c, i, j))
  {
    StreamSorted(chain, c, j);
    BetweenSplits(chain, c, 0, i, j);
    var a, b := Between(chain, c, 0, i), Between(chain, c, i, j);
    assert forall k | 0 <= k < |b| :: (a + b)[|a| + k] == b[k];
  }

  /** Events after call i are no older than what came before it. */
  lemma NotOlder(chain: History, c: Contract, i: nat, j: nat)
    requires Chain.Ordered(chain) && i <= j <= |chain|
    ensures forall p | p in Between(chain, c, i, j) :: LastLedger(chain, i) <= p.ledger
  {
    var top := if j == 0 then 0 else chain[j - 1].ledger;
    if i < j {
      BetweenLedgers(chain, c, i, j, LastLedger(chain, i), top);
    } else {
      assert Between(chain, c, i, j) == [];
    }
  }

  /** The call an event came from. */
  lemma {:induction false} CallOf(chain: History, c: Contract, i: nat, j: nat, p: Packet) returns (m: nat)
    requires i <= j <= |chain| && p in Between(chain, c, i, j)
    ensures i <= m < j && Target(chain[m]) == c && p in PacketsOf(chain, m)
    decreases j - i
  {
    hide Step;
    if i == j {
      assert false;
    } else if Target(chain[j - 1]) == c && p in PacketsOf(chain, j - 1) {
      m := j - 1;
    } else {
      m := CallOf(chain, c, i, j - 1, p);
    }
  }

  lemma {:induction false} NoneMissingConcat(db: Db, ps: seq<Packet>, qs: seq<Packet>)
    requires NoneMissing(db, ps) && NoneMissing(ApplyAll(db, ps).value, qs)
    ensures NoneMissing(db, ps + qs)
  {
    hide Apply;
    hide RowMissing;
    hide InBounds;
    ApplyAllConcat(db, ps, qs);
    var all := ps + qs;
    forall k | 0 <= k < |all| ensures ApplyAll(db, all[..k]).Some? && !RowMissing(ApplyAll(db, all[..k]).value, all[k]) {
      if k < |ps| {
        assert all[..k] == ps[..k];
      } else {
        assert all[..k] == ps + qs[..k - |ps|];
        ApplyAllConcat(db, ps, qs[..k - |ps|]);
      }
    }
  }

  // ---------------------------------------------------------------- the identity stream

  lemma MatchedNoStrays(db: Db, s: Identity.State, bound: nat)
    requires IdMatch(db, s, bound) && Identity.Inv(s)
    ensures NoStrays(db)
  {
    forall k | k in db.metadata ensures k.0 in db.agents {
      assert (k.0, k.1) in s.metadata;
      assert k.1 in Identity.KeysOf(s, k.0);
    }
  }

  lemma {:induction false} OnlyRegistrationsAddAgents(db: Db, ps: seq<Packet>)
    requires ApplyAll(db, ps).Some? && forall p | p in ps :: !p.data.Registered?
    ensures ApplyAll(db, ps).value.agents.Keys == db.agents.Keys
    decreases ps
  {
    hide Apply;
    if ps != [] {
      RowsAfter(db, ps[0]);
      OnlyRegistrationsAddAgents(Apply(db, ps[0]).db, ps[1..]);
    }
  }

  lemma PrefixApplies(db: Db, ps: seq<Packet>, k: nat)
    requires ApplyAll(db, ps).Some? && k <= |ps|
    ensures ApplyAll(db, ps[..k]).Some?
  {
    hide Apply;
    assert ps == ps[..k] + ps[k..];
    ApplyAllConcat(db, ps[..k], ps[k..]);
  }

  predicate AgentKnown(db: Db, p: Packet) {
    match p.data
    case Registered(_, _, _) => true
    case UriUpdated(id, _) => id in db.agents
    case MetadataSet(id, _, _) => id in db.agents
    case AgentWalletSet(id, _) => id in db.agents
    case AgentWalletUnset(id) => id in db.agents
    case AgentTransferred(id, _) => id in db.agents
    case _ => false
  }

  lemma KnownIsNotMissing(db: Db, p: Packet)
    requires AgentKnown(db, p)
    ensures !RowMissing(db, p) && InBounds(p)
  {
  }

  lemma KnownByRows(a: Db, b: Db, p: Packet)
    requires AgentKnown(b, p) && a.agents.Keys == b.agents.Keys
    ensures AgentKnown(a, p)
  {
  }

  /** Registrations first, then everything else: no update misses its agent. */
  lemma BatchFindsAgents(db: Db, ps: seq<Packet>)
    requires ApplyAll(db, ParentsFirst(ps)).Some?
    requires forall p | p in ps :: AgentKnown(ApplyAll(db, ParentsFirst(ps)).value, p)
    ensures NoneMissing(db, ParentsFirst(ps))
  {
    hide Apply;
    hide RowMissing;
    hide InBounds;
    hide AgentKnown;
    RegsAreMembers(ps);
    OthersOnly(ps);
    var rs, os, all := Regs(ps), Others(ps), ParentsFirst(ps);
    var final := ApplyAll(db, all).value;
    forall p | p in all ensures InBounds(p) {
      KnownIsNotMissing(final, p);
    }
    forall k | 0 <= k < |all| ensures ApplyAll(db, all[..k]).Some? && !RowMissing(ApplyAll(db, all[..k]).value, all[k]) {
      PrefixApplies(db, all, k);
      var before := ApplyAll(db, all[..k]).value;
      if k < |rs| {
        assert all[k] == rs[k] && rs[k] in rs;
        NeverMissing(before, all[k]);
      } else {
        assert all == all[..k] + all[k..];
        ApplyAllConcat(db, all[..k], all[k..]);
        assert forall p | p in all[k..] :: p in os by { assert all[k..] == os[k - |rs|..]; }
        OnlyRegistrationsAddAgents(before, all[k..]);
        assert all[k] in os;
        KnownByRows(before, final, all[k]);
        KnownIsNotMissing(before, all[k]);
      }
    }
  }

  lemma NeverMissing(db: Db, p: Packet)
    requires p.data.Registered?
    ensures !RowMissing(db, p)
  {
  }

  lemma {:induction false} OthersOnly(ps: seq<Packet>)
    ensures forall p | p in Others(ps) :: p in ps && !p.data.Registered?
  {
    if ps != [] {
      OthersOnly(ps[1..]);
      assert ps == [ps[0]] + ps[1..];
    }
  }

  lemma ConcernsKnown(db: Db, s: Identity.State, bound: nat, p: Packet)
    requires IdMatch(db, s, bound) && Identity.Inv(s) && Concerns(p, s.next)
    ensures AgentKnown(db, p)
  {
    assert forall id: nat | id < s.next :: id in s.owners.Keys;
  }

  lemma RegistrationsAgree(ps: seq<Packet>, lo: nat, hi: nat, col: Column)
    requires BatchShape(ps, lo, hi)
    ensures CreatesAgree(ParentsFirst(ps), col)
  {
    RegsAreMembers(ps);
    OthersAreMembers(ps);
    forall p, q | p in ParentsFirst(ps) && q in ParentsFirst(ps) && EffectOn(col, p).Create? && EffectOn(col, q).Create?
      ensures EffectOn(col, p) == EffectOn(col, q)
    {
      OnlyRegistrationsCreate(col, p, hi);
      OnlyRegistrationsCreate(col, q, hi);
      var rs := Regs(ps);
      var i :| 0 <= i < |rs| && rs[i] == p;
      var j :| 0 <= j < |rs| && rs[j] == q;
      SameRegistration(rs, i, j);
    }
  }

  lemma SameRegistration(rs: seq<Packet>, i: nat, j: nat)
    requires NoneTwice(rs) && i < |rs| && j < |rs| && rs[i].data.Registered? && rs[j].data.Registered?
    requires rs[i].data.agentId == rs[j].data.agentId
    ensures i == j
  {
  }

  /** Among identity events only registrations insert, and they name the column's agent. */
  lemma OnlyRegistrationsCreate(col: Column, p: Packet, hi: nat)
    requires Concerns(p, hi) && EffectOn(col, p).Create?
    ensures p.data.Registered? && (col.Owner? || col.Uri? || col.Wallet? || col.Metadata? || col.Birth?)
    ensures p.data.agentId == (match col case Owner(id) => id case Uri(id) => id case Wallet(id) => id
                               case Metadata(id, _) => id case Birth(id) => id case _ => 0)
  {
  }

  lemma IdentityNotAhead(db: Db, s: Identity.State, bound: nat, ps: seq<Packet>, hi: nat, col: Column)
    requires IdMatch(db, s, bound) && forall p | p in ps :: bound <= p.ledger && Concerns(p, hi)
    ensures NotAhead(Read(db, col), ps, col)
  {
    forall p | p in ps && EffectOn(col, p).Guarded? && Read(db, col).Some?
      ensures NotNewer(Read(db, col).value.at, p.ledger)
    {
      var id := p.data.agentId;
      assert id in s.owners ==> AgentMatches(db.agents[id], s, id, bound);
    }
  }

  lemma IdentityOrderly(db: Db, chain: History, i: nat, j: nat)
    requires Chain.Ordered(chain) && i <= j <= |chain|
    requires IdMatch(db, WorldAt(chain, i).id, LastLedger(chain, i))
    ensures Orderly(db, ParentsFirst(Between(chain, IdentityContract, i, j)))
  {
    hide IdMatch;
    hide Apply;
    hide Step;
    hide Between;
    hide ParentsFirst;
    hide NoneMissing;
    hide InLedgerOrder;
    hide NotAhead;
    hide CreatesAgree;
    hide NoStrays;
    hide Identity.Inv;
    hide Reputation.Inv;
    hide Validation.Inv;
    var ps, w, w' := Between(chain, IdentityContract, i, j), WorldAt(chain, i), WorldAt(chain, j);
    var final := IdentityBatch(db, chain, i, j);
    WorldInv(chain, i);
    WorldInv(chain, j);
    MatchedNoStrays(db, w.id, LastLedger(chain, i));
    StretchSorted(chain, IdentityContract, i, j);
    WriteOrderIsOrdered(ps);
    NotOlder(chain, IdentityContract, i, j);
    forall p | p in ps ensures AgentKnown(final, p) {
      ConcernsKnown(final, w'.id, LastLedger(chain, j), p);
    }
    BatchFindsAgents(db, ps);
    forall col: Column ensures NotAhead(Read(db, col), ParentsFirst(ps), col) && CreatesAgree(ParentsFirst(ps), col) {
      IdentityNotAhead(db, w.id, LastLedger(chain, i), ParentsFirst(ps), w'.id.next, col);
      RegistrationsAgree(ps, w.id.next, w'.id.next, col);
    }
  }

  // ---------------------------------------------------------------- the reputation stream

  /** A reputation call that publishes p: it succeeded, and p is all it published. */
  ghost predicate PublishesAlone(chain: History, m: nat, p: Packet)
    requires m < |chain| && chain[m].call.OnReputation?
  {
    var w, call := WorldAt(chain, m), chain[m].call.repCall;
    var o := Reputation.Exec(w.rep, call, call.agentId in w.id.owners, Controls(w.id, call.caller, call.agentId, chain[m].call.approved));
    && o.Done? && o.emitted == [p.data] && WorldAt(chain, m + 1).rep == o.state
    && p.id == FirstId(chain, m) && FirstId(chain, m + 1) == p.id + 1 && PacketsOf(chain, m) == [p]
  }

  lemma ReputationPacket(chain: History, m: nat, p: Packet)
    requires m < |chain| && chain[m].call.OnReputation? && p in PacketsOf(chain, m)
    ensures PublishesAlone(chain, m, p)
  {
    hide Reputation.Exec;
    hide Identity.Exec;
    hide Validation.Exec;
    var w, call := WorldAt(chain, m), chain[m].call.repCall;
    var known, self := call.agentId in w.id.owners, Controls(w.id, call.caller, call.agentId, chain[m].call.approved);
    if Reputation.Exec(w.rep, call, known, self).Done? {
      EmitsOne(w.rep, call, known, self);
      PublishEvent(Reputation.Exec(w.rep, call, known, self).emitted[0], FirstId(chain, m), chain[m].ledger);
    }
  }

  /** Feedback stays, and stays revoked. */
  predicate Grown(s: Reputation.State, s': Reputation.State) {
    forall k :: k in s.feedback ==> k in s'.feedback && (s.feedback[k].revoked ==> s'.feedback[k].revoked)
  }

  lemma ReputationGrowsOnce(w: World, tx: Tx)
    requires Reputation.Inv(w.rep)
    ensures Grown(w.rep, Step(w, tx).0.rep)
  {
    hide Identity.Exec;
    hide Validation.Exec;
    hide Reputation.ClientsIndexed;
  }

  lemma {:induction false} ReputationGrows(chain: History, i: nat, j: nat)
    requires i <= j <= |chain|
    ensures Grown(WorldAt(chain, i).rep, WorldAt(chain, j).rep)
    decreases j
  {
    hide Step;
    hide Identity.Inv;
    hide Reputation.Inv;
    hide Validation.Inv;
    if i < j {
      ReputationGrows(chain, i, j - 1);
      WorldInv(chain, j - 1);
      ReputationGrowsOnce(WorldAt(chain, j - 1), chain[j - 1]);
    }
  }

  /** What an event says about the feedback before and after its call. */
  lemma ReputationEvent(chain: History, m: nat, p: Packet)
    requires m < |chain| && chain[m].call.OnReputation? && PublishesAlone(chain, m, p)
    ensures var s, s', e := WorldAt(chain, m).rep, WorldAt(chain, m + 1).rep, p.data;
            && (e.NewFeedback? || e.FeedbackRevoked? || e.ResponseAppended?)
            && (e.NewFeedback? ==> (e.agentId, e.client, e.index) !in s.feedback && (e.agentId, e.client, e.index) in s'.feedback)
            && (e.FeedbackRevoked? ==> (e.agentId, e.client, e.index) in s.feedback && !s.feedback[(e.agentId, e.client, e.index)].revoked)
  {
    hide Step;
    hide Identity.Inv;
    hide Validation.Inv;
    hide Reputation.ClientsIndexed;
    WorldInv(chain, m);
  }

  lemma {:induction false} IdsRise(chain: History, i: nat, j: nat)
    requires i <= j <= |chain|
    ensures FirstId(chain, i) <= FirstId(chain, j)
    decreases j
  {
    hide Step;
    if i < j {
      IdsRise(chain, i, j - 1);
    }
  }

  /** Two events that insert the same row are one event. */
  lemma ReputationInsertsOnce(chain: History, i: nat, j: nat, p: Packet, q: Packet, col: Column)
    requires i <= j <= |chain|
    requires p in Between(chain, ReputationContract, i, j) && q in Between(chain, ReputationContract, i, j)
    requires EffectOn(col, p).Create? && EffectOn(col, q).Create?
    ensures p == q
  {
    hide Step;
    hide PublishesAlone;
    hide Grown;
    hide PacketsOf;
    var m := CallOf(chain, ReputationContract, i, j, p);
    var n := CallOf(chain, ReputationContract, i, j, q);
    ReputationPacket(chain, m, p);
    ReputationPacket(chain, n, q);
    if m < n {
      InsertsApart(chain, m, n, p, q, col);
    } else if n < m {
      InsertsApart(chain, n, m, q, p, col);
    } else {
      OnePacket(chain, m, p, q);
    }
  }

  lemma OnePacket(chain: History, m: nat, p: Packet, q: Packet)
    requires m < |chain| && chain[m].call.OnReputation? && PublishesAlone(chain, m, p) && PublishesAlone(chain, m, q)
    ensures p == q
  {
    hide Step;
    hide PacketsOf;
    assert [p][0] == [q][0];
  }

  lemma InsertsApart(chain: History, m: nat, n: nat, p: Packet, q: Packet, col: Column)
    requires m < n < |chain| && chain[m].call.OnReputation? && chain[n].call.OnReputation?
    requires PublishesAlone(chain, m, p) && PublishesAlone(chain, n, q) && EffectOn(col, p).Create?
    ensures !EffectOn(col, q).Create?
  {
    hide Step;
    hide WorldAt;
    hide PacketsOf;
    hide Reputation.Exec;
    hide FirstId;
    ReputationEvent(chain, m, p);
    ReputationEvent(chain, n, q);
    ReputationGrows(chain, m + 1, n);
    IdsRise(chain, m + 1, n);
  }

  lemma ReputationNotAhead(db: Db, chain: History, i: nat, j: nat, col: Column)
    requires i <= j <= |chain| && RepMatch(db, WorldAt(chain, i).rep, FirstId(chain, i))
    ensures NotAhead(Read(db, col), Between(chain, ReputationContract, i, j), col)
  {
    hide Step;
    hide Between;
    hide PacketsOf;
    hide PublishesAlone;
    hide Numbers;
    forall p | p in Between(chain, ReputationContract, i, j) && EffectOn(col, p).Guarded? && Read(db, col).Some?
      ensures NotNewer(Read(db, col).value.at, p.ledger)
    {
      var m := CallOf(chain, ReputationContract, i, j, p);
      ReputationPacket(chain, m, p);
      ReputationEvent(chain, m, p);
      ReputationGrows(chain, i, m);
      var s, k := WorldAt(chain, i).rep, (p.data.agentId, p.data.client, p.data.index);
      assert k in s.feedback && !s.feedback[k].revoked;
      assert FeedbackMatches(db.feedback[k], s.feedback[k]);
    }
  }

  lemma ReputationStepFindsRow(db: Db, chain: History, m: nat)
    requires m < |chain| && RepMatch(db, WorldAt(chain, m).rep, FirstId(chain, m))
    requires ApplyAll(db, Between(chain, ReputationContract, m, m + 1)).Some?
    ensures NoneMissing(db, Between(chain, ReputationContract, m, m + 1))
  {
    hide Step;
    hide Apply;
    hide Numbers;
    hide Between;
    hide PacketsOf;
    hide PublishesAlone;
    var ps := Between(chain, ReputationContract, m, m + 1);
    BetweenOne(chain, ReputationContract, m);
    forall p | p in ps ensures !RowMissing(db, p) && InBounds(p) && ps == [p] {
      ReputationPacket(chain, m, p);
      ReputationEvent(chain, m, p);
      AllOf(chain, m, p);
    }
    if ps != [] {
      assert ps[0] in ps;
      assert ps[..0] == [];
    }
  }

  lemma AllOf(chain: History, m: nat, p: Packet)
    requires m < |chain| && chain[m].call.OnReputation? && PublishesAlone(chain, m, p)
    ensures PacketsOf(chain, m) == [p]
  {
    hide Step;
    hide PacketsOf;
  }

  lemma {:induction false} ReputationFindsRows(db: Db, chain: History, i: nat, j: nat)
    requires i <= j <= |chain| && AgentsKnown(db, chain, j)
    requires RepMatch(db, WorldAt(chain, i).rep, FirstId(chain, i))
    ensures NoneMissing(db, Between(chain, ReputationContract, i, j))
    decreases j - i
  {
    hide RepMatch;
    hide Apply;
    hide Step;
    hide Between;
    if i == j {
      NoCalls(chain, ReputationContract, i);
    } else {
      OwnersGrow(chain, j - 1, j);
      ReputationFindsRows(db, chain, i, j - 1);
      var db1 := ReputationBatch(db, chain, i, j - 1);
      var db2 := ReputationStep(db1, chain, j - 1);
      BetweenSplits(chain, ReputationContract, i, j - 1, j);
      ReputationStepFindsRow(db1, chain, j - 1);
      NoneMissingConcat(db, Between(chain, ReputationContract, i, j - 1), Between(chain, ReputationContract, j - 1, j));
    }
  }

  lemma NoCalls(chain: History, c: Contract, i: nat)
    requires i <= |chain|
    ensures Between(chain, c, i, i) == []
  {
  }

  lemma SortedIsOrdered(ps: seq<Packet>)
    requires Sorted(ps)
    ensures InLedgerOrder(ps)
  {
  }

  lemma ReputationOrderly(db: Db, chain: History, i: nat, j: nat)
    requires Chain.Ordered(chain) && i <= j <= |chain| && AgentsKnown(db, chain, j) && NoStrays(db)
    requires RepMatch(db, WorldAt(chain, i).rep, FirstId(chain, i))
    ensures Orderly(db, Between(chain, ReputationContract, i, j))
  {
    hide RepMatch;
    hide Apply;
    hide Step;
    hide Between;
    hide NoneMissing;
    hide NotAhead;
    hide InLedgerOrder;
    hide EffectOn;
    var ps := Between(chain, ReputationContract, i, j);
    StretchSorted(chain, ReputationContract, i, j);
    SortedIsOrdered(ps);
    ReputationFindsRows(db, chain, i, j);
    forall col: Column ensures NotAhead(Read(db, col), ps, col) && CreatesAgree(ps, col) {
      ReputationNotAhead(db, chain, i, j, col);
      forall p, q | p in ps && q in ps && EffectOn(col, p).Create? && EffectOn(col, q).Create? ensures p == q {
        ReputationInsertsOnce(chain, i, j, p, q, col);
      }
    }
  }

  // ---------------------------------------------------------------- the validation stream

  ghost predicate ValidatesAlone(chain: History, m: nat, p: Packet)
    requires m < |chain| && chain[m].call.OnValidation?
  {
    var w, call, approved := WorldAt(chain, m), chain[m].call.valCall, chain[m].call.approved;
    var o := Validation.Exec(w.val, call, call.ValidationRequest? && call.agentId in w.id.owners,
                             call.ValidationRequest? && Controls(w.id, call.caller, call.agentId, approved), chain[m].ledger);
    && o.Done? && o.emitted == [p.data] && WorldAt(chain, m + 1).val == o.state
    && p.ledger == chain[m].ledger && PacketsOf(chain, m) == [p]
  }

  lemma ValidationPacket(chain: History, m: nat, p: Packet)
    requires m < |chain| && chain[m].call.OnValidation? && p in PacketsOf(chain, m)
    ensures ValidatesAlone(chain, m, p)
  {
    hide Reputation.Exec;
    hide Identity.Exec;
    hide Validation.Exec;
    var w, call, tx := WorldAt(chain, m), chain[m].call.valCall, chain[m];
    var known := call.ValidationRequest? && call.agentId in w.id.owners;
    var allowed := call.ValidationRequest? && Controls(w.id, call.caller, call.agentId, tx.call.approved);
    if Validation.Exec(w.val, call, known, allowed, tx.ledger).Done? {
      ValidationEmitsOne(w.val, call, known, allowed, tx.ledger);
      PublishEvent(Validation.Exec(w.val, call, known, allowed, tx.ledger).emitted[0], FirstId(chain, m), tx.ledger);
    }
  }

  lemma ValidationsGrowOnce(w: World, tx: Tx)
    ensures w.val.validations.Keys <= Step(w, tx).0.val.validations.Keys
  {
    hide Identity.Exec;
    hide Reputation.Exec;
  }

  lemma {:induction false} ValidationsGrow(chain: History, i: nat, j: nat)
    requires i <= j <= |chain|
    ensures WorldAt(chain, i).val.validations.Keys <= WorldAt(chain, j).val.validations.Keys
    decreases j
  {
    hide Step;
    if i < j {
      ValidationsGrow(chain, i, j - 1);
      ValidationsGrowOnce(WorldAt(chain, j - 1), chain[j - 1]);
    }
  }

  lemma ValidationEvent(chain: History, m: nat, p: Packet)
    requires m < |chain| && chain[m].call.OnValidation? && ValidatesAlone(chain, m, p)
    ensures var s, s', e := WorldAt(chain, m).val, WorldAt(chain, m + 1).val, p.data;
            && (e.ValidationRequested? || e.ValidationResponded?)
            && (e.ValidationRequested? ==> e.hash !in s.validations && e.hash in s'.validations)
            && (e.ValidationResponded? ==> e.hash in s.validations && e.response <= 100)
  {
    hide Step;
  }

  lemma ValidationInsertsOnce(chain: History, i: nat, j: nat, p: Packet, q: Packet, col: Column)
    requires i <= j <= |chain|
    requires p in Between(chain, ValidationContract, i, j) && q in Between(chain, ValidationContract, i, j)
    requires EffectOn(col, p).Create? && EffectOn(col, q).Create?
    ensures p == q
  {
    hide Step;
    hide ValidatesAlone;
    hide PacketsOf;
    var m := CallOf(chain, ValidationContract, i, j, p);
    var n := CallOf(chain, ValidationContract, i, j, q);
    ValidationPacket(chain, m, p);
    ValidationPacket(chain, n, q);
    if m < n {
      RequestsApart(chain, m, n, p, q, col);
    } else if n < m {
      RequestsApart(chain, n, m, q, p, col);
    } else {
      OneValidation(chain, m, p);
      OneValidation(chain, m, q);
      assert [p][0] == [q][0];
    }
  }

  lemma OneValidation(chain: History, m: nat, p: Packet)
    requires m < |chain| && chain[m].call.OnValidation? && ValidatesAlone(chain, m, p)
    ensures PacketsOf(chain, m) == [p] && p.ledger == chain[m].ledger
  {
    hide Step;
    hide PacketsOf;
  }

  lemma RequestsApart(chain: History, m: nat, n: nat, p: Packet, q: Packet, col: Column)
    requires m < n < |chain| && chain[m].call.OnValidation? && chain[n].call.OnValidation?
    requires ValidatesAlone(chain, m, p) && ValidatesAlone(chain, n, q) && EffectOn(col, p).Create?
    ensures !EffectOn(col, q).Create?
  {
    hide Step;
    hide WorldAt;
    hide ValidatesAlone;
    ValidationEvent(chain, m, p);
    ValidationEvent(chain, n, q);
    ValidationsGrow(chain, m + 1, n);
  }

  lemma ValidationNotAhead(db: Db, chain: History, i: nat, j: nat, col: Column)
    requires Chain.Ordered(chain) && i <= j <= |chain| && ValMatch(db, WorldAt(chain, i).val, LastLedger(chain, i))
    ensures NotAhead(Read(db, col), Between(chain, ValidationContract, i, j), col)
  {
    hide Step;
    hide Between;
    hide PacketsOf;
    hide ValidatesAlone;
    NotOlder(chain, ValidationContract, i, j);
    forall p | p in Between(chain, ValidationContract, i, j) && EffectOn(col, p).Guarded? && Read(db, col).Some?
      ensures NotNewer(Read(db, col).value.at, p.ledger)
    {
      var m := CallOf(chain, ValidationContract, i, j, p);
      ValidationPacket(chain, m, p);
      ValidationEvent(chain, m, p);
      var s, h := WorldAt(chain, i).val, p.data.hash;
      assert h in s.validations.Keys;
      assert StatusMatches(db.validations[h], s.validations[h], LastLedger(chain, i));
    }
  }

  lemma ValidationStepFindsRow(db: Db, chain: History, m: nat)
    requires m < |chain| && ValMatch(db, WorldAt(chain, m).val, LastLedger(chain, m))
    requires ApplyAll(db, Between(chain, ValidationContract, m, m + 1)).Some?
    ensures NoneMissing(db, Between(chain, ValidationContract, m, m + 1))
  {
    hide Step;
    hide Apply;
    hide Between;
    hide PacketsOf;
    hide ValidatesAlone;
    var ps := Between(chain, ValidationContract, m, m + 1);
    BetweenOne(chain, ValidationContract, m);
    forall p | p in ps ensures !RowMissing(db, p) && InBounds(p) && ps == [p] {
      ValidationPacket(chain, m, p);
      ValidationEvent(chain, m, p);
      OneValidation(chain, m, p);
      assert forall h | h in WorldAt(chain, m).val.validations :: h in db.validations.Keys;
    }
    if ps != [] {
      assert ps[0] in ps;
      assert ps[..0] == [];
    }
  }

  lemma {:induction false} ValidationFindsRows(db: Db, chain: History, i: nat, j: nat)
    requires Chain.Ordered(chain) && i <= j <= |chain| && AgentsKnown(db, chain, j)
    requires ValMatch(db, WorldAt(chain, i).val, LastLedger(chain, i))
    ensures NoneMissing(db, Between(chain, ValidationContract, i, j))
    decreases j - i
  {
    hide ValMatch;
    hide Apply;
    hide Step;
    hide Between;
    if i == j {
      NoCalls(chain, ValidationContract, i);
    } else {
      OwnersGrow(chain, j - 1, j);
      ValidationFindsRows(db, chain, i, j - 1);
      var db1 := ValidationBatch(db, chain, i, j - 1);
      var db2 := ValidationStep(db1, chain, j - 1);
      BetweenSplits(chain, ValidationContract, i, j - 1, j);
      ValidationStepFindsRow(db1, chain, j - 1);
      NoneMissingConcat(db, Between(chain, ValidationContract, i, j - 1), Between(chain, ValidationContract, j - 1, j));
    }
  }

  lemma ValidationOrderly(db: Db, chain: History, i: nat, j: nat)
    requires Chain.Ordered(chain) && i <= j <= |chain| && AgentsKnown(db, chain, j) && NoStrays(db)
    requires ValMatch(db, WorldAt(chain, i).val, LastLedger(chain, i))
    ensures Orderly(db, Between(chain, ValidationContract, i, j))
  {
    hide ValMatch;
    hide Apply;
    hide Step;
    hide Between;
    hide NoneMissing;
    hide NotAhead;
    hide InLedgerOrder;
    hide EffectOn;
    var ps := Between(chain, ValidationContract, i, j);
    StretchSorted(chain, ValidationContract, i, j);
    SortedIsOrdered(ps);
    ValidationFindsRows(db, chain, i, j);
    forall col: Column ensures NotAhead(Read(db, col), ps, col) && CreatesAgree(ps, col) {
      ValidationNotAhead(db, chain, i, j, col);
      forall p, q | p in ps && q in ps && EffectOn(col, p).Create? && EffectOn(col, q).Create? ensures p == q {
        ValidationInsertsOnce(chain, i, j, p, q, col);
      }
    }
  }

  // ---------------------------------------------------------------- what the repaired tables are

  lemma {:induction false} IntervalSize(numbers: set<nat>, m: nat)
    requires forall n: nat :: n in numbers <==> 1 <= n <= m
    ensures |numbers| == m
  {
    if m == 0 {
      assert numbers == {};
    } else {
      var rest := numbers - {m};
      assert forall n: nat :: n in rest <==> 1 <= n <= m - 1;
      IntervalSize(rest, m - 1);
      assert numbers == rest + {m};
    }
  }

  lemma MatchIsDense(db: Db, s: Reputation.State, next: nat)
    requires RepMatch(db, s, next)
    ensures Dense(db.responses)
    ensures forall k: FeedbackKey :: |Numbers(db.responses, k)| == Reputation.ResponseCount(s, k)
  {
    hide Numbers;
    forall k: FeedbackKey ensures |Numbers(db.responses, k)| == Reputation.ResponseCount(s, k) {
      IntervalSize(Numbers(db.responses, k), Reputation.ResponseCount(s, k));
    }
  }

  function EventsUnder(responses: map<nat, ResponseRow>, k: FeedbackKey): set<nat> {
    set e | e in responses && responses[e].key == k
  }

  /** Distinct numbers: as many numbers as events. */
  lemma {:induction false} CountNumbers(responses: map<nat, ResponseRow>, k: FeedbackKey, es: set<nat>)
    requires es <= EventsUnder(responses, k)
    requires forall e, f :: e in responses && f in responses && e != f && responses[e].key == responses[f].key ==>
               responses[e].number != responses[f].number
    ensures |set e | e in es :: responses[e].number| == |es|
    decreases es
  {
    if es != {} {
      var e :| e in es;
      var rest := es - {e};
      CountNumbers(responses, k, rest);
      var image := set f | f in rest :: responses[f].number;
      assert responses[e].number !in image;
      assert (set f | f in es :: responses[f].number) == image + {responses[e].number};
    }
  }

  lemma NumbersPerEvent(responses: map<nat, ResponseRow>, k: FeedbackKey)
    requires Dense(responses)
    ensures |Numbers(responses, k)| == |EventsUnder(responses, k)|
  {
    var es := EventsUnder(responses, k);
    CountNumbers(responses, k, es);
    assert Numbers(responses, k) == set e | e in es :: responses[e].number;
  }

  lemma SameRepMatch(clean: Db, repaired: Db, s: Reputation.State, next: nat)
    requires RepMatch(clean, s, next) && SameTables(clean, repaired) && Dense(repaired.responses)
    ensures RepMatch(repaired, s, next)
  {
    hide Numbers;
    MatchIsDense(clean, s, next);
    forall k: FeedbackKey, n: nat ensures n in Numbers(repaired.responses, k) <==> 1 <= n <= Reputation.ResponseCount(s, k) {
      NumbersPerEvent(clean.responses, k);
      NumbersPerEvent(repaired.responses, k);
      SameEvents(clean, repaired, k);
    }
  }

  lemma SameEvents(clean: Db, repaired: Db, k: FeedbackKey)
    requires SameTables(clean, repaired)
    ensures EventsUnder(repaired.responses, k) == EventsUnder(clean.responses, k)
  {
    assert forall e :: e in clean.responses.Keys <==> e in repaired.responses.Keys;
  }

  lemma SameProjected(clean: Db, repaired: Db, chain: History, at: Progress)
    requires InOrder(chain, at) && Projected(clean, chain, at) && SameTables(clean, repaired) && Dense(repaired.responses)
    ensures Projected(repaired, chain, at)
  {
    hide Step;
    hide Dense;
    hide RepMatch;
    SameRepMatch(clean, repaired, WorldAt(chain, at.rep).rep, FirstId(chain, at.rep));
    SameIdMatch(clean, repaired, WorldAt(chain, at.id).id, LastLedger(chain, at.id));
  }

  lemma SameIdMatch(clean: Db, repaired: Db, s: Identity.State, bound: nat)
    requires IdMatch(clean, s, bound) && SameTables(clean, repaired)
    ensures IdMatch(repaired, s, bound)
  {
    forall id | id in s.owners ensures AgentMatches(repaired.agents[id], s, id, bound) {
      assert AgentMatches(clean.agents[id], s, id, bound);
    }
  }

  /** A run's batch is orderly over tables that hold the registries' state at its checkpoint. */
  lemma BatchOrderly(db: Db, chain: History, at: Progress, c: Contract, n: nat)
    requires Chain.Ordered(chain) && LawfulStep(chain, at, c, n) && Projected(db, chain, at)
    ensures Orderly(db, ParentsFirst(Between(chain, c, Of(at, c), n)))
  {
    hide Step;
    hide Apply;
    hide Between;
    hide IdMatch;
    hide RepMatch;
    hide ValMatch;
    hide Orderly;
    hide NoStrays;
    hide Identity.Inv;
    hide Reputation.Inv;
    hide Validation.Inv;
    WorldInv(chain, at.id);
    MatchedNoStrays(db, WorldAt(chain, at.id).id, LastLedger(chain, at.id));
    MatchedAgents(db, WorldAt(chain, at.id).id, LastLedger(chain, at.id));
    match c
    case IdentityContract => IdentityOrderly(db, chain, at.id, n);
    case ReputationContract =>
      OwnersGrow(chain, n, at.id);
      ReputationOrderly(db, chain, at.rep, n);
      var _ := ReputationBatch(db, chain, at.rep, n);
      NoRegistrations(Between(chain, c, at.rep, n));
    case ValidationContract =>
      OwnersGrow(chain, n, at.id);
      ValidationOrderly(db, chain, at.val, n);
      var _ := ValidationBatch(db, chain, at.val, n);
      NoRegistrations(Between(chain, c, at.val, n));
  }

  lemma ProjectedIsDense(db: Db, chain: History, at: Progress)
    requires InOrder(chain, at) && Projected(db, chain, at)
    ensures Dense(db.responses)
  {
    hide Dense;
    hide Step;
    MatchIsDense(db, WorldAt(chain, at.rep).rep, FirstId(chain, at.rep));
  }

  lemma {:induction false} WriteOrderHas(ps: seq<Packet>)
    ensures forall p | p in ps :: p in ParentsFirst(ps)
  {
    if ps != [] {
      WriteOrderHas(ps[1..]);
      assert ps == [ps[0]] + ps[1..];
    }
  }

  // ---------------------------------------------------------------- no dead letters

  lemma FoundStaysFound(db: Db, later: Db, p: Packet)
    requires RowsKept(db, later) && !RowMissing(db, p)
    ensures !RowMissing(later, p)
  {
  }

  /** After a stretch of a run in order, every update of the stretch has its row. */
  lemma NoOrphans(db: Db, ps: seq<Packet>)
    requires NoneMissing(db, ps)
    ensures Orphans(ApplyAll(db, ps).value, ps) == {}
  {
    hide Apply;
    hide RowMissing;
    hide RowsKept;
    var final := ApplyAll(db, ps).value;
    forall p | p in ps ensures !RowMissing(final, p) {
      var k :| 0 <= k < |ps| && ps[k] == p;
      var before := ApplyAll(db, ps[..k]).value;
      assert ps == ps[..k] + ps[k..];
      ApplyAllConcat(db, ps[..k], ps[k..]);
      AllRowsStay(before, ps[k..]);
      FoundStaysFound(before, final, p);
    }
  }

  lemma NoneMissingFirst(db: Db, ps: seq<Packet>, qs: seq<Packet>)
    requires NoneMissing(db, ps + qs)
    ensures ApplyAll(db, ps).Some? && ApplyAll(ApplyAll(db, ps).value, qs).Some?
    ensures NoneMissing(db, ps) && NoneMissing(ApplyAll(db, ps).value, qs)
  {
    hide Apply;
    hide RowMissing;
    hide InBounds;
    NoneMissingLater(db, ps, qs);
    forall k | 0 <= k < |ps| ensures ApplyAll(db, ps[..k]).Some? && !RowMissing(ApplyAll(db, ps[..k]).value, ps[k]) {
      assert (ps + qs)[..k] == ps[..k] && (ps + qs)[k] == ps[k];
    }
  }

  lemma {:induction false} ChunksLeaveNoLetters(db: Db, ps: seq<Packet>, skip: bool)
    requires NoneMissing(db, ps)
    ensures PlayChunks(db, ps, skip) == Played(ApplyAll(db, ps).value, false, {})
    decreases |ps|
  {
    hide Apply;
    hide NoneMissing;
    hide Orphans;
    hide Play;
    if ps == [] {
      assert ApplyAll(db, ps) == Some(db);
    } else {
      var n := Min(BATCH_LIMIT, |ps|);
      assert ps == ps[..n] + ps[n..];
      NoneMissingFirst(db, ps[..n], ps[n..]);
      ApplyAllConcat(db, ps[..n], ps[n..]);
      CommittedBatch(db, ps[..n], skip);
      NoOrphans(db, ps[..n]);
      ChunksLeaveNoLetters(ApplyAll(db, ps[..n]).value, ps[n..], skip);
    }
  }

  /** No event of a lawful history is ever deferred, skipped or dead-lettered by an undisturbed indexer. */
  lemma NoDeadLetters(db: Db, chain: History, at: Progress, c: Contract, n: nat, skip: bool)
    requires Chain.Ordered(chain) && LawfulStep(chain, at, c, n) && Projected(db, chain, at)
    ensures var ps := Between(chain, c, Of(at, c), n);
            && Unreadable(ps) == {} && WriteOrder(ps) == ParentsFirst(ps)
            && !PlayChunks(db, WriteOrder(ps), skip).stopped && PlayChunks(db, WriteOrder(ps), skip).letters == {}
  {
    hide Step;
    hide Apply;
    hide Between;
    hide Projected;
    hide PlayChunks;
    hide ParentsFirst;
    hide InLedgerOrder;
    hide NotAhead;
    hide NoneMissing;
    var ps := Between(chain, c, Of(at, c), n);
    var db' := BatchProjects(db, chain, at, c, n);
    ParsedAll(ps);
    BatchOrderly(db, chain, at, c, n);
    ChunksLeaveNoLetters(db, ParentsFirst(ps), skip);
  }
}
