// Any lawful order of batches brings the tables to the registries' state, without one failed write.
module EndToEnd {
  import opened Basics
  import opened Events
  import opened Chain
  import opened Tables
  import opened Projection
  import opened Dependents
  import Identity
  import Reputation
  import Validation

  /** Agents are never removed. */
  lemma {:induction false} OwnersGrow(chain: History, m: nat, n: nat)
    requires m <= n <= |chain|
    ensures WorldAt(chain, m).id.owners.Keys <= WorldAt(chain, n).id.owners.Keys
    decreases n
  {
    if m < n {
      OwnersGrow(chain, m, n - 1);
      OwnersGrowOnce(WorldAt(chain, n - 1), chain[n - 1]);
    }
  }

  lemma OwnersGrowOnce(w: World, tx: Tx)
    ensures w.id.owners.Keys <= Step(w, tx).0.id.owners.Keys
  {
    if tx.call.OnIdentity? {
      match tx.call.idCall
      case Register(caller) => PutAllSlots(Minted(w.id, caller, None), w.id.next, []);
      case RegisterWithUri(caller, uri) => PutAllSlots(Minted(w.id, caller, Some(uri)), w.id.next, []);
      case RegisterFull(caller, uri, entries) => PutAllSlots(Minted(w.id, caller, Some(uri)), w.id.next, entries);
      case _ =>
    }
  }

  lemma RepMatchLater(db: Db, s: Reputation.State, next: nat, later: nat)
    requires RepMatch(db, s, next) && next <= later
    ensures RepMatch(db, s, later)
  {
  }

  lemma ValMatchLater(db: Db, s: Validation.State, bound: nat, later: nat)
    requires ValMatch(db, s, bound) && bound <= later
    ensures ValMatch(db, s, later)
  {
    forall h | h in s.validations ensures StatusMatches(db.validations[h], s.validations[h], later) {
      assert StatusMatches(db.validations[h], s.validations[h], bound);
    }
  }

  ghost predicate AgentsKnown(db: Db, chain: History, n: nat)
    requires n <= |chain|
  {
    WorldAt(chain, n).id.owners.Keys <= db.agents.Keys
  }

  lemma PublishEvent(e: Event, first: nat, ledger: nat)
    ensures Number([e], first, ledger) == [Packet(first, ledger, e)]
  {
  }

  // ---------------------------------------------------------------- the reputation stream

  lemma EmitsOne(s: Reputation.State, call: Reputation.Call, known: bool, self: bool)
    requires Reputation.Exec(s, call, known, self).Done?
    ensures var o := Reputation.Exec(s, call, known, self); |o.emitted| == 1 && o.emitted == [o.emitted[0]]
  {
  }

  lemma ReputationCall(db: Db, chain: History, n: nat) returns (db': Db)
    requires n < |chain| && chain[n].call.OnReputation? && AgentsKnown(db, chain, n)
    requires RepMatch(db, WorldAt(chain, n).rep, FirstId(chain, n))
    ensures ApplyAll(db, PacketsOf(chain, n)) == Some(db')
    ensures forall q | q in PacketsOf(chain, n) :: IsDependentEvent(q.data)
    ensures RepMatch(db', WorldAt(chain, n + 1).rep, FirstId(chain, n + 1))
    ensures SameIdentity(db, db') && db'.validations == db.validations
  {
    hide RepMatch;
    hide Apply;
    hide Reputation.Exec;
    hide Identity.Exec;
    hide Validation.Exec;
    hide Identity.Inv;
    hide Reputation.Inv;
    hide Validation.Inv;
    hide Controls;
    var w, tx := WorldAt(chain, n), chain[n];
    var call := tx.call.repCall;
    var known, self := call.agentId in w.id.owners, Controls(w.id, call.caller, call.agentId, tx.call.approved);
    var o := Reputation.Exec(w.rep, call, known, self);
    if o.Done? {
      WorldInv(chain, n);
      EmitsOne(w.rep, call, known, self);
      var p := Packet(FirstId(chain, n), tx.ledger, o.emitted[0]);
      PublishEvent(o.emitted[0], FirstId(chain, n), tx.ledger);
      ReputationCallApplied(db, w.rep, call, known, self, p);
      ApplyOne(db, p);
      db' := Apply(db, p).db;
    } else {
      db' := db;
    }
  }

  lemma ReputationStep(db: Db, chain: History, n: nat) returns (db': Db)
    requires n < |chain| && AgentsKnown(db, chain, n)
    requires RepMatch(db, WorldAt(chain, n).rep, FirstId(chain, n))
    ensures var qs := Between(chain, ReputationContract, n, n + 1);
            && ApplyAll(db, qs) == Some(db')
            && (forall q | q in qs :: IsDependentEvent(q.data))
            && RepMatch(db', WorldAt(chain, n + 1).rep, FirstId(chain, n + 1))
            && SameIdentity(db, db') && db'.validations == db.validations
  {
    hide RepMatch;
    hide Apply;
    hide Between;
    BetweenOne(chain, ReputationContract, n);
    if chain[n].call.OnReputation? {
      db' := ReputationCall(db, chain, n);
    } else {
      db' := db;
      RepMatchLater(db, WorldAt(chain, n).rep, FirstId(chain, n), FirstId(chain, n + 1));
    }
  }

  lemma {:induction false} ReputationBatch(db: Db, chain: History, i: nat, j: nat) returns (db': Db)
    requires i <= j <= |chain| && AgentsKnown(db, chain, j)
    requires RepMatch(db, WorldAt(chain, i).rep, FirstId(chain, i))
    ensures var ps := Between(chain, ReputationContract, i, j);
            && ApplyAll(db, ps) == Some(db')
            && (forall p | p in ps :: IsDependentEvent(p.data))
            && RepMatch(db', WorldAt(chain, j).rep, FirstId(chain, j))
            && SameIdentity(db, db') && db'.validations == db.validations
    decreases j - i
  {
    hide RepMatch;
    hide Apply;
    hide Step;
    if i == j {
      db' := db;
    } else {
      OwnersGrow(chain, j - 1, j);
      var db1 := ReputationBatch(db, chain, i, j - 1);
      db' := ReputationStep(db1, chain, j - 1);
      BetweenSplits(chain, ReputationContract, i, j - 1, j);
      ApplyAllConcat(db, Between(chain, ReputationContract, i, j - 1), Between(chain, ReputationContract, j - 1, j));
    }
  }

  // ---------------------------------------------------------------- the validation stream

  lemma ValidationEmitsOne(s: Validation.State, call: Validation.Call, known: bool, allowed: bool, ledger: nat)
    requires Validation.Exec(s, call, known, allowed, ledger).Done?
    ensures var o := Validation.Exec(s, call, known, allowed, ledger); |o.emitted| == 1 && o.emitted == [o.emitted[0]]
  {
  }

  lemma ValidationCall(db: Db, chain: History, n: nat) returns (db': Db)
    requires Ordered(chain) && n < |chain| && chain[n].call.OnValidation? && AgentsKnown(db, chain, n)
    requires ValMatch(db, WorldAt(chain, n).val, LastLedger(chain, n))
    ensures ApplyAll(db, PacketsOf(chain, n)) == Some(db')
    ensures forall q | q in PacketsOf(chain, n) :: IsDependentEvent(q.data)
    ensures ValMatch(db', WorldAt(chain, n + 1).val, LastLedger(chain, n + 1))
    ensures SameIdentity(db, db') && db'.feedback == db.feedback && db'.responses == db.responses
  {
    hide ValMatch;
    hide Apply;
    hide Reputation.Exec;
    hide Identity.Exec;
    hide Validation.Exec;
    hide Controls;
    var w, tx := WorldAt(chain, n), chain[n];
    var call := tx.call.valCall;
    var known := call.ValidationRequest? && call.agentId in w.id.owners;
    var allowed := call.ValidationRequest? && Controls(w.id, call.caller, call.agentId, tx.call.approved);
    var o := Validation.Exec(w.val, call, known, allowed, tx.ledger);
    ValMatchLater(db, w.val, LastLedger(chain, n), tx.ledger);
    if o.Done? {
      ValidationEmitsOne(w.val, call, known, allowed, tx.ledger);
      var p := Packet(FirstId(chain, n), tx.ledger, o.emitted[0]);
      PublishEvent(o.emitted[0], FirstId(chain, n), tx.ledger);
      ValidationCallApplied(db, w.val, tx.ledger, call, known, allowed, p);
      ApplyOne(db, p);
      db' := Apply(db, p).db;
    } else {
      db' := db;
    }
  }

  lemma ValidationStep(db: Db, chain: History, n: nat) returns (db': Db)
    requires Ordered(chain) && n < |chain| && AgentsKnown(db, chain, n)
    requires ValMatch(db, WorldAt(chain, n).val, LastLedger(chain, n))
    ensures var qs := Between(chain, ValidationContract, n, n + 1);
            && ApplyAll(db, qs) == Some(db')
            && (forall q | q in qs :: IsDependentEvent(q.data))
            && ValMatch(db', WorldAt(chain, n + 1).val, LastLedger(chain, n + 1))
            && SameIdentity(db, db') && db'.feedback == db.feedback && db'.responses == db.responses
  {
    hide ValMatch;
    hide Apply;
    hide Between;
    BetweenOne(chain, ValidationContract, n);
    if chain[n].call.OnValidation? {
      db' := ValidationCall(db, chain, n);
    } else {
      db' := db;
      ValMatchLater(db, WorldAt(chain, n).val, LastLedger(chain, n), chain[n].ledger);
    }
  }

  lemma {:induction false} ValidationBatch(db: Db, chain: History, i: nat, j: nat) returns (db': Db)
    requires Ordered(chain) && i <= j <= |chain| && AgentsKnown(db, chain, j)
    requires ValMatch(db, WorldAt(chain, i).val, LastLedger(chain, i))
    ensures var ps := Between(chain, ValidationContract, i, j);
            && ApplyAll(db, ps) == Some(db')
            && (forall p | p in ps :: IsDependentEvent(p.data))
            && ValMatch(db', WorldAt(chain, j).val, LastLedger(chain, j))
            && SameIdentity(db, db') && db'.feedback == db.feedback && db'.responses == db.responses
    decreases j - i
  {
    hide ValMatch;
    hide Apply;
    hide Step;
    if i == j {
      db' := db;
    } else {
      OwnersGrow(chain, j - 1, j);
      var db1 := ValidationBatch(db, chain, i, j - 1);
      db' := ValidationStep(db1, chain, j - 1);
      BetweenSplits(chain, ValidationContract, i, j - 1, j);
      ApplyAllConcat(db, Between(chain, ValidationContract, i, j - 1), Between(chain, ValidationContract, j - 1, j));
    }
  }

  // ---------------------------------------------------------------- all three streams

  lemma RepMatchFrame(db: Db, db': Db, s: Reputation.State, next: nat)
    requires RepMatch(db, s, next) && db'.feedback == db.feedback && db'.responses == db.responses
    ensures RepMatch(db', s, next)
  {
  }

  lemma ValMatchFrame(db: Db, db': Db, s: Validation.State, bound: nat)
    requires ValMatch(db, s, bound) && db'.validations == db.validations
    ensures ValMatch(db', s, bound)
  {
  }

  lemma IdMatchFrame(db: Db, db': Db, s: Identity.State, bound: nat)
    requires IdMatch(db, s, bound) && SameIdentity(db, db')
    ensures IdMatch(db', s, bound)
  {
  }

  /** A step of the indexer: bring contract `c` up to call `n`; dependents stay behind identity. */
  predicate LawfulStep(chain: History, at: Progress, c: Contract, n: nat) {
    InOrder(chain, at) && Of(at, c) <= n <= |chain| && (c != IdentityContract ==> n <= at.id)
  }

  /** One batch of any contract, in the writer's order: every write succeeds and the tables stay projected. */
  lemma BatchProjects(db: Db, chain: History, at: Progress, c: Contract, n: nat) returns (db': Db)
    requires Ordered(chain) && LawfulStep(chain, at, c, n) && Projected(db, chain, at)
    ensures ApplyAll(db, ParentsFirst(Between(chain, c, Of(at, c), n))) == Some(db')
    ensures InOrder(chain, Advance(at, c, n)) && Projected(db', chain, Advance(at, c, n))
    ensures forall p | p in Between(chain, c, Of(at, c), n) :: IsIdentityEvent(p.data) || IsDependentEvent(p.data)
  {
    hide IdMatch;
    hide RepMatch;
    hide ValMatch;
    hide Apply;
    hide Step;
    MatchedAgents(db, WorldAt(chain, at.id).id, LastLedger(chain, at.id));
    match c
    case IdentityContract =>
      db' := IdentityBatch(db, chain, at.id, n);
      RepMatchFrame(db, db', WorldAt(chain, at.rep).rep, FirstId(chain, at.rep));
      ValMatchFrame(db, db', WorldAt(chain, at.val).val, LastLedger(chain, at.val));
    case ReputationContract =>
      OwnersGrow(chain, n, at.id);
      db' := ReputationBatch(db, chain, at.rep, n);
      NoRegistrations(Between(chain, c, at.rep, n));
      IdMatchFrame(db, db', WorldAt(chain, at.id).id, LastLedger(chain, at.id));
      ValMatchFrame(db, db', WorldAt(chain, at.val).val, LastLedger(chain, at.val));
    case ValidationContract =>
      OwnersGrow(chain, n, at.id);
      db' := ValidationBatch(db, chain, at.val, n);
      NoRegistrations(Between(chain, c, at.val, n));
      IdMatchFrame(db, db', WorldAt(chain, at.id).id, LastLedger(chain, at.id));
      RepMatchFrame(db, db', WorldAt(chain, at.rep).rep, FirstId(chain, at.rep));
  }

  lemma EmptyIsProjected(chain: History)
    ensures Projected(EMPTY, chain, Progress(0, 0, 0))
  {
    assert forall k: FeedbackKey :: Numbers(EMPTY.responses, k) == {};
  }

  datatype Stage = Stage(contract: Contract, upTo: nat)

  function Final(at: Progress, plan: seq<Stage>): Progress
    decreases plan
  {
    if plan == [] then at else Final(Advance(at, plan[0].contract, plan[0].upTo), plan[1..])
  }

  predicate LawfulPlan(chain: History, at: Progress, plan: seq<Stage>)
    decreases plan
  {
    InOrder(chain, at) &&
    (plan != [] ==>
       && LawfulStep(chain, at, plan[0].contract, plan[0].upTo)
       && LawfulPlan(chain, Advance(at, plan[0].contract, plan[0].upTo), plan[1..]))
  }

  /** Runs a plan's batches; None as soon as one write fails. */
  function Index(db: Db, chain: History, at: Progress, plan: seq<Stage>): Option<Db>
    requires LawfulPlan(chain, at, plan)
    decreases plan
  {
    if plan == [] then Some(db)
    else
      var m := plan[0];
      var batch := ApplyAll(db, ParentsFirst(Between(chain, m.contract, Of(at, m.contract), m.upTo)));
      if batch.None? then None else Index(batch.value, chain, Advance(at, m.contract, m.upTo), plan[1..])
  }

  /**
   * End to end: for every history of the three registries and every lawful sequence of batches, no
   * write fails and the tables end up equal to the registries' state at the calls reached.
   */
  lemma {:induction false} TablesFollowRegistries(db: Db, chain: History, at: Progress, plan: seq<Stage>)
    requires Ordered(chain) && LawfulPlan(chain, at, plan) && Projected(db, chain, at)
    ensures Index(db, chain, at, plan).Some?
    ensures LawfulPlan(chain, Final(at, plan), [])
    ensures Projected(Index(db, chain, at, plan).value, chain, Final(at, plan))
    decreases plan
  {
    hide Projected;
    hide Apply;
    hide Step;
    if plan != [] {
      var m := plan[0];
      var db' := BatchProjects(db, chain, at, m.contract, m.upTo);
      TablesFollowRegistries(db', chain, Advance(at, m.contract, m.upTo), plan[1..]);
    }
  }

  /** Which batches are lawful: forward, and for a dependent no further than identity. */
  lemma StepsAllowed(chain: History, at: Progress, c: Contract, n: nat)
    requires InOrder(chain, at) && Of(at, c) <= n <= |chain| && (c != IdentityContract ==> n <= at.id)
    ensures LawfulStep(chain, at, c, n) && InOrder(chain, Advance(at, c, n))
  {
  }

  /** From empty tables, identity's whole stream and then its dependents': the tables equal the registries' last state. */
  lemma WholeHistoryIndexed(chain: History) returns (plan: seq<Stage>)
    requires Ordered(chain)
    ensures plan == [Stage(IdentityContract, |chain|), Stage(ReputationContract, |chain|), Stage(ValidationContract, |chain|)]
    ensures LawfulPlan(chain, Progress(0, 0, 0), plan)
    ensures var tables := Index(EMPTY, chain, Progress(0, 0, 0), plan);
            tables.Some? && Projected(tables.value, chain, Progress(|chain|, |chain|, |chain|))
  {
    hide Projected;
    hide Index;
    var n := |chain|;
    plan := [Stage(IdentityContract, n), Stage(ReputationContract, n), Stage(ValidationContract, n)];
    var a, b, c := Progress(n, 0, 0), Progress(n, n, 0), Progress(n, n, n);
    assert plan[1..][1..] == [plan[2]] && plan[1..][0] == plan[1] && plan[1..][1..][1..] == [];
    assert LawfulPlan(chain, c, plan[1..][1..][1..]);
    assert LawfulPlan(chain, b, plan[1..][1..]);
    assert LawfulPlan(chain, a, plan[1..]);
    EmptyIsProjected(chain);
    TablesFollowRegistries(EMPTY, chain, Progress(0, 0, 0), plan);
    assert Final(b, plan[1..][1..]) == Final(c, plan[1..][1..][1..]) == c;
    assert Final(a, plan[1..]) == c;
  }
}
