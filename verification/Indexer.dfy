// A whole run: the three scans in order, identity first, against any lawful RPC.
module Indexer {
  import opened Basics
  import opened Events
  import opened Chain
  import opened Ledgers
  import opened Tables
  import opened Projection
  import opened Healing
  import opened Writer
  import opened Locks
  import opened Store
  import opened Rpc
  import opened Scan
  import opened Feed

  // ---------------------------------------------------------------- scans keep the projection

  function Reached(chain: History, state: map<Contract, Checkpoint>): Progress
    requires forall c: Contract :: c in state
  {
    Progress(CallsUpTo(chain, state[IdentityContract].lastLedger),
             CallsUpTo(chain, state[ReputationContract].lastLedger),
             CallsUpTo(chain, state[ValidationContract].lastLedger))
  }

  /** Dependents never overtake identity. */
  predicate BehindIdentity(state: map<Contract, Checkpoint>)
    requires forall c: Contract :: c in state
  {
    forall c: Contract :: state[c].lastLedger <= state[IdentityContract].lastLedger
  }

  // ---------------------------------------------------------------- writes heal

  /** One complete write of a contract's next ledgers: nothing stops it, and the tables stay healable. */
  lemma CutHeals(db: Db, chain: History, at: Progress, upto: Progress, c: Contract, after: nat, cut: Cut)
    requires Chain.Ordered(chain) && Healable(db, chain, at, upto)
    requires Of(at, c) == CallsUpTo(chain, after) && after <= cut.upTo
    requires c != IdentityContract ==> CallsUpTo(chain, cut.upTo) <= at.id
    ensures var w, n := WriteCut(db, Stream(chain, c), after, cut), CallsUpTo(chain, cut.upTo);
            && !w.stopped && Healable(w.db, chain, Advance(at, c, n), Raise(upto, c, n))
            && CallsUpTo(chain, after) <= n && ApplyAll(db, ParentsFirst(Between(chain, c, Of(at, c), n))) == Some(w.db)
  {
    hide Projected;
    hide NearTables;
    hide Apply;
    hide Window;
    hide Between;
    hide PlayChunks;
    WindowIsBetween(chain, c, after, cut.upTo);
    var n := CallsUpTo(chain, cut.upTo);
    var ps := Between(chain, c, Of(at, c), n);
    BatchHeals(db, chain, at, upto, c, n);
    ParsedAll(ps);
    CommittedBatch(db, ParentsFirst(ps), cut.skip);
    ChunksDoNotShow(db, ParentsFirst(ps), cut.skip);
  }

  /** A write cut short leaves healable tables, ahead of the checkpoint by what it wrote. */
  lemma BrokenCutHealable(db: Db, chain: History, at: Progress, upto: Progress, c: Contract, after: nat, cut: Cut, now: Db)
    requires Chain.Ordered(chain) && Healable(db, chain, at, upto)
    requires Of(at, c) == CallsUpTo(chain, after) && after <= cut.upTo
    requires c != IdentityContract ==> CallsUpTo(chain, cut.upTo) <= at.id
    requires CutBroken(db, Stream(chain, c), after, cut, now)
    ensures Healable(now, chain, at, Raise(upto, c, CallsUpTo(chain, cut.upTo)))
  {
    hide Projected;
    hide NearTables;
    hide Apply;
    hide Window;
    hide Between;
    hide Play;
    WindowIsBetween(chain, c, after, cut.upTo);
    var n := CallsUpTo(chain, cut.upTo);
    var ps := Between(chain, c, Of(at, c), n);
    BatchHeals(db, chain, at, upto, c, n);
    ParsedAll(ps);
    WriteOrderOnly(ps);
    var k: nat :| k <= |ParentsFirst(ps)| && now == Play(db, ParentsFirst(ps)[..k], cut.skip).db;
    DeadRunIsHealable(db, chain, at, upto, c, n, ParentsFirst(ps)[..k], cut.skip);
  }

  /** Any lawful cuts of one contract's stream. */
  lemma {:induction false} CutsHeal(db: Db, chain: History, at: Progress, upto: Progress, c: Contract, start: Checkpoint, base: nat,
                                    cuts: seq<Cut>)
    requires Chain.Ordered(chain) && Healable(db, chain, at, upto)
    requires Of(at, c) == CallsUpTo(chain, base) && LawfulCuts(start, base, cuts)
    requires c != IdentityContract ==> CallsUpTo(chain, Bound(base, cuts)) <= at.id
    ensures var n := CallsUpTo(chain, Bound(base, cuts));
            Healable(Replayed(db, Stream(chain, c), base, cuts), chain, Advance(at, c, n), Raise(upto, c, n))
    decreases |cuts|
  {
    hide Projected;
    hide NearTables;
    hide WriteCut;
    hide CallsUpTo;
    hide Stream;
    if cuts == [] {
      assert Advance(at, c, Of(at, c)) == at && Raise(upto, c, Of(at, c)) == upto;
    } else {
      var k := |cuts| - 1;
      CutsShorter(start, base, cuts);
      var before, n := CallsUpTo(chain, Bound(base, cuts[..k])), CallsUpTo(chain, cuts[k].upTo);
      CallsMonotone(chain, Bound(base, cuts[..k]), cuts[k].upTo);
      CutsHeal(db, chain, at, upto, c, start, base, cuts[..k]);
      var at1, upto1 := Advance(at, c, before), Raise(upto, c, before);
      CutHeals(Replayed(db, Stream(chain, c), base, cuts[..k]), chain, at1, upto1, c, Bound(base, cuts[..k]), cuts[k]);
      assert Advance(at1, c, n) == Advance(at, c, n) && Raise(upto1, c, n) == Raise(upto, c, n);
    }
  }

  /** A write of a lawful history's next ledgers leaves no dead letter. */
  lemma CutLeavesNoLetters(db: Db, chain: History, at: Progress, upto: Progress, c: Contract, after: nat, cut: Cut)
    requires Chain.Ordered(chain) && Healable(db, chain, at, upto)
    requires Of(at, c) == CallsUpTo(chain, after) && after <= cut.upTo
    requires c != IdentityContract ==> CallsUpTo(chain, cut.upTo) <= at.id
    ensures CutLetters(db, Stream(chain, c), after, cut) == {}
  {
    hide Projected;
    hide NearTables;
    hide Apply;
    hide Window;
    hide Between;
    hide PlayChunks;
    hide WriteOrder;
    WindowIsBetween(chain, c, after, cut.upTo);
    var n := CallsUpTo(chain, cut.upTo);
    var ps := Between(chain, c, Of(at, c), n);
    BatchHeals(db, chain, at, upto, c, n);
    OrderOfParsed(ps);
    BatchLeavesNoLetters(db, chain, at, upto, c, n, cut.skip);
  }

  lemma OrderOfParsed(ps: seq<Packet>)
    requires forall p | p in ps :: Readable(p)
    ensures WriteOrder(ps) == ParentsFirst(ps) && Unreadable(ps) == {}
  {
    ParsedAll(ps);
  }

  /** Nor does one cut short. */
  lemma BrokenCutLeavesNoLetters(db: Db, chain: History, at: Progress, upto: Progress, c: Contract, after: nat, cut: Cut,
                                 was: Letters, now: Db, letters: Letters)
    requires Chain.Ordered(chain) && Healable(db, chain, at, upto)
    requires Of(at, c) == CallsUpTo(chain, after) && after <= cut.upTo
    requires c != IdentityContract ==> CallsUpTo(chain, cut.upTo) <= at.id
    requires BrokenOff(db, Window(Stream(chain, c), after, cut.upTo), cut.skip, was, now, letters)
    ensures letters == was
  {
    hide Healable;
    hide Window;
    hide PlayChunks;
    hide PartLetters;
    hide WriteOrder;
    hide Play;
    hide Unreadable;
    var events := Window(Stream(chain, c), after, cut.upTo);
    CutHeals(db, chain, at, upto, c, after, cut);
    CutLeavesNoLetters(db, chain, at, upto, c, after, cut);
    if letters != was + EventLetters(db, events, cut.skip) {
      var n: nat :| n <= |WriteOrder(events)| && PartDone(db, events, cut.skip, was, now, letters, n);
      PartOfLetters(db, WriteOrder(events), n, cut.skip);
    }
  }

  /** Nor do any lawful cuts. */
  lemma {:induction false} CutsLeaveNoLetters(db: Db, chain: History, at: Progress, upto: Progress, c: Contract, start: Checkpoint,
                                              base: nat, cuts: seq<Cut>)
    requires Chain.Ordered(chain) && Healable(db, chain, at, upto)
    requires Of(at, c) == CallsUpTo(chain, base) && LawfulCuts(start, base, cuts)
    requires c != IdentityContract ==> CallsUpTo(chain, Bound(base, cuts)) <= at.id
    ensures LettersOf(db, Stream(chain, c), base, cuts) == {}
    decreases |cuts|
  {
    hide Healable;
    hide CutLetters;
    hide Replayed;
    hide CallsUpTo;
    hide Stream;
    if cuts != [] {
      var k := |cuts| - 1;
      CutsShorter(start, base, cuts);
      var before := CallsUpTo(chain, Bound(base, cuts[..k]));
      CallsMonotone(chain, Bound(base, cuts[..k]), cuts[k].upTo);
      CutsHeal(db, chain, at, upto, c, start, base, cuts[..k]);
      CutsLeaveNoLetters(db, chain, at, upto, c, start, base, cuts[..k]);
      CutLeavesNoLetters(Replayed(db, Stream(chain, c), base, cuts[..k]), chain, Advance(at, c, before), Raise(upto, c, before), c,
                         Bound(base, cuts[..k]), cuts[k]);
    }
  }

  lemma {:induction false} BoundGrows(start: Checkpoint, base: nat, cuts: seq<Cut>)
    requires LawfulCuts(start, base, cuts)
    ensures base <= Bound(base, cuts)
    decreases |cuts|
  {
    if cuts != [] {
      CutsShorter(start, base, cuts);
      BoundGrows(start, base, cuts[..|cuts| - 1]);
    }
  }

  /** Healable tables for the checkpoints of a state, and dependents behind identity. */
  ghost predicate Sound(tables: Db, chain: History, state: map<Contract, Checkpoint>, upto: Progress)
    requires forall c: Contract :: c in state
  {
    BehindIdentity(state) && Healable(tables, chain, Reached(chain, state), upto)
  }

  lemma ReachedMoves(chain: History, state: map<Contract, Checkpoint>, c: Contract, ck: Checkpoint)
    requires forall k: Contract :: k in state
    ensures Reached(chain, state[c := ck]) == Advance(Reached(chain, state), c, CallsUpTo(chain, ck.lastLedger))
  {
    hide CallsUpTo;
  }

  /** A finished, unclamped scan keeps the tables sound; a lawful history never defers it. */
  lemma ScanHeals(db: Db, chain: History, state: map<Contract, Checkpoint>, upto: Progress, c: Contract, head: nat, cuts: seq<Cut>,
                  now: Db, r: ScanResult)
    requires Chain.Ordered(chain) && (forall k: Contract :: k in state) && Sound(db, chain, state, upto)
    requires r.Finished? && ScanOutcome(db, Stream(chain, c), state[c], state[c].lastLedger, head, cuts, now, r)
    requires r.ck.lastLedger <= head || r.ck.lastLedger == state[c].lastLedger
    requires c != IdentityContract ==> head <= state[IdentityContract].lastLedger
    ensures r.stopped != Some(Deferred) && state[c].lastLedger <= r.ck.lastLedger
    ensures Sound(now, chain, state[c := r.ck], Raise(upto, c, CallsUpTo(chain, r.ck.lastLedger)))
  {
    hide Healable;
    hide WriteCut;
    hide CallsUpTo;
    var base, start := state[c].lastLedger, state[c];
    var at := Reached(chain, state);
    BoundGrows(start, base, cuts);
    if c != IdentityContract {
      CallsMonotone(chain, r.ck.lastLedger, state[IdentityContract].lastLedger);
    }
    CutsHeal(db, chain, at, upto, c, start, base, cuts);
    var n := CallsUpTo(chain, r.ck.lastLedger);
    StaysBehindUnclamped(state, c, head, r.ck);
    ReachedMoves(chain, state, c, r.ck);
    if r.stopped == Some(Deferred) {
      var before := Replayed(db, Stream(chain, c), base, cuts);
      var next: Cut :| DeferredBy(before, Stream(chain, c), r.ck.lastLedger, head, next, now);
      if c != IdentityContract {
        CallsMonotone(chain, next.upTo, state[IdentityContract].lastLedger);
      }
      CutHeals(before, chain, Advance(at, c, n), Raise(upto, c, n), c, r.ck.lastLedger, next);
    }
  }

  /** An unclamped scan over sound tables dead-letters nothing, however it ends. */
  lemma ScanLeavesNoLetters(db: Db, chain: History, state: map<Contract, Checkpoint>, upto: Progress, c: Contract, head: nat,
                            cuts: seq<Cut>, was: Letters, now: Db, r: ScanResult, last: Cut, letters: Letters)
    requires Chain.Ordered(chain) && (forall k: Contract :: k in state) && Sound(db, chain, state, upto)
    requires LawfulCuts(state[c], state[c].lastLedger, cuts)
    requires r.Finished? ==> Bound(state[c].lastLedger, cuts) <= head || Bound(state[c].lastLedger, cuts) == state[c].lastLedger
    requires c != IdentityContract ==> head <= state[IdentityContract].lastLedger
    requires Lettered(db, Stream(chain, c), state[c].lastLedger, head, cuts, was, r, last, now, letters)
    requires r.Finished? ==> r.stopped != Some(Deferred)
    ensures letters == was
  {
    hide Healable;
    hide BrokenOff;
    hide LettersOf;
    hide Replayed;
    hide CallsUpTo;
    hide LawfulCuts;
    hide Window;
    var base, at := state[c].lastLedger, Reached(chain, state);
    var after := Bound(base, cuts);
    BoundGrows(state[c], base, cuts);
    if c != IdentityContract {
      CallsMonotone(chain, after, state[IdentityContract].lastLedger);
    }
    CutsLeaveNoLetters(db, chain, at, upto, c, state[c], base, cuts);
    if r.Aborted? && !(cuts == [] && now == db && letters == was) {
      CutsHeal(db, chain, at, upto, c, state[c], base, cuts);
      if c != IdentityContract {
        CallsMonotone(chain, last.upTo, state[IdentityContract].lastLedger);
      }
      var n := CallsUpTo(chain, after);
      BrokenCutLeavesNoLetters(Replayed(db, Stream(chain, c), base, cuts), chain, Advance(at, c, n), Raise(upto, c, n), c, after, last,
                               was + LettersOf(db, Stream(chain, c), base, cuts), now, letters);
    }
  }

  /** A scan that throws keeps them sound too: what it wrote ahead lies within the head. */
  lemma BrokenScanHeals(db: Db, chain: History, state: map<Contract, Checkpoint>, upto: Progress, c: Contract, head: nat, cuts: seq<Cut>,
                        now: Db, ck: Checkpoint) returns (upto': Progress)
    requires Chain.Ordered(chain) && (forall k: Contract :: k in state) && Sound(db, chain, state, upto)
    requires ScanBroken(db, Stream(chain, c), state[c], state[c].lastLedger, head, cuts, now, ck)
    requires state[c].lastLedger <= ck.lastLedger && (ck.lastLedger <= head || ck.lastLedger == state[c].lastLedger)
    requires c != IdentityContract ==> head <= state[IdentityContract].lastLedger
    ensures Sound(now, chain, state[c := ck], upto') && Within(chain, upto', upto, Max(head, state[c].lastLedger))
  {
    hide Healable;
    hide CutBroken;
    hide CallsUpTo;
    hide Stream;
    hide Replayed;
    hide LawfulCuts;
    hide Within;
    NothingAhead(chain, upto, Max(head, state[c].lastLedger));
    var base, at := state[c].lastLedger, Reached(chain, state);
    StaysBehindUnclamped(state, c, head, ck);
    ReachedMoves(chain, state, c, ck);
    if ck == state[c] && now == db {
      assert state[c := ck] == state;
      upto' := upto;
    } else {
      var n := CallsUpTo(chain, ck.lastLedger);
      if c != IdentityContract {
        CallsMonotone(chain, ck.lastLedger, state[IdentityContract].lastLedger);
      }
      CutsHeal(db, chain, at, upto, c, state[c], base, cuts);
      var before := Replayed(db, Stream(chain, c), base, cuts);
      var cut: Cut :| ck.lastLedger <= cut.upTo <= head && CutBroken(before, Stream(chain, c), ck.lastLedger, cut, now);
      if c != IdentityContract {
        CallsMonotone(chain, cut.upTo, state[IdentityContract].lastLedger);
      }
      BrokenCutHealable(before, chain, Advance(at, c, n), Raise(upto, c, n), c, ck.lastLedger, cut, now);
      upto' := Raise(Raise(upto, c, n), c, CallsUpTo(chain, cut.upTo));
      CallsMonotone(chain, ck.lastLedger, Max(head, base));
      CallsMonotone(chain, cut.upTo, Max(head, base));
      RaisedWithin(chain, upto, c, n, CallsUpTo(chain, cut.upTo), Max(head, base));
    }
  }

  lemma RaisedWithin(chain: History, upto: Progress, c: Contract, n: nat, m: nat, ledger: nat)
    requires n <= CallsUpTo(chain, ledger) && m <= CallsUpTo(chain, ledger)
    ensures Within(chain, Raise(Raise(upto, c, n), c, m), upto, ledger)
  {
    hide CallsUpTo;
  }

  lemma NothingAhead(chain: History, upto: Progress, ledger: nat)
    ensures Within(chain, upto, upto, ledger)
  {
  }

  /** Nothing further ahead than before, or than the calls up to a ledger. */
  predicate Within(chain: History, upto': Progress, upto: Progress, ledger: nat) {
    forall c: Contract :: Of(upto', c) <= Max(Of(upto, c), CallsUpTo(chain, ledger))
  }

  // ---------------------------------------------------------------- a run

  const CONTRACTS := [IdentityContract, ReputationContract, ValidationContract]

  datatype RunResult = Refused | Thrown | Ran(contracts: map<Contract, ScanResult>, timedOut: bool)

  datatype Health = Health(latest: nat, oldest: nat)

  /** No checkpoint predates RPC retention: the run needs no clamp. */
  predicate Unclamped(state: map<Contract, Checkpoint>, oldest: nat) {
    forall c | c in state :: state[c].lastLedger + 1 >= oldest
  }

  /** It is so exactly when a scan of any contract, to whatever head, starts at its own checkpoint. */
  lemma UnclampedMeans(state: map<Contract, Checkpoint>, oldest: nat)
    ensures Unclamped(state, oldest) <==> forall c, head: nat | c in state :: Base(state[c], head, oldest) == state[c].lastLedger
    ensures forall c, head: nat | c in state && state[c].lastLedger < head ::
              Base(state[c], head, oldest) + 1 == Max(state[c].lastLedger + 1, oldest)
    ensures forall c, head: nat | c in state && state[c].lastLedger >= head :: Base(state[c], head, oldest) == state[c].lastLedger
  {
    if forall c, head: nat | c in state :: Base(state[c], head, oldest) == state[c].lastLedger {
      forall c | c in state ensures state[c].lastLedger + 1 >= oldest {
        var head: nat := state[c].lastLedger + 1;
        assert Base(state[c], head, oldest) == state[c].lastLedger;
      }
    }
  }

  /** The tables hold the registries' state at the checkpoints. */
  ghost predicate Faithful(tables: Db, chain: History, state: map<Contract, Checkpoint>)
    requires forall c: Contract :: c in state
  {
    BehindIdentity(state) && InOrder(chain, Reached(chain, state)) && Projected(tables, chain, Reached(chain, state))
  }

  lemma FaithfulIsSound(tables: Db, chain: History, state: map<Contract, Checkpoint>)
    requires (forall c: Contract :: c in state) && Faithful(tables, chain, state)
    ensures Sound(tables, chain, state, Reached(chain, state))
  {
    hide Projected;
    hide Healable;
    ProjectedIsHealable(tables, chain, Reached(chain, state));
  }

  /** Once the checkpoints pass everything written ahead, the tables equal the registries. */
  lemma SoundBecomesFaithful(tables: Db, chain: History, state: map<Contract, Checkpoint>, upto: Progress)
    requires (forall c: Contract :: c in state) && Sound(tables, chain, state, upto)
    requires forall c: Contract :: Of(upto, c) <= Of(Reached(chain, state), c)
    ensures Faithful(tables, chain, state)
  {
    hide Projected;
    hide NearTables;
    var at := Reached(chain, state);
    assert Of(upto, IdentityContract) <= at.id && Of(upto, ReputationContract) <= at.rep && Of(upto, ValidationContract) <= at.val;
    assert upto == at;
    HealedIsProjected(tables, chain, at);
  }

  /** What is ahead after checkpoints moved: at least the checkpoints. */
  function Lift(upto: Progress, at: Progress): Progress {
    Progress(Max(upto.id, at.id), Max(upto.rep, at.rep), Max(upto.val, at.val))
  }

  /** Checkpoints only move forward, and dependents stay behind identity, clamps included. */
  ghost predicate Moved(health: Health, state0: map<Contract, Checkpoint>, state: map<Contract, Checkpoint>)
    requires forall c: Contract :: c in state0 && c in state
  {
    && (forall c: Contract :: state0[c].lastLedger <= state[c].lastLedger)
    && (BehindIdentity(state0) && health.oldest <= health.latest ==> BehindIdentity(state))
  }

  /** Each contract's checkpoint is where it was or later, and dependents that were behind identity still are. */
  lemma MovedForward(health: Health, state0: map<Contract, Checkpoint>, state: map<Contract, Checkpoint>, c: Contract)
    requires (forall k: Contract :: k in state0 && k in state) && Moved(health, state0, state)
    ensures state[c].lastLedger >= state0[c].lastLedger
    ensures health.oldest <= health.latest && state0[ReputationContract].lastLedger <= state0[IdentityContract].lastLedger
            && state0[ValidationContract].lastLedger <= state0[IdentityContract].lastLedger ==>
              && state[ReputationContract].lastLedger <= state[IdentityContract].lastLedger
              && state[ValidationContract].lastLedger <= state[IdentityContract].lastLedger
  {
    if state0[ReputationContract].lastLedger <= state0[IdentityContract].lastLedger
       && state0[ValidationContract].lastLedger <= state0[IdentityContract].lastLedger {
      forall k: Contract ensures state0[k].lastLedger <= state0[IdentityContract].lastLedger {
        match k
        case IdentityContract =>
        case ReputationContract =>
        case ValidationContract =>
      }
    }
  }

  /** What every point of a run keeps, from the tables and checkpoints it started with. */
  ghost predicate Kept(chain: History, health: Health, tables0: Db, state0: map<Contract, Checkpoint>, upto0: Progress,
                       tables: Db, state: map<Contract, Checkpoint>)
    requires forall c: Contract :: c in state0 && c in state
  {
    && Moved(health, state0, state)
    && (Unclamped(state0, health.oldest) && Sound(tables0, chain, state0, upto0) ==>
          Sound(tables, chain, state, Lift(upto0, Reached(chain, state))))
  }

  /** How far a scan of `c` may go: identity to the latest ledger, dependents to where identity is. */
  predicate LawfulHead(health: Health, state: map<Contract, Checkpoint>, c: Contract, head: nat)
    requires forall k: Contract :: k in state
  {
    c != IdentityContract ==>
      && head <= state[IdentityContract].lastLedger
      && (health.oldest <= health.latest ==> health.oldest <= state[IdentityContract].lastLedger + 1)
  }

  lemma ScanMoves(db: Db, evs: seq<Packet>, start: Checkpoint, head: nat, oldest: nat, cuts: seq<Cut>, now: Db, r: ScanResult)
    requires r.Finished? && ScanOutcome(db, evs, start, Base(start, head, oldest), head, cuts, now, r)
    ensures start.lastLedger <= Base(start, head, oldest) <= r.ck.lastLedger
  {
    BoundGrows(start, Base(start, head, oldest), cuts);
  }

  /** Whatever checkpoint a scan leaves, the dependents stay behind identity. */
  lemma StaysBehind(health: Health, state: map<Contract, Checkpoint>, c: Contract, head: nat, ck: Checkpoint)
    requires (forall k: Contract :: k in state) && BehindIdentity(state) && health.oldest <= health.latest
    requires LawfulHead(health, state, c, head) && state[c].lastLedger <= ck.lastLedger
    requires ck.lastLedger <= head || ck.lastLedger == Base(state[c], head, health.oldest)
    ensures BehindIdentity(state[c := ck])
  {
    assert c != IdentityContract ==> ck.lastLedger <= state[IdentityContract].lastLedger;
  }

  /** A scan that throws still leaves the dependents behind identity. */
  lemma MovedByThrow(health: Health, state0: map<Contract, Checkpoint>, state: map<Contract, Checkpoint>, c: Contract, head: nat,
                     state': map<Contract, Checkpoint>)
    requires (forall k: Contract :: k in state0 && k in state) && Moved(health, state0, state) && LawfulHead(health, state, c, head)
    requires exists ck: Checkpoint :: Passed(health, state, c, head, state', ck)
    ensures (forall k: Contract :: k in state') && Moved(health, state0, state')
  {
    hide BehindIdentity;
    var ck :| Passed(health, state, c, head, state', ck);
    if BehindIdentity(state) && health.oldest <= health.latest {
      StaysBehind(health, state, c, head, ck);
    }
  }

  predicate Passed(health: Health, state: map<Contract, Checkpoint>, c: Contract, head: nat, state': map<Contract, Checkpoint>,
                   ck: Checkpoint)
  {
    && c in state && state' == state[c := ck] && state[c].lastLedger <= ck.lastLedger
    && (ck.lastLedger <= head || ck.lastLedger == Base(state[c], head, health.oldest))
  }

  lemma KeptByScan(chain: History, health: Health, tables0: Db, state0: map<Contract, Checkpoint>, upto0: Progress, tables: Db,
                   state: map<Contract, Checkpoint>, c: Contract, head: nat, cuts: seq<Cut>, now: Db, r: ScanResult)
    requires Chain.Ordered(chain) && (forall k: Contract :: k in state0 && k in state)
    requires Kept(chain, health, tables0, state0, upto0, tables, state) && LawfulHead(health, state, c, head)
    requires r.Finished? && ScanOutcome(tables, Stream(chain, c), state[c], Base(state[c], head, health.oldest), head, cuts, now, r)
    requires r.ck.lastLedger <= head || r.ck.lastLedger == Base(state[c], head, health.oldest)
    ensures Kept(chain, health, tables0, state0, upto0, now, state[c := r.ck]) && Moved(health, state0, state[c := r.ck])
    ensures Unclamped(state0, health.oldest) && Sound(tables0, chain, state0, upto0) ==> r.stopped != Some(Deferred)
    ensures Base(state[c], head, health.oldest) <= r.ck.lastLedger
  {
    hide ScanOutcome;
    hide Sound;
    hide CallsUpTo;
    hide BehindIdentity;
    ScanMoves(tables, Stream(chain, c), state[c], head, health.oldest, cuts, now, r);
    if BehindIdentity(state) && health.oldest <= health.latest {
      StaysBehind(health, state, c, head, r.ck);
    }
    if Unclamped(state0, health.oldest) && Sound(tables0, chain, state0, upto0) {
      assert Base(state[c], head, health.oldest) == state[c].lastLedger;
      ScanHeals(tables, chain, state, Lift(upto0, Reached(chain, state)), c, head, cuts, now, r);
      CallsMonotone(chain, state[c].lastLedger, r.ck.lastLedger);
      ReachedMoves(chain, state, c, r.ck);
      LiftRaised(upto0, Reached(chain, state), c, CallsUpTo(chain, r.ck.lastLedger));
    }
  }

  lemma LiftRaised(upto: Progress, at: Progress, c: Contract, n: nat)
    requires Of(at, c) <= n
    ensures Raise(Lift(upto, at), c, n) == Lift(upto, Advance(at, c, n))
  {
  }

  lemma StaysBehindUnclamped(state: map<Contract, Checkpoint>, c: Contract, head: nat, ck: Checkpoint)
    requires (forall k: Contract :: k in state) && BehindIdentity(state)
    requires c != IdentityContract ==> head <= state[IdentityContract].lastLedger
    requires state[c].lastLedger <= ck.lastLedger && (ck.lastLedger <= head || ck.lastLedger == state[c].lastLedger)
    ensures BehindIdentity(state[c := ck])
  {
  }

  /** What each contract published, the RPC nodes, the clock at each look, the deadline, and what getHealth answered. */
  datatype Surroundings = Surroundings(published: Contract -> seq<Packet>, server: Contract -> Server, clock: Contract -> nat -> int,
                                       deadline: int, health: Health)

  /** The nodes serve what the contracts published: the history's events, among others the indexer ignores. */
  ghost predicate Serves(w: Surroundings, chain: History, c: Contract) {
    LawfulServer(w.server(c), w.published(c)) && Carries(w.published(c), chain, c)
  }

  /** The clock as a scan reads it: the first look is the run's own. */
  function Later(clock: nat -> int): nat -> int {
    (n: nat) => clock(n + 1)
  }

  /** A finished scan ended for the reason it gives, and made no more calls than it needed. */
  ghost predicate ScanExplained(w: Surroundings, c: Contract, start: Checkpoint, head: nat, r: ScanResult, made: nat)
    requires r.Finished?
  {
    var base := Base(start, head, w.health.oldest);
    && Explained(w.server(c), Later(w.clock(c)), w.deadline, base, head, r, made)
    && WithinCalls(w.published(c), base, head, r, made)
  }

  /** One contract of a run: what the run keeps is kept, and a scan that throws leaves the tables sound. */
  method RunContract(db: Database, w: Surroundings, fault: (nat, nat, nat) -> bool,
                     contract: Contract, head: nat, owner: string, start: Checkpoint,
                     ghost chain: History, ghost tables0: Db, ghost state0: map<Contract, Checkpoint>, ghost upto0: Progress)
    returns (scan: ScanResult, ghost made: nat)
    requires Chain.Ordered(chain) && Serves(w, chain, contract)
    requires (forall c: Contract :: c in state0 && c in db.control.state) && db.control.state[contract] == start
    requires Kept(chain, w.health, tables0, state0, upto0, db.tables, db.control.state)
    requires LawfulHead(w.health, db.control.state, contract, head)
    modifies db
    ensures forall c: Contract :: c in db.control.state && (c != contract ==> db.control.state[c] == old(db.control.state)[c])
    ensures Moved(w.health, state0, db.control.state)
    ensures Holds(old(db.control), owner) ==> Holds(db.control, owner)
    ensures Holds(old(db.control), owner) && (forall n: nat, a: nat, b: nat :: !fault(n, a, b)) ==> scan.Finished?
    ensures scan.Finished? ==>
              && Kept(chain, w.health, tables0, state0, upto0, db.tables, db.control.state)
              && db.control.state[contract] == scan.ck && Base(start, head, w.health.oldest) <= scan.ck.lastLedger
              && (scan.ck.lastLedger <= head || scan.ck.lastLedger == Base(start, head, w.health.oldest))
              && ScanExplained(w, contract, start, head, scan, made)
              && (Unclamped(state0, w.health.oldest) && Sound(tables0, chain, state0, upto0) ==> scan.stopped != Some(Deferred))
    ensures Unclamped(state0, w.health.oldest) && Sound(tables0, chain, state0, upto0) ==>
              StillSound(db.tables, chain, db.control.state) && db.letters == old(db.letters)
    ensures old(db.letters) <= db.letters
  {
    hide Sound;
    hide Kept;
    hide BehindIdentity;
    hide Scanned;
    hide ThrewAt;
    hide Stream;
    hide CallsUpTo;
    hide Serves;
    hide Carries;
    hide LawfulServer;
    hide LawfulHead;
    hide Moved;
    hide Base;
    hide Sorted;
    hide StillSound;
    ghost var tables, state, letters, health := db.tables, db.control.state, db.letters, w.health;
    ServesSorted(w, chain, contract);
    ghost var cuts, last;
    scan, cuts, made, last := IndexContract(db, w.server(contract), Later(w.clock(contract)), w.deadline, fault, contract, head,
                                            w.health.oldest, owner, start, w.published(contract));
    ghost var job := Job(w.server(contract), Later(w.clock(contract)), w.deadline, w.published(contract), contract, start, head,
                         w.health.oldest, tables, letters);
    if scan.Finished? {
      ScannedKeeps(chain, w, tables0, state0, upto0, job, state, cuts, made, last, db.tables, db.letters, scan);
    } else {
      ghost var ck: Checkpoint :| db.control.state == state[contract := ck] && ThrewAt(job, cuts, last, db.tables, db.letters, ck);
      ThrewKeeps(chain, w, tables0, state0, upto0, job, state, cuts, last, db.tables, db.letters, ck);
    }
  }

  lemma ServesSorted(w: Surroundings, chain: History, c: Contract)
    requires Serves(w, chain, c)
    ensures Sorted(w.published(c)) && LawfulServer(w.server(c), w.published(c)) && Carries(w.published(c), chain, c)
  {
  }

  lemma ScannedKeeps(chain: History, w: Surroundings, tables0: Db, state0: map<Contract, Checkpoint>, upto0: Progress, job: Job,
                     state: map<Contract, Checkpoint>, cuts: seq<Cut>, made: nat, last: Cut, now: Db, letters: Letters, r: ScanResult)
    requires Chain.Ordered(chain) && (forall k: Contract :: k in state0 && k in state)
    requires JobOf(job, chain, w, state) && LawfulHead(w.health, state, job.contract, job.head)
    requires Kept(chain, w.health, tables0, state0, upto0, job.tables, state)
    requires r.Finished? && Scanned(job, r, cuts, made, last, now, letters)
    ensures Kept(chain, w.health, tables0, state0, upto0, now, state[job.contract := r.ck])
    ensures Moved(w.health, state0, state[job.contract := r.ck])
    ensures job.From() <= r.ck.lastLedger && (r.ck.lastLedger <= job.head || r.ck.lastLedger == job.From())
    ensures ScanExplained(w, job.contract, job.start, job.head, r, made)
    ensures Unclamped(state0, w.health.oldest) && Sound(tables0, chain, state0, upto0) ==>
              && r.stopped != Some(Deferred) && letters == job.letters
              && StillSound(now, chain, state[job.contract := r.ck])
    ensures job.letters <= letters
  {
    hide Sound;
    hide Kept;
    hide Moved;
    hide BehindIdentity;
    hide LawfulHead;
    hide ScanOutcome;
    hide Explained;
    hide WithinCalls;
    hide Lettered;
    hide Stream;
    hide CallsUpTo;
    hide StillSound;
    hide Carries;
    var c, health := job.contract, w.health;
    OutcomeOfOwn(job.tables, job.evs, chain, c, job.start, job.From(), job.head, cuts, now, r);
    KeptByScan(chain, health, tables0, state0, upto0, job.tables, state, c, job.head, cuts, now, r);
    KeptMeansSound(chain, health, tables0, state0, upto0, now, state[c := r.ck]);
    ScanCuts(job, cuts, now, r);
    LettersGrow(job, cuts, r, last, now, letters);
    if Unclamped(state0, health.oldest) && Sound(tables0, chain, state0, upto0) {
      NoClampHere(chain, health, tables0, state0, upto0, job, state);
      LetteredOfOwn(job.tables, job.evs, chain, c, job.start, job.From(), job.head, cuts, job.Was(), r, last, now, letters);
      ScanLeavesNoLetters(job.tables, chain, state, Lift(upto0, Reached(chain, state)), c, job.head, cuts, job.letters, now, r, last, letters);
    }
  }

  lemma ThrewKeeps(chain: History, w: Surroundings, tables0: Db, state0: map<Contract, Checkpoint>, upto0: Progress, job: Job,
                   state: map<Contract, Checkpoint>, cuts: seq<Cut>, last: Cut, now: Db, letters: Letters, ck: Checkpoint)
    requires Chain.Ordered(chain) && (forall k: Contract :: k in state0 && k in state)
    requires JobOf(job, chain, w, state) && LawfulHead(w.health, state, job.contract, job.head)
    requires Kept(chain, w.health, tables0, state0, upto0, job.tables, state)
    requires ThrewAt(job, cuts, last, now, letters, ck)
    ensures Moved(w.health, state0, state[job.contract := ck])
    ensures Unclamped(state0, w.health.oldest) && Sound(tables0, chain, state0, upto0) ==>
              letters == job.letters && StillSound(now, chain, state[job.contract := ck])
    ensures job.letters <= letters
  {
    hide Sound;
    hide Kept;
    hide Moved;
    hide BehindIdentity;
    hide LawfulHead;
    hide ScanBroken;
    hide Lettered;
    hide Stream;
    hide CallsUpTo;
    hide StillSound;
    hide Carries;
    var c, health := job.contract, w.health;
    KeptMeansMoved(chain, health, tables0, state0, upto0, job.tables, state);
    assert Passed(health, state, c, job.head, state[c := ck], ck);
    MovedByThrow(health, state0, state, c, job.head, state[c := ck]);
    BrokenOfOwn(job.tables, job.evs, chain, c, job.start, job.From(), job.head, cuts, now, ck);
    SoundByThrow(chain, health, tables0, state0, upto0, job.tables, state, c, job.head, cuts, now, ck);
    LettersGrow(job, cuts, Aborted, last, now, letters);
    if Unclamped(state0, health.oldest) && Sound(tables0, chain, state0, upto0) {
      NoClampHere(chain, health, tables0, state0, upto0, job, state);
      BrokenCuts(job, cuts, now, ck);
      LetteredOfOwn(job.tables, job.evs, chain, c, job.start, job.From(), job.head, cuts, job.Was(), Aborted, last, now, letters);
      ScanLeavesNoLetters(job.tables, chain, state, Lift(upto0, Reached(chain, state)), c, job.head, cuts, job.letters, now, Aborted,
                          last, letters);
    }
  }

  lemma ScanCuts(job: Job, cuts: seq<Cut>, now: Db, r: ScanResult)
    requires r.Finished? && ScanOutcome(job.tables, job.evs, job.start, job.From(), job.head, cuts, now, r)
    ensures LawfulCuts(job.start, job.From(), cuts) && r.ck.lastLedger == Bound(job.From(), cuts)
  {
  }

  lemma BrokenCuts(job: Job, cuts: seq<Cut>, now: Db, ck: Checkpoint)
    requires ScanBroken(job.tables, job.evs, job.start, job.From(), job.head, cuts, now, ck)
    ensures LawfulCuts(job.start, job.From(), cuts)
  {
  }

  /** No scan takes a dead letter back. */
  lemma LettersGrow(job: Job, cuts: seq<Cut>, r: ScanResult, last: Cut, now: Db, letters: Letters)
    requires Lettered(job.tables, job.evs, job.From(), job.head, cuts, job.Was(), r, last, now, letters)
    ensures job.letters <= letters
  {
    hide BrokenOff;
    hide LettersOf;
    hide CutLetters;
    hide Replayed;
    hide Window;
    if r.Aborted? && !(cuts == [] && letters == job.Was()) {
      BrokenOffPlayed(Replayed(job.tables, job.evs, job.From(), cuts), Window(job.evs, Bound(job.From(), cuts), last.upTo), last.skip,
                      job.Was() + LettersOf(job.tables, job.evs, job.From(), cuts), now, letters);
    }
  }

  /** An unclamped run clamps no contract. */
  lemma NoClampHere(chain: History, health: Health, tables0: Db, state0: map<Contract, Checkpoint>, upto0: Progress, job: Job,
                    state: map<Contract, Checkpoint>)
    requires (forall k: Contract :: k in state0 && k in state) && Kept(chain, health, tables0, state0, upto0, job.tables, state)
    requires Unclamped(state0, health.oldest) && Sound(tables0, chain, state0, upto0)
    requires job.start == state[job.contract] && job.oldest == health.oldest && LawfulHead(health, state, job.contract, job.head)
    ensures job.From() == job.start.lastLedger && job.Was() == job.letters
    ensures Sound(job.tables, chain, state, Lift(upto0, Reached(chain, state)))
    ensures job.contract != IdentityContract ==> job.head <= state[IdentityContract].lastLedger
  {
    hide Sound;
    hide BehindIdentity;
    assert job.start.lastLedger + 1 >= job.oldest;
  }

  /** The job of one contract's scan in a run. */
  ghost predicate JobOf(job: Job, chain: History, w: Surroundings, state: map<Contract, Checkpoint>) {
    && job.contract in state && job.start == state[job.contract] && job.oldest == w.health.oldest
    && job.evs == w.published(job.contract) && Carries(job.evs, chain, job.contract)
    && job.server == w.server(job.contract) && job.clock == Later(w.clock(job.contract)) && job.deadline == w.deadline
  }

  /** Sound, whatever was written ahead. */
  ghost predicate StillSound(tables: Db, chain: History, state: map<Contract, Checkpoint>)
    requires forall c: Contract :: c in state
  {
    exists upto: Progress :: Sound(tables, chain, state, upto)
  }

  lemma KeptMeansMoved(chain: History, health: Health, tables0: Db, state0: map<Contract, Checkpoint>, upto0: Progress, tables: Db,
                       state: map<Contract, Checkpoint>)
    requires (forall k: Contract :: k in state0 && k in state) && Kept(chain, health, tables0, state0, upto0, tables, state)
    ensures Moved(health, state0, state)
  {
  }

  lemma KeptMeansSound(chain: History, health: Health, tables0: Db, state0: map<Contract, Checkpoint>, upto0: Progress, tables: Db,
                       state: map<Contract, Checkpoint>)
    requires (forall k: Contract :: k in state0 && k in state) && Kept(chain, health, tables0, state0, upto0, tables, state)
    ensures Unclamped(state0, health.oldest) && Sound(tables0, chain, state0, upto0) ==> StillSound(tables, chain, state)
  {
    hide Sound;
  }

  lemma SoundByThrow(chain: History, health: Health, tables0: Db, state0: map<Contract, Checkpoint>, upto0: Progress, tables: Db,
                     state: map<Contract, Checkpoint>, c: Contract, head: nat, cuts: seq<Cut>, now: Db, ck: Checkpoint)
    requires Chain.Ordered(chain) && (forall k: Contract :: k in state0 && k in state)
    requires Kept(chain, health, tables0, state0, upto0, tables, state) && LawfulHead(health, state, c, head)
    requires state[c].lastLedger <= ck.lastLedger && (ck.lastLedger <= head || ck.lastLedger == Base(state[c], head, health.oldest))
    requires ScanBroken(tables, Stream(chain, c), state[c], Base(state[c], head, health.oldest), head, cuts, now, ck)
    ensures Unclamped(state0, health.oldest) && Sound(tables0, chain, state0, upto0) ==> StillSound(now, chain, state[c := ck])
  {
    hide Sound;
    hide ScanBroken;
    hide CallsUpTo;
    hide BehindIdentity;
    if Unclamped(state0, health.oldest) && Sound(tables0, chain, state0, upto0) {
      assert Base(state[c], head, health.oldest) == state[c].lastLedger;
      var upto := BrokenScanHeals(tables, chain, state, Lift(upto0, Reached(chain, state)), c, head, cuts, now, ck);
    }
  }

  // ---------------------------------------------------------------- how a run went

  /** The head a contract is scanned to: identity's own, then no further than identity got. */
  function HeadOf(health: Health, contracts: map<Contract, ScanResult>, c: Contract): nat {
    if c != IdentityContract && IdentityContract in contracts && contracts[IdentityContract].Finished?
    then Min(health.latest, contracts[IdentityContract].ck.lastLedger) else health.latest
  }

  ghost predicate ContractExplained(w: Surroundings, state0: map<Contract, Checkpoint>, state: map<Contract, Checkpoint>,
                                    contracts: map<Contract, ScanResult>, c: Contract)
    requires forall k: Contract :: k in state0 && k in state
  {
    if c !in contracts then state[c] == state0[c]
    else
      && contracts[c].Finished? && contracts[c].ck == state[c]
      && var head := HeadOf(w.health, contracts, c);
         && Base(state0[c], head, w.health.oldest) <= state[c].lastLedger
         && (state[c].lastLedger <= head || state[c].lastLedger == Base(state0[c], head, w.health.oldest))
         && exists made: nat :: ScanExplained(w, c, state0[c], head, contracts[c], made)
  }

  /** The contracts scanned come first in order. */
  predicate InTurn(contracts: map<Contract, ScanResult>, i: nat)
    requires i <= 3
  {
    forall k: nat | k < 3 :: CONTRACTS[k] in contracts <==> k < i
  }

  /** What a run did: which contracts it scanned, why each scan ended, and whether time ran out. */
  ghost predicate RunExplained(w: Surroundings, state0: map<Contract, Checkpoint>, state: map<Contract, Checkpoint>,
                               contracts: map<Contract, ScanResult>, timedOut: bool)
    requires forall k: Contract :: k in state0 && k in state
  {
    && (forall c: Contract :: ContractExplained(w, state0, state, contracts, c))
    && exists i: nat :: i <= 3 && InTurn(contracts, i)
         && (i < 3 ==> w.clock(CONTRACTS[i])(0) >= w.deadline)
         && (timedOut <==> i < 3 || OutOfTimeIn(contracts))
  }

  predicate OutOfTimeIn(contracts: map<Contract, ScanResult>) {
    exists c | c in contracts :: contracts[c].Finished? && contracts[c].stopped == Some(Deadline)
  }

  predicate DeferredIn(contracts: map<Contract, ScanResult>) {
    exists c | c in contracts :: contracts[c].Finished? && contracts[c].stopped == Some(Deferred)
  }

  /** Nothing keeps a contract from the latest ledger: time, and nodes that answer and have it. */
  ghost predicate Unhindered(w: Surroundings, state0: map<Contract, Checkpoint>, c: Contract)
    requires c in state0
  {
    w.clock(c)(0) < w.deadline && SmoothTo(w, state0, c, w.health.latest)
  }

  /** Time, and nodes that answer and have it, for a contract's scan to a head. */
  ghost predicate SmoothTo(w: Surroundings, state0: map<Contract, Checkpoint>, c: Contract, head: nat)
    requires c in state0
  {
    Smooth(w.server(c), Later(w.clock(c)), w.deadline, Base(state0[c], head, w.health.oldest), head, w.published(c))
  }

  /** A contract scanned without hindrance reaches its head, identity's for a dependent, unless it deferred. */
  lemma ContractReaches(w: Surroundings, state0: map<Contract, Checkpoint>, state: map<Contract, Checkpoint>,
                        contracts: map<Contract, ScanResult>, c: Contract)
    requires forall k: Contract :: k in state0 && k in state
    requires ContractExplained(w, state0, state, contracts, c) && c in contracts
    requires SmoothTo(w, state0, c, HeadOf(w.health, contracts, c))
    ensures contracts[c].Finished?
    ensures contracts[c].stopped == Some(Deferred)
            || (contracts[c].stopped == None && state[c].lastLedger >= HeadOf(w.health, contracts, c))
  {
    hide Smooth;
    hide Explained;
    hide WithinCalls;
    hide Base;
    var head := HeadOf(w.health, contracts, c);
    var made: nat :| ScanExplained(w, c, state0[c], head, contracts[c], made);
    SmoothReaches(w.server(c), Later(w.clock(c)), w.deadline, Base(state0[c], head, w.health.oldest), head,
                  w.published(c), contracts[c], made);
  }

  /** Where every contract is unhindered and none deferred, each is scanned to the latest ledger, in time. */
  lemma RunReaches(w: Surroundings, state0: map<Contract, Checkpoint>, state: map<Contract, Checkpoint>,
                   contracts: map<Contract, ScanResult>, timedOut: bool)
    requires forall k: Contract :: k in state0 && k in state
    requires RunExplained(w, state0, state, contracts, timedOut)
    requires (forall c: Contract :: Unhindered(w, state0, c)) && !DeferredIn(contracts)
    ensures !timedOut
    ensures forall c: Contract :: c in contracts && contracts[c].Finished? && contracts[c].stopped == None
                                  && state[c].lastLedger >= w.health.latest
  {
    hide ContractExplained;
    hide Unhindered;
    hide SmoothTo;
    var i: nat :| i <= 3 && InTurn(contracts, i) && (i < 3 ==> w.clock(CONTRACTS[i])(0) >= w.deadline)
                  && (timedOut <==> i < 3 || OutOfTimeIn(contracts));
    if i < 3 {
      InTime(w, state0, CONTRACTS[i]);
    }
    AllInTurn(contracts);
    InTime(w, state0, IdentityContract);
    ContractReaches(w, state0, state, contracts, IdentityContract);
    IdentityFirst(w, state0, state, contracts);
    forall c: Contract
      ensures contracts[c].Finished? && contracts[c].stopped == None && state[c].lastLedger >= w.health.latest
    {
      InTime(w, state0, c);
      ContractReaches(w, state0, state, contracts, c);
    }
  }

  lemma InTime(w: Surroundings, state0: map<Contract, Checkpoint>, c: Contract)
    requires c in state0 && Unhindered(w, state0, c)
    ensures w.clock(c)(0) < w.deadline && SmoothTo(w, state0, c, w.health.latest)
  {
  }

  function Place(c: Contract): (k: nat)
    ensures k < 3 && CONTRACTS[k] == c
  {
    match c
    case IdentityContract => 0
    case ReputationContract => 1
    case ValidationContract => 2
  }

  lemma AllInTurn(contracts: map<Contract, ScanResult>)
    requires InTurn(contracts, 3)
    ensures forall c: Contract :: c in contracts
  {
    forall c: Contract ensures c in contracts {
      var k := Place(c);
      assert CONTRACTS[k] in contracts;
    }
  }

  lemma IdentityFirst(w: Surroundings, state0: map<Contract, Checkpoint>, state: map<Contract, Checkpoint>,
                      contracts: map<Contract, ScanResult>)
    requires (forall k: Contract :: k in state0 && k in state) && IdentityContract in contracts
    requires ContractExplained(w, state0, state, contracts, IdentityContract)
    requires state[IdentityContract].lastLedger >= w.health.latest
    ensures forall c: Contract :: HeadOf(w.health, contracts, c) == w.health.latest
  {
    hide ScanExplained;
  }

  // ---------------------------------------------------------------- the loop over the contracts

  /** Between two contracts of a run. */
  ghost predicate MidRun(w: Surroundings, chain: History, tables0: Db, letters0: Letters, state0: map<Contract, Checkpoint>,
                         upto0: Progress, contracts: map<Contract, ScanResult>, timedOut: bool, head: nat, i: nat,
                         tables: Db, letters: Letters, state: map<Contract, Checkpoint>)
  {
    && i <= 3 && InTurn(contracts, i) && (forall c: Contract :: c in state0 && c in state)
    && head == (if i == 0 then w.health.latest else HeadOf(w.health, contracts, ReputationContract))
    && Kept(chain, w.health, tables0, state0, upto0, tables, state)
    && (i > 0 ==> LawfulHead(w.health, state, ReputationContract, head))
    && (forall c: Contract :: ContractExplained(w, state0, state, contracts, c))
    && (timedOut <==> OutOfTimeIn(contracts))
    && letters0 <= letters
    && (Unclamped(state0, w.health.oldest) && Sound(tables0, chain, state0, upto0) ==> letters == letters0 && !DeferredIn(contracts))
  }

  lemma MidRunStarts(w: Surroundings, chain: History, tables: Db, letters: Letters, state: map<Contract, Checkpoint>, upto: Progress)
    requires forall c: Contract :: c in state
    ensures MidRun(w, chain, tables, letters, state, upto, map[], false, w.health.latest, 0, tables, letters, state)
  {
    hide Sound;
    KeptAtStart(chain, w.health, tables, state, upto);
  }

  /** The next contract's head and checkpoint. */
  lemma MidRunNext(w: Surroundings, chain: History, tables0: Db, letters0: Letters, state0: map<Contract, Checkpoint>,
                   upto0: Progress, contracts: map<Contract, ScanResult>, timedOut: bool, head: nat, i: nat,
                   tables: Db, letters: Letters, state: map<Contract, Checkpoint>)
    requires MidRun(w, chain, tables0, letters0, state0, upto0, contracts, timedOut, head, i, tables, letters, state) && i < 3
    ensures (forall c: Contract :: c in state0 && c in state) && state[CONTRACTS[i]] == state0[CONTRACTS[i]]
    ensures Kept(chain, w.health, tables0, state0, upto0, tables, state) && LawfulHead(w.health, state, CONTRACTS[i], head)
    ensures Moved(w.health, state0, state) && letters0 <= letters
    ensures Unclamped(state0, w.health.oldest) && Sound(tables0, chain, state0, upto0) ==>
              StillSound(tables, chain, state) && letters == letters0
  {
    hide Kept;
    hide Sound;
    hide StillSound;
    hide LawfulHead;
    assert CONTRACTS[i] !in contracts;
    assert ContractExplained(w, state0, state, contracts, CONTRACTS[i]);
    HeadFor(w.health, state, CONTRACTS[i], head);
    KeptMeansMoved(chain, w.health, tables0, state0, upto0, tables, state);
    KeptMeansSound(chain, w.health, tables0, state0, upto0, tables, state);
  }

  lemma HeadsStay(health: Health, contracts: map<Contract, ScanResult>, i: nat, scan: ScanResult, c: Contract)
    requires i < 3 && InTurn(contracts, i)
    ensures c in contracts ==> HeadOf(health, contracts[CONTRACTS[i] := scan], c) == HeadOf(health, contracts, c)
  {
    var k := Place(c);
    assert CONTRACTS[k] in contracts <==> k < i;
    assert CONTRACTS[i] == IdentityContract <==> i == 0 by { var first := Place(IdentityContract); }
  }

  lemma NextInTurn(contracts: map<Contract, ScanResult>, i: nat, scan: ScanResult)
    requires i < 3 && InTurn(contracts, i)
    ensures InTurn(contracts[CONTRACTS[i] := scan], i + 1)
  {
  }

  /** One more contract scanned. */
  lemma MidRunAdds(w: Surroundings, chain: History, tables0: Db, letters0: Letters, state0: map<Contract, Checkpoint>,
                   upto0: Progress, contracts: map<Contract, ScanResult>, timedOut: bool, head: nat, i: nat,
                   tables: Db, letters: Letters, state: map<Contract, Checkpoint>, scan: ScanResult, made: nat,
                   tables': Db, letters': Letters, state': map<Contract, Checkpoint>)
    requires MidRun(w, chain, tables0, letters0, state0, upto0, contracts, timedOut, head, i, tables, letters, state) && i < 3
    requires forall c: Contract :: c in state' && (c != CONTRACTS[i] ==> state'[c] == state[c])
    requires Kept(chain, w.health, tables0, state0, upto0, tables', state') && scan.Finished? && scan.ck == state'[CONTRACTS[i]]
    requires Base(state0[CONTRACTS[i]], head, w.health.oldest) <= scan.ck.lastLedger
    requires scan.ck.lastLedger <= head || scan.ck.lastLedger == Base(state0[CONTRACTS[i]], head, w.health.oldest)
    requires ScanExplained(w, CONTRACTS[i], state0[CONTRACTS[i]], head, scan, made)
    requires Unclamped(state0, w.health.oldest) && Sound(tables0, chain, state0, upto0) ==>
               scan.stopped != Some(Deferred) && letters' == letters
    requires letters <= letters'
    ensures MidRun(w, chain, tables0, letters0, state0, upto0, contracts[CONTRACTS[i] := scan],
                   timedOut || scan.stopped == Some(Deadline),
                   if i == 0 then Min(head, scan.ck.lastLedger) else head, i + 1, tables', letters', state')
  {
    hide Kept;
    hide Sound;
    hide ScanExplained;
    hide LawfulHead;
    hide Base;
    hide InTurn;
    var now := contracts[CONTRACTS[i] := scan];
    NextInTurn(contracts, i, scan);
    assert HeadOf(w.health, now, CONTRACTS[i]) == head by { HeadHere(w.health, contracts, i, scan, head); }
    forall c: Contract ensures ContractExplained(w, state0, state', now, c) {
      assert ContractExplained(w, state0, state, contracts, c);
      if c in contracts && c != CONTRACTS[i] {
        HeadsStay(w.health, contracts, i, scan, c);
      }
    }
    TimesAndDeferrals(contracts, i, scan);
    if i == 0 {
      HeadAfterIdentity(w.health, state0[IdentityContract], state');
    } else {
      HeadStays(w.health, state, state', head);
    }
  }

  lemma HeadHere(health: Health, contracts: map<Contract, ScanResult>, i: nat, scan: ScanResult, head: nat)
    requires i < 3 && InTurn(contracts, i) && scan.Finished?
    requires head == if i == 0 then health.latest else HeadOf(health, contracts, ReputationContract)
    ensures HeadOf(health, contracts[CONTRACTS[i] := scan], CONTRACTS[i]) == head
    ensures HeadOf(health, contracts[CONTRACTS[i] := scan], ReputationContract) == if i == 0 then Min(head, scan.ck.lastLedger) else head
  {
    assert CONTRACTS[0] == IdentityContract;
  }

  lemma TimesAndDeferrals(contracts: map<Contract, ScanResult>, i: nat, scan: ScanResult)
    requires i < 3 && InTurn(contracts, i) && scan.Finished?
    ensures OutOfTimeIn(contracts[CONTRACTS[i] := scan]) <==> OutOfTimeIn(contracts) || scan.stopped == Some(Deadline)
    ensures DeferredIn(contracts[CONTRACTS[i] := scan]) <==> DeferredIn(contracts) || scan.stopped == Some(Deferred)
  {
    assert CONTRACTS[i] !in contracts;
    var now := contracts[CONTRACTS[i] := scan];
    assert CONTRACTS[i] in now && now[CONTRACTS[i]] == scan;
    assert forall c | c in contracts :: c in now && now[c] == contracts[c];
  }

  /**
   * The whole promise of a run that is over, from what it started with: checkpoints only moved on, dependents
   * behind identity; why each scan ended; no letter taken back; and, unclamped over sound tables, sound tables
   * still, nothing deferred and nothing dead-lettered.
   */
  ghost predicate RunPromise(w: Surroundings, chain: History, tables0: Db, letters0: Letters, state0: map<Contract, Checkpoint>,
                             upto0: Progress, contracts: map<Contract, ScanResult>, timedOut: bool,
                             tables: Db, letters: Letters, state: map<Contract, Checkpoint>)
    requires forall c: Contract :: c in state0 && c in state
  {
    && Moved(w.health, state0, state) && RunExplained(w, state0, state, contracts, timedOut) && letters0 <= letters
    && (Unclamped(state0, w.health.oldest) && Sound(tables0, chain, state0, upto0) ==>
          && Sound(tables, chain, state, Lift(upto0, Reached(chain, state)))
          && letters == letters0 && !DeferredIn(contracts))
  }

  lemma RunEnds(w: Surroundings, chain: History, tables0: Db, letters0: Letters, state0: map<Contract, Checkpoint>,
                upto0: Progress, contracts: map<Contract, ScanResult>, timedOut: bool, head: nat, i: nat,
                tables: Db, letters: Letters, state: map<Contract, Checkpoint>)
    requires MidRun(w, chain, tables0, letters0, state0, upto0, contracts, timedOut, head, i, tables, letters, state)
    requires i < 3 ==> w.clock(CONTRACTS[i])(0) >= w.deadline
    ensures (forall c: Contract :: c in state0 && c in state)
    ensures RunPromise(w, chain, tables0, letters0, state0, upto0, contracts, timedOut || i < 3, tables, letters, state)
  {
    hide Kept;
    hide Sound;
    hide ContractExplained;
    KeptMeansMoved(chain, w.health, tables0, state0, upto0, tables, state);
    KeptMeansLifted(chain, w.health, tables0, state0, upto0, tables, state);
  }

  /** A finished unclamped run over tables equal to the registries at the checkpoints leaves them equal at the new ones. */
  lemma PromiseKeepsFaithful(w: Surroundings, chain: History, tables0: Db, letters0: Letters, state0: map<Contract, Checkpoint>,
                             contracts: map<Contract, ScanResult>, timedOut: bool,
                             tables: Db, letters: Letters, state: map<Contract, Checkpoint>)
    requires Chain.Ordered(chain) && forall c: Contract :: c in state0 && c in state
    requires RunPromise(w, chain, tables0, letters0, state0, Reached(chain, state0), contracts, timedOut, tables, letters, state)
    requires Unclamped(state0, w.health.oldest) && Faithful(tables0, chain, state0)
    ensures Faithful(tables, chain, state)
  {
    hide Sound;
    hide Faithful;
    hide RunExplained;
    hide Moved;
    StaysFaithful(tables0, tables, chain, w.health, state0, state);
  }

  /**
   * A run: identity to the RPC's head, then its dependents no further than identity got. However it ends,
   * dependents stay behind identity and, unclamped, sound tables stay sound. When it finishes, each contract
   * was scanned to its head or ended for the reason given; unclamped it deferred and dead-lettered nothing,
   * and tables equal to the registries at the checkpoints are equal to them at the new ones.
   */
  method IndexContracts(db: Database, w: Surroundings, fault: Contract -> (nat, nat, nat) -> bool, owner: string,
                        allowClamp: bool, ghost chain: History, ghost upto: Progress)
    returns (r: RunResult)
    requires Chain.Ordered(chain)
    requires forall c: Contract :: Serves(w, chain, c)
    modifies db
    ensures r.Refused? <==> (exists c: Contract :: c !in old(db.control.state))
                            || (!allowClamp && !Unclamped(old(db.control.state), w.health.oldest))
    ensures r.Refused? ==> db.tables == old(db.tables) && db.control == old(db.control) && db.letters == old(db.letters)
    ensures !r.Refused? ==> forall c: Contract :: c in db.control.state
    ensures !r.Refused? ==> Moved(w.health, old(db.control.state), db.control.state) && old(db.letters) <= db.letters
    ensures !r.Refused? && Unclamped(old(db.control.state), w.health.oldest) && Sound(old(db.tables), chain, old(db.control.state), upto) ==>
              StillSound(db.tables, chain, db.control.state) && db.letters == old(db.letters)
    ensures r.Ran? ==>
              RunPromise(w, chain, old(db.tables), old(db.letters), old(db.control.state), upto, r.contracts, r.timedOut,
                         db.tables, db.letters, db.control.state)
    ensures r.Ran? && upto == Reached(chain, old(db.control.state)) && Unclamped(old(db.control.state), w.health.oldest)
            && Faithful(old(db.tables), chain, old(db.control.state)) ==>
              Faithful(db.tables, chain, db.control.state)
    ensures r.Ran? && (forall c: Contract :: Unhindered(w, old(db.control.state), c)) && !DeferredIn(r.contracts) ==>
              && !r.timedOut
              && forall c: Contract :: c in r.contracts && r.contracts[c].Finished? && r.contracts[c].stopped == None
                                       && db.control.state[c].lastLedger >= w.health.latest
    ensures Holds(old(db.control), owner) && (forall c: Contract, n: nat, a: nat, b: nat :: !fault(c)(n, a, b)) ==> !r.Thrown?
    ensures Holds(old(db.control), owner) ==> Holds(db.control, owner)
  {
    hide Sound;
    hide StillSound;
    hide Moved;
    hide Kept;
    hide LawfulHead;
    hide Base;
    hide Serves;
    hide MidRun;
    hide RunPromise;
    hide ScanExplained;
    hide Unhindered;
    hide Faithful;
    hide DeferredIn;
    ghost var tables0, letters0, state0 := db.tables, db.letters, db.control.state;
    if exists c: Contract :: c !in db.control.state {
      return Refused;
    }
    var checkpoints := db.control.state;
    if !allowClamp && !Unclamped(checkpoints, w.health.oldest) {
      return Refused;
    }
    var contracts: map<Contract, ScanResult> := map[];
    var timedOut := false;
    var head: nat := w.health.latest;
    var i := 0;
    MidRunStarts(w, chain, tables0, letters0, state0, upto);
    while i < 3
      invariant 0 <= i <= 3
      invariant MidRun(w, chain, tables0, letters0, state0, upto, contracts, timedOut, head, i, db.tables, db.letters, db.control.state)
      invariant Holds(old(db.control), owner) ==> Holds(db.control, owner)
    {
      var contract := CONTRACTS[i];
      ghost var tables, letters, state := db.tables, db.letters, db.control.state;
      MidRunNext(w, chain, tables0, letters0, state0, upto, contracts, timedOut, head, i, tables, letters, state);
      if w.clock(contract)(0) >= w.deadline {
        RunOver(w, chain, tables0, letters0, state0, upto, contracts, timedOut, head, i, tables, letters, state);
        return Ran(contracts, true);
      }
      var scan, made := RunContract(db, w, fault(contract), contract, head, owner, checkpoints[contract], chain, tables0, state0, upto);
      if scan.Aborted? {
        return Thrown;
      }
      MidRunAdds(w, chain, tables0, letters0, state0, upto, contracts, timedOut, head, i, tables, letters, state, scan, made,
                 db.tables, db.letters, db.control.state);
      contracts := contracts[contract := scan];
      if scan.stopped == Some(Deadline) {
        timedOut := true;
      }
      if contract == IdentityContract {
        head := Min(head, scan.ck.lastLedger);
      }
      i := i + 1;
    }
    RunOver(w, chain, tables0, letters0, state0, upto, contracts, timedOut, head, i, db.tables, db.letters, db.control.state);
    return Ran(contracts, timedOut);
  }

  /** Everything a run promises when it is over. */
  lemma RunOver(w: Surroundings, chain: History, tables0: Db, letters0: Letters, state0: map<Contract, Checkpoint>,
                upto0: Progress, contracts: map<Contract, ScanResult>, timedOut: bool, head: nat, i: nat,
                tables: Db, letters: Letters, state: map<Contract, Checkpoint>)
    requires Chain.Ordered(chain)
    requires MidRun(w, chain, tables0, letters0, state0, upto0, contracts, timedOut, head, i, tables, letters, state)
    requires i < 3 ==> w.clock(CONTRACTS[i])(0) >= w.deadline
    ensures (forall c: Contract :: c in state0 && c in state) && Moved(w.health, state0, state) && letters0 <= letters
    ensures RunPromise(w, chain, tables0, letters0, state0, upto0, contracts, timedOut || i < 3, tables, letters, state)
    ensures Unclamped(state0, w.health.oldest) && Sound(tables0, chain, state0, upto0) ==>
              StillSound(tables, chain, state) && letters == letters0
    ensures upto0 == Reached(chain, state0) && Unclamped(state0, w.health.oldest) && Faithful(tables0, chain, state0) ==>
              Faithful(tables, chain, state)
    ensures (forall c: Contract :: Unhindered(w, state0, c)) && !DeferredIn(contracts) ==>
              && !(timedOut || i < 3)
              && forall c: Contract :: c in contracts && contracts[c].Finished? && contracts[c].stopped == None
                                       && state[c].lastLedger >= w.health.latest
  {
    hide MidRun;
    hide Sound;
    hide Moved;
    hide RunExplained;
    hide Unhindered;
    hide Faithful;
    hide DeferredIn;
    RunEnds(w, chain, tables0, letters0, state0, upto0, contracts, timedOut, head, i, tables, letters, state);
    if upto0 == Reached(chain, state0) && Unclamped(state0, w.health.oldest) && Faithful(tables0, chain, state0) {
      PromiseKeepsFaithful(w, chain, tables0, letters0, state0, contracts, timedOut || i < 3, tables, letters, state);
    }
    if (forall c: Contract :: Unhindered(w, state0, c)) && !DeferredIn(contracts) {
      RunReaches(w, state0, state, contracts, timedOut || i < 3);
    }
  }

  lemma KeptMeansLifted(chain: History, health: Health, tables0: Db, state0: map<Contract, Checkpoint>, upto0: Progress, tables: Db,
                        state: map<Contract, Checkpoint>)
    requires (forall k: Contract :: k in state0 && k in state) && Kept(chain, health, tables0, state0, upto0, tables, state)
    ensures Unclamped(state0, health.oldest) && Sound(tables0, chain, state0, upto0) ==>
              Sound(tables, chain, state, Lift(upto0, Reached(chain, state)))
  {
  }

  lemma HeadFor(health: Health, state: map<Contract, Checkpoint>, c: Contract, head: nat)
    requires forall k: Contract :: k in state
    requires c == IdentityContract || LawfulHead(health, state, ReputationContract, head)
    ensures LawfulHead(health, state, c, head)
  {
  }

  lemma HeadAfterIdentity(health: Health, start: Checkpoint, state: map<Contract, Checkpoint>)
    requires forall k: Contract :: k in state
    requires Base(start, health.latest, health.oldest) <= state[IdentityContract].lastLedger
    ensures LawfulHead(health, state, ReputationContract, Min(health.latest, state[IdentityContract].lastLedger))
  {
  }

  lemma HeadStays(health: Health, state: map<Contract, Checkpoint>, state': map<Contract, Checkpoint>, head: nat)
    requires forall k: Contract :: k in state && k in state'
    requires LawfulHead(health, state, ReputationContract, head) && state'[IdentityContract] == state[IdentityContract]
    ensures LawfulHead(health, state', ReputationContract, head)
  {
  }

  /** A finished unclamped run keeps faithful tables faithful: call it with nothing ahead of the checkpoints. */
  lemma StaysFaithful(tables: Db, tables': Db, chain: History, health: Health, state: map<Contract, Checkpoint>,
                      state': map<Contract, Checkpoint>)
    requires Chain.Ordered(chain) && (forall c: Contract :: c in state && c in state') && Moved(health, state, state')
    requires Faithful(tables, chain, state)
    requires Sound(tables, chain, state, Reached(chain, state)) ==>
               Sound(tables', chain, state', Lift(Reached(chain, state), Reached(chain, state')))
    ensures Faithful(tables', chain, state')
  {
    hide Sound;
    hide Faithful;
    hide BehindIdentity;
    hide CallsUpTo;
    FaithfulIsSound(tables, chain, state);
    forall c: Contract ensures Of(Reached(chain, state), c) <= Of(Reached(chain, state'), c) {
      CallsMonotone(chain, state[c].lastLedger, state'[c].lastLedger);
    }
    var lifted := Lift(Reached(chain, state), Reached(chain, state'));
    assert Of(Reached(chain, state), IdentityContract) <= Of(Reached(chain, state'), IdentityContract);
    assert Of(Reached(chain, state), ReputationContract) <= Of(Reached(chain, state'), ReputationContract);
    assert Of(Reached(chain, state), ValidationContract) <= Of(Reached(chain, state'), ValidationContract);
    SoundBecomesFaithful(tables', chain, state', lifted);
  }

  lemma KeptAtStart(chain: History, health: Health, tables: Db, state: map<Contract, Checkpoint>, upto: Progress)
    requires forall c: Contract :: c in state
    ensures Kept(chain, health, tables, state, upto, tables, state)
    ensures Sound(tables, chain, state, upto) ==> StillSound(tables, chain, state)
  {
    hide Projected;
    hide NearTables;
    if Sound(tables, chain, state, upto) {
      assert Lift(upto, Reached(chain, state)) == upto;
    }
  }
}
