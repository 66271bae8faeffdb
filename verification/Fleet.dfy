// Many runs over the same tables: pages written, then saved, stray writes of stale or dying runs, locks and checkpoints.
module Fleet {
  import opened Basics
  import opened Events
  import opened Chain
  import opened Ledgers
  import opened Tables
  import opened Writer
  import opened Columns
  import opened Recovery
  import opened Projection
  import opened EndToEnd
  import opened Healing
  import opened Streams
  import opened Stale
  import opened Replays
  import opened Locks
  import opened Rpc
  import opened Scan
  import opened Indexer
  import Identity
  import Fencing

  // ---------------------------------------------------------------- what runs do to the tables

  /** A page its run has written but not saved. */
  datatype Open = Open(owner: string, contract: Contract, reached: nat)

  /** The tables, the page written last, and the events of all pages written so far. */
  datatype Shared = Shared(db: Db, open: Option<Open>, written: seq<Packet>)

  /** Writes of a contract's events past its checkpoint, up to a ledger, in any order and number. */
  datatype Stray = Stray(contract: Contract, upTo: nat, ps: seq<Packet>, skip: bool)

  /**
   * A run writes its next page; any run writes ahead, as a crashed, stale or partial page does; or any run
   * repeats events of pages written before, saved since or not.
   */
  datatype Deed = WritesPage(owner: string, reached: nat, skip: bool) | WritesAhead(stray: Stray) | Repeats(ps: seq<Packet>)

  type Checkpoints = Fencing.Checkpoints

  /** Drawn from ledgers past the checkpoint; a dependent's no further than identity. */
  ghost predicate PastCheckpoint(chain: History, state: Checkpoints, s: Stray) {
    && state[s.contract].lastLedger <= s.upTo
    && (s.contract != IdentityContract ==> s.upTo <= state[IdentityContract].lastLedger)
    && forall p | p in s.ps :: p in Window(Stream(chain, s.contract), state[s.contract].lastLedger, s.upTo)
  }

  /** The run may save the page it writes: it holds the lock and knows the checkpoints, and the page is within its head. */
  predicate MayWrite(s: Fencing.System, owner: string, reached: nat) {
    && Fencing.Scans(s, owner) && Holds(s.control, owner) && Fencing.MayPage(s.runs[owner])
    && s.runs[owner].view[s.runs[owner].contract].lastLedger < reached <= s.runs[owner].head
  }

  /** An unsaved page whose run can still save it. */
  predicate Savable(s: Fencing.System, open: Option<Open>) {
    open.Some? && Holds(s.control, open.value.owner)
  }

  /** The checkpoints, or what a pending save will make of them. */
  function Next(state: Checkpoints, open: Open): Checkpoints {
    state[open.contract := Checkpoint(open.reached, 0)]
  }

  /** A deed, and the tables after it. Events of a pending page may only be repeated, and repeats must be harmless. */
  ghost predicate Does(chain: History, s: Fencing.System, t: Shared, deed: Deed, t': Shared)
    requires forall c: Contract :: c in s.control.state
  {
    match deed
    case WritesPage(owner, reached, skip) =>
      && MayWrite(s, owner, reached)
      && var c := s.runs[owner].contract;
         var after := s.control.state[c].lastLedger;
         t' == Shared(WriteCut(t.db, Stream(chain, c), after, Cut(reached, skip)).db, Some(Open(owner, c, reached)),
                      t.written + WriteOrder(Window(Stream(chain, c), after, reached)))
    case WritesAhead(stray) =>
      && PastCheckpoint(chain, s.control.state, stray)
      && (Savable(s, t.open) ==> PastCheckpoint(chain, Next(s.control.state, t.open.value), stray))
      && t' == t.(db := Play(t.db, stray.ps, stray.skip).db)
    case Repeats(ps) =>
      && (forall p | p in ps :: p in t.written) && Harmless(t.db, ps)
      && t' == t.(db := Play(t.db, ps, true).db)
  }

  /** The contract whose checkpoint a page moved. */
  ghost predicate PageSaved(s: Fencing.System, a: Fencing.Action, s': Fencing.System) {
    a.Page? && a.owner in s.runs && s.runs[a.owner].Scanning? && s'.control.state != s.control.state
  }

  /** A page is saved only after it was written; other steps go with any deed. No clamp takes effect. */
  ghost predicate TablesStep(chain: History, s: Fencing.System, a: Fencing.Action, s': Fencing.System, t: Shared, deed: Deed, t': Shared)
    requires forall c: Contract :: c in s.control.state
  {
    if PageSaved(s, a, s') then
      t.open == Some(Open(a.owner, s.runs[a.owner].contract, a.reached)) && t' == t.(open := None)
    else
      (a.Clamp? ==> s'.control.state == s.control.state) && Does(chain, s, t, deed, t')
  }

  /** The tables over a behaviour of the locks and checkpoints. */
  ghost predicate Follows(chain: History, b: Fencing.Behaviour, tables: seq<Shared>, deeds: seq<Deed>) {
    && Fencing.Lawful(b) && |tables| == |b.states| && |deeds| == |b.actions|
    && forall i :: 0 <= i < |b.actions| ==> StepFollows(chain, b, tables, deeds, i)
  }

  ghost predicate StepFollows(chain: History, b: Fencing.Behaviour, tables: seq<Shared>, deeds: seq<Deed>, i: nat)
    requires |tables| == |b.states| == |b.actions| + 1 && |deeds| == |b.actions| && i < |b.actions|
  {
    && (forall c: Contract :: c in b.states[i].control.state)
    && TablesStep(chain, b.states[i], b.actions[i], b.states[i + 1], tables[i], deeds[i], tables[i + 1])
  }

  // ---------------------------------------------------------------- what every step keeps

  /** Sound at the checkpoints and, while a page waits for its save, at those to come. */
  ghost predicate Inv(chain: History, s: Fencing.System, t: Shared) {
    && (forall c: Contract :: c in s.control.state) && BehindIdentity(s.control.state)
    && StillSound(t.db, chain, s.control.state)
    && NoStrays(t.db) && AbsorbedAll(t.db, t.written)
    && (t.open.Some? ==> t.open.value.owner in s.runs)
    && (Savable(s, t.open) ==> Waiting(chain, s.control.state, t.db, t.open.value))
  }

  ghost predicate Waiting(chain: History, state: Checkpoints, db: Db, open: Open) {
    && state[open.contract].lastLedger <= open.reached
    && BehindIdentity(Next(state, open)) && StillSound(db, chain, Next(state, open))
  }

  lemma SoundIsStrict(db: Db, chain: History, state: Checkpoints)
    requires StillSound(db, chain, state)
    ensures NoStrays(db)
  {
    hide Projected;
    hide Near;
    hide Read;
    hide NoStrays;
    hide Dense;
    hide Pending;
    var upto: Progress :| Sound(db, chain, state, upto);
    var at := Reached(chain, state);
    var clean: Db :| Projected(clean, chain, at) && NearTables(clean, db, chain, at, upto);
  }

  /** Whatever a play did, it applied some of its events. */
  lemma {:induction false} PlayedEvents(db: Db, ps: seq<Packet>, skip: bool) returns (qs: seq<Packet>)
    ensures ApplyAll(db, qs) == Some(Play(db, ps, skip).db)
    decreases ps
  {
    hide Apply;
    qs := [];
    if ps != [] {
      var a := Apply(db, ps[0]);
      if a.Changed? {
        var rest := PlayedEvents(a.db, ps[1..], skip);
        qs := [ps[0]] + rest;
        assert qs[0] == ps[0] && qs[1..] == rest;
      } else if skip {
        qs := PlayedEvents(db, ps[1..], skip);
      }
    }
  }

  // ---------------------------------------------------------------- pages

  /** What a page makes of the tables, at the checkpoints before its save and after. */
  lemma PageWritten(chain: History, db: Db, state: Checkpoints, c: Contract, reached: nat, skip: bool)
    requires Chain.Ordered(chain) && BehindIdentity(state) && StillSound(db, chain, state)
    requires state[c].lastLedger <= reached && BehindIdentity(state[c := Checkpoint(reached, 0)])
    ensures var after := state[c].lastLedger;
            var db', batch := WriteCut(db, Stream(chain, c), after, Cut(reached, skip)).db, WriteOrder(Window(Stream(chain, c), after, reached));
            && ApplyAll(db, batch) == Some(db') && NoStrays(db) && AbsorbedAll(db', batch)
            && StillSound(db', chain, state) && StillSound(db', chain, state[c := Checkpoint(reached, 0)])
  {
    hide Healable;
    hide WriteCut;
    hide Absorbed;
    hide NoStrays;
    hide NoneMissing;
    hide Apply;
    hide Between;
    hide ParentsFirst;
    hide Parsed;
    hide CallsUpTo;
    SoundIsStrict(db, chain, state);
    var upto: Progress :| Sound(db, chain, state, upto);
    var at, after, n := Reached(chain, state), state[c].lastLedger, CallsUpTo(chain, reached);
    HealableInOrder(db, chain, at, upto);
    CallsMonotone(chain, after, reached);
    var ps := Between(chain, c, Of(at, c), n);
    if c != IdentityContract {
      assert state[c := Checkpoint(reached, 0)][c].lastLedger <= state[IdentityContract].lastLedger;
      CallsMonotone(chain, reached, state[IdentityContract].lastLedger);
    }
    CutHeals(db, chain, at, upto, c, after, Cut(reached, skip));
    WindowIsBetween(chain, c, after, reached);
    BatchHeals(db, chain, at, upto, c, n);
    OrderOfParsed(ps);
    BatchFindsRows(db, chain, at, upto, c, n);
    RunAbsorbs(db, ParentsFirst(ps));
    ReachedMoves(chain, state, c, Checkpoint(reached, 0));
    assert Sound(ApplyAll(db, ParentsFirst(ps)).value, chain, state[c := Checkpoint(reached, 0)], Raise(upto, c, n));
    WriteOrderOnly(ps);
    CommittedBatch(db, ParentsFirst(ps), skip);
    DeadRunIsHealable(db, chain, at, upto, c, n, ParentsFirst(ps), skip);
    assert Sound(ApplyAll(db, ParentsFirst(ps)).value, chain, state, Raise(upto, c, n));
  }

  lemma MayWriteMoves(s: Fencing.System, owner: string, reached: nat)
    requires Fencing.Inv(s) && MayWrite(s, owner, reached)
    ensures var c := s.runs[owner].contract;
            && s.control.state[c].lastLedger <= reached && BehindIdentity(s.control.state[c := Checkpoint(reached, 0)])
  {
    hide BehindIdentity;
    Fencing.HolderKnows(s.control, s.runs[owner]);
    Fencing.HolderSaves(s.control, s.runs[owner], Checkpoint(reached, 0));
  }

  // ---------------------------------------------------------------- strays and repeats

  lemma AheadKeepsSound(chain: History, db: Db, state: Checkpoints, stray: Stray)
    requires Chain.Ordered(chain) && StillSound(db, chain, state) && PastCheckpoint(chain, state, stray)
    ensures StillSound(Play(db, stray.ps, stray.skip).db, chain, state)
  {
    hide Healable;
    hide Between;
    hide Window;
    hide Play;
    hide CallsUpTo;
    var upto: Progress :| Sound(db, chain, state, upto);
    var c, n := stray.contract, CallsUpTo(chain, stray.upTo);
    CallsMonotone(chain, state[c].lastLedger, stray.upTo);
    if c != IdentityContract {
      CallsMonotone(chain, stray.upTo, state[IdentityContract].lastLedger);
    }
    HealableInOrder(db, chain, Reached(chain, state), upto);
    WindowIsBetween(chain, c, state[c].lastLedger, stray.upTo);
    DeadRunIsHealable(db, chain, Reached(chain, state), upto, c, n, stray.ps, stray.skip);
    assert Sound(Play(db, stray.ps, stray.skip).db, chain, state, Raise(upto, c, n));
  }

  lemma HealableInOrder(db: Db, chain: History, at: Progress, upto: Progress)
    requires Healable(db, chain, at, upto)
    ensures InOrder(chain, at)
  {
    hide Projected;
    hide NearTables;
  }

  lemma SameKeepsSound(chain: History, db: Db, db': Db, state: Checkpoints)
    requires StillSound(db, chain, state) && SameTables(db, db') && db'.responses == db.responses
    ensures StillSound(db', chain, state)
  {
    hide Healable;
    hide SameTables;
    var upto: Progress :| Sound(db, chain, state, upto);
    HealableOverSameTables(db, db', chain, Reached(chain, state), upto);
    assert Sound(db', chain, state, upto);
  }

  lemma LedgersKeepSound(chain: History, db: Db, state: Checkpoints, state': Checkpoints)
    requires forall c: Contract :: state'[c].lastLedger == state[c].lastLedger
    requires StillSound(db, chain, state)
    ensures StillSound(db, chain, state')
  {
    hide Healable;
    hide CallsUpTo;
    var upto: Progress :| Sound(db, chain, state, upto);
    assert Reached(chain, state') == Reached(chain, state);
    assert Sound(db, chain, state', upto);
  }

  // ---------------------------------------------------------------- deeds keep it

  lemma PageKeepsInv(chain: History, s: Fencing.System, t: Shared, owner: string, reached: nat, skip: bool, t': Shared)
    requires Chain.Ordered(chain) && Fencing.Inv(s) && Inv(chain, s, t) && Does(chain, s, t, WritesPage(owner, reached, skip), t')
    ensures Inv(chain, s, t')
  {
    hide Fencing.Inv;
    hide BehindIdentity;
    hide StillSound;
    hide Absorbed;
    hide NoStrays;
    hide WriteCut;
    hide Window;
    hide WriteOrder;
    var c := s.runs[owner].contract;
    MayWriteMoves(s, owner, reached);
    PageWritten(chain, t.db, s.control.state, c, reached, skip);
    var batch := WriteOrder(Window(Stream(chain, c), s.control.state[c].lastLedger, reached));
    AllAbsorbedStay(t.db, batch, t.written);
    AbsorbedBoth(t'.db, t.written, batch);
  }

  lemma AheadKeepsInv(chain: History, s: Fencing.System, t: Shared, stray: Stray, t': Shared)
    requires Chain.Ordered(chain) && Inv(chain, s, t) && Does(chain, s, t, WritesAhead(stray), t')
    ensures Inv(chain, s, t')
  {
    hide BehindIdentity;
    hide StillSound;
    hide Absorbed;
    hide NoStrays;
    hide PastCheckpoint;
    hide Play;
    AheadKeepsSound(chain, t.db, s.control.state, stray);
    if Savable(s, t.open) {
      AheadKeepsSound(chain, t.db, Next(s.control.state, t.open.value), stray);
    }
    var qs := PlayedEvents(t.db, stray.ps, stray.skip);
    AllAbsorbedStay(t.db, qs, t.written);
  }

  lemma RepeatsKeepInv(chain: History, s: Fencing.System, t: Shared, ps: seq<Packet>, t': Shared)
    requires Inv(chain, s, t) && Does(chain, s, t, Repeats(ps), t')
    ensures Inv(chain, s, t')
  {
    hide BehindIdentity;
    hide StillSound;
    hide Absorbed;
    hide NoStrays;
    hide Harmless;
    hide SameTables;
    hide ResolversAfter;
    hide Apply;
    hide Play;
    StaleOver(t.db, ps);
    CommittedBatch(t.db, ps, true);
    SameKeepsSound(chain, t.db, t'.db, s.control.state);
    if Savable(s, t.open) {
      SameKeepsSound(chain, t.db, t'.db, Next(s.control.state, t.open.value));
    }
    AllAbsorbedStay(t.db, ps, t.written);
  }

  lemma DeedKeepsInv(chain: History, s: Fencing.System, t: Shared, deed: Deed, t': Shared)
    requires Chain.Ordered(chain) && Fencing.Inv(s) && Inv(chain, s, t) && Does(chain, s, t, deed, t')
    ensures Inv(chain, s, t')
  {
    hide Fencing.Inv;
    hide Inv;
    hide Does;
    match deed
    case WritesPage(owner, reached, skip) => PageKeepsInv(chain, s, t, owner, reached, skip, t');
    case WritesAhead(stray) => AheadKeepsInv(chain, s, t, stray, t');
    case Repeats(ps) => RepeatsKeepInv(chain, s, t, ps, t');
  }

  // ---------------------------------------------------------------- steps of the runs keep it

  /** A saved page moves one checkpoint to where the page reached. */
  lemma PageMoves(s: Fencing.System, a: Fencing.Action)
    requires Fencing.Inv(s) && Fencing.Take(s, a).Some? && PageSaved(s, a, Fencing.Take(s, a).value)
    ensures Fencing.Take(s, a).value.control.state == s.control.state[s.runs[a.owner].contract := Checkpoint(a.reached, 0)]
    ensures Holds(s.control, a.owner)
  {
    hide Fencing.HolderInformed;
    hide BehindIdentity;
  }

  /** Any other step but a clamp leaves every checkpoint's ledger where it is. */
  lemma OthersStay(s: Fencing.System, a: Fencing.Action)
    requires Fencing.Inv(s) && Fencing.Take(s, a).Some? && !PageSaved(s, a, Fencing.Take(s, a).value)
    requires a.Clamp? ==> Fencing.Take(s, a).value.control.state == s.control.state
    ensures var state, state' := s.control.state, Fencing.Take(s, a).value.control.state;
            forall c: Contract :: c in state && c in state' && state'[c].lastLedger == state[c].lastLedger
  {
    hide Fencing.Take;
    hide BehindIdentity;
    hide Fencing.HolderInformed;
    var s' := Fencing.Take(s, a).value;
    forall c: Contract ensures c in s'.control.state && s'.control.state[c].lastLedger == s.control.state[c].lastLedger {
      Fencing.CountStep(s, a, c);
      if a.Page? {
        PagesScan(s, a);
      }
    }
  }

  lemma PagesScan(s: Fencing.System, a: Fencing.Action)
    requires Fencing.Take(s, a).Some? && a.Page?
    ensures a.owner in s.runs && s.runs[a.owner].Scanning?
  {
  }

  /** A run that can still save its page could before. */
  lemma PendingBefore(s: Fencing.System, a: Fencing.Action, owner: string)
    requires Fencing.Take(s, a).Some? && owner in s.runs
    ensures owner in Fencing.Take(s, a).value.runs
    ensures Holds(Fencing.Take(s, a).value.control, owner) ==> Holds(s.control, owner)
  {
  }

  lemma SaveKeepsInv(chain: History, s: Fencing.System, a: Fencing.Action, t: Shared)
    requires Fencing.Inv(s) && Fencing.Take(s, a).Some? && Inv(chain, s, t) && PageSaved(s, a, Fencing.Take(s, a).value)
    requires t.open == Some(Open(a.owner, s.runs[a.owner].contract, a.reached))
    ensures Inv(chain, Fencing.Take(s, a).value, t.(open := None))
  {
    hide Fencing.Take;
    hide Fencing.HolderInformed;
    hide BehindIdentity;
    hide StillSound;
    hide AbsorbedAll;
    hide NoStrays;
    PageMoves(s, a);
    assert Savable(s, t.open);
  }

  lemma OtherStepKeepsInv(chain: History, s: Fencing.System, a: Fencing.Action, t: Shared)
    requires Fencing.Inv(s) && Fencing.Take(s, a).Some? && Inv(chain, s, t) && !PageSaved(s, a, Fencing.Take(s, a).value)
    requires a.Clamp? ==> Fencing.Take(s, a).value.control.state == s.control.state
    ensures Inv(chain, Fencing.Take(s, a).value, t)
  {
    hide Fencing.Take;
    hide Fencing.Inv;
    hide StillSound;
    hide AbsorbedAll;
    hide NoStrays;
    hide PageSaved;
    var s' := Fencing.Take(s, a).value;
    OthersStay(s, a);
    LedgersKeepSound(chain, t.db, s.control.state, s'.control.state);
    if t.open.Some? {
      PendingBefore(s, a, t.open.value.owner);
      if Savable(s', t.open) {
        LedgersKeepSound(chain, t.db, Next(s.control.state, t.open.value), Next(s'.control.state, t.open.value));
      }
    }
  }

  lemma StepKeepsInv(chain: History, s: Fencing.System, a: Fencing.Action, t: Shared, deed: Deed, t': Shared)
    requires Chain.Ordered(chain) && Fencing.Inv(s) && Fencing.Take(s, a).Some? && Inv(chain, s, t)
    requires TablesStep(chain, s, a, Fencing.Take(s, a).value, t, deed, t')
    ensures Inv(chain, Fencing.Take(s, a).value, t')
  {
    hide Fencing.Take;
    hide Fencing.Inv;
    hide Inv;
    hide Does;
    hide PageSaved;
    InvHasCheckpoints(chain, s, t);
    if PageSaved(s, a, Fencing.Take(s, a).value) {
      SaveKeepsInv(chain, s, a, t);
    } else {
      DeedKeepsInv(chain, s, t, deed, t');
      OtherStepKeepsInv(chain, s, a, t');
    }
  }

  lemma InvHasCheckpoints(chain: History, s: Fencing.System, t: Shared)
    requires Inv(chain, s, t)
    ensures forall c: Contract :: c in s.control.state
    ensures StillSound(t.db, chain, s.control.state)
  {
    hide StillSound;
  }

  /**
   * Over every interleaving of runs, takeovers and crashes, of pages written and, steps later, saved, of writes
   * ahead of the checkpoints and of harmless repeats of any page, the tables differ from the registries at the
   * checkpoints only by events written early: the runs to come repair them.
   */
  lemma {:induction false} FleetStaysSound(chain: History, b: Fencing.Behaviour, tables: seq<Shared>, deeds: seq<Deed>, i: nat)
    requires Chain.Ordered(chain) && Follows(chain, b, tables, deeds) && i < |b.states|
    requires (forall c: Contract :: c in b.states[0].control.state) && StillSound(tables[0].db, chain, b.states[0].control.state)
    requires tables[0].open == None && AbsorbedAll(tables[0].db, tables[0].written)
    ensures (forall c: Contract :: c in b.states[i].control.state) && StillSound(tables[i].db, chain, b.states[i].control.state)
  {
    hide StillSound;
    hide Inv;
    FleetInv(chain, b, tables, deeds, i);
    InvHasCheckpoints(chain, b.states[i], tables[i]);
  }

  lemma {:induction false} FleetInv(chain: History, b: Fencing.Behaviour, tables: seq<Shared>, deeds: seq<Deed>, i: nat)
    requires Chain.Ordered(chain) && Follows(chain, b, tables, deeds) && i < |b.states|
    requires (forall c: Contract :: c in b.states[0].control.state) && StillSound(tables[0].db, chain, b.states[0].control.state)
    requires tables[0].open == None && AbsorbedAll(tables[0].db, tables[0].written)
    ensures Inv(chain, b.states[i], tables[i])
  {
    hide StillSound;
    hide Fencing.Take;
    hide TablesStep;
    hide NoStrays;
    hide Absorbed;
    if i == 0 {
      SoundIsStrict(tables[0].db, chain, b.states[0].control.state);
    } else {
      hide Inv;
      FleetInv(chain, b, tables, deeds, i - 1);
      Fencing.AlwaysInv(b, i - 1);
      assert StepFollows(chain, b, tables, deeds, i - 1);
      assert Fencing.Take(b.states[i - 1], b.actions[i - 1]) == Some(b.states[i - 1 + 1]);
      StepKeepsInv(chain, b.states[i - 1], b.actions[i - 1], tables[i - 1], deeds[i - 1], tables[i]);
    }
  }

  // ---------------------------------------------------------------- what such a fleet may do

  /** Nothing done yet, from any rows with dependents behind identity. */
  lemma FleetStarts(chain: History, s: Fencing.System, t: Shared)
    requires Fencing.Inv(s)
    ensures Follows(chain, Fencing.Behaviour([s], []), [t], [])
  {
  }

  /** The fleet after one more step. */
  lemma FleetExtends(chain: History, b: Fencing.Behaviour, tables: seq<Shared>, deeds: seq<Deed>, a: Fencing.Action, s: Fencing.System,
                     deed: Deed, t: Shared)
    requires Follows(chain, b, tables, deeds) && Fencing.Take(Fencing.Last(b), a) == Some(s)
    requires forall c: Contract :: c in Fencing.Last(b).control.state
    requires TablesStep(chain, Fencing.Last(b), a, s, tables[|tables| - 1], deed, t)
    ensures Follows(chain, Fencing.Extend(b, a, s), tables + [t], deeds + [deed])
  {
    hide Fencing.Take;
    hide Fencing.Inv;
    hide TablesStep;
    Fencing.ExtendLawful(b, a, s);
    var b', tables', deeds' := Fencing.Extend(b, a, s), tables + [t], deeds + [deed];
    forall i | 0 <= i < |b'.actions| ensures StepFollows(chain, b', tables', deeds', i) {
      if i < |b.actions| {
        assert StepFollows(chain, b, tables, deeds, i);
      }
    }
  }

  /**
   * The holder of the lock, inside its head and with no ledger aged out, writes its next complete ledgers and
   * saves them at a later step: the tables hold that write, and the checkpoint is where it reached.
   */
  lemma WritesThenSaves(chain: History, b: Fencing.Behaviour, tables: seq<Shared>, deeds: seq<Deed>, owner: string, reached: nat, skip: bool)
    returns (b': Fencing.Behaviour, tables': seq<Shared>, deeds': seq<Deed>)
    requires Follows(chain, b, tables, deeds)
    requires var s := Fencing.Last(b);
             && owner in s.runs && s.runs[owner].Scanning? && s.control.lock.Some? && s.control.lock.value.owner == owner
             && var r := s.runs[owner];
                r.health.oldest <= r.view[r.contract].lastLedger + 1 && r.view[r.contract].lastLedger < reached <= r.head
    ensures Follows(chain, b', tables', deeds') && b'.actions == b.actions + [Fencing.Tick(Fencing.Last(b).now), Fencing.Page(owner, reached)]
    ensures var s, s' := Fencing.Last(b), Fencing.Last(b');
            var c := s.runs[owner].contract;
            && c in s.control.state && s'.control.state == s.control.state[c := Checkpoint(reached, 0)]
            && tables'[|tables'| - 1].db ==
               WriteCut(tables[|tables| - 1].db, Stream(chain, c), s.control.state[c].lastLedger, Cut(reached, skip)).db
  {
    hide WriteCut;
    hide WriteOrder;
    hide Window;
    hide Follows;
    hide Fencing.Take;
    FollowsLawfully(chain, b, tables, deeds);
    var s, t := Fencing.Last(b), tables[|tables| - 1];
    Fencing.AlwaysInv(b, |b.states| - 1);
    Fencing.HolderKnows(s.control, s.runs[owner]);
    var c := s.runs[owner].contract;
    var after := s.control.state[c].lastLedger;
    var written := Shared(WriteCut(t.db, Stream(chain, c), after, Cut(reached, skip)).db, Some(Open(owner, c, reached)),
                          t.written + WriteOrder(Window(Stream(chain, c), after, reached)));
    Waits(s);
    FleetExtends(chain, b, tables, deeds, Fencing.Tick(s.now), s, WritesPage(owner, reached, skip), written);
    var waiting := Fencing.Extend(b, Fencing.Tick(s.now), s);
    var saved := Saves(s, owner, reached);
    FleetExtends(chain, waiting, tables + [written], deeds + [WritesPage(owner, reached, skip)], Fencing.Page(owner, reached), saved,
                 Repeats([]), written.(open := None));
    b', tables' := Fencing.Extend(waiting, Fencing.Page(owner, reached), saved), tables + [written] + [written.(open := None)];
    deeds' := deeds + [WritesPage(owner, reached, skip)] + [Repeats([])];
    assert b.actions + [Fencing.Tick(s.now)] + [Fencing.Page(owner, reached)] == b.actions + [Fencing.Tick(s.now), Fencing.Page(owner, reached)];
  }

  lemma FollowsLawfully(chain: History, b: Fencing.Behaviour, tables: seq<Shared>, deeds: seq<Deed>)
    requires Follows(chain, b, tables, deeds)
    ensures Fencing.Lawful(b) && |tables| == |b.states| == |b.actions| + 1 && |deeds| == |b.actions|
  {
  }

  lemma Waits(s: Fencing.System)
    ensures Fencing.Take(s, Fencing.Tick(s.now)) == Some(s)
  {
  }

  lemma Saves(s: Fencing.System, owner: string, reached: nat) returns (s': Fencing.System)
    requires Fencing.Inv(s) && owner in s.runs && s.runs[owner].Scanning? && Holds(s.control, owner)
    requires var r := s.runs[owner];
             r.health.oldest <= r.view[r.contract].lastLedger + 1 && r.view[r.contract].lastLedger < reached <= r.head
    ensures Fencing.Take(s, Fencing.Page(owner, reached)) == Some(s')
    ensures s'.control.state == s.control.state[s.runs[owner].contract := Checkpoint(reached, 0)] && s'.control.state != s.control.state
  {
    hide BehindIdentity;
    hide LawfulHead;
    s' := Fencing.Take(s, Fencing.Page(owner, reached)).value;
    Fencing.SaveRefreshes(s, Fencing.Page(owner, reached));
    assert s'.control.state[s.runs[owner].contract].lastLedger == reached;
  }

  /** Any events of ledgers past a checkpoint, a dependent's no further than identity, may be written ahead in any order. */
  lemma MayWriteAhead(chain: History, s: Fencing.System, t: Shared, c: Contract, upTo: nat, ps: seq<Packet>, skip: bool)
    requires Chain.Ordered(chain) && (forall k: Contract :: k in s.control.state) && t.open == None
    requires s.control.state[c].lastLedger <= upTo && (c != IdentityContract ==> upTo <= s.control.state[IdentityContract].lastLedger)
    requires forall p | p in ps :: p in Stream(chain, c) && s.control.state[c].lastLedger < p.ledger <= upTo
    ensures Does(chain, s, t, WritesAhead(Stray(c, upTo, ps, skip)), t.(db := Play(t.db, ps, skip).db))
  {
    hide Play;
    hide Between;
    hide CountUpTo;
    StreamIsSorted(chain, c);
    var evs := Stream(chain, c);
    CountMonotone(evs, s.control.state[c].lastLedger, upTo);
    forall p | p in ps ensures p in Window(evs, s.control.state[c].lastLedger, upTo) {
      var i :| 0 <= i < |evs| && evs[i] == p;
      assert CountUpTo(evs, s.control.state[c].lastLedger) <= i < CountUpTo(evs, upTo);
      assert Window(evs, s.control.state[c].lastLedger, upTo)[i - CountUpTo(evs, s.control.state[c].lastLedger)] == p;
    }
  }

  // ---------------------------------------------------------------- repeats between a page and its save

  /**
   * The condition on repeats is exact: over tables equal to the registries, after a page is written and
   * before its save, events of that page written again leave the tables equal to the registries at the
   * checkpoint to come exactly when they are harmless.
   */
  lemma RepeatBeforeSave(db: Db, chain: History, at: Progress, c: Contract, n: nat, stray: seq<Packet>)
    requires Chain.Ordered(chain) && LawfulStep(chain, at, c, n) && Projected(db, chain, at)
    requires forall p | p in stray :: p in ParentsFirst(Between(chain, c, Of(at, c), n))
    ensures ApplyAll(db, ParentsFirst(Between(chain, c, Of(at, c), n))).Some? && InOrder(chain, Advance(at, c, n))
    ensures var tables := ApplyAll(db, ParentsFirst(Between(chain, c, Of(at, c), n))).value;
            && Projected(tables, chain, Advance(at, c, n))
            && ApplyAll(tables, stray).Some?
            && (Projected(ApplyAll(tables, stray).value, chain, Advance(at, c, n)) <==> Harmless(tables, stray))
  {
    hide Projected;
    hide Apply;
    hide Absorbed;
    hide Between;
    hide ParentsFirst;
    hide Orderly;
    hide NoneMissing;
    hide Harmless;
    hide NoStrays;
    var page := ParentsFirst(Between(chain, c, Of(at, c), n));
    var tables := BatchProjects(db, chain, at, c, n);
    BatchOrderly(db, chain, at, c, n);
    OrderlyFacts(db, page);
    RunAbsorbs(db, page);
    ProjectedExactly(tables, chain, Advance(at, c, n), stray);
  }

  /** An agent registers at ledger 1; its wallet is set at ledger 5 and unset at ledger 6. */
  function WalletHistory(caller: Address, wallet: Address): History {
    [Tx(1, OnIdentity(Identity.Register(caller))),
     Tx(5, OnIdentity(Identity.SetAgentWallet(caller, 0, wallet, false))),
     Tx(6, OnIdentity(Identity.UnsetAgentWallet(caller, 0, false)))]
  }

  lemma WalletWorlds(caller: Address, wallet: Address)
    ensures var chain := WalletHistory(caller, wallet);
            && Chain.Ordered(chain)
            && EventsOf(chain, 1) == [AgentWalletSet(0, wallet)]
            && 0 in WorldAt(chain, 3).id.owners && 0 !in WorldAt(chain, 3).id.wallets
  {
    var chain := WalletHistory(caller, wallet);
    assert WorldAt(chain, 0) == GENESIS;
    var w1 := Step(GENESIS, chain[0]).0;
    assert w1 == WorldAt(chain, 1) && w1.id.owners == map[0 := caller];
    var ws := [WireMetadataSet(0, AGENT_WALLET, wallet)];
    assert ws[..0] == [] && ParseAll([]) == [];
    assert ParseAll(ws) == [Parse(ws[0])];
    assert Step(w1, chain[1]).1 == ParseAll(ws);
    var w2 := Step(w1, chain[1]).0;
    assert w2 == WorldAt(chain, 2) && w2.id.owners == map[0 := caller];
    assert Step(w2, chain[2]).0 == WorldAt(chain, 3);
  }

  /**
   * Both wallet events are one page. Its first event, past the stored checkpoint, written again after the page
   * and before its save, leaves tables that no run will repair: they are not the registries', nor only ahead of them.
   */
  lemma StrayBeforeSave(caller: Address, wallet: Address) returns (db: Db, page: seq<Packet>, stray: Packet)
    ensures var chain := WalletHistory(caller, wallet);
            && Chain.Ordered(chain) && stray in page && stray.ledger == 5 && stray.data == AgentWalletSet(0, wallet)
            && page == ParentsFirst(Between(chain, IdentityContract, 1, 3))
            && Projected(db, chain, Progress(1, 0, 0)) && ApplyAll(db, page).Some?
            && Projected(ApplyAll(db, page).value, chain, Progress(3, 0, 0))
            && var tables := ApplyAll(ApplyAll(db, page).value, [stray]);
               && tables.Some? && !Projected(tables.value, chain, Progress(3, 0, 0))
               && forall upto: Progress :: !Healable(tables.value, chain, Progress(3, 0, 0), upto)
  {
    hide Projected;
    hide Healable;
    hide Apply;
    hide Between;
    hide ParentsFirst;
    hide Harmless;
    hide Step;
    var chain := WalletHistory(caller, wallet);
    WalletWorlds(caller, wallet);
    EmptyIsProjected(chain);
    db := BatchProjects(EMPTY, chain, Progress(0, 0, 0), IdentityContract, 1);
    page := ParentsFirst(Between(chain, IdentityContract, 1, 3));
    stray := Packet(FirstId(chain, 1), 5, AgentWalletSet(0, wallet));
    StrayInPage(caller, wallet, stray);
    RepeatBeforeSave(db, chain, Progress(1, 0, 0), IdentityContract, 3, [stray]);
    var t := ApplyAll(db, page).value;
    WalletUnsettled(t, chain, wallet, stray);
    var after := ApplyAll(t, [stray]).value;
    WalletBack(t, chain, wallet, stray);
    forall upto: Progress ensures Healable(after, chain, Progress(3, 0, 0), upto) ==> after.agents[0].wallet == None {
      if Healable(after, chain, Progress(3, 0, 0), upto) {
        HealableWallet(after, chain, upto);
      }
    }
  }

  lemma StrayInPage(caller: Address, wallet: Address, stray: Packet)
    requires var chain := WalletHistory(caller, wallet); stray == Packet(FirstId(chain, 1), 5, AgentWalletSet(0, wallet))
    ensures stray in ParentsFirst(Between(WalletHistory(caller, wallet), IdentityContract, 1, 3))
  {
    hide Step;
    var chain := WalletHistory(caller, wallet);
    WalletWorlds(caller, wallet);
    BetweenSplits(chain, IdentityContract, 1, 2, 3);
    BetweenOne(chain, IdentityContract, 1);
    assert EventsOf(chain, 1)[..0] == [];
    assert PacketsOf(chain, 1) == [stray];
    WriteOrderOnly(Between(chain, IdentityContract, 1, 3));
  }

  lemma WalletUnsettled(t: Db, chain: History, wallet: Address, stray: Packet)
    requires |chain| == 3 && Projected(t, chain, Progress(3, 0, 0)) && stray.data == AgentWalletSet(0, wallet)
    requires 0 in WorldAt(chain, 3).id.owners && 0 !in WorldAt(chain, 3).id.wallets
    ensures !Harmless(t, [stray])
  {
    hide Step;
    hide RepMatch;
    hide ValMatch;
    assert AgentMatches(t.agents[0], WorldAt(chain, 3).id, 0, LastLedger(chain, 3));
    var c := Read(t, Wallet(0)).value;
    assert LastCounting(c, [stray], Wallet(0)) == Some(Maybe(Some(wallet)));
    assert !Settles(c, [stray], Wallet(0));
  }

  /** Nothing of identity is left ahead, so a healable wallet is the registry's. */
  lemma HealableWallet(db: Db, chain: History, upto: Progress)
    requires |chain| == 3 && 0 in WorldAt(chain, 3).id.owners && 0 !in WorldAt(chain, 3).id.wallets
    requires Healable(db, chain, Progress(3, 0, 0), upto)
    ensures 0 in db.agents && db.agents[0].wallet == None
  {
    hide Step;
    hide RepMatch;
    hide ValMatch;
    hide Near;
    hide Dense;
    hide NoStrays;
    var at := Progress(3, 0, 0);
    var clean: Db :| Projected(clean, chain, at) && NearTables(clean, db, chain, at, upto);
    assert AgentMatches(clean.agents[0], WorldAt(chain, 3).id, 0, LastLedger(chain, 3));
    assert StreamOf(Wallet(0)) == IdentityContract && upto.id == 3;
    assert Between(chain, IdentityContract, 3, 3) == [] && ParentsFirst([]) == [];
    assert Near(Read(clean, Wallet(0)), Read(db, Wallet(0)), Pending(chain, at, upto, StreamOf(Wallet(0))), Wallet(0));
    assert Near(Read(clean, Wallet(0)), Read(db, Wallet(0)), [], Wallet(0));
    NearDone(Read(clean, Wallet(0)), Read(db, Wallet(0)), Wallet(0));
  }

  lemma WalletBack(t: Db, chain: History, wallet: Address, stray: Packet)
    requires |chain| == 3 && Projected(t, chain, Progress(3, 0, 0)) && stray.data == AgentWalletSet(0, wallet)
    requires 0 in WorldAt(chain, 3).id.owners
    ensures ApplyAll(t, [stray]).Some? && 0 in ApplyAll(t, [stray]).value.agents
    ensures ApplyAll(t, [stray]).value.agents[0].wallet == Some(wallet)
  {
    hide Step;
    hide RepMatch;
    hide ValMatch;
    assert AgentMatches(t.agents[0], WorldAt(chain, 3).id, 0, LastLedger(chain, 3));
    assert [stray][1..] == [];
  }
}
