// Healing: whatever dead runs wrote ahead of the checkpoints, indexing on brings the tables back to the registries.
module Healing {
  import opened Basics
  import opened Events
  import opened Chain
  import opened Tables
  import opened Writer
  import opened Columns
  import opened Guards
  import opened Recovery
  import opened Projection
  import opened EndToEnd
  import opened Streams
  import Identity
  import Reputation
  import Validation

  // ---------------------------------------------------------------- one cell ahead of its checkpoint

  /** `d` is what the events `ps`, written early, may have made of the cell `c`. */
  predicate NearCell(c: Cell, d: Cell, ps: seq<Packet>, col: Column) {
    && Moves(Some(c), ps, col).Some? && AtMost(d.at, Moves(Some(c), ps, col).value.at)
    && (NoGuardedWrites(ps, col) ==> d.at == c.at)
    && (NoWrites(ps, col) ==> d == c)
  }

  ghost predicate Near(c: Option<Cell>, d: Option<Cell>, ps: seq<Packet>, col: Column) {
    match c
    case Some(cell) => d.Some? && NearCell(cell, d.value, ps, col)
    case None => d.None? || exists p :: p in ps && EffectOn(col, p).Create? && NearCell(Cell(None, EffectOn(col, p).value), d.value, ps, col)
  }

  lemma NearSame(c: Cell, ps: seq<Packet>, col: Column)
    ensures NearCell(c, c, ps, col)
  {
    GuardsRise(c, ps, col);
  }

  lemma NearItself(c: Option<Cell>, ps: seq<Packet>, col: Column)
    ensures Near(c, c, ps, col)
  {
    if c.Some? {
      NearSame(c.value, ps, col);
    }
  }

  /** With nothing pending, near is equal. */
  lemma NearDone(c: Option<Cell>, d: Option<Cell>, col: Column)
    requires Near(c, d, [], col)
    ensures c == d
  {
  }

  lemma NearCellExtends(c: Cell, d: Cell, ps: seq<Packet>, qs: seq<Packet>, col: Column)
    requires NearCell(c, d, ps, col) && forall p :: p in ps ==> p in qs
    ensures NearCell(c, d, qs, col)
  {
    hide EffectOn;
    hide Moves;
    GuardsRise(c, qs, col);
    var p := GuardFrom(c, ps, col);
    if p.Some? {
      assert AtMost(Some(p.value.ledger), Moves(Some(c), qs, col).value.at);
    }
  }

  lemma NearExtends(c: Option<Cell>, d: Option<Cell>, ps: seq<Packet>, qs: seq<Packet>, col: Column)
    requires Near(c, d, ps, col) && forall p :: p in ps ==> p in qs
    ensures Near(c, d, qs, col)
  {
    hide EffectOn;
    hide NearCell;
    if c.Some? {
      NearCellExtends(c.value, d.value, ps, qs, col);
    } else if d.Some? {
      var p :| p in ps && EffectOn(col, p).Create? && NearCell(Cell(None, EffectOn(col, p).value), d.value, ps, col);
      NearCellExtends(Cell(None, EffectOn(col, p).value), d.value, ps, qs, col);
    }
  }

  lemma NearCellStray(c: Cell, d: Cell, p: Packet, ps: seq<Packet>, col: Column)
    requires NearCell(c, d, ps, col) && p in ps
    ensures Move(Some(d), p.ledger, EffectOn(col, p)).Some?
    ensures NearCell(c, Move(Some(d), p.ledger, EffectOn(col, p)).value, ps, col)
  {
    hide EffectOn;
    hide Moves;
    GuardsRise(c, ps, col);
  }

  /** One more early write of a pending event. */
  lemma NearStray(c: Option<Cell>, d: Option<Cell>, p: Packet, ps: seq<Packet>, col: Column)
    requires Near(c, d, ps, col) && p in ps
    ensures Near(c, Move(d, p.ledger, EffectOn(col, p)), ps, col)
  {
    hide EffectOn;
    hide NearCell;
    if c.Some? {
      NearCellStray(c.value, d.value, p, ps, col);
    } else if d.Some? {
      var q :| q in ps && EffectOn(col, q).Create? && NearCell(Cell(None, EffectOn(col, q).value), d.value, ps, col);
      NearCellStray(Cell(None, EffectOn(col, q).value), d.value, p, ps, col);
    } else if EffectOn(col, p).Create? {
      NearSame(Cell(None, EffectOn(col, p).value), ps, col);
    }
  }

  /** Indexing the first part of what is pending, in order: near what is left. */
  lemma NearCellStep(c: Cell, d: Cell, first: seq<Packet>, rest: seq<Packet>, ps: seq<Packet>, col: Column)
    requires NearCell(c, d, ps, col) && forall p :: p in ps <==> p in first || p in rest
    requires InLedgerOrder(first) && NotAhead(Some(c), first, col)
    requires Moves(Moves(Some(c), first, col), rest, col) == Moves(Some(c), ps, col)
    ensures Moves(Some(c), first, col).Some? && Moves(Some(d), first, col).Some?
    ensures NearCell(Moves(Some(c), first, col).value, Moves(Some(d), first, col).value, rest, col)
  {
    hide EffectOn;
    hide Moves;
    hide InLedgerOrder;
    hide NotAhead;
    GuardsRise(c, first, col);
    GuardsRise(d, first, col);
    var c', d' := Moves(Some(c), first, col).value, Moves(Some(d), first, col).value;
    var p := GuardFrom(d, first, col);
    GuardsRise(c', rest, col);
    GuardsRise(c, ps, col);
    if p.Some? {
      assert p.value in ps;
      assert AtMost(Some(p.value.ledger), Moves(Some(c), ps, col).value.at);
    }
    if NoGuardedWrites(rest, col) {
      GuardStays(c', rest, col);
      assert NoGuardedWrites(first, col) ==> NoGuardedWrites(ps, col);
      assert NoWrites(first, col) && NoWrites(rest, col) ==> NoWrites(ps, col);
      Converge(c, d, first, col);
    }
  }

  lemma GuardStays(c: Cell, ps: seq<Packet>, col: Column)
    requires NoGuardedWrites(ps, col)
    ensures Moves(Some(c), ps, col).Some? && Moves(Some(c), ps, col).value.at == c.at
  {
    var p := GuardFrom(c, ps, col);
  }

  lemma NearStep(c: Option<Cell>, d: Option<Cell>, first: seq<Packet>, rest: seq<Packet>, ps: seq<Packet>, col: Column)
    requires Near(c, d, ps, col) && forall p :: p in ps <==> p in first || p in rest
    requires InLedgerOrder(first) && NotAhead(c, first, col) && Grounded(c, first, col) && Grounded(c, ps, col) && CreatesAgree(ps, col)
    requires Moves(Moves(c, first, col), rest, col) == Moves(c, ps, col)
    ensures Near(Moves(c, first, col), Moves(d, first, col), rest, col)
  {
    hide EffectOn;
    hide NearCell;
    hide Moves;
    hide InLedgerOrder;
    hide NotAhead;
    hide Grounded;
    if c.Some? {
      NearCellStep(c.value, d.value, first, rest, ps, col);
    } else if d.None? {
      NearItself(Moves(c, first, col), rest, col);
    } else {
      var p :| p in ps && EffectOn(col, p).Create? && NearCell(Cell(None, EffectOn(col, p).value), d.value, ps, col);
      NearNewStep(d.value, p, first, rest, ps, col);
    }
  }

  /** The same for a row that the pending events insert. */
  lemma NearNewStep(d: Cell, p: Packet, first: seq<Packet>, rest: seq<Packet>, ps: seq<Packet>, col: Column)
    requires p in ps && EffectOn(col, p).Create? && NearCell(Cell(None, EffectOn(col, p).value), d, ps, col)
    requires forall q :: q in ps <==> q in first || q in rest
    requires InLedgerOrder(first) && Grounded(None, first, col) && Grounded(None, ps, col) && CreatesAgree(ps, col)
    requires Moves(Moves(None, first, col), rest, col) == Moves(None, ps, col)
    ensures Near(Moves(None, first, col), Moves(Some(d), first, col), rest, col)
  {
    hide EffectOn;
    hide NearCell;
    hide Moves;
    hide InLedgerOrder;
    hide Grounded;
    var v := EffectOn(col, p).value;
    var c := Cell(None, v);
    CreationCreates(None, ps, col);
    CreatedFirst(ps, col, v);
    if Moves(None, first, col).Some? {
      CreatedFirst(first, col, v);
      NewNotAhead(c, first, col);
      NearCellStep(c, d, first, rest, ps, col);
    } else {
      MissingMeansUnwritten(first, col);
      Untouched(d, first, col);
      if exists q :: q in first && EffectOn(col, q).Create? {
        CreationCreates(None, first, col);
      }
      NearCellShrinks(c, d, first, rest, ps, col);
    }
  }

  lemma NewNotAhead(c: Cell, ps: seq<Packet>, col: Column)
    requires c.at.None?
    ensures NotAhead(Some(c), ps, col)
  {
  }

  /** Events that do not write the cell do not keep it apart. */
  lemma NearCellShrinks(c: Cell, d: Cell, first: seq<Packet>, rest: seq<Packet>, ps: seq<Packet>, col: Column)
    requires NearCell(c, d, ps, col) && (forall p :: p in ps <==> p in first || p in rest) && NoWrites(first, col)
    ensures NearCell(c, d, rest, col)
  {
    hide EffectOn;
    hide Moves;
    GuardsRise(c, rest, col);
    var p := GuardFrom(c, ps, col);
    if p.Some? {
      assert IsWrite(EffectOn(col, p.value));
      assert p.value in rest;
      assert AtMost(Some(p.value.ledger), Moves(Some(c), rest, col).value.at);
    }
    assert NoGuardedWrites(rest, col) ==> NoGuardedWrites(ps, col);
    assert NoWrites(rest, col) ==> NoWrites(ps, col);
  }

  // ---------------------------------------------------------------- streams and columns

  function StreamOf(col: Column): Contract {
    match col
    case Revocation(_) => ReputationContract
    case Feedback(_) => ReputationContract
    case Reply(_) => ReputationContract
    case Response(_) => ValidationContract
    case Request(_) => ValidationContract
    case _ => IdentityContract
  }

  function KindOf(e: Event): Contract {
    if e.NewFeedback? || e.FeedbackRevoked? || e.ResponseAppended? then ReputationContract
    else if e.ValidationRequested? || e.ValidationResponded? then ValidationContract
    else IdentityContract
  }

  lemma OtherColumns(col: Column, p: Packet)
    requires KindOf(p.data) != StreamOf(col)
    ensures EffectOn(col, p) == Nothing
  {
  }

  lemma {:induction false} ParsedKinds(ws: seq<Wire>)
    ensures forall e | e in ParseAll(ws) :: KindOf(e) == IdentityContract
  {
    if ws != [] {
      ParsedKinds(ws[..|ws| - 1]);
    }
  }

  lemma {:induction false} NumberedData(es: seq<Event>, first: nat, ledger: nat)
    ensures forall p | p in Number(es, first, ledger) :: p.data in es
  {
    if es != [] {
      NumberedData(es[..|es| - 1], first, ledger);
    }
  }

  /** Each contract's stream holds its own kind of events only. */
  lemma StreamKinds(chain: History, c: Contract, i: nat, j: nat)
    requires i <= j <= |chain|
    ensures forall p | p in Between(chain, c, i, j) :: KindOf(p.data) == c
  {
    hide Between;
    hide PacketsOf;
    hide KindOf;
    forall p | p in Between(chain, c, i, j) ensures KindOf(p.data) == c {
      var m := CallOf(chain, c, i, j, p);
      PacketKind(chain, m, p);
    }
  }

  lemma PacketKind(chain: History, m: nat, p: Packet)
    requires m < |chain| && p in PacketsOf(chain, m)
    ensures KindOf(p.data) == Target(chain[m])
  {
    hide PublishesAlone;
    hide ValidatesAlone;
    match chain[m].call
    case OnIdentity(call) =>
      IdentityKind(chain, m, p);
    case OnReputation(_, _) =>
      ReputationPacket(chain, m, p);
      ReputationEvent(chain, m, p);
    case OnValidation(_, _) =>
      ValidationPacket(chain, m, p);
      ValidationEvent(chain, m, p);
  }

  lemma IdentityKind(chain: History, m: nat, p: Packet)
    requires m < |chain| && chain[m].call.OnIdentity? && p in PacketsOf(chain, m)
    ensures KindOf(p.data) == IdentityContract
  {
    hide Identity.Exec;
    hide Reputation.Exec;
    hide Validation.Exec;
    hide KindOf;
    NumberedData(EventsOf(chain, m), FirstId(chain, m), chain[m].ledger);
    var o := Identity.Exec(WorldAt(chain, m).id, chain[m].call.idCall);
    if o.Done? {
      ParsedKinds(o.emitted);
    }
  }

  // ---------------------------------------------------------------- tables ahead of their checkpoints

  /** What may have been written early: the events of a contract's calls from its checkpoint to `upto`. */
  function Pending(chain: History, at: Progress, upto: Progress, c: Contract): seq<Packet>
    requires Ahead(chain, at, upto)
  {
    ParentsFirst(Between(chain, c, Of(at, c), Of(upto, c)))
  }

  predicate Ahead(chain: History, at: Progress, upto: Progress) {
    && InOrder(chain, at) && at.id <= upto.id <= |chain|
    && at.rep <= upto.rep <= at.id && at.val <= upto.val <= at.id
  }

  ghost predicate NearTables(clean: Db, db: Db, chain: History, at: Progress, upto: Progress)
    requires Ahead(chain, at, upto)
  {
    && NoStrays(db) && Dense(db.responses)
    && forall col: Column :: Near(Read(clean, col), Read(db, col), Pending(chain, at, upto, StreamOf(col)), col)
  }

  /**
   * Tables that only need their checkpoints to pass `upto`: what the registries' state at the
   * checkpoints would be, but for events up to `upto` written early, in any order and any number of times.
   */
  ghost predicate Healable(db: Db, chain: History, at: Progress, upto: Progress) {
    Ahead(chain, at, upto) && exists clean: Db :: Projected(clean, chain, at) && NearTables(clean, db, chain, at, upto)
  }

  /** Resolver columns aside, equal tables are equally healable. */
  lemma HealableOverSameTables(db: Db, db': Db, chain: History, at: Progress, upto: Progress)
    requires Healable(db, chain, at, upto) && SameTables(db, db') && db'.responses == db.responses
    ensures Healable(db', chain, at, upto)
  {
    hide Projected;
    hide Near;
    hide Read;
    hide Pending;
    hide Dense;
    var clean: Db :| Projected(clean, chain, at) && NearTables(clean, db, chain, at, upto);
    forall col: Column ensures Near(Read(clean, col), Read(db', col), Pending(chain, at, upto, StreamOf(col)), col) {
      SameTablesRead(db, db', col);
    }
    assert NearTables(clean, db', chain, at, upto);
  }

  lemma NothingPending(chain: History, at: Progress, c: Contract)
    requires InOrder(chain, at)
    ensures Pending(chain, at, at, c) == []
  {
  }

  lemma ProjectedNoStrays(db: Db, chain: History, at: Progress)
    requires InOrder(chain, at) && Projected(db, chain, at)
    ensures NoStrays(db)
  {
    hide Step;
    hide IdMatch;
    hide RepMatch;
    hide ValMatch;
    hide Identity.Inv;
    hide Reputation.Inv;
    hide Validation.Inv;
    WorldInv(chain, at.id);
    MatchedNoStrays(db, WorldAt(chain, at.id).id, LastLedger(chain, at.id));
  }

  /** Tables equal to the registries at the checkpoints are healable, with nothing ahead. */
  lemma ProjectedIsHealable(db: Db, chain: History, at: Progress)
    requires InOrder(chain, at) && Projected(db, chain, at)
    ensures Healable(db, chain, at, at)
  {
    hide Projected;
    hide Read;
    hide Near;
    hide Dense;
    hide NoStrays;
    ProjectedNoStrays(db, chain, at);
    ProjectedIsDense(db, chain, at);
    forall col: Column ensures Near(Read(db, col), Read(db, col), Pending(chain, at, at, StreamOf(col)), col) {
      NearItself(Read(db, col), Pending(chain, at, at, StreamOf(col)), col);
    }
    assert NearTables(db, db, chain, at, at);
  }

  /** And healable tables with nothing ahead equal the registries at the checkpoints. */
  lemma HealedIsProjected(db: Db, chain: History, at: Progress)
    requires Healable(db, chain, at, at)
    ensures Projected(db, chain, at)
  {
    hide Projected;
    hide Read;
    hide Near;
    hide Dense;
    hide NoStrays;
    hide SameTables;
    hide Pending;
    var clean: Db :| Projected(clean, chain, at) && NearTables(clean, db, chain, at, at);
    ProjectedNoStrays(clean, chain, at);
    forall col: Column ensures Read(db, col) == Read(clean, col) {
      NothingPending(chain, at, StreamOf(col));
      NearDone(Read(clean, col), Read(db, col), col);
    }
    ColumnsDecide(clean, db);
    SameProjected(clean, db, chain, at);
  }

  // ---------------------------------------------------------------- early writes

  lemma {:induction false} WriteOrderOnly(ps: seq<Packet>)
    ensures forall p :: p in ParentsFirst(ps) <==> p in ps
  {
    WriteOrderHas(ps);
    RegsAreMembers(ps);
    OthersOnly(ps);
  }

  lemma PendingMembers(chain: History, at: Progress, upto: Progress, c: Contract)
    requires Ahead(chain, at, upto)
    ensures forall p :: p in Pending(chain, at, upto, c) <==> p in Between(chain, c, Of(at, c), Of(upto, c))
  {
    WriteOrderOnly(Between(chain, c, Of(at, c), Of(upto, c)));
  }

  lemma PendingKinds(chain: History, at: Progress, upto: Progress, c: Contract)
    requires Ahead(chain, at, upto)
    ensures forall p | p in Pending(chain, at, upto, c) :: KindOf(p.data) == c
  {
    PendingMembers(chain, at, upto, c);
    StreamKinds(chain, c, Of(at, c), Of(upto, c));
  }

  lemma StrayWrite(clean: Db, db: Db, chain: History, at: Progress, upto: Progress, c: Contract, p: Packet)
    requires Ahead(chain, at, upto) && NearTables(clean, db, chain, at, upto)
    requires p in Pending(chain, at, upto, c) && Apply(db, p).Changed?
    ensures NearTables(clean, Apply(db, p).db, chain, at, upto)
  {
    hide Apply;
    hide Read;
    hide Near;
    hide Dense;
    hide NoStrays;
    hide EffectOn;
    hide Pending;
    hide StreamOf;
    PendingKinds(chain, at, upto, c);
    ApplyKeepsNoStrays(db, p);
    StatementKeepsDense(db, p);
    forall col: Column ensures Near(Read(clean, col), Read(Apply(db, p).db, col), Pending(chain, at, upto, StreamOf(col)), col) {
      CellMoves(db, p, col);
      if StreamOf(col) == c {
        NearStray(Read(clean, col), Read(db, col), p, Pending(chain, at, upto, c), col);
      } else {
        OtherColumns(col, p);
      }
    }
  }

  /** Any pending events, in any order, as far as they succeed or until one stops the writer. */
  lemma {:induction false} StrayWrites(clean: Db, db: Db, chain: History, at: Progress, upto: Progress, c: Contract,
                                       junk: seq<Packet>, skip: bool)
    requires Ahead(chain, at, upto) && NearTables(clean, db, chain, at, upto)
    requires forall p | p in junk :: p in Pending(chain, at, upto, c)
    ensures NearTables(clean, Play(db, junk, skip).db, chain, at, upto)
    decreases junk
  {
    hide Apply;
    hide NearTables;
    hide Pending;
    if junk != [] {
      var a := Apply(db, junk[0]);
      if a.Changed? {
        StrayWrite(clean, db, chain, at, upto, c, junk[0]);
        StrayWrites(clean, a.db, chain, at, upto, c, junk[1..], skip);
      } else if skip {
        StrayWrites(clean, db, chain, at, upto, c, junk[1..], skip);
      }
    }
  }

  function Max(a: nat, b: nat): nat {
    if a <= b then b else a
  }

  function Raise(upto: Progress, c: Contract, n: nat): Progress {
    Advance(upto, c, Max(Of(upto, c), n))
  }

  lemma NearTablesRaise(clean: Db, db: Db, chain: History, at: Progress, upto: Progress, c: Contract, n: nat)
    requires Ahead(chain, at, upto) && NearTables(clean, db, chain, at, upto) && LawfulStep(chain, at, c, n)
    ensures Ahead(chain, at, Raise(upto, c, n)) && NearTables(clean, db, chain, at, Raise(upto, c, n))
  {
    hide Read;
    hide Near;
    hide Dense;
    hide NoStrays;
    hide Pending;
    hide StreamOf;
    hide Between;
    var upto' := Raise(upto, c, n);
    forall col: Column ensures Near(Read(clean, col), Read(db, col), Pending(chain, at, upto', StreamOf(col)), col) {
      var k := StreamOf(col);
      PendingMembers(chain, at, upto, k);
      PendingMembers(chain, at, upto', k);
      BetweenSplits(chain, k, Of(at, k), Of(upto, k), Of(upto', k));
      NearExtends(Read(clean, col), Read(db, col), Pending(chain, at, upto, k), Pending(chain, at, upto', k), col);
    }
  }

  /** A run that dies while writing a contract's next events leaves healable tables. */
  lemma DeadRunIsHealable(db: Db, chain: History, at: Progress, upto: Progress, c: Contract, n: nat, junk: seq<Packet>, skip: bool)
    requires Healable(db, chain, at, upto) && LawfulStep(chain, at, c, n)
    requires forall p | p in junk :: p in Between(chain, c, Of(at, c), n)
    ensures Healable(Play(db, junk, skip).db, chain, at, Raise(upto, c, n))
  {
    hide Projected;
    hide NearTables;
    hide Pending;
    hide Between;
    var clean: Db :| Projected(clean, chain, at) && NearTables(clean, db, chain, at, upto);
    var upto' := Raise(upto, c, n);
    NearTablesRaise(clean, db, chain, at, upto, c, n);
    PendingMembers(chain, at, upto', c);
    BetweenSplits(chain, c, Of(at, c), n, Of(upto', c));
    StrayWrites(clean, db, chain, at, upto', c, junk, skip);
  }

  // ---------------------------------------------------------------- indexing on

  lemma NearRows(clean: Db, db: Db, chain: History, at: Progress, upto: Progress)
    requires Ahead(chain, at, upto) && NearTables(clean, db, chain, at, upto)
    ensures RowsKept(clean, db)
  {
    hide Pending;
    hide NearCell;
    forall id | id in clean.agents ensures id in db.agents {
      assert Near(Read(clean, Birth(id)), Read(db, Birth(id)), Pending(chain, at, upto, StreamOf(Birth(id))), Birth(id));
    }
    forall k | k in clean.feedback ensures k in db.feedback {
      assert Near(Read(clean, Feedback(k)), Read(db, Feedback(k)), Pending(chain, at, upto, StreamOf(Feedback(k))), Feedback(k));
    }
    forall e | e in clean.responses ensures e in db.responses {
      assert Near(Read(clean, Reply(e)), Read(db, Reply(e)), Pending(chain, at, upto, StreamOf(Reply(e))), Reply(e));
    }
    forall h | h in clean.validations ensures h in db.validations {
      assert Near(Read(clean, Request(h)), Read(db, Request(h)), Pending(chain, at, upto, StreamOf(Request(h))), Request(h));
    }
  }

  lemma {:induction false} NoEffects(c: Option<Cell>, ps: seq<Packet>, col: Column)
    requires forall p | p in ps :: EffectOn(col, p) == Nothing
    ensures Moves(c, ps, col) == c
  {
    hide EffectOn;
    if ps != [] {
      NoEffects(c, ps[..|ps| - 1], col);
    }
  }

  /** A contract's batch in two parts: the same tables, the same events. */
  lemma SplitBatch(clean: Db, chain: History, at: Progress, c: Contract, n: nat, m: nat)
    requires Chain.Ordered(chain) && LawfulStep(chain, at, c, n) && LawfulStep(chain, at, c, m) && n <= m && Projected(clean, chain, at)
    ensures var i := Of(at, c);
            var first, rest, ps := ParentsFirst(Between(chain, c, i, n)), ParentsFirst(Between(chain, c, n, m)), ParentsFirst(Between(chain, c, i, m));
            && ApplyAll(clean, first).Some? && ApplyAll(clean, ps).Some?
            && ApplyAll(ApplyAll(clean, first).value, rest) == ApplyAll(clean, ps)
            && forall p :: p in ps <==> p in first || p in rest
  {
    hide Apply;
    hide Step;
    hide Between;
    hide ParentsFirst;
    hide IdMatch;
    hide RepMatch;
    hide ValMatch;
    var i := Of(at, c);
    var db1 := BatchProjects(clean, chain, at, c, n);
    var db2 := BatchProjects(clean, chain, at, c, m);
    BetweenSplits(chain, c, i, n, m);
    WriteOrderOnly(Between(chain, c, i, n));
    WriteOrderOnly(Between(chain, c, n, m));
    WriteOrderOnly(Between(chain, c, i, m));
    if c == IdentityContract {
      PagingIndependence(clean, chain, i, n, m);
    } else {
      Unregistered(chain, c, i, n);
      Unregistered(chain, c, n, m);
      Unregistered(chain, c, i, m);
      ApplyAllConcat(clean, Between(chain, c, i, n), Between(chain, c, n, m));
    }
  }

  lemma Unregistered(chain: History, c: Contract, i: nat, j: nat)
    requires i <= j <= |chain| && c != IdentityContract
    ensures ParentsFirst(Between(chain, c, i, j)) == Between(chain, c, i, j)
  {
    hide Between;
    StreamKinds(chain, c, i, j);
    NoRegistrations(Between(chain, c, i, j));
  }

  /** One column of the step. */
  lemma ColumnSteps(clean: Db, db: Db, chain: History, at: Progress, upto: Progress, c: Contract, n: nat, col: Column)
    requires Chain.Ordered(chain) && Ahead(chain, at, upto) && LawfulStep(chain, at, c, n) && n <= Of(upto, c)
    requires Projected(clean, chain, at) && NearTables(clean, db, chain, at, upto)
    ensures var first := ParentsFirst(Between(chain, c, Of(at, c), n));
            && Ahead(chain, Advance(at, c, n), upto)
            && Near(Moves(Read(clean, col), first, col), Moves(Read(db, col), first, col),
                    Pending(chain, Advance(at, c, n), upto, StreamOf(col)), col)
  {
    hide Projected;
    hide Apply;
    hide Read;
    hide Near;
    hide Dense;
    hide NoStrays;
    hide EffectOn;
    hide Moves;
    hide Between;
    hide ParentsFirst;
    hide InLedgerOrder;
    hide NotAhead;
    hide Grounded;
    hide CreatesAgree;
    hide NoneMissing;
    var i, m := Of(at, c), Of(upto, c);
    var first, rest, ps := ParentsFirst(Between(chain, c, i, n)), ParentsFirst(Between(chain, c, n, m)), ParentsFirst(Between(chain, c, i, m));
    assert Near(Read(clean, col), Read(db, col), Pending(chain, at, upto, StreamOf(col)), col);
    if StreamOf(col) == c {
      BatchOrderly(clean, chain, at, c, n);
      BatchOrderly(clean, chain, at, c, m);
      SplitBatch(clean, chain, at, c, n, m);
      WritesFindRows(clean, first, col);
      WritesFindRows(clean, ps, col);
      ColumnMoves(clean, first, col);
      ColumnMoves(ApplyAll(clean, first).value, rest, col);
      ColumnMoves(clean, ps, col);
      NearStep(Read(clean, col), Read(db, col), first, rest, ps, col);
    } else {
      OtherStreamStays(chain, c, i, n, Read(clean, col), col);
      OtherStreamStays(chain, c, i, n, Read(db, col), col);
    }
  }

  lemma OtherStreamStays(chain: History, c: Contract, i: nat, n: nat, cell: Option<Cell>, col: Column)
    requires i <= n <= |chain| && StreamOf(col) != c
    ensures Moves(cell, ParentsFirst(Between(chain, c, i, n)), col) == cell
  {
    hide EffectOn;
    hide Between;
    hide ParentsFirst;
    hide StreamOf;
    var ps := Between(chain, c, i, n);
    StreamKinds(chain, c, i, n);
    WriteOrderOnly(ps);
    forall p | p in ParentsFirst(ps) ensures EffectOn(col, p) == Nothing {
      OtherColumns(col, p);
    }
    NoEffects(cell, ParentsFirst(ps), col);
  }

  /** Over healable tables every batch succeeds, and leaves them healable further on. */
  lemma BatchHeals(db: Db, chain: History, at: Progress, upto: Progress, c: Contract, n: nat)
    requires Chain.Ordered(chain) && Healable(db, chain, at, upto) && LawfulStep(chain, at, c, n)
    ensures var batch := ParentsFirst(Between(chain, c, Of(at, c), n));
            ApplyAll(db, batch).Some? && Healable(ApplyAll(db, batch).value, chain, Advance(at, c, n), Raise(upto, c, n))
    ensures forall p | p in Between(chain, c, Of(at, c), n) :: Readable(p)
  {
    hide Projected;
    hide Apply;
    hide Read;
    hide Near;
    hide Dense;
    hide NoStrays;
    hide Between;
    hide ParentsFirst;
    hide Orderly;
    hide Pending;
    hide Moves;
    hide RowsKept;
    var clean: Db :| Projected(clean, chain, at) && NearTables(clean, db, chain, at, upto);
    var upto', at' := Raise(upto, c, n), Advance(at, c, n);
    NearTablesRaise(clean, db, chain, at, upto, c, n);
    var first := ParentsFirst(Between(chain, c, Of(at, c), n));
    var clean' := BatchProjects(clean, chain, at, c, n);
    NearRows(clean, db, chain, at, upto);
    BatchBounds(clean, chain, at, c, n);
    RunWorksWithMore(clean, db, first);
    var db' := ApplyAll(db, first).value;
    ProjectedNoStrays(clean, chain, at);
    CommittedBatch(db, first, true);
    NumbersStayDense(db, first);
    ColumnMoves(db, first, Owner(0));
    forall col: Column ensures Near(Read(clean', col), Read(db', col), Pending(chain, at', upto', StreamOf(col)), col) {
      ColumnSteps(clean, db, chain, at, upto', c, n, col);
      ColumnMoves(clean, first, col);
      ColumnMoves(db, first, col);
    }
    assert NearTables(clean', db', chain, at', upto');
  }

  /** More rows miss no more updates. */
  lemma NoneMissingWithMore(clean: Db, db: Db, ps: seq<Packet>)
    requires RowsKept(clean, db) && NoneMissing(clean, ps)
    ensures NoneMissing(db, ps)
  {
    hide Apply;
    hide RowMissing;
    hide RowsKept;
    hide InBounds;
    RunWorksWithMore(clean, db, ps);
    forall k | 0 <= k < |ps| ensures ApplyAll(db, ps[..k]).Some? && !RowMissing(ApplyAll(db, ps[..k]).value, ps[k]) {
      StatementWorked(db, ps, k);
      StatementWorked(clean, ps, k);
      RunKeepsRows(clean, db, ps[..k]);
      FoundStaysFound(ApplyAll(clean, ps[..k]).value, ApplyAll(db, ps[..k]).value, ps[k]);
    }
  }

  lemma {:induction false} RunKeepsRows(clean: Db, db: Db, ps: seq<Packet>)
    requires RowsKept(clean, db) && ApplyAll(clean, ps).Some? && ApplyAll(db, ps).Some? && forall p | p in ps :: InBounds(p)
    ensures RowsKept(ApplyAll(clean, ps).value, ApplyAll(db, ps).value)
    decreases ps
  {
    hide Apply;
    hide RowsKept;
    if ps != [] {
      WorksWithMore(clean, db, ps[0]);
      RunKeepsRows(Apply(clean, ps[0]).db, Apply(db, ps[0]).db, ps[1..]);
    }
  }

  /** Over healable tables no event of the next batch misses its row. */
  lemma BatchFindsRows(db: Db, chain: History, at: Progress, upto: Progress, c: Contract, n: nat)
    requires Chain.Ordered(chain) && Healable(db, chain, at, upto) && LawfulStep(chain, at, c, n)
    ensures NoneMissing(db, ParentsFirst(Between(chain, c, Of(at, c), n)))
  {
    hide Projected;
    hide NearTables;
    hide NoneMissing;
    hide Between;
    hide ParentsFirst;
    var clean: Db :| Projected(clean, chain, at) && NearTables(clean, db, chain, at, upto);
    NearRows(clean, db, chain, at, upto);
    BatchOrderly(clean, chain, at, c, n);
    OrderlyFindsRows(clean, ParentsFirst(Between(chain, c, Of(at, c), n)));
    NoneMissingWithMore(clean, db, ParentsFirst(Between(chain, c, Of(at, c), n)));
  }

  /** So its chunks dead-letter nothing. */
  lemma BatchLeavesNoLetters(db: Db, chain: History, at: Progress, upto: Progress, c: Contract, n: nat, skip: bool)
    requires Chain.Ordered(chain) && Healable(db, chain, at, upto) && LawfulStep(chain, at, c, n)
    ensures PlayChunks(db, ParentsFirst(Between(chain, c, Of(at, c), n)), skip).letters == {}
  {
    hide Healable;
    hide NoneMissing;
    hide PlayChunks;
    hide ParentsFirst;
    BatchFindsRows(db, chain, at, upto, c, n);
    ChunksLeaveNoLetters(db, ParentsFirst(Between(chain, c, Of(at, c), n)), skip);
  }

  lemma OrderlyFindsRows(db: Db, ps: seq<Packet>)
    requires Orderly(db, ps)
    ensures NoneMissing(db, ps)
  {
  }

  lemma BatchBounds(db: Db, chain: History, at: Progress, c: Contract, n: nat)
    requires Chain.Ordered(chain) && LawfulStep(chain, at, c, n) && Projected(db, chain, at)
    ensures forall p | p in ParentsFirst(Between(chain, c, Of(at, c), n)) :: InBounds(p)
  {
    hide Projected;
    BatchOrderly(db, chain, at, c, n);
  }

  /**
   * Crash safety in one step: over tables equal to the registries at the checkpoints, let any of a
   * contract's next events be written in any order, any number of times, some failing. Indexing those
   * ledgers from the checkpoint then succeeds, and the tables equal the registries again.
   */
  lemma CrashRecovered(db: Db, chain: History, at: Progress, c: Contract, n: nat, junk: seq<Packet>, skip: bool)
    requires Chain.Ordered(chain) && LawfulStep(chain, at, c, n) && Projected(db, chain, at)
    requires forall p | p in junk :: p in Between(chain, c, Of(at, c), n)
    ensures var again := ParentsFirst(Between(chain, c, Of(at, c), n));
            var repaired := ApplyAll(Play(db, junk, skip).db, again);
            repaired.Some? && InOrder(chain, Advance(at, c, n)) && Projected(repaired.value, chain, Advance(at, c, n))
  {
    hide Projected;
    hide Healable;
    hide Apply;
    hide Between;
    hide ParentsFirst;
    ProjectedIsHealable(db, chain, at);
    DeadRunIsHealable(db, chain, at, at, c, n, junk, skip);
    BatchHeals(Play(db, junk, skip).db, chain, at, Raise(at, c, n), c, n);
    HealedIsProjected(ApplyAll(Play(db, junk, skip).db, ParentsFirst(Between(chain, c, Of(at, c), n))).value, chain, Advance(at, c, n));
  }
}
