// Histories indexed by any lawful plan, then written again: by stale writers, or in order from earlier calls.
module Replays {
  import opened Basics
  import opened Events
  import opened Chain
  import opened Tables
  import opened Columns
  import opened Recovery
  import opened Projection
  import opened EndToEnd
  import opened Streams
  import opened Healing
  import opened Stale

  // ---------------------------------------------------------------- all that a plan writes

  function Batch(chain: History, at: Progress, m: Stage): seq<Packet>
    requires Of(at, m.contract) <= m.upTo <= |chain|
  {
    ParentsFirst(Between(chain, m.contract, Of(at, m.contract), m.upTo))
  }

  /** Every stage goes on from where its contract stands, whatever the other contracts. */
  predicate Forward(chain: History, at: Progress, plan: seq<Stage>)
    decreases plan
  {
    plan != [] ==>
      && Of(at, plan[0].contract) <= plan[0].upTo <= |chain|
      && Forward(chain, Advance(at, plan[0].contract, plan[0].upTo), plan[1..])
  }

  /** The events of a plan's batches, in the order they are written. */
  function Written(chain: History, at: Progress, plan: seq<Stage>): seq<Packet>
    requires Forward(chain, at, plan)
    decreases plan
  {
    if plan == [] then []
    else Batch(chain, at, plan[0]) + Written(chain, Advance(at, plan[0].contract, plan[0].upTo), plan[1..])
  }

  lemma {:induction false} LawfulIsForward(chain: History, at: Progress, plan: seq<Stage>)
    requires LawfulPlan(chain, at, plan)
    ensures Forward(chain, at, plan)
    decreases plan
  {
    if plan != [] {
      LawfulIsForward(chain, Advance(at, plan[0].contract, plan[0].upTo), plan[1..]);
    }
  }

  /** A plan writes its batches one after the other. */
  lemma {:induction false} IndexIsWritten(db: Db, chain: History, at: Progress, plan: seq<Stage>)
    requires LawfulPlan(chain, at, plan) && Forward(chain, at, plan)
    ensures Index(db, chain, at, plan) == ApplyAll(db, Written(chain, at, plan))
    decreases plan
  {
    hide Apply;
    hide Between;
    hide ParentsFirst;
    if plan == [] {
      assert Written(chain, at, plan) == [];
    } else {
      var m := plan[0];
      var at', batch := Advance(at, m.contract, m.upTo), Batch(chain, at, m);
      ApplyAllConcat(db, batch, Written(chain, at', plan[1..]));
      if ApplyAll(db, batch).Some? {
        IndexIsWritten(ApplyAll(db, batch).value, chain, at', plan[1..]);
      } else {
        FailedStays(db, batch, Written(chain, at', plan[1..]));
      }
    }
  }

  lemma {:induction false} FailedStays(db: Db, ps: seq<Packet>, qs: seq<Packet>)
    requires ApplyAll(db, ps).None?
    ensures ApplyAll(db, ps + qs).None?
    decreases ps
  {
    hide Apply;
    if ps != [] {
      assert (ps + qs)[0] == ps[0] && (ps + qs)[1..] == ps[1..] + qs;
      if Apply(db, ps[0]).Changed? {
        FailedStays(Apply(db, ps[0]).db, ps[1..], qs);
      }
    }
  }

  lemma {:induction false} FinalGrows(chain: History, at: Progress, plan: seq<Stage>, c: Contract)
    requires Forward(chain, at, plan) && Of(at, c) <= |chain|
    ensures Of(at, c) <= Of(Final(at, plan), c) <= |chain|
    decreases plan
  {
    if plan != [] {
      FinalGrows(chain, Advance(at, plan[0].contract, plan[0].upTo), plan[1..], c);
    }
  }

  /** What a plan writes are its contracts' events between its two ends. */
  lemma {:induction false} WrittenHas(chain: History, at: Progress, plan: seq<Stage>, c: Contract, p: Packet)
    requires Forward(chain, at, plan) && Of(at, c) <= |chain|
    ensures Of(at, c) <= Of(Final(at, plan), c) <= |chain|
    ensures p in Between(chain, c, Of(at, c), Of(Final(at, plan), c)) ==> p in Written(chain, at, plan)
    decreases plan
  {
    hide Between;
    hide ParentsFirst;
    FinalGrows(chain, at, plan, c);
    if plan == [] {
      NothingBetween(chain, c, Of(at, c));
    } else {
      var m := plan[0];
      var at' := Advance(at, m.contract, m.upTo);
      FinalGrows(chain, at', plan[1..], c);
      WrittenHas(chain, at', plan[1..], c, p);
      BetweenSplits(chain, c, Of(at, c), Of(at', c), Of(Final(at, plan), c));
      if c == m.contract {
        WriteOrderOnly(Between(chain, c, Of(at, c), m.upTo));
      } else {
        NothingBetween(chain, c, Of(at, c));
      }
    }
  }

  lemma NothingBetween(chain: History, c: Contract, n: nat)
    requires n <= |chain|
    ensures Between(chain, c, n, n) == []
  {
  }

  lemma {:induction false} WrittenOnly(chain: History, at: Progress, plan: seq<Stage>, p: Packet) returns (c: Contract)
    requires Forward(chain, at, plan) && p in Written(chain, at, plan) && forall k: Contract :: Of(at, k) <= |chain|
    ensures Of(at, c) <= Of(Final(at, plan), c) <= |chain| && p in Between(chain, c, Of(at, c), Of(Final(at, plan), c))
    decreases plan
  {
    hide Between;
    hide ParentsFirst;
    var m := plan[0];
    var at' := Advance(at, m.contract, m.upTo);
    if p in Batch(chain, at, m) {
      c := m.contract;
      WriteOrderOnly(Between(chain, c, Of(at, c), m.upTo));
      FinalGrows(chain, at', plan[1..], c);
      BetweenSplits(chain, c, Of(at, c), m.upTo, Of(Final(at, plan), c));
    } else {
      assert forall k: Contract | k != m.contract :: Of(at', k) == Of(at, k);
      c := WrittenOnly(chain, at', plan[1..], p);
      BetweenSplits(chain, c, Of(at, c), Of(at', c), Of(Final(at, plan), c));
    }
  }

  // ---------------------------------------------------------------- the tables have taken in all of it

  lemma {:induction false} PlanAbsorbs(db: Db, chain: History, at: Progress, plan: seq<Stage>)
    requires Chain.Ordered(chain) && LawfulPlan(chain, at, plan) && Projected(db, chain, at)
    ensures Forward(chain, at, plan) && ApplyAll(db, Written(chain, at, plan)).Some?
    ensures var tables := ApplyAll(db, Written(chain, at, plan)).value;
            NoStrays(tables) && AbsorbedAll(tables, Written(chain, at, plan))
    decreases plan
  {
    hide Projected;
    hide Apply;
    hide Absorbed;
    hide Between;
    hide ParentsFirst;
    hide NoStrays;
    hide NoneMissing;
    hide Orderly;
    LawfulIsForward(chain, at, plan);
    if plan == [] {
      ProjectedNoStrays(db, chain, at);
    } else {
      var m := plan[0];
      var at', batch := Advance(at, m.contract, m.upTo), Batch(chain, at, m);
      var db' := BatchProjects(db, chain, at, m.contract, m.upTo);
      BatchOrderly(db, chain, at, m.contract, m.upTo);
      OrderlyFacts(db, batch);
      RunAbsorbs(db, batch);
      PlanAbsorbs(db', chain, at', plan[1..]);
      var rest := Written(chain, at', plan[1..]);
      ApplyAllConcat(db, batch, rest);
      AllAbsorbedStay(db', rest, batch);
      AbsorbedBoth(ApplyAll(db', rest).value, batch, rest);
    }
  }

  lemma AbsorbedBoth(db: Db, ps: seq<Packet>, qs: seq<Packet>)
    requires AbsorbedAll(db, ps) && AbsorbedAll(db, qs)
    ensures AbsorbedAll(db, ps + qs)
  {
    hide Absorbed;
  }

  /** A projected cell is fixed by the registries where events can write it. */
  lemma ValueFixed(db: Db, db': Db, chain: History, at: Progress, col: Column, v: Value)
    requires InOrder(chain, at) && Projected(db, chain, at) && Projected(db', chain, at)
    requires Read(db, col).Some? && Read(db', col).Some? && Read(db', col).value.at == Read(db, col).value.at
    requires Read(db', col).value.value == v && (col.Response? ==> v.Verdict? && v.hasResponse)
    requires !col.Birth? && !col.Feedback? && !col.Request? && !col.Reply?
    ensures Read(db, col).value.value == v
  {
    hide Step;
    hide Numbers;
    match col
    case Owner(id) => assert AgentMatches(db.agents[id], WorldAt(chain, at.id).id, id, LastLedger(chain, at.id));
    case Uri(id) => assert AgentMatches(db.agents[id], WorldAt(chain, at.id).id, id, LastLedger(chain, at.id));
    case Wallet(id) => assert AgentMatches(db.agents[id], WorldAt(chain, at.id).id, id, LastLedger(chain, at.id));
    case Metadata(id, key) =>
    case Revocation(k) =>
      assert FeedbackMatches(db.feedback[k], WorldAt(chain, at.rep).rep.feedback[k]);
      assert FeedbackMatches(db'.feedback[k], WorldAt(chain, at.rep).rep.feedback[k]);
    case Response(h) =>
      assert StatusMatches(db.validations[h], WorldAt(chain, at.val).val.validations[h], LastLedger(chain, at.val));
      assert StatusMatches(db'.validations[h], WorldAt(chain, at.val).val.validations[h], LastLedger(chain, at.val));
  }

  // ---------------------------------------------------------------- stale writers

  lemma CountingValue(c: Cell, ps: seq<Packet>, col: Column) returns (p: Packet)
    requires LastCounting(c, ps, col).Some?
    ensures p in ps && Counts(c, p, col) && EffectOn(col, p).value == LastCounting(c, ps, col).value
  {
    hide EffectOn;
    var k := |ps| - 1;
    p := ps[k];
    if !Counts(c, p, col) {
      p := CountingValue(c, ps[..k], col);
    }
  }

  /** Only columns that events write count, and a response that is written is one. */
  lemma CountingColumns(c: Cell, p: Packet, col: Column)
    requires Counts(c, p, col)
    ensures !col.Birth? && !col.Feedback? && !col.Request? && !col.Reply?
    ensures col.Response? ==> EffectOn(col, p).value.Verdict? && EffectOn(col, p).value.hasResponse
  {
  }

  lemma CellMustSettle(db: Db, db': Db, chain: History, at: Progress, stale: seq<Packet>, col: Column)
    requires InOrder(chain, at) && Projected(db, chain, at) && Projected(db', chain, at)
    requires Read(db, col).Some? && Read(db', col) == Moves(Read(db, col), stale, col) && Seen(Read(db, col).value, stale, col)
    ensures Settles(Read(db, col).value, stale, col)
  {
    hide Projected;
    hide Read;
    hide EffectOn;
    hide Moves;
    hide Seen;
    var c := Read(db, col).value;
    StaleMoves(c, stale, col);
    if LastCounting(c, stale, col).Some? {
      var p := CountingValue(c, stale, col);
      CountingColumns(c, p, col);
      ValueFixed(db, db', chain, at, col, EffectOn(col, p).value);
    }
  }

  /** Stale writes leave the registries' state in the tables exactly when they are harmless. */
  lemma ProjectedExactly(db: Db, chain: History, at: Progress, stale: seq<Packet>)
    requires InOrder(chain, at) && Projected(db, chain, at) && NoStrays(db) && AbsorbedAll(db, stale)
    ensures ApplyAll(db, stale).Some?
    ensures Projected(ApplyAll(db, stale).value, chain, at) <==> Harmless(db, stale)
  {
    hide Projected;
    hide Apply;
    hide Read;
    hide EffectOn;
    hide Moves;
    hide Settles;
    hide NoStrays;
    hide Absorbed;
    hide SameTables;
    hide Dense;
    hide ResolversAfter;
    StaleOver(db, stale);
    var db' := ApplyAll(db, stale).value;
    if Harmless(db, stale) {
      ProjectedIsDense(db, chain, at);
      SameProjected(db, db', chain, at);
    }
    if Projected(db', chain, at) {
      AbsorbedIsIndexed(db, stale);
      forall col: Column ensures Read(db, col).Some? ==> Settles(Read(db, col).value, stale, col) {
        if Read(db, col).Some? {
          ColumnMoves(db, stale, col);
          CellSeenOf(db, stale, col);
          CellMustSettle(db, db', chain, at, stale, col);
        }
      }
    }
  }

  lemma CellSeenOf(db: Db, stale: seq<Packet>, col: Column)
    requires Indexed(db, stale) && Read(db, col).Some?
    ensures Seen(Read(db, col).value, stale, col)
  {
    hide Read;
    hide EffectOn;
  }

  /**
   * Over the tables any lawful plan left, let stale writers repeat any events of any of its batches, in any
   * order and number. All succeed. They change no table, and the tables still hold the registries' state,
   * exactly when the events are harmless; and no wallet or metadata changes when their page spares them.
   */
  lemma StaleHistory(db: Db, chain: History, at: Progress, plan: seq<Stage>, stale: seq<Packet>)
    requires Chain.Ordered(chain) && LawfulPlan(chain, at, plan) && Projected(db, chain, at)
    requires Forward(chain, at, plan) && forall p | p in stale :: p in Written(chain, at, plan)
    ensures Index(db, chain, at, plan).Some? && InOrder(chain, Final(at, plan))
    ensures var tables := Index(db, chain, at, plan).value;
            && Projected(tables, chain, Final(at, plan))
            && ApplyAll(tables, stale).Some?
            && var after := ApplyAll(tables, stale).value;
               && (SameTables(tables, after) <==> Harmless(tables, stale))
               && (Projected(after, chain, Final(at, plan)) <==> Harmless(tables, stale))
               && ResolversAfter(tables, stale, after)
               && after.responses == tables.responses
               && (SparesWallets(tables, stale) ==> forall col: Column | IsUnguarded(col) :: Read(after, col) == Read(tables, col))
  {
    hide Projected;
    hide Apply;
    hide Between;
    hide ParentsFirst;
    hide Absorbed;
    hide SameTables;
    hide Harmless;
    hide ResolversAfter;
    hide SparesWallets;
    hide Read;
    hide NoStrays;
    TablesFollowRegistries(db, chain, at, plan);
    IndexIsWritten(db, chain, at, plan);
    PlanAbsorbs(db, chain, at, plan);
    var tables := Index(db, chain, at, plan).value;
    StaleOver(tables, stale);
    ProjectedExactly(tables, chain, Final(at, plan), stale);
    AbsorbedIsIndexed(tables, stale);
    if SparesWallets(tables, stale) {
      forall col: Column | IsUnguarded(col) ensures Read(ApplyAll(tables, stale).value, col) == Read(tables, col) {
        WalletsSpared(tables, stale, col);
      }
    }
  }

  // ---------------------------------------------------------------- indexing again

  lemma {:induction false} CountingConcat(c: Cell, ps: seq<Packet>, qs: seq<Packet>, col: Column)
    ensures LastCounting(c, ps + qs, col) == if LastCounting(c, qs, col).Some? then LastCounting(c, qs, col) else LastCounting(c, ps, col)
    decreases |qs|
  {
    hide EffectOn;
    if qs == [] {
      assert ps + qs == ps;
    } else {
      var k := |qs| - 1;
      assert (ps + qs)[..|ps| + k] == ps + qs[..k];
      CountingConcat(c, ps, qs[..k], col);
    }
  }

  lemma RegistrationsDoNotCount(c: Cell, p: Packet, col: Column)
    requires p.data.Registered?
    ensures !Counts(c, p, col)
  {
  }

  /** Registrations first or in place: the same event counts last. */
  lemma {:induction false} CountingOrder(c: Cell, ps: seq<Packet>, col: Column)
    ensures LastCounting(c, Regs(ps), col) == None && LastCounting(c, Others(ps), col) == LastCounting(c, ps, col)
    decreases ps
  {
    hide EffectOn;
    hide Counts;
    if ps != [] {
      CountingOrder(c, ps[1..], col);
      assert ps == [ps[0]] + ps[1..];
      CountingConcat(c, [ps[0]], ps[1..], col);
      CountingConcat(c, Tables.Kept(ps[0], true), Regs(ps[1..]), col);
      CountingConcat(c, Tables.Kept(ps[0], false), Others(ps[1..]), col);
      CountingOne(c, ps[0], col);
    }
  }

  lemma CountingOne(c: Cell, p: Packet, col: Column)
    ensures LastCounting(c, [], col) == None
    ensures p.data.Registered? ==> LastCounting(c, [p], col) == None
  {
    hide EffectOn;
    hide Counts;
    assert [p][..0] == [];
    if p.data.Registered? {
      RegistrationsDoNotCount(c, p, col);
    }
  }

  lemma {:induction false} OtherStreamDoesNotCount(c: Cell, ps: seq<Packet>, col: Column)
    requires forall p | p in ps :: KindOf(p.data) != StreamOf(col)
    ensures LastCounting(c, ps, col) == None
  {
    hide EffectOn;
    hide KindOf;
    if ps != [] {
      var k := |ps| - 1;
      OtherColumns(col, ps[k]);
      OtherStreamDoesNotCount(c, ps[..k], col);
    }
  }

  lemma BatchCounts(c: Cell, chain: History, at: Progress, m: Stage, col: Column)
    requires Of(at, m.contract) <= m.upTo <= |chain|
    ensures LastCounting(c, Batch(chain, at, m), col)
         == if m.contract == StreamOf(col) then LastCounting(c, Between(chain, m.contract, Of(at, m.contract), m.upTo), col) else None
  {
    hide EffectOn;
    hide Between;
    hide StreamOf;
    hide KindOf;
    var ps := Between(chain, m.contract, Of(at, m.contract), m.upTo);
    StreamKinds(chain, m.contract, Of(at, m.contract), m.upTo);
    if m.contract == StreamOf(col) {
      CountingConcat(c, Regs(ps), Others(ps), col);
      CountingOrder(c, ps, col);
    } else {
      WriteOrderOnly(ps);
      OtherStreamDoesNotCount(c, ParentsFirst(ps), col);
    }
  }

  /** However a plan is divided, what counts last is what counts last of the contract's events. */
  lemma {:induction false} PlanCounts(c: Cell, chain: History, at: Progress, plan: seq<Stage>, col: Column)
    requires Forward(chain, at, plan) && Of(at, StreamOf(col)) <= |chain|
    ensures Of(at, StreamOf(col)) <= Of(Final(at, plan), StreamOf(col)) <= |chain|
    ensures LastCounting(c, Written(chain, at, plan), col)
         == LastCounting(c, Between(chain, StreamOf(col), Of(at, StreamOf(col)), Of(Final(at, plan), StreamOf(col))), col)
    decreases plan
  {
    hide EffectOn;
    hide Between;
    hide ParentsFirst;
    hide StreamOf;
    var k := StreamOf(col);
    FinalGrows(chain, at, plan, k);
    if plan == [] {
      NothingBetween(chain, k, Of(at, k));
    } else {
      var m := plan[0];
      var at' := Advance(at, m.contract, m.upTo);
      FinalGrows(chain, at', plan[1..], k);
      PlanCounts(c, chain, at', plan[1..], col);
      BatchCounts(c, chain, at, m, col);
      CountingConcat(c, Batch(chain, at, m), Written(chain, at', plan[1..]), col);
      BetweenSplits(chain, k, Of(at, k), Of(at', k), Of(Final(at, plan), k));
      CountingConcat(c, Between(chain, k, Of(at, k), Of(at', k)), Between(chain, k, Of(at', k), Of(Final(at, plan), k)), col);
      if k != m.contract {
        NothingBetween(chain, k, Of(at, k));
      }
    }
  }

  /** A lawful plan settles every cell it leads to. */
  lemma {:induction false} PlanSettles(db: Db, chain: History, at: Progress, plan: seq<Stage>, qs: seq<Packet>, col: Column)
    requires Chain.Ordered(chain) && LawfulPlan(chain, at, plan) && Projected(db, chain, at) && RowSettled(Read(db, col), qs, col)
    ensures Forward(chain, at, plan) && ApplyAll(db, Written(chain, at, plan)).Some?
    ensures RowSettled(Read(ApplyAll(db, Written(chain, at, plan)).value, col), qs + Written(chain, at, plan), col)
    decreases plan
  {
    hide Projected;
    hide Apply;
    hide Read;
    hide EffectOn;
    hide Moves;
    hide RowSettled;
    hide Grounded;
    hide Between;
    hide ParentsFirst;
    hide Orderly;
    LawfulIsForward(chain, at, plan);
    if plan == [] {
      assert qs + Written(chain, at, plan) == qs;
    } else {
      var m := plan[0];
      var at', batch := Advance(at, m.contract, m.upTo), Batch(chain, at, m);
      var db' := BatchProjects(db, chain, at, m.contract, m.upTo);
      BatchOrderly(db, chain, at, m.contract, m.upTo);
      BatchGrounded(db, batch, col);
      ColumnMoves(db, batch, col);
      SettledMoves(Read(db, col), qs, batch, col);
      PlanSettles(db', chain, at', plan[1..], qs + batch, col);
      var rest := Written(chain, at', plan[1..]);
      ApplyAllConcat(db, batch, rest);
      assert (qs + batch) + rest == qs + Written(chain, at, plan);
    }
  }

  lemma BatchGrounded(db: Db, ps: seq<Packet>, col: Column)
    requires Orderly(db, ps)
    ensures NoStrays(db) && ApplyAll(db, ps).Some? && Grounded(Read(db, col), ps, col)
  {
    hide Grounded;
    hide Read;
    WritesFindRows(db, ps, col);
  }

  /** From calls a plan covers, on to its end. */
  ghost predicate Reruns(chain: History, at: Progress, plan: seq<Stage>, from: Progress, again: seq<Stage>) {
    && (forall c: Contract :: Of(at, c) <= Of(from, c) <= |chain|)
    && Forward(chain, from, again) && Final(from, again) == Final(at, plan)
  }

  lemma RerunSettles(db: Db, chain: History, at: Progress, plan: seq<Stage>, from: Progress, again: seq<Stage>, col: Column)
    requires Chain.Ordered(chain) && LawfulPlan(chain, at, plan) && Projected(db, chain, at) && Reruns(chain, at, plan, from, again)
    ensures Forward(chain, at, plan) && ApplyAll(db, Written(chain, at, plan)).Some?
    ensures var cell := Read(ApplyAll(db, Written(chain, at, plan)).value, col);
            cell.Some? ==> Settles(cell.value, Written(chain, from, again), col)
  {
    hide Projected;
    hide Apply;
    hide Read;
    hide EffectOn;
    hide Between;
    hide ParentsFirst;
    hide Written;
    LawfulIsForward(chain, at, plan);
    StartSettled(db, col);
    PlanSettles(db, chain, at, plan, [], col);
    var cell := Read(ApplyAll(db, Written(chain, at, plan)).value, col);
    assert [] + Written(chain, at, plan) == Written(chain, at, plan);
    if cell.Some? {
      var k, end := StreamOf(col), Final(at, plan);
      assert Of(at, k) <= Of(from, k) <= |chain|;
      PlanCounts(cell.value, chain, at, plan, col);
      PlanCounts(cell.value, chain, from, again, col);
      BetweenSplits(chain, k, Of(at, k), Of(from, k), Of(end, k));
      CountingConcat(cell.value, Between(chain, k, Of(at, k), Of(from, k)), Between(chain, k, Of(from, k), Of(end, k)), col);
    }
  }

  lemma StartSettled(db: Db, col: Column)
    ensures RowSettled(Read(db, col), [], col)
  {
    hide Read;
  }

  lemma RerunKnown(chain: History, at: Progress, plan: seq<Stage>, from: Progress, again: seq<Stage>, p: Packet)
    requires Forward(chain, at, plan) && Reruns(chain, at, plan, from, again) && p in Written(chain, from, again)
    ensures p in Written(chain, at, plan)
  {
    hide Between;
    hide ParentsFirst;
    hide Written;
    var c := WrittenOnly(chain, from, again, p);
    assert Of(at, c) <= Of(from, c);
    BetweenSplits(chain, c, Of(at, c), Of(from, c), Of(Final(at, plan), c));
    WrittenHas(chain, at, plan, c, p);
  }

  /**
   * Indexing again, from any earlier calls and to where a lawful plan got, any of the contracts, in any
   * division into batches and interleaved in any way: no table changes, so the tables still hold the
   * registries' state, and a resolved document is kept exactly when the events hold no other URI of
   * the ledger of its agent's present one.
   */
  lemma HistoryReplay(db: Db, chain: History, at: Progress, plan: seq<Stage>, from: Progress, again: seq<Stage>)
    requires Chain.Ordered(chain) && LawfulPlan(chain, at, plan) && Projected(db, chain, at)
    requires forall c: Contract :: Of(at, c) <= Of(from, c) <= |chain|
    requires Forward(chain, from, again) && Final(from, again) == Final(at, plan)
    ensures Index(db, chain, at, plan).Some? && InOrder(chain, Final(at, plan))
    ensures var tables, events := Index(db, chain, at, plan).value, Written(chain, from, again);
            && ApplyAll(tables, events).Some?
            && var after := ApplyAll(tables, events).value;
               && SameTables(tables, after) && after.responses == tables.responses
               && Projected(after, chain, Final(at, plan))
               && forall id | id in tables.agents ::
                    && id in after.agents
                    && after.agents[id].resolver ==
                         if UriConflict(tables.agents[id], events, id) then FreshResolver(tables.agents[id].uri)
                         else tables.agents[id].resolver
  {
    hide Projected;
    hide Apply;
    hide Written;
    hide Read;
    hide Settles;
    hide UriConflict;
    hide SparesWallets;
    assert Reruns(chain, at, plan, from, again);
    hide Reruns;
    LawfulIsForward(chain, at, plan);
    IndexIsWritten(db, chain, at, plan);
    RerunIsForward(chain, at, plan, from, again);
    var events := Written(chain, from, again);
    forall p | p in events ensures p in Written(chain, at, plan) {
      RerunKnown(chain, at, plan, from, again, p);
    }
    StaleHistory(db, chain, at, plan, events);
    var tables := Index(db, chain, at, plan).value;
    forall col: Column ensures Read(tables, col).Some? ==> Settles(Read(tables, col).value, events, col) {
      RerunSettles(db, chain, at, plan, from, again, col);
    }
    assert Harmless(tables, events);
  }

  lemma RerunIsForward(chain: History, at: Progress, plan: seq<Stage>, from: Progress, again: seq<Stage>)
    requires Reruns(chain, at, plan, from, again)
    ensures Forward(chain, from, again)
  {
  }
}
