// Stale writers: exactly which events, written again over tables that have seen them, change anything.
module Stale {
  import opened Basics
  import opened Events
  import opened Tables
  import opened Writer
  import opened Columns
  import opened Guards
  import opened Recovery

  // ---------------------------------------------------------------- one cell

  /** A free write always lands; a guarded one from before the guard never does, so only the guard's own ledger counts. */
  predicate Counts(c: Cell, p: Packet, col: Column) {
    EffectOn(col, p).Free? || (EffectOn(col, p).Guarded? && c.at == Some(p.ledger))
  }

  /** What the last event that counts carries. */
  function LastCounting(c: Cell, ps: seq<Packet>, col: Column): Option<Value> {
    if ps == [] then None
    else
      var k := |ps| - 1;
      if Counts(c, ps[k], col) then Some(EffectOn(col, ps[k]).value) else LastCounting(c, ps[..k], col)
  }

  /** No event is newer than the cell. */
  ghost predicate Seen(c: Cell, ps: seq<Packet>, col: Column) {
    forall p | p in ps && EffectOn(col, p).Guarded? :: AtMost(Some(p.ledger), c.at)
  }

  lemma {:induction false} StaleMoves(c: Cell, ps: seq<Packet>, col: Column)
    requires Seen(c, ps, col)
    ensures Moves(Some(c), ps, col) == Some(c.(value := GetOr(LastCounting(c, ps, col), c.value)))
  {
    hide EffectOn;
    if ps != [] {
      StaleMoves(c, ps[..|ps| - 1], col);
    }
  }

  /** The events a stale writer repeats leave the cell alone. */
  predicate Settles(c: Cell, ps: seq<Packet>, col: Column) {
    var last := LastCounting(c, ps, col);
    last == None || last == Some(c.value)
  }

  // ---------------------------------------------------------------- a run settles its own cells

  /** A row settled under the events so far, or missing and never written. */
  predicate RowSettled(c: Option<Cell>, ps: seq<Packet>, col: Column) {
    if c.None? then NoWrites(ps, col) else Settles(c.value, ps, col)
  }

  lemma {:induction false} NothingCounts(c: Cell, ps: seq<Packet>, col: Column)
    requires NoWrites(ps, col)
    ensures LastCounting(c, ps, col) == None
  {
    hide EffectOn;
    if ps != [] {
      NothingCounts(c, ps[..|ps| - 1], col);
    }
  }

  lemma SettledStep(c: Option<Cell>, ps: seq<Packet>, p: Packet, col: Column)
    requires RowSettled(c, ps, col) && (IsWrite(EffectOn(col, p)) ==> c.Some?)
    ensures RowSettled(Move(c, p.ledger, EffectOn(col, p)), ps + [p], col)
  {
    hide EffectOn;
    assert (ps + [p])[..|ps|] == ps;
    if c.None? && EffectOn(col, p).Create? {
      NothingCounts(Cell(None, EffectOn(col, p).value), ps, col);
    }
  }

  /** Events in whatever order settle the cells they lead to: the last that counts is the last that wrote. */
  lemma {:induction false} SettledMoves(c: Option<Cell>, qs: seq<Packet>, ps: seq<Packet>, col: Column)
    requires RowSettled(c, qs, col) && Grounded(c, ps, col)
    ensures RowSettled(Moves(c, ps, col), qs + ps, col)
    decreases |ps|
  {
    hide EffectOn;
    hide RowSettled;
    if ps == [] {
      assert qs + ps == qs;
    } else {
      var k := |ps| - 1;
      GroundedBeginning(c, ps, col, k);
      SettledMoves(c, qs, ps[..k], col);
      SettledStep(Moves(c, ps[..k], col), qs + ps[..k], ps[k], col);
      assert (qs + ps[..k]) + [ps[k]] == qs + ps;
    }
  }

  /** A cell covers the run that led to it, also when the run inserted the row. */
  lemma {:induction false} NewCellSeen(ps: seq<Packet>, col: Column)
    requires Grounded(None, ps, col) && Moves(None, ps, col).Some?
    ensures Seen(Moves(None, ps, col).value, ps, col)
    decreases |ps|
  {
    hide EffectOn;
    var k := |ps| - 1;
    GroundedBeginning(None, ps, col, k);
    if Moves(None, ps[..k], col).Some? {
      NewCellSeen(ps[..k], col);
    } else {
      MissingMeansUnwritten(ps[..k], col);
    }
    forall p | p in ps && EffectOn(col, p).Guarded? ensures AtMost(Some(p.ledger), Moves(None, ps, col).value.at) {
      assert p in ps[..k] || p == ps[k];
    }
  }

  lemma CellSeen(start: Option<Cell>, ps: seq<Packet>, col: Column)
    requires Grounded(start, ps, col) && Moves(start, ps, col).Some?
    ensures Seen(Moves(start, ps, col).value, ps, col)
  {
    hide EffectOn;
    hide Moves;
    if start.Some? {
      GuardsRise(start.value, ps, col);
    } else {
      NewCellSeen(ps, col);
    }
  }

  /**
   * A cell brought to its value by a run's events, each after its row, is unchanged by any of them written
   * again, in any order and number, exactly when the last one that counts carries the present value.
   */
  lemma StaleCellExactly(start: Option<Cell>, ps: seq<Packet>, stale: seq<Packet>, col: Column)
    requires Grounded(start, ps, col) && Moves(start, ps, col).Some? && forall p :: p in stale ==> p in ps
    ensures var c := Moves(start, ps, col).value;
            Moves(Some(c), stale, col) == Some(c) <==> Settles(c, stale, col)
  {
    hide EffectOn;
    hide Moves;
    CellSeen(start, ps, col);
    StaleMoves(Moves(start, ps, col).value, stale, col);
  }

  // ---------------------------------------------------------------- whole tables

  /** The tables have seen the events: their rows are there, and no guard is behind them. */
  ghost predicate Indexed(db: Db, ps: seq<Packet>) {
    forall col: Column, p | p in ps && EffectOn(col, p) != Nothing ::
      Read(db, col).Some? && (EffectOn(col, p).Guarded? ==> AtMost(Some(p.ledger), Read(db, col).value.at))
  }

  lemma {:induction false} SomeStays(c: Cell, ps: seq<Packet>, col: Column)
    ensures Moves(Some(c), ps, col).Some?
  {
    hide EffectOn;
    if ps != [] {
      SomeStays(c, ps[..|ps| - 1], col);
    }
  }

  lemma {:induction false} SomeLater(c: Option<Cell>, ps: seq<Packet>, k: nat, col: Column)
    requires k <= |ps| && Moves(c, ps[..k], col).Some?
    ensures Moves(c, ps, col).Some?
    decreases |ps| - k
  {
    hide EffectOn;
    if k == |ps| {
      assert ps[..k] == ps;
    } else {
      assert ps[..k + 1][..k] == ps[..k];
      SomeLater(c, ps, k + 1, col);
    }
  }

  lemma ColumnIndexed(c: Option<Cell>, ps: seq<Packet>, col: Column, p: Packet)
    requires Grounded(c, ps, col) && p in ps && EffectOn(col, p) != Nothing
    ensures Moves(c, ps, col).Some?
    ensures EffectOn(col, p).Guarded? ==> AtMost(Some(p.ledger), Moves(c, ps, col).value.at)
  {
    hide EffectOn;
    hide Moves;
    if EffectOn(col, p).Create? {
      CreationCreates(c, ps, col);
    } else {
      var k :| 0 <= k < |ps| && ps[k] == p;
      SomeLater(c, ps, k, col);
    }
    CellSeen(c, ps, col);
  }

  /** A run whose events find their rows leaves tables that have seen them. */
  lemma RunIndexes(db: Db, ps: seq<Packet>)
    requires NoStrays(db) && NoneMissing(db, ps)
    ensures ApplyAll(db, ps).Some? && NoStrays(ApplyAll(db, ps).value) && Indexed(ApplyAll(db, ps).value, ps)
  {
    hide Apply;
    hide Read;
    hide EffectOn;
    hide Moves;
    hide Grounded;
    hide NoStrays;
    var tables := ApplyAll(db, ps).value;
    ColumnMoves(db, ps, Owner(0));
    forall col: Column, p | p in ps && EffectOn(col, p) != Nothing
      ensures Read(tables, col).Some? && (EffectOn(col, p).Guarded? ==> AtMost(Some(p.ledger), Read(tables, col).value.at))
    {
      WritesFindRows(db, ps, col);
      ColumnMoves(db, ps, col);
      ColumnIndexed(Read(db, col), ps, col, p);
    }
  }

  lemma WorkedOnce(db: Db, ps: seq<Packet>, more: Db, p: Packet)
    requires NoneMissing(db, ps) && p in ps && RowsKept(ApplyAll(db, ps).value, more)
    ensures Apply(more, p).Changed? && InBounds(p) && RowsKept(more, Apply(more, p).db)
  {
    hide Apply;
    hide RowMissing;
    var k :| 0 <= k < |ps| && ps[k] == p;
    StatementWorked(db, ps, k);
    var mid := ApplyAll(db, ps[..k]).value;
    assert ps == ps[..k] + ps[k..];
    ApplyAllConcat(db, ps[..k], ps[k..]);
    AllRowsStay(mid, ps[k..]);
    WorksWithMore(mid, more, p);
    RowsStay(more, p);
  }

  /** What the tables need of an event they have taken in: its rows, its guards, its response. */
  ghost predicate Absorbed(db: Db, p: Packet) {
    && Works(db, p) && InBounds(p) && (p.data.ResponseAppended? ==> p.id in db.responses)
    && forall col: Column | EffectOn(col, p) != Nothing ::
         Read(db, col).Some? && (EffectOn(col, p).Guarded? ==> AtMost(Some(p.ledger), Read(db, col).value.at))
  }

  ghost predicate AbsorbedAll(db: Db, ps: seq<Packet>) {
    forall p | p in ps :: Absorbed(db, p)
  }

  lemma AbsorbedIsIndexed(db: Db, ps: seq<Packet>)
    requires AbsorbedAll(db, ps)
    ensures Indexed(db, ps)
  {
    hide Read;
    hide EffectOn;
    hide Works;
    forall col: Column, p | p in ps && EffectOn(col, p) != Nothing
      ensures Read(db, col).Some? && (EffectOn(col, p).Guarded? ==> AtMost(Some(p.ledger), Read(db, col).value.at))
    {
      assert Absorbed(db, p);
    }
  }

  /** And have taken them in. */
  lemma RunAbsorbs(db: Db, ps: seq<Packet>)
    requires NoStrays(db) && NoneMissing(db, ps)
    ensures ApplyAll(db, ps).Some? && NoStrays(ApplyAll(db, ps).value) && AbsorbedAll(ApplyAll(db, ps).value, ps)
  {
    hide Apply;
    hide Read;
    hide EffectOn;
    hide Works;
    hide NoStrays;
    hide NoneMissing;
    RunIndexes(db, ps);
    RepliesLand(db, ps);
    var tables := ApplyAll(db, ps).value;
    assert RowsKept(tables, tables);
    forall p | p in ps ensures Absorbed(tables, p) {
      WorkedOnce(db, ps, tables, p);
      WorksMeansChanged(tables, p);
    }
  }

  lemma WorksStays(db: Db, db': Db, p: Packet)
    requires RowsKept(db, db') && Works(db, p)
    ensures Works(db', p)
  {
  }

  /** What was taken in stays so, whatever is written on top. */
  lemma AbsorbedStays(db: Db, more: seq<Packet>, p: Packet)
    requires NoStrays(db) && ApplyAll(db, more).Some? && Absorbed(db, p)
    ensures NoStrays(ApplyAll(db, more).value) && Absorbed(ApplyAll(db, more).value, p)
  {
    hide Apply;
    hide Read;
    hide EffectOn;
    hide Works;
    hide Moves;
    hide NoStrays;
    var db' := ApplyAll(db, more).value;
    AllRowsStay(db, more);
    WorksStays(db, db', p);
    ColumnMoves(db, more, Owner(0));
    forall col: Column | EffectOn(col, p) != Nothing
      ensures Read(db', col).Some? && (EffectOn(col, p).Guarded? ==> AtMost(Some(p.ledger), Read(db', col).value.at))
    {
      ColumnMoves(db, more, col);
      GuardsRise(Read(db, col).value, more, col);
    }
  }

  lemma AllAbsorbedStay(db: Db, more: seq<Packet>, ps: seq<Packet>)
    requires NoStrays(db) && ApplyAll(db, more).Some? && AbsorbedAll(db, ps)
    ensures NoStrays(ApplyAll(db, more).value) && AbsorbedAll(ApplyAll(db, more).value, ps)
  {
    hide Apply;
    hide Absorbed;
    hide NoStrays;
    hide Read;
    hide Moves;
    ColumnMoves(db, more, Owner(0));
    forall p | p in ps ensures Absorbed(ApplyAll(db, more).value, p) {
      AbsorbedStays(db, more, p);
    }
  }

  /** Written again, they all succeed. */
  lemma {:induction false} AbsorbedSucceed(db: Db, stale: seq<Packet>)
    requires NoStrays(db) && AbsorbedAll(db, stale)
    ensures ApplyAll(db, stale).Some?
    decreases stale
  {
    hide Apply;
    hide Absorbed;
    hide NoStrays;
    if stale != [] {
      AbsorbedWorks(db, stale[0]);
      AllAbsorbedStay(db, [stale[0]], stale[1..]);
      assert [stale[0]][1..] == [];
      AbsorbedSucceed(Apply(db, stale[0]).db, stale[1..]);
    }
  }

  lemma AbsorbedWorks(db: Db, p: Packet)
    requires Absorbed(db, p)
    ensures Apply(db, p).Changed?
  {
    hide Apply;
    hide Works;
    WorksMeansChanged(db, p);
  }

  /** Every row is settled under the events. */
  ghost predicate Harmless(db: Db, stale: seq<Packet>) {
    forall col: Column :: Read(db, col).Some? ==> Settles(Read(db, col).value, stale, col)
  }

  /** A row that is missing is not among the events'. */
  lemma {:induction false} NothingHere(ps: seq<Packet>, col: Column)
    requires forall p | p in ps :: EffectOn(col, p) == Nothing
    ensures Moves(None, ps, col) == None
  {
    hide EffectOn;
    if ps != [] {
      NothingHere(ps[..|ps| - 1], col);
    }
  }

  lemma ColumnStale(db: Db, stale: seq<Packet>, col: Column)
    requires Indexed(db, stale)
    ensures Moves(Read(db, col), stale, col) == Read(db, col) <==>
              (Read(db, col).Some? ==> Settles(Read(db, col).value, stale, col))
  {
    hide Read;
    hide EffectOn;
    hide Moves;
    if Read(db, col).Some? {
      assert Seen(Read(db, col).value, stale, col);
      StaleMoves(Read(db, col).value, stale, col);
    } else {
      NothingHere(stale, col);
    }
  }

  lemma StaleTables(db: Db, stale: seq<Packet>)
    requires NoStrays(db) && Indexed(db, stale) && ApplyAll(db, stale).Some?
    ensures SameTables(db, ApplyAll(db, stale).value) <==> Harmless(db, stale)
  {
    hide Apply;
    hide Read;
    hide EffectOn;
    hide Moves;
    hide Settles;
    hide Indexed;
    hide NoStrays;
    hide SameTables;
    var tables := ApplyAll(db, stale).value;
    if Harmless(db, stale) {
      ColumnMoves(db, stale, Owner(0));
      forall col: Column ensures Read(tables, col) == Read(db, col) {
        ColumnMoves(db, stale, col);
        ColumnStale(db, stale, col);
      }
      ColumnsDecide(db, tables);
    }
    if SameTables(db, tables) {
      forall col: Column ensures Read(db, col).Some? ==> Settles(Read(db, col).value, stale, col) {
        SameTablesRead(db, tables, col);
        ColumnMoves(db, stale, col);
        ColumnStale(db, stale, col);
      }
    }
  }

  // ---------------------------------------------------------------- the resolver's columns

  /** Another URI of the row's own ledger is among the events. */
  ghost predicate UriConflict(row: AgentRow, ps: seq<Packet>, id: nat) {
    exists p :: p in ps && OtherUri(row, p, id)
  }

  predicate OtherUri(row: AgentRow, p: Packet, id: nat) {
    p.data.UriUpdated? && p.data.agentId == id && row.uriLedger == Some(p.ledger) && p.data.uri != row.uri
  }

  /** An agent's row after events it has seen: resolver columns kept, or started afresh by another URI of its ledger. */
  predicate AgentAfter(row: AgentRow, conflict: bool, row': AgentRow) {
    && row'.uriLedger == row.uriLedger
    && row'.resolver == (if conflict then FreshResolver(row'.uri) else row.resolver)
    && (!conflict ==> row'.uri == row.uri)
  }

  lemma AgentStep(db: Db, p: Packet, id: nat, row: AgentRow, conflict: bool)
    requires id in db.agents && Apply(db, p).Changed? && AgentAfter(row, conflict, db.agents[id])
    requires EffectOn(Uri(id), p).Guarded? ==> AtMost(Some(p.ledger), row.uriLedger)
    ensures id in Apply(db, p).db.agents && AgentAfter(row, conflict || OtherUri(row, p, id), Apply(db, p).db.agents[id])
  {
    hide FreshResolver;
    if IsIdentityEvent(p.data) {
      hide WithoutAgent;
    } else {
      DependentFrame(db, p);
    }
  }

  lemma {:induction false} ResolverStale(db: Db, stale: seq<Packet>, id: nat)
    requires id in db.agents && Seen(Cell(db.agents[id].uriLedger, Text(db.agents[id].uri)), stale, Uri(id))
    requires ApplyAll(db, stale).Some?
    ensures id in ApplyAll(db, stale).value.agents
    ensures AgentAfter(db.agents[id], UriConflict(db.agents[id], stale, id), ApplyAll(db, stale).value.agents[id])
    decreases |stale|
  {
    hide Apply;
    hide EffectOn;
    hide AgentAfter;
    var row := db.agents[id];
    if stale == [] {
      NothingAfter(row);
    } else {
      var k := |stale| - 1;
      ApplyAllLast(db, stale);
      ResolverStale(db, stale[..k], id);
      assert stale[k] in stale;
      AgentStep(ApplyAll(db, stale[..k]).value, stale[k], id, row, UriConflict(row, stale[..k], id));
      ConflictLast(row, stale, id);
    }
  }

  lemma NothingAfter(row: AgentRow)
    ensures AgentAfter(row, false, row)
  {
  }

  lemma ConflictLast(row: AgentRow, ps: seq<Packet>, id: nat)
    requires ps != []
    ensures UriConflict(row, ps, id) <==> UriConflict(row, ps[..|ps| - 1], id) || OtherUri(row, ps[|ps| - 1], id)
  {
    var k := |ps| - 1;
    assert ps == ps[..k] + [ps[k]];
    if OtherUri(row, ps[k], id) {
      assert ps[k] in ps;
    }
  }

  // ---------------------------------------------------------------- a run's events, written again

  /** What writing events again leaves of the resolver's columns, agent by agent. */
  ghost predicate ResolversAfter(db: Db, stale: seq<Packet>, db': Db) {
    forall id | id in db.agents :: id in db'.agents && AgentAfter(db.agents[id], UriConflict(db.agents[id], stale, id), db'.agents[id])
  }

  /**
   * Events the tables have taken in, written again by any stale writers, in any order and number, all
   * succeed. They change no table exactly when in every cell the last one that counts carries the
   * present value; and an agent's resolver columns start afresh exactly when another URI of the
   * ledger of its present one is among them.
   */
  lemma StaleOver(db: Db, stale: seq<Packet>)
    requires NoStrays(db) && AbsorbedAll(db, stale)
    ensures ApplyAll(db, stale).Some?
    ensures SameTables(db, ApplyAll(db, stale).value) <==> Harmless(db, stale)
    ensures ResolversAfter(db, stale, ApplyAll(db, stale).value)
    ensures ApplyAll(db, stale).value.responses == db.responses
  {
    hide Apply;
    hide NoStrays;
    hide Harmless;
    hide SameTables;
    hide UriConflict;
    hide AgentAfter;
    hide Indexed;
    AbsorbedSucceed(db, stale);
    AbsorbedIsIndexed(db, stale);
    StaleTables(db, stale);
    forall id | id in db.agents
      ensures id in ApplyAll(db, stale).value.agents
      ensures AgentAfter(db.agents[id], UriConflict(db.agents[id], stale, id), ApplyAll(db, stale).value.agents[id])
    {
      UriSeen(db, stale, id);
      ResolverStale(db, stale, id);
    }
    AbsorbedReplies(db, stale);
    RepliesStay(db, stale);
  }

  lemma AbsorbedReplies(db: Db, ps: seq<Packet>)
    requires AbsorbedAll(db, ps)
    ensures forall p | p in ps && p.data.ResponseAppended? :: p.id in db.responses
  {
    hide Works;
    hide Read;
    hide EffectOn;
    forall p | p in ps && p.data.ResponseAppended? ensures p.id in db.responses {
      assert Absorbed(db, p);
    }
  }

  /** In particular over the tables a run left, any of its events. */
  lemma StaleRun(db: Db, ps: seq<Packet>, stale: seq<Packet>)
    requires Orderly(db, ps) && forall p :: p in stale ==> p in ps
    ensures ApplyAll(db, ps).Some?
    ensures var tables := ApplyAll(db, ps).value;
            && ApplyAll(tables, stale).Some?
            && (SameTables(tables, ApplyAll(tables, stale).value) <==> Harmless(tables, stale))
            && ResolversAfter(tables, stale, ApplyAll(tables, stale).value)
            && ApplyAll(tables, stale).value.responses == tables.responses
  {
    hide Apply;
    hide Orderly;
    hide Absorbed;
    hide SameTables;
    hide Harmless;
    hide ResolversAfter;
    OrderlyFacts(db, ps);
    RunAbsorbs(db, ps);
    StaleOver(ApplyAll(db, ps).value, stale);
  }

  lemma OrderlyFacts(db: Db, ps: seq<Packet>)
    requires Orderly(db, ps)
    ensures NoStrays(db) && NoneMissing(db, ps) && ApplyAll(db, ps).Some?
  {
  }

  lemma UriSeen(db: Db, stale: seq<Packet>, id: nat)
    requires Indexed(db, stale) && id in db.agents
    ensures Seen(Cell(db.agents[id].uriLedger, Text(db.agents[id].uri)), stale, Uri(id))
  {
    hide EffectOn;
    assert Read(db, Uri(id)) == Some(Cell(db.agents[id].uriLedger, Text(db.agents[id].uri)));
  }

  /**
   * The whole run again, in order: no table changes, and a resolved document is kept exactly when the run
   * holds no other URI of the ledger of the present one.
   */
  lemma ReplayKeepsDocuments(db: Db, again: seq<Packet>)
    requires Orderly(db, again)
    ensures ApplyAll(db, again).Some?
    ensures var tables := ApplyAll(db, again).value;
            && ApplyAll(tables, again).Some?
            && SameTables(tables, ApplyAll(tables, again).value)
            && ApplyAll(tables, again).value.responses == tables.responses
            && forall id | id in tables.agents ::
                 && id in ApplyAll(tables, again).value.agents
                 && ApplyAll(tables, again).value.agents[id].resolver ==
                      if UriConflict(tables.agents[id], again, id) then FreshResolver(tables.agents[id].uri)
                      else tables.agents[id].resolver
  {
    hide Apply;
    hide Orderly;
    hide UriConflict;
    hide Harmless;
    assert [] + again == again;
    ReplayConverges(db, [], again);
    StaleRun(db, again, again);
  }

  lemma OtherUriResets(db: Db, p: Packet)
    requires p.data.UriUpdated? && p.data.agentId in db.agents && OtherUri(db.agents[p.data.agentId], p, p.data.agentId)
    ensures Apply(db, p).Changed? && p.data.agentId in Apply(db, p).db.agents
    ensures var row := Apply(db, p).db.agents[p.data.agentId];
            row.uri == p.data.uri && row.uriLedger == Some(p.ledger) && row.resolver == FreshResolver(p.data.uri)
  {
  }

  /** An agent given two URIs in one ledger loses its document to a replay, though its URI is the same again. */
  lemma ReplayResetsDocument(db: Db, id: nat, first: string, document: string)
    requires id in db.agents && db.agents[id].uriLedger == Some(7) && first != db.agents[id].uri
    requires db.agents[id].resolver.document == Some(document)
    ensures var row := db.agents[id];
            var again := ApplyAll(db, [Packet(0, 7, UriUpdated(id, first)), Packet(1, 7, UriUpdated(id, row.uri))]);
            && again.Some? && id in again.value.agents && again.value.agents[id].uri == row.uri
            && again.value.agents[id].resolver == FreshResolver(row.uri) && FreshResolver(row.uri).document == None
  {
    hide Apply;
    var p, q := Packet(0, 7, UriUpdated(id, first)), Packet(1, 7, UriUpdated(id, db.agents[id].uri));
    assert [p, q][1..] == [q] && [q][1..] == [];
    OtherUriResets(db, p);
    OtherUriResets(Apply(db, p).db, q);
    assert ApplyAll(Apply(Apply(db, p).db, q).db, []) == Some(Apply(Apply(db, p).db, q).db);
  }

  // ---------------------------------------------------------------- the unguarded columns

  /** A page a stale writer may repeat without harm to wallets and metadata. */
  predicate SparesWallets(db: Db, page: seq<Packet>) {
    forall p | p in page ::
      && !p.data.AgentWalletSet? && !p.data.AgentWalletUnset? && !p.data.MetadataSet?
      && (p.data.AgentTransferred? && p.data.agentId in db.agents ==>
            !NotNewer(db.agents[p.data.agentId].transferLedger, p.ledger))
  }

  predicate IsUnguarded(col: Column) {
    col.Wallet? || col.Metadata?
  }

  lemma {:induction false} PageCountsNothing(db: Db, page: seq<Packet>, col: Column)
    requires SparesWallets(db, page) && IsUnguarded(col) && Read(db, col).Some?
    ensures LastCounting(Read(db, col).value, page, col) == None
  {
    if page != [] {
      PageCountsNothing(db, page[..|page| - 1], col);
      assert page[|page| - 1] in page;
    }
  }

  lemma WalletsSpared(db: Db, page: seq<Packet>, col: Column)
    requires NoStrays(db) && Indexed(db, page) && ApplyAll(db, page).Some? && SparesWallets(db, page) && IsUnguarded(col)
    ensures Read(ApplyAll(db, page).value, col) == Read(db, col)
  {
    hide Apply;
    hide Read;
    hide EffectOn;
    hide Moves;
    hide Indexed;
    hide SparesWallets;
    ColumnMoves(db, page, col);
    ColumnStale(db, page, col);
    if Read(db, col).Some? {
      PageCountsNothing(db, page, col);
    }
  }

  /** A stale page without wallet or metadata events, its transfers older than their agents' last, spares both. */
  lemma StalePageSparesWallets(db: Db, page: seq<Packet>, col: Column)
    requires NoStrays(db) && Indexed(db, page) && ApplyAll(db, page).Some? && (col.Wallet? || col.Metadata?)
    requires forall p | p in page ::
               && !p.data.AgentWalletSet? && !p.data.AgentWalletUnset? && !p.data.MetadataSet?
               && (p.data.AgentTransferred? && p.data.agentId in db.agents ==>
                     db.agents[p.data.agentId].transferLedger.Some? && db.agents[p.data.agentId].transferLedger.value > p.ledger)
    ensures Read(ApplyAll(db, page).value, col) == Read(db, col)
  {
    assert SparesWallets(db, page) && IsUnguarded(col);
    hide *;
    WalletsSpared(db, page, col);
  }

  /**
   * The condition on transfers is needed: the last transfer written again, in a page without wallet or
   * metadata events, clears a wallet set after it.
   */
  lemma StaleTransferClears(db: Db, id: nat, wallet: Address, page: seq<Packet>)
    requires id in db.agents && db.agents[id].wallet == Some(wallet) && db.agents[id].transferLedger == Some(7)
    requires page == [Packet(0, 7, AgentTransferred(id, db.agents[id].owner))]
    ensures ApplyAll(db, page).Some? && id in ApplyAll(db, page).value.agents
    ensures ApplyAll(db, page).value.agents[id].wallet == None
  {
    assert page[1..] == [];
  }
}
