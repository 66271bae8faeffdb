// Recovery: whatever partial, repeated or reordered writes came first, indexing in ledger order repairs them.
module Recovery {
  import opened Basics
  import opened Events
  import opened Tables
  import opened Writer
  import opened Columns
  import opened Guards

  // ---------------------------------------------------------------- one column, in ledger order

  /** Updates come in ledger order; registrations may come early, they carry no guard. */
  predicate InLedgerOrder(ps: seq<Packet>) {
    forall i, j :: 0 <= i < j < |ps| && !ps[i].data.Registered? && !ps[j].data.Registered? ==> ps[i].ledger <= ps[j].ledger
  }

  /** No event of the run is older than the cell it writes. */
  predicate NotAhead(c: Option<Cell>, ps: seq<Packet>, col: Column) {
    c.Some? ==> forall p | p in ps && EffectOn(col, p).Guarded? :: NotNewer(c.value.at, p.ledger)
  }

  predicate IsWrite(e: Effect) {
    e.Guarded? || e.Free?
  }

  /** Every write to the column finds its row. */
  predicate Grounded(c: Option<Cell>, ps: seq<Packet>, col: Column) {
    forall k :: 0 <= k < |ps| && IsWrite(EffectOn(col, ps[k])) ==> Moves(c, ps[..k], col).Some?
  }

  /** Events that would insert the same row agree on it. */
  ghost predicate CreatesAgree(ps: seq<Packet>, col: Column) {
    forall p, q :: p in ps && q in ps && EffectOn(col, p).Create? && EffectOn(col, q).Create? ==> EffectOn(col, p) == EffectOn(col, q)
  }

  lemma OnlyUpdatesWrite(col: Column, p: Packet)
    requires IsWrite(EffectOn(col, p))
    ensures !p.data.Registered?
  {
  }

  lemma LedgersBefore(ps: seq<Packet>)
    requires ps != [] && InLedgerOrder(ps) && !ps[|ps| - 1].data.Registered?
    ensures forall p | p in ps[..|ps| - 1] :: p.data.Registered? || p.ledger <= ps[|ps| - 1].ledger
  {
  }

  /** A guard is never ahead of the events that moved it. */
  lemma {:induction false} GuardBehind(c: Cell, ps: seq<Packet>, col: Column, ledger: nat)
    requires NotNewer(c.at, ledger)
    requires forall p | p in ps :: p.data.Registered? || p.ledger <= ledger
    ensures Moves(Some(c), ps, col).Some? && NotNewer(Moves(Some(c), ps, col).value.at, ledger)
  {
    hide EffectOn;
    if ps != [] {
      var k := |ps| - 1;
      GuardBehind(c, ps[..k], col, ledger);
      if EffectOn(col, ps[k]).Guarded? {
        OnlyUpdatesWrite(col, ps[k]);
      }
    }
  }

  predicate NoWrites(ps: seq<Packet>, col: Column) {
    forall p | p in ps :: !IsWrite(EffectOn(col, p))
  }

  predicate NoGuardedWrites(ps: seq<Packet>, col: Column) {
    forall p | p in ps :: !EffectOn(col, p).Guarded?
  }

  lemma {:induction false} Untouched(c: Cell, ps: seq<Packet>, col: Column)
    requires NoWrites(ps, col)
    ensures Moves(Some(c), ps, col) == Some(c)
  {
    hide EffectOn;
    if ps != [] {
      Untouched(c, ps[..|ps| - 1], col);
    }
  }

  /** The last event of a run in order takes effect: a guarded write of another cell does too, if that one is not ahead. */
  lemma LastWrite(c: Cell, d: Cell, ps: seq<Packet>, col: Column)
    requires ps != [] && InLedgerOrder(ps) && NotAhead(Some(c), ps, col)
    requires EffectOn(col, ps[|ps| - 1]).Guarded? && AtMost(d.at, Some(ps[|ps| - 1].ledger))
    ensures var last := Some(Cell(Some(ps[|ps| - 1].ledger), EffectOn(col, ps[|ps| - 1]).value));
            Moves(Some(c), ps, col) == last && Moves(Some(d), ps, col) == last
  {
    hide EffectOn;
    hide InLedgerOrder;
    var k := |ps| - 1;
    OnlyUpdatesWrite(col, ps[k]);
    LedgersBefore(ps);
    assert ps[k] in ps;
    GuardBehind(c, ps[..k], col, ps[k].ledger);
    GuardBehind(d, ps[..k], col, ps[k].ledger);
  }

  lemma Shorter(c: Cell, ps: seq<Packet>, col: Column)
    requires ps != [] && InLedgerOrder(ps) && NotAhead(Some(c), ps, col)
    ensures InLedgerOrder(ps[..|ps| - 1]) && NotAhead(Some(c), ps[..|ps| - 1], col)
  {
  }

  lemma LastIsMove(c: Cell, ps: seq<Packet>, col: Column)
    requires ps != []
    ensures Moves(Some(c), ps, col) == Move(Moves(Some(c), ps[..|ps| - 1], col), ps[|ps| - 1].ledger, EffectOn(col, ps[|ps| - 1]))
  {
  }

  /**
   * Two cells brought through one run in ledger order end up equal: `d` must not be ahead of the end of
   * the run, and may differ from `c` only in what the run rewrites.
   */
  lemma {:induction false} Converge(c: Cell, d: Cell, ps: seq<Packet>, col: Column)
    requires InLedgerOrder(ps) && NotAhead(Some(c), ps, col)
    requires Moves(Some(c), ps, col).Some? && AtMost(d.at, Moves(Some(c), ps, col).value.at)
    requires NoGuardedWrites(ps, col) ==> d.at == c.at
    ensures Moves(Some(d), ps, col).Some? && Moves(Some(d), ps, col).value.at == Moves(Some(c), ps, col).value.at
    ensures (NoWrites(ps, col) ==> d == c) ==> Moves(Some(d), ps, col) == Moves(Some(c), ps, col)
    decreases |ps|
  {
    hide EffectOn;
    hide InLedgerOrder;
    hide NotAhead;
    if ps != [] {
      var k := |ps| - 1;
      var e := EffectOn(col, ps[k]);
      LastIsMove(c, ps, col);
      if e.Guarded? {
        GuardsRise(c, ps[..k], col);
        GuardAtLast(c, ps, col);
        LastWrite(c, d, ps, col);
      } else {
        Shorter(c, ps, col);
        GuardsRise(c, ps[..k], col);
        LastIsMove(d, ps, col);
        assert NoGuardedWrites(ps[..k], col) ==> NoGuardedWrites(ps, col);
        Converge(c, d, ps[..k], col);
        assert !e.Free? && NoWrites(ps[..k], col) ==> NoWrites(ps, col);
      }
    } else {
      assert NoGuardedWrites(ps, col) && NoWrites(ps, col);
    }
  }

  lemma GuardAtLast(c: Cell, ps: seq<Packet>, col: Column)
    requires ps != [] && InLedgerOrder(ps) && NotAhead(Some(c), ps, col) && EffectOn(col, ps[|ps| - 1]).Guarded?
    ensures Moves(Some(c), ps, col).Some? && Moves(Some(c), ps, col).value.at == Some(ps[|ps| - 1].ledger)
  {
    LastWrite(c, Cell(None, c.value), ps, col);
  }

  /** Where a guard comes from. */
  lemma {:induction false} GuardFrom(c: Cell, ps: seq<Packet>, col: Column) returns (p: Option<Packet>)
    ensures Moves(Some(c), ps, col).Some?
    ensures p.None? ==> Moves(Some(c), ps, col).value.at == c.at
    ensures p.Some? ==> p.value in ps && EffectOn(col, p.value).Guarded? && Moves(Some(c), ps, col).value.at == Some(p.value.ledger)
  {
    hide EffectOn;
    p := None;
    if ps != [] {
      var k := |ps| - 1;
      p := GuardFrom(c, ps[..k], col);
      var before := Moves(Some(c), ps[..k], col).value;
      if EffectOn(col, ps[k]).Guarded? && NotNewer(before.at, ps[k].ledger) {
        p := Some(ps[k]);
      }
    }
  }

  /** Any statements drawn from a run, applied before it, are repaired by it: the row was there. */
  lemma RepairExisting(c: Cell, junk: seq<Packet>, again: seq<Packet>, col: Column)
    requires InLedgerOrder(again) && NotAhead(Some(c), again, col) && forall p :: p in junk ==> p in again
    ensures Moves(Moves(Some(c), junk, col), again, col) == Moves(Some(c), again, col)
  {
    hide EffectOn;
    hide InLedgerOrder;
    hide NotAhead;
    hide Moves;
    GuardsRise(c, junk, col);
    GuardsRise(c, again, col);
    var p := GuardFrom(c, junk, col);
    var d := Moves(Some(c), junk, col).value;
    if NoWrites(again, col) {
      Untouched(c, junk, col);
    }
    if NoGuardedWrites(again, col) {
      assert p.None?;
    }
    if p.Some? {
      assert AtMost(Some(p.value.ledger), Moves(Some(c), again, col).value.at);
    }
    Converge(c, d, again, col);
  }

  // ---------------------------------------------------------------- rows the run inserts

  lemma GroundedBeginning(c: Option<Cell>, ps: seq<Packet>, col: Column, n: nat)
    requires Grounded(c, ps, col) && n <= |ps|
    ensures Grounded(c, ps[..n], col)
  {
    hide EffectOn;
    hide Moves;
    forall k | 0 <= k < n && IsWrite(EffectOn(col, ps[..n][k])) ensures Moves(c, ps[..n][..k], col).Some? {
      assert ps[..n][..k] == ps[..k];
    }
  }

  /** A row still missing was never written. */
  lemma {:induction false} MissingMeansUnwritten(ps: seq<Packet>, col: Column)
    requires Grounded(None, ps, col) && Moves(None, ps, col).None?
    ensures NoWrites(ps, col)
    decreases |ps|
  {
    hide EffectOn;
    if ps != [] {
      var k := |ps| - 1;
      GroundedBeginning(None, ps, col, k);
      MissingMeansUnwritten(ps[..k], col);
    }
  }

  /** A run that inserts a row ends as if the row had been there, new, from the start. */
  lemma {:induction false} CreatedFirst(ps: seq<Packet>, col: Column, v: Value)
    requires Grounded(None, ps, col) && forall p | p in ps && EffectOn(col, p).Create? :: EffectOn(col, p) == Create(v)
    requires Moves(None, ps, col).Some?
    ensures Moves(None, ps, col) == Moves(Some(Cell(None, v)), ps, col)
    decreases |ps|
  {
    hide EffectOn;
    var k := |ps| - 1;
    GroundedBeginning(None, ps, col, k);
    if Moves(None, ps[..k], col).Some? {
      CreatedFirst(ps[..k], col, v);
    } else {
      MissingMeansUnwritten(ps[..k], col);
      Untouched(Cell(None, v), ps[..k], col);
    }
  }

  /** Junk on a missing row: nothing, or a new row and then junk on that. */
  lemma {:induction false} JunkCreates(junk: seq<Packet>, col: Column, v: Value) returns (rest: seq<Packet>)
    requires forall p | p in junk && EffectOn(col, p).Create? :: EffectOn(col, p) == Create(v)
    ensures forall p :: p in rest ==> p in junk
    ensures Moves(None, junk, col).Some? ==> Moves(None, junk, col) == Moves(Some(Cell(None, v)), rest, col)
    decreases |junk|
  {
    hide EffectOn;
    rest := [];
    if junk != [] {
      var k := |junk| - 1;
      var t := JunkCreates(junk[..k], col, v);
      if Moves(None, junk[..k], col).Some? {
        rest := t + [junk[k]];
        assert rest[..|t|] == t;
      }
    }
  }

  lemma {:induction false} CreationCreates(c: Option<Cell>, ps: seq<Packet>, col: Column)
    requires exists p :: p in ps && EffectOn(col, p).Create?
    ensures Moves(c, ps, col).Some?
    decreases |ps|
  {
    hide EffectOn;
    var k := |ps| - 1;
    var p :| p in ps && EffectOn(col, p).Create?;
    if p in ps[..k] {
      CreationCreates(c, ps[..k], col);
    } else {
      assert p == ps[k];
    }
  }

  lemma {:induction false} NothingCreated(ps: seq<Packet>, col: Column)
    requires forall p | p in ps :: !EffectOn(col, p).Create?
    ensures Moves(None, ps, col).None?
  {
    hide EffectOn;
    if ps != [] {
      NothingCreated(ps[..|ps| - 1], col);
    }
  }

  /** The same repair when the run inserts the row itself. */
  lemma RepairMissing(junk: seq<Packet>, again: seq<Packet>, col: Column)
    requires InLedgerOrder(again) && Grounded(None, again, col) && CreatesAgree(again, col)
    requires forall p :: p in junk ==> p in again
    ensures Moves(Moves(None, junk, col), again, col) == Moves(None, again, col)
  {
    hide EffectOn;
    hide InLedgerOrder;
    hide Grounded;
    hide Moves;
    if exists p :: p in again && EffectOn(col, p).Create? {
      var p :| p in again && EffectOn(col, p).Create?;
      var v := EffectOn(col, p).value;
      CreationCreates(None, again, col);
      CreatedFirst(again, col, v);
      var rest := JunkCreates(junk, col, v);
      if Moves(None, junk, col).Some? {
        RepairExisting(Cell(None, v), rest, again, col);
      }
    } else {
      NothingCreated(junk, col);
    }
  }

  // ---------------------------------------------------------------- whole tables

  predicate RowsKept(db: Db, db': Db) {
    && db.agents.Keys <= db'.agents.Keys && db.feedback.Keys <= db'.feedback.Keys
    && db.responses.Keys <= db'.responses.Keys && db.validations.Keys <= db'.validations.Keys
  }

  lemma RowsStay(db: Db, p: Packet)
    requires Apply(db, p).Changed?
    ensures RowsKept(db, Apply(db, p).db)
  {
    hide Apply;
    RowsAfter(db, p);
  }

  /** The contract's own bound on a response. */
  predicate InBounds(p: Packet) {
    p.data.ValidationResponded? ==> p.data.response <= 100
  }

  /** The rows a statement needs. */
  predicate Works(db: Db, p: Packet) {
    match p.data
    case MetadataSet(id, _, _) => id in db.agents
    case NewFeedback(id, client, index, _, decimals, _, _) =>
      1 <= index && decimals <= 18 && ((id, client, index) in db.feedback || id in db.agents)
    case ResponseAppended(id, client, index, _, _) => p.id in db.responses || (id, client, index) in db.feedback
    case ValidationRequested(hash, id, _, _) => hash in db.validations || id in db.agents
    case _ => true
  }

  lemma WorksMeansChanged(db: Db, p: Packet)
    ensures Apply(db, p).Changed? ==> Works(db, p)
    ensures Works(db, p) && InBounds(p) ==> Apply(db, p).Changed?
  {
    hide MaxOf;
    hide Numbers;
    hide NullIfEmpty;
    hide FreshResolver;
    hide WithoutAgent;
  }

  /** The rows after a statement: those before and the one it inserts. */
  lemma RowsAfter(db: Db, p: Packet)
    requires Apply(db, p).Changed?
    ensures Apply(db, p).db.agents.Keys == db.agents.Keys + if p.data.Registered? then {p.data.agentId} else {}
    ensures var db', e := Apply(db, p).db, p.data;
            && db'.feedback.Keys == db.feedback.Keys + (if e.NewFeedback? then {(e.agentId, e.client, e.index)} else {})
            && db'.responses.Keys == db.responses.Keys + (if e.ResponseAppended? then {p.id} else {})
            && db'.validations.Keys == db.validations.Keys + (if e.ValidationRequested? then {e.hash} else {})
  {
    hide Apply;
    if IsIdentityEvent(p.data) {
      AgentsAfter(db, p);
    } else {
      DependentFrame(db, p);
      DependentsAfter(db, p);
    }
  }

  lemma AgentsAfter(db: Db, p: Packet)
    requires Apply(db, p).Changed? && IsIdentityEvent(p.data)
    ensures Apply(db, p).db.agents.Keys == db.agents.Keys + if p.data.Registered? then {p.data.agentId} else {}
  {
    hide FreshResolver;
    hide WithoutAgent;
  }

  lemma DependentsAfter(db: Db, p: Packet)
    requires Apply(db, p).Changed? && !IsIdentityEvent(p.data)
    ensures var db', e := Apply(db, p).db, p.data;
            && db'.feedback.Keys == db.feedback.Keys + (if e.NewFeedback? then {(e.agentId, e.client, e.index)} else {})
            && db'.responses.Keys == db.responses.Keys + (if e.ResponseAppended? then {p.id} else {})
            && db'.validations.Keys == db.validations.Keys + (if e.ValidationRequested? then {e.hash} else {})
  {
    hide Apply;
    FeedbackAfter(db, p);
    ResponsesAfter(db, p);
    ValidationsAfter(db, p);
  }

  lemma FeedbackAfter(db: Db, p: Packet)
    requires Apply(db, p).Changed? && !IsIdentityEvent(p.data)
    ensures var e := p.data;
            Apply(db, p).db.feedback.Keys == db.feedback.Keys + (if e.NewFeedback? then {(e.agentId, e.client, e.index)} else {})
  {
    hide MaxOf;
    hide Numbers;
    hide NullIfEmpty;
  }

  lemma ResponsesAfter(db: Db, p: Packet)
    requires Apply(db, p).Changed? && !IsIdentityEvent(p.data)
    ensures Apply(db, p).db.responses.Keys == db.responses.Keys + (if p.data.ResponseAppended? then {p.id} else {})
  {
    hide MaxOf;
    hide Numbers;
    hide NullIfEmpty;
  }

  lemma ValidationsAfter(db: Db, p: Packet)
    requires Apply(db, p).Changed? && !IsIdentityEvent(p.data)
    ensures Apply(db, p).db.validations.Keys == db.validations.Keys + (if p.data.ValidationRequested? then {p.data.hash} else {})
  {
    hide MaxOf;
    hide Numbers;
    hide NullIfEmpty;
  }

  /** A statement that works on some tables works on any with their rows, and leaves at least the same rows. */
  lemma WorksWithMore(db: Db, more: Db, p: Packet)
    requires RowsKept(db, more) && Apply(db, p).Changed? && InBounds(p)
    ensures Apply(more, p).Changed? && RowsKept(Apply(db, p).db, Apply(more, p).db)
  {
    hide Apply;
    WorksMeansChanged(db, p);
    WorksMeansChanged(more, p);
    RowsAfter(db, p);
    RowsAfter(more, p);
  }

  lemma {:induction false} RunWorksWithMore(db: Db, more: Db, ps: seq<Packet>)
    requires RowsKept(db, more) && ApplyAll(db, ps).Some? && forall p | p in ps :: InBounds(p)
    ensures ApplyAll(more, ps).Some?
    decreases ps
  {
    hide Apply;
    hide RowsKept;
    if ps != [] {
      WorksWithMore(db, more, ps[0]);
      RunWorksWithMore(Apply(db, ps[0]).db, Apply(more, ps[0]).db, ps[1..]);
    }
  }

  lemma {:induction false} AllRowsStay(db: Db, ps: seq<Packet>)
    requires ApplyAll(db, ps).Some?
    ensures RowsKept(db, ApplyAll(db, ps).value)
    decreases ps
  {
    hide Apply;
    if ps != [] {
      RowsStay(db, ps[0]);
      AllRowsStay(Apply(db, ps[0]).db, ps[1..]);
    }
  }

  /** A run in order: every statement succeeds and no update misses its row. */
  ghost predicate NoneMissing(db: Db, ps: seq<Packet>) {
    && ApplyAll(db, ps).Some?
    && (forall p | p in ps :: InBounds(p))
    && forall k :: 0 <= k < |ps| ==> ApplyAll(db, ps[..k]).Some? && !RowMissing(ApplyAll(db, ps[..k]).value, ps[k])
  }

  lemma StatementWorked(db: Db, ps: seq<Packet>, k: nat)
    requires ApplyAll(db, ps).Some? && k < |ps|
    ensures ApplyAll(db, ps[..k]).Some? && Apply(ApplyAll(db, ps[..k]).value, ps[k]).Changed?
  {
    hide Apply;
    assert ps == ps[..k] + ps[k..] && ps[k..][0] == ps[k];
    ApplyAllConcat(db, ps[..k], ps[k..]);
  }

  lemma WriteFindsRow(db: Db, p: Packet, col: Column)
    requires NoStrays(db) && Apply(db, p).Changed? && !RowMissing(db, p) && IsWrite(EffectOn(col, p))
    ensures Read(db, col).Some?
  {
  }

  lemma WritesFindRows(db: Db, ps: seq<Packet>, col: Column)
    requires NoStrays(db) && NoneMissing(db, ps)
    ensures Grounded(Read(db, col), ps, col)
  {
    hide Apply;
    hide Read;
    hide EffectOn;
    hide RowMissing;
    hide Moves;
    hide NoStrays;
    forall k | 0 <= k < |ps| && IsWrite(EffectOn(col, ps[k])) ensures Moves(Read(db, col), ps[..k], col).Some? {
      StatementWorked(db, ps, k);
      ColumnMoves(db, ps[..k], col);
      WriteFindsRow(ApplyAll(db, ps[..k]).value, ps[k], col);
    }
  }

  /** Equal in every column but the resolver's, and the same responses, whatever their numbers. */
  ghost predicate SameTables(db: Db, db': Db) {
    && db'.agents.Keys == db.agents.Keys
    && (forall id :: id in db.agents ==> db'.agents[id] == db.agents[id].(resolver := db'.agents[id].resolver))
    && db'.metadata == db.metadata && db'.feedback == db.feedback && db'.validations == db.validations
    && db'.responses.Keys == db.responses.Keys
    && (forall e :: e in db.responses ==> db'.responses[e] == db.responses[e].(number := db'.responses[e].number))
  }

  lemma SameLookups<K, V>(m: map<K, V>, m': map<K, V>)
    requires forall k: K {:trigger k in m} {:trigger k in m'} :: Lookup(m', k) == Lookup(m, k)
    ensures m' == m
  {
    forall k: K ensures k in m <==> k in m' {
      assert Lookup(m', k) == Lookup(m, k);
    }
  }

  lemma ColumnsDecide(db: Db, db': Db)
    requires NoStrays(db) && NoStrays(db') && forall col: Column :: Read(db', col) == Read(db, col)
    ensures SameTables(db, db')
  {
    forall id: nat ensures id in db.agents <==> id in db'.agents
                   ensures id in db.agents ==> db'.agents[id] == db.agents[id].(resolver := db'.agents[id].resolver)
    {
      assert Read(db', Owner(id)) == Read(db, Owner(id)) && Read(db', Uri(id)) == Read(db, Uri(id))
          && Read(db', Wallet(id)) == Read(db, Wallet(id)) && Read(db', Birth(id)) == Read(db, Birth(id));
    }
    MetadataDecided(db, db');
    DependentsDecided(db, db');
  }

  lemma MetadataDecided(db: Db, db': Db)
    requires NoStrays(db) && NoStrays(db') && forall col: Column :: Read(db', col) == Read(db, col)
    ensures db'.metadata == db.metadata
  {
    forall k: (nat, string) ensures Lookup(db'.metadata, k) == Lookup(db.metadata, k) {
      assert Read(db', Metadata(k.0, k.1)) == Read(db, Metadata(k.0, k.1));
    }
    SameLookups(db.metadata, db'.metadata);
  }

  lemma DependentsDecided(db: Db, db': Db)
    requires forall col: Column :: Read(db', col) == Read(db, col)
    ensures db'.feedback == db.feedback && db'.validations == db.validations && db'.responses.Keys == db.responses.Keys
    ensures forall e :: e in db.responses ==> db'.responses[e] == db.responses[e].(number := db'.responses[e].number)
  {
    forall k: FeedbackKey ensures k in db.feedback <==> k in db'.feedback
                          ensures k in db.feedback ==> db'.feedback[k] == db.feedback[k]
    {
      assert Read(db', Revocation(k)) == Read(db, Revocation(k)) && Read(db', Feedback(k)) == Read(db, Feedback(k));
    }
    forall h: string ensures h in db.validations <==> h in db'.validations
                     ensures h in db.validations ==> db'.validations[h] == db.validations[h]
    {
      assert Read(db', Response(h)) == Read(db, Response(h)) && Read(db', Request(h)) == Read(db, Request(h));
    }
    forall e: nat ensures e in db.responses <==> e in db'.responses
                  ensures e in db.responses ==> db'.responses[e] == db.responses[e].(number := db'.responses[e].number)
    {
      assert Read(db', Reply(e)) == Read(db, Reply(e));
    }
  }

  lemma SameTablesRead(db: Db, db': Db, col: Column)
    requires SameTables(db, db')
    ensures Read(db', col) == Read(db, col)
  {
  }

  /** The events of a run: in ledger order, each after its row, agreeing on the rows they insert, none stale. */
  ghost predicate Orderly(db: Db, again: seq<Packet>) {
    && NoStrays(db) && InLedgerOrder(again) && NoneMissing(db, again)
    && (forall col: Column :: NotAhead(Read(db, col), again, col) && CreatesAgree(again, col))
  }

  lemma ColumnRepaired(db: Db, junk: seq<Packet>, again: seq<Packet>, col: Column)
    requires Orderly(db, again) && forall p :: p in junk ==> p in again
    ensures Moves(Moves(Read(db, col), junk, col), again, col) == Moves(Read(db, col), again, col)
  {
    hide Read;
    hide EffectOn;
    hide Moves;
    hide InLedgerOrder;
    hide CreatesAgree;
    hide Grounded;
    hide NoneMissing;
    hide NoStrays;
    WritesFindRows(db, again, col);
    if Read(db, col).Some? {
      RepairExisting(Read(db, col).value, junk, again, col);
    } else {
      RepairMissing(junk, again, col);
    }
  }

  lemma {:induction false} SucceedingAreMembers(db: Db, ps: seq<Packet>)
    ensures forall p :: p in Succeeding(db, ps) ==> p in ps
    decreases ps
  {
    hide Apply;
    if ps != [] {
      var a := Apply(db, ps[0]);
      SucceedingAreMembers(if a.Changed? then a.db else db, ps[1..]);
    }
  }

  /**
   * Recovery: after any statements drawn from a run's events, by crashed, repeated or stale writers, in
   * any order, some failing, the run in ledger order succeeds and leaves the tables it leaves when
   * nothing came before it.
   */
  lemma RunRepairs(db: Db, junk: seq<Packet>, again: seq<Packet>)
    requires Orderly(db, again) && forall p :: p in junk ==> p in again
    ensures ApplyAll(db, again).Some?
    ensures ApplyAll(Play(db, junk, true).db, again).Some?
    ensures SameTables(ApplyAll(db, again).value, ApplyAll(Play(db, junk, true).db, again).value)
  {
    hide Apply;
    hide Read;
    hide Play;
    hide RowsKept;
    hide SameTables;
    hide Moves;
    var done, dirty := Succeeding(db, junk), Play(db, junk, true).db;
    FailuresDoNothing(db, junk);
    SucceedingAreMembers(db, junk);
    AllRowsStay(db, done);
    RunWorksWithMore(db, dirty, again);
    var clean, repaired := ApplyAll(db, again).value, ApplyAll(dirty, again).value;
    forall col: Column ensures Read(repaired, col) == Read(clean, col) && NoStrays(repaired) && NoStrays(clean) {
      ColumnRepaired(db, done, again, col);
      ColumnMoves(db, done, col);
      ColumnMoves(db, again, col);
      ColumnMoves(dirty, again, col);
    }
    assert NoStrays(repaired) && NoStrays(clean) by { assert Read(repaired, Owner(0)) == Read(clean, Owner(0)); }
    ColumnsDecide(clean, repaired);
  }

  // ---------------------------------------------------------------- replay

  /** The same for a row that may yet be inserted. */
  lemma {:induction false} GuardBehindNew(c: Option<Cell>, ps: seq<Packet>, col: Column, ledger: nat)
    requires c.Some? ==> NotNewer(c.value.at, ledger)
    requires forall p | p in ps :: p.data.Registered? || p.ledger <= ledger
    ensures Moves(c, ps, col).Some? ==> NotNewer(Moves(c, ps, col).value.at, ledger)
  {
    hide EffectOn;
    if ps != [] {
      var k := |ps| - 1;
      GuardBehindNew(c, ps[..k], col, ledger);
      if EffectOn(col, ps[k]).Guarded? {
        OnlyUpdatesWrite(col, ps[k]);
      }
    }
  }

  lemma NotAheadLater(c: Option<Cell>, done: seq<Packet>, again: seq<Packet>, col: Column)
    requires InLedgerOrder(done + again) && NotAhead(c, done + again, col)
    ensures NotAhead(Moves(c, done, col), again, col)
  {
    hide EffectOn;
    hide Moves;
    var ps := done + again;
    forall p | p in again && EffectOn(col, p).Guarded? && Moves(c, done, col).Some?
      ensures NotNewer(Moves(c, done, col).value.at, p.ledger)
    {
      OnlyUpdatesWrite(col, p);
      var i :| 0 <= i < |again| && again[i] == p;
      assert ps[|done| + i] == p;
      forall q | q in done ensures q.data.Registered? || q.ledger <= p.ledger {
        var j :| 0 <= j < |done| && done[j] == q;
        assert ps[j] == q;
      }
      assert p in ps;
      GuardBehindNew(c, done, col, p.ledger);
    }
  }

  lemma Shifted(done: seq<Packet>, again: seq<Packet>, k: nat)
    requires k < |again|
    ensures (done + again)[|done| + k] == again[k] && (done + again)[..|done| + k] == done + again[..k]
  {
  }

  lemma NoneMissingLater(db: Db, done: seq<Packet>, again: seq<Packet>)
    requires NoneMissing(db, done + again)
    ensures ApplyAll(db, done).Some? && NoneMissing(ApplyAll(db, done).value, again)
  {
    hide Apply;
    hide RowMissing;
    hide InBounds;
    hide ApplyAll;
    ApplyAllConcat(db, done, again);
    var mid := ApplyAll(db, done).value;
    forall k | 0 <= k < |again| ensures ApplyAll(mid, again[..k]).Some? && !RowMissing(ApplyAll(mid, again[..k]).value, again[k]) {
      Shifted(done, again, k);
      ApplyAllConcat(db, done, again[..k]);
    }
    forall p | p in again ensures InBounds(p) {
      assert p in done + again;
    }
  }

  lemma OrderlyLater(db: Db, done: seq<Packet>, again: seq<Packet>)
    requires Orderly(db, done + again)
    ensures ApplyAll(db, done).Some? && Orderly(ApplyAll(db, done).value, again)
  {
    hide Apply;
    hide Read;
    hide EffectOn;
    hide NoneMissing;
    hide NoStrays;
    hide NotAhead;
    hide Moves;
    NoneMissingLater(db, done, again);
    var mid := ApplyAll(db, done).value;
    ColumnMoves(db, done, Owner(0));
    forall col: Column ensures NotAhead(Read(mid, col), again, col) && CreatesAgree(again, col) {
      ColumnMoves(db, done, col);
      NotAheadLater(Read(db, col), done, again, col);
      assert CreatesAgree(done + again, col);
    }
    var ps := done + again;
    forall i, j | 0 <= i < j < |again| && !again[i].data.Registered? && !again[j].data.Registered?
      ensures again[i].ledger <= again[j].ledger
    {
      assert ps[|done| + i] == again[i] && ps[|done| + j] == again[j];
    }
  }

  lemma {:induction false} RepliesLand(db: Db, ps: seq<Packet>)
    requires ApplyAll(db, ps).Some?
    ensures forall p | p in ps && p.data.ResponseAppended? :: p.id in ApplyAll(db, ps).value.responses
    decreases ps
  {
    hide Apply;
    if ps != [] {
      RowsAfter(db, ps[0]);
      var next := Apply(db, ps[0]).db;
      RepliesLand(next, ps[1..]);
      AllRowsStay(next, ps[1..]);
      assert ps == [ps[0]] + ps[1..];
    }
  }

  lemma ReplyStays(db: Db, p: Packet)
    requires Apply(db, p).Changed? && (p.data.ResponseAppended? ==> p.id in db.responses)
    ensures Apply(db, p).db.responses == db.responses
  {
    hide MaxOf;
    hide Numbers;
    hide NullIfEmpty;
  }

  lemma {:induction false} RepliesStay(db: Db, ps: seq<Packet>)
    requires ApplyAll(db, ps).Some? && forall p | p in ps && p.data.ResponseAppended? :: p.id in db.responses
    ensures ApplyAll(db, ps).value.responses == db.responses
    decreases ps
  {
    hide Apply;
    if ps != [] {
      ReplyStays(db, ps[0]);
      RepliesStay(Apply(db, ps[0]).db, ps[1..]);
    }
  }

  /**
   * Replay: indexing the last events of a run again over the tables the run left changes no table;
   * response numbers included, resolver columns aside.
   */
  lemma ReplayConverges(db: Db, done: seq<Packet>, again: seq<Packet>)
    requires Orderly(db, done + again)
    ensures ApplyAll(db, done + again).Some?
    ensures var tables := ApplyAll(db, done + again).value;
            && ApplyAll(tables, again).Some?
            && SameTables(tables, ApplyAll(tables, again).value)
            && ApplyAll(tables, again).value.responses == tables.responses
  {
    hide Apply;
    hide Orderly;
    hide SameTables;
    hide Play;
    OrderlyLater(db, done, again);
    var mid := ApplyAll(db, done).value;
    RunRepairs(mid, again, again);
    CommittedBatch(mid, again, true);
    ApplyAllConcat(db, done, again);
    RepliesLand(mid, again);
    RepliesStay(ApplyAll(mid, again).value, again);
  }

  // ---------------------------------------------------------------- response numbers

  /** Under every feedback the responses are numbered 1..n, each number once. */
  ghost predicate Dense(responses: map<nat, ResponseRow>) {
    && (forall k: FeedbackKey, n: nat :: n in Numbers(responses, k) <==> 1 <= n <= |Numbers(responses, k)|)
    && (forall e, f :: e in responses && f in responses && e != f && responses[e].key == responses[f].key ==>
          responses[e].number != responses[f].number)
  }

  lemma NumbersWithOne(responses: map<nat, ResponseRow>, e: nat, row: ResponseRow, k: FeedbackKey)
    requires e !in responses
    ensures Numbers(responses[e := row], k) == Numbers(responses, k) + if row.key == k then {row.number} else {}
  {
    var after := responses[e := row];
    forall n: nat ensures n in Numbers(after, k) <==> n in Numbers(responses, k) || (row.key == k && n == row.number) {
      if n in Numbers(responses, k) {
        var f :| f in responses && responses[f].key == k && responses[f].number == n;
        assert f in after && after[f] == responses[f];
      }
      if row.key == k && n == row.number {
        assert e in after && after[e].key == k && after[e].number == n;
      }
    }
  }

  lemma NextNumber(numbers: set<nat>)
    requires forall n: nat :: n in numbers <==> 1 <= n <= |numbers|
    ensures MaxOf(numbers) == |numbers|
  {
    if numbers != {} {
      assert |numbers| in numbers;
    } 
  }

  lemma NumberIsUsed(responses: map<nat, ResponseRow>, e: nat)
    requires e in responses
    ensures responses[e].number in Numbers(responses, responses[e].key)
  {
  }

  lemma AppendKeepsDense(responses: map<nat, ResponseRow>, e: nat, row: ResponseRow)
    requires Dense(responses) && e !in responses && row.number == |Numbers(responses, row.key)| + 1
    ensures Dense(responses[e := row])
  {
    hide Numbers;
    var after := responses[e := row];
    forall k: FeedbackKey, n: nat ensures n in Numbers(after, k) <==> 1 <= n <= |Numbers(after, k)| {
      NumbersWithOne(responses, e, row, k);
      assert n in Numbers(responses, k) <==> 1 <= n <= |Numbers(responses, k)|;
    }
    forall f, g | f in after && g in after && f != g && after[f].key == after[g].key ensures after[f].number != after[g].number {
      if f != e {
        NumberIsUsed(responses, f);
      }
      if g != e {
        NumberIsUsed(responses, g);
      }
    }
  }

  lemma StatementKeepsDense(db: Db, p: Packet)
    requires Dense(db.responses) && Apply(db, p).Changed?
    ensures Dense(Apply(db, p).db.responses)
  {
    hide Dense;
    if p.data.ResponseAppended? && p.id !in db.responses {
      var key := (p.data.agentId, p.data.client, p.data.index);
      NextNumberOf(db.responses, key);
      AppendKeepsDense(db.responses, p.id, ResponseRow(key, MaxOf(Numbers(db.responses, key)) + 1, p.data.responder, NullIfEmpty(p.data.uri)));
    } else {
      ReplyStays(db, p);
    }
  }

  lemma NextNumberOf(responses: map<nat, ResponseRow>, key: FeedbackKey)
    requires Dense(responses)
    ensures MaxOf(Numbers(responses, key)) == |Numbers(responses, key)|
  {
    NextNumber(Numbers(responses, key));
  }

  /** Response numbers stay exactly 1..n under any statements in any order. */
  lemma {:induction false} NumbersStayDense(db: Db, ps: seq<Packet>)
    requires Dense(db.responses)
    ensures Dense(Play(db, ps, true).db.responses)
    decreases ps
  {
    hide Apply;
    hide Dense;
    if ps != [] {
      var a := Apply(db, ps[0]);
      if a.Changed? {
        StatementKeepsDense(db, ps[0]);
      }
      NumbersStayDense(if a.Changed? then a.db else db, ps[1..]);
    }
  }
}
