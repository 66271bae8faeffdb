// Guarded columns: whoever writes, in whatever order and however often, the newest event wins.
module Guards {
  import opened Basics
  import opened Events
  import opened Tables
  import opened Writer
  import opened Columns

  // ---------------------------------------------------------------- any writers, any order

  /** The statements that did not fail, of any stream: stale, repeated, out of order. */
  function Succeeding(db: Db, ps: seq<Packet>): seq<Packet>
    decreases ps
  {
    if ps == [] then []
    else
      var a := Apply(db, ps[0]);
      if a.Changed? then [ps[0]] + Succeeding(a.db, ps[1..]) else Succeeding(db, ps[1..])
  }

  lemma {:induction false} FailuresDoNothing(db: Db, ps: seq<Packet>)
    ensures ApplyAll(db, Succeeding(db, ps)) == Some(Play(db, ps, true).db)
    decreases ps
  {
    hide Apply;
    if ps != [] {
      var a := Apply(db, ps[0]);
      if a.Changed? {
        FailuresDoNothing(a.db, ps[1..]);
        var all := [ps[0]] + Succeeding(a.db, ps[1..]);
        assert all[0] == ps[0] && all[1..] == Succeeding(a.db, ps[1..]);
      } else {
        FailuresDoNothing(db, ps[1..]);
      }
    }
  }

  // ---------------------------------------------------------------- the newest event wins

  predicate AtMost(a: Option<nat>, b: Option<nat>) {
    a.None? || (b.Some? && a.value <= b.value)
  }

  /** Owner, URI, revocation and validation response: written under their guard and no other way. */
  predicate IsGuarded(col: Column) {
    col.Owner? || col.Uri? || col.Revocation? || col.Response?
  }

  lemma GuardedHasNoFreeWrites(col: Column, p: Packet)
    requires IsGuarded(col)
    ensures !EffectOn(col, p).Free?
  {
  }

  /** A guarded write of `v` among the packets. */
  ghost predicate Wrote(ps: seq<Packet>, col: Column, ledger: nat, v: Value) {
    exists p :: p in ps && p.ledger == ledger && EffectOn(col, p) == Guarded(v)
  }

  /** Guard ledgers never decrease, and cover every event applied. */
  lemma {:induction false} GuardsRise(c: Cell, ps: seq<Packet>, col: Column)
    ensures Moves(Some(c), ps, col).Some?
    ensures var r := Moves(Some(c), ps, col).value;
            && AtMost(c.at, r.at)
            && forall p | p in ps && EffectOn(col, p).Guarded? :: AtMost(Some(p.ledger), r.at)
  {
    hide EffectOn;
    if ps != [] {
      var k := |ps| - 1;
      GuardsRise(c, ps[..k], col);
      forall p | p in ps && EffectOn(col, p).Guarded?
        ensures AtMost(Some(p.ledger), Moves(Some(c), ps, col).value.at)
      {
        assert p in ps[..k] || p == ps[k];
      }
    }
  }

  /** The value is the one it had, or that of an applied event with the guard's ledger. */
  lemma {:induction false} ValueFromGuard(c: Cell, ps: seq<Packet>, col: Column)
    requires IsGuarded(col)
    ensures Moves(Some(c), ps, col).Some?
    ensures var r := Moves(Some(c), ps, col).value;
            r == c || (r.at.Some? && Wrote(ps, col, r.at.value, r.value))
  {
    hide EffectOn;
    if ps != [] {
      var k := |ps| - 1;
      ValueFromGuard(c, ps[..k], col);
      GuardedHasNoFreeWrites(col, ps[k]);
      var before := Moves(Some(c), ps[..k], col).value;
      if before != c && Moves(Some(c), ps, col).value == before {
        var p :| p in ps[..k] && p.ledger == before.at.value && EffectOn(col, p) == Guarded(before.value);
        assert p in ps;
      }
    }
  }

  /**
   * Any statements by any writers over tables with the row: its guard covers every applied event, and
   * its value is the one it had or that of an applied event of the greatest ledger.
   */
  lemma NewestEventWins(db: Db, ps: seq<Packet>, col: Column)
    requires NoStrays(db) && (col.Owner? || col.Uri? || col.Revocation? || col.Response?) && Read(db, col).Some?
    ensures var c, r := Read(db, col).value, Read(Play(db, ps, true).db, col);
            && r.Some? && AtMost(c.at, r.value.at)
            && (forall p | p in Succeeding(db, ps) && EffectOn(col, p).Guarded? :: AtMost(Some(p.ledger), r.value.at))
            && (r.value == c || (r.value.at.Some? && Wrote(Succeeding(db, ps), col, r.value.at.value, r.value.value)))
  {
    hide Apply;
    hide Read;
    hide EffectOn;
    hide Moves;
    FailuresDoNothing(db, ps);
    ColumnMoves(db, Succeeding(db, ps), col);
    GuardsRise(Read(db, col).value, Succeeding(db, ps), col);
    ValueFromGuard(Read(db, col).value, Succeeding(db, ps), col);
  }

  /** The event that inserted a missing row: everything after it moves the new row. */
  lemma {:induction false} InsertedAt(ps: seq<Packet>, col: Column) returns (k: nat)
    requires Moves(None, ps, col).Some?
    ensures k < |ps| && EffectOn(col, ps[k]).Create? && Moves(None, ps[..k], col).None?
    ensures Moves(None, ps, col) == Moves(Some(Cell(None, EffectOn(col, ps[k]).value)), ps[k + 1..], col)
    decreases |ps|
  {
    hide EffectOn;
    k := |ps| - 1;
    if Moves(None, ps[..k], col).Some? {
      var last := k;
      k := InsertedAt(ps[..last], col);
      assert ps[..last][k + 1..] == ps[k + 1..][..last - k - 1] && ps[..last][..k] == ps[..k];
      assert ps[k + 1..][last - k - 1] == ps[last];
    } else {
      assert ps[k + 1..] == [];
    }
  }

  /**
   * The same for a row inserted among the statements: from its insertion on, its guard covers every applied
   * event, and its value is the inserted one or that of an applied event of the greatest ledger.
   */
  lemma NewestEventWinsNewRow(db: Db, ps: seq<Packet>, col: Column) returns (k: nat)
    requires NoStrays(db) && (col.Owner? || col.Uri? || col.Revocation? || col.Response?)
    requires Read(db, col).None? && Read(Play(db, ps, true).db, col).Some?
    ensures var applied, r := Succeeding(db, ps), Read(Play(db, ps, true).db, col).value;
            && k < |applied| && EffectOn(col, applied[k]).Create?
            && (forall p | p in applied[k + 1..] && EffectOn(col, p).Guarded? :: AtMost(Some(p.ledger), r.at))
            && (r == Cell(None, EffectOn(col, applied[k]).value)
                || (r.at.Some? && Wrote(applied[k + 1..], col, r.at.value, r.value)))
  {
    hide Apply;
    hide Read;
    hide EffectOn;
    hide Moves;
    var applied := Succeeding(db, ps);
    FailuresDoNothing(db, ps);
    ColumnMoves(db, applied, col);
    k := InsertedAt(applied, col);
    var c := Cell(None, EffectOn(col, applied[k]).value);
    GuardsRise(c, applied[k + 1..], col);
    ValueFromGuard(c, applied[k + 1..], col);
  }

  /** So two streams of the same events, those of one ledger agreeing, leave the same cell, whatever their order and repetitions. */
  lemma OrderDoesNotMatter(c: Cell, ps: seq<Packet>, qs: seq<Packet>, col: Column)
    requires (col.Owner? || col.Uri? || col.Revocation? || col.Response?) && forall p :: p in ps <==> p in qs
    requires forall p, q | p in ps && q in ps && p.ledger == q.ledger && EffectOn(col, p).Guarded? && EffectOn(col, q).Guarded? ::
               EffectOn(col, p) == EffectOn(col, q)
    requires forall p :: p in ps && EffectOn(col, p).Guarded? ==> c.at != Some(p.ledger)
    ensures Moves(Some(c), ps, col) == Moves(Some(c), qs, col)
  {
    hide EffectOn;
    hide Moves;
    GuardsRise(c, ps, col);
    GuardsRise(c, qs, col);
    ValueFromGuard(c, ps, col);
    ValueFromGuard(c, qs, col);
    var r, s := Moves(Some(c), ps, col).value, Moves(Some(c), qs, col).value;
    if r != c {
      var p :| p in ps && p.ledger == r.at.value && EffectOn(col, p) == Guarded(r.value);
      assert AtMost(Some(p.ledger), s.at);
    }
    if s != c {
      var q :| q in qs && q.ledger == s.at.value && EffectOn(col, q) == Guarded(s.value);
      assert AtMost(Some(q.ledger), r.at);
    }
  }

  lemma TwoMoves(c: Option<Cell>, p: Packet, q: Packet, col: Column)
    ensures Moves(c, [p, q], col) == Move(Move(c, p.ledger, EffectOn(col, p)), q.ledger, EffectOn(col, q))
  {
    assert [p, q][..1] == [p] && [p][..0] == [];
    assert Moves(c, [p], col) == Move(c, p.ledger, EffectOn(col, p));
  }
}
