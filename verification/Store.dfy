// The database the indexer works on, changed in place, and the writer that changes it.
module Store {
  import opened Basics
  import opened Events
  import opened Tables
  import opened Writer
  import opened Locks

  datatype WriteResult = Written(deferred: bool) | Threw

  class Database {
    var tables: Db
    var letters: Letters
    var control: Control

    constructor (t: Db, c: Control)
      ensures tables == t && letters == {} && control == c
    {
      tables, letters, control := t, {}, c;
    }

    method AcquireLock(owner: string, now: int) returns (ok: bool)
      modifies this`control
      ensures (control, ok) == Acquire(old(control), owner, now)
      ensures ok <==> old(control.lock).None? || old(control.lock).value.acquiredAt < now - 180_000
    {
      ok := control.lock.None? || control.lock.value.acquiredAt < now - LOCK_STALE_MS;
      if ok {
        control := control.(lock := Some(Lock(now, owner)));
      }
    }

    method ReleaseLock(owner: string)
      modifies this`control
      ensures control == Release(old(control), owner)
    {
      if control.lock.Some? && control.lock.value.owner == owner {
        control := control.(lock := None);
      }
    }

    method SaveCheckpoint(contract: Contract, ck: Checkpoint, owner: string, now: int) returns (r: SaveResult)
      modifies this`control
      ensures (control, r) == Save(old(control), contract, ck, owner, now)
    {
      if !Holds(control, owner) {
        return LostLock;
      }
      control := control.(lock := Some(Lock(now, owner)));
      if contract in control.state && control.state[contract].lastLedger <= ck.lastLedger {
        control := control.(state := control.state[contract := ck]);
        return Saved;
      }
      return MovedPast;
    }

    /** The letter of a clamp. */
    method RecordClamp(contract: Contract, from: nat, through: nat)
      modifies this`letters
      ensures letters == old(letters) + {(from, RetentionClamp(contract, through))}
    {
      letters := letters + {(from, RetentionClamp(contract, through))};
    }

    /** db.batch: one transaction, statement by statement on a working copy. */
    method Batch(ps: seq<Packet>) returns (committed: bool)
      modifies this`tables
      ensures committed == ApplyAll(old(tables), ps).Some?
      ensures tables == if committed then ApplyAll(old(tables), ps).value else old(tables)
    {
      var working := tables;
      var i := 0;
      while i < |ps|
        invariant 0 <= i <= |ps| && tables == old(tables)
        invariant ApplyAll(tables, ps) == ApplyAll(working, ps[i..])
      {
        var a := Apply(working, ps[i]);
        if a.Violates? {
          return false;
        }
        working := a.db;
        i := i + 1;
      }
      tables := working;
      return true;
    }

    /** The replay after a rollback: only the failing event defers or skips. `fault` is a lost connection. */
    method ReplayOneByOne(ps: seq<Packet>, skip: bool, fault: nat -> bool) returns (r: WriteResult, ghost done: nat)
      modifies this`tables, this`letters
      ensures done <= |ps| && (r.Threw? ==> done < |ps|)
      ensures r.Threw? ==> tables == Play(old(tables), ps[..done], skip).db
                           && letters == old(letters) + Play(old(tables), ps[..done], skip).letters
      ensures r.Written? ==> r.deferred == Play(old(tables), ps, skip).stopped
                             && tables == Play(old(tables), ps, skip).db
                             && letters == old(letters) + Play(old(tables), ps, skip).letters
      ensures (forall i: nat :: !fault(i)) ==> r.Written?
    {
      done := 0;
      var i := 0;
      while i < |ps|
        invariant 0 <= i == done <= |ps|
        invariant var soFar := Play(old(tables), ps[..i], skip);
                  tables == soFar.db && letters == old(letters) + soFar.letters && !soFar.stopped
      {
        if fault(i) {
          return Threw, done;
        }
        var a := Apply(tables, ps[i]);
        PlayConcat(old(tables), ps[..i], [ps[i]], skip);
        assert ps[..i + 1] == ps[..i] + [ps[i]] && [ps[i]][1..] == [];
        if a.Changed? {
          tables := a.db;
        } else if skip {
          letters := letters + {(ps[i].id, SkipReason(a.failure))};
        } else {
          assert ps == ps[..i + 1] + ps[i + 1..];
          PlayConcat(old(tables), ps[..i + 1], ps[i + 1..], skip);
          return Written(true), done;
        }
        i := i + 1;
        done := i;
      }
      assert ps[..|ps|] == ps;
      return Written(false), done;
    }

    /** Updates that changed nothing because their row was never indexed. */
    method RecordOrphans(ps: seq<Packet>)
      modifies this`letters
      ensures letters == old(letters) + Orphans(tables, ps)
    {
      var i := 0;
      while i < |ps|
        invariant 0 <= i <= |ps|
        invariant letters == old(letters) + Orphans(tables, ps[..i])
      {
        OrphansLast(tables, ps[..i], ps[i]);
        assert ps[..i + 1] == ps[..i] + [ps[i]];
        if RowMissing(tables, ps[i]) {
          letters := letters + {(ps[i].id, MissingRow)};
        }
        i := i + 1;
      }
      assert ps[..|ps|] == ps;
    }

    /** The first loop of writeEvents: keep what parses, dead-letter what is recognised but unreadable. */
    method Interpret(events: seq<Packet>) returns (packets: seq<Packet>)
      modifies this`letters
      ensures packets == Parsed(events)
      ensures letters == old(letters) + Unreadable(events)
    {
      packets := [];
      var i := 0;
      while i < |events|
        invariant 0 <= i <= |events|
        invariant packets == Parsed(events[..i])
        invariant letters == old(letters) + Unreadable(events[..i])
      {
        var e := events[i];
        assert events[..i + 1] == events[..i] + [e];
        UnreadableLast(events[..i], e);
        if e.data.Malformed? {
          letters := letters + {(e.id, Unparseable)};
        } else if !e.data.Unrelated? {
          packets := packets + [e];
        }
        i := i + 1;
      }
      assert events[..|events|] == events;
    }

    /** One chunk: a batch, or its replay, then the orphan check. */
    method WriteChunk(chunk: seq<Packet>, skip: bool, fault: nat -> bool) returns (r: WriteResult, ghost done: nat)
      modifies this`tables, this`letters
      ensures done <= |chunk| && (r.Threw? ==> done < |chunk| || done == 0)
      ensures r.Threw? ==>
                var part := Play(old(tables), chunk[..done], skip);
                tables == part.db && letters == old(letters) + part.letters
      ensures r.Written? ==>
                var played := Play(old(tables), chunk, skip);
                && r.deferred == played.stopped
                && tables == played.db
                && letters == old(letters) + played.letters + if played.stopped then {} else Orphans(played.db, chunk)
      ensures (forall i: nat :: !fault(i)) ==> r.Written?
    {
      hide Apply;
      hide Orphans;
      if fault(0) {
        assert chunk[..0] == [];
        return Threw, 0;
      }
      var committed := Batch(chunk);
      if committed {
        CommittedBatch(old(tables), chunk, skip);
      } else {
        r, done := ReplayOneByOne(chunk, skip, (i: nat) => fault(i + 1));
        if r.Threw? || r.deferred {
          return;
        }
      }
      RecordOrphans(chunk);
      return Written(false), |chunk|;
    }

    /**
     * Writes a page's events: registrations first, in chunks of BATCH_LIMIT. The tables end up as if
     * every statement had run alone, whatever the chunks and rollbacks; a thrown error leaves a prefix,
     * with the letters of its complete chunks and of the statements after them.
     */
    method WriteEvents(events: seq<Packet>, skip: bool, fault: (nat, nat) -> bool) returns (r: WriteResult, ghost done: nat)
      modifies this`tables, this`letters
      ensures r.Written? ==>
                var played := PlayChunks(old(tables), WriteOrder(events), skip);
                && r.deferred == played.stopped
                && tables == played.db
                && letters == old(letters) + Unreadable(events) + played.letters
      ensures done <= |WriteOrder(events)|
      ensures r.Threw? ==>
                && tables == Play(old(tables), WriteOrder(events)[..done], skip).db
                && letters == old(letters) + Unreadable(events) + PartLetters(old(tables), WriteOrder(events), done, skip)
      ensures (forall i: nat, j: nat :: !fault(i, j)) ==> r.Written?
    {
      hide Apply;
      hide Orphans;
      hide Unreadable;
      hide Play;
      hide PlayChunks;
      hide ChunksReached;
      hide ParentsFirst;
      hide PartReached;
      hide PartLetters;
      var packets := Interpret(events);
      var ordered := ParentsFirst(packets);
      var before := letters;
      ghost var first := tables;
      ghost var sofar: Letters := {};
      var offset := 0;
      ReachedAtStart(first, ordered, skip);
      PartAtStart(first, ordered, skip);
      while offset < |ordered|
        invariant 0 <= offset <= |ordered|
        invariant ChunksReached(first, ordered, offset, skip, tables, sofar)
        invariant offset < |ordered| ==> PartReached(first, ordered, offset, skip, tables, sofar)
        invariant letters == before + sofar
      {
        var n := Min(BATCH_LIMIT, |ordered| - offset);
        var chunk := ordered[offset..offset + n];
        ghost var base := tables;
        var w, d := WriteChunk(chunk, skip, (i: nat) => fault(offset, i));
        if w.Threw? {
          ReachedPartway(first, ordered, offset, n, d, skip, base, sofar);
          PartFromHere(first, ordered, offset, n, d, skip, base, sofar);
          return Threw, offset + d;
        }
        ReachedNext(first, ordered, offset, n, skip, base, sofar);
        PartNext(first, ordered, offset, n, skip, base, sofar);
        if w.deferred {
          return Written(true), offset;
        }
        ghost var played := Play(base, chunk, skip);
        sofar := sofar + (played.letters + Orphans(played.db, chunk));
        offset := offset + n;
      }
      ReachedAtEnd(first, ordered, skip, tables, sofar);
      return Written(false), offset;
    }
  }

  /** The chunk loop's invariant: a prefix is played, and playing the rest gives the whole. */
  ghost predicate ChunksReached(first: Db, ps: seq<Packet>, offset: nat, skip: bool, now: Db, sofar: Letters)
    requires offset <= |ps|
  {
    var rest := PlayChunks(now, ps[offset..], skip);
    && now == Play(first, ps[..offset], skip).db && !Play(first, ps[..offset], skip).stopped
    && PlayChunks(first, ps, skip) == rest.(letters := sofar + rest.letters)
  }

  lemma ReachedAtStart(first: Db, ps: seq<Packet>, skip: bool)
    ensures ChunksReached(first, ps, 0, skip, first, {})
  {
    assert ps[0..] == ps && ps[..0] == [];
  }

  /** The letters of a play cut short from here on add to those so far. */
  ghost predicate PartReached(first: Db, ps: seq<Packet>, offset: nat, skip: bool, now: Db, sofar: Letters)
    requires offset <= |ps|
  {
    forall d: nat :: PartAdds(first, ps, offset, d, skip, now, sofar)
  }

  ghost predicate PartAdds(first: Db, ps: seq<Packet>, offset: nat, d: nat, skip: bool, now: Db, sofar: Letters)
    requires offset <= |ps|
  {
    offset + d <= |ps| ==> PartLetters(first, ps, offset + d, skip) == sofar + PartLetters(now, ps[offset..], d, skip)
  }

  lemma PartAtStart(first: Db, ps: seq<Packet>, skip: bool)
    ensures PartReached(first, ps, 0, skip, first, {})
  {
    assert ps[0..] == ps;
  }

  lemma PartFromHere(first: Db, ps: seq<Packet>, offset: nat, n: nat, d: nat, skip: bool, now: Db, sofar: Letters)
    requires offset < |ps| && n == Min(BATCH_LIMIT, |ps| - offset) && (d < n || d == 0)
    requires PartReached(first, ps, offset, skip, now, sofar)
    ensures PartLetters(first, ps, offset + d, skip) == sofar + Play(now, ps[offset..offset + n][..d], skip).letters
  {
    hide Play;
    assert PartAdds(first, ps, offset, d, skip, now, sofar);
    assert ps[offset..][..d] == ps[offset..offset + n][..d];
    assert PartLetters(now, ps[offset..], d, skip) == Play(now, ps[offset..][..d], skip).letters;
  }

  lemma PartNext(first: Db, ps: seq<Packet>, offset: nat, n: nat, skip: bool, now: Db, sofar: Letters)
    requires offset < |ps| && n == Min(BATCH_LIMIT, |ps| - offset) && PartReached(first, ps, offset, skip, now, sofar)
    ensures var played := Play(now, ps[offset..offset + n], skip);
            offset + n < |ps| ==>
              PartReached(first, ps, offset + n, skip, played.db, sofar + (played.letters + Orphans(played.db, ps[offset..offset + n])))
  {
    hide Play;
    hide Orphans;
    if offset + n < |ps| {
      var played := Play(now, ps[offset..offset + n], skip);
      assert ps[offset..][..n] == ps[offset..offset + n] && ps[offset..][n..] == ps[offset + n..];
      var sofar' := sofar + (played.letters + Orphans(played.db, ps[offset..offset + n]));
      var next := offset + n;
      forall d: nat ensures PartAdds(first, ps, next, d, skip, played.db, sofar') {
        assert PartAdds(first, ps, offset, n + d, skip, now, sofar);
        if offset + n + d <= |ps| {
          assert PartLetters(now, ps[offset..], n + d, skip)
              == played.letters + Orphans(played.db, ps[offset..offset + n]) + PartLetters(played.db, ps[offset + n..], d, skip);
        }
      }
    }
  }

  lemma ReachedPartway(first: Db, ps: seq<Packet>, offset: nat, n: nat, d: nat, skip: bool, base: Db, sofar: Letters)
    requires d <= n && offset + n <= |ps| && ChunksReached(first, ps, offset, skip, base, sofar)
    ensures Play(base, ps[offset..offset + n][..d], skip).db == Play(first, ps[..offset + d], skip).db
  {
    hide Apply;
    hide PlayChunks;
    var chunk := ps[offset..offset + n];
    assert ps[..offset + d] == ps[..offset] + chunk[..d];
    PlayConcat(first, ps[..offset], chunk[..d], skip);
  }

  lemma ReachedNext(first: Db, ps: seq<Packet>, offset: nat, n: nat, skip: bool, base: Db, sofar: Letters)
    requires offset < |ps| && n == Min(BATCH_LIMIT, |ps| - offset) && ChunksReached(first, ps, offset, skip, base, sofar)
    ensures var played := Play(base, ps[offset..offset + n], skip);
            if played.stopped
            then PlayChunks(first, ps, skip) == played.(letters := sofar + played.letters)
            else ChunksReached(first, ps, offset + n, skip, played.db,
                         sofar + (played.letters + Orphans(played.db, ps[offset..offset + n])))
  {
    hide Apply;
    hide Orphans;
    var chunk := ps[offset..offset + n];
    assert chunk == ps[offset..][..n] && ps[offset..][n..] == ps[offset + n..];
    assert ps[..offset + n] == ps[..offset] + chunk;
    PlayConcat(first, ps[..offset], chunk, skip);
  }

  lemma ReachedAtEnd(first: Db, ps: seq<Packet>, skip: bool, now: Db, sofar: Letters)
    requires ChunksReached(first, ps, |ps|, skip, now, sofar)
    ensures PlayChunks(first, ps, skip) == Played(now, false, sofar)
  {
    assert ps[|ps|..] == [];
  }

  lemma OrphansLast(db: Db, ps: seq<Packet>, p: Packet)
    ensures Orphans(db, ps + [p]) == Orphans(db, ps) + if RowMissing(db, p) then {(p.id, MissingRow)} else {}
  {
    hide RowMissing;
    assert forall q :: q in ps + [p] <==> q in ps || q == p;
  }

  lemma UnreadableLast(ps: seq<Packet>, p: Packet)
    ensures Unreadable(ps + [p]) == Unreadable(ps) + if p.data.Malformed? then {(p.id, Unparseable)} else {}
  {
    assert forall q :: q in ps + [p] <==> q in ps || q == p;
  }
}
