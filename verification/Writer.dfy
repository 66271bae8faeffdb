// The writer: one database batch per hundred statements, replayed one by one when it rolls back.
module Writer {
  import opened Basics
  import opened Events
  import opened Tables

  const BATCH_LIMIT := 100

  datatype Reason = SkipRetryable | SkipNonretryable | Unparseable | MissingRow | RetentionClamp(contract: Contract, through: nat)

  /** A dead letter is recorded once per event and reason; a clamp's names the first ledger it skips instead. */
  type Letters = set<(nat, Reason)>

  // ---------------------------------------------------------------- what the writer promises

  /** Statements run one at a time: a failing one is skipped, or stops the play. */
  datatype Played = Played(db: Db, stopped: bool, letters: Letters)

  function SkipReason(f: Failure): Reason {
    if f.MissingParent? then SkipRetryable else SkipNonretryable
  }

  function Play(db: Db, ps: seq<Packet>, skip: bool): Played
    decreases ps
  {
    if ps == [] then Played(db, false, {})
    else
      var a := Apply(db, ps[0]);
      if a.Changed? then Play(a.db, ps[1..], skip)
      else if !skip then Played(db, true, {})
      else
        var rest := Play(db, ps[1..], skip);
        rest.(letters := rest.letters + {(ps[0].id, SkipReason(a.failure))})
  }

  /** The row an update statement needs; None of the other events can miss one silently. */
  predicate RowMissing(db: Db, p: Packet) {
    match p.data
    case UriUpdated(id, _) => id !in db.agents
    case AgentWalletSet(id, _) => id !in db.agents
    case AgentWalletUnset(id) => id !in db.agents
    case AgentTransferred(id, _) => id !in db.agents
    case FeedbackRevoked(id, client, index) => (id, client, index) !in db.feedback
    case ValidationResponded(hash, _, _, _) => hash !in db.validations
    case _ => false
  }

  function Orphans(db: Db, ps: seq<Packet>): Letters {
    set p | p in ps && RowMissing(db, p) :: (p.id, MissingRow)
  }

  /** The whole stream in chunks; after each chunk, the updates that found no row are dead-lettered. */
  function PlayChunks(db: Db, ps: seq<Packet>, skip: bool): Played
    decreases |ps|
  {
    if ps == [] then Played(db, false, {})
    else
      var n := Min(BATCH_LIMIT, |ps|);
      var chunk := Play(db, ps[..n], skip);
      if chunk.stopped then chunk
      else
        var rest := PlayChunks(chunk.db, ps[n..], skip);
        rest.(letters := chunk.letters + Orphans(chunk.db, ps[..n]) + rest.letters)
  }

  /** What is dead-lettered when the writer throws after `done` statements: the open chunk's orphans are not looked for. */
  function PartLetters(db: Db, ps: seq<Packet>, done: nat, skip: bool): Letters
    requires done <= |ps|
    decreases done
  {
    if done < BATCH_LIMIT then Play(db, ps[..done], skip).letters
    else
      var chunk := Play(db, ps[..BATCH_LIMIT], skip);
      chunk.letters + Orphans(chunk.db, ps[..BATCH_LIMIT]) + PartLetters(chunk.db, ps[BATCH_LIMIT..], done - BATCH_LIMIT, skip)
  }

  predicate Readable(p: Packet) {
    !p.data.Unrelated? && !p.data.Malformed?
  }

  function Parsed(ps: seq<Packet>): seq<Packet> {
    if ps == [] then []
    else Parsed(ps[..|ps| - 1]) + if Readable(ps[|ps| - 1]) then [ps[|ps| - 1]] else []
  }

  function Unreadable(ps: seq<Packet>): Letters {
    set p | p in ps && p.data.Malformed? :: (p.id, Unparseable)
  }

  function WriteOrder(ps: seq<Packet>): seq<Packet> {
    ParentsFirst(Parsed(ps))
  }

  /**
   * Which events fail, and what a skip leaves: one whose agent or feedback is missing may be retried later,
   * one that breaks another constraint never will be. The tables stay as they are; unskipped, the play stops.
   */
  lemma LetterOfFailure(db: Db, p: Packet)
    ensures var missing := match p.data
              case MetadataSet(id, _, _) => id !in db.agents
              case NewFeedback(id, client, index, _, decimals, _, _) =>
                1 <= index && decimals <= 18 && (id, client, index) !in db.feedback && id !in db.agents
              case ResponseAppended(id, client, index, _, _) => p.id !in db.responses && (id, client, index) !in db.feedback
              case ValidationRequested(hash, id, _, _) => hash !in db.validations && id !in db.agents
              case _ => false;
            var broken := match p.data
              case NewFeedback(_, _, index, _, decimals, _, _) => index == 0 || decimals > 18
              case ValidationResponded(hash, response, _, _) =>
                hash in db.validations && response > 100 && GetOr(db.validations[hash].responseLedger, 0) <= p.ledger
              case _ => false;
            var skipped, unskipped := Play(db, [p], true), Play(db, [p], false);
            && (unskipped.stopped <==> missing || broken) && unskipped.letters == {}
            && !skipped.stopped && skipped.db == unskipped.db && (missing || broken ==> skipped.db == db)
            && skipped.letters == (if missing then {(p.id, SkipRetryable)} else if broken then {(p.id, SkipNonretryable)} else {})
  {
    hide NullIfEmpty;
    hide MaxOf;
    hide FreshResolver;
    assert [p][1..] == [];
  }

  // ---------------------------------------------------------------- batches and chunks do not show

  lemma {:induction false} PlayConcat(db: Db, ps: seq<Packet>, qs: seq<Packet>, skip: bool)
    ensures var first := Play(db, ps, skip);
            Play(db, ps + qs, skip) == if first.stopped then first
                                       else var rest := Play(first.db, qs, skip);
                                            rest.(letters := first.letters + rest.letters)
    decreases ps
  {
    hide Apply;
    if ps == [] {
      assert ps + qs == qs;
    } else {
      assert (ps + qs)[0] == ps[0] && (ps + qs)[1..] == ps[1..] + qs;
      var a := Apply(db, ps[0]);
      PlayConcat(if a.Changed? then a.db else db, ps[1..], qs, skip);
    }
  }

  /** A batch that commits did what the statements do one by one. */
  lemma {:induction false} CommittedBatch(db: Db, ps: seq<Packet>, skip: bool)
    requires ApplyAll(db, ps).Some?
    ensures Play(db, ps, skip) == Played(ApplyAll(db, ps).value, false, {})
    decreases ps
  {
    hide Apply;
    if ps != [] {
      CommittedBatch(Apply(db, ps[0]).db, ps[1..], skip);
    }
  }

  /** Chunk boundaries never change the tables nor whether the stream stops. */
  lemma {:induction false} ChunksDoNotShow(db: Db, ps: seq<Packet>, skip: bool)
    ensures PlayChunks(db, ps, skip).db == Play(db, ps, skip).db
    ensures PlayChunks(db, ps, skip).stopped == Play(db, ps, skip).stopped
    decreases |ps|
  {
    if ps != [] {
      var n := Min(BATCH_LIMIT, |ps|);
      var chunk := Play(db, ps[..n], skip);
      assert ps == ps[..n] + ps[n..];
      PlayConcat(db, ps[..n], ps[n..], skip);
      if !chunk.stopped {
        ChunksDoNotShow(chunk.db, ps[n..], skip);
      }
    }
  }

  /** A batch is a hundred events: the updates that found no row are looked for after each hundred, and after the last. */
  lemma AfterEachHundred(db: Db, ps: seq<Packet>, skip: bool)
    requires ps != [] && !Play(db, ps, skip).stopped
    ensures var n := if |ps| < 100 then |ps| else 100;
            var first := Play(db, ps[..n], skip);
            && !first.stopped
            && PlayChunks(db, ps, skip).letters ==
               first.letters + (set p | p in ps[..n] && RowMissing(first.db, p) :: (p.id, MissingRow))
               + PlayChunks(first.db, ps[n..], skip).letters
  {
    hide Apply;
    hide RowMissing;
    var n := if |ps| < 100 then |ps| else 100;
    assert ps == ps[..n] + ps[n..];
    PlayConcat(db, ps[..n], ps[n..], skip);
  }

  /** A writer cut short records no letter the whole write would not. */
  lemma {:induction false} PartOfLetters(db: Db, ps: seq<Packet>, done: nat, skip: bool)
    requires done <= |ps| && !PlayChunks(db, ps, skip).stopped
    ensures PartLetters(db, ps, done, skip) <= PlayChunks(db, ps, skip).letters
    decreases done
  {
    hide Apply;
    if ps != [] {
      var n := Min(BATCH_LIMIT, |ps|);
      if done < BATCH_LIMIT {
        assert ps[..n] == ps[..done] + ps[done..n];
        PlayConcat(db, ps[..done], ps[done..n], skip);
      } else {
        PartOfLetters(Play(db, ps[..n], skip).db, ps[n..], done - n, skip);
      }
    }
  }
}
