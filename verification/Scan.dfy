// The scan of one contract: windows, pages, the held ledger, the clamp, deferrals and checkpoints.
module Scan {
  import opened Basics
  import opened Events
  import opened Tables
  import opened Writer
  import opened Locks
  import opened Store
  import opened Rpc

  const MAX_DEFER_ATTEMPTS := 5

  // ---------------------------------------------------------------- one page

  /** Where the scan stands between pages; `held` are the events of the ledger a full page ended in. */
  datatype Position = Position(last: nat, from: nat, to: nat, cursor: Option<nat>, held: seq<Packet>)

  function WindowFrom(from: nat, head: nat): nat {
    if from + SCAN_LIMIT - 1 <= head then from + SCAN_LIMIT - 1 else head
  }

  function NextRequest(p: Position): Request {
    if p.cursor.Some? then After(p.cursor.value) else Range(p.from, p.to + 1)
  }

  /** What a page yields: events of complete ledgers to write, the ledger reached, what is held back. */
  datatype Digest = Digest(ready: seq<Packet>, held: seq<Packet>, reached: int, scanned: bool)

  function Digested(p: Position, page: Reply): Digest
    requires page.Page?
  {
    var inWindow := InRange(page.events, 0, p.to + 1);
    var all := p.held + inWindow;
    if |page.events| < PAGE_LIMIT || |inWindow| < |page.events| then
      // Short page, or one that ran past the window: the window is scanned, up to the node's latest ledger.
      Digest(all, [], Min(p.to, page.latest), true)
    else
      var open := all[|all| - 1].ledger;
      Digest(InRange(all, 0, open), InRange(all, open, open + 1), open - 1, false)
  }

  /** Where the scan goes on after a page that neither deferred nor lagged. */
  function NextPosition(p: Position, page: Reply, head: nat): Position
    requires page.Page?
  {
    var d := Digested(p, page);
    if d.scanned then Position(p.to, p.to + 1, WindowFrom(p.to + 1, head), None, [])
    else p.(last := if d.reached < 0 then 0 else d.reached, cursor := Some(page.cursor), held := d.held)
  }

  function FirstPosition(base: nat, head: nat): Position {
    Position(base, base + 1, WindowFrom(base + 1, head), None, [])
  }

  /** Where the scan stands before its n-th call, as the replies to the calls before it put it. */
  function PositionAt(server: Server, base: nat, head: nat, n: nat): Position {
    if n == 0 then FirstPosition(base, head)
    else
      var p := PositionAt(server, base, head, n - 1);
      var reply := server(n - 1, NextRequest(p));
      if reply.Page? then NextPosition(p, reply, head) else p
  }

  /** The reply to the n-th call the scan makes. */
  function ReplyAt(server: Server, base: nat, head: nat, n: nat): Reply {
    server(n, NextRequest(PositionAt(server, base, head, n)))
  }

  /** The windows from a ledger to the head. */
  function Windows(from: nat, head: nat): nat
    decreases head + 1 - from
  {
    if from > head then 0 else 1 + Windows(WindowFrom(from, head) + 1, head)
  }

  /** A window is ten thousand ledgers: as many as it takes to cover the ledgers. */
  lemma {:induction false} WindowsCount(from: nat, head: nat)
    ensures from > head ==> Windows(from, head) == 0
    ensures from <= head ==> 10_000 * (Windows(from, head) - 1) < head + 1 - from <= 10_000 * Windows(from, head)
    decreases head + 1 - from
  {
    if from <= head {
      WindowsCount(WindowFrom(from, head) + 1, head);
    }
  }

  /** The first call asks for the first ten thousand ledgers after the base, or up to the head. */
  lemma FirstRequest(base: nat, head: nat)
    requires base < head
    ensures NextRequest(FirstPosition(base, head)) == Range(base + 1, Min(base + 10_000, head) + 1)
  {
  }

  /** A scan makes a call per window and one per full page of events, no more. */
  function MaxCalls(evs: seq<Packet>, base: nat, head: nat): nat {
    Windows(base + 1, head) + FullPages(evs, CountUpTo(evs, base), head)
  }

  function FullPages(evs: seq<Packet>, pos: nat, head: nat): nat {
    if pos <= CountUpTo(evs, head) then (CountUpTo(evs, head) - pos) / PAGE_LIMIT else 0
  }

  /**
   * The scan's invariant over a stream: everything up to `last` is behind it, `pos` events are read,
   * and what was read of ledger last + 1 is held.
   */
  ghost predicate MidScan(evs: seq<Packet>, p: Position, pos: nat) {
    && 1 <= p.from <= p.to < p.from + SCAN_LIMIT
    && p.from - 1 <= p.last < p.to
    && CountUpTo(evs, p.last) <= pos <= CountUpTo(evs, p.to)
    && p.held == evs[CountUpTo(evs, p.last)..pos]
    && (p.cursor.None? ==> p.last == p.from - 1 && pos == CountUpTo(evs, p.last))
    && (p.cursor.Some? ==> p.cursor.value == pos >= 1 && evs[pos - 1].ledger == p.last + 1)
  }

  lemma PageRead(evs: seq<Packet>, p: Position, pos: nat, page: Reply) returns (stop: nat)
    requires Sorted(evs) && MidScan(evs, p, pos)
    requires page.Page? && LawfulReply(evs, NextRequest(p), page)
    ensures pos <= stop <= |evs| && page.events == evs[pos..stop] && stop <= pos + PAGE_LIMIT
    ensures page.latest > p.last
    ensures stop < pos + PAGE_LIMIT ==> Min(stop, CountUpTo(evs, p.to)) == CountUpTo(evs, Min(p.to, page.latest))
    ensures stop > CountUpTo(evs, p.to) ==> page.latest > p.to
    ensures stop == pos + PAGE_LIMIT ==> page.cursor == stop
  {
    hide Sorted;
    hide CountUpTo;
    var start := if p.cursor.Some? then evs[pos - 1].ledger else p.from;
    var end := if p.cursor.Some? then start + SCAN_LIMIT else p.to;
    var reach := Min(Min(start + SCAN_LIMIT - 1, page.latest), end);
    assert LawfulPage(evs, start, pos, end, page);
    stop := Min(pos + PAGE_LIMIT, CountUpTo(evs, reach));
    assert Min(reach, p.to) == Min(p.to, page.latest);
    if stop < pos + PAGE_LIMIT {
      if reach <= p.to {
        CountMonotone(evs, reach, p.to);
      } else {
        CountMonotone(evs, p.to, reach);
      }
    }
    if stop > CountUpTo(evs, p.to) {
      assert evs[CountUpTo(evs, p.to)].ledger <= reach;
    }
  }

  /** The window is scanned: held and new events are exactly the ledgers up to the reached one. */
  lemma WindowScanned(evs: seq<Packet>, p: Position, pos: nat, page: Reply)
    requires Sorted(evs) && MidScan(evs, p, pos)
    requires page.Page? && LawfulReply(evs, NextRequest(p), page) && Digested(p, page).scanned
    ensures var d := Digested(p, page);
            d.reached == Min(p.to, page.latest) && p.last < d.reached && d.ready == Window(evs, p.last, d.reached)
  {
    hide Sorted;
    hide CountUpTo;
    hide LawfulReply;
    hide InRange;
    var stop := PageRead(evs, p, pos, page);
    RangeIsStretch(evs, pos, stop, 0, p.to + 1);
    var reached := Min(p.to, page.latest);
    CountMonotone(evs, p.last, reached);
    assert CountBelow(evs, p.to + 1) == CountUpTo(evs, p.to);
    assert InRange(page.events, 0, p.to + 1) == evs[pos..CountUpTo(evs, reached)];
  }

  lemma FullPage(evs: seq<Packet>, p: Position, pos: nat, page: Reply)
    requires Sorted(evs) && MidScan(evs, p, pos)
    requires page.Page? && LawfulReply(evs, NextRequest(p), page) && !Digested(p, page).scanned
    ensures pos + PAGE_LIMIT <= CountUpTo(evs, p.to) && page.cursor == pos + PAGE_LIMIT
    ensures p.held + InRange(page.events, 0, p.to + 1) == evs[CountUpTo(evs, p.last)..pos + PAGE_LIMIT]
  {
    hide Sorted;
    hide CountUpTo;
    hide LawfulReply;
    hide InRange;
    var stop := PageRead(evs, p, pos, page);
    RangeIsStretch(evs, pos, stop, 0, p.to + 1);
    assert CountBelow(evs, p.to + 1) == CountUpTo(evs, p.to);
    assert InRange(page.events, 0, p.to + 1) == evs[pos..Min(stop, CountUpTo(evs, p.to))];
  }

  /** A full page inside the window: complete ledgers are ready, the one it ended in is held. */
  lemma LedgerHeld(evs: seq<Packet>, p: Position, pos: nat, page: Reply)
    requires Sorted(evs) && MidScan(evs, p, pos)
    requires page.Page? && LawfulReply(evs, NextRequest(p), page) && !Digested(p, page).scanned
    ensures var d := Digested(p, page);
            && p.last <= d.reached < p.to && pos + PAGE_LIMIT <= |evs|
            && d.ready == Window(evs, p.last, d.reached)
            && MidScan(evs, p.(last := d.reached, cursor := Some(page.cursor), held := d.held), pos + PAGE_LIMIT)
  {
    hide Sorted;
    hide CountUpTo;
    hide LawfulReply;
    hide InRange;
    hide Window;
    FullPage(evs, p, pos, page);
    var stop, lo := pos + PAGE_LIMIT, CountUpTo(evs, p.last);
    var all := evs[lo..stop];
    assert all[|all| - 1] == evs[stop - 1];
    LastLedgerSplits(evs, p.last, stop, p.to);
  }

  lemma InsideWindow(evs: seq<Packet>, p: Position, pos: nat)
    requires MidScan(evs, p, pos)
    ensures p.from <= p.to
  {
  }

  lemma FreshWindow(evs: seq<Packet>, last: nat, head: nat)
    requires Sorted(evs) && last < head
    ensures MidScan(evs, Position(last, last + 1, WindowFrom(last + 1, head), None, []), CountUpTo(evs, last))
  {
    hide Sorted;
    hide CountUpTo;
    CountMonotone(evs, last, WindowFrom(last + 1, head));
  }

  // ---------------------------------------------------------------- what a scan leaves behind

  /** One completed write: the ledgers up to `upTo`, with failing events skipped or not. */
  datatype Cut = Cut(upTo: nat, skip: bool)

  function Bound(base: nat, cuts: seq<Cut>): nat {
    if cuts == [] then base else cuts[|cuts| - 1].upTo
  }

  function WriteCut(db: Db, evs: seq<Packet>, after: nat, cut: Cut): Played {
    PlayChunks(db, WriteOrder(Window(evs, after, cut.upTo)), cut.skip)
  }

  /** The tables after writing a stream in those cuts. */
  function Replayed(db: Db, evs: seq<Packet>, base: nat, cuts: seq<Cut>): Db {
    if cuts == [] then db
    else
      var k := |cuts| - 1;
      WriteCut(Replayed(db, evs, base, cuts[..k]), evs, Bound(base, cuts[..k]), cuts[k]).db
  }

  /** The dead letters of one write. */
  function EventLetters(db: Db, events: seq<Packet>, skip: bool): Letters {
    Unreadable(events) + PlayChunks(db, WriteOrder(events), skip).letters
  }

  function CutLetters(db: Db, evs: seq<Packet>, after: nat, cut: Cut): Letters {
    EventLetters(db, Window(evs, after, cut.upTo), cut.skip)
  }

  /** The dead letters of all those cuts. */
  function LettersOf(db: Db, evs: seq<Packet>, base: nat, cuts: seq<Cut>): Letters {
    if cuts == [] then {}
    else
      var k := |cuts| - 1;
      LettersOf(db, evs, base, cuts[..k]) + CutLetters(Replayed(db, evs, base, cuts[..k]), evs, Bound(base, cuts[..k]), cuts[k])
  }

  /** A clamp leaves a letter that names the ledgers it skips. */
  function ClampLetter(contract: Contract, start: Checkpoint, head: nat, oldest: nat): Letters {
    if start.lastLedger >= head || start.lastLedger + 1 >= oldest then {}
    else {(start.lastLedger + 1, RetentionClamp(contract, oldest - 1))}
  }

  /**
   * Ledgers rise from cut to cut, so each ledger is written once; skipping is armed by the stored
   * count and only at the checkpoint that count was stored for.
   */
  ghost predicate LawfulCuts(start: Checkpoint, base: nat, cuts: seq<Cut>) {
    && (forall k :: 0 <= k < |cuts| ==> Bound(base, cuts[..k]) < cuts[k].upTo)
    && (forall k :: 0 <= k < |cuts| ==> cuts[k].skip == (k == 0 && start.deferAttempts >= 5))
  }

  /** Where the scan starts: its checkpoint, or the edge of RPC retention when that was clamped. */
  function Base(start: Checkpoint, head: nat, oldest: nat): nat {
    if start.lastLedger >= head || start.lastLedger + 1 >= oldest then start.lastLedger else oldest - 1
  }

  /** The scan so far: tables written in lawful cuts up to `ck`, whose count restarts with progress. */
  ghost predicate Progressed(initial: Db, evs: seq<Packet>, start: Checkpoint, base: nat, cuts: seq<Cut>, now: Db, ck: Checkpoint) {
    && LawfulCuts(start, base, cuts)
    && ck == Checkpoint(Bound(base, cuts), if cuts == [] then start.deferAttempts else 0)
    && now == Replayed(initial, evs, base, cuts)
    && base <= ck.lastLedger
  }

  lemma CutAdded(initial: Db, evs: seq<Packet>, start: Checkpoint, base: nat, cuts: seq<Cut>, now: Db, ck: Checkpoint, cut: Cut)
    requires Progressed(initial, evs, start, base, cuts, now, ck)
    requires ck.lastLedger < cut.upTo && cut.skip == (ck.deferAttempts >= MAX_DEFER_ATTEMPTS)
    ensures Progressed(initial, evs, start, base, cuts + [cut], WriteCut(now, evs, ck.lastLedger, cut).db, Checkpoint(cut.upTo, 0))
  {
    hide WriteCut;
    var cuts' := cuts + [cut];
    assert cuts'[..|cuts|] == cuts;
    forall k | 0 <= k < |cuts'| ensures Bound(base, cuts'[..k]) < cuts'[k].upTo {
      if k < |cuts| {
        assert cuts'[..k] == cuts[..k];
      }
    }
  }

  lemma LettersAdded(db: Db, evs: seq<Packet>, base: nat, cuts: seq<Cut>, cut: Cut)
    ensures LettersOf(db, evs, base, cuts + [cut])
         == LettersOf(db, evs, base, cuts) + CutLetters(Replayed(db, evs, base, cuts), evs, Bound(base, cuts), cut)
  {
    assert (cuts + [cut])[..|cuts|] == cuts;
  }

  lemma EmptyCut(now: Db, evs: seq<Packet>, after: nat, skip: bool)
    ensures WriteCut(now, evs, after, Cut(after, skip)) == Played(now, false, {})
    ensures CutLetters(now, evs, after, Cut(after, skip)) == {}
  {
    hide CountUpTo;
    assert Window(evs, after, after) == [];
  }

  datatype Stop = Deferred | RpcError | Deadline

  datatype ScanResult = Finished(ck: Checkpoint, stopped: Option<Stop>) | Aborted

  // ---------------------------------------------------------------- the loop

  /** Some first statements of a write ran, and no more. */
  ghost predicate PartlyPlayed(before: Db, ps: seq<Packet>, skip: bool, now: Db) {
    exists n: nat :: n <= |ps| && now == Play(before, ps[..n], skip).db
  }

  lemma PlayedInFull(before: Db, ps: seq<Packet>, skip: bool)
    ensures PartlyPlayed(before, ps, skip, PlayChunks(before, ps, skip).db)
  {
    ChunksDoNotShow(before, ps, skip);
    assert ps[..|ps|] == ps;
  }

  /** A write that threw, or whose save failed: a first part of it ran, with the letters of that part, or all of it. */
  ghost predicate BrokenOff(before: Db, events: seq<Packet>, skip: bool, was: Letters, now: Db, letters: Letters) {
    || (exists n: nat :: n <= |WriteOrder(events)| && PartDone(before, events, skip, was, now, letters, n))
    || (now == PlayChunks(before, WriteOrder(events), skip).db && letters == was + EventLetters(before, events, skip))
  }

  ghost predicate PartDone(before: Db, events: seq<Packet>, skip: bool, was: Letters, now: Db, letters: Letters, n: nat)
    requires n <= |WriteOrder(events)|
  {
    && now == Play(before, WriteOrder(events)[..n], skip).db
    && letters == was + Unreadable(events) + PartLetters(before, WriteOrder(events), n, skip)
  }

  lemma BrokenOffPlayed(before: Db, events: seq<Packet>, skip: bool, was: Letters, now: Db, letters: Letters)
    requires BrokenOff(before, events, skip, was, now, letters)
    ensures PartlyPlayed(before, WriteOrder(events), skip, now)
    ensures was <= letters
  {
    hide WriteOrder;
    hide Play;
    PlayedInFull(before, WriteOrder(events), skip);
  }

  datatype PageResult = Advanced(ck: Checkpoint) | PageDeferred | PageAborted

  /** Writes what a page made ready, then saves: progress resets the count, a deferral adds one. */
  method WritePage(db: Database, contract: Contract, owner: string, now: int, fault: (nat, nat) -> bool,
                   ready: seq<Packet>, reached: nat, ck: Checkpoint)
    returns (r: PageResult)
    requires contract in db.control.state && db.control.state[contract] == ck && ck.lastLedger <= reached
    modifies db
    ensures var skip := ck.deferAttempts >= 5;
            var played := PlayChunks(old(db.tables), WriteOrder(ready), skip);
            && (!r.PageAborted? ==> db.tables == played.db && played.stopped == r.PageDeferred?)
            && (r.Advanced? ==> r.ck == if reached > ck.lastLedger then Checkpoint(reached, 0) else ck)
            && (!r.PageAborted? ==> db.letters == old(db.letters) + EventLetters(old(db.tables), ready, skip))
            && (r.PageAborted? ==> BrokenOff(old(db.tables), ready, skip, old(db.letters), db.tables, db.letters))
    ensures db.control.state == old(db.control.state)[contract :=
              if r.Advanced? then r.ck
              else if r.PageDeferred? then Checkpoint(ck.lastLedger, ck.deferAttempts + 1) else ck]
    ensures Holds(old(db.control), owner) ==> Holds(db.control, owner)
    ensures Holds(old(db.control), owner) && (forall a: nat, b: nat :: !fault(a, b)) ==> !r.PageAborted?
  {
    hide PlayChunks;
    hide WriteOrder;
    hide PartLetters;
    hide Play;
    assert db.control.state[contract := ck] == db.control.state;
    var skip := ck.deferAttempts >= MAX_DEFER_ATTEMPTS;
    var written, done := db.WriteEvents(ready, skip, fault);
    if written.Threw? {
      assert PartDone(old(db.tables), ready, skip, old(db.letters), db.tables, db.letters, done);
      return PageAborted;
    }
    assert old(db.letters) + Unreadable(ready) + PlayChunks(old(db.tables), WriteOrder(ready), skip).letters
        == old(db.letters) + EventLetters(old(db.tables), ready, skip);
    if written.deferred {
      var saved := db.SaveCheckpoint(contract, Checkpoint(ck.lastLedger, ck.deferAttempts + 1), owner, now);
      return if saved.Saved? then PageDeferred else PageAborted;
    }
    if reached <= ck.lastLedger {
      return Advanced(ck);
    }
    var next := Checkpoint(reached, 0);
    var saved := db.SaveCheckpoint(contract, next, owner, now);
    return if saved.Saved? then Advanced(next) else PageAborted;
  }

  /** After a page: the position to go on from, or why the scan is over. */
  datatype PageStep = Continue(p: Position, ck: Checkpoint) | Lagged(ck: Checkpoint) | Defer | Abort

  ghost predicate Ready(evs: seq<Packet>, p: Position, pos: nat, head: nat) {
    && pos <= |evs| && p.from <= head + 1
    && (p.last < head ==> MidScan(evs, p, pos) && p.to <= head)
    && p.last <= head
  }

  /** A write of the next complete ledgers that was cut short. */
  ghost predicate CutBroken(before: Db, evs: seq<Packet>, after: nat, cut: Cut, now: Db) {
    PartlyPlayed(before, WriteOrder(Window(evs, after, cut.upTo)), cut.skip, now)
  }

  /** A call used up a full page of the window's events, or the window. */
  ghost predicate Spent(evs: seq<Packet>, p: Position, pos: nat, p': Position, pos': nat) {
    && pos <= pos' <= CountUpTo(evs, p.to)
    && ((p'.from == p.from && p'.to == p.to && pos' == pos + PAGE_LIMIT) || p'.from == p.to + 1)
  }

  /** One page: write the complete ledgers, save, and move on within or past the window. */
  method ScanPage(db: Database, contract: Contract, owner: string, now: int, fault: (nat, nat) -> bool, head: nat,
                  page: Reply, p: Position, ck: Checkpoint, ghost evs: seq<Packet>, ghost pos: nat)
    returns (s: PageStep, ghost cut: Cut, ghost pos': nat)
    requires Sorted(evs) && Ready(evs, p, pos, head) && p.last == ck.lastLedger < head
    requires page.Page? && LawfulReply(evs, NextRequest(p), page)
    requires contract in db.control.state && db.control.state[contract] == ck
    modifies db
    ensures ck.lastLedger <= cut.upTo <= head && cut.skip == (ck.deferAttempts >= 5)
    ensures var w := WriteCut(old(db.tables), evs, ck.lastLedger, cut);
            && (!s.Abort? ==> db.tables == w.db && w.stopped == s.Defer?)
            && (s.Continue? || s.Lagged? ==> s.ck == if cut.upTo > ck.lastLedger then Checkpoint(cut.upTo, 0) else ck)
    ensures !s.Abort? ==> db.letters == old(db.letters) + CutLetters(old(db.tables), evs, ck.lastLedger, cut)
    ensures s.Abort? ==> BrokenOff(old(db.tables), Window(evs, ck.lastLedger, cut.upTo), cut.skip, old(db.letters), db.tables, db.letters)
    ensures s.Continue? ==> Ready(evs, s.p, pos', head) && s.p.last == s.ck.lastLedger
    ensures s.Continue? ==> s.p == NextPosition(p, page, head) && Spent(evs, p, pos, s.p, pos')
    ensures s.Lagged? ==> s.ck.lastLedger == page.latest && s.ck.lastLedger <= head
    ensures Holds(old(db.control), owner) ==> Holds(db.control, owner)
    ensures Holds(old(db.control), owner) && (forall a: nat, b: nat :: !fault(a, b)) ==> !s.Abort?
    ensures db.control.state == old(db.control.state)[contract :=
              if s.Continue? || s.Lagged? then s.ck
              else if s.Defer? then Checkpoint(ck.lastLedger, ck.deferAttempts + 1) else ck]
  {
    hide Sorted;
    hide CountUpTo;
    hide LawfulReply;
    hide Digested;
    hide PlayChunks;
    hide Window;
    hide PartlyPlayed;
    hide WriteOrder;
    pos' := pos;
    var d := Digested(p, page);
    if d.scanned {
      WindowScanned(evs, p, pos, page);
    } else {
      LedgerHeld(evs, p, pos, page);
    }
    cut := Cut(d.reached, ck.deferAttempts >= MAX_DEFER_ATTEMPTS);
    var w := WritePage(db, contract, owner, now, fault, d.ready, d.reached, ck);
    if w.PageAborted? {
      return Abort, cut, pos';
    }
    if w.PageDeferred? {
      return Defer, cut, pos';
    }
    if !d.scanned {
      pos' := pos + PAGE_LIMIT;
      return Continue(p.(last := d.reached, cursor := Some(page.cursor), held := d.held), w.ck), cut, pos';
    }
    if page.latest < p.to {
      return Lagged(w.ck), cut, pos';
    }
    pos' := CountUpTo(evs, p.to);
    if p.to < head {
      FreshWindow(evs, p.to, head);
    }
    return Continue(Position(p.to, p.to + 1, WindowFrom(p.to + 1, head), None, []), w.ck), cut, pos';
  }

  /** The count a finished run leaves behind. */
  function Attempts(start: Checkpoint, cuts: seq<Cut>, stopped: Option<Stop>): nat {
    (if cuts == [] then start.deferAttempts else 0) + if stopped == Some(Deferred) then 1 else 0
  }

  /** What a finished scan promises about the database it leaves. */
  ghost predicate ScanOutcome(initial: Db, evs: seq<Packet>, start: Checkpoint, base: nat, head: nat, cuts: seq<Cut>, now: Db, r: ScanResult)
    requires r.Finished?
  {
    && LawfulCuts(start, base, cuts)
    && r.ck == Checkpoint(Bound(base, cuts), Attempts(start, cuts, r.stopped))
    && (r.stopped != Some(Deferred) ==> now == Replayed(initial, evs, base, cuts))
    && (r.stopped == Some(Deferred) ==>
          && DeferredAt(Replayed(initial, evs, base, cuts), evs, Bound(base, cuts), head, now)
          && (cuts == [] ==> start.deferAttempts < 5))
  }

  /** The next write failed on a constraint and was not armed to skip; what preceded it in that write stays. */
  ghost predicate DeferredAt(before: Db, evs: seq<Packet>, after: nat, head: nat, now: Db) {
    exists next: Cut :: DeferredBy(before, evs, after, head, next, now)
  }

  ghost predicate DeferredBy(before: Db, evs: seq<Packet>, after: nat, head: nat, next: Cut, now: Db) {
    && after <= next.upTo <= head && !next.skip
    && WriteCut(before, evs, after, next).stopped && now == WriteCut(before, evs, after, next).db
  }

  /** Why a finished scan ended, by the replies it got and the times it looked at the clock. */
  ghost predicate Explained(server: Server, clock: nat -> int, deadline: int, base: nat, head: nat, r: ScanResult, calls: nat)
    requires r.Finished?
  {
    && (forall k: nat | k < calls :: clock(k) < deadline)
    && (forall k: nat | k + 1 < calls :: ReplyAt(server, base, head, k).Page?)
    && match r.stopped
       case None =>
         r.ck.lastLedger >= head
         || (calls > 0 && Behind(ReplyAt(server, base, head, calls - 1), r.ck.lastLedger))
       case Some(RpcError) => calls > 0 && ReplyAt(server, base, head, calls - 1).Failure?
       case Some(Deadline) => clock(calls) >= deadline && (calls > 0 ==> ReplyAt(server, base, head, calls - 1).Page?)
       case Some(Deferred) => calls > 0 && ReplyAt(server, base, head, calls - 1).Page?
  }

  /** The node that answered knew no later ledger. */
  predicate Behind(reply: Reply, ledger: nat) {
    reply.Page? && reply.latest == ledger
  }

  /** Every call a scan can make comes before the deadline and is answered by a node at or past the head. */
  ghost predicate Smooth(server: Server, clock: nat -> int, deadline: int, base: nat, head: nat, evs: seq<Packet>) {
    forall k: nat | k < MaxCalls(evs, base, head) :: clock(k) < deadline && Answered(ReplyAt(server, base, head, k), head)
  }

  predicate Answered(reply: Reply, head: nat) {
    reply.Page? && reply.latest >= head
  }

  /** How many calls a finished scan made: all but a scan out of time may have used up their number. */
  ghost predicate WithinCalls(evs: seq<Packet>, base: nat, head: nat, r: ScanResult, calls: nat)
    requires r.Finished?
  {
    calls <= MaxCalls(evs, base, head) && (r.stopped == Some(Deadline) ==> calls < MaxCalls(evs, base, head))
  }

  /** Then only a deferral keeps it from the head. */
  lemma SmoothReaches(server: Server, clock: nat -> int, deadline: int, base: nat, head: nat, evs: seq<Packet>, r: ScanResult, calls: nat)
    requires r.Finished? && Explained(server, clock, deadline, base, head, r, calls) && WithinCalls(evs, base, head, r, calls)
    requires Smooth(server, clock, deadline, base, head, evs)
    ensures r.stopped == Some(Deferred) || (r.stopped == None && r.ck.lastLedger >= head)
  {
    hide MaxCalls;
    hide ReplyAt;
    if calls > 0 {
      assert Answered(ReplyAt(server, base, head, calls - 1), head);
    }
  }

  /** The dead letters a scan leaves: of its completed writes and, if it deferred or threw, of the one after them. */
  ghost predicate Lettered(initial: Db, evs: seq<Packet>, base: nat, head: nat, cuts: seq<Cut>, was: Letters, r: ScanResult, last: Cut,
                           now: Db, letters: Letters)
  {
    var before, after := Replayed(initial, evs, base, cuts), Bound(base, cuts);
    var written := was + LettersOf(initial, evs, base, cuts);
    if r.Aborted? then
      || (cuts == [] && now == initial && letters == was)
      || (after <= last.upTo <= head && BrokenOff(before, Window(evs, after, last.upTo), last.skip, written, now, letters))
    else if r.stopped == Some(Deferred) then
      DeferredBy(before, evs, after, head, last, now) && letters == written + CutLetters(before, evs, after, last)
    else letters == written
  }

  /** What a scan is asked to do, and what it starts from. */
  datatype Job = Job(server: Server, clock: nat -> int, deadline: int, evs: seq<Packet>, contract: Contract, start: Checkpoint,
                     head: nat, oldest: nat, tables: Db, letters: Letters)
  {
    function From(): nat {
      Base(start, head, oldest)
    }

    /** The letters before its writes: a clamp's comes first. */
    function Was(): Letters {
      letters + ClampLetter(contract, start, head, oldest)
    }
  }

  /**
   * A finished scan: the ledgers after the base up to its checkpoint are written once, in order, as complete
   * ledgers, with the letters of those writes; it ended before the head only for the reason it gives.
   */
  ghost predicate Scanned(job: Job, r: ScanResult, cuts: seq<Cut>, made: nat, last: Cut, now: Db, letters: Letters)
    requires r.Finished?
  {
    && ScanOutcome(job.tables, job.evs, job.start, job.From(), job.head, cuts, now, r)
    && Explained(job.server, job.clock, job.deadline, job.From(), job.head, r, made)
    && WithinCalls(job.evs, job.From(), job.head, r, made)
    && Lettered(job.tables, job.evs, job.From(), job.head, cuts, job.Was(), r, last, now, letters)
    && (r.ck.lastLedger <= job.head || r.ck.lastLedger == job.From())
  }

  /** A scan that threw, its checkpoint saved up to `ck`. */
  ghost predicate ThrewAt(job: Job, cuts: seq<Cut>, last: Cut, now: Db, letters: Letters, ck: Checkpoint) {
    && job.start.lastLedger <= ck.lastLedger && ck.deferAttempts <= job.start.deferAttempts
    && (ck.lastLedger <= job.head || ck.lastLedger == job.From())
    && ScanBroken(job.tables, job.evs, job.start, job.From(), job.head, cuts, now, ck)
    && Lettered(job.tables, job.evs, job.From(), job.head, cuts, job.Was(), Aborted, last, now, letters)
  }

  /** Between pages. */
  ghost predicate Going(job: Job, p: Position, pos: nat, ck: Checkpoint, cuts: seq<Cut>, calls: nat, now: Db, letters: Letters) {
    && p.last == ck.lastLedger && Ready(job.evs, p, pos, job.head)
    && Progressed(job.tables, job.evs, job.start, job.From(), cuts, now, ck)
    && letters == job.Was() + LettersOf(job.tables, job.evs, job.From(), cuts)
    && CallsSoFar(job.server, job.clock, job.deadline, job.From(), job.head, p, calls)
    && CallsLeft(job.evs, job.From(), job.head, p, pos, calls)
    && job.start.lastLedger <= ck.lastLedger && ck.deferAttempts <= job.start.deferAttempts
  }

  /** Skips the ledgers that aged out of RPC retention, for good: a letter names them, and the count is kept. */
  method ClampToRetention(db: Database, contract: Contract, owner: string, now: int, oldest: nat, ck: Checkpoint) returns (saved: bool)
    requires contract in db.control.state && db.control.state[contract] == ck && ck.lastLedger + 1 < oldest
    modifies db`letters, db`control
    ensures db.letters == old(db.letters) + {(ck.lastLedger + 1, RetentionClamp(contract, oldest - 1))}
    ensures db.control.state == old(db.control.state)[contract := if saved then Checkpoint(oldest - 1, ck.deferAttempts) else ck]
    ensures saved <==> Holds(old(db.control), owner)
    ensures Holds(old(db.control), owner) ==> Holds(db.control, owner)
  {
    assert db.control.state[contract := ck] == db.control.state;
    db.RecordClamp(contract, ck.lastLedger + 1, oldest - 1);
    var r := db.SaveCheckpoint(contract, Checkpoint(oldest - 1, ck.deferAttempts), owner, now);
    return r.Saved?;
  }

  /**
   * One contract, from its checkpoint to the head. Whichever node answers each call, the ledgers
   * after the base up to the result are written once, in order, as complete ledgers; the checkpoint is
   * where the scan ended; only a deferral adds to the count; a thrown error adds nothing. It ends before
   * the head only for the reason it gives: the call that failed, the time it looked at the clock, or
   * the node that was behind.
   */
  method IndexContract(db: Database, server: Server, clock: nat -> int, deadline: int, fault: (nat, nat, nat) -> bool,
                       contract: Contract, head: nat, oldest: nat, owner: string, start: Checkpoint, ghost evs: seq<Packet>)
    returns (r: ScanResult, ghost cuts: seq<Cut>, ghost made: nat, ghost last: Cut)
    requires Sorted(evs) && LawfulServer(server, evs)
    requires contract in db.control.state && db.control.state[contract] == start
    modifies db
    ensures var job := Job(server, clock, deadline, evs, contract, start, head, oldest, old(db.tables), old(db.letters));
            && (r.Finished? ==>
                  Scanned(job, r, cuts, made, last, db.tables, db.letters) && db.control.state == old(db.control.state)[contract := r.ck])
            && (r.Aborted? ==>
                  exists ck: Checkpoint ::
                    db.control.state == old(db.control.state)[contract := ck] && ThrewAt(job, cuts, last, db.tables, db.letters, ck))
    ensures Holds(old(db.control), owner) ==> Holds(db.control, owner)
    ensures Holds(old(db.control), owner) && (forall n: nat, a: nat, b: nat :: !fault(n, a, b)) ==> r.Finished?
  {
    hide Sorted;
    hide LawfulReply;
    hide Scanned;
    hide ThrewAt;
    hide Going;
    hide CountUpTo;
    hide WindowFrom;
    hide WriteCut;
    hide CutLetters;
    hide BrokenOff;
    hide NextPosition;
    hide Ready;
    hide CallsSoFar;
    hide CallsLeft;
    hide Wrote;
    hide MaxCalls;
    hide Spent;
    hide LawfulServer;
    hide PlayChunks;
    hide Window;
    hide WriteOrder;
    hide Unreadable;
    hide NextRequest;
    hide Save;
    ghost var job := Job(server, clock, deadline, evs, contract, start, head, oldest, db.tables, db.letters);
    ghost var state := db.control.state;
    assert state[contract := start] == state;
    cuts, made, last := [], 0, Cut(0, false);
    var ck := start;
    if ck.lastLedger >= head {
      NothingToScan(job, start, last);
      return Finished(ck, None), cuts, made, last;
    }
    if ck.lastLedger + 1 < oldest {
      var saved := ClampToRetention(db, contract, owner, clock(0), oldest, ck);
      ck := Checkpoint(oldest - 1, start.deferAttempts);
      assert db.letters == job.Was();
      if !saved {
        ThrewAtClamp(job, last);
        assert db.control.state == state[contract := start] && ThrewAt(job, cuts, last, db.tables, db.letters, start);
        return Aborted, cuts, made, last;
      }
    }
    assert db.letters == job.Was();
    hide ClampLetter;
    hide Base;
    var p := Position(ck.lastLedger, ck.lastLedger + 1, WindowFrom(ck.lastLedger + 1, head), None, []);
    var calls := 0;
    ghost var pos: nat := CountUpTo(evs, ck.lastLedger);
    if ck.lastLedger >= head {
      NothingToScan(job, ck, last);
      return Finished(ck, None), cuts, made, last;
    }
    GoingAtStart(job, p, pos, ck);
    while ck.lastLedger < head
      invariant Going(job, p, pos, ck, cuts, calls, db.tables, db.letters)
      invariant db.control.state == state[contract := ck]
      invariant Holds(old(db.control), owner) ==> Holds(db.control, owner)
      decreases head + 1 - p.from, |evs| - pos
    {
      BeforeCall(job, p, pos, ck, cuts, calls, db.tables, db.letters);
      if clock(calls) >= deadline {
        TimeIsUp(job, p, pos, ck, cuts, calls, db.tables, db.letters, last);
        return Finished(ck, Some(Deadline)), cuts, calls, last;
      }
      var page := server(calls, NextRequest(p));
      assert LawfulReply(evs, NextRequest(p), page) by { ServerLawful(server, evs, calls, NextRequest(p)); }
      if page.Failure? {
        CallEnds(job, p, pos, ck, cuts, calls, db.tables, db.letters, page, Some(RpcError), last);
        return Finished(ck, Some(RpcError)), cuts, calls + 1, last;
      }
      ghost var now, were := db.tables, db.letters;
      var s, cut, pos' := ScanPage(db, contract, owner, clock(calls), (a: nat, b: nat) => fault(calls, a, b), head, page, p, ck, evs, pos);
      if s.Abort? {
        PageBreaks(job, p, pos, ck, cuts, calls, now, were, cut, db.tables, db.letters);
        return Aborted, cuts, calls + 1, cut;
      }
      if s.Defer? {
        PageDefers(job, p, pos, ck, cuts, calls, now, were, page, cut, db.letters);
        return Finished(Checkpoint(ck.lastLedger, ck.deferAttempts + 1), Some(Deferred)), cuts, calls + 1, cut;
      }
      ghost var was := cuts;
      if cut.upTo > ck.lastLedger {
        cuts := cuts + [cut];
      }
      PageWritten(job, p, pos, ck, was, calls, now, were, cut, s.ck, cuts);
      if s.Lagged? {
        CallEndsBehind(job, p, pos, s.ck, cuts, calls, db.tables, db.letters, page, last);
        return Finished(s.ck, None), cuts, calls + 1, last;
      }
      SpentAdvances(evs, p, pos, s.p, pos');
      GoesOn(job, p, pos, s.ck, cuts, calls, db.tables, db.letters, page, pos');
      p, pos, ck, calls := s.p, pos', s.ck, calls + 1;
    }
    ReachedHead(job, p, pos, ck, cuts, calls, db.tables, db.letters, last);
    return Finished(ck, None), cuts, calls, last;
  }

  lemma ServerLawful(server: Server, evs: seq<Packet>, n: nat, req: Request)
    requires LawfulServer(server, evs)
    ensures LawfulReply(evs, req, server(n, req))
  {
  }

  lemma SpentAdvances(evs: seq<Packet>, p: Position, pos: nat, p': Position, pos': nat)
    requires Spent(evs, p, pos, p', pos') && p.from <= p.to
    ensures p'.from > p.from || (p'.from == p.from && pos' > pos)
  {
  }

  lemma NothingToScan(job: Job, ck: Checkpoint, last: Cut)
    requires ck == Checkpoint(job.From(), job.start.deferAttempts) && ck.lastLedger >= job.head
    ensures Scanned(job, Finished(ck, None), [], 0, last, job.tables, job.Was())
    ensures job.start.lastLedger >= job.head ==> job.Was() == job.letters
  {
    hide MaxCalls;
    ProgressedAtStart(job.tables, job.evs, job.start, job.From());
    ScanEnds(job.tables, job.evs, job.start, job.From(), job.head, [], job.tables, ck, None);
  }

  lemma ThrewAtClamp(job: Job, last: Cut)
    ensures ThrewAt(job, [], last, job.tables, job.Was(), job.start)
  {
  }

  lemma GoingAtStart(job: Job, p: Position, pos: nat, ck: Checkpoint)
    requires Sorted(job.evs) && ck == Checkpoint(job.From(), job.start.deferAttempts) && ck.lastLedger < job.head
    requires p == FirstPosition(ck.lastLedger, job.head) && pos == CountUpTo(job.evs, ck.lastLedger)
    ensures Going(job, p, pos, ck, [], 0, job.tables, job.Was())
  {
    hide MaxCalls;
    hide MidScan;
    hide CountUpTo;
    hide LawfulReply;
    hide Sorted;
    ProgressedAtStart(job.tables, job.evs, job.start, job.From());
    FreshWindow(job.evs, ck.lastLedger, job.head);
    CallsAtStart(job.server, job.clock, job.deadline, job.From(), job.head, job.evs, pos);
  }

  /** There is a page to ask for, and a call left for it. */
  lemma BeforeCall(job: Job, p: Position, pos: nat, ck: Checkpoint, cuts: seq<Cut>, calls: nat, now: Db, letters: Letters)
    requires Going(job, p, pos, ck, cuts, calls, now, letters) && ck.lastLedger < job.head
    ensures p.last == ck.lastLedger && Ready(job.evs, p, pos, job.head) && p.from <= p.to <= job.head && pos <= |job.evs|
    ensures calls < MaxCalls(job.evs, job.From(), job.head)
    ensures CallsSoFar(job.server, job.clock, job.deadline, job.From(), job.head, p, calls)
    ensures CallsLeft(job.evs, job.From(), job.head, p, pos, calls)
  {
    hide Progressed;
    hide LettersOf;
    hide CallsSoFar;
    hide MaxCalls;
    InsideWindow(job.evs, p, pos);
    CallLeft(job.evs, job.From(), job.head, p, pos, calls);
  }

  lemma TimeIsUp(job: Job, p: Position, pos: nat, ck: Checkpoint, cuts: seq<Cut>, calls: nat, now: Db, letters: Letters, last: Cut)
    requires Going(job, p, pos, ck, cuts, calls, now, letters) && ck.lastLedger < job.head
    requires job.clock(calls) >= job.deadline && calls < MaxCalls(job.evs, job.From(), job.head)
    ensures Scanned(job, Finished(ck, Some(Deadline)), cuts, calls, last, now, letters)
  {
    hide Progressed;
    hide LettersOf;
    hide CallsSoFar;
    hide MaxCalls;
    hide ScanOutcome;
    hide Explained;
    ScanEnds(job.tables, job.evs, job.start, job.From(), job.head, cuts, now, ck, Some(Deadline));
    OutOfTime(job.server, job.clock, job.deadline, job.From(), job.head, p, calls, ck);
  }

  /** The call failed. */
  lemma CallEnds(job: Job, p: Position, pos: nat, ck: Checkpoint, cuts: seq<Cut>, calls: nat, now: Db, letters: Letters, page: Reply,
                 stopped: Option<Stop>, last: Cut)
    requires Going(job, p, pos, ck, cuts, calls, now, letters) && ck.lastLedger < job.head
    requires job.clock(calls) < job.deadline && calls < MaxCalls(job.evs, job.From(), job.head)
    requires page == job.server(calls, NextRequest(p)) && page.Failure? && stopped == Some(RpcError)
    ensures Scanned(job, Finished(ck, stopped), cuts, calls + 1, last, now, letters)
  {
    hide Progressed;
    hide LettersOf;
    hide CallsSoFar;
    hide MaxCalls;
    hide ScanOutcome;
    hide Explained;
    ScanEnds(job.tables, job.evs, job.start, job.From(), job.head, cuts, now, ck, stopped);
    CallAnswered(job.server, job.clock, job.deadline, job.From(), job.head, p, calls, page, Finished(ck, stopped));
  }

  lemma PageBreaks(job: Job, p: Position, pos: nat, ck: Checkpoint, cuts: seq<Cut>, calls: nat, now: Db, were: Letters, cut: Cut,
                   now': Db, letters: Letters)
    requires Going(job, p, pos, ck, cuts, calls, now, were) && ck.lastLedger <= cut.upTo <= job.head
    requires BrokenOff(now, Window(job.evs, ck.lastLedger, cut.upTo), cut.skip, were, now', letters)
    ensures ThrewAt(job, cuts, cut, now', letters, ck)
  {
    hide Progressed;
    hide LettersOf;
    hide CallsSoFar;
    hide CallsLeft;
    hide BrokenOff;
    hide ScanBroken;
    hide Lettered;
    hide Window;
    ScanBreaks(job.tables, job.evs, job.start, job.From(), job.head, cuts, now, ck, cut, letters, job.Was(), now');
  }

  lemma PageDefers(job: Job, p: Position, pos: nat, ck: Checkpoint, cuts: seq<Cut>, calls: nat, now: Db, were: Letters, page: Reply,
                   cut: Cut, letters: Letters)
    requires Going(job, p, pos, ck, cuts, calls, now, were) && ck.lastLedger <= cut.upTo <= job.head
    requires job.clock(calls) < job.deadline && calls < MaxCalls(job.evs, job.From(), job.head)
    requires page == job.server(calls, NextRequest(p)) && page.Page?
    requires cut.skip == (ck.deferAttempts >= MAX_DEFER_ATTEMPTS)
    requires WriteCut(now, job.evs, ck.lastLedger, cut).stopped && letters == were + CutLetters(now, job.evs, ck.lastLedger, cut)
    ensures Scanned(job, Finished(Checkpoint(ck.lastLedger, ck.deferAttempts + 1), Some(Deferred)), cuts, calls + 1, cut,
                    WriteCut(now, job.evs, ck.lastLedger, cut).db, letters)
  {
    hide Progressed;
    hide LettersOf;
    hide CallsSoFar;
    hide CallsLeft;
    hide MaxCalls;
    hide ScanOutcome;
    hide Explained;
    hide Lettered;
    hide WriteCut;
    hide CutLetters;
    ScanDefers(job.tables, job.evs, job.start, job.From(), job.head, cuts, now, ck, cut, job.Was(), letters);
    CallAnswered(job.server, job.clock, job.deadline, job.From(), job.head, p, calls, page,
                 Finished(Checkpoint(ck.lastLedger, ck.deferAttempts + 1), Some(Deferred)));
  }

  /** A page written and saved. */
  ghost predicate Wrote(job: Job, ck: Checkpoint, cuts: seq<Cut>, now: Db, letters: Letters) {
    && Progressed(job.tables, job.evs, job.start, job.From(), cuts, now, ck)
    && letters == job.Was() + LettersOf(job.tables, job.evs, job.From(), cuts)
    && job.start.lastLedger <= ck.lastLedger && ck.deferAttempts <= job.start.deferAttempts
  }

  lemma PageWritten(job: Job, p: Position, pos: nat, ck: Checkpoint, cuts: seq<Cut>, calls: nat, now: Db, were: Letters, cut: Cut,
                    ck': Checkpoint, cuts': seq<Cut>)
    requires Going(job, p, pos, ck, cuts, calls, now, were) && ck.lastLedger <= cut.upTo
    requires cut.skip == (ck.deferAttempts >= MAX_DEFER_ATTEMPTS)
    requires ck' == if cut.upTo > ck.lastLedger then Checkpoint(cut.upTo, 0) else ck
    requires cuts' == if cut.upTo > ck.lastLedger then cuts + [cut] else cuts
    ensures Wrote(job, ck', cuts', WriteCut(now, job.evs, ck.lastLedger, cut).db, were + CutLetters(now, job.evs, ck.lastLedger, cut))
  {
    hide Progressed;
    hide LettersOf;
    hide CallsSoFar;
    hide CallsLeft;
    hide Ready;
    hide WriteCut;
    hide CutLetters;
    if cut.upTo > ck.lastLedger {
      CutAdded(job.tables, job.evs, job.start, job.From(), cuts, now, ck, cut);
      CutLettered(job.tables, job.evs, job.start, job.From(), cuts, now, ck, cut);
    } else {
      EmptyCut(now, job.evs, ck.lastLedger, cut.skip);
    }
  }

  /** The node was behind: the scan ends where it knew no more. */
  lemma CallEndsBehind(job: Job, p: Position, pos: nat, ck: Checkpoint, cuts: seq<Cut>, calls: nat, now: Db, letters: Letters,
                       page: Reply, last: Cut)
    requires CallsSoFar(job.server, job.clock, job.deadline, job.From(), job.head, p, calls) && Wrote(job, ck, cuts, now, letters)
    requires job.clock(calls) < job.deadline && calls < MaxCalls(job.evs, job.From(), job.head)
    requires page == job.server(calls, NextRequest(p)) && Behind(page, ck.lastLedger) && ck.lastLedger <= job.head
    ensures Scanned(job, Finished(ck, None), cuts, calls + 1, last, now, letters)
  {
    hide Progressed;
    hide LettersOf;
    hide CallsSoFar;
    hide MaxCalls;
    hide ScanOutcome;
    hide Explained;
    ScanEnds(job.tables, job.evs, job.start, job.From(), job.head, cuts, now, ck, None);
    CallAnswered(job.server, job.clock, job.deadline, job.From(), job.head, p, calls, page, Finished(ck, None));
  }

  lemma GoesOn(job: Job, p: Position, pos: nat, ck: Checkpoint, cuts: seq<Cut>, calls: nat, now: Db, letters: Letters, page: Reply,
               pos': nat)
    requires Sorted(job.evs) && Wrote(job, ck, cuts, now, letters) && p.from <= job.head
    requires CallsSoFar(job.server, job.clock, job.deadline, job.From(), job.head, p, calls)
    requires CallsLeft(job.evs, job.From(), job.head, p, pos, calls)
    requires job.clock(calls) < job.deadline && page == job.server(calls, NextRequest(p)) && page.Page?
    requires Spent(job.evs, p, pos, NextPosition(p, page, job.head), pos')
    requires Ready(job.evs, NextPosition(p, page, job.head), pos', job.head) && NextPosition(p, page, job.head).last == ck.lastLedger
    ensures Going(job, NextPosition(p, page, job.head), pos', ck, cuts, calls + 1, now, letters)
  {
    hide Sorted;
    hide Progressed;
    hide LettersOf;
    hide CallsSoFar;
    hide CallsLeft;
    hide Ready;
    hide Spent;
    hide NextPosition;
    CallTaken(job.server, job.clock, job.deadline, job.From(), job.head, job.evs, p, pos, calls, page, pos');
  }

  lemma ReachedHead(job: Job, p: Position, pos: nat, ck: Checkpoint, cuts: seq<Cut>, calls: nat, now: Db, letters: Letters, last: Cut)
    requires Going(job, p, pos, ck, cuts, calls, now, letters) && ck.lastLedger >= job.head
    ensures Scanned(job, Finished(ck, None), cuts, calls, last, now, letters)
  {
    hide Progressed;
    hide LettersOf;
    hide CallsSoFar;
    hide CallsLeft;
    hide MaxCalls;
    hide ScanOutcome;
    hide Explained;
    ScanEnds(job.tables, job.evs, job.start, job.From(), job.head, cuts, now, ck, None);
    AtTheHead(job.server, job.clock, job.deadline, job.From(), job.head, job.evs, p, pos, calls, ck);
  }

  // ---------------------------------------------------------------- the calls of a scan

  /** The calls so far: each in time and answered, and the scan stands where the replies put it. */
  ghost predicate CallsSoFar(server: Server, clock: nat -> int, deadline: int, base: nat, head: nat, p: Position, calls: nat) {
    && p == PositionAt(server, base, head, calls)
    && (forall k: nat | k < calls :: clock(k) < deadline && ReplyAt(server, base, head, k).Page?)
  }

  /** The windows and full pages ahead are within what the whole scan may take. */
  ghost predicate CallsLeft(evs: seq<Packet>, base: nat, head: nat, p: Position, pos: nat, calls: nat) {
    && (p.from <= head ==> p.to == WindowFrom(p.from, head))
    && calls + Windows(p.from, head) + FullPages(evs, pos, head) <= MaxCalls(evs, base, head)
  }

  lemma CallsAtStart(server: Server, clock: nat -> int, deadline: int, base: nat, head: nat, evs: seq<Packet>, pos: nat)
    requires pos == CountUpTo(evs, base)
    ensures CallsSoFar(server, clock, deadline, base, head, FirstPosition(base, head), 0)
    ensures CallsLeft(evs, base, head, FirstPosition(base, head), pos, 0)
  {
  }

  lemma CallLeft(evs: seq<Packet>, base: nat, head: nat, p: Position, pos: nat, calls: nat)
    requires CallsLeft(evs, base, head, p, pos, calls) && p.from <= head
    ensures calls < MaxCalls(evs, base, head)
  {
    hide MaxCalls;
    hide FullPages;
  }

  lemma OutOfTime(server: Server, clock: nat -> int, deadline: int, base: nat, head: nat, p: Position, calls: nat, ck: Checkpoint)
    requires CallsSoFar(server, clock, deadline, base, head, p, calls) && clock(calls) >= deadline
    ensures Explained(server, clock, deadline, base, head, Finished(ck, Some(Deadline)), calls)
  {
    hide PositionAt;
  }

  /** The last call made explains how the scan ended. */
  lemma CallAnswered(server: Server, clock: nat -> int, deadline: int, base: nat, head: nat, p: Position, calls: nat, page: Reply,
                     r: ScanResult)
    requires CallsSoFar(server, clock, deadline, base, head, p, calls) && clock(calls) < deadline
    requires page == server(calls, NextRequest(p)) && r.Finished? && r.stopped != Some(Deadline)
    requires page.Failure? <==> r.stopped == Some(RpcError)
    requires r.stopped == None ==> Behind(page, r.ck.lastLedger)
    ensures Explained(server, clock, deadline, base, head, r, calls + 1)
  {
    hide PositionAt;
    assert ReplyAt(server, base, head, calls) == page;
  }

  lemma AtTheHead(server: Server, clock: nat -> int, deadline: int, base: nat, head: nat, evs: seq<Packet>, p: Position, pos: nat,
                  calls: nat, ck: Checkpoint)
    requires CallsSoFar(server, clock, deadline, base, head, p, calls) && CallsLeft(evs, base, head, p, pos, calls)
    requires ck.lastLedger >= head
    ensures Explained(server, clock, deadline, base, head, Finished(ck, None), calls) && calls <= MaxCalls(evs, base, head)
  {
    hide PositionAt;
    hide MaxCalls;
    hide FullPages;
  }

  lemma FewerPages(evs: seq<Packet>, pos: nat, pos': nat, head: nat)
    requires pos <= pos' <= CountUpTo(evs, head)
    ensures FullPages(evs, pos', head) <= FullPages(evs, pos, head)
    ensures pos' == pos + PAGE_LIMIT ==> FullPages(evs, pos', head) + 1 == FullPages(evs, pos, head)
  {
  }

  lemma CallTaken(server: Server, clock: nat -> int, deadline: int, base: nat, head: nat, evs: seq<Packet>, p: Position, pos: nat,
                  calls: nat, page: Reply, pos': nat)
    requires Sorted(evs) && p.from <= head
    requires CallsSoFar(server, clock, deadline, base, head, p, calls) && CallsLeft(evs, base, head, p, pos, calls)
    requires clock(calls) < deadline && page == server(calls, NextRequest(p)) && page.Page?
    requires Spent(evs, p, pos, NextPosition(p, page, head), pos')
    ensures CallsSoFar(server, clock, deadline, base, head, NextPosition(p, page, head), calls + 1)
    ensures CallsLeft(evs, base, head, NextPosition(p, page, head), pos', calls + 1)
  {
    hide Sorted;
    hide CountUpTo;
    hide MaxCalls;
    hide FullPages;
    var p' := NextPosition(p, page, head);
    assert ReplyAt(server, base, head, calls) == page;
    CountMonotone(evs, p.to, head);
    FewerPages(evs, pos, pos', head);
    assert p'.from <= head ==> p'.to == WindowFrom(p'.from, head);
    assert Windows(p.from, head) == 1 + Windows(p.to + 1, head);
  }

  // ---------------------------------------------------------------- the dead letters of a scan

  lemma CutLettered(initial: Db, evs: seq<Packet>, start: Checkpoint, base: nat, cuts: seq<Cut>, now: Db, ck: Checkpoint, cut: Cut)
    requires Progressed(initial, evs, start, base, cuts, now, ck)
    ensures LettersOf(initial, evs, base, cuts + [cut])
         == LettersOf(initial, evs, base, cuts) + CutLetters(now, evs, ck.lastLedger, cut)
  {
    hide CutLetters;
    hide LettersOf;
    hide LawfulCuts;
    LettersAdded(initial, evs, base, cuts, cut);
  }

  /** What a thrown scan leaves: its completed writes, then at most a part of one more; or nothing at all. */
  ghost predicate ScanBroken(initial: Db, evs: seq<Packet>, start: Checkpoint, base: nat, head: nat, cuts: seq<Cut>, now: Db,
                             ck: Checkpoint)
  {
    && LawfulCuts(start, base, cuts)
    && ((ck == start && now == initial)
        || (ck.lastLedger == Bound(base, cuts) && BrokenAfter(Replayed(initial, evs, base, cuts), evs, ck.lastLedger, head, now)))
  }

  ghost predicate BrokenAfter(before: Db, evs: seq<Packet>, after: nat, head: nat, now: Db) {
    exists cut: Cut :: after <= cut.upTo <= head && CutBroken(before, evs, after, cut, now)
  }

  lemma ScanBreaks(initial: Db, evs: seq<Packet>, start: Checkpoint, base: nat, head: nat, cuts: seq<Cut>, before: Db, ck: Checkpoint,
                   cut: Cut, letters: Letters, was: Letters, now: Db)
    requires Progressed(initial, evs, start, base, cuts, before, ck) && ck.lastLedger <= cut.upTo <= head
    requires BrokenOff(before, Window(evs, ck.lastLedger, cut.upTo), cut.skip, was + LettersOf(initial, evs, base, cuts), now, letters)
    ensures ScanBroken(initial, evs, start, base, head, cuts, now, ck)
    ensures Lettered(initial, evs, base, head, cuts, was, Aborted, cut, now, letters)
  {
    hide BrokenOff;
    hide PartlyPlayed;
    hide Window;
    hide LettersOf;
    BrokenOffPlayed(before, Window(evs, ck.lastLedger, cut.upTo), cut.skip, was + LettersOf(initial, evs, base, cuts), now, letters);
    assert CutBroken(before, evs, ck.lastLedger, cut, now);
  }

  lemma ProgressedAtStart(initial: Db, evs: seq<Packet>, start: Checkpoint, base: nat)
    ensures Progressed(initial, evs, start, base, [], initial, Checkpoint(base, start.deferAttempts))
  {
  }

  lemma ScanEnds(initial: Db, evs: seq<Packet>, start: Checkpoint, base: nat, head: nat, cuts: seq<Cut>, now: Db, ck: Checkpoint,
                 stopped: Option<Stop>)
    requires Progressed(initial, evs, start, base, cuts, now, ck) && stopped != Some(Deferred)
    ensures ScanOutcome(initial, evs, start, base, head, cuts, now, Finished(ck, stopped))
  {
  }

  lemma ScanDefers(initial: Db, evs: seq<Packet>, start: Checkpoint, base: nat, head: nat, cuts: seq<Cut>, now: Db, ck: Checkpoint,
                   cut: Cut, was: Letters, letters: Letters)
    requires Progressed(initial, evs, start, base, cuts, now, ck)
    requires ck.lastLedger <= cut.upTo <= head && WriteCut(now, evs, ck.lastLedger, cut).stopped
    requires cut.skip == (ck.deferAttempts >= MAX_DEFER_ATTEMPTS)
    requires letters == was + LettersOf(initial, evs, base, cuts) + CutLetters(now, evs, ck.lastLedger, cut)
    ensures var after, r := WriteCut(now, evs, ck.lastLedger, cut).db, Finished(Checkpoint(ck.lastLedger, ck.deferAttempts + 1), Some(Deferred));
            && ScanOutcome(initial, evs, start, base, head, cuts, after, r)
            && Lettered(initial, evs, base, head, cuts, was, r, cut, after, letters)
  {
    hide PlayChunks;
    hide Window;
    hide CutLetters;
    hide LettersOf;
    hide WriteOrder;
    StoppedMeansNoSkip(now, WriteOrder(Window(evs, ck.lastLedger, cut.upTo)), cut.skip);
    assert DeferredBy(now, evs, ck.lastLedger, head, cut, WriteCut(now, evs, ck.lastLedger, cut).db);
  }

  lemma StoppedMeansNoSkip(db: Db, ps: seq<Packet>, skip: bool)
    requires PlayChunks(db, ps, skip).stopped
    ensures !skip
  {
    ChunksDoNotShow(db, ps, skip);
    if skip {
      NeverStops(db, ps);
    }
  }

  lemma {:induction false} NeverStops(db: Db, ps: seq<Packet>)
    ensures !Play(db, ps, true).stopped
    decreases ps
  {
    hide Apply;
    if ps != [] {
      var a := Apply(db, ps[0]);
      NeverStops(if a.Changed? then a.db else db, ps[1..]);
    }
  }
}
