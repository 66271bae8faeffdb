// What a contract publishes besides its registry's events: approvals, ownership transfers. It fills pages and changes nothing.
module Feed {
  import opened Basics
  import opened Events
  import opened Chain
  import opened Ledgers
  import opened Tables
  import opened Writer
  import opened Locks
  import opened Rpc
  import opened Scan

  /** The events of a contract as its RPC serves them: the registry's own, none unreadable, among others the indexer ignores. */
  ghost predicate Carries(evs: seq<Packet>, chain: History, c: Contract) {
    Sorted(evs) && Parsed(evs) == Stream(chain, c) && forall p | p in evs :: !p.data.Malformed?
  }

  // ---------------------------------------------------------------- windows of what is read

  lemma {:induction false} ParsedConcat(ps: seq<Packet>, qs: seq<Packet>)
    ensures Parsed(ps + qs) == Parsed(ps) + Parsed(qs)
    decreases |qs|
  {
    if qs == [] {
      assert ps + qs == ps;
    } else {
      var k := |qs| - 1;
      assert (ps + qs)[..|ps| + k] == ps + qs[..k];
      ParsedConcat(ps, qs[..k]);
    }
  }

  lemma {:induction false} ParsedMembers(ps: seq<Packet>)
    ensures forall p | p in Parsed(ps) :: p in ps && Readable(p) && !p.data.Unrelated? && !p.data.Malformed?
  {
    if ps != [] {
      ParsedMembers(ps[..|ps| - 1]);
    }
  }

  /** Reading keeps ledgers apart. */
  lemma ParsedCount(evs: seq<Packet>, ledger: nat)
    requires Sorted(evs)
    ensures CountUpTo(Parsed(evs), ledger) == |Parsed(evs[..CountUpTo(evs, ledger)])|
  {
    hide CountUpTo;
    var k := CountUpTo(evs, ledger);
    var a, z := Parsed(evs[..k]), Parsed(evs[k..]);
    assert evs == evs[..k] + evs[k..];
    ParsedConcat(evs[..k], evs[k..]);
    ParsedMembers(evs[..k]);
    ParsedMembers(evs[k..]);
    var all: seq<Packet> := a + z;
    forall m | 0 <= m < |all| ensures m < |a| <==> all[m].ledger <= ledger {
      if m < |a| {
        assert a[m] in evs[..k];
      } else {
        assert z[m - |a|] in evs[k..];
      }
    }
    CountUnique(all, ledger, |a|);
  }

  lemma WindowParsed(evs: seq<Packet>, a: nat, b: nat)
    requires Sorted(evs) && a <= b
    ensures Parsed(Window(evs, a, b)) == Window(Parsed(evs), a, b)
  {
    hide CountUpTo;
    hide Parsed;
    var i, j := CountUpTo(evs, a), CountUpTo(evs, b);
    CountMonotone(evs, a, b);
    ParsedCount(evs, a);
    ParsedCount(evs, b);
    assert evs[..j] == evs[..i] + evs[i..j] && evs == evs[..j] + evs[j..];
    ParsedConcat(evs[..i], evs[i..j]);
    ParsedConcat(evs[..j], evs[j..]);
  }

  // ---------------------------------------------------------------- so writes are those of the registry's events

  lemma SameWindow(evs: seq<Packet>, chain: History, c: Contract, a: nat, b: nat)
    requires Carries(evs, chain, c) && a <= b
    ensures WriteOrder(Window(evs, a, b)) == WriteOrder(Window(Stream(chain, c), a, b))
    ensures Unreadable(Window(evs, a, b)) == {} && Unreadable(Window(Stream(chain, c), a, b)) == {}
  {
    hide CountUpTo;
    hide Parsed;
    hide Sorted;
    hide Stream;
    WindowParsed(evs, a, b);
    ParsedMembers(evs);
    WindowMembers(evs, a, b);
    var own := Window(Stream(chain, c), a, b);
    WindowMembers(Stream(chain, c), a, b);
    ParsedAll(own);
  }

  lemma WindowMembers(evs: seq<Packet>, a: nat, b: nat)
    ensures forall p | p in Window(evs, a, b) :: p in evs
  {
    hide CountUpTo;
  }

  lemma SameCut(db: Db, evs: seq<Packet>, chain: History, c: Contract, after: nat, cut: Cut)
    requires Carries(evs, chain, c) && after <= cut.upTo
    ensures WriteCut(db, evs, after, cut) == WriteCut(db, Stream(chain, c), after, cut)
    ensures CutLetters(db, evs, after, cut) == CutLetters(db, Stream(chain, c), after, cut)
  {
    hide Carries;
    hide Window;
    hide WriteOrder;
    hide Unreadable;
    hide PlayChunks;
    SameWindow(evs, chain, c, after, cut.upTo);
  }

  lemma CutsShorter(start: Checkpoint, base: nat, cuts: seq<Cut>)
    requires LawfulCuts(start, base, cuts) && cuts != []
    ensures LawfulCuts(start, base, cuts[..|cuts| - 1]) && Bound(base, cuts[..|cuts| - 1]) < cuts[|cuts| - 1].upTo
  {
    var shorter := cuts[..|cuts| - 1];
    forall k | 0 <= k < |shorter| ensures Bound(base, shorter[..k]) < shorter[k].upTo {
      assert shorter[..k] == cuts[..k];
    }
  }

  lemma {:induction false} SameReplayed(db: Db, evs: seq<Packet>, chain: History, c: Contract, start: Checkpoint, base: nat, cuts: seq<Cut>)
    requires Carries(evs, chain, c) && LawfulCuts(start, base, cuts)
    ensures Replayed(db, evs, base, cuts) == Replayed(db, Stream(chain, c), base, cuts)
    ensures LettersOf(db, evs, base, cuts) == LettersOf(db, Stream(chain, c), base, cuts)
    decreases |cuts|
  {
    hide Carries;
    hide WriteCut;
    hide CutLetters;
    if cuts != [] {
      var k := |cuts| - 1;
      CutsShorter(start, base, cuts);
      SameReplayed(db, evs, chain, c, start, base, cuts[..k]);
      SameCut(Replayed(db, evs, base, cuts[..k]), evs, chain, c, Bound(base, cuts[..k]), cuts[k]);
    }
  }

  /** What a scan of the feed did is what a scan of the registry's events would have done. */
  lemma OutcomeOfOwn(db: Db, evs: seq<Packet>, chain: History, c: Contract, start: Checkpoint, base: nat, head: nat, cuts: seq<Cut>,
                     now: Db, r: ScanResult)
    requires Carries(evs, chain, c) && r.Finished? && ScanOutcome(db, evs, start, base, head, cuts, now, r)
    ensures ScanOutcome(db, Stream(chain, c), start, base, head, cuts, now, r)
  {
    hide Carries;
    hide WriteCut;
    hide Replayed;
    hide LawfulCuts;
    SameReplayed(db, evs, chain, c, start, base, cuts);
    if r.stopped == Some(Deferred) {
      var before := Replayed(db, evs, base, cuts);
      var next: Cut :| DeferredBy(before, evs, Bound(base, cuts), head, next, now);
      SameCut(before, evs, chain, c, Bound(base, cuts), next);
      assert DeferredBy(before, Stream(chain, c), Bound(base, cuts), head, next, now);
    }
  }

  lemma BrokenOfOwn(db: Db, evs: seq<Packet>, chain: History, c: Contract, start: Checkpoint, base: nat, head: nat, cuts: seq<Cut>,
                    now: Db, ck: Checkpoint)
    requires Carries(evs, chain, c) && ScanBroken(db, evs, start, base, head, cuts, now, ck)
    ensures ScanBroken(db, Stream(chain, c), start, base, head, cuts, now, ck)
  {
    hide Carries;
    hide Window;
    hide WriteOrder;
    hide PartlyPlayed;
    hide Replayed;
    hide LawfulCuts;
    SameReplayed(db, evs, chain, c, start, base, cuts);
    if !(ck == start && now == db) {
      var before := Replayed(db, evs, base, cuts);
      var cut: Cut :| ck.lastLedger <= cut.upTo <= head && CutBroken(before, evs, ck.lastLedger, cut, now);
      SameWindow(evs, chain, c, ck.lastLedger, cut.upTo);
      assert CutBroken(before, Stream(chain, c), ck.lastLedger, cut, now);
    }
  }

  lemma SameBreak(before: Db, evs: seq<Packet>, chain: History, c: Contract, after: nat, last: Cut, was: Letters, now: Db, letters: Letters)
    requires Carries(evs, chain, c) && after <= last.upTo
    requires BrokenOff(before, Window(evs, after, last.upTo), last.skip, was, now, letters)
    ensures BrokenOff(before, Window(Stream(chain, c), after, last.upTo), last.skip, was, now, letters)
  {
    hide Carries;
    hide Window;
    hide WriteOrder;
    hide Unreadable;
    hide Play;
    hide PlayChunks;
    hide PartLetters;
    SameWindow(evs, chain, c, after, last.upTo);
    var events, own := Window(evs, after, last.upTo), Window(Stream(chain, c), after, last.upTo);
    if exists n: nat :: n <= |WriteOrder(events)| && PartDone(before, events, last.skip, was, now, letters, n) {
      var n: nat :| n <= |WriteOrder(events)| && PartDone(before, events, last.skip, was, now, letters, n);
      assert PartDone(before, own, last.skip, was, now, letters, n);
    }
  }

  lemma LetteredOfOwn(db: Db, evs: seq<Packet>, chain: History, c: Contract, start: Checkpoint, base: nat, head: nat, cuts: seq<Cut>,
                      was: Letters, r: ScanResult, last: Cut, now: Db, letters: Letters)
    requires Carries(evs, chain, c) && LawfulCuts(start, base, cuts)
    requires Lettered(db, evs, base, head, cuts, was, r, last, now, letters)
    ensures Lettered(db, Stream(chain, c), base, head, cuts, was, r, last, now, letters)
  {
    hide Carries;
    hide WriteCut;
    hide CutLetters;
    hide LettersOf;
    hide Replayed;
    hide LawfulCuts;
    hide BrokenOff;
    hide Window;
    SameReplayed(db, evs, chain, c, start, base, cuts);
    var before, after := Replayed(db, evs, base, cuts), Bound(base, cuts);
    if r.Aborted? && !(cuts == [] && now == db && letters == was) {
      SameBreak(before, evs, chain, c, after, last, was + LettersOf(db, evs, base, cuts), now, letters);
    }
    if r.Finished? && r.stopped == Some(Deferred) {
      SameCut(before, evs, chain, c, after, last);
    }
  }
}
