// getEvents as stellar-rpc answers it: windows of ledgers, pages of events, cursors and lagging nodes.
module Rpc {
  import opened Basics
  import opened Events

  const SCAN_LIMIT := 10_000
  const PAGE_LIMIT := 100

  predicate Sorted(evs: seq<Packet>) {
    forall i, j :: 0 <= i < j < |evs| ==> evs[i].ledger <= evs[j].ledger
  }

  /** How many events of a stream the ledgers up to `ledger` hold. */
  function CountUpTo(evs: seq<Packet>, ledger: nat): (n: nat)
    ensures n <= |evs|
    ensures Sorted(evs) ==> forall i :: 0 <= i < |evs| ==> (i < n <==> evs[i].ledger <= ledger)
  {
    if evs == [] then 0
    else if evs[|evs| - 1].ledger <= ledger then |evs|
    else CountUpTo(evs[..|evs| - 1], ledger)
  }

  lemma CountMonotone(evs: seq<Packet>, a: nat, b: nat)
    requires Sorted(evs) && a <= b
    ensures CountUpTo(evs, a) <= CountUpTo(evs, b)
  {
    var n := CountUpTo(evs, a);
    if n > 0 {
      assert evs[n - 1].ledger <= a;
    }
  }

  /** The events of ledgers (after, upTo]. */
  function Window(evs: seq<Packet>, after: nat, upTo: nat): seq<Packet> {
    var lo, hi := CountUpTo(evs, after), CountUpTo(evs, upTo);
    if lo <= hi then evs[lo..hi] else []
  }

  /** The events of a page with a ledger from `lo` to before `end`, in page order. */
  function InRange(ps: seq<Packet>, lo: nat, end: nat): seq<Packet> {
    if ps == [] then []
    else InRange(ps[..|ps| - 1], lo, end) + if lo <= ps[|ps| - 1].ledger < end then [ps[|ps| - 1]] else []
  }

  function CountBelow(evs: seq<Packet>, ledger: nat): nat {
    if ledger == 0 then 0 else CountUpTo(evs, ledger - 1)
  }

  function Clip(x: nat, lo: nat, hi: nat): nat {
    if x < lo then lo else if x > hi then hi else x
  }

  /** A clipped stretch grows by its last event exactly when that event is inside it. */
  lemma LastOfStretch(evs: seq<Packet>, a: nat, b: nat, x: nat, y: nat)
    requires a < b <= |evs| && x <= y
    ensures evs[Clip(x, a, b)..Clip(y, a, b)]
         == evs[Clip(x, a, b - 1)..Clip(y, a, b - 1)] + if x <= b - 1 < y then [evs[b - 1]] else []
  {
  }

  lemma InRangeLast(ps: seq<Packet>, p: Packet, lo: nat, end: nat)
    ensures InRange(ps + [p], lo, end) == InRange(ps, lo, end) + if lo <= p.ledger < end then [p] else []
  {
    assert (ps + [p])[..|ps|] == ps;
  }

  lemma EmptyStretch(evs: seq<Packet>, a: nat, lo: nat, end: nat, x: nat, y: nat)
    requires a <= |evs|
    ensures InRange(evs[a..a], lo, end) == [] && evs[Clip(x, a, a)..Clip(y, a, a)] == []
  {
  }

  predicate SplitsAt(evs: seq<Packet>, i: nat, lo: nat, end: nat, x: nat, y: nat)
    requires i < |evs|
  {
    (i < x <==> evs[i].ledger < lo) && (i < y <==> evs[i].ledger < end)
  }

  lemma {:induction false} StretchAt(evs: seq<Packet>, a: nat, b: nat, lo: nat, end: nat, x: nat, y: nat)
    requires a <= b <= |evs| && x <= y
    requires forall i :: a <= i < b ==> SplitsAt(evs, i, lo, end, x, y)
    ensures InRange(evs[a..b], lo, end) == evs[Clip(x, a, b)..Clip(y, a, b)]
    decreases b
  {
    hide InRange;
    if a == b {
      EmptyStretch(evs, a, lo, end, x, y);
    } else {
      StretchAt(evs, a, b - 1, lo, end, x, y);
      assert SplitsAt(evs, b - 1, lo, end, x, y);
      assert evs[a..b] == evs[a..b - 1] + [evs[b - 1]];
      InRangeLast(evs[a..b - 1], evs[b - 1], lo, end);
      LastOfStretch(evs, a, b, x, y);
    }
  }

  /** Filtering a stretch of a sorted stream by ledger gives a stretch. */
  lemma RangeIsStretch(evs: seq<Packet>, a: nat, b: nat, lo: nat, end: nat)
    requires Sorted(evs) && a <= b <= |evs| && lo <= end
    ensures CountBelow(evs, lo) <= CountBelow(evs, end)
    ensures InRange(evs[a..b], lo, end) == evs[Clip(CountBelow(evs, lo), a, b)..Clip(CountBelow(evs, end), a, b)]
  {
    hide Sorted;
    hide CountUpTo;
    if lo > 0 {
      CountMonotone(evs, lo - 1, end - 1);
    }
    StretchAt(evs, a, b, lo, end, CountBelow(evs, lo), CountBelow(evs, end));
  }

  /** The last ledger of a stretch splits it: complete ledgers before, the open one after. */
  lemma LastLedgerSplits(evs: seq<Packet>, last: nat, stop: nat, to: nat)
    requires Sorted(evs) && CountUpTo(evs, last) < stop <= CountUpTo(evs, to)
    ensures var lo, open := CountUpTo(evs, last), evs[stop - 1].ledger;
            && last < open <= to
            && lo <= CountUpTo(evs, open - 1) < stop <= CountUpTo(evs, open)
            && InRange(evs[lo..stop], 0, open) == Window(evs, last, open - 1)
            && InRange(evs[lo..stop], open, open + 1) == evs[CountUpTo(evs, open - 1)..stop]
  {
    hide Sorted;
    hide CountUpTo;
    hide InRange;
    var lo, open := CountUpTo(evs, last), evs[stop - 1].ledger;
    CountMonotone(evs, last, open - 1);
    RangeIsStretch(evs, lo, stop, 0, open);
    RangeIsStretch(evs, lo, stop, open, open + 1);
  }

  // ---------------------------------------------------------------- the server

  /** A first request names ledgers from..end (exclusive); a follow-up continues after `cursor` events. */
  datatype Request = Range(from: nat, end: nat) | After(cursor: nat)

  datatype Reply = Failure | Page(events: seq<Packet>, cursor: nat, latest: nat)

  /** Any node may answer any call, at its own latest ledger, or fail. */
  type Server = (nat, Request) -> Reply

  /**
   * One call scans at most SCAN_LIMIT ledgers from its start, none past the node's latest; it
   * returns the first PAGE_LIMIT events found, and a full page's cursor is its last event.
   */
  ghost predicate LawfulPage(evs: seq<Packet>, start: nat, first: nat, end: nat, page: Reply)
    requires page.Page?
  {
    var last := Min(Min(start + SCAN_LIMIT - 1, page.latest), end);
    && start <= page.latest
    && first <= CountUpTo(evs, last)
    && page.events == evs[first..Min(first + PAGE_LIMIT, CountUpTo(evs, last))]
    && (|page.events| == PAGE_LIMIT ==> page.cursor == first + PAGE_LIMIT)
  }

  ghost predicate LawfulReply(evs: seq<Packet>, req: Request, reply: Reply) {
    reply.Page? ==>
      match req
      case Range(from, end) =>
        1 <= from < end ==> LawfulPage(evs, from, CountUpTo(evs, from - 1), end - 1, reply)
      case After(cursor) =>
        1 <= cursor <= |evs| ==>
          var start := evs[cursor - 1].ledger;
          LawfulPage(evs, start, cursor, start + SCAN_LIMIT, reply)
  }

  ghost predicate LawfulServer(server: Server, evs: seq<Packet>) {
    forall n: nat, req :: LawfulReply(evs, req, server(n, req))
  }
}
