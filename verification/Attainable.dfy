// The promises of a run are not empty: for every history there are nodes, times and tables that meet what they ask for.
module Attainable {
  import opened Basics
  import opened Events
  import opened Chain
  import opened Ledgers
  import opened Tables
  import opened Projection
  import opened EndToEnd
  import opened Healing
  import opened Writer
  import opened Locks
  import opened Rpc
  import opened Scan
  import opened Feed
  import opened Indexer

  function PageOf(evs: seq<Packet>, start: nat, first: nat, end: nat, latest: nat): Reply {
    var known: nat := if start <= latest then latest else start;
    var stop := CountUpTo(evs, Min(Min(start + 9_999, known), end));
    Page(if first <= stop then evs[first..Min(first + 100, stop)] else [], first + 100, known)
  }

  /** A node that answers every call, at its latest ledger or the one asked for. */
  function KeepsUp(evs: seq<Packet>, latest: nat): Server {
    (n: nat, req: Request) =>
      match req
      case Range(from, end) =>
        if 1 <= from < end then PageOf(evs, from, CountUpTo(evs, from - 1), end - 1, latest) else Page([], 0, latest)
      case After(cursor) =>
        if 1 <= cursor <= |evs|
        then PageOf(evs, evs[cursor - 1].ledger, cursor, evs[cursor - 1].ledger + 10_000, latest) else Page([], 0, latest)
  }

  lemma PageIsLawful(evs: seq<Packet>, start: nat, first: nat, end: nat, latest: nat)
    requires Sorted(evs) && start <= end && first <= CountUpTo(evs, start)
    ensures LawfulPage(evs, start, first, end, PageOf(evs, start, first, end, latest))
  {
    hide CountUpTo;
    hide Sorted;
    var known: nat := if start <= latest then latest else start;
    CountMonotone(evs, start, Min(Min(start + 9_999, known), end));
  }

  /** Ten thousand ledgers a call, a hundred events a page: such a node is lawful. */
  lemma KeepingUpIsLawful(evs: seq<Packet>, latest: nat)
    requires Sorted(evs)
    ensures LawfulServer(KeepsUp(evs, latest), evs)
  {
    hide LawfulPage;
    hide PageOf;
    forall n: nat, req ensures LawfulReply(evs, req, KeepsUp(evs, latest)(n, req)) {
      match req
      case Range(from, end) =>
        if 1 <= from < end {
          CountMonotone(evs, from - 1, from);
          PageIsLawful(evs, from, CountUpTo(evs, from - 1), end - 1, latest);
        }
      case After(cursor) =>
        if 1 <= cursor <= |evs| {
          PageIsLawful(evs, evs[cursor - 1].ledger, cursor, evs[cursor - 1].ledger + 10_000, latest);
        }
    }
  }

  /** For every history, health answer and checkpoints there are nodes that serve it and let every contract reach the latest ledger. */
  lemma NothingHinders(chain: History, health: Health, state: map<Contract, Checkpoint>) returns (w: Surroundings)
    requires Chain.Ordered(chain) && forall c: Contract :: c in state
    ensures w.health == health && forall c: Contract :: Serves(w, chain, c) && Unhindered(w, state, c)
  {
    w := Surroundings((c: Contract) => Stream(chain, c), (c: Contract) => KeepsUp(Stream(chain, c), health.latest),
                      (c: Contract) => (n: nat) => 0, 1, health);
    forall c: Contract ensures Serves(w, chain, c) && Unhindered(w, state, c) {
      StreamIsSorted(chain, c);
      KeepingUpIsLawful(Stream(chain, c), health.latest);
      CarriesItself(chain, c);
      AlwaysAnswered(Stream(chain, c), health.latest, Base(state[c], health.latest, health.oldest));
    }
  }

  lemma AlwaysAnswered(evs: seq<Packet>, latest: nat, base: nat)
    ensures forall k: nat :: Answered(ReplyAt(KeepsUp(evs, latest), base, latest, k), latest)
  {
    hide CountUpTo;
    hide PositionAt;
  }

  lemma CarriesItself(chain: History, c: Contract)
    requires Chain.Ordered(chain)
    ensures Carries(Stream(chain, c), chain, c)
  {
    hide Between;
    StreamIsSorted(chain, c);
    StreamReadable(chain, c);
    ParsedAll(Stream(chain, c));
  }

  /** Whatever the registries publish can be read. */
  lemma StreamReadable(chain: History, c: Contract)
    requires Chain.Ordered(chain)
    ensures forall p | p in Stream(chain, c) :: Readable(p)
  {
    hide Projected;
    hide Healable;
    hide Between;
    var none := Progress(0, 0, 0);
    EmptyIsProjected(chain);
    ProjectedIsHealable(EMPTY, chain, none);
    BatchHeals(EMPTY, chain, none, none, IdentityContract, |chain|);
    if c != IdentityContract {
      var db := BatchProjects(EMPTY, chain, none, IdentityContract, |chain|);
      var at := Advance(none, IdentityContract, |chain|);
      ProjectedIsHealable(db, chain, at);
      BatchHeals(db, chain, at, at, c, |chain|);
    }
  }

  /** Empty tables and checkpoints before the first ledger are equal to the registries, and any node keeps that long. */
  lemma StartIsFaithful(chain: History, state: map<Contract, Checkpoint>, oldest: nat)
    requires Chain.Ordered(chain) && forall i | 0 <= i < |chain| :: chain[i].ledger >= 1
    requires forall c: Contract :: c in state && state[c] == Checkpoint(0, 0)
    ensures Reached(chain, state) == Progress(0, 0, 0) && Faithful(EMPTY, chain, state)
    ensures Unclamped(state, oldest) <==> oldest <= 1
  {
    hide Projected;
    hide CallsUpTo;
    NothingBefore(chain);
    EmptyIsProjected(chain);
    assert IdentityContract in state && state[IdentityContract].lastLedger + 1 == 1;
  }

  lemma NothingBefore(chain: History)
    requires Chain.Ordered(chain) && forall i | 0 <= i < |chain| :: chain[i].ledger >= 1
    ensures CallsUpTo(chain, 0) == 0
  {
    assert chain != [] ==> chain[0].ledger > 0;
  }
}
