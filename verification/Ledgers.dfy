// Ledgers and calls: a range of ledgers of a contract's stream is a stretch of calls.
module Ledgers {
  import opened Events
  import opened Chain
  import opened Writer
  import opened Rpc

  lemma {:induction false} NumberLedgers(es: seq<Event>, first: nat, ledger: nat)
    ensures forall p | p in Number(es, first, ledger) :: p.ledger == ledger
  {
    if es != [] {
      NumberLedgers(es[..|es| - 1], first, ledger);
    }
  }

  /** Packets carry the ledger of their call, so a stretch of calls is a stretch of ledgers. */
  lemma {:induction false} BetweenLedgers(chain: History, c: Contract, i: nat, j: nat, lo: nat, hi: nat)
    requires i <= j <= |chain|
    requires forall k | i <= k < j :: lo <= chain[k].ledger <= hi
    ensures forall p | p in Between(chain, c, i, j) :: lo <= p.ledger <= hi
    decreases j - i
  {
    hide Step;
    hide Number;
    if i < j {
      BetweenLedgers(chain, c, i, j - 1, lo, hi);
      NumberLedgers(EventsOf(chain, j - 1), FirstId(chain, j - 1), chain[j - 1].ledger);
    }
  }

  lemma {:induction false} StreamSorted(chain: History, c: Contract, n: nat)
    requires Chain.Ordered(chain) && n <= |chain|
    ensures Sorted(Between(chain, c, 0, n))
    decreases n
  {
    hide Step;
    hide Number;
    if n > 0 {
      StreamSorted(chain, c, n - 1);
      BetweenLedgers(chain, c, 0, n - 1, 0, chain[n - 1].ledger);
      NumberLedgers(EventsOf(chain, n - 1), FirstId(chain, n - 1), chain[n - 1].ledger);
    }
  }

  lemma {:induction false} CountUnique(evs: seq<Packet>, ledger: nat, n: nat)
    requires n <= |evs| && forall m | 0 <= m < |evs| :: m < n <==> evs[m].ledger <= ledger
    ensures CountUpTo(evs, ledger) == n
    decreases evs
  {
    if evs != [] && n < |evs| {
      CountUnique(evs[..|evs| - 1], ledger, n);
    }
  }

  lemma CountIsCalls(chain: History, c: Contract, ledger: nat)
    requires Chain.Ordered(chain)
    ensures CountUpTo(Stream(chain, c), ledger) == |Between(chain, c, 0, CallsUpTo(chain, ledger))|
  {
    hide CountUpTo;
    hide Sorted;
    hide Between;
    var evs, n := Stream(chain, c), CallsUpTo(chain, ledger);
    StreamSorted(chain, c, |chain|);
    BetweenSplits(chain, c, 0, n, |chain|);
    var a, z := Between(chain, c, 0, n), Between(chain, c, n, |chain|);
    BetweenLedgers(chain, c, 0, n, 0, ledger);
    var top := if chain == [] then 0 else chain[|chain| - 1].ledger;
    BetweenLedgers(chain, c, n, |chain|, ledger + 1, top);
    assert forall m | 0 <= m < |a| :: evs[m] == a[m];
    assert forall m | |a| <= m < |evs| :: evs[m] == z[m - |a|];
    CountUnique(evs, ledger, |a|);
  }

  /** The events of ledgers (a, b] are the events of the calls those ledgers hold. */
  lemma WindowIsBetween(chain: History, c: Contract, a: nat, b: nat)
    requires Chain.Ordered(chain) && a <= b
    ensures CallsUpTo(chain, a) <= CallsUpTo(chain, b)
    ensures Window(Stream(chain, c), a, b) == Between(chain, c, CallsUpTo(chain, a), CallsUpTo(chain, b))
  {
    hide CountUpTo;
    hide Between;
    var i, j := CallsUpTo(chain, a), CallsUpTo(chain, b);
    CountIsCalls(chain, c, a);
    CountIsCalls(chain, c, b);
    CallsMonotone(chain, a, b);
    BetweenSplits(chain, c, 0, i, j);
    BetweenSplits(chain, c, 0, j, |chain|);
  }

  lemma CallsMonotone(chain: History, a: nat, b: nat)
    requires Chain.Ordered(chain) && a <= b
    ensures CallsUpTo(chain, a) <= CallsUpTo(chain, b)
  {
    var i := CallsUpTo(chain, a);
    if i > 0 {
      assert chain[i - 1].ledger <= a;
    }
  }

  lemma StreamIsSorted(chain: History, c: Contract)
    requires Chain.Ordered(chain)
    ensures Sorted(Stream(chain, c))
  {
    StreamSorted(chain, c, |chain|);
  }

  lemma {:induction false} ParsedAll(ps: seq<Packet>)
    requires forall p | p in ps :: Readable(p)
    ensures Parsed(ps) == ps
  {
    if ps != [] {
      ParsedAll(ps[..|ps| - 1]);
      assert ps == ps[..|ps| - 1] + [ps[|ps| - 1]];
    }
  }
}
