// The registries' "count plus entry at position" storage pattern: a list per key kept as two maps.
module CountedIndex {
  import opened Basics

  datatype Index<!K(==), V> = Index(count: map<K, nat>, at: map<(K, nat), V>)

  function Empty<K, V>(): Index<K, V> {
    Index(map[], map[])
  }

  function Count<K, V>(ix: Index<K, V>, k: K): nat {
    if k in ix.count then ix.count[k] else 0
  }

  function Add<K, V>(ix: Index<K, V>, k: K, v: V): Index<K, V> {
    Index(ix.count[k := Count(ix, k) + 1], ix.at[(k, Count(ix, k)) := v])
  }

  /** The entries are dense below the count, distinct, and list exactly `members`. */
  ghost predicate Enumerates<K(!new), V(!new)>(ix: Index<K, V>, members: set<(K, V)>) {
    && (forall k: K, i: nat :: (k, i) in ix.at <==> i < Count(ix, k))
    && (forall k: K, i: nat :: (k, i) in ix.at ==> (k, ix.at[(k, i)]) in members)
    && (forall k: K, i: nat, j: nat :: (k, i) in ix.at && (k, j) in ix.at && i != j ==> ix.at[(k, i)] != ix.at[(k, j)])
    && (forall k: K, v: V :: (k, v) in members ==> Listed(ix, k, v))
  }

  ghost predicate Listed<K(!new), V(!new)>(ix: Index<K, V>, k: K, v: V) {
    exists i: nat :: (k, i) in ix.at && ix.at[(k, i)] == v
  }

  lemma AddEnumerates<K(!new), V(!new)>(ix: Index<K, V>, members: set<(K, V)>, k: K, v: V)
    requires Enumerates(ix, members) && (k, v) !in members
    ensures Enumerates(Add(ix, k, v), members + {(k, v)})
  {
    var ix' := Add(ix, k, v);
    forall l: K, w: V | (l, w) in members + {(k, v)} ensures Listed(ix', l, w) {
      if (l, w) in members {
        assert Listed(ix, l, w);
        var i: nat :| (l, i) in ix.at && ix.at[(l, i)] == w;
        assert (l, i) in ix'.at && ix'.at[(l, i)] == w;
      } else {
        assert ix'.at[(k, Count(ix, k))] == v;
      }
    }
  }

  function List<K(!new), V>(ix: Index<K, V>, k: K): (list: seq<V>)
    requires forall i: nat :: i < Count(ix, k) ==> (k, i) in ix.at
    ensures |list| == Count(ix, k)
  {
    seq(Count(ix, k), i requires 0 <= i < Count(ix, k) => ix.at[(k, i)])
  }

  /** A key's list holds each of its members exactly once and nothing else. */
  lemma ListExact<K(!new), V(!new)>(ix: Index<K, V>, members: set<(K, V)>, k: K)
    requires Enumerates(ix, members)
    ensures forall v :: v in List(ix, k) <==> (k, v) in members
    ensures forall i, j :: 0 <= i < j < |List(ix, k)| ==> List(ix, k)[i] != List(ix, k)[j]
  {
    var list := List(ix, k);
    forall v ensures v in list <==> (k, v) in members {
      if (k, v) in members {
        assert Listed(ix, k, v);
        var i: nat :| (k, i) in ix.at && ix.at[(k, i)] == v;
        assert list[i] == v;
      }
      if v in list {
        var i :| 0 <= i < |list| && list[i] == v;
        assert (k, ix.at[(k, i)]) in members;
      }
    }
  }

  // ---------------------------------------------------------------- pages

  /** What a paginated read returns; the end of the range saturates at u32. */
  function Page<V>(list: seq<V>, start: nat, limit: nat): seq<V> {
    var end := Min(Min(start + limit, MAX_U32), |list|);
    if start <= end then list[start..end] else []
  }

  /** The read loop: `start..min(start saturating_add limit, count)`, an absent entry skipped. */
  method ReadPage<K(!new), V>(ix: Index<K, V>, k: K, start: nat, limit: nat) returns (page: seq<V>)
    requires forall i: nat :: i < Count(ix, k) ==> (k, i) in ix.at
    ensures page == Page(List(ix, k), start, limit)
  {
    page := [];
    var list := List(ix, k);
    var end := Min(Min(start + limit, MAX_U32), Count(ix, k));
    var i := start;
    while i < end
      invariant start <= i && (i <= end || i == start)
      invariant page == if i <= end then list[start..i] else []
    {
      if (k, i) in ix.at {
        page := page + [ix.at[(k, i)]];
      }
      i := i + 1;
    }
  }

  /** Pages read one after the other, each starting where the previous one asked to end. */
  function Walk<V>(list: seq<V>, start: nat, limits: seq<nat>): seq<V>
    decreases limits
  {
    if limits == [] then [] else Page(list, start, limits[0]) + Walk(list, start + limits[0], limits[1..])
  }

  function Sum(limits: seq<nat>): nat {
    if limits == [] then 0 else limits[0] + Sum(limits[1..])
  }

  lemma PageIsSlice<V>(list: seq<V>, start: nat, limit: nat)
    requires start <= |list| <= MAX_U32
    ensures Page(list, start, limit) == list[start..Min(start + limit, |list|)]
  {
  }

  lemma SlicesJoin<V>(list: seq<V>, a: nat, b: nat, c: nat)
    requires a <= b <= c <= |list|
    ensures list[a..b] + list[b..c] == list[a..c]
  {
  }

  /** Pages of any sizes concatenate to the list, as far as they reach. */
  lemma {:induction false} PagesConcatenate<V>(list: seq<V>, start: nat, limits: seq<nat>)
    requires |list| <= MAX_U32 && start <= |list|
    ensures Walk(list, start, limits) == list[start..Min(start + Sum(limits), |list|)]
    decreases limits
  {
    hide Page;
    if limits != [] {
      var next := start + limits[0];
      var end := start + Sum(limits);
      assert end == next + Sum(limits[1..]);
      PageIsSlice(list, start, limits[0]);
      if next <= |list| {
        PagesConcatenate(list, next, limits[1..]);
        SlicesJoin(list, start, next, Min(end, |list|));
      } else {
        BeyondTheEnd(list, next, limits[1..]);
      }
    }
  }

  lemma {:induction false} BeyondTheEnd<V>(list: seq<V>, start: nat, limits: seq<nat>)
    requires start >= |list|
    ensures Walk(list, start, limits) == []
    decreases limits
  {
    if limits != [] {
      BeyondTheEnd(list, start + limits[0], limits[1..]);
    }
  }

  /** The pages of a key's list, from its start. */
  lemma ListPages<K(!new), V(!new)>(ix: Index<K, V>, members: set<(K, V)>, k: K, limits: seq<nat>)
    requires Enumerates(ix, members) && Count(ix, k) <= MAX_U32
    ensures Walk(List(ix, k), 0, limits) == List(ix, k)[..Min(Sum(limits), |List(ix, k)|)]
  {
    PagesConcatenate(List(ix, k), 0, limits);
  }
}
