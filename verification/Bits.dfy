// Bit strings, most significant bit first, and the numbers they stand for.
module Bits {
  import opened Arithmetic

  type Bits = seq<bool>

  function Pow2(n: nat): (p: nat)
    ensures p >= 1
  {
    if n == 0 then 1 else 2 * Pow2(n - 1)
  }

  /** The last n binary digits of x. */
  function LowBits(x: nat, n: nat): (ws: Bits)
    ensures |ws| == n
  {
    if n == 0 then [] else LowBits(x / 2, n - 1) + [x % 2 == 1]
  }

  function FromBits(ws: Bits): nat {
    if ws == [] then 0 else 2 * FromBits(ws[..|ws| - 1]) + if ws[|ws| - 1] then 1 else 0
  }

  lemma {:induction false} FromLow(x: nat, n: nat)
    requires x < Pow2(n)
    ensures FromBits(LowBits(x, n)) == x
  {
    if n > 0 {
      FromLow(x / 2, n - 1);
      assert LowBits(x, n)[..n - 1] == LowBits(x / 2, n - 1);
    }
  }

  lemma {:induction false} LowFrom(ws: Bits)
    ensures FromBits(ws) < Pow2(|ws|) && LowBits(FromBits(ws), |ws|) == ws
  {
    if ws != [] {
      var k := |ws| - 1;
      LowFrom(ws[..k]);
      assert FromBits(ws) / 2 == FromBits(ws[..k]);
      assert ws == ws[..k] + [ws[k]];
    }
  }

  lemma HalfOfMod(x: nat, p: nat)
    requires p >= 1
    ensures (x % (2 * p)) / 2 == (x / 2) % p && (x % (2 * p)) % 2 == x % 2
  {
    hide Quot;
    Division(x, 2 * p);
    var q := Quot(x, 2 * p);
    assert q * (2 * p) == 2 * (q * p);
    DivUnique(x / 2, p, q);
  }

  /** A register at least n bits wide keeps the low n bits. */
  lemma {:induction false} LowWrap(x: nat, n: nat, k: nat)
    requires n <= k
    ensures LowBits(x % Pow2(k), n) == LowBits(x, n)
    decreases n
  {
    if n > 0 {
      HalfOfMod(x, Pow2(k - 1));
      LowWrap(x / 2, n - 1, k - 1);
    }
  }

  function Shl(v: nat, k: nat): nat {
    if k == 0 then v else 2 * Shl(v, k - 1)
  }

  function Shr(v: nat, k: nat): nat {
    if k == 0 then v else Shr(v / 2, k - 1)
  }

  lemma {:induction false} LowJoin(v: nat, x: nat, n: nat, k: nat)
    requires x < Pow2(k)
    ensures LowBits(Shl(v, k) + x, n + k) == LowBits(v, n) + LowBits(x, k)
    decreases k
  {
    if k > 0 {
      LowJoin(v, x / 2, n, k - 1);
      assert (Shl(v, k) + x) / 2 == Shl(v, k - 1) + x / 2;
    } else {
      assert LowBits(v, n) + [] == LowBits(v, n);
    }
  }

  lemma {:induction false} LowSplit(v: nat, n: nat, k: nat)
    ensures LowBits(v, n + k) == LowBits(Shr(v, k), n) + LowBits(v, k)
    decreases k
  {
    if k > 0 {
      LowSplit(v / 2, n, k - 1);
      var a, b, last := LowBits(Shr(v, k), n), LowBits(v / 2, k - 1), [v % 2 == 1];
      assert (a + b) + last == a + (b + last);
    } else {
      assert LowBits(v, n) + [] == LowBits(v, n);
    }
  }

  // ---------------------------------------------------------------- digits of k bits

  function Flatten(xs: seq<nat>, k: nat): Bits {
    if xs == [] then [] else Flatten(xs[..|xs| - 1], k) + LowBits(xs[|xs| - 1], k)
  }

  function Group(ws: Bits, k: nat): seq<nat>
    requires k > 0
  {
    if |ws| < k then [] else Group(ws[..|ws| - k], k) + [FromBits(ws[|ws| - k..])]
  }

  lemma {:induction false} FlattenLength(xs: seq<nat>, k: nat)
    ensures |Flatten(xs, k)| == k * |xs|
  {
    if xs != [] {
      FlattenLength(xs[..|xs| - 1], k);
      assert k * |xs| == k * (|xs| - 1) + k;
    }
  }

  lemma FlattenNone(k: nat)
    ensures Flatten([], k) == []
  {
  }

  lemma {:induction false} FlattenConcat(xs: seq<nat>, ys: seq<nat>, k: nat)
    ensures Flatten(xs + ys, k) == Flatten(xs, k) + Flatten(ys, k)
  {
    hide Flatten;
    hide LowBits;
    if ys == [] {
      assert xs + ys == xs;
      FlattenNone(k);
    } else {
      var n := |ys| - 1;
      FlattenConcat(xs, ys[..n], k);
      FlattenAppend(xs + ys[..n], ys[n], k);
      FlattenAppend(ys[..n], ys[n], k);
      assert xs + ys == (xs + ys[..n]) + [ys[n]] && ys == ys[..n] + [ys[n]];
      var a, b, last := Flatten(xs, k), Flatten(ys[..n], k), LowBits(ys[n], k);
      assert (a + b) + last == a + (b + last);
    }
  }

  lemma GroupAppend(ws: Bits, last: Bits, k: nat)
    requires |last| == k > 0
    ensures Group(ws + last, k) == Group(ws, k) + [FromBits(last)]
  {
    hide FromBits;
    var all := ws + last;
    assert all[..|all| - k] == ws && all[|all| - k..] == last;
  }

  lemma FlattenOne(x: nat, k: nat)
    ensures Flatten([x], k) == LowBits(x, k)
  {
    assert [x][..0] == [];
  }

  /** Grouping undoes flattening. */
  lemma {:induction false} GroupFlatten(xs: seq<nat>, k: nat)
    requires k > 0 && forall i :: 0 <= i < |xs| ==> xs[i] < Pow2(k)
    ensures Group(Flatten(xs, k), k) == xs
  {
    hide LowBits;
    hide FromBits;
    if xs != [] {
      var n := |xs| - 1;
      GroupFlatten(xs[..n], k);
      FromLow(xs[n], k);
      GroupAppend(Flatten(xs[..n], k), LowBits(xs[n], k), k);
    }
  }

  lemma StepDown(k: nat, n: nat)
    requires n > 0
    ensures k * n == k * (n - 1) + k >= k
  {
    assert k * (n - 1) >= 0;
  }

  lemma FlattenAppend(xs: seq<nat>, x: nat, k: nat)
    ensures Flatten(xs + [x], k) == Flatten(xs, k) + LowBits(x, k)
  {
    hide LowBits;
    assert (xs + [x])[..|xs|] == xs;
  }

  /** Flattening undoes grouping of a whole number of groups. */
  lemma {:induction false} FlattenGroup(ws: Bits, k: nat, n: nat)
    requires k > 0 && |ws| == k * n
    ensures |Group(ws, k)| == n && Flatten(Group(ws, k), k) == ws
    ensures forall i :: 0 <= i < n ==> Group(ws, k)[i] < Pow2(k)
    decreases n
  {
    hide LowBits;
    hide FromBits;
    hide Pow2;
    if n > 0 {
      StepDown(k, n);
      var front, last := ws[..|ws| - k], ws[|ws| - k..];
      FlattenGroup(front, k, n - 1);
      LowFrom(last);
      FlattenAppend(Group(front, k), FromBits(last), k);
    } else {
      assert ws == [];
    }
  }
}
