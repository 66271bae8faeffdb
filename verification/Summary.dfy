// get_summary of the reputation registry: WAD normalisation, mode decimals, two truncating divisions.
module Summary {
  import opened Basics
  import opened Arithmetic
  import opened Reputation

  const MAX_SUMMARY_CLIENTS := 5
  const I128_MAX: int := 0x7FFF_FFFF_FFFF_FFFF_FFFF_FFFF_FFFF_FFFF
  const I128_MIN: int := -I128_MAX - 1

  datatype SummaryResult = SummaryResult(count: nat, value: int, decimals: nat)

  datatype Result = Ok(summary: SummaryResult) | Err(error: Error)

  predicate FitsI128(x: int) {
    I128_MIN <= x <= I128_MAX
  }

  function Pow10(exp: nat): (p: int)
    ensures p >= 1
  {
    if exp == 0 then 1 else 10 * Pow10(exp - 1)
  }

  /** Rust's `/`: toward zero. */
  function Trunc(a: int, d: int): int
    requires d > 0
  {
    if a >= 0 then Quot(a, d) else -Quot(-a, d)
  }

  // ---------------------------------------------------------------- which feedback counts

  predicate Wanted(f: Feedback, tag1: string, tag2: string) {
    !f.revoked && (tag1 == "" || f.tag1 == tag1) && (tag2 == "" || f.tag2 == tag2)
  }

  /** One client's wanted feedback among indices 1..n, oldest first. */
  function Given(s: State, agentId: nat, client: Address, n: nat, tag1: string, tag2: string): seq<Feedback> {
    if n == 0 then []
    else
      var key := (agentId, client, n);
      Given(s, agentId, client, n - 1, tag1, tag2)
      + if key in s.feedback && Wanted(s.feedback[key], tag1, tag2) then [s.feedback[key]] else []
  }

  /** The wanted feedback of a list of clients; a client listed twice contributes twice. */
  function Selected(s: State, agentId: nat, clients: seq<Address>, tag1: string, tag2: string): seq<Feedback> {
    if clients == [] then []
    else
      var k := |clients| - 1;
      Selected(s, agentId, clients[..k], tag1, tag2)
      + Given(s, agentId, clients[k], LastIndex(s, agentId, clients[k]), tag1, tag2)
  }

  function Considered(clients: seq<Address>): seq<Address> {
    clients[..Min(|clients|, MAX_SUMMARY_CLIENTS)]
  }

  // ---------------------------------------------------------------- exact arithmetic

  function Scale(f: Feedback): nat {
    if f.decimals > 18 then 18 else f.decimals
  }

  function Wad(f: Feedback): int {
    f.value * Pow10(18 - Scale(f))
  }

  function Total(fs: seq<Feedback>): int {
    if fs == [] then 0 else Total(fs[..|fs| - 1]) + Wad(fs[|fs| - 1])
  }

  function Frequency(fs: seq<Feedback>, d: nat): (n: nat)
    ensures n <= |fs|
  {
    if fs == [] then 0 else Frequency(fs[..|fs| - 1], d) + if Scale(fs[|fs| - 1]) == d then 1 else 0
  }

  /** The least of the most frequent decimals. */
  predicate IsMode(fs: seq<Feedback>, m: nat) {
    m <= 18 && forall d: nat | d <= 18 :: Frequency(fs, d) <= Frequency(fs, m) && (d < m ==> Frequency(fs, d) < Frequency(fs, m))
  }

  /** The checked operations succeed: every value, every sum of a prefix, and the count stay in range. */
  ghost predicate Fits(fs: seq<Feedback>) {
    && |fs| <= MAX_U64
    && (forall i :: 0 <= i < |fs| ==> FitsI128(Wad(fs[i])))
    && (forall n :: 0 <= n <= |fs| ==> FitsI128(Total(fs[..n])))
  }

  lemma {:induction false} FrequenciesSum(fs: seq<Feedback>)
    ensures FrequencyBelow(fs, 19) == |fs|
  {
    if fs == [] {
      NoFrequency(19);
    } else {
      FrequenciesSum(fs[..|fs| - 1]);
      OneMore(fs, 19);
    }
  }

  function FrequencyBelow(fs: seq<Feedback>, d: nat): nat {
    if d == 0 then 0 else FrequencyBelow(fs, d - 1) + Frequency(fs, d - 1)
  }

  lemma {:induction false} NoFrequency(d: nat)
    ensures FrequencyBelow([], d) == 0
  {
    if d > 0 {
      NoFrequency(d - 1);
    }
  }

  lemma {:induction false} OneMore(fs: seq<Feedback>, d: nat)
    requires fs != []
    ensures FrequencyBelow(fs, d) == FrequencyBelow(fs[..|fs| - 1], d) + if Scale(fs[|fs| - 1]) < d then 1 else 0
  {
    if d > 0 {
      OneMore(fs, d - 1);
    }
  }

  // ---------------------------------------------------------------- laws of the result

  lemma Regroup(x: int, n: int, m: int)
    ensures (x * m) * n == x * (n * m) && (x * m + m) * n == x * (n * m) + n * m
  {
    assert (x * m) * n == x * (m * n);
    assert m * n == n * m;
  }

  lemma PositiveProduct(n: int, m: int)
    requires n > 0 && m > 0
    ensures n * m > 0
  {
    Below(0, m, n);
  }

  /** A quotient's quotient, between its multiples of the product. */
  lemma QuotientBetween(a: int, n: int, m: int)
    requires a >= 0 && n > 0 && m > 0
    ensures var top := Quot(Quot(a, n), m); (top * m) * n <= a < (top * m + m) * n
  {
    hide Quot;
    var q := Quot(a, n);
    var top := Quot(q, m);
    Division(a, n);
    Division(q, m);
    Scaled(top * m, q, n);
    Below(q, top * m + m, n);
  }

  lemma DivTwice(a: int, n: int, m: int)
    requires a >= 0 && n > 0 && m > 0
    ensures n * m > 0 && Quot(Quot(a, n), m) == Quot(a, n * m)
  {
    hide Quot;
    var top := Quot(Quot(a, n), m);
    PositiveProduct(n, m);
    QuotientBetween(a, n, m);
    Regroup(top, n, m);
    DivUnique(a, n * m, top);
  }

  /** Two truncating divisions are one. */
  lemma TruncTwice(a: int, n: int, m: int)
    requires n > 0 && m > 0
    ensures n * m > 0 && Trunc(Trunc(a, n), m) == Trunc(a, n * m)
  {
    hide Quot;
    DivTwice(if a >= 0 then a else -a, n, m);
    DivUnique(0, m, 0);
  }

  lemma {:induction false} TotalBetween(fs: seq<Feedback>, lo: int, hi: int)
    requires forall i :: 0 <= i < |fs| ==> lo <= Wad(fs[i]) <= hi
    ensures lo * |fs| <= Total(fs) <= hi * |fs|
  {
    hide Wad;
    if fs != [] {
      var k := |fs| - 1;
      TotalBetween(fs[..k], lo, hi);
      assert lo * (k + 1) == lo * k + lo && hi * (k + 1) == hi * k + hi;
    }
  }

  lemma FloorBetween(s: int, n: int, lo: int, hi: int)
    requires n > 0 && s >= 0 && lo * n <= s <= hi * n
    ensures lo <= Quot(s, n) <= hi
  {
    hide Quot;
    Division(s, n);
    Below(Quot(s, n), lo, n);
    Below(hi, Quot(s, n), n);
  }

  /** The WAD average lies between the least and the greatest normalised value. */
  lemma AverageBetween(fs: seq<Feedback>, lo: int, hi: int)
    requires fs != [] && forall i :: 0 <= i < |fs| ==> lo <= Wad(fs[i]) <= hi
    ensures lo <= Trunc(Total(fs), |fs|) <= hi
  {
    hide Wad;
    hide Quot;
    var s, n := Total(fs), |fs|;
    TotalBetween(fs, lo, hi);
    if s >= 0 {
      FloorBetween(s, n, lo, hi);
    } else {
      assert (-hi) * n == -(hi * n) && (-lo) * n == -(lo * n);
      FloorBetween(-s, n, -hi, -lo);
    }
  }

  /** n times the greatest magnitude within i128 rules out an overflow, whatever the order. */
  lemma SmallValuesFit(fs: seq<Feedback>, bound: int)
    requires |fs| <= MAX_U64 && 0 <= bound && bound * |fs| <= I128_MAX
    requires forall i :: 0 <= i < |fs| ==> -bound <= Wad(fs[i]) <= bound
    ensures Fits(fs)
  {
    hide Wad;
    forall n | 0 <= n <= |fs| ensures FitsI128(Total(fs[..n])) {
      TotalBetween(fs[..n], -bound, bound);
      Scaled(n, |fs|, bound);
      assert (-bound) * n == -(bound * n);
    }
    forall i | 0 <= i < |fs| ensures FitsI128(Wad(fs[i])) {
      Scaled(1, |fs|, bound);
    }
  }

  function Raw(value: int): Feedback {
    Feedback(value, 18, false, "", "")
  }

  /** The check is on running sums: the same values in another order overflow. */
  lemma OrderMatters()
    ensures var a, b := Raw(MAX_ABS_VALUE), Raw(-MAX_ABS_VALUE);
            Fits([a, b, a]) && !Fits([a, a, b]) && multiset([a, b, a]) == multiset([a, a, b])
  {
    var a, b := Raw(MAX_ABS_VALUE), Raw(-MAX_ABS_VALUE);
    assert Wad(a) == MAX_ABS_VALUE && Wad(b) == -MAX_ABS_VALUE;
    TotalOfThree(a, b, a);
    TotalOfThree(a, a, b);
    assert !FitsI128(Total([a, a, b][..2]));
  }

  lemma TotalOfThree(x: Feedback, y: Feedback, z: Feedback)
    ensures var fs := [x, y, z];
            && Total(fs[..0]) == 0 && Total(fs[..1]) == Wad(x) && Total(fs[..2]) == Wad(x) + Wad(y)
            && Total(fs[..3]) == Wad(x) + Wad(y) + Wad(z)
  {
    hide Wad;
    var fs := [x, y, z];
    assert fs[..1][..0] == [] && fs[..2][..1] == fs[..1] && fs[..3][..2] == fs[..2] && fs[..3] == fs;
  }

  function Rise(x: int): int {
    if x > 0 then x else 0
  }

  function Fall(x: int): int {
    if x < 0 then x else 0
  }

  /** The sums of the positive and of the negative normalised values. */
  function Rises(fs: seq<Feedback>): int {
    if fs == [] then 0 else Rises(fs[..|fs| - 1]) + Rise(Wad(fs[|fs| - 1]))
  }

  function Falls(fs: seq<Feedback>): int {
    if fs == [] then 0 else Falls(fs[..|fs| - 1]) + Fall(Wad(fs[|fs| - 1]))
  }

  lemma {:induction false} SumsConcat(fs: seq<Feedback>, gs: seq<Feedback>)
    ensures Rises(fs + gs) == Rises(fs) + Rises(gs) && Falls(fs + gs) == Falls(fs) + Falls(gs)
    decreases |gs|
  {
    hide Wad;
    if gs == [] {
      assert fs + gs == fs;
    } else {
      var k := |gs| - 1;
      assert (fs + gs)[..|fs| + k] == fs + gs[..k];
      SumsConcat(fs, gs[..k]);
    }
  }

  lemma WithoutOne(fs: seq<Feedback>, i: nat)
    requires i < |fs|
    ensures multiset(fs) == multiset(fs[..i] + fs[i + 1..]) + multiset{fs[i]}
  {
    assert fs == fs[..i] + ([fs[i]] + fs[i + 1..]);
  }

  lemma Cancel(a: multiset<Feedback>, b: multiset<Feedback>, f: Feedback)
    requires a + multiset{f} == b + multiset{f}
    ensures a == b
  {
    assert a == (a + multiset{f}) - multiset{f};
  }

  lemma SumsWithout(fs: seq<Feedback>, i: nat)
    requires i < |fs|
    ensures var rest := fs[..i] + fs[i + 1..];
            Rises(fs) == Rises(rest) + Rise(Wad(fs[i])) && Falls(fs) == Falls(rest) + Fall(Wad(fs[i]))
  {
    hide Wad;
    var x := fs[i];
    assert fs == fs[..i] + ([x] + fs[i + 1..]);
    SumsConcat(fs[..i], fs[i + 1..]);
    SumsConcat([x], fs[i + 1..]);
    SumsConcat(fs[..i], [x] + fs[i + 1..]);
    assert [x][..0] == [];
  }

  lemma {:induction false} SumsInAnyOrder(fs: seq<Feedback>, gs: seq<Feedback>)
    requires multiset(fs) == multiset(gs)
    ensures |fs| == |gs| && Rises(fs) == Rises(gs) && Falls(fs) == Falls(gs)
    decreases |fs|
  {
    hide Wad;
    hide Rises;
    hide Falls;
    assert |multiset(fs)| == |fs| && |multiset(gs)| == |gs|;
    if fs == [] {
      assert gs == [];
    } else {
      var k := |fs| - 1;
      assert fs[k] in multiset(gs);
      var i :| 0 <= i < |gs| && gs[i] == fs[k];
      WithoutOne(fs, k);
      WithoutOne(gs, i);
      SumsWithout(fs, k);
      SumsWithout(gs, i);
      Cancel(multiset(fs[..k] + fs[k + 1..]), multiset(gs[..i] + gs[i + 1..]), fs[k]);
      SumsInAnyOrder(fs[..k] + fs[k + 1..], gs[..i] + gs[i + 1..]);
    }
  }

  /** Every running sum and every value lie between the two sums. */
  lemma {:induction false} SumsBound(fs: seq<Feedback>, n: nat)
    requires n <= |fs|
    ensures Falls(fs) <= 0 <= Rises(fs) && Falls(fs) <= Total(fs[..n]) <= Rises(fs)
    ensures n < |fs| ==> Falls(fs) <= Wad(fs[n]) <= Rises(fs)
    decreases |fs|
  {
    hide Wad;
    if fs != [] {
      var k := |fs| - 1;
      SumsBound(fs[..k], Min(n, k));
      if n == |fs| {
        assert fs[..n] == fs && fs[..k][..k] == fs[..k];
      } else {
        assert fs[..k][..n] == fs[..n];
      }
    }
  }

  /** The values of one sign first, then the others. */
  function Picked(fs: seq<Feedback>, positive: bool): seq<Feedback> {
    if fs == [] then []
    else
      var f := fs[|fs| - 1];
      Picked(fs[..|fs| - 1], positive) + if (Wad(f) > 0) == positive then [f] else []
  }

  lemma TotalAdds(fs: seq<Feedback>, f: Feedback)
    ensures Total(fs + [f]) == Total(fs) + Wad(f)
  {
    hide Wad;
    assert (fs + [f])[..|fs|] == fs;
  }

  lemma {:induction false} PickedSums(fs: seq<Feedback>)
    ensures Total(Picked(fs, true)) == Rises(fs) && Total(Picked(fs, false)) == Falls(fs)
  {
    hide Wad;
    hide Total;
    if fs == [] {
      assert Total([]) == 0 by { TotalOfNone(); }
    } else {
      var k := |fs| - 1;
      PickedSums(fs[..k]);
      TotalAdds(Picked(fs[..k], true), fs[k]);
      TotalAdds(Picked(fs[..k], false), fs[k]);
      assert Picked(fs[..k], true) + [] == Picked(fs[..k], true) && Picked(fs[..k], false) + [] == Picked(fs[..k], false);
    }
  }

  lemma TotalOfNone()
    ensures Total([]) == 0
  {
  }

  lemma {:induction false} PickedAll(fs: seq<Feedback>)
    ensures multiset(Picked(fs, true)) + multiset(Picked(fs, false)) == multiset(fs)
  {
    hide Wad;
    if fs != [] {
      var k := |fs| - 1;
      PickedAll(fs[..k]);
      assert fs == fs[..k] + [fs[k]];
    }
  }

  ghost predicate Reordered(fs: seq<Feedback>, gs: seq<Feedback>) {
    multiset(fs) == multiset(gs)
  }

  /** The checked operations succeed in whatever order the values come. */
  ghost predicate FitsInAnyOrder(fs: seq<Feedback>) {
    forall gs: seq<Feedback> :: Reordered(fs, gs) ==> Fits(gs)
  }

  /** They do exactly when the positive values alone and the negative values alone stay in range. */
  lemma FitsWhenSignsFit(fs: seq<Feedback>)
    ensures FitsInAnyOrder(fs) <==> |fs| <= MAX_U64 && Rises(fs) <= I128_MAX && Falls(fs) >= I128_MIN
  {
    hide *;
    if |fs| <= MAX_U64 && Rises(fs) <= I128_MAX && Falls(fs) >= I128_MIN {
      forall gs: seq<Feedback> | Reordered(fs, gs) ensures Fits(gs) {
        ReorderedSums(fs, gs);
        SignsFit(gs);
      }
      AnyOrder(fs);
    }
    if FitsInAnyOrder(fs) {
      SignsWhenAnyFits(fs);
    }
  }

  lemma AnyOrder(fs: seq<Feedback>)
    requires forall gs: seq<Feedback> :: Reordered(fs, gs) ==> Fits(gs)
    ensures FitsInAnyOrder(fs)
  {
    hide Fits;
    hide Reordered;
  }

  lemma ReorderedSums(fs: seq<Feedback>, gs: seq<Feedback>)
    requires Reordered(fs, gs)
    ensures |fs| == |gs| && Rises(fs) == Rises(gs) && Falls(fs) == Falls(gs)
  {
    SumsInAnyOrder(fs, gs);
  }

  lemma SignsWhenAnyFits(fs: seq<Feedback>)
    requires FitsInAnyOrder(fs)
    ensures |fs| <= MAX_U64 && Rises(fs) <= I128_MAX && Falls(fs) >= I128_MIN
  {
    hide Fits;
    hide Total;
    hide Picked;
    hide Rises;
    hide Falls;
    var up, down := Picked(fs, true), Picked(fs, false);
    PickedSums(fs);
    PickedAll(fs);
    assert Reordered(fs, up + down) && Reordered(fs, down + up);
    PrefixFits(up, down);
    PrefixFits(down, up);
    assert |multiset(fs)| == |fs|;
  }

  lemma SignsFit(fs: seq<Feedback>)
    requires |fs| <= MAX_U64 && Rises(fs) <= I128_MAX && Falls(fs) >= I128_MIN
    ensures Fits(fs)
  {
    hide Wad;
    hide Total;
    hide Rises;
    hide Falls;
    forall n | 0 <= n <= |fs| ensures FitsI128(Total(fs[..n])) && (n < |fs| ==> FitsI128(Wad(fs[n]))) {
      SumsBound(fs, n);
    }
  }

  lemma PrefixFits(fs: seq<Feedback>, gs: seq<Feedback>)
    requires Fits(fs + gs)
    ensures FitsI128(Total(fs)) && |multiset(fs) + multiset(gs)| <= MAX_U64
  {
    hide Wad;
    hide FitsI128;
    hide Total;
    assert (fs + gs)[..|fs|] == fs;
    assert multiset(fs + gs) == multiset(fs) + multiset(gs) && |multiset(fs + gs)| == |fs + gs|;
    assert FitsI128(Total((fs + gs)[..|fs|]));
  }

  /** One client's wanted feedback, all of it. */
  function GivenBy(s: State, agentId: nat, c: Address, tag1: string, tag2: string): seq<Feedback> {
    Given(s, agentId, c, LastIndex(s, agentId, c), tag1, tag2)
  }

  /** A list without its repetitions. */
  function Once(clients: seq<Address>): seq<Address> {
    if clients == [] then []
    else
      var k := |clients| - 1;
      Once(clients[..k]) + if clients[k] in clients[..k] then [] else [clients[k]]
  }

  ghost predicate RepeatsGiveNothing(s: State, agentId: nat, clients: seq<Address>, tag1: string, tag2: string) {
    forall i, j :: 0 <= i < j < |clients| && clients[i] == clients[j] ==> GivenBy(s, agentId, clients[j], tag1, tag2) == []
  }

  lemma SelectedAdds(s: State, agentId: nat, clients: seq<Address>, c: Address, tag1: string, tag2: string)
    ensures Selected(s, agentId, clients + [c], tag1, tag2) == Selected(s, agentId, clients, tag1, tag2) + GivenBy(s, agentId, c, tag1, tag2)
  {
    assert (clients + [c])[..|clients|] == clients;
  }

  lemma RepeatsShorter(s: State, agentId: nat, clients: seq<Address>, c: Address, tag1: string, tag2: string)
    ensures RepeatsGiveNothing(s, agentId, clients + [c], tag1, tag2) <==>
              && RepeatsGiveNothing(s, agentId, clients, tag1, tag2)
              && (c in clients ==> GivenBy(s, agentId, c, tag1, tag2) == [])
  {
    hide GivenBy;
    var all := clients + [c];
    assert forall i | 0 <= i < |clients| :: all[i] == clients[i];
    if RepeatsGiveNothing(s, agentId, all, tag1, tag2) {
      if c in clients {
        var i :| 0 <= i < |clients| && clients[i] == c;
        assert all[i] == all[|clients|];
      }
      forall i, j | 0 <= i < j < |clients| && clients[i] == clients[j] ensures GivenBy(s, agentId, clients[j], tag1, tag2) == [] {
        assert all[i] == all[j];
      }
    }
  }

  /**
   * Repetitions in a client list leave what is summed unchanged exactly when no repeated client has
   * wanted feedback; otherwise more is counted than the clients gave.
   */
  lemma {:induction false} RepeatsCount(s: State, agentId: nat, clients: seq<Address>, tag1: string, tag2: string)
    ensures var with, without := Selected(s, agentId, clients, tag1, tag2), Selected(s, agentId, Once(clients), tag1, tag2);
            && (with == without <==> RepeatsGiveNothing(s, agentId, clients, tag1, tag2))
            && (with != without ==> |with| > |without|)
    decreases |clients|
  {
    hide GivenBy;
    hide Selected;
    hide RepeatsGiveNothing;
    if clients == [] {
      NothingRepeats(s, agentId, clients, tag1, tag2);
    } else {
      var k := |clients| - 1;
      var c, fewer := clients[k], clients[..k];
      RepeatsCount(s, agentId, fewer, tag1, tag2);
      assert clients == fewer + [c];
      SelectedAdds(s, agentId, fewer, c, tag1, tag2);
      SelectedAdds(s, agentId, Once(fewer), c, tag1, tag2);
      RepeatsShorter(s, agentId, fewer, c, tag1, tag2);
      assert Once(clients) == if c in fewer then Once(fewer) else Once(fewer) + [c];
    }
  }

  lemma NothingRepeats(s: State, agentId: nat, clients: seq<Address>, tag1: string, tag2: string)
    requires clients == []
    ensures RepeatsGiveNothing(s, agentId, clients, tag1, tag2)
  {
  }

  // ---------------------------------------------------------------- the loops

  /** The running totals after the feedback `fs`, none of whose checked operations failed. */
  ghost predicate Tallied(fs: seq<Feedback>, sum: int, count: nat, counts: seq<nat>) {
    && Fits(fs) && sum == Total(fs) && count == |fs|
    && |counts| == 19 && forall d :: 0 <= d < 19 ==> counts[d] == Frequency(fs, d)
  }

  lemma NothingTallied(counts: seq<nat>)
    requires |counts| == 19 && forall d :: 0 <= d < 19 ==> counts[d] == 0
    ensures Tallied([], 0, 0, counts)
  {
  }

  /** One more value: the totals move on exactly when the longer list still fits. */
  lemma TallyOne(fs: seq<Feedback>, f: Feedback, sum: int, count: nat, counts: seq<nat>)
    requires Tallied(fs, sum, count, counts)
    ensures Fits(fs + [f]) <==> FitsI128(Wad(f)) && FitsI128(sum + Wad(f)) && count < MAX_U64
    ensures Fits(fs + [f]) ==>
              Tallied(fs + [f], sum + Wad(f), count + 1, counts[Scale(f) := counts[Scale(f)] + 1])
  {
    hide Wad;
    hide FitsI128;
    var gs := fs + [f];
    assert gs[..|fs|] == fs && gs[..|gs|] == gs && gs[|fs|] == f;
    assert forall n | 0 <= n <= |fs| :: gs[..n] == fs[..n];
    assert Total(gs) == sum + Wad(f);
    if Fits(gs) {
      assert FitsI128(Wad(gs[|fs|])) && FitsI128(Total(gs[..|gs|]));
    }
  }

  /** A list with an overflowing beginning overflows. */
  lemma FitsBeginning(fs: seq<Feedback>, gs: seq<Feedback>)
    requires Fits(fs + gs)
    ensures Fits(fs)
  {
    hide Wad;
    hide FitsI128;
    forall i | 0 <= i < |fs| ensures FitsI128(Wad(fs[i])) {
      assert (fs + gs)[i] == fs[i];
    }
    forall n | 0 <= n <= |fs| ensures FitsI128(Total(fs[..n])) {
      assert (fs + gs)[..n] == fs[..n];
    }
  }

  lemma {:induction false} GivenGrows(s: State, agentId: nat, client: Address, i: nat, n: nat, tag1: string, tag2: string)
    requires i <= n
    ensures Given(s, agentId, client, i, tag1, tag2) <= Given(s, agentId, client, n, tag1, tag2)
    decreases n
  {
    if i < n {
      GivenGrows(s, agentId, client, i, n - 1, tag1, tag2);
    }
  }

  datatype Tally = Sums(sum: int, count: nat) | Overflow(error: Error)

  /** The inner loop: one client's feedback added to the totals, or the first overflow. */
  method TallyClient(s: State, agentId: nat, client: Address, tag1: string, tag2: string, sum: int, count: nat,
                     counts: array<nat>, ghost before: seq<Feedback>)
    returns (t: Tally)
    requires counts.Length == 19 && Tallied(before, sum, count, counts[..])
    modifies counts
    ensures var after := before + Given(s, agentId, client, LastIndex(s, agentId, client), tag1, tag2);
            && (t.Sums? ==> Tallied(after, t.sum, t.count, counts[..]))
            && (t.Overflow? ==> !Fits(after) && (t.error == AggregateOverflow || (t.error == Panic && |after| > MAX_U64)))
  {
    hide Tallied;
    hide Fits;
    hide Wad;
    hide Total;
    hide Frequency;
    var sumWad, n := sum, count;
    var last := LastIndex(s, agentId, client);
    ghost var fs := before;
    var i := 1;
    assert before + [] == before;
    while i <= last
      invariant 1 <= i <= last + 1
      invariant fs == before + Given(s, agentId, client, i - 1, tag1, tag2)
      invariant Tallied(fs, sumWad, n, counts[..])
    {
      var key := (agentId, client, i);
      if key in s.feedback && Wanted(s.feedback[key], tag1, tag2) {
        var f := s.feedback[key];
        var dec := Scale(f);
        var wad := f.value * Pow10(18 - dec);
        WadOf(f);
        TallyOne(fs, f, sumWad, n, counts[..]);
        CountWithin(fs, sumWad, n, counts[..], dec);
        assert fs + [f] == before + Given(s, agentId, client, i, tag1, tag2);
        if !FitsI128(wad) || !FitsI128(sumWad + wad) || counts[dec] == MAX_U64 || n == MAX_U64 {
          OverflowStays(s, agentId, client, tag1, tag2, before, i, last);
          return Overflow(if FitsI128(wad) && FitsI128(sumWad + wad) && counts[dec] == MAX_U64 then Panic else AggregateOverflow);
        }
        sumWad := sumWad + wad;
        counts[dec] := counts[dec] + 1;
        n := n + 1;
        fs := fs + [f];
      }
      i := i + 1;
    }
    return Sums(sumWad, n);
  }

  lemma WadOf(f: Feedback)
    ensures Wad(f) == f.value * Pow10(18 - Scale(f))
  {
  }

  lemma CountWithin(fs: seq<Feedback>, sum: int, count: nat, counts: seq<nat>, d: nat)
    requires Tallied(fs, sum, count, counts) && d < 19
    ensures |counts| == 19 && counts[d] <= count == |fs| <= MAX_U64
  {
  }

  lemma OverflowStays(s: State, agentId: nat, client: Address, tag1: string, tag2: string, before: seq<Feedback>, i: nat, last: nat)
    requires i <= last && !Fits(before + Given(s, agentId, client, i, tag1, tag2))
    ensures !Fits(before + Given(s, agentId, client, last, tag1, tag2))
    ensures |Given(s, agentId, client, i, tag1, tag2)| <= |Given(s, agentId, client, last, tag1, tag2)|
  {
    var some, all := Given(s, agentId, client, i, tag1, tag2), Given(s, agentId, client, last, tag1, tag2);
    GivenGrows(s, agentId, client, i, last, tag1, tag2);
    var rest := all[|some|..];
    assert before + all == (before + some) + rest;
    if Fits(before + all) {
      FitsBeginning(before + some, rest);
    }
  }

  /** The mode loop: a strictly greater frequency replaces, so ties go to the lowest decimals. */
  method FindMode(counts: array<nat>, ghost fs: seq<Feedback>) returns (mode: nat)
    requires counts.Length == 19 && forall d :: 0 <= d < 19 ==> counts[d] == Frequency(fs, d)
    ensures IsMode(fs, mode)
  {
    hide Frequency;
    mode := 0;
    var maxFreq := 0;
    var d := 0;
    while d <= 18
      invariant 0 <= d <= 19 && mode <= 18
      invariant d == 0 ==> mode == 0 && maxFreq == 0
      invariant d > 0 ==> mode < d && maxFreq == Frequency(fs, mode)
      invariant forall k: nat | k < d :: Frequency(fs, k) <= maxFreq && (k < mode ==> Frequency(fs, k) < maxFreq)
    {
      if counts[d] > maxFreq {
        maxFreq := counts[d];
        mode := d;
      }
      d := d + 1;
    }
  }

  lemma SelectedLast(s: State, agentId: nat, clients: seq<Address>, k: nat, tag1: string, tag2: string)
    requires k < |clients|
    ensures Selected(s, agentId, clients[..k + 1], tag1, tag2)
         == Selected(s, agentId, clients[..k], tag1, tag2)
          + Given(s, agentId, clients[k], LastIndex(s, agentId, clients[k]), tag1, tag2)
  {
    assert clients[..k + 1][..k] == clients[..k];
  }

  lemma {:induction false} SelectedGrows(s: State, agentId: nat, clients: seq<Address>, i: nat, tag1: string, tag2: string)
    requires i <= |clients|
    ensures Selected(s, agentId, clients[..i], tag1, tag2) <= Selected(s, agentId, clients, tag1, tag2)
    decreases |clients| - i
  {
    if i == |clients| {
      assert clients[..i] == clients;
    } else {
      SelectedLast(s, agentId, clients, i, tag1, tag2);
      SelectedGrows(s, agentId, clients, i + 1, tag1, tag2);
    }
  }

  /**
   * get_summary over the first five clients given: an error exactly when a checked operation
   * overflows; otherwise the count, the least most-frequent decimals, and the exact WAD sum divided
   * once, toward zero, by count times the scale of those decimals.
   */
  method GetSummary(s: State, agentId: nat, clients: seq<Address>, tag1: string, tag2: string) returns (r: Result)
    ensures clients == [] ==> r == Err(ClientAddressesRequired)
    ensures clients != [] ==>
              var fs := Selected(s, agentId, Considered(clients), tag1, tag2);
              && (r.Ok? <==> Fits(fs))
              && (r.Err? ==> r.error == AggregateOverflow || (r.error == Panic && |fs| > MAX_U64))
              && (r.Ok? && fs == [] ==> r.summary == SummaryResult(0, 0, 0))
              && (r.Ok? && fs != [] ==>
                    var m := r.summary.decimals;
                    && IsMode(fs, m) && r.summary.count == |fs| && |fs| * Pow10(18 - m) > 0
                    && r.summary.value == Trunc(Total(fs), |fs| * Pow10(18 - m)))
  {
    hide Fits;
    hide Total;
    hide Frequency;
    hide IsMode;
    hide Trunc;
    hide Given;
    hide Selected;
    if clients == [] {
      return Err(ClientAddressesRequired);
    }
    var limit := Min(|clients|, MAX_SUMMARY_CLIENTS);
    ghost var first, all := Considered(clients), Selected(s, agentId, Considered(clients), tag1, tag2);
    var sumWad, count := 0, 0;
    var counts := new nat[19](_ => 0);
    NothingTallied(counts[..]);
    var idx := 0;
    SelectedNone(s, agentId, first[..0], tag1, tag2);
    while idx < limit
      invariant 0 <= idx <= limit
      invariant Tallied(Selected(s, agentId, first[..idx], tag1, tag2), sumWad, count, counts[..])
    {
      ghost var fs := Selected(s, agentId, first[..idx], tag1, tag2);
      var t := TallyClient(s, agentId, clients[idx], tag1, tag2, sumWad, count, counts, fs);
      SelectedLast(s, agentId, first, idx, tag1, tag2);
      if t.Overflow? {
        SelectedGrows(s, agentId, first, idx + 1, tag1, tag2);
        BeginningOverflows(Selected(s, agentId, first[..idx + 1], tag1, tag2), all);
        return Err(t.error);
      }
      sumWad, count := t.sum, t.count;
      idx := idx + 1;
    }
    assert first[..limit] == first;
    if count == 0 {
      return Ok(SummaryResult(0, 0, 0));
    }
    var mode := FindMode(counts, all);
    ModeInRange(all, mode);
    var avgWad := Trunc(sumWad, count);
    var value := Trunc(avgWad, Pow10(18 - mode));
    TruncTwice(sumWad, count, Pow10(18 - mode));
    return Ok(SummaryResult(count, value, mode));
  }

  lemma SelectedNone(s: State, agentId: nat, clients: seq<Address>, tag1: string, tag2: string)
    requires clients == []
    ensures Selected(s, agentId, clients, tag1, tag2) == []
  {
  }

  lemma ModeInRange(fs: seq<Feedback>, m: nat)
    requires IsMode(fs, m)
    ensures m <= 18
  {
  }

  lemma BeginningOverflows(fs: seq<Feedback>, all: seq<Feedback>)
    requires fs <= all && !Fits(fs)
    ensures !Fits(all) && |fs| <= |all|
  {
    assert all == fs + all[|fs|..];
    if Fits(all) {
      FitsBeginning(fs, all[|fs|..]);
    }
  }
}
