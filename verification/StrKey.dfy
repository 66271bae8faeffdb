// Stellar addresses (SEP-23): the validity check, and the typing errors it always catches.
module StrKey {
  import opened Basics
  import opened Bits
  import opened Base32
  import opened Crc

  const ACCOUNT_VERSION := 48
  const CONTRACT_VERSION := 16

  /** 33 payload bytes, then their checksum with its low byte first. */
  predicate ChecksumAgrees(decoded: seq<nat>)
    requires |decoded| == 35
  {
    var crc := Checksum(decoded[..33]);
    Wide(decoded[33]) == crc & 0x00FF && Wide(decoded[34]) == (crc >> 8) & 0x00FF
  }

  predicate Valid(address: string) {
    && |address| == 56 && (address[0] == 'G' || address[0] == 'C')
    && Decoded(address).Some? && |Decoded(address).value| == 35
    && Decoded(address).value[0] == (if address[0] == 'G' then ACCOUNT_VERSION else CONTRACT_VERSION)
    && ChecksumAgrees(Decoded(address).value)
  }

  method IsValidStellarAddress(address: string) returns (ok: bool)
    ensures ok == Valid(address)
  {
    hide Decoded;
    hide Checksum;
    hide Wide;
    if |address| != 56 {
      return false;
    }
    var first := address[0];
    if first != 'G' && first != 'C' {
      return false;
    }
    var decoded := Base32Decode(address);
    if decoded.None? || |decoded.value| != 35 {
      return false;
    }
    var version := if first == 'G' then ACCOUNT_VERSION else CONTRACT_VERSION;
    if decoded.value[0] != version {
      return false;
    }
    var crc := Crc16Xmodem(decoded.value[..33]);
    var check := decoded.value[33..];
    return Wide(check[0]) == crc & 0x00FF && Wide(check[1]) == (crc >> 8) & 0x00FF;
  }

  // ---------------------------------------------------------------- validity as a property of 280 bits

  /** The checksum field read as one register: high byte last on the wire. */
  function Field(ws: Bits): bv16
    requires |ws| == 16
  {
    Top(ws[8..] + ws[..8])
  }

  predicate Checked(ws: Bits) {
    |ws| == 280 && Feed(0, ws[..264]) == Field(ws[264..])
  }

  function Halves(n: nat, s: bv16): bv16 {
    if n == 0 then s else Half(Halves(n - 1, s))
  }

  lemma HalfLinear(a: bv16, b: bv16)
    ensures Half(Plus(a, b)) == Plus(Half(a), Half(b))
  {
    XorHalf(a, b);
  }

  lemma XorHalf(a: bv16, b: bv16)
    ensures (a ^ b) >> 1 == (a >> 1) ^ (b >> 1)
  {
  }

  lemma {:induction false} TopConcat(ws: Bits, vs: Bits)
    ensures Top(ws + vs) == Plus(Top(ws), Halves(|ws|, Top(vs)))
    decreases ws
  {
    hide Plus;
    hide Half;
    hide Bit;
    if ws == [] {
      assert ws + vs == vs;
      Comm(0, Top(vs));
      Zero(Top(vs));
    } else {
      assert (ws + vs)[0] == ws[0] && (ws + vs)[1..] == ws[1..] + vs;
      TopConcat(ws[1..], vs);
      var t, u := Top(ws[1..]), Halves(|ws| - 1, Top(vs));
      HalfLinear(t, u);
      Assoc(Bit(ws[0]), Half(t), Half(u));
    }
  }

  lemma OneByOne(s: bv16)
    ensures (s >> 1) >> 1 == s >> 2 && (s >> 2) >> 1 == s >> 3 && (s >> 3) >> 1 == s >> 4 && (s >> 4) >> 1 == s >> 5
    ensures (s >> 5) >> 1 == s >> 6 && (s >> 6) >> 1 == s >> 7 && (s >> 7) >> 1 == s >> 8
  {
  }

  lemma EightHalves(s: bv16)
    ensures Halves(8, s) == s >> 8
  {
    OneByOne(s);
    assert Halves(1, s) == s >> 1;
    assert Halves(2, s) == s >> 2;
    assert Halves(3, s) == s >> 3;
    assert Halves(4, s) == s >> 4;
    assert Halves(5, s) == s >> 5;
    assert Halves(6, s) == s >> 6;
    assert Halves(7, s) == s >> 7;
  }

  /** Two bytes compared with a register's halves: the same as one comparison of their 16 bits. */
  lemma BytesMatch(lo: bv16, hi: bv16, crc: bv16)
    requires lo & 0x00FF == 0 && hi & 0x00FF == 0
    requires lo >> 8 == crc & 0x00FF && hi >> 8 == (crc >> 8) & 0x00FF
    ensures hi ^ (lo >> 8) == crc
  {
  }

  predicate HalvesOf(lo: bv16, hi: bv16, crc: bv16) {
    lo >> 8 == crc & 0x00FF && hi >> 8 == (crc >> 8) & 0x00FF
  }

  lemma JoinBytes(lo: bv16, hi: bv16, crc: bv16)
    requires Disjoint(lo, 0x00FF) && Disjoint(hi, 0x00FF) && HalvesOf(lo, hi, crc)
    ensures Plus(hi, Halves(8, lo)) == crc
  {
    hide Halves;
    EightHalves(lo);
    BytesMatch(lo, hi, crc);
  }

  lemma FieldIsBytes(ws: Bits, crc: bv16)
    requires |ws| == 16 && HalvesOf(Top(ws[..8]), Top(ws[8..]), crc)
    ensures Field(ws) == crc
  {
    hide Top;
    hide Room;
    hide Halves;
    hide Plus;
    hide Disjoint;
    hide HalvesOf;
    TopConcat(ws[8..], ws[..8]);
    TopLeavesRoom(ws[8..]);
    TopLeavesRoom(ws[..8]);
    Rooms();
    JoinBytes(Top(ws[..8]), Top(ws[8..]), crc);
  }

  lemma ByteBits(bytes: seq<nat>)
    requires |bytes| == 35
    ensures var ws := Flatten(bytes, 8);
            |ws| == 280 && ws[..264] == Flatten(bytes[..33], 8)
            && ws[264..][..8] == LowBits(bytes[33], 8) && ws[264..][8..] == LowBits(bytes[34], 8)
  {
    hide LowBits;
    var p := bytes[..33];
    assert bytes[..34][..33] == p;
    FlattenLength(p, 8);
    assert Flatten(bytes[..34], 8) == Flatten(p, 8) + LowBits(bytes[33], 8);
    assert Flatten(bytes, 8) == Flatten(bytes[..34], 8) + LowBits(bytes[34], 8);
  }

  lemma ValidIsChecked(address: string)
    requires Valid(address)
    ensures Spelled(address) && Checked(TextBits(address))
  {
    hide TextBits;
    hide Flatten;
    hide Top;
    hide Feed;
    hide LowBits;
    hide Field;
    AddressDecodes(address);
    var bytes := Decoded(address).value;
    ByteBits(bytes);
    FieldIsBytes(TextBits(address)[264..], Checksum(bytes[..33]));
  }

  // ---------------------------------------------------------------- windows of bits

  /** Checked strings that agree on the payload agree on the checksum. */
  lemma SamePayload(x: Bits, y: Bits)
    requires Checked(x) && Checked(y) && x[..264] == y[..264]
    ensures x == y
  {
    hide Feed;
    hide Top;
    var c, d := x[264..], y[264..];
    TopInjective(c[8..] + c[..8], d[8..] + d[..8]);
    assert c[8..] == (c[8..] + c[..8])[..8] && c[..8] == (c[8..] + c[..8])[8..];
    assert d[8..] == (d[8..] + d[..8])[..8] && d[..8] == (d[8..] + d[..8])[8..];
    assert c == c[..8] + c[8..] && d == d[..8] + d[8..];
    assert x == x[..264] + c && y == y[..264] + d;
  }

  /** A change within at most 16 adjacent bits of the payload, or of the checksum, is caught. */
  lemma WindowDetected(a: Bits, w: Bits, v: Bits, c: Bits)
    requires |w| == |v| <= 16 && Checked(a + w + c) && Checked(a + v + c)
    requires |a| + |w| <= 264 || |a| >= 264
    ensures w == v
  {
    hide Feed;
    hide Field;
    var x, y := a + w + c, a + v + c;
    if |a| + |w| <= 264 {
      var n := 264 - |a| - |w|;
      assert x[..264] == a + w + c[..n] && y[..264] == a + v + c[..n];
      assert x[264..] == c[n..] && y[264..] == c[n..];
      BurstDetected(a, w, v, c[..n]);
    } else {
      assert x[..264] == a[..264] && y[..264] == a[..264];
      SamePayload(x, y);
      assert x[|a|..|a| + |w|] == w && y[|a|..|a| + |w|] == v;
    }
  }

  // ---------------------------------------------------------------- across the payload/checksum boundary

  function Diff(w: Bits, v: Bits): (d: Bits)
    requires |w| == |v|
    ensures |d| == |w|
  {
    seq(|w|, i requires 0 <= i < |w| => w[i] != v[i])
  }

  lemma {:induction false} TopDiff(w: Bits, v: Bits)
    requires |w| == |v|
    ensures Top(Diff(w, v)) == Plus(Top(w), Top(v))
    decreases w
  {
    hide Plus;
    hide Half;
    hide Bit;
    if w == [] {
      Zero(0);
    } else {
      TopDiff(w[1..], v[1..]);
      assert Diff(w, v)[1..] == Diff(w[1..], v[1..]);
      HalfLinear(Top(w[1..]), Top(v[1..]));
      PlusFour(Bit(w[0]), Half(Top(w[1..])), Bit(v[0]), Half(Top(v[1..])));
      BitDiff(w[0], v[0]);
    }
  }

  lemma BitDiff(b: bool, c: bool)
    ensures Bit(b != c) == Plus(Bit(b), Bit(c))
  {
  }

  lemma {:induction false} HalvesLinear(n: nat, a: bv16, b: bv16)
    ensures Halves(n, Plus(a, b)) == Plus(Halves(n, a), Halves(n, b))
  {
    hide Plus;
    hide Half;
    if n > 0 {
      HalvesLinear(n - 1, a, b);
      HalfLinear(Halves(n - 1, a), Halves(n - 1, b));
    }
  }

  /** The checksum register of a field whose low byte starts with w: what a change of w changes. */
  lemma FieldDiff(w: Bits, v: Bits, c: Bits)
    requires |w| == |v| <= 8 && |w| + |c| == 16
    ensures Plus(Field(w + c), Field(v + c)) == Halves(8, Top(Diff(w, v)))
  {
    hide Plus;
    hide Top;
    hide Halves;
    hide Diff;
    var hi, rest := c[8 - |w|..], c[..8 - |w|];
    assert (w + c)[8..] == hi && (w + c)[..8] == w + rest && (v + c)[8..] == hi && (v + c)[..8] == v + rest;
    TopConcat(hi, w + rest);
    TopConcat(hi, v + rest);
    TopConcat(w, rest);
    TopConcat(v, rest);
    var h, x, y, r := Top(hi), Top(w), Top(v), Halves(|w|, Top(rest));
    PlusFour(h, Halves(8, Plus(x, r)), h, Halves(8, Plus(y, r)));
    HalvesLinear(8, Plus(x, r), Plus(y, r));
    PlusFour(x, r, y, r);
    Self(h);
    Self(r);
    Zero(Plus(x, y));
    Comm(0, Halves(8, Plus(x, y)));
    Zero(Halves(8, Plus(x, y)));
    TopDiff(w, v);
  }

  /** A change that straddles the boundary goes unnoticed only if its two parts cancel. */
  lemma Straddle(a: Bits, w: Bits, v: Bits, c: Bits, n: nat)
    requires Checked(a + w + c) && Checked(a + v + c)
    requires |w| == |v| && |a| + n == 264 && n <= 16 && n <= |w| <= n + 8
    ensures Shifts(n, Top(Diff(w[..n], v[..n]))) == Halves(8, Top(Diff(w[n..], v[n..])))
  {
    hide Plus;
    hide Top;
    hide Halves;
    hide Diff;
    hide Feed;
    hide Shifts;
    hide Field;
    var x, y := a + w + c, a + v + c;
    var p, q := w[..n], v[..n];
    assert x[..264] == a + p && y[..264] == a + q;
    assert x[264..] == w[n..] + c && y[264..] == v[n..] + c;
    var s := Feed(0, a);
    FeedConcat(0, a, p);
    FeedConcat(0, a, q);
    FeedIsShifts(s, p);
    FeedIsShifts(s, q);
    ShiftsLinear(n, Plus(s, Top(p)), Plus(s, Top(q)));
    PlusFour(s, Top(p), s, Top(q));
    Self(s);
    Comm(0, Plus(Top(p), Top(q)));
    Zero(Plus(Top(p), Top(q)));
    TopDiff(p, q);
    FieldDiff(w[n..], v[n..], c);
  }

  // ---------------------------------------------------------------- no cancellation

  /** Where n shifts take the bit at position i. */
  function Image(n: nat, i: nat): bv16 {
    Shifts(n, Halves(i, 0x8000))
  }

  function Sel(b: bool, k: bv16): bv16 {
    if b then k else 0
  }

  function Sum(ws: Bits, n: nat, i: nat): bv16
    decreases ws
  {
    if ws == [] then 0 else Plus(Sel(ws[0], Image(n, i)), Sum(ws[1..], n, i + 1))
  }

  lemma {:induction false} HalvesFirst(n: nat, s: bv16)
    ensures Halves(n, Half(s)) == Halves(n + 1, s)
  {
    hide Half;
    if n > 0 {
      HalvesFirst(n - 1, s);
    }
  }

  lemma {:induction false} ShiftsOfZero(n: nat)
    ensures Shifts(n, 0) == 0
  {
    hide Z;
    if n > 0 {
      ZOfZero();
      ShiftsOfZero(n - 1);
    }
  }

  lemma ZOfZero()
    ensures Z(0) == 0
  {
  }

  lemma {:induction false} HalvesOfZero(n: nat)
    ensures Halves(n, 0) == 0
  {
    if n > 0 {
      HalvesOfZero(n - 1);
    }
  }

  lemma SelImage(b: bool, n: nat, i: nat)
    ensures Shifts(n, Halves(i, Bit(b))) == Sel(b, Image(n, i))
  {
    hide Shifts;
    hide Halves;
    ShiftsOfZero(n);
    HalvesOfZero(i);
  }

  /** Shifts of bits placed from position i on are the sum of the images of the bits set. */
  lemma {:induction false} SumOfImages(ws: Bits, n: nat, i: nat)
    ensures Shifts(n, Halves(i, Top(ws))) == Sum(ws, n, i)
    decreases ws
  {
    hide Plus;
    hide Half;
    hide Bit;
    hide Shifts;
    hide Halves;
    hide Sel;
    hide Image;
    if ws == [] {
      HalvesOfZero(i);
      ShiftsOfZero(n);
    } else {
      var b, t := Bit(ws[0]), Top(ws[1..]);
      SumOfImages(ws[1..], n, i + 1);
      HalvesLinear(i, b, Half(t));
      HalvesFirst(i, t);
      ShiftsLinear(n, Halves(i, b), Halves(i + 1, t));
      SelImage(ws[0], n, i);
    }
  }

  lemma Images()
    ensures Image(4, 0) == 0x8108 && Image(4, 1) == 0x4084 && Image(4, 2) == 0x2042 && Image(4, 3) == 0x1021
    ensures Image(9, 0) == 0x3331 && Image(9, 1) == 0x9188 && Image(9, 2) == 0x48C4 && Image(9, 3) == 0x2462 && Image(9, 4) == 0x1231
    ensures Image(9, 5) == 0x8108 && Image(9, 6) == 0x4084 && Image(9, 7) == 0x2042 && Image(9, 8) == 0x1021
    ensures Image(0, 8) == 0x0080 && Image(0, 9) == 0x0040 && Image(0, 10) == 0x0020
    ensures Image(0, 11) == 0x0010 && Image(0, 12) == 0x0008 && Image(0, 13) == 0x0004
  {
  }

  lemma NoOps(s: bv16)
    ensures Shifts(0, s) == s && Halves(0, s) == s
  {
  }

  lemma SumAt(ws: Bits, k: nat, n: nat, i: nat)
    requires k <= |ws|
    ensures Sum(ws[k..], n, i + k) == if k == |ws| then 0 else Plus(Sel(ws[k], Image(n, i + k)), Sum(ws[k + 1..], n, i + k + 1))
  {
    hide Sel;
    hide Image;
    hide Plus;
    if k < |ws| {
      assert ws[k..][1..] == ws[k + 1..];
    }
  }

  /** The first four terms of a sum. */
  lemma SumFour(ws: Bits, k: nat, n: nat, i: nat)
    requires k + 4 <= |ws|
    ensures Sum(ws[k..], n, i + k) ==
            Plus(Sel(ws[k], Image(n, i + k)), Plus(Sel(ws[k + 1], Image(n, i + k + 1)),
            Plus(Sel(ws[k + 2], Image(n, i + k + 2)), Plus(Sel(ws[k + 3], Image(n, i + k + 3)), Sum(ws[k + 4..], n, i + k + 4)))))
  {
    hide Sel;
    hide Image;
    hide Plus;
    hide Sum;
    SumAt(ws, k, n, i);
    SumAt(ws, k + 1, n, i);
    SumAt(ws, k + 2, n, i);
    SumAt(ws, k + 3, n, i);
  }

  /** One character across the boundary: four payload bits and the first checksum bit. */
  lemma NoSingle(a: bool, b: bool, c: bool, d: bool, e: bool)
    requires Shifts(4, Top([a, b, c, d])) == Halves(8, Top([e]))
    ensures !a && !b && !c && !d && !e
  {
    hide Shifts;
    hide Halves;
    hide Image;
    hide Top;
    hide Plus;
    hide Sel;
    hide Sum;
    var ws, vs := [a, b, c, d], [e];
    assert ws[0..] == ws && vs[0..] == vs;
    Images();
    SumOfImages(ws, 4, 0);
    SumOfImages(vs, 0, 8);
    NoOps(Top(ws));
    NoOps(Halves(8, Top(vs)));
    SumFour(ws, 0, 4, 0);
    SumAt(ws, 4, 4, 0);
    SumAt(vs, 0, 0, 8);
    SumAt(vs, 1, 0, 8);
    NoSingleBits(a, b, c, d, e);
  }

  lemma NoSingleBits(a: bool, b: bool, c: bool, d: bool, e: bool)
    requires Plus(Sel(a, 0x8108), Plus(Sel(b, 0x4084), Plus(Sel(c, 0x2042), Plus(Sel(d, 0x1021), 0))))
          == Plus(Sel(e, 0x0080), 0)
    ensures !a && !b && !c && !d && !e
  {
  }

  /** Two adjacent characters, the second across the boundary. */
  lemma NoSwapBefore(a: bool, b: bool, c: bool, d: bool, e: bool)
    requires Shifts(9, Top([a, b, c, d, e, a, b, c, d])) == Halves(8, Top([e]))
    ensures !a && !b && !c && !d && !e
  {
    hide Shifts;
    hide Halves;
    hide Image;
    hide Top;
    hide Plus;
    hide Sel;
    hide Sum;
    var ws, vs := [a, b, c, d, e, a, b, c, d], [e];
    assert ws[0..] == ws && vs[0..] == vs;
    Images();
    SumOfImages(ws, 9, 0);
    SumOfImages(vs, 0, 8);
    NoOps(Top(ws));
    NoOps(Halves(8, Top(vs)));
    SumFour(ws, 0, 9, 0);
    SumFour(ws, 4, 9, 0);
    SumAt(ws, 8, 9, 0);
    SumAt(ws, 9, 9, 0);
    SumAt(vs, 0, 0, 8);
    SumAt(vs, 1, 0, 8);
    NoSwapBeforeBits(a, b, c, d, e);
  }

  lemma NoSwapBeforeBits(a: bool, b: bool, c: bool, d: bool, e: bool)
    requires Plus(Sel(a, 0x3331), Plus(Sel(b, 0x9188), Plus(Sel(c, 0x48C4), Plus(Sel(d, 0x2462), Plus(Sel(e, 0x1231),
             Plus(Sel(a, 0x8108), Plus(Sel(b, 0x4084), Plus(Sel(c, 0x2042), Plus(Sel(d, 0x1021), 0)))))))))
          == Plus(Sel(e, 0x0080), 0)
    ensures !a && !b && !c && !d && !e
  {
  }

  /** Two adjacent characters, the first across the boundary. */
  lemma NoSwapAfter(a: bool, b: bool, c: bool, d: bool, e: bool)
    requires Shifts(4, Top([a, b, c, d])) == Halves(8, Top([e, a, b, c, d, e]))
    ensures !a && !b && !c && !d && !e
  {
    hide Shifts;
    hide Halves;
    hide Image;
    hide Top;
    hide Plus;
    hide Sel;
    hide Sum;
    var ws, vs := [a, b, c, d], [e, a, b, c, d, e];
    assert ws[0..] == ws && vs[0..] == vs;
    Images();
    SumOfImages(ws, 4, 0);
    SumOfImages(vs, 0, 8);
    NoOps(Top(ws));
    NoOps(Halves(8, Top(vs)));
    SumFour(ws, 0, 4, 0);
    SumAt(ws, 4, 4, 0);
    SumFour(vs, 0, 0, 8);
    SumAt(vs, 4, 0, 8);
    SumAt(vs, 5, 0, 8);
    SumAt(vs, 6, 0, 8);
    NoSwapAfterBits(a, b, c, d, e);
  }

  lemma NoSwapAfterBits(a: bool, b: bool, c: bool, d: bool, e: bool)
    requires Plus(Sel(a, 0x8108), Plus(Sel(b, 0x4084), Plus(Sel(c, 0x2042), Plus(Sel(d, 0x1021), 0))))
          == Plus(Sel(e, 0x0080), Plus(Sel(a, 0x0040), Plus(Sel(b, 0x0020), Plus(Sel(c, 0x0010), Plus(Sel(d, 0x0008), Plus(Sel(e, 0x0004), 0))))))
    ensures !a && !b && !c && !d && !e
  {
  }

  // ---------------------------------------------------------------- typing errors

  function CharBits(c: char): Bits
    requires IndexOf(c).Some?
  {
    LowBits(IndexOf(c).value, 5)
  }

  lemma CharBitsInjective(c: char, d: char)
    requires IndexOf(c).Some? && IndexOf(d).Some? && CharBits(c) == CharBits(d)
    ensures c == d
  {
    assert Pow2(5) == 32;
    FromLow(IndexOf(c).value, 5);
    FromLow(IndexOf(d).value, 5);
    IndexLetter(c);
    IndexLetter(d);
  }

  lemma TextConcat(p: string, q: string)
    requires Spelled(p + q)
    ensures Spelled(p) && Spelled(q) && TextBits(p + q) == TextBits(p) + TextBits(q)
    ensures |TextBits(p)| == 5 * |p|
  {
    hide Flatten;
    hide IndexOf;
    assert forall i | 0 <= i < |p| :: (p + q)[i] == p[i];
    assert forall i | 0 <= i < |q| :: (p + q)[|p| + i] == q[i];
    assert Indices(p + q) == Indices(p) + Indices(q);
    FlattenConcat(Indices(p), Indices(q), 5);
    FlattenLength(Indices(p), 5);
  }

  lemma CharText(c: char)
    requires Spelled([c])
    ensures IndexOf(c).Some? && TextBits([c]) == CharBits(c)
  {
    assert IndexOf([c][0]).Some?;
    assert Indices([c]) == [IndexOf(c).value];
    FlattenOne(IndexOf(c).value, 5);
  }

  lemma AroundChar(p: string, c: char, q: string)
    requires Spelled(p + [c] + q)
    ensures Spelled(p) && Spelled(q) && IndexOf(c).Some? && |TextBits(p)| == 5 * |p|
    ensures TextBits(p + [c] + q) == TextBits(p) + CharBits(c) + TextBits(q)
  {
    hide TextBits;
    hide CharBits;
    TextConcat(p + [c], q);
    TextConcat(p, [c]);
    CharText(c);
  }

  lemma DiffNone(w: Bits, v: Bits)
    requires |w| == |v| == 5
    requires var d := Diff(w, v); !d[0] && !d[1] && !d[2] && !d[3] && !d[4]
    ensures w == v
  {
    assert forall i | 0 <= i < 5 :: w[i] == v[i] by {
      var d := Diff(w, v);
      assert d[0] == (w[0] != v[0]) && d[1] == (w[1] != v[1]) && d[2] == (w[2] != v[2]) && d[3] == (w[3] != v[3]) && d[4] == (w[4] != v[4]);
    }
  }

  /** Two checked strings that differ in one five-bit group at most do not differ. */
  lemma OneGroup(a: Bits, w: Bits, v: Bits, c: Bits, i: nat)
    requires |w| == |v| == 5 && |a| == 5 * i && Checked(a + w + c) && Checked(a + v + c)
    ensures w == v
  {
    hide Checked;
    hide Diff;
    hide Top;
    hide Shifts;
    hide Halves;
    if i != 52 {
      WindowDetected(a, w, v, c);
    } else {
      Straddle(a, w, v, c, 4);
      DiffSlices(w, v, 4);
      var d := Diff(w, v);
      assert d[..4] == [d[0], d[1], d[2], d[3]] && d[4..] == [d[4]];
      NoSingle(d[0], d[1], d[2], d[3], d[4]);
      DiffNone(w, v);
    }
  }

  lemma DiffSlices(w: Bits, v: Bits, n: nat)
    requires |w| == |v| && n <= |w|
    ensures Diff(w[..n], v[..n]) == Diff(w, v)[..n] && Diff(w[n..], v[n..]) == Diff(w, v)[n..]
  {
  }

  lemma DiffSwapped(w: Bits, v: Bits)
    requires |w| == |v|
    ensures Diff(w + v, v + w) == Diff(w, v) + Diff(w, v)
  {
  }

  /** Two checked strings that differ by a swap of two adjacent five-bit groups do not differ. */
  lemma TwoGroups(a: Bits, w: Bits, v: Bits, c: Bits, i: nat)
    requires |w| == |v| == 5 && |a| == 5 * i && Checked(a + (w + v) + c) && Checked(a + (v + w) + c)
    ensures w == v
  {
    hide Checked;
    hide Diff;
    hide Top;
    hide Shifts;
    hide Halves;
    var d := Diff(w, v);
    if i != 51 && i != 52 {
      WindowDetected(a, w + v, v + w, c);
      assert w == (w + v)[..5] && v == (v + w)[..5];
    } else {
      DiffSwapped(w, v);
      if i == 51 {
        Straddle(a, w + v, v + w, c, 9);
        DiffSlices(w + v, v + w, 9);
        assert (d + d)[..9] == [d[0], d[1], d[2], d[3], d[4], d[0], d[1], d[2], d[3]] && (d + d)[9..] == [d[4]];
        NoSwapBefore(d[0], d[1], d[2], d[3], d[4]);
      } else {
        Straddle(a, w + v, v + w, c, 4);
        DiffSlices(w + v, v + w, 4);
        assert (d + d)[..4] == [d[0], d[1], d[2], d[3]] && (d + d)[4..] == [d[4], d[0], d[1], d[2], d[3], d[4]];
        NoSwapAfter(d[0], d[1], d[2], d[3], d[4]);
      }
      DiffNone(w, v);
    }
  }

  /** Changing any one character of a valid address makes it invalid. */
  lemma SingleErrorDetected(address: string, i: nat, c: char)
    requires Valid(address) && i < 56 && c != address[i]
    ensures !Valid(address[i := c])
  {
    hide Valid;
    Length(address);
    var p, q := address[..i], address[i + 1..];
    assert address == p + [address[i]] + q && address[i := c] == p + [c] + q;
    if Valid(address[i := c]) {
      SameCharacter(p, address[i], c, q);
    }
  }

  lemma Length(address: string)
    requires Valid(address)
    ensures |address| == 56
  {
  }

  lemma SameCharacter(p: string, c: char, d: char, q: string)
    requires Valid(p + [c] + q) && Valid(p + [d] + q)
    ensures c == d
  {
    hide Valid;
    hide Checked;
    hide TextBits;
    hide CharBits;
    ValidIsChecked(p + [c] + q);
    ValidIsChecked(p + [d] + q);
    AroundChar(p, c, q);
    AroundChar(p, d, q);
    BitsOfChars(c, d);
    OneGroup(TextBits(p), CharBits(c), CharBits(d), TextBits(q), |p|);
    CharBitsInjective(c, d);
  }

  lemma BitsOfChars(c: char, d: char)
    requires IndexOf(c).Some? && IndexOf(d).Some?
    ensures |CharBits(c)| == |CharBits(d)| == 5
  {
  }

  /** Swapping two adjacent different characters of a valid address makes it invalid. */
  lemma SwapDetected(address: string, i: nat)
    requires Valid(address) && i + 1 < 56 && address[i] != address[i + 1]
    ensures !Valid(address[i := address[i + 1]][i + 1 := address[i]])
  {
    hide Valid;
    Length(address);
    var p, q, c, d := address[..i], address[i + 2..], address[i], address[i + 1];
    var swapped := address[i := d][i + 1 := c];
    assert address == p + [c] + ([d] + q) && swapped == p + [d] + ([c] + q);
    if Valid(swapped) {
      SwappedSame(p, c, d, q);
    }
  }

  lemma AroundTwo(p: string, c: char, d: char, q: string)
    requires Spelled(p + [c] + ([d] + q))
    ensures Spelled(p) && Spelled(q) && IndexOf(c).Some? && IndexOf(d).Some? && |TextBits(p)| == 5 * |p|
    ensures TextBits(p + [c] + ([d] + q)) == TextBits(p) + (CharBits(c) + CharBits(d)) + TextBits(q)
  {
    hide TextBits;
    hide CharBits;
    AroundChar(p, c, [d] + q);
    assert [] + [d] + q == [d] + q;
    AroundChar([], d, q);
    assert TextBits([] + [d] + q) == CharBits(d) + TextBits(q);
  }

  lemma SwappedSame(p: string, c: char, d: char, q: string)
    requires Valid(p + [c] + ([d] + q)) && Valid(p + [d] + ([c] + q))
    ensures c == d
  {
    hide Valid;
    hide Checked;
    hide TextBits;
    hide CharBits;
    ValidIsChecked(p + [c] + ([d] + q));
    ValidIsChecked(p + [d] + ([c] + q));
    AroundTwo(p, c, d, q);
    AroundTwo(p, d, c, q);
    BitsOfChars(c, d);
    TwoGroups(TextBits(p), CharBits(c), CharBits(d), TextBits(q), |p|);
    CharBitsInjective(c, d);
  }

  // ---------------------------------------------------------------- every key has its addresses

  predicate IsKey(key: seq<nat>) {
    |key| == 32 && forall i :: 0 <= i < 32 ==> key[i] < 256
  }

  /** The address is valid, starts with the letter and carries the key. */
  predicate Names(address: string, first: char, key: seq<nat>) {
    Valid(address) && address[0] == first && Decoded(address).value[1..33] == key
  }

  /** Any bits of the top n positions are the bits of some string. */
  lemma {:induction false} BitsOf(n: nat, v: bv16) returns (ws: Bits)
    requires Disjoint(v, Room(n))
    ensures |ws| == n && Top(ws) == v
  {
    hide Plus;
    hide Half;
    hide Bit;
    hide Disjoint;
    if n == 0 {
      NothingAtTop(v);
      ws := [];
    } else {
      RoomBelow(v, Room(n - 1));
      var rest := BitsOf(n - 1, v << 1);
      ws := [v & 0x8000 != 0] + rest;
      assert ws[1..] == rest;
      TopFirst(v);
    }
  }

  lemma NothingAtTop(v: bv16)
    requires Disjoint(v, 0xFFFF)
    ensures v == 0
  {
  }

  lemma RoomBelow(v: bv16, r: bv16)
    requires Disjoint(v, Half(r))
    ensures Disjoint(v << 1, r)
  {
  }

  lemma TopFirst(v: bv16)
    ensures Plus(Bit(v & 0x8000 != 0), Half(v << 1)) == v
  {
  }

  lemma ByteAtTop(v: bv16)
    requires v <= 0x00FF
    ensures Disjoint(v << 8, 0x00FF) && (v << 8) >> 8 == v
  {
  }

  /** Every low half of a register is one byte. */
  lemma ByteFor(v: bv16) returns (byte: nat)
    requires v <= 0x00FF
    ensures byte < 256 && Wide(byte) == v
  {
    hide Disjoint;
    hide Top;
    hide Room;
    hide LowBits;
    hide FromBits;
    ByteAtTop(v);
    Rooms();
    var ws := BitsOf(8, v << 8);
    LowFrom(ws);
    assert Pow2(8) == 256;
    byte := FromBits(ws);
  }

  lemma WideInjective(a: nat, b: nat)
    requires a < 256 && b < 256 && Wide(a) == Wide(b)
    ensures a == b
  {
    hide Wide;
    hide Top;
    hide LowBits;
    WideShifted(a);
    WideShifted(b);
    TopInjective(LowBits(a, 8), LowBits(b, 8));
    assert Pow2(8) == 256;
    FromLow(a, 8);
    FromLow(b, 8);
  }

  lemma FirstOfFlat(xs: seq<nat>, k: nat)
    requires xs != []
    ensures |Flatten(xs, k)| >= k && Flatten(xs, k)[..k] == LowBits(xs[0], k)
  {
    hide LowBits;
    hide Flatten;
    assert xs == [xs[0]] + xs[1..];
    FlattenConcat([xs[0]], xs[1..], k);
    FlattenOne(xs[0], k);
  }

  /** The first character is the letter of the first five bits. */
  lemma FirstCharacter(address: string, high: nat)
    requires |address| == 56 && Spelled(address) && high < 32
    requires Decoded(address).Some? && |Decoded(address).value| == 35
    requires LowBits(Decoded(address).value[0], 8)[..5] == LowBits(high, 5)
    ensures IndexOf(address[0]) == Some(high)
  {
    hide LowBits;
    hide Flatten;
    hide Decoded;
    AddressDecodes(address);
    var bytes, xs := Decoded(address).value, Indices(address);
    FirstOfFlat(bytes, 8);
    FirstOfFlat(xs, 5);
    var ws := TextBits(address);
    assert ws[..8][..5] == ws[..5];
    assert Pow2(5) == 32;
    FromLow(xs[0], 5);
    FromLow(high, 5);
  }

  lemma VersionLetters()
    ensures LowBits(48, 8)[..5] == LowBits(6, 5) && LowBits(16, 8)[..5] == LowBits(2, 5)
    ensures IndexOf('G') == Some(6) && IndexOf('C') == Some(2)
  {
    LowSplit(48, 5, 3);
    LowSplit(16, 5, 3);
    assert Shr(48, 3) == 6 && Shr(16, 3) == 2;
  }

  /** An address of the key that starts with the letter. */
  lemma AddressFor(first: char, key: seq<nat>) returns (address: string)
    requires IsKey(key) && (first == 'G' || first == 'C')
    ensures Names(address, first, key)
  {
    hide LowBits;
    hide Flatten;
    hide Decoded;
    hide Encoded;
    hide Feed;
    hide Wide;
    var body := [if first == 'G' then 48 else 16] + key;
    var crc := Checksum(body);
    var low := ByteFor(crc & 0x00FF);
    var high := ByteFor((crc >> 8) & 0x00FF);
    var bytes := body + [low, high];
    assert bytes[..33] == body && bytes[1..33] == key && bytes[33] == low && bytes[34] == high;
    DecodeEncoded(bytes);
    EncodedBits(bytes);
    address := Encoded(bytes);
    VersionLetters();
    FirstCharacter(address, if first == 'G' then 6 else 2);
    IndexLetter(address[0]);
    IndexLetter(first);
  }

  lemma SameKeySameAddress(a: string, b: string, first: char, key: seq<nat>)
    requires Names(a, first, key) && Names(b, first, key)
    ensures a == b
  {
    hide Decoded;
    hide Encoded;
    hide Feed;
    hide Wide;
    hide Flatten;
    ValidIsSpelled(a);
    ValidIsSpelled(b);
    EncodeDecoded(a);
    EncodeDecoded(b);
    var x, y := Decoded(a).value, Decoded(b).value;
    assert x[..33] == [x[0]] + x[1..33] && y[..33] == [y[0]] + y[1..33];
    WideInjective(x[33], y[33]);
    WideInjective(x[34], y[34]);
    assert x == x[..33] + [x[33], x[34]] && y == y[..33] + [y[33], y[34]];
  }

  lemma ValidIsSpelled(address: string)
    requires Valid(address)
    ensures Spelled(address)
  {
    hide ChecksumAgrees;
  }

  /** For every key of 32 bytes exactly one valid address starts with G, and exactly one with C. */
  lemma OneAddressPerKey(first: char, key: seq<nat>) returns (address: string)
    requires |key| == 32 && (forall i :: 0 <= i < 32 ==> key[i] < 256) && (first == 'G' || first == 'C')
    ensures Names(address, first, key) && forall other :: Names(other, first, key) ==> other == address
    ensures Valid(address) && address[0] == first && Decoded(address).value[1..33] == key
  {
    address := AddressFor(first, key);
    hide Names;
    forall other | Names(other, first, key) ensures other == address {
      SameKeySameAddress(other, address, first, key);
    }
  }
}
