// CRC16-XMODEM: the byte-wise loop against a one-bit shift register, and what it detects.
module Crc {
  import opened Bits

  // ---------------------------------------------------------------- the register

  const GENERATOR: bv16 := 0x1021

  function Plus(a: bv16, b: bv16): bv16 {
    a ^ b
  }

  function Double(s: bv16): bv16 {
    s << 1
  }

  function Half(s: bv16): bv16 {
    s >> 1
  }

  function Carry(s: bv16): bv16 {
    if s & 0x8000 != 0 then GENERATOR else 0
  }

  /** One shift of the register. */
  function Z(s: bv16): bv16 {
    Plus(Double(s), Carry(s))
  }

  function Bit(b: bool): bv16 {
    if b then 0x8000 else 0
  }

  function Shifts(n: nat, s: bv16): bv16 {
    if n == 0 then s else Shifts(n - 1, Z(s))
  }

  /** Feeding bits one at a time, each into the register's top bit. */
  function Feed(s: bv16, ws: Bits): bv16
    decreases ws
  {
    if ws == [] then s else Feed(Z(Plus(s, Bit(ws[0]))), ws[1..])
  }

  /** Up to 16 bits placed at the top of a register. */
  function Top(ws: Bits): bv16
    decreases ws
  {
    if ws == [] then 0 else Plus(Bit(ws[0]), Half(Top(ws[1..])))
  }

  /** A byte in the low half of a register. */
  function Wide(byte: nat): bv16 {
    Top(LowBits(byte, 8)) >> 8
  }

  // ---------------------------------------------------------------- its algebra

  lemma Comm(a: bv16, b: bv16)
    ensures Plus(a, b) == Plus(b, a)
  {
  }

  lemma Zero(a: bv16)
    ensures Plus(a, 0) == a
  {
  }

  lemma Self(a: bv16)
    ensures Plus(a, a) == 0
  {
  }

  lemma Assoc(a: bv16, b: bv16, c: bv16)
    ensures Plus(Plus(a, b), c) == Plus(a, Plus(b, c))
  {
  }

  /** Regroups a sum of two sums. */
  lemma PlusFour(a: bv16, b: bv16, c: bv16, d: bv16)
    ensures Plus(Plus(a, b), Plus(c, d)) == Plus(Plus(a, c), Plus(b, d))
  {
    hide Plus;
    Assoc(a, b, Plus(c, d));
    Assoc(b, c, d);
    Assoc(c, b, d);
    Comm(b, c);
    Assoc(a, c, Plus(b, d));
  }

  lemma CancelLast(a: bv16, b: bv16, x: bv16)
    requires Plus(a, x) == Plus(b, x)
    ensures a == b
  {
    hide Plus;
    Assoc(a, x, x);
    Assoc(b, x, x);
    Self(x);
    Zero(a);
    Zero(b);
  }

  lemma Cancel(a: bv16, b: bv16, x: bv16)
    requires Plus(x, a) == Plus(x, b)
    ensures a == b
  {
    hide Plus;
    Comm(x, a);
    Comm(x, b);
    CancelLast(a, b, x);
  }

  lemma DoubleLinear(a: bv16, b: bv16)
    ensures Double(Plus(a, b)) == Plus(Double(a), Double(b))
  {
    XorShift(a, b);
  }

  lemma XorShift(a: bv16, b: bv16)
    ensures (a ^ b) << 1 == (a << 1) ^ (b << 1)
  {
  }

  predicate HighBit(a: bv16) {
    a & 0x8000 != 0
  }

  lemma HighBitOfXor(a: bv16, b: bv16)
    ensures ((a ^ b) & 0x8000 != 0) == ((a & 0x8000 != 0) != (b & 0x8000 != 0))
  {
  }

  lemma HighBitOfSum(a: bv16, b: bv16)
    ensures HighBit(Plus(a, b)) == (HighBit(a) != HighBit(b))
  {
    HighBitOfXor(a, b);
  }

  lemma CarryOf(a: bv16)
    ensures Carry(a) == if HighBit(a) then GENERATOR else 0
  {
  }

  lemma CarryLinear(a: bv16, b: bv16)
    ensures Carry(Plus(a, b)) == Plus(Carry(a), Carry(b))
  {
    hide Carry;
    hide Plus;
    hide HighBit;
    HighBitOfSum(a, b);
    CarryOf(a);
    CarryOf(b);
    CarryOf(Plus(a, b));
    Self(GENERATOR);
    Zero(GENERATOR);
    Zero(0);
    Comm(0, GENERATOR);
  }

  lemma ZLinear(a: bv16, b: bv16)
    ensures Z(Plus(a, b)) == Plus(Z(a), Z(b))
  {
    hide Carry;
    hide Plus;
    hide Double;
    DoubleLinear(a, b);
    CarryLinear(a, b);
    PlusFour(Double(a), Double(b), Carry(a), Carry(b));
  }

  lemma ZKernel(s: bv16)
    requires Z(s) == 0
    ensures s == 0
  {
    assert (s << 1) & 1 == 0;
    assert s & 0x8000 == 0;
    assert s << 1 == 0;
  }

  lemma ZInjective(a: bv16, b: bv16)
    requires Z(a) == Z(b)
    ensures a == b
  {
    hide Z;
    hide Plus;
    ZLinear(a, b);
    Self(Z(a));
    ZKernel(Plus(a, b));
    Self(a);
    Cancel(a, b, a);
  }

  lemma {:induction false} ShiftsLinear(n: nat, a: bv16, b: bv16)
    ensures Shifts(n, Plus(a, b)) == Plus(Shifts(n, a), Shifts(n, b))
  {
    hide Z;
    hide Plus;
    if n > 0 {
      ZLinear(a, b);
      ShiftsLinear(n - 1, Z(a), Z(b));
    }
  }

  lemma {:induction false} ShiftsInjective(n: nat, a: bv16, b: bv16)
    requires Shifts(n, a) == Shifts(n, b)
    ensures a == b
  {
    hide Z;
    if n > 0 {
      ShiftsInjective(n - 1, Z(a), Z(b));
      ZInjective(a, b);
    }
  }

  // ---------------------------------------------------------------- bits at the top

  predicate Disjoint(t: bv16, r: bv16) {
    t & r == 0
  }

  predicate Even(t: bv16) {
    t & 1 == 0
  }

  /** The positions below n bits at the top. */
  function Room(n: nat): bv16 {
    if n == 0 then 0xFFFF else Half(Room(n - 1))
  }

  lemma DisjointHalf(b: bool, t: bv16, r: bv16)
    requires Disjoint(t, r)
    ensures Disjoint(Plus(Bit(b), Half(t)), Half(r))
  {
    assert (t >> 1) & (r >> 1) == (t & r) >> 1;
    assert 0x8000 & (r >> 1) == 0;
  }

  lemma {:induction false} TopLeavesRoom(ws: Bits)
    ensures Disjoint(Top(ws), Room(|ws|))
    decreases ws
  {
    hide Disjoint;
    hide Plus;
    hide Half;
    hide Bit;
    if ws != [] {
      TopLeavesRoom(ws[1..]);
      DisjointHalf(ws[0], Top(ws[1..]), Room(|ws| - 1));
    } else {
      DisjointZero();
    }
  }

  lemma DisjointZero()
    ensures Disjoint(0, 0xFFFF)
  {
  }

  lemma Rooms()
    ensures Room(1) == 0x7FFF && Room(2) == 0x3FFF && Room(3) == 0x1FFF && Room(4) == 0x0FFF
    ensures Room(5) == 0x07FF && Room(6) == 0x03FF && Room(7) == 0x01FF && Room(8) == 0x00FF
    ensures Room(9) == 0x007F && Room(10) == 0x003F && Room(11) == 0x001F && Room(12) == 0x000F
    ensures Room(13) == 0x0007 && Room(14) == 0x0003 && Room(15) == 0x0001
  {
    assert Room(4) == 0x0FFF;
    assert Room(8) == 0x00FF;
    assert Room(12) == 0x000F;
  }

  lemma EvenMask(t: bv16, r: bv16)
    requires Disjoint(t, r) && r & 1 == 1
    ensures Even(t)
  {
  }

  lemma TopIsEven(ws: Bits)
    requires |ws| <= 15
    ensures Even(Top(ws))
  {
    hide Disjoint;
    hide Even;
    hide Top;
    hide Room;
    TopLeavesRoom(ws);
    RoomIsOdd(|ws|);
    EvenMask(Top(ws), Room(|ws|));
  }

  lemma RoomIsOdd(n: nat)
    requires n <= 15
    ensures Room(n) & 1 == 1
  {
    Rooms();
  }

  lemma Peel(b: bool, t: bv16, c: bool, u: bv16)
    requires Even(t) && Even(u) && Plus(Bit(b), Half(t)) == Plus(Bit(c), Half(u))
    ensures b == c && t == u
  {
    hide Plus;
    hide Bit;
    Doubled(t);
    Doubled(u);
    TopBit(b, t >> 1);
    TopBit(c, u >> 1);
    assert b == c;
    Cancel(t >> 1, u >> 1, Bit(b));
  }

  lemma TopBit(b: bool, h: bv16)
    requires h & 0x8000 == 0
    ensures (Plus(Bit(b), h) & 0x8000 != 0) == b
  {
    XorTop(h);
  }

  lemma XorTop(h: bv16)
    requires h & 0x8000 == 0
    ensures (0x8000 ^ h) & 0x8000 == 0x8000 && 0 ^ h == h
  {
  }

  /** Different bits give different registers. */
  lemma {:induction false} TopInjective(ws: Bits, vs: Bits)
    requires |ws| == |vs| <= 16 && Top(ws) == Top(vs)
    ensures ws == vs
    decreases ws
  {
    hide Even;
    hide Plus;
    hide Half;
    hide Bit;
    if ws != [] {
      TopIsEven(ws[1..]);
      TopIsEven(vs[1..]);
      Peel(ws[0], Top(ws[1..]), vs[0], Top(vs[1..]));
      TopInjective(ws[1..], vs[1..]);
      assert ws == [ws[0]] + ws[1..] && vs == [vs[0]] + vs[1..];
    }
  }

  // ---------------------------------------------------------------- feeding

  lemma HalfShift(t: bv16)
    requires Even(t)
    ensures Z(Half(t)) == t
  {
    hide Plus;
    Doubled(t);
    Zero(t);
  }

  lemma Doubled(t: bv16)
    requires Even(t)
    ensures (t >> 1) & 0x8000 == 0 && (t >> 1) << 1 == t
  {
  }

  /** Up to sixteen bits at a time: place them at the top, then shift. */
  lemma {:induction false} FeedIsShifts(s: bv16, ws: Bits)
    requires |ws| <= 16
    ensures Feed(s, ws) == Shifts(|ws|, Plus(s, Top(ws)))
    decreases ws
  {
    hide Z;
    hide Plus;
    hide Half;
    hide Bit;
    hide Even;
    if ws == [] {
      Zero(s);
    } else {
      var b, t := Bit(ws[0]), Top(ws[1..]);
      FeedIsShifts(Z(Plus(s, b)), ws[1..]);
      TopIsEven(ws[1..]);
      HalfShift(t);
      ZLinear(Plus(s, b), Half(t));
      Assoc(s, b, Half(t));
    }
  }

  lemma {:induction false} FeedConcat(s: bv16, ws: Bits, vs: Bits)
    ensures Feed(s, ws + vs) == Feed(Feed(s, ws), vs)
    decreases ws
  {
    hide Z;
    hide Plus;
    hide Bit;
    if ws == [] {
      assert ws + vs == vs;
    } else {
      assert (ws + vs)[0] == ws[0] && (ws + vs)[1..] == ws[1..] + vs;
      FeedConcat(Z(Plus(s, Bit(ws[0]))), ws[1..], vs);
    }
  }

  lemma {:induction false} FeedInjective(s: bv16, t: bv16, ws: Bits)
    requires Feed(s, ws) == Feed(t, ws)
    ensures s == t
    decreases ws
  {
    hide Z;
    hide Plus;
    hide Bit;
    if ws != [] {
      var b := Bit(ws[0]);
      FeedInjective(Z(Plus(s, b)), Z(Plus(t, b)), ws[1..]);
      ZInjective(Plus(s, b), Plus(t, b));
      CancelLast(s, t, b);
    }
  }

  /** Any two messages that differ only within 16 adjacent bits have different checksums. */
  lemma BurstDetected(before: Bits, ws: Bits, vs: Bits, after: Bits)
    requires |ws| == |vs| <= 16
    requires Feed(0, before + ws + after) == Feed(0, before + vs + after)
    ensures ws == vs
  {
    hide Plus;
    hide Feed;
    hide Shifts;
    hide Top;
    var s := Feed(0, before);
    FeedConcat(0, before + ws, after);
    FeedConcat(0, before + vs, after);
    FeedConcat(0, before, ws);
    FeedConcat(0, before, vs);
    FeedInjective(Feed(s, ws), Feed(s, vs), after);
    FeedIsShifts(s, ws);
    FeedIsShifts(s, vs);
    ShiftsInjective(|ws|, Plus(s, Top(ws)), Plus(s, Top(vs)));
    Cancel(Top(ws), Top(vs), s);
    TopInjective(ws, vs);
  }

  // ---------------------------------------------------------------- the loop

  function Checksum(bytes: seq<nat>): bv16 {
    Feed(0, Flatten(bytes, 8))
  }

  lemma WideShifted(byte: nat)
    ensures Wide(byte) << 8 == Top(LowBits(byte, 8))
  {
    hide Top;
    hide Room;
    TopLeavesRoom(LowBits(byte, 8));
    Rooms();
    LowByteClear(Top(LowBits(byte, 8)));
  }

  lemma LowByteClear(t: bv16)
    requires t & 0x00FF == 0
    ensures (t >> 8) << 8 == t
  {
  }

  lemma {:induction false} ShiftsLast(n: nat, s: bv16)
    ensures Shifts(n + 1, s) == Z(Shifts(n, s))
  {
    hide Z;
    if n > 0 {
      ShiftsLast(n - 1, Z(s));
    }
  }

  /** crc16Xmodem: bytes into the top of the register, eight shifts each. */
  method Crc16Xmodem(data: seq<nat>) returns (crc: bv16)
    ensures crc == Checksum(data)
  {
    hide Z;
    hide Plus;
    hide Shifts;
    hide Checksum;
    hide Wide;
    crc := 0;
    var i := 0;
    NothingFed();
    while i < |data|
      invariant 0 <= i <= |data|
      invariant crc == Checksum(data[..i])
    {
      ghost var s := crc;
      crc := Plus(crc, Wide(data[i]) << 8);
      ghost var start := crc;
      NoShifts(crc);
      var bit := 0;
      while bit < 8
        invariant 0 <= bit <= 8
        invariant crc == Shifts(bit, start)
      {
        ShiftsLast(bit, start);
        ZOf(crc);
        if crc & 0x8000 != 0 {
          crc := Plus(crc << 1, GENERATOR);
        } else {
          crc := crc << 1;
        }
        bit := bit + 1;
      }
      ByteFed(data, i);
      i := i + 1;
    }
    assert data[..|data|] == data;
  }

  lemma NoShifts(s: bv16)
    ensures Shifts(0, s) == s
  {
  }

  lemma NothingFed()
    ensures Checksum([]) == 0
  {
  }

  lemma ZOf(s: bv16)
    ensures Z(s) == if s & 0x8000 != 0 then Plus(s << 1, GENERATOR) else s << 1
  {
  }

  lemma ByteFed(data: seq<nat>, i: nat)
    requires i < |data|
    ensures Checksum(data[..i + 1]) == Shifts(8, Plus(Checksum(data[..i]), Wide(data[i]) << 8))
  {
    hide Plus;
    hide Feed;
    hide Shifts;
    hide Top;
    hide Wide;
    hide LowBits;
    assert data[..i + 1][..i] == data[..i];
    var ws := LowBits(data[i], 8);
    FeedConcat(0, Flatten(data[..i], 8), ws);
    FeedIsShifts(Checksum(data[..i]), ws);
    WideShifted(data[i]);
  }

  // ---------------------------------------------------------------- a known value

  lemma TopOne(b: bool, rest: Bits)
    ensures Top([b] + rest) == Plus(Bit(b), Half(Top(rest)))
  {
    hide Plus;
    hide Half;
    hide Bit;
    assert ([b] + rest)[1..] == rest;
  }

  lemma TopFour(a: bool, b: bool, c: bool, d: bool, rest: Bits)
    ensures Top([a, b, c, d] + rest) == Plus(Bit(a), Half(Plus(Bit(b), Half(Plus(Bit(c), Half(Plus(Bit(d), Half(Top(rest)))))))))
  {
    hide *;
    TopOne(d, rest);
    TopOne(c, [d] + rest);
    TopOne(b, [c] + ([d] + rest));
    TopOne(a, [b] + ([c] + ([d] + rest)));
    assert [a, b, c, d] + rest == [a] + ([b] + ([c] + ([d] + rest)));
  }

  /** An ASCII digit's bits, 3 in the high half. */
  lemma DigitBits(a: bool, b: bool, c: bool, d: bool)
    ensures Top([false, false, true, true, a, b, c, d]) == Plus(0x3000, Plus(Bit(a) >> 4, Plus(Bit(b) >> 5, Plus(Bit(c) >> 6, Bit(d) >> 7))))
  {
    hide Top;
    assert [false, false, true, true, a, b, c, d] == [false, false, true, true] + [a, b, c, d];
    assert [a, b, c, d] == [a, b, c, d] + [];
    TopFour(false, false, true, true, [a, b, c, d]);
    TopFour(a, b, c, d, []);
    assert Top([]) == 0 by { TopOfNone(); }
  }

  lemma TopOfNone()
    ensures Top([]) == 0
  {
  }

  /** The bits of an ASCII digit: 3 in the high half, the digit in the low one. */
  lemma DigitInBits(d: nat, a: bool, b: bool, c: bool, e: bool)
    requires d < 16 && d == (if a then 8 else 0) + (if b then 4 else 0) + (if c then 2 else 0) + (if e then 1 else 0)
    ensures LowBits(48 + d, 8) == [false, false, true, true, a, b, c, e]
  {
    hide LowBits;
    LowSplit(48 + d, 4, 4);
    HighThree(48 + d);
    FourBits(48 + d, a, b, c, e, 3);
    FourBits(3, false, false, true, true, 0);
  }

  lemma HighThree(x: nat)
    requires 48 <= x < 64
    ensures Shr(x, 4) == 3
  {
    assert Shr(x, 4) == Shr(x / 2, 3);
    assert Shr(x / 2, 3) == Shr(x / 2 / 2, 2);
    assert Shr(x / 2 / 2, 2) == Shr(x / 2 / 2 / 2, 1);
    assert Shr(x / 2 / 2 / 2, 1) == Shr(x / 2 / 2 / 2 / 2, 0);
  }

  lemma OneBit(x: nat, y: nat, b: bool, n: nat)
    requires x == 2 * y + if b then 1 else 0
    ensures LowBits(x, n + 1) == LowBits(y, n) + [b]
  {
    assert x / 2 == y && (x % 2 == 1) == b;
  }

  lemma FourBits(x: nat, a: bool, b: bool, c: bool, e: bool, h: nat)
    requires x == 16 * h + (if a then 8 else 0) + (if b then 4 else 0) + (if c then 2 else 0) + (if e then 1 else 0)
    ensures LowBits(x, 4) == [a, b, c, e]
  {
    hide LowBits;
    var p: nat := 2 * h + if a then 1 else 0;
    var q: nat := 2 * p + if b then 1 else 0;
    var r: nat := 2 * q + if c then 1 else 0;
    OneBit(p, h, a, 0);
    OneBit(q, p, b, 1);
    OneBit(r, q, c, 2);
    OneBit(x, r, e, 3);
    assert LowBits(h, 0) + [a] + [b] + [c] + [e] == [a, b, c, e];
  }

  /** One digit fed to the register. */
  lemma FeedDigit(data: seq<nat>, i: nat, was: bv16, digit: bv16, now: bv16)
    requires i < |data| && Checksum(data[..i]) == was
    requires digit == Top(LowBits(data[i], 8)) && now == Shifts(8, Plus(was, digit))
    ensures Checksum(data[..i + 1]) == now
  {
    hide Checksum;
    hide Shifts;
    hide Wide;
    hide Top;
    ByteFed(data, i);
    WideShifted(data[i]);
  }

  lemma Digits()
    ensures Top(LowBits(49, 8)) == 0x3100 && Top(LowBits(50, 8)) == 0x3200 && Top(LowBits(51, 8)) == 0x3300
    ensures Top(LowBits(52, 8)) == 0x3400 && Top(LowBits(53, 8)) == 0x3500 && Top(LowBits(54, 8)) == 0x3600
    ensures Top(LowBits(55, 8)) == 0x3700 && Top(LowBits(56, 8)) == 0x3800 && Top(LowBits(57, 8)) == 0x3900
  {
    hide Top;
    hide LowBits;
    DigitInBits(1, false, false, false, true);
    DigitInBits(2, false, false, true, false);
    DigitInBits(3, false, false, true, true);
    DigitInBits(4, false, true, false, false);
    DigitInBits(5, false, true, false, true);
    DigitInBits(6, false, true, true, false);
    DigitInBits(7, false, true, true, true);
    DigitInBits(8, true, false, false, false);
    DigitInBits(9, true, false, false, true);
    DigitBits(false, false, false, true);
    DigitBits(false, false, true, false);
    DigitBits(false, false, true, true);
    DigitBits(false, true, false, false);
    DigitBits(false, true, false, true);
    DigitBits(false, true, true, false);
    DigitBits(false, true, true, true);
    DigitBits(true, false, false, false);
    DigitBits(true, false, false, true);
  }

  lemma Registers()
    ensures Shifts(8, Plus(0x0000, 0x3100)) == 0x2672 && Shifts(8, Plus(0x2672, 0x3200)) == 0x20B5
    ensures Shifts(8, Plus(0x20B5, 0x3300)) == 0x9752 && Shifts(8, Plus(0x9752, 0x3400)) == 0xD789
    ensures Shifts(8, Plus(0xD789, 0x3500)) == 0x546C && Shifts(8, Plus(0x546C, 0x3600)) == 0x20E4
    ensures Shifts(8, Plus(0x20E4, 0x3700)) == 0x86D6 && Shifts(8, Plus(0x86D6, 0x3800)) == 0x9015
    ensures Shifts(8, Plus(0x9015, 0x3900)) == 0x31C3
  {
  }

  /** The check value of CRC-16/XMODEM: the checksum of the text 123456789. */
  lemma CheckValue()
    ensures Checksum([49, 50, 51, 52, 53, 54, 55, 56, 57]) == 0x31C3
  {
    hide Checksum;
    hide Shifts;
    hide Plus;
    hide Top;
    hide LowBits;
    var text := [49, 50, 51, 52, 53, 54, 55, 56, 57];
    NothingFed();
    Digits();
    Registers();
    FeedDigit(text, 0, 0x0000, 0x3100, 0x2672);
    FeedDigit(text, 1, 0x2672, 0x3200, 0x20B5);
    FeedDigit(text, 2, 0x20B5, 0x3300, 0x9752);
    FeedDigit(text, 3, 0x9752, 0x3400, 0xD789);
    FeedDigit(text, 4, 0xD789, 0x3500, 0x546C);
    FeedDigit(text, 5, 0x546C, 0x3600, 0x20E4);
    FeedDigit(text, 6, 0x20E4, 0x3700, 0x86D6);
    FeedDigit(text, 7, 0x86D6, 0x3800, 0x9015);
    FeedDigit(text, 8, 0x9015, 0x3900, 0x31C3);
    assert text[..9] == text;
  }
}
