// Base32 as StrKey uses it: the 32-bit accumulator of the decoder against bit strings.
module Base32 {
  import opened Basics
  import opened Bits

  /** A character's place in the alphabet A..Z, 2..7. */
  function IndexOf(c: char): (i: Option<nat>)
    ensures i.Some? ==> i.value < 32
  {
    if 'A' <= c <= 'Z' then Some((c as int) - ('A' as int))
    else if '2' <= c <= '7' then Some((c as int) - ('2' as int) + 26)
    else None
  }

  function Letter(i: nat): char
    requires i < 32
  {
    if i < 26 then (i + ('A' as int)) as char else (i - 26 + ('2' as int)) as char
  }

  /** The alphabet of RFC 4648, and nothing outside it. */
  lemma Alphabet(c: char, i: nat)
    ensures IndexOf(c) == Some(i) <==> i < 32 && "ABCDEFGHIJKLMNOPQRSTUVWXYZ234567"[i] == c
  {
  }

  lemma LetterIndex(i: nat)
    requires i < 32
    ensures IndexOf(Letter(i)) == Some(i)
  {
  }

  lemma IndexLetter(c: char)
    requires IndexOf(c).Some?
    ensures Letter(IndexOf(c).value) == c
  {
  }

  predicate Spelled(text: string) {
    forall i :: 0 <= i < |text| ==> IndexOf(text[i]).Some?
  }

  function Indices(text: string): (xs: seq<nat>)
    requires Spelled(text)
    ensures |xs| == |text| && forall i :: 0 <= i < |xs| ==> xs[i] < 32 && IndexOf(text[i]) == Some(xs[i])
  {
    seq(|text|, i requires 0 <= i < |text| => IndexOf(text[i]).value)
  }

  function TextBits(text: string): Bits
    requires Spelled(text)
  {
    Flatten(Indices(text), 5)
  }

  /** The bytes of a text: its bits in eights; bits left over must be zero. */
  function Decoded(text: string): Option<seq<nat>> {
    if !Spelled(text) then None
    else
      var ws := TextBits(text);
      var whole := |ws| - |ws| % 8;
      if true in ws[whole..] then None else Some(Group(ws[..whole], 8))
  }

  function Encoded(bytes: seq<nat>): (text: string)
    requires forall i :: 0 <= i < |bytes| ==> bytes[i] < 256
    requires |bytes| == 35
  {
    var ws := Flatten(bytes, 8);
    FlattenLength(bytes, 8);
    FlattenGroup(ws, 5, 56);
    assert Pow2(5) == 32;
    var xs := Group(ws, 5);
    seq(|xs|, i requires 0 <= i < |xs| => Letter(xs[i]))
  }

  // ---------------------------------------------------------------- the loop

  /** After some characters: whole bytes are out, the rest sits in the low bits of the accumulator. */
  ghost predicate Holding(ws: Bits, bytes: seq<nat>, value: nat, bits: nat) {
    && bits < 8 && 8 * |bytes| + bits == |ws|
    && bytes == Group(ws[..8 * |bytes|], 8)
    && LowBits(value, bits) == ws[8 * |bytes|..]
  }

  lemma Shifted(value: nat, index: nat, bits: nat)
    requires index < 32 && bits < 8
    ensures LowBits((value * 32 + index) % 0x1_0000_0000, bits + 5) == LowBits(value, bits) + LowBits(index, 5)
  {
    assert Pow2(5) == 32;
    PowThirtyTwo();
    LowWrap(value * 32 + index, bits + 5, 32);
    assert Shl(value, 1) == value * 2;
    assert Shl(value, 2) == value * 4;
    assert Shl(value, 3) == value * 8;
    assert Shl(value, 4) == value * 16;
    assert Shl(value, 5) == value * 32;
    LowJoin(value, index, bits, 5);
  }

  lemma PowThirtyTwo()
    ensures Pow2(32) == 0x1_0000_0000
  {
    assert Pow2(8) == 0x100;
    assert Pow2(16) == 0x1_0000;
    assert Pow2(24) == 0x100_0000;
  }

  /** Eight or more bits held: the top eight of them are the next byte. */
  lemma ByteOut(value: nat, bits: nat)
    requires 8 <= bits <= 12
    ensures LowBits(value, bits) == LowBits(Shr(value, bits - 8) % 256, 8) + LowBits(value, bits - 8)
    ensures FromBits(LowBits(value, bits)[..8]) == Shr(value, bits - 8) % 256
  {
    assert Pow2(8) == 256;
    LowSplit(value, 8, bits - 8);
    LowWrap(Shr(value, bits - 8), 8, 8);
    FromLow(Shr(value, bits - 8) % 256, 8);
    assert LowBits(value, bits)[..8] == LowBits(Shr(value, bits - 8) % 256, 8);
  }

  lemma HoldingNext(ws: Bits, bytes: seq<nat>, value: nat, bits: nat, index: nat)
    requires Holding(ws, bytes, value, bits) && index < 32
    ensures var value', ws' := (value * 32 + index) % 0x1_0000_0000, ws + LowBits(index, 5);
            if bits + 5 < 8 then Holding(ws', bytes, value', bits + 5)
            else Holding(ws', bytes + [Shr(value', bits - 3) % 256], value', bits - 3)
  {
    hide LowBits;
    hide FromBits;
    hide Pow2;
    var value', ws' := (value * 32 + index) % 0x1_0000_0000, ws + LowBits(index, 5);
    var n := 8 * |bytes|;
    Shifted(value, index, bits);
    assert ws'[..n] == ws[..n] && ws'[n..] == ws[n..] + LowBits(index, 5);
    assert LowBits(value', bits + 5) == ws'[n..];
    if bits + 5 >= 8 {
      ByteOut(value', bits + 5);
      var byte := Shr(value', bits - 3) % 256;
      var head := ws'[..n + 8];
      assert head[..|head| - 8] == ws'[..n] && head[|head| - 8..] == ws'[n..][..8];
      assert ws'[n + 8..] == ws'[n..][8..];
    }
  }

  lemma SpelledLast(text: string, i: nat)
    requires i < |text| && Spelled(text[..i]) && IndexOf(text[i]).Some?
    ensures Spelled(text[..i + 1]) && TextBits(text[..i + 1]) == TextBits(text[..i]) + LowBits(IndexOf(text[i]).value, 5)
  {
    hide LowBits;
    assert Indices(text[..i + 1])[..i] == Indices(text[..i]);
  }

  lemma {:induction false} AllZero(x: nat, n: nat)
    ensures true in LowBits(x, n) <==> x % Pow2(n) != 0
  {
    if n > 0 {
      AllZero(x / 2, n - 1);
      HalfOfMod(x, Pow2(n - 1));
    }
  }

  /** The decoder, whose accumulator is never masked and wraps at 32 bits, against bit strings. */
  method Base32Decode(input: string) returns (r: Option<seq<nat>>)
    ensures r == Decoded(input)
  {
    hide LowBits;
    hide Group;
    hide Pow2;
    hide TextBits;
    var bytes: seq<nat> := [];
    var bits: nat, value: nat := 0, 0;
    var i := 0;
    NothingHeld(input[..0]);
    while i < |input|
      invariant 0 <= i <= |input| && Spelled(input[..i])
      invariant Holding(TextBits(input[..i]), bytes, value, bits)
    {
      var index := IndexOf(input[i]);
      if index.None? {
        return None;
      }
      SpelledLast(input, i);
      HoldingNext(TextBits(input[..i]), bytes, value, bits, index.value);
      value := (value * 32 + index.value) % 0x1_0000_0000;
      bits := bits + 5;
      if bits >= 8 {
        bytes := bytes + [Shr(value, bits - 8) % 256];
        bits := bits - 8;
      }
      i := i + 1;
    }
    assert input[..|input|] == input;
    AllZero(value, bits);
    if bits > 0 && value % Pow2(bits) != 0 {
      return None;
    }
    NoBits(value, bits);
    return Some(bytes);
  }

  lemma NothingHeld(text: string)
    requires text == ""
    ensures Holding(TextBits(text), [], 0, 0)
  {
  }

  lemma NoBits(value: nat, bits: nat)
    ensures bits == 0 ==> !(true in LowBits(value, bits))
  {
  }

  // ---------------------------------------------------------------- 56 characters are 35 bytes

  predicate IsBytes(bytes: seq<nat>) {
    |bytes| == 35 && forall i :: 0 <= i < 35 ==> bytes[i] < 256
  }

  /** Fifty-six letters always decode, to 35 bytes with the same bits. */
  lemma AddressDecodes(text: string)
    requires |text| == 56 && Spelled(text)
    ensures Decoded(text).Some? && IsBytes(Decoded(text).value)
    ensures Flatten(Decoded(text).value, 8) == TextBits(text)
  {
    hide LowBits;
    hide FromBits;
    hide Flatten;
    hide Group;
    var ws := TextBits(text);
    FlattenLength(Indices(text), 5);
    assert |ws| == 280 && ws[..280] == ws && ws[280..] == [];
    FlattenGroup(ws, 8, 35);
    assert Pow2(8) == 256;
  }

  lemma EncodedBits(bytes: seq<nat>)
    requires IsBytes(bytes)
    ensures |Encoded(bytes)| == 56 && Spelled(Encoded(bytes)) && TextBits(Encoded(bytes)) == Flatten(bytes, 8)
  {
    var ws := Flatten(bytes, 8);
    FlattenLength(bytes, 8);
    FlattenGroup(ws, 5, 56);
    var xs, text := Group(ws, 5), Encoded(bytes);
    assert Pow2(5) == 32;
    forall i | 0 <= i < 56 ensures IndexOf(text[i]) == Some(xs[i]) {
      LetterIndex(xs[i]);
    }
    assert Indices(text) == xs;
  }

  /** Decoding undoes encoding, on all 35-byte keys. */
  lemma DecodeEncoded(bytes: seq<nat>)
    requires IsBytes(bytes)
    ensures Decoded(Encoded(bytes)) == Some(bytes)
  {
    hide LowBits;
    hide FromBits;
    hide Flatten;
    hide Group;
    hide Encoded;
    EncodedBits(bytes);
    AddressDecodes(Encoded(bytes));
    var ws := Flatten(bytes, 8);
    FlattenLength(bytes, 8);
    assert Pow2(8) == 256;
    assert |ws| == 280 && ws[..280] == ws;
    GroupFlatten(bytes, 8);
  }

  /** Encoding undoes decoding, on all 56-letter texts: decoding is a bijection. */
  lemma EncodeDecoded(text: string)
    requires |text| == 56 && Spelled(text)
    ensures Decoded(text).Some? && IsBytes(Decoded(text).value) && Encoded(Decoded(text).value) == text
  {
    AddressDecodes(text);
    var bytes := Decoded(text).value;
    assert Pow2(5) == 32;
    GroupFlatten(Indices(text), 5);
    var back := Encoded(bytes);
    EncodedBits(bytes);
    GroupFlatten(Indices(back), 5);
    forall i | 0 <= i < 56 ensures back[i] == text[i] {
      IndexLetter(text[i]);
      IndexLetter(back[i]);
    }
  }
}
