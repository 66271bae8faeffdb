// The transport encoding of a cursor: URL-safe base64 without padding, decoded as forgivingly as atob does.
module Base64 {
  import opened Basics
  import opened Bits

  /** The standard alphabet after `+` and `/` are exchanged for `-` and `_`. */
  function Letter(i: nat): char
    requires i < 64
  {
    if i < 26 then (i + ('A' as int)) as char
    else if i < 52 then (i - 26 + ('a' as int)) as char
    else if i < 62 then (i - 52 + ('0' as int)) as char
    else if i == 62 then '-' else '_'
  }

  function IndexOf(c: char): (i: Option<nat>)
    ensures i.Some? ==> i.value < 64
  {
    if 'A' <= c <= 'Z' then Some((c as int) - ('A' as int))
    else if 'a' <= c <= 'z' then Some((c as int) - ('a' as int) + 26)
    else if '0' <= c <= '9' then Some((c as int) - ('0' as int) + 52)
    else if c == '-' || c == '+' then Some(62)
    else if c == '_' || c == '/' then Some(63)
    else None
  }

  lemma LetterIndex(i: nat)
    requires i < 64
    ensures IndexOf(Letter(i)) == Some(i)
  {
  }

  function Zeros(n: nat): Bits {
    seq(n, _ => false)
  }

  /** Zero bits up to the next multiple of six. */
  function Pad(n: nat): nat {
    if n % 6 == 0 then 0 else 6 - n % 6
  }

  function Padded(ws: Bits): Bits {
    ws + Zeros(Pad(|ws|))
  }

  function Sixths(ws: Bits): (xs: seq<nat>)
    ensures forall i :: 0 <= i < |xs| ==> xs[i] < 64
  {
    var all := Padded(ws);
    FlattenGroup(all, 6, |all| / 6);
    assert Pow2(6) == 64;
    Group(all, 6)
  }

  /** btoa of a string of bytes, made URL-safe. */
  function Encoded(bytes: seq<nat>): string {
    var xs := Sixths(Flatten(bytes, 8));
    seq(|xs|, i requires 0 <= i < |xs| => Letter(xs[i]))
  }

  function NoSpace(text: string): string {
    if text == "" then ""
    else NoSpace(text[..|text| - 1]) + if IsSpace(text[|text| - 1]) then "" else [text[|text| - 1]]
  }

  predicate IsSpace(c: char) {
    c as int == 9 || c as int == 10 || c as int == 12 || c as int == 13 || c == ' '
  }

  /** Whitespace goes, and up to two signs that pad the text to a multiple of four. */
  function Unpadded(text: string): string {
    var t := NoSpace(text);
    var n := |t|;
    if n % 4 != 0 || n == 0 || t[n - 1] != '=' then t else if t[n - 2] == '=' then t[..n - 2] else t[..n - 1]
  }

  /** atob: the bits in eights, those left over dropped; a single leftover character is malformed. */
  function Decoded(padded: string): Option<seq<nat>> {
    var text := Unpadded(padded);
    if (exists i :: 0 <= i < |text| && IndexOf(text[i]).None?) || |text| % 4 == 1 then None
    else
      var ws := Flatten(seq(|text|, i requires 0 <= i < |text| => GetOr(IndexOf(text[i]), 0)), 6);
      Some(Group(ws[..|ws| - |ws| % 8], 8))
  }

  predicate InAlphabet(text: string) {
    forall i :: 0 <= i < |text| ==> IndexOf(text[i]).Some?
  }

  lemma LettersAreNoSpaces(c: char)
    requires IndexOf(c).Some?
    ensures !IsSpace(c) && c != '='
  {
  }

  lemma {:induction false} NothingToStrip(text: string)
    requires InAlphabet(text)
    ensures NoSpace(text) == text
  {
    hide IndexOf;
    hide IsSpace;
    if text != "" {
      var k := |text| - 1;
      NothingToStrip(text[..k]);
      LettersAreNoSpaces(text[k]);
      assert text == text[..k] + [text[k]];
    }
  }

  lemma NothingPadded(text: string)
    requires InAlphabet(text)
    ensures Unpadded(text) == text
  {
    hide IndexOf;
    NothingToStrip(text);
    if text != "" {
      LettersAreNoSpaces(text[|text| - 1]);
    }
  }

  lemma PadOf(x: nat, sixes: nat, pad: nat)
    requires pad < 6 && x + pad == 6 * sixes
    ensures Pad(x) == pad && (x + pad) / 6 == sixes && (x + pad) % 6 == 0
  {
    if pad > 0 {
      assert x == 6 * (sixes - 1) + (6 - pad);
    }
  }

  lemma WholeBytes(n: nat, pad: nat)
    requires pad < 6
    ensures (8 * n + pad) - (8 * n + pad) % 8 == 8 * n
  {
  }

  lemma Lengths(n: nat)
    ensures var all := 8 * n + Pad(8 * n); all % 6 == 0 && all - all % 8 == 8 * n && (all / 6) % 4 != 1
  {
    hide Pad;
    var q, r := n / 3, n % 3;
    var sixes := 4 * q + if r == 0 then 0 else if r == 1 then 2 else 3;
    var pad := if r == 0 then 0 else if r == 1 then 4 else 2;
    PadOf(8 * n, sixes, pad);
    WholeBytes(n, pad);
  }

  /** Any string of bytes survives the encoding. */
  lemma DecodeEncoded(bytes: seq<nat>)
    requires forall i :: 0 <= i < |bytes| ==> bytes[i] < 256
    ensures Decoded(Encoded(bytes)) == Some(bytes)
  {
    hide Flatten;
    hide Group;
    hide IndexOf;
    hide Letter;
    hide Unpadded;
    hide Pad;
    var ws := Flatten(bytes, 8);
    FlattenLength(bytes, 8);
    Lengths(|bytes|);
    var all, xs, text := Padded(ws), Sixths(ws), Encoded(bytes);
    FlattenGroup(all, 6, |all| / 6);
    forall i | 0 <= i < |text| ensures IndexOf(text[i]) == Some(xs[i]) {
      LetterIndex(xs[i]);
    }
    NothingPadded(text);
    assert seq(|text|, i requires 0 <= i < |text| => GetOr(IndexOf(text[i]), 0)) == xs;
    assert all[..|all| - |all| % 8] == ws;
    assert Pow2(8) == 256;
    GroupFlatten(bytes, 8);
  }

  // ---------------------------------------------------------------- what else is decoded

  lemma Capitals(c: char, i: nat)
    requires i < 26
    ensures IndexOf(c) == Some(i) <==> "ABCDEFGHIJKLMNOPQRSTUVWXYZ"[i] == c
  {
  }

  lemma Smalls(c: char, i: nat)
    requires i < 26
    ensures IndexOf(c) == Some(i + 26) <==> "abcdefghijklmnopqrstuvwxyz"[i] == c
  {
  }

  lemma Digits(c: char, i: nat)
    requires i < 10
    ensures IndexOf(c) == Some(i + 52) <==> "0123456789"[i] == c
  {
  }

  lemma Signs(c: char)
    ensures (IndexOf(c) == Some(62) <==> c in ['-', '+']) && (IndexOf(c) == Some(63) <==> c in ['_', '/'])
  {
  }

  /** The URL-safe alphabet, and the two signs it replaces. */
  lemma Alphabet(c: char, i: nat)
    ensures IndexOf(c) == Some(i) <==>
              || (i < 26 && "ABCDEFGHIJKLMNOPQRSTUVWXYZ"[i] == c) || (26 <= i < 52 && "abcdefghijklmnopqrstuvwxyz"[i - 26] == c)
              || (52 <= i < 62 && "0123456789"[i - 52] == c) || (i == 62 && c in ['-', '+']) || (i == 63 && c in ['_', '/'])
  {
    hide IndexOf;
    if i < 26 {
      Capitals(c, i);
    } else if i < 52 {
      Smalls(c, i - 26);
    } else if i < 62 {
      Digits(c, i - 52);
    } else {
      Signs(c);
    }
  }

  lemma {:induction false} NoSpaceConcat(a: string, b: string)
    ensures NoSpace(a + b) == NoSpace(a) + NoSpace(b)
    decreases |b|
  {
    hide IsSpace;
    if b == "" {
      assert a + b == a;
    } else {
      var k := |b| - 1;
      assert (a + b)[..|a| + k] == a + b[..k];
      NoSpaceConcat(a, b[..k]);
    }
  }

  lemma SameLetters(text: string, other: string)
    requires NoSpace(text) == NoSpace(other)
    ensures Decoded(text) == Decoded(other)
  {
    hide NoSpace;
    hide IndexOf;
    hide Flatten;
    hide Group;
    assert Unpadded(text) == Unpadded(other);
  }

  /** Tabs, line breaks, form feeds and blanks go wherever they stand. */
  lemma SpaceIgnored(a: string, c: char, b: string)
    requires c in ['\t', '\n', '\U{C}', '\r', ' ']
    ensures Decoded(a + [c] + b) == Decoded(a + b)
  {
    hide Decoded;
    NoSpaceConcat(a + [c], b);
    NoSpaceConcat(a, [c]);
    NoSpaceConcat(a, b);
    assert [c][..0] == "";
    assert NoSpace([c]) == "";
    assert NoSpace(a) + "" == NoSpace(a);
    SameLetters(a + [c] + b, a + b);
  }

  lemma PaddedText(text: string, signs: string)
    requires InAlphabet(text) && signs in {"=", "=="}
    ensures Unpadded(text) == text
    ensures Unpadded(text + signs) == if (|text| + |signs|) % 4 == 0 then text else text + signs
  {
    hide IndexOf;
    hide NoSpace;
    var all := text + signs;
    NothingToStrip(text);
    NoSpaceConcat(text, signs);
    SignsStay(signs);
    NothingPadded(text);
    if |all| % 4 == 0 {
      LettersAreNoSpaces(text[|text| - 1]);
      assert all[|all| - 1] == '=' && (all[|all| - 2] == '=' <==> |signs| == 2);
    }
  }

  lemma SignsStay(signs: string)
    requires signs in {"=", "=="}
    ensures NoSpace(signs) == signs
  {
    assert "=="[..1] == "=" && "="[..0] == "";
    assert NoSpace("=") == "=";
  }

  /** Padding to a multiple of four is taken off; elsewhere the sign is refused. */
  lemma PaddingIgnored(text: string, signs: string)
    requires InAlphabet(text) && signs in {"=", "=="}
    ensures Decoded(text + signs) == if (|text| + |signs|) % 4 == 0 then Decoded(text) else None
  {
    hide Flatten;
    hide Group;
    hide Unpadded;
    PaddedText(text, signs);
    if (|text| + |signs|) % 4 != 0 {
      assert (text + signs)[|text|] == '=' && IndexOf('=') == None;
    }
  }
}
