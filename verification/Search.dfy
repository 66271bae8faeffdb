// The discovery searches a cursor is bound to, and exactly which of them share their cursors.
module Search {
  import opened Basics
  import opened Cursor
  import Discovery

  // ---------------------------------------------------------------- accepted searches

  /** The known parameters but for cursor and limit, in localeCompare's order. */
  datatype Name = HasServices | MinScore | Mpp | Network | Sort | Text | Trust | X402

  const NAMES := [HasServices, MinScore, Mpp, Network, Sort, Text, Trust, X402]

  function Spelled(n: Name): string {
    match n
    case HasServices => "hasServices"
    case MinScore => "minScore"
    case Mpp => "mpp"
    case Network => "network"
    case Sort => "sort"
    case Text => "text"
    case Trust => "trust"
    case X402 => "x402"
  }

  lemma SpelledApart(n: Name, m: Name)
    ensures Spelled(n) == Spelled(m) ==> n == m
    ensures '=' !in Spelled(n) && '&' !in Spelled(n)
  {
    if Spelled(n) == Spelled(m) {
      assert Spelled(n)[0] == Spelled(m)[0] && Spelled(n)[1] == Spelled(m)[1] && |Spelled(n)| == |Spelled(m)|;
    }
  }

  /** Parameters by name: unknown and repeated ones are refused, and their order in the URL does not matter. */
  type Params = map<Name, string>

  /** What String.trim removes. */
  predicate IsSpace(c: char) {
    var n := c as int;
    || 9 <= n <= 13 || n == 0x20 || n == 0xA0 || n == 0x1680 || 0x2000 <= n <= 0x200A
    || n == 0x2028 || n == 0x2029 || n == 0x202F || n == 0x205F || n == 0x3000 || n == 0xFEFF
  }

  predicate Blank(s: string) {
    forall c | c in s :: IsSpace(c)
  }

  /** Characters of JavaScript's numbers up to 100: spaces, digits, signs and the letters of exponents and bases. */
  predicate Numeric(s: string) {
    forall c | c in s :: IsSpace(c) || c in "0123456789+-.xXoOaAbBcCdDeEfF"
  }

  predicate IsFlag(s: string) {
    s == "true" || s == "false"
  }

  predicate IsSort(s: string) {
    s == "score" || s == "newest" || s == "id"
  }

  /** A search the handler answers; `inRange` tells which numeric texts JavaScript reads as 0 to 100. */
  predicate Accepted(ps: Params, env: string, inRange: string -> bool) {
    && Network in ps && env != ""
    && forall n | n in ps :: AcceptedValue(n, ps[n], env, inRange)
  }

  predicate AcceptedValue(n: Name, s: string, env: string, inRange: string -> bool) {
    match n
    case Network => s == env
    case Sort => IsSort(s)
    case X402 => IsFlag(s)
    case Mpp => IsFlag(s)
    case HasServices => IsFlag(s)
    case Text => !Blank(s)
    case Trust => !Blank(s)
    case MinScore => !Blank(s) && Numeric(s) && inRange(s)
  }

  function SortOf(ps: Params): Discovery.Sort {
    if Sort !in ps || ps[Sort] == "score" then Discovery.ByScore
    else if ps[Sort] == "newest" then Discovery.Newest else Discovery.ById
  }

  type Param = (string, string)

  /** The parameters given, in name order. */
  function Listed(ps: Params, names: seq<Name>): seq<Param> {
    if names == [] then []
    else (if names[0] in ps then [(Spelled(names[0]), ps[names[0]])] else []) + Listed(ps, names[1..])
  }

  function Join(ps: seq<Param>): string {
    if ps == [] then ""
    else
      var field := ps[0].0 + "=" + ps[0].1;
      if |ps| == 1 then field else field + "&" + Join(ps[1..])
  }

  /** The query a cursor stores. */
  function Query(ps: Params): string {
    Join(Listed(ps, NAMES))
  }

  // ---------------------------------------------------------------- the query, part by part

  function Part(name: Name, value: Option<string>): string {
    if value.Some? then "&" + Spelled(name) + "=" + value.value else ""
  }

  function Parts(ps: Params, names: seq<Name>): string {
    if names == [] then "" else Part(names[0], Lookup(ps, names[0])) + Parts(ps, names[1..])
  }

  lemma {:induction false} JoinIsParts(ps: Params, names: seq<Name>)
    ensures Parts(ps, names) == if Listed(ps, names) == [] then "" else "&" + Join(Listed(ps, names))
  {
    hide Join;
    hide Spelled;
    if names != [] {
      JoinIsParts(ps, names[1..]);
      var rest := Listed(ps, names[1..]);
      if names[0] in ps {
        JoinMore((Spelled(names[0]), ps[names[0]]), rest);
      } else {
        assert Listed(ps, names) == rest;
      }
    }
  }

  lemma JoinMore(p: Param, rest: seq<Param>)
    ensures [p] + rest != []
    ensures "&" + Join([p] + rest) == ("&" + p.0 + "=" + p.1) + if rest == [] then "" else "&" + Join(rest)
  {
    var all := [p] + rest;
    assert all[0] == p && all[1..] == rest;
    if rest == [] {
      assert Join(all) == p.0 + "=" + p.1;
    }
  }

  lemma {:induction false} NameListed(ps: Params, names: seq<Name>, i: nat)
    requires i < |names| && names[i] in ps
    ensures Listed(ps, names) != []
  {
    if i > 0 {
      NameListed(ps, names[1..], i - 1);
    }
  }

  /** Queries are equal exactly when all their parts are. */
  lemma QueryIsParts(ps: Params, qs: Params)
    requires Network in ps && Network in qs
    ensures Query(ps) == Query(qs) <==> Parts(ps, NAMES) == Parts(qs, NAMES)
  {
    hide Join;
    hide Listed;
    hide Parts;
    JoinIsParts(ps, NAMES);
    JoinIsParts(qs, NAMES);
    assert NAMES[3] == Network;
    NameListed(ps, NAMES, 3);
    NameListed(qs, NAMES, 3);
    assert ("&" + Query(ps))[1..] == Query(ps) && ("&" + Query(qs))[1..] == Query(qs);
  }

  lemma {:induction false} SameParts(ps: Params, qs: Params, names: seq<Name>)
    requires forall n | n in names :: Lookup(ps, n) == Lookup(qs, n)
    ensures Parts(ps, names) == Parts(qs, names)
  {
    if names != [] {
      assert forall n | n in names[1..] :: n in names;
      SameParts(ps, qs, names[1..]);
    }
  }

  lemma {:induction false} PartsConcat(ps: Params, names: seq<Name>, more: seq<Name>)
    ensures Parts(ps, names + more) == Parts(ps, names) + Parts(ps, more)
  {
    if names == [] {
      assert names + more == more;
    } else {
      assert (names + more)[1..] == names[1..] + more;
      PartsConcat(ps, names[1..], more);
    }
  }

  // ---------------------------------------------------------------- reading a query from the left

  /** The text before the first `c`. */
  function Until(s: string, c: char): string {
    if s == "" || s[0] == c then "" else [s[0]] + Until(s[1..], c)
  }

  lemma {:induction false} UntilSign(a: string, x: string, c: char)
    requires c !in a && (x == "" || x[0] == c)
    ensures Until(a + x, c) == a
  {
    if a == "" {
      assert a + x == x;
    } else {
      assert (a + x)[1..] == a[1..] + x;
      UntilSign(a[1..], x, c);
    }
  }

  lemma SplitAt(a: string, b: string, x: string, y: string, c: char)
    requires c !in a && c !in b && a + x == b + y
    requires (x == "" || x[0] == c) && (y == "" || y[0] == c)
    ensures a == b && x == y
  {
    UntilSign(a, x, c);
    UntilSign(b, y, c);
    assert x == (a + x)[|a|..] && y == (b + y)[|b|..];
  }

  predicate Distinct(names: seq<Name>) {
    forall i, j :: 0 <= i < j < |names| ==> names[i] != names[j]
  }

  lemma DistinctRest(names: seq<Name>)
    requires Distinct(names) && names != []
    ensures Distinct(names[1..]) && names[0] !in names[1..]
  {
  }

  lemma NoParts(ps: Params)
    ensures Parts(ps, []) == ""
  {
  }

  /** What remains of a query starts with one of the remaining names, or is over. */
  lemma {:induction false} PartsStart(ps: Params, names: seq<Name>) returns (name: Name, tail: string)
    ensures Parts(ps, names) != "" ==> name in names && Parts(ps, names) == "&" + (Spelled(name) + ("=" + tail))
  {
    hide Spelled;
    hide Parts;
    name, tail := Network, "";
    if names == [] {
      assert Parts(ps, []) == "" by { NoParts(ps); }
    }
    if names != [] {
      if names[0] in ps {
        PartHere(ps, names);
        name, tail := names[0], ps[names[0]] + Parts(ps, names[1..]);
        assert Head(name) + tail == "&" + (Spelled(name) + ("=" + tail));
      } else {
        name, tail := PartsStart(ps, names[1..]);
        PartAbsent(ps, names);
      }
    }
  }

  function Head(n: Name): string {
    "&" + (Spelled(n) + "=")
  }

  lemma PartHere(ps: Params, names: seq<Name>)
    requires names != [] && names[0] in ps
    ensures Parts(ps, names) == Head(names[0]) + (ps[names[0]] + Parts(ps, names[1..]))
  {
    hide Spelled;
  }

  lemma PartAbsent(ps: Params, names: seq<Name>)
    requires names != [] && names[0] !in ps
    ensures Parts(ps, names) == Parts(ps, names[1..])
  {
  }

  /** Different names start differently. */
  lemma HeadsApart(n: Name, m: Name, x: string, y: string)
    requires Head(n) + x == "&" + (Spelled(m) + ("=" + y))
    ensures n == m
  {
    hide Spelled;
    assert Head(n) + x == "&" + (Spelled(n) + ("=" + x));
    Cancel("&", Spelled(n) + ("=" + x), Spelled(m) + ("=" + y));
    SpelledApart(n, m);
    SpelledApart(m, n);
    SplitAt(Spelled(n), Spelled(m), "=" + x, "=" + y, '=');
  }

  lemma NameHere(ps: Params, qs: Params, names: seq<Name>)
    requires names != [] && Distinct(names) && Parts(ps, names) == Parts(qs, names) && names[0] in ps
    ensures names[0] in qs
  {
    hide Parts;
    hide Spelled;
    hide Distinct;
    DistinctRest(names);
    if names[0] !in qs {
      PartHere(ps, names);
      PartAbsent(qs, names);
      var name, tail := PartsStart(qs, names[1..]);
      HeadsApart(names[0], name, ps[names[0]] + Parts(ps, names[1..]), tail);
    }
  }

  lemma OnePart(ps: Params, names: seq<Name>)
    requires names != []
    ensures Parts(ps, names) == Part(names[0], Lookup(ps, names[0])) + Parts(ps, names[1..])
  {
  }

  lemma Cancel(p: string, x: string, y: string)
    requires p + x == p + y
    ensures x == y
  {
    assert x == (p + x)[|p|..] && y == (p + y)[|p|..];
  }

  /** A value that equals the other's, or holds no ampersand, is read back, and so is what follows it. */
  lemma Peel(ps: Params, qs: Params, names: seq<Name>)
    requires names != [] && Distinct(names) && Parts(ps, names) == Parts(qs, names)
    requires Peelable(ps, qs, names[0])
    ensures Lookup(ps, names[0]) == Lookup(qs, names[0]) && Parts(ps, names[1..]) == Parts(qs, names[1..])
  {
    hide Parts;
    hide Head;
    hide Distinct;
    var n := names[0];
    var x, y := Parts(ps, names[1..]), Parts(qs, names[1..]);
    if n in ps {
      NameHere(ps, qs, names);
    }
    if n in qs {
      NameHere(qs, ps, names);
    }
    if n !in ps {
      PartAbsent(ps, names);
      PartAbsent(qs, names);
    } else {
      PartHere(ps, names);
      PartHere(qs, names);
      Cancel(Head(n), ps[n] + x, qs[n] + y);
      if ps[n] == qs[n] {
        Cancel(ps[n], x, y);
      } else {
        StartsWithSign(ps, names[1..]);
        StartsWithSign(qs, names[1..]);
        SplitAt(ps[n], qs[n], x, y, '&');
      }
    }
  }

  lemma StartsWithSign(ps: Params, names: seq<Name>)
    ensures Parts(ps, names) == "" || Parts(ps, names)[0] == '&'
  {
    var name, tail := PartsStart(ps, names);
  }

  /** Values of these names in two accepted searches agree or hold no ampersand. */
  predicate Peelable(ps: Params, qs: Params, n: Name) {
    n in ps && n in qs ==> ps[n] == qs[n] || ('&' !in ps[n] && '&' !in qs[n])
  }

  lemma {:induction false} PeelAll(ps: Params, qs: Params, names: seq<Name>, more: seq<Name>)
    requires Distinct(names + more) && Parts(ps, names + more) == Parts(qs, names + more)
    requires forall n | n in names :: Peelable(ps, qs, n)
    ensures forall n | n in names :: Lookup(ps, n) == Lookup(qs, n)
    ensures Parts(ps, more) == Parts(qs, more)
  {
    hide Parts;
    hide Distinct;
    if names == [] {
      assert names + more == more;
    } else {
      assert (names + more)[0] == names[0] && (names + more)[1..] == names[1..] + more;
      assert Peelable(ps, qs, names[0]);
      DistinctRest(names + more);
      Peel(ps, qs, names + more);
      assert forall n | n in names[1..] :: n in names;
      PeelAll(ps, qs, names[1..], more);
      assert names == [names[0]] + names[1..];
    }
  }

  const HEAD := [HasServices, MinScore, Mpp, Network, Sort]
  const TAIL := [Text, Trust, X402]

  lemma NamesSplit()
    ensures NAMES == HEAD + TAIL && Distinct(HEAD + TAIL)
  {
  }

  lemma ValueClean(n: Name, s: string, env: string, inRange: string -> bool)
    requires AcceptedValue(n, s, env, inRange) && n != Text && n != Trust && n != Network
    ensures '&' !in s
  {
    hide Blank;
  }

  lemma HeadPeelable(ps: Params, qs: Params, env: string, inRange: string -> bool, n: Name)
    requires Accepted(ps, env, inRange) && Accepted(qs, env, inRange) && n in HEAD
    ensures Peelable(ps, qs, n)
  {
    hide AcceptedValue;
    if n in ps && n in qs {
      if n == Network {
        NetworkFixed(ps[n], env, inRange);
        NetworkFixed(qs[n], env, inRange);
      } else {
        ValueClean(n, ps[n], env, inRange);
        ValueClean(n, qs[n], env, inRange);
      }
    }
  }

  lemma NetworkFixed(s: string, env: string, inRange: string -> bool)
    requires AcceptedValue(Network, s, env, inRange)
    ensures s == env
  {
  }

  // ---------------------------------------------------------------- the free texts at the end

  /** The free texts and the flag after them, as they end a query. */
  function Ending(text: Option<string>, trust: Option<string>, x402: Option<string>): string {
    Part(Text, text) + (Part(Trust, trust) + Part(X402, x402))
  }

  lemma EndingText(text: string, trust: Option<string>, x402: Option<string>)
    ensures Ending(Some(text), trust, x402) == "&text=" + (text + (Part(Trust, trust) + Part(X402, x402)))
  {
  }

  lemma EndingTrust(trust: string, x402: Option<string>)
    ensures Ending(None, Some(trust), x402) == "&trust=" + (trust + Part(X402, x402))
  {
  }

  lemma FlagPart(x402: string)
    ensures Part(X402, Some(x402)) == "&x402=" + x402
  {
  }

  lemma TrustPart(trust: string)
    ensures Part(Trust, Some(trust)) == "&trust=" + trust
  {
  }

  lemma TailIsEnding(ps: Params)
    ensures Parts(ps, TAIL) == Ending(Lookup(ps, Text), Lookup(ps, Trust), Lookup(ps, X402))
  {
    hide Part;
    assert TAIL[1..] == [Trust, X402] && [Trust, X402][1..] == [X402] && [X402][1..] == [];
    OnePart(ps, TAIL);
    OnePart(ps, [Trust, X402]);
    OnePart(ps, [X402]);
    assert Parts(ps, []) == "";
    assert Part(X402, Lookup(ps, X402)) + "" == Part(X402, Lookup(ps, X402));
  }

  predicate Allowed(text: Option<string>, trust: Option<string>, x402: Option<string>) {
    && (text.Some? ==> !Blank(text.value)) && (trust.Some? ==> !Blank(trust.value)) && (x402.Some? ==> IsFlag(x402.value))
  }

  /** A value that reads as a shorter one and an x402 flag. */
  predicate EndsInFlag(s: string) {
    exists i :: 0 <= i <= |s| && FlagFrom(s, i)
  }

  predicate FlagFrom(s: string, i: nat)
    requires i <= |s|
  {
    !Blank(s[..i]) && (s[i..] == "&x402=true" || s[i..] == "&x402=false")
  }

  /** A value that reads as a shorter one and a trust parameter. */
  predicate HoldsTrust(s: string) {
    exists i :: 0 <= i <= |s| && TrustFrom(s, i)
  }

  predicate TrustFrom(s: string, i: nat)
    requires i <= |s|
  {
    !Blank(s[..i]) && "&trust=" <= s[i..] && !Blank(s[i..][7..])
  }

  /** Two of text, trust and x402 are given, or the only free text reads as one with another after it. */
  predicate Ambiguous(text: Option<string>, trust: Option<string>, x402: Option<string>) {
    if text.Some? then trust.Some? || x402.Some? || EndsInFlag(text.value) || HoldsTrust(text.value)
    else trust.Some? && (x402.Some? || EndsInFlag(trust.value))
  }

  datatype Triple = Triple(text: Option<string>, trust: Option<string>, x402: Option<string>)

  predicate Twin(a: Triple, b: Triple) {
    a != b && Allowed(b.text, b.trust, b.x402) && Ending(a.text, a.trust, a.x402) == Ending(b.text, b.trust, b.x402)
  }

  lemma NotBlankConcat(s: string, t: string)
    ensures Blank(s + t) <==> Blank(s) && Blank(t)
  {
    if Blank(s + t) {
      forall c | c in s ensures IsSpace(c) {
        assert c in s + t;
      }
      forall c | c in t ensures IsSpace(c) {
        assert c in s + t;
      }
    }
  }

  /** What follows a value counts as more of it. */
  lemma SwallowedByText(s: string, trust: Option<string>, x402: Option<string>) returns (b: Triple)
    requires !Blank(s) && (trust.Some? || x402.Some?)
    ensures Twin(Triple(Some(s), trust, x402), b)
  {
    hide Blank;
    hide Ending;
    var more := Part(Trust, trust) + Part(X402, x402);
    NotBlankConcat(s, more);
    EndingText(s, trust, x402);
    EndingText(s + more, None, None);
    assert (s + more) + (Part(Trust, None) + Part(X402, None)) == s + more;
    b := Triple(Some(s + more), None, None);
  }

  lemma SwallowedByTrust(s: string, x402: string) returns (b: Triple)
    requires !Blank(s)
    ensures Twin(Triple(None, Some(s), Some(x402)), b)
  {
    hide Blank;
    hide Ending;
    var more := Part(X402, Some(x402));
    NotBlankConcat(s, more);
    EndingTrust(s, Some(x402));
    EndingTrust(s + more, None);
    assert (s + more) + Part(X402, None) == s + more;
    b := Triple(None, Some(s + more), None);
  }

  /** A value that ends in a flag is a shorter value and the flag's part. */
  lemma FlagSplits(s: string) returns (t: string, x: string)
    requires EndsInFlag(s)
    ensures !Blank(t) && IsFlag(x) && t + Part(X402, Some(x)) == s
  {
    hide Blank;
    var i :| 0 <= i <= |s| && FlagFrom(s, i);
    t, x := s[..i], s[i..][6..];
    assert s == t + s[i..];
    assert s[i..] == "&x402=" + x;
    FlagPart(x);
  }

  lemma NothingFollows(s: string)
    ensures s + (Part(Trust, None) + Part(X402, None)) == s && s + Part(X402, None) == s
  {
  }

  lemma FlagSplitsOffText(s: string) returns (b: Triple)
    requires EndsInFlag(s)
    ensures Twin(Triple(Some(s), None, None), b)
  {
    hide Blank;
    hide Ending;
    hide EndsInFlag;
    hide IsFlag;
    var t, x := FlagSplits(s);
    NothingFollows(s);
    EndingText(s, None, None);
    EndingText(t, None, Some(x));
    assert Part(Trust, None) + Part(X402, Some(x)) == Part(X402, Some(x));
    b := Triple(Some(t), None, Some(x));
  }

  lemma FlagSplitsOffTrust(s: string) returns (b: Triple)
    requires EndsInFlag(s)
    ensures Twin(Triple(None, Some(s), None), b)
  {
    hide Blank;
    hide Ending;
    hide EndsInFlag;
    hide IsFlag;
    var t, x := FlagSplits(s);
    NothingFollows(s);
    EndingTrust(s, None);
    EndingTrust(t, Some(x));
    b := Triple(None, Some(t), Some(x));
  }

  lemma TrustSplitsOff(s: string) returns (b: Triple)
    requires HoldsTrust(s)
    ensures Twin(Triple(Some(s), None, None), b)
  {
    hide Blank;
    hide Ending;
    var i :| 0 <= i <= |s| && TrustFrom(s, i);
    var t, u := s[..i], s[i..][7..];
    assert s == t + s[i..];
    assert s[i..] == "&trust=" + u;
    TrustPart(u);
    assert s + (Part(Trust, None) + Part(X402, None)) == s;
    assert t + (Part(Trust, Some(u)) + Part(X402, None)) == s;
    EndingText(s, None, None);
    EndingText(t, Some(u), None);
    b := Triple(Some(t), Some(u), None);
  }

  /** An ambiguous ending has another reading. */
  lemma TwinOf(a: Triple) returns (b: Triple)
    requires Allowed(a.text, a.trust, a.x402) && Ambiguous(a.text, a.trust, a.x402)
    ensures Twin(a, b)
  {
    hide Blank;
    hide Twin;
    hide EndsInFlag;
    hide HoldsTrust;
    if a.text.Some? && (a.trust.Some? || a.x402.Some?) {
      b := SwallowedByText(a.text.value, a.trust, a.x402);
    } else if a.text.Some? && EndsInFlag(a.text.value) {
      b := FlagSplitsOffText(a.text.value);
    } else if a.text.Some? {
      b := TrustSplitsOff(a.text.value);
    } else if a.x402.Some? {
      b := SwallowedByTrust(a.trust.value, a.x402.value);
    } else {
      b := FlagSplitsOffTrust(a.trust.value);
    }
  }

  /** The letters after the sign tell which part comes first. */
  lemma FirstPart(a: Triple)
    ensures var s := Ending(a.text, a.trust, a.x402);
            && (a.text.Some? <==> |s| > 2 && s[1] == 't' && s[2] == 'e')
            && (a.text.None? && a.trust.Some? <==> |s| > 2 && s[1] == 't' && s[2] == 'r')
  {
  }

  lemma NoTextTwin(a: Triple, b: Triple)
    requires a.text.None? && b.text.None? && Allowed(a.text, a.trust, a.x402) && Twin(a, b)
    ensures Ambiguous(a.text, a.trust, a.x402)
  {
    hide Blank;
    FirstPart(a);
    FirstPart(b);
    hide Ending;
    if a.trust.None? {
      EndingFlag(a.x402);
      EndingFlag(b.x402);
      FlagsRead(a.x402, b.x402);
    } else if a.x402.None? {
      var s, t, y := a.trust.value, b.trust.value, Part(X402, b.x402);
      EndingTrust(s, None);
      EndingTrust(t, b.x402);
      assert s + Part(X402, None) == s;
      Cancel("&trust=", s, t + y);
      assert s[..|t|] == t && s[|t|..] == y;
      assert b.x402.None? ==> t + y == t;
      if b.x402.Some? {
        FlagPart(b.x402.value);
        FlagWord(b.x402.value);
        assert FlagFrom(s, |t|);
      }
    }
  }

  lemma FlagWord(s: string)
    requires IsFlag(s)
    ensures "&x402=" + s == "&x402=true" || "&x402=" + s == "&x402=false"
  {
  }

  lemma EndingFlag(x402: Option<string>)
    ensures Ending(None, None, x402) == Part(X402, x402)
  {
  }

  lemma FlagsRead(a: Option<string>, b: Option<string>)
    requires Part(X402, a) == Part(X402, b)
    ensures a == b
  {
    if a.Some? && b.Some? {
      FlagPart(a.value);
      FlagPart(b.value);
      Cancel("&x402=", a.value, b.value);
    }
  }

  lemma TextTwin(a: Triple, b: Triple)
    requires a.text.Some? && b.text.Some? && Allowed(a.text, a.trust, a.x402) && Twin(a, b)
    ensures Ambiguous(a.text, a.trust, a.x402)
  {
    hide Blank;
    hide Ending;
    if a.trust.None? && a.x402.None? {
      var s, t := a.text.value, b.text.value;
      var more := Part(Trust, b.trust) + Part(X402, b.x402);
      EndingText(s, None, None);
      EndingText(t, b.trust, b.x402);
      assert s + (Part(Trust, None) + Part(X402, None)) == s;
      Cancel("&text=", s, t + more);
      assert more == "" ==> t + more == t;
      assert s[..|t|] == t && s[|t|..] == more;
      if b.trust.Some? {
        var rest := b.trust.value + Part(X402, b.x402);
        TrustPart(b.trust.value);
        assert more == "&trust=" + rest;
        assert more[7..] == rest;
        NotBlankConcat(b.trust.value, Part(X402, b.x402));
        assert TrustFrom(s, |t|);
      } else if b.x402.Some? {
        assert more == Part(X402, b.x402);
        FlagPart(b.x402.value);
        FlagWord(b.x402.value);
        assert FlagFrom(s, |t|);
      }
    }
  }

  /** Another reading exists exactly for an ambiguous ending. */
  lemma TwinExactly(a: Triple)
    requires Allowed(a.text, a.trust, a.x402)
    ensures (exists b :: Twin(a, b)) <==> Ambiguous(a.text, a.trust, a.x402)
  {
    hide Twin;
    hide Ambiguous;
    hide Allowed;
    if Ambiguous(a.text, a.trust, a.x402) {
      var b := TwinOf(a);
    }
    forall b | Twin(a, b) ensures Ambiguous(a.text, a.trust, a.x402) {
      SameFirstPart(a, b);
      if a.text.Some? {
        TextTwin(a, b);
      } else {
        NoTextTwin(a, b);
      }
    }
  }

  lemma SameFirstPart(a: Triple, b: Triple)
    requires Twin(a, b)
    ensures a.text.Some? <==> b.text.Some?
  {
    hide Ending;
    FirstPart(a);
    FirstPart(b);
  }

  // ---------------------------------------------------------------- which searches share cursors

  function TripleOf(ps: Params): Triple {
    Triple(Lookup(ps, Text), Lookup(ps, Trust), Lookup(ps, X402))
  }

  function Put(ps: Params, n: Name, v: Option<string>): Params {
    if v.Some? then ps[n := v.value] else map m | m in ps && m != n :: ps[m]
  }

  /** The same search but for its free texts and the flag after them. */
  function WithTriple(ps: Params, t: Triple): Params {
    Put(Put(Put(ps, Text, t.text), Trust, t.trust), X402, t.x402)
  }

  lemma PutAccepted(ps: Params, n: Name, v: Option<string>, env: string, inRange: string -> bool)
    requires Accepted(ps, env, inRange) && n != Network && (v.Some? ==> AcceptedValue(n, v.value, env, inRange))
    ensures Accepted(Put(ps, n, v), env, inRange)
    ensures forall m :: Lookup(Put(ps, n, v), m) == if m == n then v else Lookup(ps, m)
  {
    hide AcceptedValue;
  }

  lemma WithTripleAccepted(ps: Params, t: Triple, env: string, inRange: string -> bool)
    requires Accepted(ps, env, inRange) && Allowed(t.text, t.trust, t.x402)
    ensures Accepted(WithTriple(ps, t), env, inRange) && TripleOf(WithTriple(ps, t)) == t
    ensures forall n | n in HEAD :: Lookup(WithTriple(ps, t), n) == Lookup(ps, n)
  {
    hide Blank;
    hide Put;
    hide Accepted;
    hide IsFlag;
    PutAccepted(ps, Text, t.text, env, inRange);
    PutAccepted(Put(ps, Text, t.text), Trust, t.trust, env, inRange);
    PutAccepted(Put(Put(ps, Text, t.text), Trust, t.trust), X402, t.x402, env, inRange);
  }

  lemma AcceptedAllows(ps: Params, env: string, inRange: string -> bool)
    requires Accepted(ps, env, inRange)
    ensures var t := TripleOf(ps); Allowed(t.text, t.trust, t.x402)
    ensures Network in ps
  {
    hide Blank;
    hide IsFlag;
    assert Text in ps ==> AcceptedValue(Text, ps[Text], env, inRange);
    assert Trust in ps ==> AcceptedValue(Trust, ps[Trust], env, inRange);
    assert X402 in ps ==> AcceptedValue(X402, ps[X402], env, inRange);
  }

  /** Accepted searches share a query exactly when they agree on everything else and their endings are equal. */
  lemma SharedQuery(ps: Params, qs: Params, env: string, inRange: string -> bool)
    requires Accepted(ps, env, inRange) && Accepted(qs, env, inRange)
    ensures Query(ps) == Query(qs) <==>
              && (forall n | n in HEAD :: Lookup(ps, n) == Lookup(qs, n))
              && var a, b := TripleOf(ps), TripleOf(qs); Ending(a.text, a.trust, a.x402) == Ending(b.text, b.trust, b.x402)
  {
    hide Parts;
    hide Ending;
    hide Peelable;
    hide Distinct;
    AcceptedAllows(ps, env, inRange);
    AcceptedAllows(qs, env, inRange);
    QueryIsParts(ps, qs);
    NamesSplit();
    TailIsEnding(ps);
    TailIsEnding(qs);
    forall n | n in HEAD ensures Peelable(ps, qs, n) {
      HeadPeelable(ps, qs, env, inRange, n);
    }
    hide Accepted;
    if Parts(ps, NAMES) == Parts(qs, NAMES) {
      PeelAll(ps, qs, HEAD, TAIL);
    }
    if (forall n | n in HEAD :: Lookup(ps, n) == Lookup(qs, n)) && Parts(ps, TAIL) == Parts(qs, TAIL) {
      SameParts(ps, qs, HEAD);
      PartsConcat(ps, HEAD, TAIL);
      PartsConcat(qs, HEAD, TAIL);
    }
  }

  lemma SameSearch(ps: Params, qs: Params)
    requires (forall n | n in HEAD :: Lookup(ps, n) == Lookup(qs, n)) && TripleOf(ps) == TripleOf(qs)
    ensures ps == qs
  {
    forall n ensures Lookup(ps, n) == Lookup(qs, n) {
      assert n in HEAD || n == Text || n == Trust || n == X402 by {
        match n
        case HasServices => assert HEAD[0] == n;
        case MinScore => assert HEAD[1] == n;
        case Mpp => assert HEAD[2] == n;
        case Network => assert HEAD[3] == n;
        case Sort => assert HEAD[4] == n;
        case _ =>
      }
    }
    assert forall n :: n in ps <==> Lookup(ps, n).Some?;
    assert forall n :: n in qs <==> Lookup(qs, n).Some?;
  }

  /** Another search the handler accepts has the same query. */
  predicate OtherSearch(ps: Params, qs: Params, env: string, inRange: string -> bool) {
    qs != ps && Accepted(qs, env, inRange) && Query(qs) == Query(ps)
  }

  /**
   * A search shares its query with another accepted search exactly when two of its text, trust and x402
   * are given, or the one free text it has reads as itself and another parameter.
   */
  lemma SharedExactly(ps: Params, env: string, inRange: string -> bool)
    requires Accepted(ps, env, inRange)
    ensures (exists qs :: OtherSearch(ps, qs, env, inRange)) <==> Ambiguous(Lookup(ps, Text), Lookup(ps, Trust), Lookup(ps, X402))
  {
    hide Accepted;
    hide Allowed;
    hide Ending;
    hide Query;
    hide Ambiguous;
    var a := TripleOf(ps);
    AcceptedAllows(ps, env, inRange);
    TwinExactly(a);
    if exists b :: Twin(a, b) {
      var b :| Twin(a, b);
      var qs := WithTriple(ps, b);
      hide WithTriple;
      WithTripleAccepted(ps, b, env, inRange);
      SharedQuery(ps, qs, env, inRange);
      assert OtherSearch(ps, qs, env, inRange);
    }
    forall qs | OtherSearch(ps, qs, env, inRange) ensures Twin(a, TripleOf(qs)) {
      SharedQuery(ps, qs, env, inRange);
      AcceptedAllows(qs, env, inRange);
      if TripleOf(qs) == a {
        SameSearch(ps, qs);
      }
    }
  }

  lemma SharedSort(ps: Params, qs: Params, env: string, inRange: string -> bool)
    requires Accepted(ps, env, inRange) && Accepted(qs, env, inRange) && Query(ps) == Query(qs)
    ensures SortOf(ps) == SortOf(qs)
  {
    hide Accepted;
    hide Query;
    hide Ending;
    SharedQuery(ps, qs, env, inRange);
    assert HEAD[4] == Sort;
    assert Lookup(ps, Sort) == Lookup(qs, Sort);
  }

  /** The handler answers `qs` from the place in a cursor issued to `ps`. */
  predicate Continues(ps: Params, qs: Params, k: Place, env: string, inRange: string -> bool)
    requires Issued(k)
  {
    && Accepted(qs, env, inRange)
    && EncodeCursor(Query(ps), k).Some?
    && DecodeCursor(EncodeCursor(Query(ps), k).value, Query(qs), SortOf(qs)) == Some(k)
  }

  /**
   * A cursor issued to a search continues that search, and another accepted one exactly when the search
   * is ambiguous.
   */
  lemma CursorBinds(ps: Params, k: Place, env: string, inRange: string -> bool)
    requires Accepted(ps, env, inRange) && Issued(k) && Fits(SortOf(ps), k) && EncodeCursor(Query(ps), k).Some?
    ensures Continues(ps, ps, k, env, inRange)
    ensures (exists qs :: qs != ps && Continues(ps, qs, k, env, inRange))
            <==> Ambiguous(Lookup(ps, Text), Lookup(ps, Trust), Lookup(ps, X402))
  {
    hide Accepted;
    hide Query;
    hide Ambiguous;
    hide EncodeCursor;
    hide DecodeCursor;
    hide SortOf;
    CursorRoundTrip(Query(ps), k, Query(ps), SortOf(ps));
    SharedExactly(ps, env, inRange);
    if exists qs :: OtherSearch(ps, qs, env, inRange) {
      var qs :| OtherSearch(ps, qs, env, inRange);
      SharedSort(ps, qs, env, inRange);
      CursorRoundTrip(Query(ps), k, Query(qs), SortOf(qs));
      assert Continues(ps, qs, k, env, inRange);
    }
    forall qs | qs != ps && Continues(ps, qs, k, env, inRange) ensures OtherSearch(ps, qs, env, inRange) {
      CursorRoundTrip(Query(ps), k, Query(qs), SortOf(qs));
    }
  }

  /** Any free text with a trust after it reads as one longer text: two accepted searches share a cursor. */
  lemma Collision(env: string, inRange: string -> bool, text: string, trust: string)
    requires env != "" && !Blank(text) && !Blank(trust)
    ensures var ps := map[Network := env, Text := text, Trust := trust];
            var qs := map[Network := env, Text := text + "&trust=" + trust];
            Accepted(ps, env, inRange) && OtherSearch(ps, qs, env, inRange)
  {
    hide Blank;
    hide Query;
    hide Ending;
    var swallowed := text + "&trust=" + trust;
    var ps, qs := map[Network := env, Text := text, Trust := trust], map[Network := env, Text := swallowed];
    assert swallowed == text + ("&trust=" + trust);
    NotBlankConcat(text, "&trust=" + trust);
    assert Accepted(ps, env, inRange) && Accepted(qs, env, inRange);
    EndingText(text, Some(trust), None);
    EndingText(swallowed, None, None);
    TrustPart(trust);
    assert "&trust=" + trust + Part(X402, None) == "&trust=" + trust;
    assert swallowed + (Part(Trust, None) + Part(X402, None)) == swallowed;
    SharedQuery(ps, qs, env, inRange);
  }

  // ---------------------------------------------------------------- what the handler accepts, and the query it binds

  /** Which order each sort text gives. */
  lemma SortChosen(ps: Params, env: string, inRange: string -> bool)
    requires Accepted(ps, env, inRange)
    ensures SortOf(ps) == Discovery.ByScore <==> Lookup(ps, Sort) in {None, Some("score")}
    ensures SortOf(ps) == Discovery.Newest <==> Lookup(ps, Sort) == Some("newest")
    ensures SortOf(ps) == Discovery.ById <==> Lookup(ps, Sort) == Some("id")
  {
    assert Sort in ps ==> AcceptedValue(Sort, ps[Sort], env, inRange);
  }

  /** A search is accepted by the values of its parameters: its own network, and each other one in its form. */
  lemma AcceptedExactly(ps: Params, env: string, inRange: string -> bool)
    ensures Accepted(ps, env, inRange) <==>
              && env != "" && Lookup(ps, Network) == Some(env)
              && Lookup(ps, Sort) in {None, Some("score"), Some("newest"), Some("id")}
              && Lookup(ps, X402) in {None, Some("true"), Some("false")} && Lookup(ps, Mpp) in {None, Some("true"), Some("false")}
              && Lookup(ps, HasServices) in {None, Some("true"), Some("false")}
              && (Text in ps ==> exists c :: c in ps[Text] && !IsSpace(c)) && (Trust in ps ==> exists c :: c in ps[Trust] && !IsSpace(c))
              && (MinScore in ps ==>
                    && inRange(ps[MinScore]) && (exists c :: c in ps[MinScore] && !IsSpace(c))
                    && forall c | c in ps[MinScore] :: IsSpace(c) || c in "0123456789+-.xXoOaAbBcCdDeEfF")
  {
  }

  /** The white space of ECMAScript. */
  lemma Spaces(c: char)
    ensures IsSpace(c) <==>
              c in ['\U{9}', '\U{A}', '\U{B}', '\U{C}', '\U{D}', ' ', '\U{A0}', '\U{1680}', '\U{2000}', '\U{2001}', '\U{2002}', '\U{2003}',
                    '\U{2004}', '\U{2005}', '\U{2006}', '\U{2007}', '\U{2008}', '\U{2009}', '\U{200A}', '\U{2028}', '\U{2029}', '\U{202F}',
                    '\U{205F}', '\U{3000}', '\U{FEFF}']
  {
  }

  lemma NextPart(ps: Params, acc: string, k: nat, sign: string, value: string)
    requires k < 8 && Lookup(ps, NAMES[k]) == Some(value) && sign == "&" + Spelled(NAMES[k]) + "="
    ensures acc + Parts(ps, NAMES[k..]) == acc + sign + value + Parts(ps, NAMES[k + 1..])
  {
    hide Spelled;
    assert NAMES[k..][0] == NAMES[k] && NAMES[k..][1..] == NAMES[k + 1..];
    var rest := Parts(ps, NAMES[k + 1..]);
    assert Part(NAMES[k], Some(value)) == sign + value;
    assert acc + ((sign + value) + rest) == acc + sign + value + rest;
  }

  lemma AllParts(ps: Params, signs: seq<string>, values: seq<string>)
    requires |signs| == 8 && |values| == 8
    requires forall k | 0 <= k < 8 :: Lookup(ps, NAMES[k]) == Some(values[k]) && signs[k] == "&" + Spelled(NAMES[k]) + "="
    ensures Parts(ps, NAMES) == signs[0] + values[0] + signs[1] + values[1] + signs[2] + values[2] + signs[3] + values[3]
                              + signs[4] + values[4] + signs[5] + values[5] + signs[6] + values[6] + signs[7] + values[7]
  {
    hide Spelled;
    var acc, k := "", 0;
    assert NAMES[0..] == NAMES && NAMES[8..] == [];
    assert acc + Parts(ps, NAMES) == Parts(ps, NAMES);
    while k < 8
      invariant 0 <= k <= 8 && acc == Built(signs, values, k)
      invariant acc + Parts(ps, NAMES[k..]) == Parts(ps, NAMES)
    {
      NextPart(ps, acc, k, signs[k], values[k]);
      acc := acc + signs[k] + values[k];
      k := k + 1;
    }
    assert acc + Parts(ps, []) == acc;
    BuiltEight(signs, values);
  }

  function Built(signs: seq<string>, values: seq<string>, n: nat): string
    requires n <= |signs| && n <= |values|
  {
    if n == 0 then "" else Built(signs, values, n - 1) + signs[n - 1] + values[n - 1]
  }

  lemma BuiltEight(signs: seq<string>, values: seq<string>)
    requires |signs| == 8 && |values| == 8
    ensures Built(signs, values, 8) == signs[0] + values[0] + signs[1] + values[1] + signs[2] + values[2] + signs[3] + values[3]
                                     + signs[4] + values[4] + signs[5] + values[5] + signs[6] + values[6] + signs[7] + values[7]
  {
    assert Built(signs, values, 1) == signs[0] + values[0];
    assert Built(signs, values, 4) == Built(signs, values, 2) + signs[2] + values[2] + signs[3] + values[3];
    assert Built(signs, values, 6) == Built(signs, values, 4) + signs[4] + values[4] + signs[5] + values[5];
  }

  lemma Signs()
    ensures "&" + Spelled(HasServices) + "=" == "&hasServices=" && "&" + Spelled(MinScore) + "=" == "&minScore="
    ensures "&" + Spelled(Mpp) + "=" == "&mpp=" && "&" + Spelled(Network) + "=" == "&network="
    ensures "&" + Spelled(Sort) + "=" == "&sort=" && "&" + Spelled(Text) + "=" == "&text="
    ensures "&" + Spelled(Trust) + "=" == "&trust=" && "&" + Spelled(X402) + "=" == "&x402="
  {
  }

  /** The query of a search with every parameter: names in order, joined as in a URL. */
  lemma FullQuery(services: string, minScore: string, mpp: string, network: string, sort: string, text: string, trust: string, x402: string)
    ensures "&" + Query(map[HasServices := services, MinScore := minScore, Mpp := mpp, Network := network, Sort := sort, Text := text,
                            Trust := trust, X402 := x402])
         == "&hasServices=" + services + "&minScore=" + minScore + "&mpp=" + mpp + "&network=" + network + "&sort=" + sort
          + "&text=" + text + "&trust=" + trust + "&x402=" + x402
  {
    hide Spelled;
    hide Parts;
    hide Join;
    hide Listed;
    var ps := map[HasServices := services, MinScore := minScore, Mpp := mpp, Network := network, Sort := sort, Text := text,
                  Trust := trust, X402 := x402];
    assert NAMES[3] == Network;
    NameListed(ps, NAMES, 3);
    JoinIsParts(ps, NAMES);
    Signs();
    AllParts(ps, ["&hasServices=", "&minScore=", "&mpp=", "&network=", "&sort=", "&text=", "&trust=", "&x402="],
             [services, minScore, mpp, network, sort, text, trust, x402]);
  }
}
