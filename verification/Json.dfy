// JSON text as JSON.parse reads it, and strings and numbers as JSON.stringify writes them.
module Json {
  import opened Basics

  /** A number is represented by its literal. */
  datatype Json =
    | Null
    | Truth(value: bool)
    | Number(literal: string)
    | Text(text: string)
    | Array(items: seq<Json>)
    | Object(members: seq<(string, Json)>)

  datatype Parsed<T> = Parsed(value: T, rest: string) | Wrong

  // ---------------------------------------------------------------- numbers

  predicate IsDigit(c: char) {
    '0' <= c <= '9'
  }

  predicate OfNumber(c: char) {
    IsDigit(c) || c in "+-.eE"
  }

  /** The longest beginning made of digits, or of any characters a number may hold. */
  function Digits(s: string): (d: string)
    ensures d <= s && forall c | c in d :: IsDigit(c)
  {
    if s == "" || !IsDigit(s[0]) then "" else [s[0]] + Digits(s[1..])
  }

  function Run(s: string): (d: string)
    ensures d <= s
  {
    if s == "" || !OfNumber(s[0]) then "" else [s[0]] + Run(s[1..])
  }

  function Unsigned(s: string): string {
    if s != "" && s[0] == '-' then s[1..] else s
  }

  predicate IsExponent(s: string) {
    s == "" || (s[0] in "eE" &&
      var digits := if |s| > 1 && s[1] in "+-" then s[2..] else s[1..];
      digits != "" && Digits(digits) == digits)
  }

  predicate IsFraction(s: string) {
    if s != "" && s[0] == '.' then Digits(s[1..]) != "" && IsExponent(s[1 + |Digits(s[1..])|..]) else IsExponent(s)
  }

  predicate IsLiteral(s: string) {
    var t := Unsigned(s);
    var whole := Digits(t);
    && whole != "" && (whole[0] == '0' ==> |whole| == 1) && IsFraction(t[|whole|..])
    && forall c | c in s :: OfNumber(c)
  }

  function DigitValue(c: char): nat
    requires IsDigit(c)
  {
    c as int - '0' as int
  }

  function ValueOf(digits: string): nat
    requires forall c | c in digits :: IsDigit(c)
  {
    if digits == "" then 0
    else
      var k := |digits| - 1;
      assert digits[k] in digits;
      ValueOf(digits[..k]) * 10 + DigitValue(digits[k])
  }

  function Power(n: nat): nat {
    if n == 0 then 1 else 10 * Power(n - 1)
  }

  function ExponentOf(s: string): int
    requires IsExponent(s)
  {
    if s == "" then 0
    else if |s| > 1 && s[1] in "+-" then (if s[1] == '-' then -1 else 1) * ValueOf(Digits(s[2..]))
    else ValueOf(Digits(s[1..]))
  }

  /** The whole number a literal stands for, if it stands for one. */
  function WholeNumber(s: string): Option<int>
    requires IsLiteral(s)
  {
    var t := Unsigned(s);
    var whole := Digits(t);
    var tail := t[|whole|..];
    var fraction := if tail != "" && tail[0] == '.' then Digits(tail[1..]) else "";
    var exponent := if tail != "" && tail[0] == '.' then tail[1 + |fraction|..] else tail;
    var scale := ExponentOf(exponent) - |fraction|;
    var mantissa := ValueOf(whole + fraction);
    var sign := if t == s then 1 else -1;
    if scale >= 0 then Some(sign * mantissa * Power(scale))
    else if Power(-scale) > 0 && mantissa % Power(-scale) == 0 then Some(sign * (mantissa / Power(-scale)))
    else None
  }

  /** A natural number in decimal. */
  function Decimal(n: nat): (s: string)
    ensures s != "" && forall c | c in s :: IsDigit(c)
  {
    (if n < 10 then "" else Decimal(n / 10)) + [(n % 10 + '0' as int) as char]
  }

  lemma {:induction false} AllDigits(s: string, rest: string)
    requires (forall c | c in s :: IsDigit(c)) && (rest == "" || !IsDigit(rest[0]))
    ensures Digits(s + rest) == s
  {
    if s == "" {
      assert s + rest == rest;
    } else {
      assert (s + rest)[1..] == s[1..] + rest && s[0] in s;
      assert forall c | c in s[1..] :: c in s;
      AllDigits(s[1..], rest);
    }
  }

  lemma {:induction false} AllOfNumber(s: string, rest: string)
    requires (forall c | c in s :: OfNumber(c)) && (rest == "" || !OfNumber(rest[0]))
    ensures Run(s + rest) == s
  {
    if s == "" {
      assert s + rest == rest;
    } else {
      assert (s + rest)[1..] == s[1..] + rest && s[0] in s;
      assert forall c | c in s[1..] :: c in s;
      AllOfNumber(s[1..], rest);
    }
  }

  lemma {:induction false} DecimalStart(n: nat)
    ensures Decimal(n)[0] == '0' ==> n == 0 && |Decimal(n)| == 1
    ensures ValueOf(Decimal(n)) == n
  {
    if n >= 10 {
      DecimalStart(n / 10);
      assert Decimal(n)[..|Decimal(n)| - 1] == Decimal(n / 10);
    } else {
      assert Decimal(n)[..0] == "";
    }
  }

  lemma PlainDigits(s: string)
    requires s != "" && (forall c | c in s :: IsDigit(c)) && (s[0] == '0' ==> |s| == 1)
    ensures Unsigned(s) == s && Digits(s) == s && s[|s|..] == "" && IsLiteral(s)
  {
    assert s[0] in s;
    assert s + "" == s;
    AllDigits(s, "");
  }

  lemma PlainWhole(s: string)
    requires s != "" && (forall c | c in s :: IsDigit(c)) && (s[0] == '0' ==> |s| == 1)
    ensures IsLiteral(s) && WholeNumber(s) == Some(ValueOf(s))
  {
    hide IsLiteral;
    hide Digits;
    hide ValueOf;
    PlainDigits(s);
    assert s + "" == s;
    assert ExponentOf("") == 0 && Power(0) == 1;
  }

  /** Decimal digits are a number literal for that number. */
  lemma DecimalIsLiteral(n: nat)
    ensures IsLiteral(Decimal(n)) && WholeNumber(Decimal(n)) == Some(n)
  {
    hide IsLiteral;
    hide WholeNumber;
    hide ValueOf;
    DecimalStart(n);
    PlainWhole(Decimal(n));
  }

  // ---------------------------------------------------------------- strings

  function HexDigit(d: nat): char
    requires d < 16
  {
    if d < 10 then (d + '0' as int) as char else (d - 10 + 'a' as int) as char
  }

  function HexValue(c: char): (d: Option<nat>)
    ensures d.Some? ==> d.value < 16
  {
    if '0' <= c <= '9' then Some(c as int - '0' as int)
    else if 'a' <= c <= 'f' then Some(c as int - 'a' as int + 10)
    else if 'A' <= c <= 'F' then Some(c as int - 'A' as int + 10)
    else None
  }

  const BACKSPACE: char := 8 as char
  const FORM_FEED: char := 12 as char

  /** One character inside quotes: signs, backslashes and control characters are escaped. */
  function Escape(c: char): string {
    if c == '"' then "\\\""
    else if c == '\\' then "\\\\"
    else if c == BACKSPACE then "\\b"
    else if c == FORM_FEED then "\\f"
    else if c == '\n' then "\\n"
    else if c == '\r' then "\\r"
    else if c == '\t' then "\\t"
    else if (c as int) < 32 then "\\u00" + [HexDigit(c as int / 16), HexDigit(c as int % 16)]
    else [c]
  }

  function Escaped(s: string): string {
    if s == "" then "" else Escape(s[0]) + Escaped(s[1..])
  }

  function Quoted(s: string): string {
    "\"" + Escaped(s) + "\""
  }

  /** Four hexadecimal digits; a surrogate is no character by itself. */
  function Hex4(s: string): Option<char> {
    if |s| < 4 then None
    else
      var a, b, c, d := HexValue(s[0]), HexValue(s[1]), HexValue(s[2]), HexValue(s[3]);
      if a.None? || b.None? || c.None? || d.None? then None
      else
        var code := ((a.value * 16 + b.value) * 16 + c.value) * 16 + d.value;
        if 0xD800 <= code < 0xE000 then None else Some(code as char)
  }

  /** The character an escape stands for, and what follows; `s` is what follows the backslash. */
  function Unescape(s: string): (p: Parsed<char>)
    ensures p.Parsed? ==> |p.rest| < |s|
  {
    if s == "" then Wrong
    else if s[0] in "\"\\/" then Parsed(s[0], s[1..])
    else if s[0] == 'b' then Parsed(BACKSPACE, s[1..])
    else if s[0] == 'f' then Parsed(FORM_FEED, s[1..])
    else if s[0] == 'n' then Parsed('\n', s[1..])
    else if s[0] == 'r' then Parsed('\r', s[1..])
    else if s[0] == 't' then Parsed('\t', s[1..])
    else if s[0] == 'u' && Hex4(s[1..]).Some? then Parsed(Hex4(s[1..]).value, s[5..])
    else Wrong
  }

  /** The text up to the closing quote. */
  function ParseText(s: string): (p: Parsed<string>)
    ensures p.Parsed? ==> |p.rest| < |s|
    decreases |s|
  {
    if s == "" || (s[0] as int) < 32 then Wrong
    else if s[0] == '"' then Parsed("", s[1..])
    else
      var first := if s[0] == '\\' then Unescape(s[1..]) else Parsed(s[0], s[1..]);
      if first.Wrong? then Wrong
      else
        match ParseText(first.rest)
        case Parsed(text, rest) => Parsed([first.value] + text, rest)
        case Wrong => Wrong
  }

  lemma HexDigitValue(d: nat)
    requires d < 16
    ensures HexValue(HexDigit(d)) == Some(d)
  {
  }

  lemma UnescapeControl(c: char, rest: string)
    requires (c as int) < 32
    ensures Unescape("u00" + [HexDigit(c as int / 16), HexDigit(c as int % 16)] + rest) == Parsed(c, rest)
  {
    var x, y := c as int / 16, c as int % 16;
    var s := "u00" + [HexDigit(x), HexDigit(y)] + rest;
    HexDigitValue(0);
    HexDigitValue(x);
    HexDigitValue(y);
    assert s[5..] == rest;
    assert s[1..][0] == '0' && s[1..][1] == '0' && s[1..][2] == HexDigit(x) && s[1..][3] == HexDigit(y);
  }

  /** What an escaped character adds in front of a text. */
  lemma EscapeParses(c: char, s: string)
    ensures ParseText(Escape(c) + s)
         == match ParseText(s) case Parsed(text, rest) => Parsed([c] + text, rest) case Wrong => Wrong
  {
    var e := Escape(c) + s;
    if e[0] == '\\' {
      assert e[1..] == Escape(c)[1..] + s;
      if |Escape(c)| == 6 {
        UnescapeControl(c, s);
        assert Escape(c)[1..] == "u00" + [HexDigit(c as int / 16), HexDigit(c as int % 16)];
      } else {
        assert e[1..][1..] == s;
      }
      assert Unescape(e[1..]) == Parsed(c, s);
    } else {
      assert e[1..] == s;
    }
  }

  /** Parsing undoes quoting, whatever follows. */
  lemma {:induction false} QuotedParses(s: string, rest: string)
    ensures ParseText(Escaped(s) + "\"" + rest) == Parsed(s, rest)
  {
    hide Escape;
    hide Unescape;
    if s == "" {
      assert Escaped(s) + "\"" + rest == "\"" + rest;
      assert ("\"" + rest)[1..] == rest;
    } else {
      QuotedParses(s[1..], rest);
      var tail := Escaped(s[1..]) + "\"" + rest;
      assert Escaped(s) + "\"" + rest == Escape(s[0]) + tail;
      EscapeParses(s[0], tail);
      assert [s[0]] + s[1..] == s;
    }
  }

  predicate Latin1(s: string) {
    forall c | c in s :: (c as int) < 256
  }

  lemma EscapeLatin1(c: char)
    ensures Latin1(Escape(c)) <==> (c as int) < 256
  {
    if (c as int) >= 256 {
      assert c in Escape(c);
    }
  }

  lemma Latin1Concat(s: string, t: string)
    ensures Latin1(s + t) <==> Latin1(s) && Latin1(t)
  {
    if Latin1(s + t) {
      forall c | c in s ensures (c as int) < 256 {
        assert c in s + t;
      }
      forall c | c in t ensures (c as int) < 256 {
        assert c in s + t;
      }
    }
  }

  /** Quoting adds and removes no character above 255. */
  lemma {:induction false} QuotedLatin1(s: string)
    ensures Latin1(Escaped(s)) <==> Latin1(s)
  {
    hide Escape;
    hide Latin1;
    if s != "" {
      QuotedLatin1(s[1..]);
      EscapeLatin1(s[0]);
      Latin1Concat(Escape(s[0]), Escaped(s[1..]));
      assert s == [s[0]] + s[1..];
      Latin1Concat([s[0]], s[1..]);
      OneLatin1(s[0]);
    } else {
      assert Escaped(s) == s;
    }
  }

  lemma OneLatin1(c: char)
    ensures Latin1([c]) <==> (c as int) < 256
  {
    assert c in [c];
  }

  // ---------------------------------------------------------------- values

  function SkipSpace(s: string): (r: string)
    ensures |r| <= |s| && (r == "" || r[0] !in " \t\n\r")
  {
    if s != "" && s[0] in " \t\n\r" then SkipSpace(s[1..]) else s
  }

  predicate Starts(s: string, c: char) {
    s != "" && s[0] == c
  }

  function ParseValue(text: string): (p: Parsed<Json>)
    ensures p.Parsed? ==> |p.rest| < |text|
    decreases |text|, 0
  {
    var s := SkipSpace(text);
    if Starts(s, '"') then
      match ParseText(s[1..])
      case Parsed(t, rest) => Parsed(Text(t), rest)
      case Wrong => Wrong
    else if Starts(s, '[') then
      var inner := SkipSpace(s[1..]);
      if Starts(inner, ']') then Parsed(Array([]), inner[1..])
      else
        (match ParseItems(inner)
         case Parsed(items, rest) => Parsed(Array(items), rest)
         case Wrong => Wrong)
    else if Starts(s, '{') then
      var inner := SkipSpace(s[1..]);
      if Starts(inner, '}') then Parsed(Object([]), inner[1..])
      else
        (match ParseMembers(inner)
         case Parsed(members, rest) => Parsed(Object(members), rest)
         case Wrong => Wrong)
    else if "null" <= s then Parsed(Null, s[4..])
    else if "true" <= s then Parsed(Truth(true), s[4..])
    else if "false" <= s then Parsed(Truth(false), s[5..])
    else if IsLiteral(Run(s)) then Parsed(Number(Run(s)), s[|Run(s)|..])
    else Wrong
  }

  /** The rest of an array after its bracket: at least one item. */
  function ParseItems(text: string): (p: Parsed<seq<Json>>)
    ensures p.Parsed? ==> |p.rest| < |text|
    decreases |text|, 1
  {
    match ParseValue(text)
    case Wrong => Wrong
    case Parsed(item, rest) =>
      var s := SkipSpace(rest);
      if Starts(s, ']') then Parsed([item], s[1..])
      else if Starts(s, ',') then
        match ParseItems(s[1..])
        case Parsed(items, r) => Parsed([item] + items, r)
        case Wrong => Wrong
      else Wrong
  }

  /** The rest of an object after its brace: at least one member. */
  function ParseMembers(text: string): (p: Parsed<seq<(string, Json)>>)
    ensures p.Parsed? ==> |p.rest| < |text|
    decreases |text|, 1
  {
    var t := SkipSpace(text);
    if !Starts(t, '"') then Wrong
    else
      match ParseText(t[1..])
      case Wrong => Wrong
      case Parsed(name, afterName) =>
        var u := SkipSpace(afterName);
        if !Starts(u, ':') then Wrong
        else
          match ParseValue(u[1..])
          case Wrong => Wrong
          case Parsed(value, rest) =>
            var s := SkipSpace(rest);
            if Starts(s, '}') then Parsed([(name, value)], s[1..])
            else if Starts(s, ',') then
              match ParseMembers(s[1..])
              case Parsed(members, r) => Parsed([(name, value)] + members, r)
              case Wrong => Wrong
            else Wrong
  }

  /** JSON.parse: one value and nothing after it; None where it throws. */
  function Parse(text: string): Option<Json> {
    match ParseValue(text)
    case Parsed(v, rest) => if SkipSpace(rest) == "" then Some(v) else None
    case Wrong => None
  }

  /** A property of a parsed object: the last of its name. */
  function Property(members: seq<(string, Json)>, name: string): Option<Json> {
    if members == [] then None
    else
      var (n, v) := members[|members| - 1];
      if n == name then Some(v) else Property(members[..|members| - 1], name)
  }

  // ---------------------------------------------------------------- what is written is read back

  lemma TextParses(s: string, rest: string)
    ensures ParseValue(Quoted(s) + rest) == Parsed(Text(s), rest)
  {
    hide ParseText;
    QuotedParses(s, rest);
    assert (Quoted(s) + rest)[1..] == Escaped(s) + "\"" + rest;
  }

  lemma LiteralStart(literal: string)
    requires IsLiteral(literal)
    ensures literal != "" && (literal[0] == '-' || IsDigit(literal[0])) && forall c | c in literal :: OfNumber(c)
  {
  }

  lemma NumberParses(literal: string, rest: string)
    requires IsLiteral(literal) && (rest == "" || !OfNumber(rest[0]))
    ensures ParseValue(literal + rest) == Parsed(Number(literal), rest)
  {
    hide IsLiteral;
    LiteralStart(literal);
    AllOfNumber(literal, rest);
    var s := literal + rest;
    assert s[0] == literal[0] && s[|literal|..] == rest;
    assert !("null" <= s) && !("true" <= s) && !("false" <= s) by {
      assert "null"[0] == 'n' && "true"[0] == 't' && "false"[0] == 'f';
    }
  }

  lemma LastItemParses(b: string, y: Json, rest: string)
    requires ParseValue(b + "]" + rest) == Parsed(y, "]" + rest)
    ensures ParseItems(b + "]" + rest) == Parsed([y], rest)
  {
    hide ParseValue;
    assert ("]" + rest)[1..] == rest;
  }

  lemma NextItemParses(a: string, x: Json, tail: string, items: seq<Json>, rest: string)
    requires ParseValue(a + "," + tail) == Parsed(x, "," + tail) && ParseItems(tail) == Parsed(items, rest)
    ensures ParseItems(a + "," + tail) == Parsed([x] + items, rest)
  {
    hide ParseValue;
    assert ("," + tail)[1..] == tail;
  }

  lemma ArrayOpens(inner: string, items: seq<Json>, rest: string)
    requires inner != "" && inner[0] !in " \t\n\r]" && ParseItems(inner) == Parsed(items, rest)
    ensures ParseValue("[" + inner) == Parsed(Array(items), rest)
  {
    assert ("[" + inner)[1..] == inner;
    ArrayParses("[" + inner, inner, items, rest);
  }

  /** A two-item array. */
  lemma PairParses(a: string, x: Json, b: string, y: Json, rest: string)
    requires var tail := b + "]" + rest; ParseValue(a + "," + tail) == Parsed(x, "," + tail)
    requires ParseValue(b + "]" + rest) == Parsed(y, "]" + rest)
    requires a != "" && a[0] !in " \t\n\r]"
    ensures ParseValue("[" + (a + "," + (b + "]" + rest))) == Parsed(Array([x, y]), rest)
  {
    hide ParseValue;
    hide ParseItems;
    var tail := b + "]" + rest;
    LastItemParses(b, y, rest);
    NextItemParses(a, x, tail, [y], rest);
    assert [x] + [y] == [x, y];
    ArrayOpens(a + "," + tail, [x, y], rest);
  }

  lemma ArrayParses(s: string, inner: string, items: seq<Json>, rest: string)
    requires Starts(s, '[') && s[1..] == inner && inner != "" && inner[0] !in " \t\n\r]"
    requires ParseItems(inner) == Parsed(items, rest)
    ensures ParseValue(s) == Parsed(Array(items), rest)
  {
    assert SkipSpace(s) == s && SkipSpace(inner) == inner;
  }
}
