// Discovery cursors: their text, and the searches they are accepted for.
module Cursor {
  import opened Basics
  import opened Json
  import opened Base64
  import Discovery

  // ---------------------------------------------------------------- encodeCursor and decodeCursor

  /** The sort column of the last row: a time as text, a score or id as a number's literal. */
  datatype Column = TimeText(text: string) | NumberText(literal: string)

  datatype Place = Place(column: Column, id: int)

  /** Keys the handler issues: agent ids are unsigned and number columns have number literals. */
  predicate Issued(k: Place) {
    k.id >= 0 && (k.column.NumberText? ==> IsLiteral(k.column.literal))
  }

  const MAX_SAFE_INTEGER: int := 0x1F_FFFF_FFFF_FFFF

  function ColumnJson(c: Column): Json {
    if c.TimeText? then Text(c.text) else Number(c.literal)
  }

  function ColumnText(c: Column): string {
    if c.TimeText? then Quoted(c.text) else c.literal
  }

  function CursorText(q: string, k: Place): string
    requires Issued(k)
  {
    "{\"q\":" + (Quoted(q) + (",\"k\":" + ("[" + (ColumnText(k.column) + "," + (Decimal(k.id) + "]" + "}")))))
  }

  function Bytes(s: string): seq<nat> {
    seq(|s|, i requires 0 <= i < |s| => s[i] as nat)
  }

  function Chars(bytes: seq<nat>): string {
    seq(|bytes|, i requires 0 <= i < |bytes| => if bytes[i] < 256 then bytes[i] as char else ' ')
  }

  /** btoa of the JSON text, made URL-safe; None where btoa throws. */
  function EncodeCursor(q: string, k: Place): Option<string>
    requires Issued(k)
  {
    var text := CursorText(q, k);
    if Latin1(text) then Some(Encoded(Bytes(text))) else None
  }

  function SafeInteger(j: Json): Option<int> {
    if !j.Number? || !IsLiteral(j.literal) then None
    else
      match WholeNumber(j.literal)
      case Some(n) => if -MAX_SAFE_INTEGER <= n <= MAX_SAFE_INTEGER then Some(n) else None
      case None => None
  }

  function ColumnOf(j: Json, sort: Discovery.Sort): Option<Column> {
    if sort.Newest? then (if j.Text? then Some(TimeText(j.text)) else None)
    else if j.Number? then Some(NumberText(j.literal)) else None
  }

  /** What a parsed cursor must be: the same query, and a key of the sort's type. */
  function Checked(j: Json, query: string, sort: Discovery.Sort): Option<Place> {
    if !j.Object? then None
    else
      var q, k := Property(j.members, "q"), Property(j.members, "k");
      if q != Some(Text(query)) || k.None? || !k.value.Array? || |k.value.items| != 2 then None
      else
        var column, id := ColumnOf(k.value.items[0], sort), SafeInteger(k.value.items[1]);
        if column.None? || id.None? then None else Some(Place(column.value, id.value))
  }

  function DecodeCursor(cursor: string, query: string, sort: Discovery.Sort): Option<Place> {
    match Decoded(cursor)
    case None => None
    case Some(bytes) =>
      match Parse(Chars(bytes))
      case None => None
      case Some(j) => Checked(j, query, sort)
  }

  function CursorJson(q: string, k: Place): Json
    requires Issued(k)
  {
    Object([("q", Text(q)), ("k", Array([ColumnJson(k.column), Number(Decimal(k.id))]))])
  }

  lemma ColumnParses(c: Column, rest: string)
    requires c.NumberText? ==> IsLiteral(c.literal)
    requires rest != "" && !OfNumber(rest[0])
    ensures ParseValue(ColumnText(c) + rest) == Parsed(ColumnJson(c), rest)
    ensures ColumnText(c) != "" && ColumnText(c)[0] !in " \t\n\r]"
  {
    hide ParseValue;
    hide IsLiteral;
    if c.TimeText? {
      TextParses(c.text, rest);
    } else {
      LiteralStart(c.literal);
      NumberParses(c.literal, rest);
    }
  }

  lemma PlaceParses(k: Place)
    requires Issued(k)
    ensures ParseValue("[" + (ColumnText(k.column) + "," + (Decimal(k.id) + "]" + "}")))
         == Parsed(Array([ColumnJson(k.column), Number(Decimal(k.id))]), "}")
  {
    hide ParseValue;
    hide IsLiteral;
    var id, tail := Decimal(k.id), Decimal(k.id) + "]" + "}";
    DecimalIsLiteral(k.id);
    NumberParses(id, "]" + "}");
    assert id + ("]" + "}") == tail;
    ColumnParses(k.column, "," + tail);
    assert ColumnText(k.column) + "," + tail == ColumnText(k.column) + ("," + tail);
    PairParses(ColumnText(k.column), ColumnJson(k.column), id, Number(id), "}");
  }

  /** One member of an object, and the members after it or the closing brace. */
  lemma MemberParses(name: string, value: string, j: Json, rest: string, after: seq<(string, Json)>)
    requires ParseValue(value + rest) == Parsed(j, rest)
    requires (after == [] && rest == "}") || (Starts(rest, ',') && ParseMembers(rest[1..]) == Parsed(after, ""))
    ensures ParseMembers(Quoted(name) + (":" + (value + rest))) == Parsed([(name, j)] + after, "")
  {
    hide ParseValue;
    hide ParseText;
    var text := Quoted(name) + (":" + (value + rest));
    QuotedParses(name, ":" + (value + rest));
    assert text[1..] == Escaped(name) + "\"" + (":" + (value + rest));
    assert (":" + (value + rest))[1..] == value + rest;
    if after == [] {
      assert [(name, j)] + after == [(name, j)];
    }
  }

  lemma ObjectOpens(inner: string, members: seq<(string, Json)>)
    requires Starts(inner, '"') && ParseMembers(inner) == Parsed(members, "")
    ensures Parse("{" + inner) == Some(Object(members))
  {
    var s := "{" + inner;
    assert s[1..] == inner && SkipSpace(s) == s && SkipSpace(inner) == inner;
    assert ParseValue(s) == Parsed(Object(members), "");
  }

  /** An object of a text and one more member. */
  lemma TwoMembersParse(q: string, value: string, j: Json)
    requires ParseValue(value + "}") == Parsed(j, "}")
    ensures Parse("{\"q\":" + (Quoted(q) + (",\"k\":" + (value + "}")))) == Some(Object([("q", Text(q)), ("k", j)]))
  {
    hide ParseValue;
    hide ParseMembers;
    hide Parse;
    hide Quoted;
    Names();
    MemberParses("k", value, j, "}", []);
    var second := Quoted("k") + (":" + (value + "}"));
    var rest := "," + second;
    assert rest[1..] == second;
    assert [("k", j)] + [] == [("k", j)];
    TextParses(q, rest);
    MemberParses("q", Quoted(q), Text(q), rest, [("k", j)]);
    assert [("q", Text(q))] + [("k", j)] == [("q", Text(q)), ("k", j)];
    var inner := Quoted("q") + (":" + (Quoted(q) + rest));
    ObjectOpens(inner, [("q", Text(q)), ("k", j)]);
    assert rest == ",\"k\":" + (value + "}");
    assert "{" + inner == "{\"q\":" + (Quoted(q) + rest);
  }

  lemma CursorParses(q: string, k: Place)
    requires Issued(k)
    ensures Parse(CursorText(q, k)) == Some(CursorJson(q, k))
  {
    hide ParseValue;
    hide Parse;
    hide IsLiteral;
    hide Quoted;
    hide Decimal;
    PlaceParses(k);
    var place := "[" + (ColumnText(k.column) + "," + (Decimal(k.id) + "]"));
    assert place + "}" == "[" + (ColumnText(k.column) + "," + (Decimal(k.id) + "]" + "}"));
    TwoMembersParse(q, place, Array([ColumnJson(k.column), Number(Decimal(k.id))]));
  }

  lemma Names()
    ensures Quoted("q") == "\"q\"" && Quoted("k") == "\"k\"" && Latin1("q") && Latin1("k")
  {
    assert Escaped("q") == Escape('q') + Escaped("q"[1..]) && Escaped("k") == Escape('k') + Escaped("k"[1..]);
    assert "q"[1..] == "" && "k"[1..] == "";
  }

  lemma {:induction false} OfNumberLatin1(s: string)
    requires forall c | c in s :: OfNumber(c)
    ensures Latin1(s)
  {
    forall c | c in s ensures (c as int) < 256 {
      assert OfNumber(c);
    }
  }

  lemma ColumnLatin1(c: Column)
    requires c.NumberText? ==> IsLiteral(c.literal)
    ensures Latin1(ColumnText(c)) <==> (c.TimeText? ==> Latin1(c.text))
  {
    hide Latin1;
    if c.TimeText? {
      QuotedAllLatin1(c.text);
    } else {
      OfNumberLatin1(c.literal);
    }
  }

  lemma QuotedAllLatin1(s: string)
    ensures Latin1(Quoted(s)) <==> Latin1(s)
  {
    hide Latin1;
    QuotedLatin1(s);
    OneLatin1('"');
    Latin1Concat("\"", Escaped(s));
    Latin1Concat("\"" + Escaped(s), "\"");
  }

  lemma CursorLatin1(q: string, k: Place)
    requires Issued(k)
    ensures Latin1(CursorText(q, k)) <==> Latin1(q) && (k.column.TimeText? ==> Latin1(k.column.text))
  {
    hide Quoted;
    var id := Decimal(k.id) + "]" + "}";
    var pair := ColumnText(k.column) + "," + id;
    assert Latin1(id) && Latin1("{\"q\":") && Latin1(",\"k\":") && Latin1("[") && Latin1(",");
    hide Latin1;
    QuotedAllLatin1(q);
    ColumnLatin1(k.column);
    Latin1Concat(ColumnText(k.column), ",");
    Latin1Concat(ColumnText(k.column) + ",", id);
    Latin1Concat("[", pair);
    Latin1Concat(",\"k\":", "[" + pair);
    Latin1Concat(Quoted(q), ",\"k\":" + ("[" + pair));
    Latin1Concat("{\"q\":", Quoted(q) + (",\"k\":" + ("[" + pair)));
  }

  predicate Fits(sort: Discovery.Sort, k: Place) {
    (sort.Newest? <==> k.column.TimeText?) && k.id <= MAX_SAFE_INTEGER
  }

  lemma CheckedPlace(q: string, k: Place, query: string, sort: Discovery.Sort)
    requires Issued(k)
    ensures Checked(CursorJson(q, k), query, sort) == if q == query && Fits(sort, k) then Some(k) else None
  {
    hide IsLiteral;
    hide WholeNumber;
    var ms := CursorJson(q, k).members;
    assert ms[..1] == [("q", Text(q))];
    assert Property(ms, "k") == Some(ms[1].1) && Property(ms, "q") == Property(ms[..1], "q") == Some(Text(q));
    DecimalIsLiteral(k.id);
    assert SafeInteger(Number(Decimal(k.id))) == if k.id <= MAX_SAFE_INTEGER then Some(k.id) else None;
  }

  /**
   * A cursor exists exactly when no character is above 255, and decodes to its key exactly for the query
   * it was issued for, with a sort of its key's type and an id JavaScript counts exactly.
   */
  lemma CursorRoundTrip(q: string, k: Place, query: string, sort: Discovery.Sort)
    requires k.id >= 0 && (k.column.NumberText? ==> IsLiteral(k.column.literal))
    ensures EncodeCursor(q, k).Some? <==>
              (forall c | c in q :: c as int <= 255) && (k.column.TimeText? ==> forall c | c in k.column.text :: c as int <= 255)
    ensures EncodeCursor(q, k).Some? ==>
              DecodeCursor(EncodeCursor(q, k).value, query, sort) ==
                if q == query && (sort == Discovery.Newest <==> k.column.TimeText?) && k.id <= 9_007_199_254_740_991 then Some(k) else None
  {
    InLatin1(q);
    if k.column.TimeText? {
      InLatin1(k.column.text);
    }
    hide Parse;
    hide Encoded;
    hide Decoded;
    hide Checked;
    hide CursorText;
    hide Latin1;
    CursorLatin1(q, k);
    var text := CursorText(q, k);
    if Latin1(text) {
      BytesOfLatin1(text);
      DecodeEncoded(Bytes(text));
      CursorParses(q, k);
      CheckedPlace(q, k, query, sort);
    }
  }

  lemma InLatin1(s: string)
    ensures Latin1(s) <==> forall c | c in s :: c as int <= 255
  {
  }

  lemma BytesOfLatin1(s: string)
    requires Latin1(s)
    ensures Chars(Bytes(s)) == s && forall i :: 0 <= i < |Bytes(s)| ==> Bytes(s)[i] < 256
  {
    assert forall i | 0 <= i < |s| :: s[i] in s;
  }
}
