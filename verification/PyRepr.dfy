/** The Python-repr printer of JSON values, with a reader that undoes it: nothing the
  * printer is given is lost. */
module PyRepr {
  import opened Wrappers

  /** A JSON value; objects keep their key order, numbers their text. */
  datatype Json =
    | JNull
    | JBool(b: bool)
    | JNumber(token: string)
    | JString(s: string)
    | JArray(items: seq<Json>)
    | JObject(fields: seq<Field>)

  datatype Field = Field(key: string, value: Json)

  // ---- The printer ----

  predicate IsQuote(c: char) {
    c == '\'' || c == '\"'
  }

  /** Single quotes, unless the text has a single quote and no double one. */
  function QuoteFor(s: string): (q: char)
    ensures IsQuote(q)
  {
    if '\'' in s && '\"' !in s then '\"' else '\''
  }

  function EscapeChar(c: char, q: char): string {
    if c == '\\' then ['\\', '\\']
    else if c == '\n' then ['\\', 'n']
    else if c == '\r' then ['\\', 'r']
    else if c == '\t' then ['\\', 't']
    else if c == q then ['\\', c]
    else [c]
  }

  function Escape(s: string, q: char): string {
    if s == [] then [] else EscapeChar(s[0], q) + Escape(s[1..], q)
  }

  function ReprString(s: string): string {
    [QuoteFor(s)] + Escape(s, QuoteFor(s)) + [QuoteFor(s)]
  }

  function Repr(v: Json): string
    decreases v
  {
    match v
    case JString(s) => ReprString(s)
    case JBool(b) => if b then "True" else "False"
    case JNull => "None"
    case JNumber(token) => token
    case JArray(items) => if items == [] then "[]" else ['['] + ReprItems(items)
    case JObject(fields) => if fields == [] then "{}" else ['{'] + ReprFields(fields)
  }

  /** The items joined by ", ", and the closing bracket. */
  function ReprItems(items: seq<Json>): string
    requires items != []
    decreases items
  {
    Repr(items[0]) + if |items| == 1 then [']'] else [',', ' '] + ReprItems(items[1..])
  }

  /** The fields joined by ", ", and the closing brace. */
  function ReprFields(fields: seq<Field>): string
    requires fields != []
    decreases fields
  {
    ReprPair(fields[0]) + if |fields| == 1 then ['}'] else [',', ' '] + ReprFields(fields[1..])
  }

  function ReprPair(field: Field): string
    decreases field
  {
    ReprString(field.key) + ([':', ' '] + Repr(field.value))
  }

  lemma {:induction false} EscapeConcat(s: string, t: string, q: char)
    ensures Escape(s + t, q) == Escape(s, q) + Escape(t, q)
  {
    if s == [] {
      assert s + t == t;
    } else {
      assert (s + t)[1..] == s[1..] + t;
      EscapeConcat(s[1..], t, q);
    }
  }

  lemma EscapeSnoc(s: string, c: char, q: char)
    ensures Escape(s + [c], q) == Escape(s, q) + EscapeChar(c, q)
  {
    EscapeConcat(s, [c], q);
    assert [c][1..] == [] && EscapeChar(c, q) + [] == EscapeChar(c, q);
  }

  ghost predicate NothingSpecial(s: string) {
    '\\' !in s && '\n' !in s && '\r' !in s && '\t' !in s
  }

  lemma {:induction false} EscapesQuotes(s: string, q: char)
    requires NothingSpecial(s) && IsQuote(q)
    ensures '\\' in Escape(s, q) <==> q in s
  {
    if s != [] {
      assert s[0] in s;
      EscapesQuotes(s[1..], q);
      assert q in s <==> s[0] == q || q in s[1..];
    }
  }

  /** The quotes are chosen so that none in the text needs escaping, unless it has both kinds. */
  lemma EscapesOnlyBothQuotes(s: string)
    requires NothingSpecial(s)
    ensures '\\' in ReprString(s) <==> '\'' in s && '\"' in s
  {
    EscapesQuotes(s, QuoteFor(s));
  }

  /** py_repr_str, pushing onto `out` char by char. */
  method PyReprStr(s: string) returns (out: string)
    ensures out == ReprString(s)
  {
    var quote := if '\'' in s && '\"' !in s then '\"' else '\'';
    out := [quote];
    for i := 0 to |s|
      invariant out == [quote] + Escape(s[..i], quote)
    {
      var c := s[i];
      assert s[..i + 1] == s[..i] + [c];
      EscapeSnoc(s[..i], c, quote);
      if c == '\\' {
        out := out + ['\\', '\\'];
      } else if c == '\n' {
        out := out + ['\\', 'n'];
      } else if c == '\r' {
        out := out + ['\\', 'r'];
      } else if c == '\t' {
        out := out + ['\\', 't'];
      } else if c == quote {
        out := out + ['\\'];
        out := out + [c];
      } else {
        out := out + [c];
      }
    }
    assert s[..|s|] == s;
    out := out + [quote];
  }

  // ---- A reader ----

  /** The body of a string up to its closing quote, and what follows. */
  function Unescape(input: string, q: char): (r: Option<(string, string)>)
    ensures r.Some? ==> |r.value.1| < |input|
  {
    if input == [] then None
    else if input[0] == q then Some(([], input[1..]))
    else if input[0] == '\\' then
      if |input| < 2 then None
      else
        var c := if input[1] == 'n' then '\n' else if input[1] == 'r' then '\r'
                 else if input[1] == 't' then '\t' else input[1];
        var rest := Unescape(input[2..], q);
        if rest.None? then None else Some(([c] + rest.value.0, rest.value.1))
    else
      var rest := Unescape(input[1..], q);
      if rest.None? then None else Some(([input[0]] + rest.value.0, rest.value.1))
  }

  predicate IsNumberChar(c: char) {
    '0' <= c <= '9' || c == '-' || c == '+' || c == '.' || c == 'e' || c == 'E'
  }

  function NumberPrefix(input: string): (n: nat)
    ensures n <= |input| && (input != [] && IsNumberChar(input[0]) ==> n > 0)
  {
    if input == [] || !IsNumberChar(input[0]) then 0 else 1 + NumberPrefix(input[1..])
  }

  function Read(input: string): (r: Option<(Json, string)>)
    ensures r.Some? ==> |r.value.1| < |input|
    decreases |input|, 0
  {
    if input == [] then None
    else if IsQuote(input[0]) then
      var body := Unescape(input[1..], input[0]);
      if body.None? then None else Some((JString(body.value.0), body.value.1))
    else if input[0] == 'T' && |input| >= 4 then Some((JBool(true), input[4..]))
    else if input[0] == 'F' && |input| >= 5 then Some((JBool(false), input[5..]))
    else if input[0] == 'N' && |input| >= 4 then Some((JNull, input[4..]))
    else if input[0] == '[' && |input| >= 2 then
      if input[1] == ']' then Some((JArray([]), input[2..]))
      else
        var items := ReadItems(input[1..]);
        if items.None? then None else Some((JArray(items.value.0), items.value.1))
    else if input[0] == '{' && |input| >= 2 then
      if input[1] == '}' then Some((JObject([]), input[2..]))
      else
        var fields := ReadFields(input[1..]);
        if fields.None? then None else Some((JObject(fields.value.0), fields.value.1))
    else if IsNumberChar(input[0]) then
      Some((JNumber(input[..NumberPrefix(input)]), input[NumberPrefix(input)..]))
    else None
  }

  predicate Separated(rest: string) {
    |rest| >= 2 && rest[0] == ',' && rest[1] == ' '
  }

  function ReadItems(input: string): (r: Option<(seq<Json>, string)>)
    ensures r.Some? ==> |r.value.1| < |input|
    decreases |input|, 1
  {
    var first := Read(input);
    if first.None? || first.value.1 == [] then None
    else if first.value.1[0] == ']' then Some(([first.value.0], first.value.1[1..]))
    else if Separated(first.value.1) then
      var rest := ReadItems(first.value.1[2..]);
      if rest.None? then None else Some(([first.value.0] + rest.value.0, rest.value.1))
    else None
  }

  function ReadFields(input: string): (r: Option<(seq<Field>, string)>)
    ensures r.Some? ==> |r.value.1| < |input|
    decreases |input|, 1
  {
    if input == [] || !IsQuote(input[0]) then None
    else
      var key := Unescape(input[1..], input[0]);
      if key.None? || |key.value.1| < 2 || key.value.1[0] != ':' || key.value.1[1] != ' ' then None
      else
        var value := Read(key.value.1[2..]);
        if value.None? || value.value.1 == [] then None
        else
          var field := Field(key.value.0, value.value.0);
          if value.value.1[0] == '}' then Some(([field], value.value.1[1..]))
          else if Separated(value.value.1) then
            var rest := ReadFields(value.value.1[2..]);
            if rest.None? then None else Some(([field] + rest.value.0, rest.value.1))
          else None
  }

  // ---- The reader undoes the printer ----

  /** Every number is printed as a non-empty run of number characters. */
  predicate Printable(v: Json)
    decreases v
  {
    match v
    case JNumber(token) => token != [] && forall c :: c in token ==> IsNumberChar(c)
    case JArray(items) => forall i :: 0 <= i < |items| ==> Printable(items[i])
    case JObject(fields) => forall i :: 0 <= i < |fields| ==> Printable(fields[i].value)
    case _ => true
  }

  /** What follows a value must not run on a number. */
  predicate Ends(rest: string) {
    rest == [] || !IsNumberChar(rest[0])
  }

  lemma UnescapePair(x: char, q: char, tail: string)
    requires IsQuote(q) && Unescape(tail, q).Some?
    ensures var c := if x == 'n' then '\n' else if x == 'r' then '\r' else if x == 't' then '\t' else x;
            Unescape(['\\', x] + tail, q) == Some(([c] + Unescape(tail, q).value.0, Unescape(tail, q).value.1))
  {
    assert (['\\', x] + tail)[2..] == tail;
  }

  lemma UnescapePlain(c: char, q: char, tail: string)
    requires IsQuote(q) && c != q && c != '\\' && Unescape(tail, q).Some?
    ensures Unescape([c] + tail, q) == Some(([c] + Unescape(tail, q).value.0, Unescape(tail, q).value.1))
  {
    assert ([c] + tail)[1..] == tail;
  }

  /** One printed character is read back, and the rest as it would be alone. */
  lemma UnescapeChar(c: char, q: char, tail: string)
    requires IsQuote(q) && Unescape(tail, q).Some?
    ensures Unescape(EscapeChar(c, q) + tail, q)
         == Some(([c] + Unescape(tail, q).value.0, Unescape(tail, q).value.1))
  {
    var e := EscapeChar(c, q);
    if |e| == 2 {
      assert e == ['\\', e[1]];
      UnescapePair(e[1], q, tail);
    } else {
      UnescapePlain(c, q, tail);
    }
  }

  lemma {:induction false} UnescapeEscape(s: string, q: char, rest: string)
    requires IsQuote(q)
    ensures Unescape(Escape(s, q) + [q] + rest, q) == Some((s, rest))
  {
    var input := Escape(s, q) + [q] + rest;
    if s != [] {
      var tail := Escape(s[1..], q) + [q] + rest;
      assert input == EscapeChar(s[0], q) + tail;
      UnescapeEscape(s[1..], q, rest);
      UnescapeChar(s[0], q, tail);
      assert s == [s[0]] + s[1..];
    } else {
      assert input == [q] + rest;
    }
  }

  lemma ReadKey(s: string, rest: string)
    ensures (ReprString(s) + rest)[0] == QuoteFor(s)
    ensures Unescape((ReprString(s) + rest)[1..], QuoteFor(s)) == Some((s, rest))
  {
    var q := QuoteFor(s);
    assert (ReprString(s) + rest)[1..] == Escape(s, q) + [q] + rest;
    UnescapeEscape(s, q, rest);
  }

  lemma ReadString(s: string, rest: string)
    ensures Read(ReprString(s) + rest) == Some((JString(s), rest))
  {
    ReadKey(s, rest);
  }

  lemma {:induction false} ReadNumber(token: string, rest: string)
    requires forall c :: c in token ==> IsNumberChar(c)
    requires Ends(rest)
    ensures NumberPrefix(token + rest) == |token|
  {
    if token == [] {
      assert token + rest == rest;
    } else {
      assert token[0] in token;
      assert (token + rest)[1..] == token[1..] + rest;
      ReadNumber(token[1..], rest);
    }
  }

  lemma ReadWords(rest: string)
    ensures Read("True" + rest) == Some((JBool(true), rest))
    ensures Read("False" + rest) == Some((JBool(false), rest))
    ensures Read("None" + rest) == Some((JNull, rest))
  {
    assert ("True" + rest)[4..] == rest;
    assert ("False" + rest)[5..] == rest;
    assert ("None" + rest)[4..] == rest;
  }

  lemma ReadNumberValue(token: string, rest: string)
    requires token != [] && (forall c :: c in token ==> IsNumberChar(c)) && Ends(rest)
    ensures Read(token + rest) == Some((JNumber(token), rest)) && IsNumberChar(token[0])
  {
    var input := token + rest;
    assert token[0] in token && input[0] == token[0];
    ReadNumber(token, rest);
    assert input[..|token|] == token && input[|token|..] == rest;
  }

  lemma ReadArray(body: string)
    requires body != [] && body[0] != ']' && ReadItems(body).Some?
    ensures Read(['['] + body) == Some((JArray(ReadItems(body).value.0), ReadItems(body).value.1))
  {
    assert (['['] + body)[1..] == body;
  }

  lemma ReadObject(body: string)
    requires body != [] && body[0] != '}' && ReadFields(body).Some?
    ensures Read(['{'] + body) == Some((JObject(ReadFields(body).value.0), ReadFields(body).value.1))
  {
    assert (['{'] + body)[1..] == body;
  }

  lemma ReadEmpty(rest: string)
    ensures Read("[]" + rest) == Some((JArray([]), rest))
    ensures Read("{}" + rest) == Some((JObject([]), rest))
  {
    assert ("[]" + rest)[2..] == rest;
    assert ("{}" + rest)[2..] == rest;
  }

  lemma ReadReprArray(items: seq<Json>, rest: string)
    requires items != [] ==> ReadItems(ReprItems(items) + rest) == Some((items, rest))
                             && ReprItems(items) != [] && ReprItems(items)[0] != ']'
    ensures Read(Repr(JArray(items)) + rest) == Some((JArray(items), rest))
  {
    if items == [] {
      ReadEmpty(rest);
    } else {
      ReadArray(ReprItems(items) + rest);
      assert Repr(JArray(items)) + rest == ['['] + (ReprItems(items) + rest);
    }
  }

  lemma ReadReprObject(fields: seq<Field>, rest: string)
    requires fields != [] ==> ReadFields(ReprFields(fields) + rest) == Some((fields, rest))
                              && ReprFields(fields) != [] && ReprFields(fields)[0] != '}'
    ensures Read(Repr(JObject(fields)) + rest) == Some((JObject(fields), rest))
  {
    if fields == [] {
      ReadEmpty(rest);
    } else {
      ReadObject(ReprFields(fields) + rest);
      assert Repr(JObject(fields)) + rest == ['{'] + (ReprFields(fields) + rest);
    }
  }

  /** Reading what was printed gives the value back, and what follows it. */
  lemma {:induction false} ReadRepr(v: Json, rest: string)
    requires Printable(v) && Ends(rest)
    ensures Read(Repr(v) + rest) == Some((v, rest))
    ensures Repr(v) != [] && Repr(v)[0] != ']'
    decreases v
  {
    match v
    case JString(s) => ReadString(s, rest);
    case JBool(b) => ReadWords(rest);
    case JNull => ReadWords(rest);
    case JNumber(token) => ReadNumberValue(token, rest);
    case JArray(items) =>
      if items != [] { ReadReprItems(items, rest); }
      ReadReprArray(items, rest);
    case JObject(fields) =>
      if fields != [] { ReadReprFields(fields, rest); }
      ReadReprObject(fields, rest);
  }

  /** What follows the last item, and what follows an item before others. */
  lemma ItemsStep(value: Json, after: string, rest: string, more: seq<Json>)
    requires Read(after).Some? && Read(after).value.0 == value
    requires var tail := Read(after).value.1;
             if more == [] then tail == [']'] + rest
             else Separated(tail) && ReadItems(tail[2..]) == Some((more, rest))
    ensures ReadItems(after) == Some(([value] + more, rest))
  {
    if more == [] { assert ([']'] + rest)[1..] == rest && [value] + more == [value]; }
  }

  lemma {:induction false} ReadReprItems(items: seq<Json>, rest: string)
    requires items != [] && forall i :: 0 <= i < |items| ==> Printable(items[i])
    ensures ReadItems(ReprItems(items) + rest) == Some((items, rest))
    ensures ReprItems(items) != [] && ReprItems(items)[0] != ']'
    decreases items
  {
    var input := ReprItems(items) + rest;
    var tail := if |items| == 1 then [']'] + rest else [',', ' '] + (ReprItems(items[1..]) + rest);
    assert input == Repr(items[0]) + tail;
    ReadRepr(items[0], tail);
    if |items| > 1 {
      assert tail[2..] == ReprItems(items[1..]) + rest;
      ReadReprItems(items[1..], rest);
    }
    ItemsStep(items[0], input, rest, items[1..]);
    assert items == [items[0]] + items[1..];
  }

  lemma FieldsStep(field: Field, middle: string, rest: string, more: seq<Field>)
    requires |middle| >= 2 && middle[0] == ':' && middle[1] == ' '
    requires Read(middle[2..]).Some? && Read(middle[2..]).value.0 == field.value
    requires var tail := Read(middle[2..]).value.1;
             if more == [] then tail == ['}'] + rest
             else Separated(tail) && ReadFields(tail[2..]) == Some((more, rest))
    ensures ReadFields(ReprString(field.key) + middle) == Some(([field] + more, rest))
  {
    ReadKey(field.key, middle);
    if more == [] { assert (['}'] + rest)[1..] == rest && [field] + more == [field]; }
  }

  lemma {:induction false} ReadReprFields(fields: seq<Field>, rest: string)
    requires fields != [] && forall i :: 0 <= i < |fields| ==> Printable(fields[i].value)
    ensures ReadFields(ReprFields(fields) + rest) == Some((fields, rest))
    ensures ReprFields(fields) != [] && ReprFields(fields)[0] != '}'
    decreases fields
  {
    var field := fields[0];
    var tail := if |fields| == 1 then ['}'] + rest else [',', ' '] + (ReprFields(fields[1..]) + rest);
    var middle := [':', ' '] + (Repr(field.value) + tail);
    assert ReprFields(fields) + rest == ReprPair(field) + tail;
    PairStart(field, tail);
    ReadRepr(field.value, tail);
    assert middle[2..] == Repr(field.value) + tail;
    if |fields| > 1 {
      assert tail[2..] == ReprFields(fields[1..]) + rest;
      ReadReprFields(fields[1..], rest);
    }
    FieldsStep(field, middle, rest, fields[1..]);
    assert fields == [field] + fields[1..];
  }

  lemma PairStart(field: Field, tail: string)
    ensures ReprPair(field) + tail == ReprString(field.key) + ([':', ' '] + (Repr(field.value) + tail))
    ensures ReprPair(field) != [] && IsQuote(ReprPair(field)[0])
  {
    Assoc(ReprString(field.key), [':', ' '], Repr(field.value), tail);
  }

  lemma Assoc(a: string, b: string, c: string, d: string)
    ensures (a + (b + c)) + d == a + (b + (c + d))
  {
  }

  /** The printer is injective. */
  lemma ReprInjective(v: Json, w: Json)
    requires Printable(v) && Printable(w) && Repr(v) == Repr(w)
    ensures v == w
  {
    ReadRepr(v, "");
    ReadRepr(w, "");
    assert Repr(v) + "" == Repr(w) + "";
  }

  // ---- A printed value stays on one line ----

  predicate OneLine(s: string) {
    '\n' !in s && '\r' !in s && '\t' !in s
  }

  lemma OneLineConcat(a: string, b: string)
    requires OneLine(a) && OneLine(b)
    ensures OneLine(a + b)
  {
  }

  lemma {:induction false} EscapeOneLine(s: string, q: char)
    requires IsQuote(q)
    ensures OneLine(Escape(s, q))
  {
    if s != [] { EscapeOneLine(s[1..], q); }
  }

  lemma StringOneLine(s: string)
    ensures OneLine(ReprString(s))
  {
    EscapeOneLine(s, QuoteFor(s));
  }

  /** No line break or tab of a string shows as itself, however deep the string. */
  lemma {:induction false} ReprOneLine(v: Json)
    requires Printable(v)
    ensures OneLine(Repr(v))
    decreases v
  {
    match v
    case JString(s) => StringOneLine(s);
    case JBool(b) =>
    case JNull =>
    case JNumber(token) =>
    case JArray(items) => if items != [] { ItemsOneLine(items); }
    case JObject(fields) => if fields != [] { FieldsOneLine(fields); }
  }

  lemma {:induction false} ItemsOneLine(items: seq<Json>)
    requires items != [] && forall i :: 0 <= i < |items| ==> Printable(items[i])
    ensures OneLine(ReprItems(items))
    decreases items
  {
    ReprOneLine(items[0]);
    if |items| > 1 { ItemsOneLine(items[1..]); }
  }

  lemma {:induction false} FieldsOneLine(fields: seq<Field>)
    requires fields != [] && forall i :: 0 <= i < |fields| ==> Printable(fields[i].value)
    ensures OneLine(ReprFields(fields))
    decreases fields
  {
    StringOneLine(fields[0].key);
    ReprOneLine(fields[0].value);
    OneLineConcat([':', ' '], Repr(fields[0].value));
    OneLineConcat(ReprString(fields[0].key), [':', ' '] + Repr(fields[0].value));
    if |fields| > 1 { FieldsOneLine(fields[1..]); }
  }

  // ---- The args line ----

  /** `k=v` pairs joined by ", ". */
  function JoinArgs(args: seq<Field>): string {
    if args == [] then []
    else args[0].key + (['='] + (Repr(args[0].value)
           + if |args| == 1 then [] else [',', ' '] + JoinArgs(args[1..])))
  }

  /** The args of a confirmed action, as the prompt shows them. */
  function ArgsLine(args: seq<Field>): string {
    if args == [] then "(no args)" else JoinArgs(args)
  }

  /** args_preview: the first three. */
  function ArgsPreview(args: seq<Field>): string {
    JoinArgs(if |args| <= 3 then args else args[..3])
  }

  function IndexOfEquals(s: string): (n: nat)
    ensures n <= |s| && (forall i :: 0 <= i < n ==> s[i] != '=') && (n < |s| ==> s[n] == '=')
  {
    if s == [] || s[0] == '=' then 0 else 1 + IndexOfEquals(s[1..])
  }

  function ReadArgs(input: string): Option<seq<Field>>
    decreases |input|
  {
    var n := IndexOfEquals(input);
    if n == |input| then None
    else
      var value := Read(input[n + 1..]);
      if value.None? then None
      else
        var arg := Field(input[..n], value.value.0);
        if value.value.1 == [] then Some([arg])
        else if Separated(value.value.1) then
          var rest := ReadArgs(value.value.1[2..]);
          if rest.None? then None else Some([arg] + rest.value)
        else None
  }

  ghost predicate PlainArgs(args: seq<Field>) {
    forall i :: 0 <= i < |args| ==> '=' !in args[i].key && Printable(args[i].value)
  }

  lemma IndexAfterKey(key: string, rest: string)
    requires '=' !in key
    ensures IndexOfEquals(key + (['='] + rest)) == |key|
    ensures (key + (['='] + rest))[..|key|] == key && (key + (['='] + rest))[|key| + 1..] == rest
  {
    var s := key + (['='] + rest);
    forall i | 0 <= i < |key| ensures s[i] != '=' { assert s[i] == key[i] && key[i] in key; }
    assert s[|key|] == '=';
  }

  lemma ArgsStep(arg: Field, after: string, more: seq<Field>)
    requires '=' !in arg.key && Read(after).Some? && Read(after).value.0 == arg.value
    requires var tail := Read(after).value.1;
             if more == [] then tail == [] else Separated(tail) && ReadArgs(tail[2..]) == Some(more)
    ensures ReadArgs(arg.key + (['='] + after)) == Some([arg] + more)
  {
    IndexAfterKey(arg.key, after);
    if more == [] { assert [arg] + more == [arg]; }
  }

  function ArgsTail(args: seq<Field>): string
    requires args != []
  {
    if |args| == 1 then [] else [',', ' '] + JoinArgs(args[1..])
  }

  lemma JoinArgsShape(args: seq<Field>)
    requires args != []
    ensures JoinArgs(args) == args[0].key + (['='] + (Repr(args[0].value) + ArgsTail(args)))
  {
  }

  lemma {:induction false} ReadJoinArgs(args: seq<Field>)
    requires args != [] && PlainArgs(args)
    ensures ReadArgs(JoinArgs(args)) == Some(args)
  {
    var tail := ArgsTail(args);
    ReadRepr(args[0].value, tail);
    if |args| > 1 {
      assert tail[2..] == JoinArgs(args[1..]);
      ReadJoinArgs(args[1..]);
    }
    ArgsStep(args[0], Repr(args[0].value) + tail, args[1..]);
    JoinArgsShape(args);
    assert args == [args[0]] + args[1..];
  }

  /** Keys free of '=', identifiers among them: the line determines the ordered arguments. */
  lemma ArgsLineInjective(a: seq<Field>, b: seq<Field>)
    requires PlainArgs(a) && PlainArgs(b) && ArgsLine(a) == ArgsLine(b)
    ensures a == b
  {
    var none := "(no args)";
    assert forall i :: 0 <= i < |none| ==> none[i] != '=';
    assert ReadArgs(none) == None;
    if a != [] { ReadJoinArgs(a); }
    if b != [] { ReadJoinArgs(b); }
  }

  /** The preview determines the first three arguments. */
  lemma ArgsPreviewInjective(a: seq<Field>, b: seq<Field>)
    requires PlainArgs(a) && PlainArgs(b) && ArgsPreview(a) == ArgsPreview(b)
    ensures (if |a| <= 3 then a else a[..3]) == (if |b| <= 3 then b else b[..3])
  {
    var a3, b3 := if |a| <= 3 then a else a[..3], if |b| <= 3 then b else b[..3];
    assert ReadArgs("") == None;
    if a3 != [] { ReadJoinArgs(a3); }
    if b3 != [] { ReadJoinArgs(b3); }
  }

  /** Two arguments written as one: the first argument and the second's key become the key. */
  function Merged(x: Field, y: Field): Field {
    Field(x.key + (['='] + (Repr(x.value) + ([',', ' '] + y.key))), y.value)
  }

  lemma JoinArgsTail(args: seq<Field>, x: Field)
    requires args != []
    ensures JoinArgs([x] + args) == x.key + (['='] + (Repr(x.value) + ([',', ' '] + JoinArgs(args))))
  {
    assert ([x] + args)[1..] == args;
  }

  lemma MergedHead(x: Field, y: Field, post: seq<Field>)
    ensures JoinArgs([x] + ([y] + post)) == JoinArgs([Merged(x, y)] + post)
  {
    var rest := Repr(y.value) + ArgsTail([y] + post);
    JoinArgsTail([y] + post, x);
    JoinArgsShape([y] + post);
    JoinArgsShape([Merged(x, y)] + post);
    assert ([y] + post)[1..] == post && ([Merged(x, y)] + post)[1..] == post;
    Regroup(x.key, Repr(x.value), y.key, ['='] + rest);
  }

  lemma Regroup(a: string, b: string, c: string, d: string)
    ensures a + (['='] + (b + ([',', ' '] + (c + d)))) == (a + (['='] + (b + ([',', ' '] + c)))) + d
  {
  }

  /** Whatever the arguments, merging two adjacent ones into one key gives another list with
    * the same printed line. */
  lemma {:induction false} ArgsLineAmbiguous(pre: seq<Field>, x: Field, y: Field, post: seq<Field>)
    ensures pre + ([x] + ([y] + post)) != pre + ([Merged(x, y)] + post)
    ensures ArgsLine(pre + ([x] + ([y] + post))) == ArgsLine(pre + ([Merged(x, y)] + post))
  {
    assert |pre + ([x] + ([y] + post))| == |pre + ([Merged(x, y)] + post)| + 1;
    MergedWithin(pre, x, y, post);
  }

  lemma {:induction false} MergedWithin(pre: seq<Field>, x: Field, y: Field, post: seq<Field>)
    ensures JoinArgs(pre + ([x] + ([y] + post))) == JoinArgs(pre + ([Merged(x, y)] + post))
  {
    var a, b := [x] + ([y] + post), [Merged(x, y)] + post;
    if pre == [] {
      MergedHead(x, y, post);
      assert pre + a == a && pre + b == b;
    } else {
      MergedWithin(pre[1..], x, y, post);
      JoinArgsTail(pre[1..] + a, pre[0]);
      JoinArgsTail(pre[1..] + b, pre[0]);
      assert pre + a == [pre[0]] + (pre[1..] + a) && pre + b == [pre[0]] + (pre[1..] + b);
    }
  }
}
