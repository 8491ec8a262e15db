/** The `.env` reader and writer of `bss onboard`: what is written reads back, and the
  * lines that are not assignments survive. */
module EnvFile {
  import opened Wrappers

  // ---- Text ----

  /** Unicode White_Space, which `trim` strips. */
  predicate IsSpace(c: char) {
    var n := c as int;
    || 9 <= n <= 13 || n == 32 || n == 0x85 || n == 0xA0 || n == 0x1680 || 0x2000 <= n <= 0x200A
    || n == 0x2028 || n == 0x2029 || n == 0x202F || n == 0x205F || n == 0x3000
  }

  function TrimStart(s: string): (r: string)
    ensures |r| <= |s| && (r != [] ==> !IsSpace(r[0]))
  {
    if s == [] || !IsSpace(s[0]) then s else TrimStart(s[1..])
  }

  function TrimEnd(s: string): (r: string)
    ensures |r| <= |s| && r == s[..|r|] && (r != [] ==> !IsSpace(r[|r| - 1]))
  {
    if s == [] || !IsSpace(s[|s| - 1]) then s else TrimEnd(s[..|s| - 1])
  }

  function Trim(s: string): string {
    TrimEnd(TrimStart(s))
  }

  ghost predicate Trimmed(s: string) {
    s == [] || (!IsSpace(s[0]) && !IsSpace(s[|s| - 1]))
  }

  lemma TrimIsTrimmed(s: string)
    ensures Trimmed(Trim(s))
    ensures Trimmed(s) <==> Trim(s) == s
  {
    var a := TrimStart(s);
    var r := TrimEnd(a);
    if r != [] { assert r[0] == a[0]; }
  }

  predicate EndsCr(s: string) {
    s != [] && s[|s| - 1] == '\r'
  }

  /** A line without the carriage return before its line feed. */
  function DropCr(s: string): string {
    if EndsCr(s) then s[..|s| - 1] else s
  }

  /** Rust's `lines`: split at line feeds, each with at most one carriage return dropped;
    * what follows the last line feed is a line only if it is not empty. */
  function Lines(text: string): seq<string> {
    if text == [] then []
    else
      var n := IndexOf(text, '\n');
      if n == |text| then [text] else [DropCr(text[..n])] + Lines(text[n + 1..])
  }

  function IndexOf(s: string, c: char): (n: nat)
    ensures n <= |s| && (forall i :: 0 <= i < n ==> s[i] != c) && (n < |s| ==> s[n] == c)
  {
    if s == [] || s[0] == c then 0 else 1 + IndexOf(s[1..], c)
  }

  /** The lines, each followed by a line feed. */
  function Unlines(lines: seq<string>): string {
    if lines == [] then [] else lines[0] + ['\n'] + Unlines(lines[1..])
  }

  function Join(lines: seq<string>): string {
    if lines == [] then [] else if |lines| == 1 then lines[0] else lines[0] + ['\n'] + Join(lines[1..])
  }

  // ---- One line ----

  /** A line as both the reader and the writer see it. */
  datatype Parsed = Kept | Assignment(key: string, rawValue: string)

  function Parse(raw: string): Parsed {
    var line := Trim(raw);
    var n := IndexOf(line, '=');
    if line == [] || line[0] == '#' || n == |line| then Kept
    else Assignment(Trim(line[..n]), Trim(line[n + 1..]))
  }

  /** The reader takes one pair of equal quotes off a value. */
  function Unquote(value: string): string {
    if |value| >= 2 && (value[0] == '\"' || value[0] == '\'') && value[0] == value[|value| - 1]
    then value[1..|value| - 1] else value
  }

  predicate IsSpecial(c: char) {
    c == ' ' || c == '\t' || c == '#' || c == '$' || c == '\'' || c == '`'
  }

  predicate NeedsQuotes(value: string) {
    exists i :: 0 <= i < |value| && IsSpecial(value[i])
  }

  function Replace(s: string, c: char, sub: string): string {
    if s == [] then [] else (if s[0] == c then sub else [s[0]]) + Replace(s[1..], c, sub)
  }

  /** quote_if_needed. */
  function QuoteIfNeeded(value: string): string {
    if NeedsQuotes(value)
    then ['\"'] + Replace(Replace(value, '\\', ['\\', '\\']), '\"', ['\\', '\"']) + ['\"']
    else value
  }

  function Line(key: string, value: string): string {
    key + ['='] + QuoteIfNeeded(value)
  }

  // ---- Which values come back ----

  lemma {:induction false} ReplaceNothing(s: string, c: char, sub: string)
    requires c !in s
    ensures Replace(s, c, sub) == s
  {
    if s != [] {
      assert s[0] in s;
      ReplaceNothing(s[1..], c, sub);
      assert s == [s[0]] + s[1..];
    }
  }

  lemma {:induction false} ReplaceGrows(s: string, c: char, sub: string)
    requires |sub| == 2
    ensures |Replace(s, c, sub)| >= |s|
    ensures c in s ==> |Replace(s, c, sub)| > |s|
    ensures forall d :: d in s && d != c ==> d in Replace(s, c, sub)
  {
    if s != [] {
      ReplaceGrows(s[1..], c, sub);
      forall d | d in s && d != c ensures d in Replace(s, c, sub) {
        assert d == s[0] || d in s[1..];
      }
    }
  }

  /** The value a caller can rely on: if it needs quotes it has no double quote and no
    * backslash; if not, it has no space around it and no pair of double quotes. */
  ghost predicate Faithful(value: string) {
    if NeedsQuotes(value) then '\"' !in value && '\\' !in value
    else Trimmed(value) && !(|value| >= 2 && value[0] == '\"' && value[|value| - 1] == '\"')
  }

  /** A written value reads back as itself if and only if it is faithful. */
  lemma ValueRoundTrip(value: string)
    ensures Unquote(Trim(QuoteIfNeeded(value))) == value <==> Faithful(value)
  {
    var quoted := QuoteIfNeeded(value);
    TrimIsTrimmed(quoted);
    if NeedsQuotes(value) {
      var slashes := Replace(value, '\\', ['\\', '\\']);
      var inner := Replace(slashes, '\"', ['\\', '\"']);
      assert quoted == ['\"'] + inner + ['\"'];
      assert quoted[1..|quoted| - 1] == inner;
      ReplaceGrows(value, '\\', ['\\', '\\']);
      ReplaceGrows(slashes, '\"', ['\\', '\"']);
      if Faithful(value) {
        ReplaceNothing(value, '\\', ['\\', '\\']);
        ReplaceNothing(value, '\"', ['\\', '\"']);
      }
    } else {
      PlainRoundTrip(value);
    }
  }

  lemma PlainRoundTrip(value: string)
    requires !NeedsQuotes(value)
    ensures Unquote(Trim(value)) == value <==> Faithful(value)
  {
    var t := Trim(value);
    TrimIsTrimmed(value);
    TrimShorter(value);
    assert forall i :: 0 <= i < |value| ==> !IsSpecial(value[i]);
  }

  lemma TrimShorter(value: string)
    ensures |Trim(value)| <= |value|
    ensures Trim(value) != value ==> |Trim(value)| < |value|
  {
    var a := TrimStart(value);
    if a != value { TrimStartShorter(value); }
  }

  lemma {:induction false} TrimStartShorter(s: string)
    ensures TrimStart(s) == s || |TrimStart(s)| < |s|
  {
    if s != [] && IsSpace(s[0]) { TrimStartShorter(s[1..]); }
  }
}
