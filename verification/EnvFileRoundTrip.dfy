/** Reading and writing whole `.env` files, and what one does to the other. */
module EnvFileRoundTrip {
  import opened Wrappers
  import opened EnvFile
  import opened Seqs

  /** The variables in the order of the map the wizard holds. */
  datatype Entry = Entry(key: string, value: string)

  // ---- The reader ----

  function Insert(env: map<string, string>, raw: string): map<string, string> {
    match Parse(raw)
    case Kept => env
    case Assignment(key, value) => env[key := Unquote(value)]
  }

  function ReadLines(lines: seq<string>): map<string, string> {
    if lines == [] then map[] else Insert(ReadLines(lines[..|lines| - 1]), lines[|lines| - 1])
  }

  /** read_env_file; a missing file reads as empty. */
  method ReadEnvFile(file: Option<string>) returns (env: map<string, string>)
    ensures env == if file.None? then map[] else ReadLines(Lines(file.value))
  {
    env := map[];
    if file.None? { return; }
    var lines := Lines(file.value);
    for i := 0 to |lines|
      invariant env == ReadLines(lines[..i])
    {
      assert lines[..i + 1][..i] == lines[..i];
      var parsed := Parse(lines[i]);
      if parsed.Assignment? { env := env[parsed.key := Unquote(parsed.rawValue)]; }
    }
    assert lines[..|lines|] == lines;
  }

  // ---- The writer ----

  function Get(env: seq<Entry>, key: string): Option<string> {
    if env == [] then None
    else if env[0].key == key then Some(env[0].value)
    else Get(env[1..], key)
  }

  /** What becomes of one line: kept, rewritten, or dropped. */
  function RewriteLine(env: seq<Entry>, raw: string): seq<string> {
    match Parse(raw)
    case Kept => [raw]
    case Assignment(key, _) =>
      match Get(env, key)
      case Some(value) => [Line(key, value)]
      case None => []
  }

  function Rewrite(env: seq<Entry>, lines: seq<string>): seq<string> {
    if lines == [] then [] else Rewrite(env, lines[..|lines| - 1]) + RewriteLine(env, lines[|lines| - 1])
  }

  /** The keys the rewritten lines cover. */
  function Covered(env: seq<Entry>, lines: seq<string>): set<string> {
    if lines == [] then {}
    else
      var before, parsed := Covered(env, lines[..|lines| - 1]), Parse(lines[|lines| - 1]);
      if parsed.Assignment? && Get(env, parsed.key).Some? then before + {parsed.key} else before
  }

  function NewEntries(env: seq<Entry>, covered: set<string>): seq<Entry> {
    if env == [] then []
    else
      var before, last := NewEntries(env[..|env| - 1], covered), env[|env| - 1];
      if last.key in covered then before else before + [last]
  }

  /** What the wizard puts above new variables. */
  const HEADER: string := "# Added by `bss onboard` (v0.14+)"

  /** All that matters about it. */
  predicate IsComment(line: string) {
    line != [] && line[0] == '#' && !EndsCr(line) && '\n' !in line
  }

  function Appended(entries: seq<Entry>): (r: seq<string>)
    ensures |r| == |entries| && forall i :: 0 <= i < |r| ==> r[i] == Line(entries[i].key, entries[i].value)
  {
    seq(|entries|, i requires 0 <= i < |entries| => Line(entries[i].key, entries[i].value))
  }

  /** The lines the file held before the write. */
  function Before(file: Option<string>): seq<string> {
    if file.Some? then Lines(file.value) else []
  }

  /** The lines the writer joins. */
  function Output(header: string, lines: seq<string>, env: seq<Entry>): seq<string> {
    var new_ := NewEntries(env, Covered(env, lines));
    Rewrite(env, lines) + if new_ == [] then [] else ["", header] + Appended(new_)
  }

  /** The content write_env_file puts on disk. */
  function Written(header: string, file: Option<string>, env: seq<Entry>): string {
    Join(Output(header, Before(file), env)) + ['\n']
  }

  /** The first loop of write_env_file. */
  method RewriteExisting(existing: seq<string>, env: seq<Entry>) returns (lines: seq<string>, written: set<string>)
    ensures lines == Rewrite(env, existing) && written == Covered(env, existing)
  {
    lines, written := [], {};
    for i := 0 to |existing|
      invariant lines == Rewrite(env, existing[..i]) && written == Covered(env, existing[..i])
    {
      var raw := existing[i];
      assert existing[..i + 1][..i] == existing[..i];
      var parsed := Parse(raw);
      var value := if parsed.Assignment? then Get(env, parsed.key) else None;
      if parsed == Kept {
        lines := lines + [raw];
      } else if value.Some? {
        lines := lines + [Line(parsed.key, value.value)];
        written := written + {parsed.key};
      } else {
        assert lines + [] == lines;
      }
    }
    assert existing[..|existing|] == existing;
  }

  /** The variables no line of the file covers. */
  method NewKeys(env: seq<Entry>, written: set<string>) returns (newKeys: seq<Entry>)
    ensures newKeys == NewEntries(env, written)
  {
    newKeys := [];
    for i := 0 to |env|
      invariant newKeys == NewEntries(env[..i], written)
    {
      assert env[..i + 1][..i] == env[..i];
      if env[i].key !in written { newKeys := newKeys + [env[i]]; }
    }
    assert env[..|env|] == env;
  }

  /** The header and the new variables' lines. */
  method AppendNew(header: string, before: seq<string>, newKeys: seq<Entry>) returns (lines: seq<string>)
    ensures lines == before + if newKeys == [] then [] else ["", header] + Appended(newKeys)
  {
    lines := before;
    if newKeys != [] {
      lines := lines + [""];
      lines := lines + [header];
      for i := 0 to |newKeys|
        invariant lines == before + (["", header] + Appended(newKeys[..i]))
      {
        MapSnoc(Appended(newKeys[..i + 1]), Appended(newKeys[..i]), Line(newKeys[i].key, newKeys[i].value));
        lines := lines + [Line(newKeys[i].key, newKeys[i].value)];
      }
      assert newKeys[..|newKeys|] == newKeys;
    } else {
      assert lines + [] == lines;
    }
  }

  /** write_env_file, without the backups. */
  method WriteEnvFile(header: string, file: Option<string>, env: seq<Entry>) returns (content: string)
    ensures content == Written(header, file, env)
  {
    var lines, written := RewriteExisting(Before(file), env);
    var newKeys := NewKeys(env, written);
    lines := AppendNew(header, lines, newKeys);
    content := Join(lines) + ['\n'];
  }

  // ---- Lines and line feeds ----

  function DropCrs(lines: seq<string>): (r: seq<string>)
    ensures |r| == |lines| && forall i :: 0 <= i < |r| ==> r[i] == DropCr(lines[i])
  {
    seq(|lines|, i requires 0 <= i < |lines| => DropCr(lines[i]))
  }

  ghost predicate NoFeed(lines: seq<string>) {
    forall i :: 0 <= i < |lines| ==> '\n' !in lines[i]
  }

  lemma {:induction false} LinesHaveNoFeed(text: string)
    ensures NoFeed(Lines(text))
    decreases |text|
  {
    if text != [] {
      var n := IndexOf(text, '\n');
      if n < |text| {
        LinesHaveNoFeed(text[n + 1..]);
        forall c | c in DropCr(text[..n]) ensures c != '\n' { assert c in text[..n]; }
      }
    }
  }

  lemma FirstFeed(line: string, rest: string)
    requires '\n' !in line
    ensures var text := line + ['\n'] + rest;
            IndexOf(text, '\n') == |line| && text[..|line|] == line && text[|line| + 1..] == rest
  {
    var text := line + ['\n'] + rest;
    forall i | 0 <= i < |line| ensures text[i] != '\n' { assert text[i] == line[i] && line[i] in line; }
    assert text[|line|] == '\n';
  }

  /** Splitting what was joined drops one carriage return from each line. */
  lemma {:induction false} LinesOfUnlines(lines: seq<string>)
    requires NoFeed(lines)
    ensures Lines(Unlines(lines)) == DropCrs(lines)
    decreases |lines|
  {
    if lines != [] {
      FirstFeed(lines[0], Unlines(lines[1..]));
      LinesOfUnlines(lines[1..]);
      DropCrsCons(lines);
    }
  }

  lemma DropCrsCons(lines: seq<string>)
    requires lines != []
    ensures DropCrs(lines) == [DropCr(lines[0])] + DropCrs(lines[1..])
  {
  }

  lemma {:induction false} JoinIsUnlines(lines: seq<string>)
    requires lines != []
    ensures Join(lines) + ['\n'] == Unlines(lines)
    decreases |lines|
  {
    if |lines| > 1 {
      JoinIsUnlines(lines[1..]);
    } else {
      assert lines[1..] == [];
    }
  }

  /** The file as lines again: an empty output is one empty line. */
  lemma LinesOfWritten(out: seq<string>)
    requires NoFeed(out)
    ensures Lines(Join(out) + ['\n']) == if out == [] then [""] else DropCrs(out)
  {
    if out == [] {
      assert Join(out) + ['\n'] == Unlines([""]);
      LinesOfUnlines([""]);
      assert DropCrs([""]) == [""];
    } else {
      JoinIsUnlines(out);
      LinesOfUnlines(out);
    }
  }

  // ---- Trimming and parsing ----

  lemma {:induction false} TrimStartSnoc(s: string, c: char)
    requires IsSpace(c)
    ensures TrimStart(s + [c]) == if TrimStart(s) == [] then [] else TrimStart(s) + [c]
  {
    if s == [] {
      assert s + [c] == [c] && [c][1..] == [];
    } else if IsSpace(s[0]) {
      assert (s + [c])[1..] == s[1..] + [c];
      TrimStartSnoc(s[1..], c);
    }
  }

  /** A trailing space does not matter. */
  lemma TrimSnoc(s: string, c: char)
    requires IsSpace(c)
    ensures Trim(s + [c]) == Trim(s)
  {
    TrimStartSnoc(s, c);
    var a := TrimStart(s);
    if a != [] { assert (a + [c])[..|a|] == a; }
  }

  lemma ParseDropCr(raw: string)
    ensures Parse(DropCr(raw)) == Parse(raw)
  {
    if EndsCr(raw) {
      assert raw == DropCr(raw) + ['\r'];
      TrimSnoc(DropCr(raw), '\r');
    }
  }

  lemma {:induction false} TrimOfTrimEnd(s: string)
    ensures Trim(TrimEnd(s)) == Trim(s)
    decreases |s|
  {
    if s != [] && IsSpace(s[|s| - 1]) {
      TrimOfTrimEnd(s[..|s| - 1]);
      assert s == s[..|s| - 1] + [s[|s| - 1]];
      TrimSnoc(s[..|s| - 1], s[|s| - 1]);
    }
  }

  lemma {:induction false} TrimEndConcat(a: string, b: string)
    requires a != [] && !IsSpace(a[|a| - 1])
    ensures TrimEnd(a + b) == a + TrimEnd(b)
    decreases |b|
  {
    if b == [] {
      assert a + b == a;
    } else if IsSpace(b[|b| - 1]) {
      assert (a + b)[..|a + b| - 1] == a + b[..|b| - 1];
      TrimEndConcat(a, b[..|b| - 1]);
    }
  }

  /** A key the file format can carry. */
  ghost predicate SaneKey(key: string) {
    key != [] && Trimmed(key) && key[0] != '#' && '=' !in key && '\n' !in key
  }

  /** A written line parses to its key and its trimmed, quoted value. */
  lemma ParseLine(key: string, value: string)
    requires SaneKey(key)
    ensures Parse(Line(key, value)) == Assignment(key, Trim(QuoteIfNeeded(value)))
  {
    var q := QuoteIfNeeded(value);
    var head := key + ['='];
    assert TrimStart(Line(key, value)) == head + q;
    TrimEndConcat(head, q);
    var line := Trim(Line(key, value));
    assert line == head + TrimEnd(q);
    var n := IndexOf(line, '=');
    assert line[|key|] == '=';
    forall i | 0 <= i < |key| ensures line[i] != '=' { assert line[i] == key[i] && key[i] in key; }
    assert line[..n] == key && line[n + 1..] == TrimEnd(q);
    TrimIsTrimmed(key);
    TrimOfTrimEnd(q);
  }

  // ---- What the output consists of ----

  ghost predicate SaneKeys(env: seq<Entry>) {
    && (forall i :: 0 <= i < |env| ==> SaneKey(env[i].key))
    && (forall i, j :: 0 <= i < j < |env| ==> env[i].key != env[j].key)
  }

  ghost predicate NoFeedValues(env: seq<Entry>) {
    forall e :: e in env ==> '\n' !in e.value
  }

  lemma {:induction false} GetFinds(env: seq<Entry>, key: string)
    ensures Get(env, key).Some? ==> Entry(key, Get(env, key).value) in env
    ensures Get(env, key).None? ==> forall i :: 0 <= i < |env| ==> env[i].key != key
  {
    if env != [] { GetFinds(env[1..], key); }
  }

  lemma {:induction false} GetAt(env: seq<Entry>, i: nat)
    requires i < |env| && forall j, k :: 0 <= j < k < |env| ==> env[j].key != env[k].key
    ensures Get(env, env[i].key) == Some(env[i].value)
  {
    if i > 0 { GetAt(env[1..], i - 1); }
  }

  /** An output line is a kept line, or the assignment of an entry. */
  ghost predicate FromEnv(env: seq<Entry>, line: string) {
    match Parse(line)
    case Kept => true
    case Assignment(key, _) => Get(env, key).Some? && line == Line(key, Get(env, key).value)
  }

  ghost predicate AllFromEnv(env: seq<Entry>, lines: seq<string>) {
    forall i :: 0 <= i < |lines| ==> FromEnv(env, lines[i])
  }

  ghost predicate Assigns(lines: seq<string>, key: string) {
    exists i :: 0 <= i < |lines| && Parse(lines[i]).Assignment? && Parse(lines[i]).key == key
  }

  lemma AssignsConcat(a: seq<string>, b: seq<string>, key: string)
    ensures Assigns(a + b, key) <==> Assigns(a, key) || Assigns(b, key)
  {
    if i :| 0 <= i < |a| && Parse(a[i]).Assignment? && Parse(a[i]).key == key { assert (a + b)[i] == a[i]; }
    if i :| 0 <= i < |b| && Parse(b[i]).Assignment? && Parse(b[i]).key == key { assert (a + b)[|a| + i] == b[i]; }
  }

  lemma RewriteLineFromEnv(env: seq<Entry>, raw: string)
    requires SaneKeys(env)
    ensures var more, parsed := RewriteLine(env, raw), Parse(raw);
            && AllFromEnv(env, more)
            && (forall key :: Assigns(more, key) <==>
                  parsed.Assignment? && Get(env, parsed.key).Some? && key == parsed.key)
            && ('\n' !in raw && NoFeedValues(env) ==> NoFeed(more))
  {
    var more, parsed := RewriteLine(env, raw), Parse(raw);
    if parsed.Assignment? && Get(env, parsed.key).Some? {
      GetFinds(env, parsed.key);
      ParseLine(parsed.key, Get(env, parsed.key).value);
      LineHasNoFeed(parsed.key, Get(env, parsed.key).value);
      assert Parse(more[0]).key == parsed.key;
    }
  }

  lemma {:induction false} RewriteFromEnv(env: seq<Entry>, lines: seq<string>)
    requires SaneKeys(env)
    ensures AllFromEnv(env, Rewrite(env, lines))
    ensures forall key :: Assigns(Rewrite(env, lines), key) <==> key in Covered(env, lines)
    ensures NoFeed(lines) && NoFeedValues(env) ==> NoFeed(Rewrite(env, lines))
  {
    if lines != [] {
      var before, last := lines[..|lines| - 1], lines[|lines| - 1];
      RewriteFromEnv(env, before);
      RewriteLineFromEnv(env, last);
      forall key ensures Assigns(Rewrite(env, lines), key) <==> key in Covered(env, lines) {
        AssignsConcat(Rewrite(env, before), RewriteLine(env, last), key);
      }
    }
  }

  lemma {:induction false} ReplaceHasNoFeed(s: string, c: char, sub: string)
    requires '\n' !in s && '\n' !in sub
    ensures '\n' !in Replace(s, c, sub)
  {
    if s != [] {
      assert s[0] in s;
      ReplaceHasNoFeed(s[1..], c, sub);
    }
  }

  lemma LineHasNoFeed(key: string, value: string)
    ensures '\n' !in key && '\n' !in value ==> '\n' !in Line(key, value)
  {
    if '\n' !in value {
      var slashes := Replace(value, '\\', ['\\', '\\']);
      ReplaceHasNoFeed(value, '\\', ['\\', '\\']);
      ReplaceHasNoFeed(slashes, '\"', ['\\', '\"']);
    }
  }

  lemma {:induction false} NewEntriesAre(env: seq<Entry>, covered: set<string>)
    ensures forall e :: e in NewEntries(env, covered) <==> e in env && e.key !in covered
  {
    if env != [] {
      NewEntriesAre(env[..|env| - 1], covered);
      forall e ensures e in env <==> e in env[..|env| - 1] || e == env[|env| - 1] {
        assert env == env[..|env| - 1] + [env[|env| - 1]];
      }
    }
  }

  /** The line written for an entry. */
  lemma EntryLine(env: seq<Entry>, e: Entry)
    requires SaneKeys(env) && e in env
    ensures FromEnv(env, Line(e.key, e.value))
    ensures Parse(Line(e.key, e.value)).Assignment? && Parse(Line(e.key, e.value)).key == e.key
    ensures NoFeedValues(env) ==> '\n' !in Line(e.key, e.value)
  {
    var i :| 0 <= i < |env| && env[i] == e;
    GetAt(env, i);
    ParseLine(e.key, e.value);
    LineHasNoFeed(e.key, e.value);
  }

  lemma AppendedFromEnv(env: seq<Entry>, entries: seq<Entry>)
    requires SaneKeys(env) && forall e :: e in entries ==> e in env
    ensures AllFromEnv(env, Appended(entries))
    ensures forall i :: 0 <= i < |entries| ==>
      Parse(Appended(entries)[i]).Assignment? && Parse(Appended(entries)[i]).key == entries[i].key
    ensures NoFeedValues(env) ==> NoFeed(Appended(entries))
  {
    forall i | 0 <= i < |entries|
      ensures FromEnv(env, Appended(entries)[i])
      ensures Parse(Appended(entries)[i]).Assignment? && Parse(Appended(entries)[i]).key == entries[i].key
      ensures NoFeedValues(env) ==> '\n' !in Appended(entries)[i]
    {
      EntryLine(env, entries[i]);
    }
  }

  lemma AssignsSnoc(a: seq<string>, line: string, key: string)
    ensures Assigns(a + [line], key) <==> Assigns(a, key) || (Parse(line).Assignment? && Parse(line).key == key)
  {
    AssignsConcat(a, [line], key);
    assert [line][0] == line;
  }

  lemma CommentKept(line: string)
    requires IsComment(line)
    ensures Parse(line) == Kept
  {
    assert line == ['#'] + line[1..];
    TrimEndConcat(['#'], line[1..]);
    assert TrimStart(line) == line;
  }

  lemma HeaderIsComment()
    ensures IsComment(HEADER)
  {
    assert HEADER[|HEADER| - 1] == ')';
  }

  lemma HeadIsKept(header: string, env: seq<Entry>)
    requires IsComment(header)
    ensures AllFromEnv(env, ["", header]) && NoFeed(["", header])
    ensures forall key :: !Assigns(["", header], key)
    ensures KeptLines(["", header]) == ["", header]
  {
    var head := ["", header];
    CommentKept(header);
    assert forall i :: 0 <= i < |head| ==> Parse(head[i]) == Kept;
    FilterUniform(IsKept, head);
  }

  /** The lines the writer adds below the file's own. */
  function Addition(header: string, file: Option<string>, env: seq<Entry>): seq<string> {
    var new_ := NewEntries(env, Covered(env, Before(file)));
    if new_ == [] then [] else ["", header] + Appended(new_)
  }

  lemma AppendedAssigns(env: seq<Entry>, entries: seq<Entry>, key: string)
    requires SaneKeys(env) && forall e :: e in entries ==> e in env
    ensures Assigns(Appended(entries), key) <==> Get(env, key).Some? && Entry(key, Get(env, key).value) in entries
  {
    AppendedFromEnv(env, entries);
    GetFinds(env, key);
    GetAll(env);
    if i :| 0 <= i < |entries| && Parse(Appended(entries)[i]).key == key {
      assert entries[i].key == key && entries[i] in env;
    }
    if Get(env, key).Some? && Entry(key, Get(env, key).value) in entries {
      var i :| 0 <= i < |entries| && entries[i] == Entry(key, Get(env, key).value);
      assert Parse(Appended(entries)[i]).key == key;
    }
  }

  lemma AdditionFromEnv(header: string, file: Option<string>, env: seq<Entry>)
    requires IsComment(header) && SaneKeys(env)
    ensures AllFromEnv(env, Addition(header, file, env))
    ensures NoFeedValues(env) ==> NoFeed(Addition(header, file, env))
  {
    var new_ := NewEntries(env, Covered(env, Before(file)));
    NewEntriesAre(env, Covered(env, Before(file)));
    AppendedFromEnv(env, new_);
    HeadIsKept(header, env);
  }

  lemma AdditionAssigns(header: string, file: Option<string>, env: seq<Entry>, key: string)
    requires IsComment(header) && SaneKeys(env)
    ensures Assigns(Addition(header, file, env), key) <==> Get(env, key).Some? && key !in Covered(env, Before(file))
  {
    var covered := Covered(env, Before(file));
    var new_ := NewEntries(env, covered);
    NewEntriesAre(env, covered);
    AppendedAssigns(env, new_, key);
    HeadIsKept(header, env);
    AssignsConcat(["", header], Appended(new_), key);
    GetFinds(env, key);
  }

  /** The output: only kept lines and assignments of entries, and every entry assigned. */
  lemma OutputFromEnv(header: string, file: Option<string>, env: seq<Entry>)
    requires IsComment(header) && SaneKeys(env)
    ensures AllFromEnv(env, Output(header, Before(file), env))
    ensures forall key :: Assigns(Output(header, Before(file), env), key) <==> Get(env, key).Some?
    ensures NoFeedValues(env) ==> NoFeed(Output(header, Before(file), env))
  {
    var lines := Before(file);
    if file.Some? { LinesHaveNoFeed(file.value); }
    RewriteFromEnv(env, lines);
    AdditionFromEnv(header, file, env);
    var add := Addition(header, file, env);
    assert Output(header, Before(file), env) == Rewrite(env, lines) + add;
    forall key ensures Assigns(Output(header, Before(file), env), key) <==> Get(env, key).Some? {
      AssignsConcat(Rewrite(env, lines), add, key);
      AdditionAssigns(header, file, env, key);
      if key in Covered(env, lines) { CoveredInEnv(env, lines, key); }
    }
  }

  lemma {:induction false} CoveredInEnv(env: seq<Entry>, lines: seq<string>, key: string)
    requires key in Covered(env, lines)
    ensures Get(env, key).Some?
  {
    if lines != [] && key in Covered(env, lines[..|lines| - 1]) { CoveredInEnv(env, lines[..|lines| - 1], key); }
  }

  // ---- The round trip ----

  function ToMap(env: seq<Entry>): map<string, string> {
    if env == [] then map[] else ToMap(env[1..])[env[0].key := env[0].value]
  }

  lemma {:induction false} ToMapIsGet(env: seq<Entry>)
    ensures forall key :: key in ToMap(env) <==> Get(env, key).Some?
    ensures forall key :: key in ToMap(env) ==> Some(ToMap(env)[key]) == Get(env, key)
  {
    if env != [] { ToMapIsGet(env[1..]); }
  }

  lemma ReadsSnoc(before: seq<string>, line: string)
    ensures ReadLines(before + [line]) == Insert(ReadLines(before), line)
  {
    assert (before + [line])[..|before|] == before;
  }

  lemma FromEnvValue(env: seq<Entry>, line: string)
    requires SaneKeys(env) && FromEnv(env, line) && Parse(line).Assignment?
    ensures Parse(line).rawValue == Trim(QuoteIfNeeded(Get(env, Parse(line).key).value))
  {
    GetFinds(env, Parse(line).key);
    ParseLine(Parse(line).key, Get(env, Parse(line).key).value);
  }

  /** What a map read from lines may hold: entries' values, as read. */
  ghost predicate ReadFrom(env: seq<Entry>, got: map<string, string>) {
    forall key :: key in got ==>
      Get(env, key).Some? && got[key] == Unquote(Trim(QuoteIfNeeded(Get(env, key).value)))
  }

  /** Reading lines that only assign entries: each assigned key has its value, as read. */
  lemma {:induction false} ReadsEntries(env: seq<Entry>, lines: seq<string>)
    requires SaneKeys(env) && AllFromEnv(env, lines)
    ensures forall key :: key in ReadLines(lines) <==> Assigns(lines, key)
    ensures ReadFrom(env, ReadLines(lines))
  {
    if lines != [] {
      var before, last := lines[..|lines| - 1], lines[|lines| - 1];
      assert lines == before + [last];
      ReadsEntries(env, before);
      ReadsSnoc(before, last);
      assert FromEnv(env, last);
      forall key { AssignsSnoc(before, last, key); }
      if Parse(last).Assignment? { FromEnvValue(env, last); }
    }
  }

  lemma {:induction false} ReadDropCrs(lines: seq<string>)
    ensures ReadLines(DropCrs(lines)) == ReadLines(lines)
  {
    if lines != [] {
      var n := |lines| - 1;
      ReadDropCrs(lines[..n]);
      assert DropCrs(lines)[..n] == DropCrs(lines[..n]);
      ParseDropCr(lines[n]);
    }
  }

  lemma {:induction false} TrimStartWithin(s: string)
    ensures forall c :: c in TrimStart(s) ==> c in s
  {
    if s != [] && IsSpace(s[0]) { TrimStartWithin(s[1..]); }
  }

  lemma ParsedHasNoFeed(raw: string)
    requires '\n' !in raw
    ensures Parse(raw).Assignment? ==> '\n' !in Unquote(Parse(raw).rawValue)
  {
    var line := Trim(raw);
    TrimStartWithin(raw);
    assert forall c :: c in line ==> c in TrimStart(raw);
    var n := IndexOf(line, '=');
    if n < |line| {
      var rest := line[n + 1..];
      assert forall c :: c in rest ==> c in line;
      TrimStartWithin(rest);
      assert forall c :: c in Trim(rest) ==> c in TrimStart(rest);
      assert forall c :: c in Unquote(Trim(rest)) ==> c in Trim(rest);
    }
  }

  /** No value that was read holds a line feed. */
  lemma {:induction false} ReadHasNoFeed(lines: seq<string>)
    requires NoFeed(lines)
    ensures forall key :: key in ReadLines(lines) ==> '\n' !in ReadLines(lines)[key]
  {
    if lines != [] {
      ReadHasNoFeed(lines[..|lines| - 1]);
      ParsedHasNoFeed(lines[|lines| - 1]);
    }
  }

  lemma BlankKept()
    ensures Parse("") == Kept && ReadLines([""]) == map[] && DropCrs([""]) == [""] && Settle([""]) == [""]
  {
    assert [""][..0] == [];
    assert ReadLines([""]) == Insert(ReadLines([]), "");
  }

  lemma ReadsWritten(header: string, file: Option<string>, env: seq<Entry>)
    requires IsComment(header) && SaneKeys(env) && NoFeedValues(env)
    ensures ReadLines(Lines(Written(header, file, env))) == ReadLines(Output(header, Before(file), env))
  {
    var out := Output(header, Before(file), env);
    OutputFromEnv(header, file, env);
    LinesOfWritten(out);
    BlankKept();
    if out != [] { ReadDropCrs(out); }
  }

  lemma ReadsBack(header: string, file: Option<string>, env: seq<Entry>)
    requires IsComment(header) && SaneKeys(env) && NoFeedValues(env)
    ensures var got := ReadLines(Lines(Written(header, file, env)));
            && (forall key :: key in got <==> Get(env, key).Some?)
            && (forall key :: key in got ==> (Some(got[key]) == Get(env, key) <==> Faithful(Get(env, key).value)))
  {
    var got := ReadLines(Lines(Written(header, file, env)));
    ReadsWritten(header, file, env);
    OutputFromEnv(header, file, env);
    ReadsEntries(env, Output(header, Before(file), env));
    forall key | key in got ensures Some(got[key]) == Get(env, key) <==> Faithful(Get(env, key).value) {
      ValueRoundTrip(Get(env, key).value);
    }
  }

  /** Reading what was written gives back the variables, whatever the file held before, if and
    * only if every value is faithful and has no line feed. */
  lemma RoundTrip(header: string, file: Option<string>, env: seq<Entry>)
    requires IsComment(header) && SaneKeys(env)
    ensures ReadLines(Lines(Written(header, file, env))) == ToMap(env)
       <==> (NoFeedValues(env) && forall e :: e in env ==> Faithful(e.value))
  {
    var got, want := ReadLines(Lines(Written(header, file, env))), ToMap(env);
    ToMapIsGet(env);
    GetAll(env);
    if NoFeedValues(env) {
      ReadsBack(header, file, env);
      if forall e :: e in env ==> Faithful(e.value) {
        forall key | key in got ensures got[key] == want[key] { GetFinds(env, key); }
        assert got == want;
      }
      if got == want {
        forall e | e in env ensures Faithful(e.value) { assert e.key in got; }
      }
    } else {
      var e :| e in env && '\n' in e.value;
      LinesHaveNoFeed(Written(header, file, env));
      ReadHasNoFeed(Lines(Written(header, file, env)));
      assert want[e.key] == e.value;
    }
  }

  lemma GetAll(env: seq<Entry>)
    requires SaneKeys(env)
    ensures forall e :: e in env ==> Get(env, e.key) == Some(e.value)
  {
    forall e | e in env ensures Get(env, e.key) == Some(e.value) {
      var i :| 0 <= i < |env| && env[i] == e;
      GetAt(env, i);
    }
  }

  // ---- Lines that are not assignments ----

  /** The comments, blank lines and other lines that assign nothing. */
  function KeptLines(lines: seq<string>): seq<string> {
    Filter(IsKept, lines)
  }

  predicate IsKept(line: string) {
    Parse(line) == Kept
  }

  lemma KeptOne(line: string)
    ensures KeptLines([line]) == if IsKept(line) then [line] else []
  {
    FilterUniform(IsKept, [line]);
  }

  lemma RewriteLineKeeps(env: seq<Entry>, raw: string)
    requires SaneKeys(env)
    ensures KeptLines(RewriteLine(env, raw)) == KeptLines([raw])
  {
    var parsed := Parse(raw);
    KeptOne(raw);
    if parsed.Assignment? && Get(env, parsed.key).Some? {
      var line := Line(parsed.key, Get(env, parsed.key).value);
      GetFinds(env, parsed.key);
      ParseLine(parsed.key, Get(env, parsed.key).value);
      KeptOne(line);
    }
  }

  lemma RewriteKeepsSnoc(env: seq<Entry>, before: seq<string>, last: string)
    requires SaneKeys(env)
    ensures KeptLines(Rewrite(env, before + [last])) == KeptLines(Rewrite(env, before)) + KeptLines([last])
  {
    RewriteSnoc(env, before, last);
    FilterConcat(IsKept, Rewrite(env, before), RewriteLine(env, last));
    RewriteLineKeeps(env, last);
  }

  lemma {:induction false} RewriteKeeps(env: seq<Entry>, lines: seq<string>)
    requires SaneKeys(env)
    ensures KeptLines(Rewrite(env, lines)) == KeptLines(lines)
  {
    if lines == [] {
      assert Rewrite(env, lines) == lines;
    } else {
      var before, last := lines[..|lines| - 1], lines[|lines| - 1];
      assert lines == before + [last];
      RewriteKeeps(env, before);
      RewriteKeepsSnoc(env, before, last);
      FilterConcat(IsKept, before, [last]);
    }
  }

  lemma AppendedNotKept(env: seq<Entry>, entries: seq<Entry>)
    requires SaneKeys(env) && forall e :: e in entries ==> e in env
    ensures KeptLines(Appended(entries)) == []
  {
    AppendedFromEnv(env, entries);
    FilterUniform(IsKept, Appended(entries));
  }

  lemma NoneNew(env: seq<Entry>, covered: set<string>)
    ensures NewEntries(env, covered) == [] <==> forall e :: e in env ==> e.key in covered
    ensures forall e :: e in NewEntries(env, covered) ==> e in env
  {
    var new_ := NewEntries(env, covered);
    NewEntriesAre(env, covered);
    if new_ != [] {
      assert new_[0] in new_;
    } else {
      assert forall e :: e in env ==> e !in new_;
    }
  }

  lemma AdditionKeeps(header: string, file: Option<string>, env: seq<Entry>)
    requires IsComment(header) && SaneKeys(env)
    ensures KeptLines(Addition(header, file, env))
         == if forall e :: e in env ==> e.key in Covered(env, Before(file))
            then [] else ["", header]
  {
    var covered := Covered(env, Before(file));
    var new_, head := NewEntries(env, covered), ["", header];
    NoneNew(env, covered);
    if new_ != [] {
      HeadIsKept(header, env);
      AppendedNotKept(env, new_);
      FilterConcat(IsKept, head, Appended(new_));
      assert head + [] == head;
    }
  }

  /** Every line of the file that assigns nothing survives, in order; the writer adds such lines
    * only above new variables. */
  lemma CommentsSurvive(header: string, file: Option<string>, env: seq<Entry>)
    requires IsComment(header) && SaneKeys(env)
    ensures KeptLines(Output(header, Before(file), env))
         == KeptLines(Before(file))
            + if forall e :: e in env ==> e.key in Covered(env, Before(file)) then [] else ["", header]
  {
    var lines := Before(file);
    RewriteKeeps(env, lines);
    AdditionKeeps(header, file, env);
    FilterConcat(IsKept, Rewrite(env, lines), Addition(header, file, env));
  }

  // ---- Writing again ----

  /** What a second write makes of the first one's lines. */
  function Settled(line: string): string {
    if Parse(line) == Kept then DropCr(line) else line
  }

  function Settle(lines: seq<string>): (r: seq<string>)
    ensures |r| == |lines| && forall i :: 0 <= i < |r| ==> r[i] == Settled(lines[i])
  {
    seq(|lines|, i requires 0 <= i < |lines| => Settled(lines[i]))
  }

  lemma SettleSnoc(before: seq<string>, line: string)
    ensures Settle(before + [line]) == Settle(before) + [Settled(line)]
    ensures DropCrs(before + [line]) == DropCrs(before) + [DropCr(line)]
  {
    var lines := before + [line];
    assert forall i :: 0 <= i < |before| ==> lines[i] == before[i];
    MapSnoc(Settle(lines), Settle(before), Settled(line));
    MapSnoc(DropCrs(lines), DropCrs(before), DropCr(line));
  }

  lemma RewriteSnoc(env: seq<Entry>, before: seq<string>, line: string)
    ensures Rewrite(env, before + [line]) == Rewrite(env, before) + RewriteLine(env, line)
  {
    assert (before + [line])[..|before|] == before;
  }

  lemma SettleStep(env: seq<Entry>, before: seq<string>, line: string)
    requires Rewrite(env, DropCrs(before)) == Settle(before) && FromEnv(env, line)
    ensures Rewrite(env, DropCrs(before + [line])) == Settle(before + [line])
  {
    SettleSnoc(before, line);
    RewriteSnoc(env, DropCrs(before), DropCr(line));
    LineSettles(env, line);
  }

  lemma {:induction false} RewriteSettles(env: seq<Entry>, lines: seq<string>)
    requires AllFromEnv(env, lines)
    ensures Rewrite(env, DropCrs(lines)) == Settle(lines)
  {
    if lines == [] {
      assert DropCrs(lines) == [] == Settle(lines);
    } else {
      var before, line := lines[..|lines| - 1], lines[|lines| - 1];
      assert lines == before + [line];
      RewriteSettles(env, before);
      SettleStep(env, before, line);
    }
  }

  lemma LineSettles(env: seq<Entry>, line: string)
    requires FromEnv(env, line)
    ensures RewriteLine(env, DropCr(line)) == [Settled(line)]
  {
    ParseDropCr(line);
  }

  lemma SettleAssigns(lines: seq<string>, key: string)
    ensures Assigns(Settle(lines), key) <==> Assigns(lines, key)
  {
    forall i | 0 <= i < |lines| ensures Parse(Settle(lines)[i]) == Parse(lines[i]) { ParseDropCr(lines[i]); }
    if i :| 0 <= i < |lines| && Parse(lines[i]).Assignment? && Parse(lines[i]).key == key {
      assert Parse(Settle(lines)[i]) == Parse(lines[i]);
    }
  }

  /** After a write every line settles and no variable is new. */
  lemma SecondWrite(header: string, env: seq<Entry>, out: seq<string>, lines: seq<string>)
    requires SaneKeys(env) && AllFromEnv(env, out) && lines == DropCrs(out)
    requires forall key :: Assigns(out, key) <==> Get(env, key).Some?
    ensures Output(header, lines, env) == Settle(out)
  {
    RewriteSettles(env, out);
    RewriteFromEnv(env, lines);
    forall key ensures key in Covered(env, lines) <==> Get(env, key).Some? { SettleAssigns(out, key); }
    GetAll(env);
    NothingNew(env, Covered(env, lines));
    assert Settle(out) + [] == Settle(out);
  }

  lemma {:induction false} NothingNew(env: seq<Entry>, covered: set<string>)
    requires forall e :: e in env ==> e.key in covered
    ensures NewEntries(env, covered) == []
  {
    if env != [] { NothingNew(env[..|env| - 1], covered); }
  }

  lemma WriteAgain(header: string, file: Option<string>, env: seq<Entry>)
    requires IsComment(header) && SaneKeys(env) && NoFeedValues(env)
    ensures Output(header, Lines(Written(header, file, env)), env)
         == Settle(AtLeastBlank(Output(header, Before(file), env)))
  {
    var out := AtLeastBlank(Output(header, Before(file), env));
    var lines := Lines(Written(header, file, env));
    OutputFromEnv(header, file, env);
    LinesOfWritten(Output(header, Before(file), env));
    BlankKept();
    SecondWrite(header, env, out, lines);
  }

  /** No lines at all still make one blank line. */
  function AtLeastBlank(out: seq<string>): seq<string> {
    if out == [] then [""] else out
  }

  /** Lines of which some got shorter do not join to the same text. */
  lemma {:induction false} UnlinesSame(a: seq<string>, b: seq<string>)
    requires |a| == |b| && forall i :: 0 <= i < |a| ==> a[i] == b[i] || |a[i]| < |b[i]|
    ensures a != b ==> |Unlines(a)| < |Unlines(b)|
  {
    if a != b {
      assert a == [a[0]] + a[1..] && b == [b[0]] + b[1..];
      UnlinesSame(a[1..], b[1..]);
    }
  }

  ghost predicate NoCrKept(lines: seq<string>) {
    forall line :: line in lines && IsKept(line) ==> !EndsCr(line)
  }

  /** Writing the same variables again leaves the content as it is if and only if no comment,
    * blank or other kept line of the first file still ends in a carriage return. */
  lemma WriteTwice(header: string, file: Option<string>, env: seq<Entry>)
    requires IsComment(header) && SaneKeys(env) && NoFeedValues(env)
    ensures Written(header, Some(Written(header, file, env)), env) == Written(header, file, env)
       <==> NoCrKept(Before(file))
  {
    var out := AtLeastBlank(Output(header, Before(file), env));
    WriteAgain(header, file, env);
    NoCrOutput(header, file, env);
    BlankKept();
    JoinIsUnlines(out);
    JoinIsUnlines(Settle(out));
    SettleIsIdentity(out);
  }

  lemma NoCrOutput(header: string, file: Option<string>, env: seq<Entry>)
    requires IsComment(header) && SaneKeys(env)
    ensures NoCrKept(Output(header, Before(file), env)) <==> NoCrKept(Before(file))
  {
    CommentsSurvive(header, file, env);
    FilterMembers(IsKept, Before(file));
    FilterMembers(IsKept, Output(header, Before(file), env));
  }

  lemma SettleIsIdentity(out: seq<string>)
    ensures Unlines(Settle(out)) == Unlines(out) <==> NoCrKept(out)
  {
    forall i | 0 <= i < |out| ensures Settle(out)[i] == out[i] || |Settle(out)[i]| < |out[i]| {
      SettledShorter(out[i]);
    }
    UnlinesSame(Settle(out), out);
    forall line ensures Settled(line) == line <==> IsKept(line) ==> !EndsCr(line) { SettledShorter(line); }
    assert (forall i :: 0 <= i < |out| ==> Settle(out)[i] == out[i]) <==> Settle(out) == out;
  }

  lemma SettledShorter(line: string)
    ensures if IsKept(line) && EndsCr(line) then |Settled(line)| < |line| else Settled(line) == line
  {
  }

  /** With the header the wizard writes: the file is written, read back and written again. */
  method WriteReadWrite(file: Option<string>, env: seq<Entry>)
    returns (content: string, back: map<string, string>, again: string)
    requires SaneKeys(env)
    ensures content == Written(HEADER, file, env)
    ensures back == ToMap(env) <==> (NoFeedValues(env) && forall e :: e in env ==> Faithful(e.value))
    ensures NoFeedValues(env) ==> (again == content <==> NoCrKept(Before(file)))
  {
    HeaderIsComment();
    content := WriteEnvFile(HEADER, file, env);
    back := ReadEnvFile(Some(content));
    RoundTrip(HEADER, file, env);
    again := WriteEnvFile(HEADER, Some(content), env);
    if NoFeedValues(env) { WriteTwice(HEADER, file, env); }
  }

  /** A comment that ends in two carriage returns loses one on each write. */
  lemma TwoReturnsShrink(header: string)
    requires IsComment(header)
    ensures var file := ['#', '\r', '\r', '\n'];
            Written(header, Some(Written(header, Some(file), [])), []) != Written(header, Some(file), [])
  {
    var file := ['#', '\r', '\r', '\n'];
    var line := ['#', '\r'];
    assert file == Unlines([line + ['\r']]) by { assert [line + ['\r']][1..] == []; }
    LinesOfUnlines([line + ['\r']]);
    assert Lines(file) == [line];
    assert DropCr(line) == ['#'];
    CommentKept(['#']);
    ParseDropCr(line);
    WriteTwice(header, Some(file), []);
    assert !NoCrKept([line]) by { assert line in [line]; }
  }
}
