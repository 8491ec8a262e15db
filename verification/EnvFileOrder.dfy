/** Where the lines of a rewritten `.env` file stand: those of the file where they were, the new
  * variables below, in the order of the map. */
module EnvFileOrder {
  import opened Wrappers
  import opened EnvFile
  import opened EnvFileRoundTrip
  import opened Seqs

  /** What a line is, its value aside. */
  datatype Shape = Other(raw: string) | Sets(key: string)

  function ShapeOf(line: string): Shape {
    match Parse(line)
    case Kept => Other(line)
    case Assignment(key, _) => Sets(key)
  }

  function Shapes(lines: seq<string>): (r: seq<Shape>)
    ensures |r| == |lines|
  {
    seq(|lines|, i requires 0 <= i < |lines| => ShapeOf(lines[i]))
  }

  lemma ShapesConcat(a: seq<string>, b: seq<string>)
    ensures Shapes(a + b) == Shapes(a) + Shapes(b)
  {
  }

  /** The lines that stay: all but the assignments of variables the wizard dropped. */
  function Stays(env: seq<Entry>): Shape -> bool {
    (s: Shape) => s.Other? || exists e :: e in env && e.key == s.key
  }

  /** The variables no line of the file sets. */
  function IsNew(file: seq<Shape>): Entry -> bool {
    (e: Entry) => Sets(e.key) !in file
  }

  function SetsAll(entries: seq<Entry>): (r: seq<Shape>)
    ensures |r| == |entries|
  {
    seq(|entries|, i requires 0 <= i < |entries| => Sets(entries[i].key))
  }

  lemma RewriteLineShape(env: seq<Entry>, raw: string)
    requires SaneKeys(env)
    ensures Shapes(RewriteLine(env, raw)) == Filter(Stays(env), [ShapeOf(raw)])
  {
    var parsed := Parse(raw);
    FilterUniform(Stays(env), [ShapeOf(raw)]);
    if parsed.Assignment? {
      GetAll(env);
      if Get(env, parsed.key).Some? {
        GetFinds(env, parsed.key);
        ParseLine(parsed.key, Get(env, parsed.key).value);
      }
    }
  }

  lemma RewriteShapesSnoc(env: seq<Entry>, before: seq<string>, last: string)
    requires SaneKeys(env)
    ensures Shapes(Rewrite(env, before + [last]))
         == Shapes(Rewrite(env, before)) + Filter(Stays(env), [ShapeOf(last)])
  {
    RewriteSnoc(env, before, last);
    RewriteLineShape(env, last);
    ShapesConcat(Rewrite(env, before), RewriteLine(env, last));
  }

  lemma FilterShapesSnoc(env: seq<Entry>, before: seq<string>, last: string)
    ensures Filter(Stays(env), Shapes(before + [last]))
         == Filter(Stays(env), Shapes(before)) + Filter(Stays(env), [ShapeOf(last)])
  {
    assert Shapes(before + [last]) == Shapes(before) + [ShapeOf(last)];
    FilterConcat(Stays(env), Shapes(before), [ShapeOf(last)]);
  }

  lemma RewriteShapesStep(env: seq<Entry>, before: seq<string>, last: string)
    requires SaneKeys(env) && Shapes(Rewrite(env, before)) == Filter(Stays(env), Shapes(before))
    ensures Shapes(Rewrite(env, before + [last])) == Filter(Stays(env), Shapes(before + [last]))
  {
    RewriteShapesSnoc(env, before, last);
    FilterShapesSnoc(env, before, last);
  }

  lemma NoShapes(env: seq<Entry>, lines: seq<string>)
    requires lines == []
    ensures Shapes(Rewrite(env, lines)) == Filter(Stays(env), Shapes(lines))
  {
  }

  lemma {:induction false} RewriteShapes(env: seq<Entry>, lines: seq<string>)
    requires SaneKeys(env)
    ensures Shapes(Rewrite(env, lines)) == Filter(Stays(env), Shapes(lines))
  {
    if lines == [] {
      NoShapes(env, lines);
    } else {
      var before, last := lines[..|lines| - 1], lines[|lines| - 1];
      assert lines == before + [last];
      RewriteShapes(env, before);
      RewriteShapesStep(env, before, last);
    }
  }

  /** The covered keys are those the file sets. */
  lemma {:induction false} CoveredAreSet(env: seq<Entry>, lines: seq<string>, e: Entry)
    requires SaneKeys(env) && e in env
    ensures e.key in Covered(env, lines) <==> Sets(e.key) in Shapes(lines)
  {
    if lines != [] {
      var before, last := lines[..|lines| - 1], lines[|lines| - 1];
      CoveredAreSet(env, before, e);
      assert Shapes(lines) == Shapes(before) + [ShapeOf(last)];
      var i :| 0 <= i < |env| && env[i] == e;
      GetAt(env, i);
    }
  }

  lemma {:induction false} NewEntriesFilter(env: seq<Entry>, covered: set<string>, file: seq<Shape>)
    requires forall e :: e in env ==> (e.key in covered <==> Sets(e.key) in file)
    ensures NewEntries(env, covered) == Filter(IsNew(file), env)
  {
    if env != [] {
      var before, last := env[..|env| - 1], env[|env| - 1];
      NewEntriesFilter(before, covered, file);
      assert env == before + [last];
      FilterConcat(IsNew(file), before, [last]);
      FilterUniform(IsNew(file), [last]);
    }
  }

  lemma AppendedShapes(env: seq<Entry>, entries: seq<Entry>)
    requires SaneKeys(env) && forall e :: e in entries ==> e in env
    ensures Shapes(Appended(entries)) == SetsAll(entries)
  {
    AppendedFromEnv(env, entries);
  }

  /** The rewritten file line by line: the lines of the old one in their order, without the
    * assignments of dropped variables; then, if there are variables no line set, a blank, the header,
    * and those in the order of the map. */
  lemma LinesKeepOrder(header: string, file: Option<string>, env: seq<Entry>)
    requires IsComment(header) && SaneKeys(env)
    ensures var old_ := Shapes(Before(file));
            var new_ := Filter(IsNew(old_), env);
            var added := if new_ == [] then [] else [Other(""), Other(header)] + SetsAll(new_);
            Shapes(Output(header, Before(file), env)) == Filter(Stays(env), old_) + added
  {
    var lines := Before(file);
    var covered, old_ := Covered(env, lines), Shapes(lines);
    var new_ := NewEntries(env, covered);
    RewriteShapes(env, lines);
    forall e | e in env ensures e.key in covered <==> Sets(e.key) in old_ { CoveredAreSet(env, lines, e); }
    NewEntriesFilter(env, covered, old_);
    FilterMembers(IsNew(old_), env);
    AppendedShapes(env, new_);
    HeadShapes(header);
    ShapesConcat(["", header], Appended(new_));
    ShapesConcat(Rewrite(env, lines), if new_ == [] then [] else ["", header] + Appended(new_));
  }

  lemma HeadShapes(header: string)
    requires IsComment(header)
    ensures Shapes(["", header]) == [Other(""), Other(header)]
  {
    CommentKept(header);
  }
}
