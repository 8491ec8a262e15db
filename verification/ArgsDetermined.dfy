/** What the printed argument line tells: exactly the last value and the text before it.
  * The proof follows the quotes: read from inside a string, a printed value cannot end where
  * it ends when read from outside. */
module ArgsDetermined {
  import opened Wrappers
  import opened PyRepr

  // ---- Following the quotes ----

  /** Where a scan of printed text stands: outside strings, in a string, after a backslash. */
  datatype Mode = Out | In(q: Quote) | Esc(q: Quote)

  type Quote = c: char | IsQuote(c) witness '\''

  function Step(m: Mode, c: char): Mode {
    match m
    case Out => if IsQuote(c) then In(c) else Out
    case In(q) => if c == '\\' then Esc(q) else if c == q then Out else m
    case Esc(q) => In(q)
  }

  function Scan(m: Mode, s: string): Mode
    decreases |s|
  {
    if s == [] then m else Scan(Step(m, s[0]), s[1..])
  }

  /** Outside strings the text has no equals sign and no backslash. */
  predicate Clean(m: Mode, s: string)
    decreases |s|
  {
    s != [] ==> (m == Out ==> s[0] != '=' && s[0] != '\\') && Clean(Step(m, s[0]), s[1..])
  }

  lemma {:induction false} ScanConcat(m: Mode, s: string, t: string)
    ensures Scan(m, s + t) == Scan(Scan(m, s), t)
    ensures Clean(m, s + t) <==> Clean(m, s) && Clean(Scan(m, s), t)
    decreases |s|
  {
    if s == [] {
      assert s + t == t;
    } else {
      assert (s + t)[1..] == s[1..] + t;
      ScanConcat(Step(m, s[0]), s[1..], t);
    }
  }

  /** Clean text that ends outside strings. */
  predicate Shut(s: string) {
    Clean(Out, s) && Scan(Out, s) == Out
  }

  lemma ShutConcat(s: string, t: string)
    requires Shut(s) && Shut(t)
    ensures Shut(s + t)
  {
    ScanConcat(Out, s, t);
  }

  predicate IsPlain(c: char) {
    !IsQuote(c) && c != '=' && c != '\\'
  }

  lemma {:induction false} PlainShut(s: string)
    requires forall c :: c in s ==> IsPlain(c)
    ensures Shut(s)
  {
    if s != [] {
      assert s[0] in s;
      PlainShut(s[1..]);
    }
  }

  // ---- A printed value is clean and ends outside strings ----

  lemma EscapedChar(c: char, q: Quote)
    ensures Clean(In(q), EscapeChar(c, q)) && Scan(In(q), EscapeChar(c, q)) == In(q)
  {
    var e := EscapeChar(c, q);
    assert e[1..] == if |e| == 2 then [e[1]] else [];
    if |e| == 2 { TwoSteps(In(q), e[0], e[1]); } else { OneStep(In(q), e[0]); }
  }

  lemma OneStep(m: Mode, c: char)
    ensures Scan(m, [c]) == Step(m, c) && (Clean(m, [c]) <==> m != Out || (c != '=' && c != '\\'))
  {
    assert [c][1..] == [];
  }

  lemma TwoSteps(m: Mode, c: char, d: char)
    requires m != Out && Step(m, c) != Out
    ensures Scan(m, [c, d]) == Step(Step(m, c), d) && Clean(m, [c, d])
  {
    assert [c, d][1..] == [d];
    OneStep(Step(m, c), d);
  }

  lemma {:induction false} EscapedText(s: string, q: Quote)
    ensures Clean(In(q), Escape(s, q)) && Scan(In(q), Escape(s, q)) == In(q)
  {
    if s != [] {
      EscapedChar(s[0], q);
      EscapedText(s[1..], q);
      ScanConcat(In(q), EscapeChar(s[0], q), Escape(s[1..], q));
    }
  }

  lemma StringShut(s: string)
    ensures Shut(ReprString(s))
  {
    var q: Quote := QuoteFor(s);
    var body := Escape(s, q);
    EscapedText(s, q);
    OneStep(Out, q);
    OneStep(In(q), q);
    ScanConcat(In(q), body, [q]);
    ScanConcat(Out, [q], body + [q]);
    assert [q] + (body + [q]) == ReprString(s);
  }

  lemma {:induction false} ReprShut(v: Json)
    requires Printable(v)
    ensures Shut(Repr(v))
    decreases v
  {
    match v
    case JString(s) => StringShut(s);
    case JBool(b) => PlainShut(Repr(v));
    case JNull => PlainShut(Repr(v));
    case JNumber(token) => PlainShut(token);
    case JArray(items) =>
      if items == [] {
        PlainShut("[]");
      } else {
        ItemsShut(items);
        PlainShut("[");
        ShutConcat("[", ReprItems(items));
      }
    case JObject(fields) =>
      if fields == [] {
        PlainShut("{}");
      } else {
        FieldsShut(fields);
        PlainShut("{");
        ShutConcat("{", ReprFields(fields));
      }
  }

  lemma {:induction false} ItemsShut(items: seq<Json>)
    requires items != [] && forall i :: 0 <= i < |items| ==> Printable(items[i])
    ensures Shut(ReprItems(items))
    decreases items
  {
    ReprShut(items[0]);
    PlainShut("]");
    PlainShut(", ");
    if |items| > 1 {
      ItemsShut(items[1..]);
      ShutConcat(", ", ReprItems(items[1..]));
    }
    ShutConcat(Repr(items[0]), if |items| == 1 then "]" else ", " + ReprItems(items[1..]));
  }

  lemma {:induction false} FieldsShut(fields: seq<Field>)
    requires fields != [] && forall i :: 0 <= i < |fields| ==> Printable(fields[i].value)
    ensures Shut(ReprFields(fields))
    decreases fields
  {
    var field := fields[0];
    StringShut(field.key);
    ReprShut(field.value);
    PlainShut(": ");
    PlainShut("}");
    PlainShut(", ");
    ShutConcat(": ", Repr(field.value));
    ShutConcat(ReprString(field.key), ": " + Repr(field.value));
    if |fields| > 1 {
      FieldsShut(fields[1..]);
      ShutConcat(", ", ReprFields(fields[1..]));
    }
    ShutConcat(ReprPair(field), if |fields| == 1 then "}" else ", " + ReprFields(fields[1..]));
  }

  // ---- No printed value ends with an equals sign and a printed value ----

  /** Scans of the same text that will not both end outside strings. */
  predicate Apart(m: Mode, n: Mode) {
    || (m.In? && n.Out?)
    || (m.Out? && n.In?)
    || (m.In? && n.In? && m.q != n.q)
    || (m.Esc? && n.Esc? && m.q != n.q)
  }

  lemma {:induction false} StayApart(m: Mode, n: Mode, s: string)
    requires Apart(m, n) && Clean(m, s) && Clean(n, s)
    ensures Apart(Scan(m, s), Scan(n, s))
    decreases |s|
  {
    if s != [] { StayApart(Step(m, s[0]), Step(n, s[0]), s[1..]); }
  }

  lemma NoInnerEquals(v: Json, x: string, w: Json)
    requires Printable(v) && Printable(w)
    ensures Repr(v) != x + (['='] + Repr(w))
  {
    ReprShut(v);
    ReprShut(w);
    if Repr(v) == x + (['='] + Repr(w)) {
      var m := Scan(Out, x);
      ScanConcat(Out, x, ['='] + Repr(w));
      OneStep(m, '=');
      ScanConcat(m, ['='], Repr(w));
      StayApart(Step(m, '='), Out, Repr(w));
    }
  }

  // ---- The line and its last equals sign ----

  ghost predicate PrintableArgs(args: seq<Field>) {
    forall i :: 0 <= i < |args| ==> Printable(args[i].value)
  }

  /** The arguments as they are printed before another one. */
  function Stem(args: seq<Field>): string {
    if args == [] then []
    else args[0].key + (['='] + (Repr(args[0].value) + ([',', ' '] + Stem(args[1..]))))
  }

  /** The one argument whose key is all that is printed before the last equals sign. */
  function Collapsed(args: seq<Field>): Field
    requires args != []
  {
    var last := args[|args| - 1];
    Field(Stem(args[..|args| - 1]) + last.key, last.value)
  }

  lemma {:induction false} JoinIsStem(args: seq<Field>)
    requires args != []
    ensures JoinArgs(args) == Stem(args[..|args| - 1]) + JoinArgs([args[|args| - 1]])
  {
    var n := |args| - 1;
    if n == 0 {
      assert args == [args[n]];
    } else {
      var more := args[1..];
      JoinIsStem(more);
      assert args[..n][1..] == more[..n - 1] && args[n] == more[n - 1];
      Regroup(args[0].key, Repr(args[0].value), Stem(more[..n - 1]), JoinArgs([args[n]]));
    }
  }

  lemma OneArg(arg: Field)
    ensures JoinArgs([arg]) == arg.key + (['='] + Repr(arg.value))
  {
    assert Repr(arg.value) + [] == Repr(arg.value);
  }

  /** A list prints as the one argument it collapses to. */
  lemma PrintsCollapsed(args: seq<Field>)
    requires args != []
    ensures JoinArgs(args) == Collapsed(args).key + (['='] + Repr(Collapsed(args).value))
  {
    var last := args[|args| - 1];
    JoinIsStem(args);
    OneArg(last);
    Join3(Stem(args[..|args| - 1]), last.key, ['='] + Repr(last.value));
  }

  lemma Join3(a: string, b: string, c: string)
    ensures a + (b + c) == (a + b) + c
  {
  }

  lemma InnerEquals(s: string, i: nat, j: nat)
    requires i < j < |s| && s[j] == '='
    ensures s[i + 1..] == s[i + 1..j] + (['='] + s[j + 1..])
  {
  }

  /** The key that is printed first is not the shorter one. */
  lemma NotShorter(k: string, v: Json, l: string, w: Json)
    requires Printable(v) && Printable(w) && k + (['='] + Repr(v)) == l + (['='] + Repr(w))
    ensures |k| >= |l|
  {
    var s := k + (['='] + Repr(v));
    assert s[|k| + 1..] == Repr(v);
    assert s[|l|] == '=' && s[|l| + 1..] == Repr(w);
    if |k| < |l| {
      InnerEquals(s, |k|, |l|);
      NoInnerEquals(v, s[|k| + 1..|l|], w);
    }
  }

  /** Two texts with the same last equals sign before a printed value. */
  lemma LastEquals(k: string, v: Json, l: string, w: Json)
    requires Printable(v) && Printable(w) && k + (['='] + Repr(v)) == l + (['='] + Repr(w))
    ensures k == l && v == w
  {
    var s := k + (['='] + Repr(v));
    NotShorter(k, v, l, w);
    NotShorter(l, w, k, v);
    assert s[..|k|] == k && s[..|l|] == l;
    assert s[|k| + 1..] == Repr(v) && s[|l| + 1..] == Repr(w);
    ReprInjective(v, w);
  }

  /** Two lists have the same line if and only if both are empty or they collapse to the same
    * argument. */
  lemma SameLineIff(a: seq<Field>, b: seq<Field>)
    requires PrintableArgs(a) && PrintableArgs(b)
    ensures ArgsLine(a) == ArgsLine(b)
       <==> (a == [] && b == []) || (a != [] && b != [] && Collapsed(a) == Collapsed(b))
  {
    assert '=' !in "(no args)";
    if a != [] {
      PrintsCollapsed(a);
      assert ArgsLine(a)[|Collapsed(a).key|] == '=';
    }
    if b != [] {
      PrintsCollapsed(b);
      assert ArgsLine(b)[|Collapsed(b).key|] == '=';
    }
    if a != [] && b != [] && ArgsLine(a) == ArgsLine(b) {
      LastEquals(Collapsed(a).key, Collapsed(a).value, Collapsed(b).key, Collapsed(b).value);
    }
  }

  /** The line is never blank, and has no equals sign exactly if there are no arguments. */
  lemma LineNeverBlank(a: seq<Field>)
    ensures ArgsLine(a) != [] && ('=' in ArgsLine(a) <==> a != [])
  {
    if a != [] {
      PrintsCollapsed(a);
      assert ArgsLine(a)[|Collapsed(a).key|] == '=';
    }
  }

  // ---- Which lists the line determines ----

  /** No other list has the same line. */
  ghost predicate Determined(a: seq<Field>) {
    forall b: seq<Field> :: PrintableArgs(b) && ArgsLine(b) == ArgsLine(a) ==> b == a
  }

  /** The text starts with a printed value and a comma after it. */
  predicate StartsWithValue(s: string) {
    var r := Read(s);
    && r.Some? && Printable(r.value.0) && Separated(r.value.1)
    && s == Repr(r.value.0) + r.value.1
  }

  /** Somewhere in the key an equals sign stands before a printed value and a comma. */
  predicate HoldsArgument(key: string) {
    exists i :: 0 <= i < |key| && key[i] == '=' && StartsWithValue(key[i + 1..])
  }

  lemma {:induction false} StemSnoc(args: seq<Field>, last: Field)
    ensures Stem(args + [last]) == Stem(args) + (last.key + (['='] + (Repr(last.value) + [',', ' '])))
  {
    if args == [] {
      assert args + [last] == [last];
    } else {
      assert (args + [last])[1..] == args[1..] + [last];
      StemSnoc(args[1..], last);
      Regroup(args[0].key, Repr(args[0].value), Stem(args[1..]), last.key + (['='] + (Repr(last.value) + [',', ' '])));
    }
  }

  lemma HoldsAt(key: string, front: string, v: Json, rest: string)
    requires Printable(v) && Separated(rest) && key == front + (['='] + (Repr(v) + rest))
    ensures HoldsArgument(key)
  {
    var i := |front|;
    ReadRepr(v, rest);
    assert key[i] == '=' && key[i + 1..] == Repr(v) + rest;
  }

  /** The key a longer list collapses to holds an argument. */
  lemma CollapsedHolds(b: seq<Field>)
    requires PrintableArgs(b) && |b| > 1
    ensures HoldsArgument(Collapsed(b).key)
  {
    var n := |b| - 2;
    var x, y, stem := b[n], b[n + 1], Stem(b[..n]);
    StemSnoc(b[..n], x);
    assert b[..n] + [x] == b[..n + 1];
    Rebuild(stem, x.key, Repr(x.value), y.key);
    HoldsAt(Collapsed(b).key, stem + x.key, x.value, [',', ' '] + y.key);
  }

  lemma Rebuild(stem: string, k: string, v: string, l: string)
    ensures (stem + (k + (['='] + (v + [',', ' '])))) + l == (stem + k) + (['='] + (v + ([',', ' '] + l)))
  {
  }

  lemma CollapsedTwo(x: Field, y: Field)
    ensures Collapsed([x, y]) == Merged(x, y)
  {
    assert [x, y][..1] == [] + [x];
    StemSnoc([], x);
    Rebuild([], x.key, Repr(x.value), y.key);
    assert [] + x.key == x.key;
  }

  /** The argument a key holds, and what follows it. */
  lemma Held(key: string) returns (arg: Field, rest: string)
    requires HoldsArgument(key)
    ensures Printable(arg.value) && key == arg.key + (['='] + (Repr(arg.value) + ([',', ' '] + rest)))
  {
    var i :| 0 <= i < |key| && key[i] == '=' && StartsWithValue(key[i + 1..]);
    var v;
    v, rest := ValueFirst(key[i + 1..]);
    arg := Field(key[..i], v);
    CutAt(key, i);
  }

  lemma CutAt(s: string, i: nat)
    requires i < |s|
    ensures s == s[..i] + ([s[i]] + s[i + 1..])
  {
  }

  lemma ValueFirst(s: string) returns (v: Json, rest: string)
    requires StartsWithValue(s)
    ensures Printable(v) && s == Repr(v) + ([',', ' '] + rest)
  {
    var after := Read(s).value.1;
    v, rest := Read(s).value.0, after[2..];
    CommaFirst(after);
  }

  lemma CommaFirst(rest: string)
    requires Separated(rest)
    ensures rest == [',', ' '] + rest[2..]
  {
  }

  /** A key that holds an argument is what a list of two collapses to. */
  lemma HoldsTwo(key: string, value: Json) returns (b: seq<Field>)
    requires HoldsArgument(key) && Printable(value)
    ensures |b| == 2 && PrintableArgs(b) && Collapsed(b) == Field(key, value)
  {
    var x, rest := Held(key);
    var y := Field(rest, value);
    b := [x, y];
    CollapsedTwo(x, y);
  }

  /** A lone argument is what it collapses to. */
  lemma CollapsedOne(arg: Field)
    ensures Collapsed([arg]) == arg
  {
    assert [] + arg.key == arg.key;
  }

  /** A longer list shares its line with the one argument it collapses to. */
  lemma LongerNotDetermined(a: seq<Field>)
    requires PrintableArgs(a) && |a| > 1
    ensures PrintableArgs([Collapsed(a)]) && ArgsLine([Collapsed(a)]) == ArgsLine(a) && !Determined(a)
  {
    var b := [Collapsed(a)];
    CollapsedOne(b[0]);
    SameLineIff(a, b);
    assert |b| != |a|;
  }

  lemma HoldingNotDetermined(arg: Field)
    requires Printable(arg.value) && HoldsArgument(arg.key)
    ensures !Determined([arg])
  {
    var b := HoldsTwo(arg.key, arg.value);
    CollapsedOne(arg);
    SameLineIff([arg], b);
    assert |b| != |[arg]|;
  }

  lemma LoneDetermined(arg: Field, b: seq<Field>)
    requires Printable(arg.value) && !HoldsArgument(arg.key)
    requires PrintableArgs(b) && ArgsLine(b) == ArgsLine([arg])
    ensures b == [arg]
  {
    CollapsedOne(arg);
    SameLineIff([arg], b);
    if |b| > 1 { CollapsedHolds(b); }
    assert b == [b[0]];
    CollapsedOne(b[0]);
  }

  /** The line determines a list among all printable lists if and only if it is empty, or one
    * argument whose key does not itself hold a printed argument. */
  lemma DeterminedIff(a: seq<Field>)
    requires PrintableArgs(a)
    ensures Determined(a) <==> a == [] || (|a| == 1 && !HoldsArgument(a[0].key))
  {
    if |a| > 1 {
      LongerNotDetermined(a);
    } else if a == [] {
      forall b: seq<Field> | PrintableArgs(b) && ArgsLine(b) == ArgsLine(a) ensures b == a { SameLineIff(a, b); }
    } else {
      var arg := a[0];
      assert a == [arg];
      if HoldsArgument(arg.key) {
        HoldingNotDetermined(arg);
      } else {
        forall b: seq<Field> | PrintableArgs(b) && ArgsLine(b) == ArgsLine([arg]) ensures b == [arg] {
          LoneDetermined(arg, b);
        }
      }
    }
  }

  /** So a lone argument whose key has no equals sign is determined, even among all lists. */
  lemma LoneArgDetermined(a: seq<Field>)
    requires PrintableArgs(a) && |a| <= 1 && forall i :: 0 <= i < |a| ==> '=' !in a[i].key
    ensures Determined(a)
  {
    DeterminedIff(a);
  }
}
