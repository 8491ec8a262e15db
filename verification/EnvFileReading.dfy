/** What the `.env` reader makes of lines the wizard did not write, and which values the writer
  * leaves bare. */
module EnvFileReading {
  import opened Wrappers
  import opened EnvFile
  import opened EnvFileRoundTrip

  predicate AllSpace(s: string) {
    forall i :: 0 <= i < |s| ==> IsSpace(s[i])
  }

  lemma {:induction false} TrimStartSpaces(pad: string, s: string)
    requires AllSpace(pad)
    ensures TrimStart(pad + s) == TrimStart(s)
  {
    if pad == [] {
      assert pad + s == s;
    } else {
      assert (pad + s)[1..] == pad[1..] + s;
      TrimStartSpaces(pad[1..], s);
    }
  }

  lemma {:induction false} TrimSpacesAfter(s: string, pad: string)
    requires AllSpace(pad)
    ensures Trim(s + pad) == Trim(s)
    decreases |pad|
  {
    if pad == [] {
      assert s + pad == s;
    } else {
      var init, last := pad[..|pad| - 1], pad[|pad| - 1];
      TrimSpacesAfter(s, init);
      TrimSnoc(s + init, last);
      assert s + pad == (s + init) + [last];
    }
  }

  lemma ParseAt(raw: string, left: string, right: string)
    requires Trim(raw) == left + (['='] + right) && left != [] && left[0] != '#' && '=' !in left
    ensures Parse(raw) == Assignment(Trim(left), Trim(right))
  {
    var line := Trim(raw);
    forall i | 0 <= i < |left| ensures line[i] != '=' { assert line[i] == left[i] && left[i] in left; }
    assert line[|left|] == '=' && line[..|left|] == left && line[|left| + 1..] == right;
  }

  lemma TrimPadded(before: string, head: string, value: string)
    requires AllSpace(before) && head != [] && !IsSpace(head[0]) && !IsSpace(head[|head| - 1])
    ensures Trim(before + (head + value)) == head + TrimEnd(value)
  {
    TrimStartSpaces(before, head + value);
    assert (head + value)[0] == head[0];
    TrimEndConcat(head, value);
  }

  /** White space around the key and around the value does not matter. */
  lemma PaddedAssignment(before: string, key: string, after: string, value: string)
    requires AllSpace(before) && SaneKey(key) && AllSpace(after)
    ensures Parse(before + (key + after + ['='] + value)) == Assignment(key, Trim(value))
  {
    var left := key + after;
    TrimPadded(before, left + ['='], value);
    Gather(left, TrimEnd(value));
    NoEquals(key, after);
    ParseAt(before + (left + ['='] + value), left, TrimEnd(value));
    TrimSpacesAfter(key, after);
    TrimIsTrimmed(key);
    TrimOfTrimEnd(value);
  }

  lemma Gather(a: string, b: string)
    ensures a + ['='] + b == a + (['='] + b)
  {
  }

  lemma NoEquals(key: string, after: string)
    requires '=' !in key && AllSpace(after)
    ensures '=' !in key + after
  {
  }

  /** One pair of equal quotes of either kind is taken off; nothing else is. */
  lemma UnquoteTakesOnePair(value: string, q: char)
    ensures q == '\'' || q == '\"' ==> Unquote([q] + value + [q]) == value
    ensures (forall inner, c :: (c == '\'' || c == '\"') ==> value != [c] + inner + [c]) ==> Unquote(value) == value
  {
    var quoted := [q] + value + [q];
    assert quoted[1..|quoted| - 1] == value;
    if |value| >= 2 && value[0] == value[|value| - 1] {
      assert value == [value[0]] + value[1..|value| - 1] + [value[0]];
    }
  }

  ghost predicate SetsKey(line: string, key: string) {
    Parse(line).Assignment? && Parse(line).key == key
  }

  lemma InsertReads(env: map<string, string>, raw: string, key: string)
    ensures key in Insert(env, raw) <==> key in env || SetsKey(raw, key)
    ensures key in Insert(env, raw) ==>
              Insert(env, raw)[key] == if SetsKey(raw, key) then Unquote(Parse(raw).rawValue) else env[key]
  {
  }

  /** Line i is the last to set the key. */
  ghost predicate LastSets(lines: seq<string>, i: nat, key: string) {
    i < |lines| && SetsKey(lines[i], key) && forall j :: i < j < |lines| ==> !SetsKey(lines[j], key)
  }

  lemma LastSetsSnoc(before: seq<string>, last: string, i: nat, key: string)
    ensures LastSets(before + [last], i, key)
       <==> if SetsKey(last, key) then i == |before| else LastSets(before, i, key)
  {
    assert (before + [last])[|before|] == last;
    assert forall j :: 0 <= j < |before| ==> (before + [last])[j] == before[j];
  }

  /** A variable is read if some line sets it, and its value is that of the last such line. */
  lemma {:induction false} LastAssignmentWins(lines: seq<string>, key: string)
    ensures key in ReadLines(lines) <==> exists i: nat :: LastSets(lines, i, key)
    ensures forall i: nat :: LastSets(lines, i, key) ==>
              key in ReadLines(lines) && ReadLines(lines)[key] == Unquote(Parse(lines[i]).rawValue)
  {
    if lines != [] {
      var before, last := lines[..|lines| - 1], lines[|lines| - 1];
      assert lines == before + [last];
      LastAssignmentWins(before, key);
      InsertReads(ReadLines(before), last, key);
      forall i: nat
        ensures LastSets(lines, i, key) <==> if SetsKey(last, key) then i == |before| else LastSets(before, i, key)
      {
        LastSetsSnoc(before, last, i, key);
      }
      if SetsKey(last, key) {
        assert LastSets(lines, |before|, key);
      } else if i: nat :| LastSets(before, i, key) {
        assert LastSets(lines, i, key);
      }
    }
  }

  /** A value is written bare only if it holds nothing a shell would read in its own way. */
  lemma BareValuesArePlain(value: string)
    ensures QuoteIfNeeded(value) == value ==>
              && ' ' !in value && '\t' !in value && '#' !in value
              && '$' !in value && '\'' !in value && '`' !in value
    ensures QuoteIfNeeded(value) != value ==>
              QuoteIfNeeded(value)[0] == '\"' && QuoteIfNeeded(value)[|QuoteIfNeeded(value)| - 1] == '\"'
  {
    if NeedsQuotes(value) {
      var slashes := Replace(value, '\\', ['\\', '\\']);
      ReplaceGrows(value, '\\', ['\\', '\\']);
      ReplaceGrows(slashes, '\"', ['\\', '\"']);
      assert |QuoteIfNeeded(value)| > |value|;
    }
  }
}
