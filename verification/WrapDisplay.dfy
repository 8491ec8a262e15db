/** What a terminal shows of wrapped lines: every word in its own style, the spaces in none. */
module WrapDisplay {
  import opened WordWrap
  import opened Seqs

  /** A character as it is shown, with the codes of its style; none is plain. */
  datatype Cell = Cell(c: char, codes: string)

  const ESC: char := '\U{1B}'

  /** Where the text first has the letter that ends a style sequence. */
  function IndexOfEnd(s: string): (n: nat)
    ensures n <= |s| && (forall i :: 0 <= i < n ==> s[i] != 'm') && (n < |s| ==> s[n] == 'm')
  {
    if s == [] || s[0] == 'm' then 0 else 1 + IndexOfEnd(s[1..])
  }

  /** A terminal in the style `codes`: a style sequence sets the style, the one with code 0 takes it
    * off, and every other character is shown in it. */
  function Shown(s: string, codes: string): seq<Cell>
    decreases |s|
  {
    if s == [] then []
    else if s[0] == ESC then
      var n := IndexOfEnd(s);
      if n == |s| || n < 2 then [] else Shown(s[n + 1..], if s[2..n] == "0" then "" else s[2..n])
    else [Cell(s[0], codes)] + Shown(s[1..], codes)
  }

  function Cells(text: string, codes: string): (r: seq<Cell>)
    ensures |r| == |text|
  {
    seq(|text|, i requires 0 <= i < |text| => Cell(text[i], codes))
  }

  lemma {:induction false} PlainShown(text: string, codes: string, rest: string)
    requires ESC !in text
    ensures Shown(text + rest, codes) == Cells(text, codes) + Shown(rest, codes)
  {
    if text == [] {
      assert text + rest == rest;
    } else {
      assert text[0] in text;
      assert (text + rest)[1..] == text[1..] + rest;
      PlainShown(text[1..], codes, rest);
      assert Cells(text, codes) == [Cell(text[0], codes)] + Cells(text[1..], codes);
      Regroup([Cell(text[0], codes)], Cells(text[1..], codes), Shown(rest, codes));
    }
  }

  lemma {:induction false} EndAfter(front: string, rest: string)
    requires 'm' !in front
    ensures IndexOfEnd(front + (['m'] + rest)) == |front|
  {
    if front == [] {
      assert front + (['m'] + rest) == ['m'] + rest;
    } else {
      assert front[0] in front;
      assert (front + (['m'] + rest))[1..] == front[1..] + (['m'] + rest);
      EndAfter(front[1..], rest);
    }
  }

  /** A style sequence sets the style. */
  lemma StyleShown(set_: string, codes: string, rest: string)
    requires 'm' !in set_
    ensures Shown([ESC, '['] + set_ + (['m'] + rest), codes) == Shown(rest, if set_ == "0" then "" else set_)
  {
    var front := [ESC, '['] + set_;
    var s := front + (['m'] + rest);
    EndAfter(front, rest);
    assert s[0] == ESC && s[2..|front|] == set_ && s[|front| + 1..] == rest;
  }

  /** Codes that set a style, and words a terminal shows as they are. */
  ghost predicate Plain(word: Tok) {
    'm' !in word.sgr && word.sgr != "0" && ESC !in word.text
  }

  /** A styled word is shown in its style, and the terminal is left in none. */
  lemma SgrShown(word: Tok, rest: string)
    requires Plain(word)
    ensures Shown(Sgr(word.sgr, word.text) + rest, "") == Cells(word.text, word.sgr) + Shown(rest, "")
  {
    if word.sgr == [] {
      PlainShown(word.text, "", rest);
    } else {
      var reset := [ESC, '['] + "0" + (['m'] + rest);
      StyledShape(word.sgr, word.text, rest);
      StyleShown(word.sgr, "", word.text + reset);
      PlainShown(word.text, word.sgr, reset);
      StyleShown("0", word.sgr, rest);
    }
  }

  lemma StyledShape(codes: string, text: string, rest: string)
    requires codes != []
    ensures Sgr(codes, text) + rest == [ESC, '['] + codes + (['m'] + (text + ([ESC, '['] + "0" + (['m'] + rest))))
  {
    assert Sgr(codes, text) == [ESC, '['] + codes + "m" + text + ([ESC, '['] + "0" + "m");
  }

  /** The cells of a line: its words in their styles, and a plain space before each that something
    * visible precedes. */
  function LineCells(width: Measure, line: seq<Tok>): seq<Cell> {
    if line == [] then []
    else
      var before, last := line[..|line| - 1], line[|line| - 1];
      LineCells(width, before)
      + ((if exists i :: 0 <= i < |before| && width(before[i].text) > 0 then [Cell(' ', "")] else [])
         + Cells(last.text, last.sgr))
  }

  ghost predicate AllPlain(line: seq<Tok>) {
    forall i :: 0 <= i < |line| ==> Plain(line[i])
  }

  /** A wrapped line shows exactly its words in their styles, and leaves no style behind. */
  lemma {:induction false} LineShown(width: Measure, line: seq<Tok>, rest: string)
    requires AllPlain(line)
    ensures Shown(Render(width, line) + rest, "") == LineCells(width, line) + Shown(rest, "")
  {
    if line == [] {
      assert Render(width, line) + rest == rest;
    } else {
      var before, last := line[..|line| - 1], line[|line| - 1];
      var space: string := if LineWidth(width, before) > 0 then [' '] else [];
      var word := Sgr(last.sgr, last.text);
      WideIffVisible(width, before);
      Apart(Render(width, before), space, word, rest);
      LineShown(width, before, space + (word + rest));
      PlainShown(space, "", word + rest);
      SgrShown(last, rest);
      assert Cells(space, "") == if LineWidth(width, before) > 0 then [Cell(' ', "")] else [];
      Apart(LineCells(width, before), Cells(space, ""), Cells(last.text, last.sgr), Shown(rest, ""));
      Regroup(LineCells(width, before), Cells(space, ""), Cells(last.text, last.sgr));
    }
  }

  lemma Apart<T>(a: seq<T>, b: seq<T>, c: seq<T>, d: seq<T>)
    ensures (a + b + c) + d == a + (b + (c + d))
  {
  }
}
