/** The REPL's greedy word wrap of styled runs: its loops build the greedy lines, and no other
  * way to break the words, at the same width, needs fewer. */
module WordWrap {
  import opened Seqs

  /** A run of text in one style, and one of its words. */
  datatype Tok = Tok(text: string, sgr: string)

  /** The display width of a word. */
  type Measure = string -> nat

  function Sgr(codes: string, text: string): string {
    if codes == [] then text else "\U{1B}[" + codes + "m" + text + "\U{1B}[0m"
  }

  // ---- Words ----

  /** Split at single spaces. */
  function Split(text: string): (r: seq<string>)
    ensures r != []
  {
    if text == [] then [[]]
    else
      var rest := Split(text[1..]);
      if text[0] == ' ' then [[]] + rest else [[text[0]] + rest[0]] + rest[1..]
  }

  /** The pieces that are not empty, in their style. */
  function Pieces(pieces: seq<string>, sgr: string): seq<Tok> {
    if pieces == [] then []
    else
      var last := pieces[|pieces| - 1];
      Pieces(pieces[..|pieces| - 1], sgr) + if last == [] then [] else [Tok(last, sgr)]
  }

  function Words(toks: seq<Tok>): seq<Tok> {
    if toks == [] then []
    else Words(toks[..|toks| - 1]) + Pieces(Split(toks[|toks| - 1].text), toks[|toks| - 1].sgr)
  }

  // ---- Lines ----

  function LineWidth(width: Measure, line: seq<Tok>): nat {
    if line == [] then 0
    else
      var before := LineWidth(width, line[..|line| - 1]);
      before + (if before > 0 then 1 else 0) + width(line[|line| - 1].text)
  }

  /** The text of a line: a space before each word that something visible precedes. */
  function Render(width: Measure, line: seq<Tok>): string {
    if line == [] then []
    else
      var before, last := line[..|line| - 1], line[|line| - 1];
      Render(width, before) + (if LineWidth(width, before) > 0 then [' '] else []) + Sgr(last.sgr, last.text)
  }

  function RenderAll(width: Measure, lines: seq<seq<Tok>>): (r: seq<string>)
    ensures |r| == |lines| && forall i :: 0 <= i < |r| ==> r[i] == Render(width, lines[i])
  {
    seq(|lines|, i requires 0 <= i < |lines| => Render(width, lines[i]))
  }

  /** The word goes on a new line. */
  predicate Breaks(width: Measure, limit: nat, line: seq<Tok>, word: Tok) {
    var w := LineWidth(width, line);
    w > 0 && w + 1 + width(word.text) > limit
  }

  function Place(width: Measure, limit: nat, lines: seq<seq<Tok>>, word: Tok): seq<seq<Tok>> {
    if lines == [] || Breaks(width, limit, lines[|lines| - 1], word) then lines + [[word]]
    else lines[..|lines| - 1] + [lines[|lines| - 1] + [word]]
  }

  /** The greedy lines. */
  function Greedy(width: Measure, limit: nat, words: seq<Tok>): seq<seq<Tok>> {
    if words == [] then []
    else Place(width, limit, Greedy(width, limit, words[..|words| - 1]), words[|words| - 1])
  }

  /** The loop's variables: the closed lines, and the open one with its width. */
  ghost predicate Tracks(width: Measure, closed: seq<seq<Tok>>, open: seq<Tok>, lines: seq<string>, cur: string,
                         curW: nat)
  {
    lines == RenderAll(width, closed) && cur == Render(width, open) && curW == LineWidth(width, open)
  }

  /** The lines if the open one is closed; it is never empty once there is a word. */
  function Close(closed: seq<seq<Tok>>, open: seq<Tok>): seq<seq<Tok>> {
    if open == [] then [] else closed + [open]
  }

  lemma PlaceInClose(width: Measure, limit: nat, closed: seq<seq<Tok>>, open: seq<Tok>, word: Tok)
    requires open == [] ==> closed == []
    ensures Place(width, limit, Close(closed, open), word)
         == if Breaks(width, limit, open, word) then Close(closed + [open], [word]) else Close(closed, open + [word])
  {
    var all := closed + [open];
    assert all[..|all| - 1] == closed && all[|all| - 1] == open;
    if open == [] { assert [] + [word] == [word]; }
  }

  lemma LineSnoc(width: Measure, line: seq<Tok>, word: Tok)
    ensures var w := LineWidth(width, line);
            && LineWidth(width, line + [word]) == w + (if w > 0 then 1 else 0) + width(word.text)
            && Render(width, line + [word])
            == Render(width, line) + (if w > 0 then [' '] else []) + Sgr(word.sgr, word.text)
  {
    assert (line + [word])[..|line|] == line;
  }

  lemma OneWord(width: Measure, word: Tok)
    ensures LineWidth(width, [word]) == width(word.text) && Render(width, [word]) == Sgr(word.sgr, word.text)
  {
    LineSnoc(width, [], word);
    assert [] + [word] == [word];
    assert [] + [] + Sgr(word.sgr, word.text) == Sgr(word.sgr, word.text);
  }

  lemma CloseOne(width: Measure, closed: seq<seq<Tok>>, open: seq<Tok>)
    ensures RenderAll(width, closed + [open]) == RenderAll(width, closed) + [Render(width, open)]
  {
    MapSnoc(RenderAll(width, closed + [open]), RenderAll(width, closed), Render(width, open));
  }

  /** One word, as the inner loop of wrap_toks handles it. */
  method PlaceWord(width: Measure, limit: nat, word: Tok, lines: seq<string>, cur: string, curW: nat,
                   ghost closed: seq<seq<Tok>>, ghost open: seq<Tok>)
    returns (lines': seq<string>, cur': string, curW': nat, ghost closed': seq<seq<Tok>>, ghost open': seq<Tok>)
    requires Tracks(width, closed, open, lines, cur, curW) && (open == [] ==> closed == [])
    ensures Tracks(width, closed', open', lines', cur', curW') && open' != []
    ensures Close(closed', open') == Place(width, limit, Close(closed, open), word)
  {
    PlaceInClose(width, limit, closed, open, word);
    lines', cur', curW', closed', open' := lines, cur, curW, closed, open + [word];
    var ww := width(word.text);
    var sep := if curW > 0 then 1 else 0;
    if curW > 0 && curW + sep + ww > limit {
      CloseOne(width, closed, open);
      OneWord(width, word);
      lines' := lines' + [cur'];
      cur', curW' := "", 0;
      closed', open' := closed + [open], [word];
    } else {
      LineSnoc(width, open, word);
    }
    if curW' > 0 {
      cur' := cur' + [' '];
      curW' := curW' + 1;
    }
    cur' := cur' + Sgr(word.sgr, word.text);
    curW' := curW' + ww;
    assert [] + Sgr(word.sgr, word.text) == Sgr(word.sgr, word.text);
    assert cur + [] == cur;
  }

  /** The inner loop of wrap_toks, over one run of text. */
  method WrapTok(width: Measure, limit: nat, tok: Tok, lines: seq<string>, cur: string, curW: nat,
                 ghost before: seq<Tok>, ghost closed: seq<seq<Tok>>, ghost open: seq<Tok>)
    returns (lines': seq<string>, cur': string, curW': nat, ghost closed': seq<seq<Tok>>, ghost open': seq<Tok>)
    requires Close(closed, open) == Greedy(width, limit, before) && (open == [] ==> closed == [])
    requires Tracks(width, closed, open, lines, cur, curW)
    ensures Close(closed', open') == Greedy(width, limit, before + Pieces(Split(tok.text), tok.sgr))
    ensures (open' == [] ==> closed' == []) && Tracks(width, closed', open', lines', cur', curW')
  {
    lines', cur', curW', closed', open' := lines, cur, curW, closed, open;
    var pieces := Split(tok.text);
    NoPieces(before, pieces, tok.sgr);
    for j := 0 to |pieces|
      invariant Close(closed', open') == Greedy(width, limit, before + Pieces(pieces[..j], tok.sgr))
      invariant (open' == [] ==> closed' == []) && Tracks(width, closed', open', lines', cur', curW')
    {
      NextWord(width, limit, before, pieces, j, tok.sgr);
      if pieces[j] != [] {
        lines', cur', curW', closed', open' :=
          PlaceWord(width, limit, Tok(pieces[j], tok.sgr), lines', cur', curW', closed', open');
      }
    }
    assert pieces[..|pieces|] == pieces;
  }

  /** wrap_toks. */
  method WrapToks(toks: seq<Tok>, limit: nat, width: Measure) returns (lines: seq<string>)
    ensures var all := Greedy(width, limit, Words(toks));
            lines == if all == [] then [""] else RenderAll(width, all)
  {
    lines := [];
    var cur: string, curW: nat := "", 0;
    ghost var closed: seq<seq<Tok>>, open: seq<Tok> := [], [];
    for i := 0 to |toks|
      invariant Close(closed, open) == Greedy(width, limit, Words(toks[..i])) && (open == [] ==> closed == [])
      invariant Tracks(width, closed, open, lines, cur, curW)
    {
      WordsSnoc(toks, i);
      lines, cur, curW, closed, open :=
        WrapTok(width, limit, toks[i], lines, cur, curW, Words(toks[..i]), closed, open);
    }
    assert toks[..|toks|] == toks;
    Finished(width, limit, toks, closed, open, lines, cur, curW);
    if cur != [] { lines := lines + [cur]; }
    if lines == [] { lines := lines + [""]; }
  }

  /** The open line is shown exactly when there is one. */
  lemma Finished(width: Measure, limit: nat, toks: seq<Tok>, closed: seq<seq<Tok>>, open: seq<Tok>,
                 lines: seq<string>, cur: string, curW: nat)
    requires Close(closed, open) == Greedy(width, limit, Words(toks)) && (open == [] ==> closed == [])
    requires Tracks(width, closed, open, lines, cur, curW)
    ensures var all := Greedy(width, limit, Words(toks));
            if all == [] then lines == [] && cur == [] else cur != [] && lines + [cur] == RenderAll(width, all)
  {
    LastIsVisible(width, limit, toks);
    CloseOne(width, closed, open);
    if open != [] { assert (closed + [open])[|closed|] == open; }
  }

  lemma NoPieces(before: seq<Tok>, pieces: seq<string>, sgr: string)
    ensures before + Pieces(pieces[..0], sgr) == before
  {
  }

  /** One more piece: no word if it is empty, and one placed word if not. */
  lemma NextWord(width: Measure, limit: nat, before: seq<Tok>, pieces: seq<string>, j: nat, sgr: string)
    requires j < |pieces|
    ensures Greedy(width, limit, before + Pieces(pieces[..j + 1], sgr))
         == var all := Greedy(width, limit, before + Pieces(pieces[..j], sgr));
            if pieces[j] == [] then all else Place(width, limit, all, Tok(pieces[j], sgr))
  {
    var done := before + Pieces(pieces[..j], sgr);
    PiecesSnoc(before, pieces, j, sgr);
    if pieces[j] == [] {
      assert done + [] == done;
    } else {
      GreedySnoc(width, limit, done, Tok(pieces[j], sgr));
    }
  }

  lemma PiecesSnoc(before: seq<Tok>, pieces: seq<string>, j: nat, sgr: string)
    requires j < |pieces|
    ensures before + Pieces(pieces[..j + 1], sgr)
         == before + Pieces(pieces[..j], sgr) + if pieces[j] == [] then [] else [Tok(pieces[j], sgr)]
  {
    assert pieces[..j + 1][..j] == pieces[..j];
  }

  lemma WordsSnoc(toks: seq<Tok>, i: nat)
    requires i < |toks|
    ensures Words(toks[..i + 1]) == Words(toks[..i]) + Pieces(Split(toks[i].text), toks[i].sgr)
  {
    assert toks[..i + 1][..i] == toks[..i];
  }

  lemma GreedySnoc(width: Measure, limit: nat, words: seq<Tok>, word: Tok)
    ensures Greedy(width, limit, words + [word]) == Place(width, limit, Greedy(width, limit, words), word)
  {
    assert (words + [word])[..|words|] == words;
  }

  ghost predicate NonEmpty(words: seq<Tok>) {
    forall i :: 0 <= i < |words| ==> words[i].text != []
  }

  lemma {:induction false} PiecesNonEmpty(pieces: seq<string>, sgr: string)
    ensures NonEmpty(Pieces(pieces, sgr))
  {
    if pieces != [] { PiecesNonEmpty(pieces[..|pieces| - 1], sgr); }
  }

  lemma {:induction false} WordsNonEmpty(toks: seq<Tok>)
    ensures NonEmpty(Words(toks))
  {
    if toks != [] {
      WordsNonEmpty(toks[..|toks| - 1]);
      PiecesNonEmpty(Split(toks[|toks| - 1].text), toks[|toks| - 1].sgr);
    }
  }

  /** The open line shows something. */
  lemma LastIsVisible(width: Measure, limit: nat, toks: seq<Tok>)
    ensures var all := Greedy(width, limit, Words(toks));
            all != [] ==> Render(width, all[|all| - 1]) != []
  {
    var words := Words(toks);
    WordsNonEmpty(toks);
    if words != [] {
      var all := Greedy(width, limit, words);
      var last := all[|all| - 1];
      assert last[|last| - 1] == words[|words| - 1];
    }
  }

  // ---- All words, in order ----

  function Flatten(lines: seq<seq<Tok>>): seq<Tok> {
    if lines == [] then [] else Flatten(lines[..|lines| - 1]) + lines[|lines| - 1]
  }

  lemma FlattenSnoc(lines: seq<seq<Tok>>, line: seq<Tok>)
    ensures Flatten(lines + [line]) == Flatten(lines) + line
  {
    assert (lines + [line])[..|lines|] == lines;
  }

  lemma PlaceKeeps(width: Measure, limit: nat, all: seq<seq<Tok>>, word: Tok)
    ensures Flatten(Place(width, limit, all, word)) == Flatten(all) + [word]
  {
    if all == [] || Breaks(width, limit, all[|all| - 1], word) {
      FlattenSnoc(all, [word]);
    } else {
      var init, cur := all[..|all| - 1], all[|all| - 1];
      FlattenSnoc(init, cur + [word]);
      assert Flatten(init) + (cur + [word]) == Flatten(init) + cur + [word];
    }
  }

  /** The greedy lines hold every word once, in order. */
  lemma {:induction false} KeepsWords(width: Measure, limit: nat, words: seq<Tok>)
    ensures Flatten(Greedy(width, limit, words)) == words
  {
    if words != [] {
      var before, word := words[..|words| - 1], words[|words| - 1];
      KeepsWords(width, limit, before);
      PlaceKeeps(width, limit, Greedy(width, limit, before), word);
      assert words == before + [word];
    }
  }

  // ---- Lines fit ----

  /** The line fits, or nothing visible precedes its last word. */
  ghost predicate Acceptable(width: Measure, limit: nat, line: seq<Tok>) {
    line != [] && (LineWidth(width, line) <= limit || LineWidth(width, line[..|line| - 1]) == 0)
  }

  /** A way to break the words into acceptable lines. */
  ghost predicate Splits(width: Measure, limit: nat, lines: seq<seq<Tok>>, words: seq<Tok>) {
    Flatten(lines) == words && forall i :: 0 <= i < |lines| ==> Acceptable(width, limit, lines[i])
  }

  lemma PlaceAcceptable(width: Measure, limit: nat, line: seq<Tok>, word: Tok)
    ensures Acceptable(width, limit, [word])
    ensures !Breaks(width, limit, line, word) ==> Acceptable(width, limit, line + [word])
  {
    assert [word][..0] == [];
    LineSnoc(width, line, word);
    assert (line + [word])[..|line|] == line;
  }

  /** The greedy lines are such a way. */
  lemma {:induction false} GreedySplits(width: Measure, limit: nat, words: seq<Tok>)
    ensures Splits(width, limit, Greedy(width, limit, words), words)
  {
    KeepsWords(width, limit, words);
    if words != [] {
      var all, word := Greedy(width, limit, words[..|words| - 1]), words[|words| - 1];
      GreedySplits(width, limit, words[..|words| - 1]);
      PlaceAcceptable(width, limit, if all == [] then [] else all[|all| - 1], word);
    }
  }

  // ---- No other way needs fewer ----

  /** Dropping words at the front does not widen a line. */
  lemma {:induction false} SuffixNarrower(width: Measure, front: seq<Tok>, line: seq<Tok>)
    ensures LineWidth(width, line) <= LineWidth(width, front + line)
    decreases |line|
  {
    if line != [] {
      SuffixNarrower(width, front, line[..|line| - 1]);
      assert (front + line)[..|front + line| - 1] == front + line[..|line| - 1];
    }
  }

  /** If some acceptable line ends with `line` and `word`, greedy does not break between. */
  lemma NoBreak(width: Measure, limit: nat, front: seq<Tok>, line: seq<Tok>, word: Tok)
    requires Acceptable(width, limit, front + line + [word])
    ensures !Breaks(width, limit, line, word)
  {
    var whole := front + line + [word];
    assert whole[..|whole| - 1] == front + line;
    SuffixNarrower(width, front, line);
    assert LineWidth(width, whole) == LineWidth(width, front + line)
        + (if LineWidth(width, front + line) > 0 then 1 else 0) + width(word.text);
  }

  /** Greedy stays ahead: at most as many lines as any other way, and with as many, at most as
    * many words on the last. */
  ghost predicate Ahead(mine: seq<seq<Tok>>, other: seq<seq<Tok>>) {
    && |mine| <= |other|
    && (|mine| == |other| && mine != [] ==> |mine[|mine| - 1]| <= |other[|other| - 1]|)
  }

  /** The other way without its last word. */
  function DropWord(other: seq<seq<Tok>>): seq<seq<Tok>>
    requires other != [] && other[|other| - 1] != []
  {
    var last := other[|other| - 1];
    if |last| == 1 then other[..|other| - 1] else other[..|other| - 1] + [last[..|last| - 1]]
  }

  lemma DropWordSplits(width: Measure, limit: nat, other: seq<seq<Tok>>, words: seq<Tok>)
    requires words != [] && Splits(width, limit, other, words)
    ensures other != [] && other[|other| - 1] != []
    ensures Splits(width, limit, DropWord(other), words[..|words| - 1])
    ensures other[|other| - 1][|other[|other| - 1]| - 1] == words[|words| - 1]
  {
    var last := other[|other| - 1];
    var init, short := other[..|other| - 1], last[..|last| - 1];
    assert Acceptable(width, limit, last);
    assert words == Flatten(init) + last;
    assert words[..|words| - 1] == Flatten(init) + short;
    if |last| > 1 { FlattenSnoc(init, short); }
  }

  lemma AheadStep(width: Measure, limit: nat, mine: seq<seq<Tok>>, other: seq<seq<Tok>>, word: Tok)
    requires other != [] && other[|other| - 1] != [] && Ahead(mine, DropWord(other))
    requires mine != [] && |mine| == |other| && |mine[|mine| - 1]| < |other[|other| - 1]| ==>
               !Breaks(width, limit, mine[|mine| - 1], word)
    ensures Ahead(Place(width, limit, mine, word), other)
  {
  }

  lemma {:induction false} StaysAhead(width: Measure, limit: nat, words: seq<Tok>, other: seq<seq<Tok>>)
    requires Splits(width, limit, other, words)
    ensures Ahead(Greedy(width, limit, words), other)
    decreases |words|
  {
    if words != [] {
      var before, word := words[..|words| - 1], words[|words| - 1];
      DropWordSplits(width, limit, other, words);
      StaysAhead(width, limit, before, DropWord(other));
      var mine := Greedy(width, limit, before);
      if mine != [] && |mine| == |other| && |mine[|mine| - 1]| < |other[|other| - 1]| {
        KeepsWords(width, limit, before);
        assert words == before + [word];
        LastLineFits(width, limit, mine, other, before, word);
      }
      AheadStep(width, limit, mine, other, word);
    }
  }

  /** With as many lines as the other way has for the words and one more, greedy has room. */
  lemma LastLineFits(width: Measure, limit: nat, mine: seq<seq<Tok>>, other: seq<seq<Tok>>, before: seq<Tok>, word: Tok)
    requires mine != [] && Flatten(mine) == before && Splits(width, limit, other, before + [word])
    requires other != [] && |other[|other| - 1]| > |mine[|mine| - 1]|
    ensures !Breaks(width, limit, mine[|mine| - 1], word)
  {
    var cur, last := mine[|mine| - 1], other[|other| - 1];
    var all := before + [word];
    assert Acceptable(width, limit, last);
    assert all == Flatten(other[..|other| - 1]) + last;
    assert before == Flatten(mine[..|mine| - 1]) + cur;
    var front := last[..|last| - 1 - |cur|];
    assert last == all[|all| - |last|..];
    assert cur == before[|before| - |cur|..];
    assert front + cur + [word] == last;
    NoBreak(width, limit, front, cur, word);
  }

  /** No way to break the words into acceptable lines needs fewer lines. */
  lemma GreedyIsOptimal(width: Measure, limit: nat, words: seq<Tok>, other: seq<seq<Tok>>)
    requires Splits(width, limit, other, words)
    ensures |Greedy(width, limit, words)| <= |other|
  {
    StaysAhead(width, limit, words, other);
  }

  // ---- Words one can see ----

  ghost predicate Visible(width: Measure, words: seq<Tok>) {
    forall i :: 0 <= i < |words| ==> width(words[i].text) >= 1
  }

  function Spaced(line: seq<Tok>): string {
    if line == [] then []
    else if |line| == 1 then Sgr(line[0].sgr, line[0].text)
    else Spaced(line[..|line| - 1]) + [' '] + Sgr(line[|line| - 1].sgr, line[|line| - 1].text)
  }

  function Total(width: Measure, line: seq<Tok>): nat {
    if line == [] then 0 else Total(width, line[..|line| - 1]) + width(line[|line| - 1].text)
  }

  /** A line of visible words shows them with one space between, and is as wide as that. */
  lemma {:induction false} VisibleLine(width: Measure, line: seq<Tok>)
    requires Visible(width, line)
    ensures Render(width, line) == Spaced(line)
    ensures LineWidth(width, line) == Total(width, line) + if line == [] then 0 else |line| - 1
  {
    if line != [] {
      VisibleLine(width, line[..|line| - 1]);
      if |line| == 1 { assert line[..0] == []; }
    }
  }

  lemma {:induction false} LineWithin(lines: seq<seq<Tok>>, i: nat)
    requires i < |lines|
    ensures forall w :: w in lines[i] ==> w in Flatten(lines)
  {
    if i < |lines| - 1 { LineWithin(lines[..|lines| - 1], i); }
  }

  lemma LineVisible(width: Measure, lines: seq<seq<Tok>>, i: nat)
    requires i < |lines| && Visible(width, Flatten(lines))
    ensures Visible(width, lines[i])
  {
    LineWithin(lines, i);
    forall k | 0 <= k < |lines[i]| ensures width(lines[i][k].text) >= 1 { assert lines[i][k] in Flatten(lines); }
  }

  /** The words with one space between fit the limit, or are only one. */
  predicate Fits(width: Measure, limit: nat, line: seq<Tok>) {
    line != [] && (Total(width, line) + |line| - 1 <= limit || |line| == 1)
  }

  /** For visible words that is what makes a line acceptable. */
  lemma AcceptableIffFits(width: Measure, limit: nat, line: seq<Tok>)
    requires Visible(width, line)
    ensures Acceptable(width, limit, line) <==> Fits(width, limit, line)
  {
    if line != [] {
      VisibleLine(width, line);
      VisibleLine(width, line[..|line| - 1]);
    }
  }

  /** With visible words only a line of one over-long word exceeds the limit. */
  lemma VisibleLinesFit(width: Measure, limit: nat, words: seq<Tok>, i: nat)
    requires Visible(width, words) && i < |Greedy(width, limit, words)|
    ensures var line := Greedy(width, limit, words)[i];
            Render(width, line) == Spaced(line) && Fits(width, limit, line)
  {
    var all := Greedy(width, limit, words);
    GreedySplits(width, limit, words);
    LineVisible(width, all, i);
    AcceptableIffFits(width, limit, all[i]);
    VisibleLine(width, all[i]);
  }

  /** With visible words, greedy breaks them into lines that fit, and no other way to do so
    * has fewer. */
  lemma VisibleOptimal(width: Measure, limit: nat, words: seq<Tok>, other: seq<seq<Tok>>)
    requires Visible(width, words) && Flatten(other) == words
    requires forall i :: 0 <= i < |other| ==> Fits(width, limit, other[i])
    ensures |Greedy(width, limit, words)| <= |other|
    ensures Flatten(Greedy(width, limit, words)) == words
    ensures forall i :: 0 <= i < |Greedy(width, limit, words)| ==> Fits(width, limit, Greedy(width, limit, words)[i])
  {
    forall i | 0 <= i < |other| ensures Acceptable(width, limit, other[i]) {
      LineVisible(width, other, i);
      AcceptableIffFits(width, limit, other[i]);
    }
    GreedyIsOptimal(width, limit, words, other);
    KeepsWords(width, limit, words);
    forall i | 0 <= i < |Greedy(width, limit, words)| ensures Fits(width, limit, Greedy(width, limit, words)[i]) {
      VisibleLinesFit(width, limit, words, i);
    }
  }

  /** A line has a width if and only if some word of it has. */
  lemma {:induction false} WideIffVisible(width: Measure, line: seq<Tok>)
    ensures LineWidth(width, line) > 0 <==> exists i :: 0 <= i < |line| && width(line[i].text) > 0
  {
    if line != [] {
      var before := line[..|line| - 1];
      WideIffVisible(width, before);
      if LineWidth(width, before) > 0 {
        var i :| 0 <= i < |before| && width(before[i].text) > 0;
        assert line[i] == before[i];
      }
      if i :| 0 <= i < |line| && width(line[i].text) > 0 {
        assert i < |before| ==> before[i] == line[i];
      }
    }
  }

  lemma {:induction false} RenderLength(width: Measure, line: seq<Tok>)
    ensures |Render(width, line)| <= |Spaced(line)|
    ensures |line| > 1 && width(line[0].text) == 0 ==> |Render(width, line)| < |Spaced(line)|
    ensures line != [] && width(line[0].text) > 0 ==> Render(width, line) == Spaced(line)
  {
    if line != [] {
      var before, last := line[..|line| - 1], line[|line| - 1];
      assert line == before + [last];
      LineSnoc(width, before, last);
      RenderLength(width, before);
      if before == [] {
        OneWord(width, last);
      } else {
        WideIffVisible(width, before);
        assert before[0] == line[0];
        if |before| == 1 { OneWord(width, before[0]); }
      }
    }
  }

  /** A line shows its words with one space between if and only if it is one word or its first
    * word is visible: up to the first visible word, words run into each other. */
  lemma SpacedIffFirstVisible(width: Measure, line: seq<Tok>)
    ensures Render(width, line) == Spaced(line) <==> |line| <= 1 || width(line[0].text) > 0
  {
    RenderLength(width, line);
    if |line| == 1 {
      assert line == [line[0]];
      OneWord(width, line[0]);
    }
  }

  /** Where the next word goes on the line, it follows a space if and only if some word before
    * it is visible. */
  lemma SpaceIffVisibleBefore(width: Measure, line: seq<Tok>, word: Tok)
    ensures Render(width, line + [word])
         == Render(width, line)
            + (if exists i :: 0 <= i < |line| && width(line[i].text) > 0 then [' '] else [])
            + Sgr(word.sgr, word.text)
  {
    LineSnoc(width, line, word);
    WideIffVisible(width, line);
  }

  // ---- The words are the text ----

  /** The pieces with one space between. */
  function JoinSpaces(pieces: seq<string>): string {
    if pieces == [] then []
    else if |pieces| == 1 then pieces[0]
    else pieces[0] + ([' '] + JoinSpaces(pieces[1..]))
  }

  lemma JoinSpacesCons(piece: string, rest: seq<string>)
    requires rest != []
    ensures JoinSpaces([piece] + rest) == piece + ([' '] + JoinSpaces(rest))
  {
    assert ([piece] + rest)[1..] == rest;
  }

  lemma JoinSpacesFirst(c: char, first: string, more: seq<string>)
    ensures JoinSpaces([[c] + first] + more) == [c] + JoinSpaces([first] + more)
  {
    if more != [] {
      JoinSpacesCons([c] + first, more);
      JoinSpacesCons(first, more);
      Regroup([c], first, [' '] + JoinSpaces(more));
    }
  }

  /** Splitting cuts at every space and nowhere else. */
  lemma {:induction false} SplitUnjoins(text: string)
    ensures JoinSpaces(Split(text)) == text
  {
    if text != [] {
      var c, rest := text[0], Split(text[1..]);
      SplitUnjoins(text[1..]);
      assert text == [c] + text[1..];
      if c == ' ' {
        JoinSpacesCons([], rest);
        assert [] + ([' '] + JoinSpaces(rest)) == [' '] + JoinSpaces(rest);
      } else {
        assert rest == [rest[0]] + rest[1..];
        JoinSpacesFirst(c, rest[0], rest[1..]);
      }
    }
  }

  function TextsOf(words: seq<Tok>): (r: seq<string>)
    ensures |r| == |words|
  {
    seq(|words|, i requires 0 <= i < |words| => words[i].text)
  }

  predicate HasText(piece: string) {
    piece != []
  }

  /** The words of a run are its pieces that are not empty, in order, in the style of the run. */
  lemma {:induction false} PiecesAre(pieces: seq<string>, sgr: string)
    ensures TextsOf(Pieces(pieces, sgr)) == Filter(HasText, pieces)
    ensures forall i :: 0 <= i < |Pieces(pieces, sgr)| ==> Pieces(pieces, sgr)[i].sgr == sgr
  {
    if pieces != [] {
      var before, last := pieces[..|pieces| - 1], pieces[|pieces| - 1];
      PiecesAre(before, sgr);
      assert pieces == before + [last];
      FilterConcat(HasText, before, [last]);
      FilterUniform(HasText, [last]);
      var words := Pieces(before, sgr);
      assert TextsOf(words + [Tok(last, sgr)]) == TextsOf(words) + [last];
      assert Filter(HasText, before) + [] == Filter(HasText, before) && words + [] == words;
    }
  }

  function TextOf(toks: seq<Tok>): string {
    if toks == [] then [] else TextOf(toks[..|toks| - 1]) + toks[|toks| - 1].text
  }

  lemma {:induction false} ConcatAppend(a: seq<string>, b: seq<string>)
    ensures Concat(a + b) == Concat(a) + Concat(b)
  {
    if a == [] {
      assert a + b == b;
    } else {
      assert (a + b)[1..] == a[1..] + b;
      ConcatAppend(a[1..], b);
      Regroup(a[0], Concat(a[1..]), Concat(b));
    }
  }

  lemma {:induction false} EmptyPiecesDoNotMatter(pieces: seq<string>)
    ensures Concat(Filter(HasText, pieces)) == Concat(pieces)
  {
    if pieces != [] {
      EmptyPiecesDoNotMatter(pieces[1..]);
      var kept := Filter(HasText, pieces[1..]);
      ConcatCons(pieces[0], kept);
      assert [] + kept == kept && [] + Concat(pieces[1..]) == Concat(pieces[1..]);
    }
  }

  function Concat(pieces: seq<string>): string {
    if pieces == [] then [] else pieces[0] + Concat(pieces[1..])
  }

  predicate NotSpace(c: char) {
    c != ' '
  }

  /** Splitting loses nothing but the spaces, and no piece has one. */
  lemma {:induction false} SplitKeepsText(text: string)
    ensures Concat(Split(text)) == Filter(NotSpace, text)
    ensures forall i :: 0 <= i < |Split(text)| ==> ' ' !in Split(text)[i]
  {
    if text != [] {
      var c, rest := text[0], Split(text[1..]);
      SplitKeepsText(text[1..]);
      assert text == [c] + text[1..];
      FilterCons(NotSpace, c, text[1..]);
      if c == ' ' {
        ConcatCons([], rest);
      } else {
        assert rest == [rest[0]] + rest[1..];
        ConcatFirst(c, rest[0], rest[1..]);
      }
    }
  }

  lemma ConcatCons(piece: string, rest: seq<string>)
    ensures Concat([piece] + rest) == piece + Concat(rest)
  {
    assert ([piece] + rest)[1..] == rest;
  }

  lemma ConcatFirst(c: char, first: string, more: seq<string>)
    ensures Concat([[c] + first] + more) == [c] + Concat([first] + more)
  {
    ConcatCons([c] + first, more);
    ConcatCons(first, more);
    Regroup([c], first, Concat(more));
  }

  lemma RunKeepsText(tok: Tok)
    ensures Concat(TextsOf(Pieces(Split(tok.text), tok.sgr))) == Filter(NotSpace, tok.text)
  {
    SplitKeepsText(tok.text);
    PiecesAre(Split(tok.text), tok.sgr);
    EmptyPiecesDoNotMatter(Split(tok.text));
  }

  lemma TextsConcat(a: seq<Tok>, b: seq<Tok>)
    ensures Concat(TextsOf(a + b)) == Concat(TextsOf(a)) + Concat(TextsOf(b))
  {
    assert TextsOf(a + b) == TextsOf(a) + TextsOf(b);
    ConcatAppend(TextsOf(a), TextsOf(b));
  }

  /** The words of all runs, one after the other, are their text without the spaces. */
  lemma {:induction false} WordsKeepText(toks: seq<Tok>)
    ensures Concat(TextsOf(Words(toks))) == Filter(NotSpace, TextOf(toks))
  {
    if toks != [] {
      var before, tok := toks[..|toks| - 1], toks[|toks| - 1];
      WordsKeepText(before);
      RunKeepsText(tok);
      TextsConcat(Words(before), Pieces(Split(tok.text), tok.sgr));
      FilterConcat(NotSpace, TextOf(before), tok.text);
    }
  }
}
