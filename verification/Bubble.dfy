/** The assistant bubble: what the operator reads after a turn, whatever the model wrote. */
module Bubble {
  import opened Wrappers
  import opened PyRepr

  datatype ToolCall = ToolCall(name: string, args: Json, callId: string)

  datatype DestructiveCall = DestructiveCall(name: string, args: Json)

  /** The pattern-based text filters, which the override chain only calls. */
  datatype Filters = Filters(
    suppressToolRecap: (string, seq<ToolCall>) -> string,
    stripFakePropose: string -> (string, bool),
    mentionsConfirm: string -> bool,
    claimsHandbook: string -> bool,
    fallback: string)

  datatype Outcome = Outcome(text: string, emptyFinal: bool, stall: bool, hallucination: bool)

  function FieldsOf(args: Json): seq<Field> {
    if args.JObject? then args.fields else []
  }

  function JoinNames(calls: seq<ToolCall>): string {
    if calls == [] then ""
    else if |calls| == 1 then calls[0].name
    else calls[0].name + ([','] + ([' '] + JoinNames(calls[1..])))
  }

  function Digits(n: nat): string {
    var last := [('0' as int + n % 10) as char];
    if n < 10 then last else Digits(n / 10) + last
  }

  function ProposedText(p: DestructiveCall): string {
    "Proposed " + p.name + "(" + ArgsPreview(FieldsOf(p.args)) + "). Type /confirm to authorise."
  }

  function ExecutedText(executed: seq<DestructiveCall>): string
    requires executed != []
  {
    var last := executed[|executed| - 1];
    if |executed| == 1 then "Executed " + last.name + "(" + ArgsPreview(FieldsOf(last.args)) + ")."
    else "Executed " + Digits(|executed|) + " destructive actions, last was " + last.name
         + "(" + ArgsPreview(FieldsOf(last.args)) + ")."
  }

  const STALL: string :=
    "(The model wrote a propose banner as text instead of calling the tool — no pending action. "
    + "Rephrase the request or be more direct.)"

  function NoAnswer(calls: seq<ToolCall>): string {
    if calls == [] then "(no reply)"
    else "(The model called `" + JoinNames(calls)
         + "` but did not synthesise a final answer. Send the same question again or rephrase to retry.)"
  }

  predicate KnowledgeCalled(calls: seq<ToolCall>) {
    exists i :: 0 <= i < |calls| && "knowledge." <= calls[i].name
  }

  /** Only a tool of the knowledge family backs a claim: its name continues after the dot. */
  lemma KnowledgeCalledIff(calls: seq<ToolCall>)
    ensures KnowledgeCalled(calls) <==> exists i, tool :: 0 <= i < |calls| && calls[i].name == "knowledge." + tool
  {
    if i :| 0 <= i < |calls| && "knowledge." <= calls[i].name {
      assert calls[i].name == "knowledge." + calls[i].name[|"knowledge."|..];
    }
  }

  /** The model's text after the recap and propose filters, and whether a fake propose was cut. */
  function Stripped(f: Filters, text: string, calls: seq<ToolCall>): (string, bool) {
    f.stripFakePropose(f.suppressToolRecap(if text == "" then NoAnswer(calls) else text, calls))
  }

  /** No tool was called, but the text plays a proposal or asks for a confirm. */
  predicate Stalls(f: Filters, text: string, calls: seq<ToolCall>) {
    calls == [] && (Stripped(f, text, calls).1 || f.mentionsConfirm(Stripped(f, text, calls).0))
  }

  /** The model's own text after the first three overrides. */
  function ModelText(f: Filters, text: string, calls: seq<ToolCall>): string {
    if Stalls(f, text, calls) then STALL else Stripped(f, text, calls).0
  }

  /** What the destructive outcome of the turn makes of it. */
  function Settled(f: Filters, text: string, calls: seq<ToolCall>,
                   proposal: Option<DestructiveCall>, executed: seq<DestructiveCall>): string {
    if proposal.Some? then ProposedText(proposal.value)
    else if executed != [] then ExecutedText(executed)
    else ModelText(f, text, calls)
  }

  /** A handbook claim that no knowledge tool backs. */
  predicate Uncited(f: Filters, text: string, calls: seq<ToolCall>) {
    text != "" && f.claimsHandbook(text) && !KnowledgeCalled(calls)
  }

  /** What the operator reads. */
  function BubbleText(f: Filters, text: string, calls: seq<ToolCall>,
                      proposal: Option<DestructiveCall>, executed: seq<DestructiveCall>): string {
    var settled := Settled(f, text, calls, proposal, executed);
    if Uncited(f, settled, calls) then f.fallback else settled
  }

  /** The overrides of finalize_bubble that look at the model's text. */
  method ModelPart(f: Filters, raw: string, calls: seq<ToolCall>) returns (text: string, emptyFinal: bool, stall: bool)
    ensures text == ModelText(f, raw, calls)
    ensures emptyFinal == (raw == "" && calls != []) && stall == Stalls(f, raw, calls)
  {
    text, emptyFinal, stall := raw, false, false;
    if text == "" {
      if calls != [] { emptyFinal := true; }
      text := NoAnswer(calls);
    }
    text := f.suppressToolRecap(text, calls);
    var (stripped, mimicry) := f.stripFakePropose(text);
    text := stripped;
    if calls == [] && (mimicry || f.mentionsConfirm(text)) {
      stall := true;
      text := STALL;
    }
  }

  /** finalize_bubble. The text is the settled one, or the citation fallback exactly if
    * the settled text is a handbook claim and no knowledge tool was called. */
  method FinalizeBubble(f: Filters, raw: string, calls: seq<ToolCall>,
                        proposal: Option<DestructiveCall>, executed: seq<DestructiveCall>) returns (out: Outcome)
    ensures out.text == BubbleText(f, raw, calls, proposal, executed)
    ensures out.hallucination == Uncited(f, Settled(f, raw, calls, proposal, executed), calls)
    ensures out.emptyFinal == (raw == "" && calls != [])
    ensures out.stall == Stalls(f, raw, calls)
  {
    out := Outcome("", false, false, false);
    var text, emptyFinal, stall := ModelPart(f, raw, calls);
    out := out.(emptyFinal := emptyFinal, stall := stall);
    match proposal {
      case Some(p) => text := ProposedText(p);
      case None =>
        if executed != [] { text := ExecutedText(executed); }
    }
    if text != "" && f.claimsHandbook(text) && !KnowledgeCalled(calls) {
      out := out.(hallucination := true);
      text := f.fallback;
    }
    out := out.(text := text);
  }

  /** With a staged proposal what the model wrote does not matter: the operator reads the
    * proposal, or the fallback where the proposal itself looks like an uncited claim. */
  lemma ProposalOverridesModel(f: Filters, text: string, calls: seq<ToolCall>,
                               p: DestructiveCall, executed: seq<DestructiveCall>)
    ensures BubbleText(f, text, calls, Some(p), executed)
         == if f.claimsHandbook(ProposedText(p)) && !KnowledgeCalled(calls) then f.fallback else ProposedText(p)
  {
    assert |ProposedText(p)| >= |"Proposed "|;
  }

  /** What is said of an unproposed turn, whatever the model wrote: the destructive calls that ran,
    * or the fallback where that itself looks like an uncited claim. */
  lemma ExecutedOverridesModel(f: Filters, text: string, calls: seq<ToolCall>, executed: seq<DestructiveCall>)
    requires executed != []
    ensures BubbleText(f, text, calls, None, executed)
         == if f.claimsHandbook(ExecutedText(executed)) && !KnowledgeCalled(calls) then f.fallback
            else ExecutedText(executed)
  {
    assert |ExecutedText(executed)| >= |"Executed "|;
  }

  /** The override chain on the model's own text: where the filters cut `text` to `shown`, with no
    * sign of a fake proposal and no uncited claim left in it, the operator reads that. */
  lemma HonestTextIsShown(f: Filters, text: string, calls: seq<ToolCall>, recapped: string, shown: string, cut: bool)
    requires f.suppressToolRecap(if text == "" then NoAnswer(calls) else text, calls) == recapped
    requires f.stripFakePropose(recapped) == (shown, cut)
    requires calls != [] || (!cut && !f.mentionsConfirm(shown))
    requires shown == "" || !f.claimsHandbook(shown) || KnowledgeCalled(calls)
    ensures BubbleText(f, text, calls, None, []) == shown
  {
  }

  /** A turn that called no tool and staged nothing never shows a text that asks for a confirm, other
    * than the stall notice and the fallback; no turn shows an uncited claim other than the fallback. */
  lemma MisleadingTextIsNotShown(f: Filters, text: string, calls: seq<ToolCall>,
                                 proposal: Option<DestructiveCall>, executed: seq<DestructiveCall>)
    ensures var shown := BubbleText(f, text, calls, proposal, executed);
            && (calls == [] && proposal.None? && executed == [] && f.mentionsConfirm(shown) ==>
                  shown == STALL || shown == f.fallback)
            && (shown != "" && f.claimsHandbook(shown) && !KnowledgeCalled(calls) ==> shown == f.fallback)
  {
  }

  lemma Unframe(head: string, a: string, x: string, b: string, y: string, tail: string)
    requires '(' !in a && '(' !in b && head + a + "(" + x + tail == head + b + "(" + y + tail
    ensures a == b && x == y
  {
    var s, t := a + (['('] + (x + tail)), b + (['('] + (y + tail));
    assert head + a + "(" + x + tail == head + s && head + b + "(" + y + tail == head + t;
    assert (head + s)[|head|..] == s && (head + t)[|head|..] == t;
    SplitAt('(', a, x + tail, b, y + tail);
    assert |x| == |y| && (x + tail)[..|x|] == x && (y + tail)[..|y|] == y;
  }

  lemma SplitAt(c: char, a: string, x: string, b: string, y: string)
    requires c !in a && c !in b && a + ([c] + x) == b + ([c] + y)
    ensures a == b && x == y
  {
    var s, t := a + ([c] + x), b + ([c] + y);
    forall i | 0 <= i < |a| ensures s[i] != c { assert s[i] == a[i] && a[i] in a; }
    forall i | 0 <= i < |b| ensures t[i] != c { assert t[i] == b[i] && b[i] in b; }
    assert s[|a|] == c && t[|b|] == c;
    assert s[..|a|] == a && t[..|b|] == b;
    assert s[|a| + 1..] == x && t[|b| + 1..] == y;
  }

  ghost predicate PlainCall(c: DestructiveCall) {
    '(' !in c.name && PlainArgs(FieldsOf(c.args))
  }

  function FirstThree(args: seq<Field>): seq<Field> {
    if |args| <= 3 then args else args[..3]
  }

  /** The proposal the operator reads names one tool and one list of leading arguments. */
  lemma ProposedTextInjective(p: DestructiveCall, q: DestructiveCall)
    requires PlainCall(p) && PlainCall(q) && ProposedText(p) == ProposedText(q)
    ensures p.name == q.name && FirstThree(FieldsOf(p.args)) == FirstThree(FieldsOf(q.args))
  {
    var a, b := ArgsPreview(FieldsOf(p.args)), ArgsPreview(FieldsOf(q.args));
    Unframe("Proposed ", p.name, a, q.name, b, "). Type /confirm to authorise.");
    ArgsPreviewInjective(FieldsOf(p.args), FieldsOf(q.args));
  }

  // ---- The executed wrap-up names the last call ----

  /** The number a text of digits stands for. */
  function ValueOf(digits: string): int {
    if digits == [] then 0
    else 10 * ValueOf(digits[..|digits| - 1]) + (digits[|digits| - 1] as int - '0' as int)
  }

  lemma {:induction false} DigitsRead(n: nat)
    ensures ValueOf(Digits(n)) == n && Digits(n) != [] && ' ' !in Digits(n)
  {
    var last := ('0' as int + n % 10) as char;
    if n < 10 {
      assert Digits(n) == [last] && [last][..0] == [];
    } else {
      DigitsRead(n / 10);
      assert Digits(n)[..|Digits(n)| - 1] == Digits(n / 10);
    }
  }

  function LastOf(executed: seq<DestructiveCall>): DestructiveCall
    requires executed != []
  {
    executed[|executed| - 1]
  }

  /** A call whose name is one word. */
  ghost predicate PlainTool(c: DestructiveCall) {
    PlainCall(c) && ' ' !in c.name
  }

  function CallText(c: DestructiveCall): string {
    c.name + "(" + ArgsPreview(FieldsOf(c.args)) + ")."
  }

  lemma CallTextShape(c: DestructiveCall)
    ensures CallText(c) == c.name + (['('] + (ArgsPreview(FieldsOf(c.args)) + ")."))
  {
    Nested("", c.name, "(", ArgsPreview(FieldsOf(c.args)), ").");
  }

  lemma CallTextInjective(c: DestructiveCall, d: DestructiveCall)
    requires PlainCall(c) && PlainCall(d) && CallText(c) == CallText(d)
    ensures c.name == d.name && FirstThree(FieldsOf(c.args)) == FirstThree(FieldsOf(d.args))
  {
    var a, b := ArgsPreview(FieldsOf(c.args)), ArgsPreview(FieldsOf(d.args));
    CallTextShape(c);
    CallTextShape(d);
    SplitAt('(', c.name, a + ").", d.name, b + ").");
    assert |a| == |b| && (a + ").")[..|a|] == a && (b + ").")[..|b|] == b;
    ArgsPreviewInjective(FieldsOf(c.args), FieldsOf(d.args));
  }

  const MANY: string := "destructive actions, last was "

  /** What follows "Executed ". */
  function ExecutedTail(n: nat, last: DestructiveCall): string {
    if n == 1 then CallText(last) else Digits(n) + ([' '] + (MANY + CallText(last)))
  }

  lemma ExecutedTextShape(executed: seq<DestructiveCall>)
    requires executed != []
    ensures ExecutedText(executed) == "Executed " + ExecutedTail(|executed|, LastOf(executed))
  {
    var last, n := LastOf(executed), |executed|;
    var args := ArgsPreview(FieldsOf(last.args));
    if n == 1 {
      Nested("Executed ", last.name, "(", args, ").");
    } else {
      Nested("Executed " + Digits(n) + " destructive actions, last was ", last.name, "(", args, ").");
      Apart("Executed ", Digits(n), " ", MANY, CallText(last));
      assert " " + MANY == " destructive actions, last was ";
    }
  }

  lemma Nested(a: string, b: string, c: string, d: string, e: string)
    ensures a + b + c + d + e == a + (b + c + d + e)
  {
  }

  lemma Apart(a: string, b: string, c: string, d: string, e: string)
    ensures (a + b + (c + d)) + e == a + (b + (c + (d + e)))
  {
  }

  lemma EndsAt(a: string, c: char, x: string)
    requires ' ' !in a && '(' !in a
    ensures var s := a + ([c] + x);
            && |s| > |a| && s[|a|] == c
            && forall i :: 0 <= i < |a| ==> s[i] != ' ' && s[i] != '('
  {
    var s := a + ([c] + x);
    forall i | 0 <= i < |a| ensures s[i] != ' ' && s[i] != '(' { assert s[i] == a[i] && a[i] in a; }
  }

  /** A call never reads like a word and a space. */
  lemma CallTextFirstWord(c: DestructiveCall, word: string, rest: string)
    requires PlainTool(c) && ' ' !in word && '(' !in word
    ensures CallText(c) != word + ([' '] + rest)
  {
    var args := ArgsPreview(FieldsOf(c.args));
    CallTextShape(c);
    EndsAt(c.name, '(', args + ").");
    EndsAt(word, ' ', rest);
  }

  lemma {:induction false} DigitsPlain(n: nat)
    ensures '(' !in Digits(n)
  {
    if n >= 10 { DigitsPlain(n / 10); }
  }

  lemma ExecutedTailInjective(n: nat, c: DestructiveCall, m: nat, d: DestructiveCall)
    requires PlainTool(c) && PlainTool(d) && ExecutedTail(n, c) == ExecutedTail(m, d)
    ensures n == m && c.name == d.name && FirstThree(FieldsOf(c.args)) == FirstThree(FieldsOf(d.args))
  {
    DigitsRead(n);
    DigitsRead(m);
    DigitsPlain(n);
    DigitsPlain(m);
    if n == 1 && m != 1 {
      CallTextFirstWord(c, Digits(m), MANY + CallText(d));
    } else if n != 1 && m == 1 {
      CallTextFirstWord(d, Digits(n), MANY + CallText(c));
    } else if n != 1 {
      SplitAt(' ', Digits(n), MANY + CallText(c), Digits(m), MANY + CallText(d));
      assert (MANY + CallText(c))[|MANY|..] == CallText(c) && (MANY + CallText(d))[|MANY|..] == CallText(d);
      CallTextInjective(c, d);
    } else {
      CallTextInjective(c, d);
    }
  }

  /** As many calls ran, and the last ones have the same name and the same first three arguments. */
  ghost predicate SameWrapUp(a: seq<DestructiveCall>, b: seq<DestructiveCall>)
    requires a != [] && b != []
  {
    && |a| == |b| && LastOf(a).name == LastOf(b).name
    && FirstThree(FieldsOf(LastOf(a).args)) == FirstThree(FieldsOf(LastOf(b).args))
  }

  /** Wrap-ups that agree so read the same, whatever else ran; and for tool names of one word only
    * those do. */
  lemma ExecutedTextIff(a: seq<DestructiveCall>, b: seq<DestructiveCall>)
    requires a != [] && b != []
    ensures SameWrapUp(a, b) ==> ExecutedText(a) == ExecutedText(b)
    ensures PlainTool(LastOf(a)) && PlainTool(LastOf(b)) && ExecutedText(a) == ExecutedText(b) ==> SameWrapUp(a, b)
  {
    ExecutedTextShape(a);
    ExecutedTextShape(b);
    if PlainTool(LastOf(a)) && PlainTool(LastOf(b)) && ExecutedText(a) == ExecutedText(b) {
      var s, t := ExecutedTail(|a|, LastOf(a)), ExecutedTail(|b|, LastOf(b));
      assert ("Executed " + s)[|"Executed "|..] == s && ("Executed " + t)[|"Executed "|..] == t;
      ExecutedTailInjective(|a|, LastOf(a), |b|, LastOf(b));
    }
  }

  // ---- The notice for an empty answer names the tools called ----

  ghost predicate PlainNames(calls: seq<ToolCall>) {
    forall i :: 0 <= i < |calls| ==> ',' !in calls[i].name
  }

  ghost predicate SameNames(a: seq<ToolCall>, b: seq<ToolCall>) {
    |a| == |b| && forall i :: 0 <= i < |a| ==> a[i].name == b[i].name
  }

  lemma HasComma(calls: seq<ToolCall>)
    requires calls != [] && PlainNames(calls)
    ensures ',' in JoinNames(calls) <==> |calls| > 1
  {
    if |calls| > 1 {
      assert JoinNames(calls)[|calls[0].name|] == ',';
    }
  }

  lemma {:induction false} JoinNamesInjective(a: seq<ToolCall>, b: seq<ToolCall>)
    requires a != [] && b != [] && PlainNames(a) && PlainNames(b) && JoinNames(a) == JoinNames(b)
    ensures SameNames(a, b)
    decreases |a|
  {
    HasComma(a);
    HasComma(b);
    if |a| > 1 {
      var x, y := [' '] + JoinNames(a[1..]), [' '] + JoinNames(b[1..]);
      SplitAt(',', a[0].name, x, b[0].name, y);
      assert x[1..] == JoinNames(a[1..]) && y[1..] == JoinNames(b[1..]);
      JoinNamesInjective(a[1..], b[1..]);
      forall i | 0 <= i < |a| ensures a[i].name == b[i].name {
        if i > 0 { assert a[1..][i - 1].name == b[1..][i - 1].name; }
      }
    }
  }

  lemma SecondChar(calls: seq<ToolCall>)
    ensures |NoAnswer(calls)| > 1 && NoAnswer(calls)[1] == if calls == [] then 'n' else 'T'
  {
    if calls != [] { assert NoAnswer(calls)[1] == "(The model called `"[1]; }
  }

  /** With an empty answer the operator reads which tools were called, in order. */
  lemma NoAnswerNamesTools(a: seq<ToolCall>, b: seq<ToolCall>)
    requires PlainNames(a) && PlainNames(b) && NoAnswer(a) == NoAnswer(b)
    ensures SameNames(a, b)
  {
    var head, tail := "(The model called `",
                      "` but did not synthesise a final answer. Send the same question again or rephrase to retry.)";
    SecondChar(a);
    SecondChar(b);
    if a != [] && b != [] {
      var x, y := JoinNames(a), JoinNames(b);
      assert |x| == |y| && (head + x + tail)[|head|..|head| + |x|] == x && (head + y + tail)[|head|..|head| + |y|] == y;
      JoinNamesInjective(a, b);
    }
  }
}
