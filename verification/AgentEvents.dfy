/** What a turn makes of the events the agent reports: the calls it captured, the destructive call
  * it proposes, those that ran, the cards and the final text. */
module AgentEvents {
  import opened Wrappers
  import opened PyRepr
  import opened Bubble

  datatype AgentEvent =
    | ToolCallStarted(name: string, args: Json, callId: string)
    | ToolCallCompleted(name: string, callId: string, result: string, resultFull: string)
    | FinalMessage(text: string)
    | Failure
    | OtherEvent

  /** The tool tables and filters a turn consults: which tools count as destructive, the
    * card renderer, the markup stripper, and the bubble's own filters. */
  datatype Surface = Surface(isDestructive: string -> bool, render: (string, string) -> string,
                             strip: string -> string, filters: Filters)

  const BLOCKED_MARKER: string := "DESTRUCTIVE_OPERATION_BLOCKED"

  predicate Contains(text: string, part: string) {
    exists i :: 0 <= i <= |text| && part <= text[i..]
  }

  function RawOf(e: AgentEvent): string
    requires e.ToolCallCompleted?
  {
    if e.resultFull == "" then e.result else e.resultFull
  }

  /** Whether a call counts as blocked, and its card, depend on the full result alone if there is one;
    * the shortened result never hides the marker. */
  lemma FullResultDecides(u: Surface, name: string, callId: string, short: string, full: string)
    ensures var e, seen := ToolCallCompleted(name, callId, short, full), if full == "" then short else full;
            && RawOf(e) == seen
            && (Blocked(u, e) <==> name != "" && u.isDestructive(name) && Contains(seen, BLOCKED_MARKER))
  {
  }

  /** The calls captured by a list of events, in order. */
  function Captured(events: seq<AgentEvent>): seq<ToolCall> {
    if events == [] then []
    else
      var before, e := Captured(events[..|events| - 1]), events[|events| - 1];
      if e.ToolCallStarted? then before + [ToolCall(e.name, e.args, e.callId)] else before
  }

  /** The args of the last captured call with this id; an empty object without one. */
  function ArgsFor(calls: seq<ToolCall>, callId: string): Json {
    if calls == [] then JObject([])
    else if calls[|calls| - 1].callId == callId then calls[|calls| - 1].args
    else ArgsFor(calls[..|calls| - 1], callId)
  }

  /** Event i completes a destructive call. */
  predicate Destructive(u: Surface, e: AgentEvent) {
    e.ToolCallCompleted? && e.name != "" && u.isDestructive(e.name)
  }

  predicate Blocked(u: Surface, e: AgentEvent) {
    Destructive(u, e) && Contains(RawOf(e), BLOCKED_MARKER)
  }

  function CallOf(events: seq<AgentEvent>, i: nat): DestructiveCall
    requires i < |events| && events[i].ToolCallCompleted?
  {
    DestructiveCall(events[i].name, ArgsFor(Captured(events[..i]), events[i].callId))
  }

  predicate Starts(e: AgentEvent, callId: string) {
    e.ToolCallStarted? && e.callId == callId
  }

  /** Event j is the last before event i to start the call with this id. */
  ghost predicate LastStart(events: seq<AgentEvent>, i: nat, callId: string, j: nat)
    requires i <= |events|
  {
    j < i && Starts(events[j], callId) && forall k :: j < k < i ==> !Starts(events[k], callId)
  }

  /** The args the agent gave the call with this id when it last started it before event i,
    * whatever other calls there were; an empty object if it never did. */
  ghost predicate Given(events: seq<AgentEvent>, i: nat, callId: string, args: Json)
    requires i <= |events|
  {
    && (forall j: nat :: LastStart(events, i, callId, j) ==> args == events[j].args)
    && ((forall j :: 0 <= j < i ==> !Starts(events[j], callId)) ==> args == JObject([]))
  }

  /** The call that event i completes: its tool, with the args that call was started with. */
  ghost predicate IsCall(events: seq<AgentEvent>, i: nat, call: DestructiveCall)
    requires i < |events|
  {
    events[i].ToolCallCompleted? && call.name == events[i].name && Given(events, i, events[i].callId, call.args)
  }

  /** The proposal of a list of events is its last blocked destructive call. */
  ghost predicate IsLastProposal(u: Surface, events: seq<AgentEvent>, p: Option<DestructiveCall>) {
    match p
    case None => forall i :: 0 <= i < |events| ==> !Blocked(u, events[i])
    case Some(call) => exists i: nat :: i < |events| && Blocked(u, events[i]) && IsCall(events, i, call)
                                        && forall j :: i < j < |events| ==> !Blocked(u, events[j])
  }

  /** The last start before event i + 1. */
  lemma LastStartNext(events: seq<AgentEvent>, i: nat, callId: string, j: nat)
    requires i < |events|
    ensures LastStart(events, i + 1, callId, j)
       <==> if Starts(events[i], callId) then j == i else LastStart(events, i, callId, j)
  {
  }

  lemma GivenNext(events: seq<AgentEvent>, i: nat, callId: string, args: Json)
    requires i < |events| && Given(events, i, callId, args)
    ensures Given(events, i + 1, callId, if Starts(events[i], callId) then events[i].args else args)
  {
    forall j: nat
      ensures LastStart(events, i + 1, callId, j)
         <==> if Starts(events[i], callId) then j == i else LastStart(events, i, callId, j)
    {
      LastStartNext(events, i, callId, j);
    }
  }

  lemma ArgsForNext(events: seq<AgentEvent>, i: nat, callId: string)
    requires i < |events|
    ensures ArgsFor(Captured(events[..i + 1]), callId)
         == if Starts(events[i], callId) then events[i].args else ArgsFor(Captured(events[..i]), callId)
  {
    var before, e := Captured(events[..i]), events[i];
    assert events[..i + 1][..i] == events[..i];
    if e.ToolCallStarted? {
      var calls := before + [ToolCall(e.name, e.args, e.callId)];
      assert calls[..|calls| - 1] == before;
    }
  }

  /** The args a list of events gives a call are those of its last start. */
  lemma {:induction false} ArgsForGiven(events: seq<AgentEvent>, i: nat, callId: string)
    requires i <= |events|
    ensures Given(events, i, callId, ArgsFor(Captured(events[..i]), callId))
  {
    if i > 0 {
      ArgsForGiven(events, i - 1, callId);
      ArgsForNext(events, i - 1, callId);
      GivenNext(events, i - 1, callId, ArgsFor(Captured(events[..i - 1]), callId));
    }
  }

  /** If any event starts the call, some event is the last to. */
  lemma {:induction false} SomeLastStart(events: seq<AgentEvent>, i: nat, callId: string)
    requires i <= |events|
    ensures (exists j :: 0 <= j < i && Starts(events[j], callId)) <==> exists j: nat :: LastStart(events, i, callId, j)
  {
    if j :| 0 <= j < i && Starts(events[j], callId) {
      if Starts(events[i - 1], callId) {
        assert LastStart(events, i, callId, i - 1);
      } else {
        SomeLastStart(events, i - 1, callId);
        var k: nat :| LastStart(events, i - 1, callId, k);
        LastStartNext(events, i - 1, callId, k);
      }
    }
  }

  lemma CallOfIsCall(events: seq<AgentEvent>, i: nat)
    requires i < |events| && events[i].ToolCallCompleted?
    ensures IsCall(events, i, CallOf(events, i))
  {
    ArgsForGiven(events, i, events[i].callId);
  }

  /** One event more changes nothing about the calls before it. */
  lemma StillCall(events: seq<AgentEvent>, e: AgentEvent, i: nat, call: DestructiveCall)
    requires i < |events| && IsCall(events, i, call)
    ensures IsCall(events + [e], i, call)
  {
    var next, id := events + [e], events[i].callId;
    assert forall k :: 0 <= k < |events| ==> next[k] == events[k];
    forall j: nat | LastStart(next, i, id, j) ensures call.args == next[j].args {
      assert LastStart(events, i, id, j);
    }
  }

  /** The destructive calls that ran, in order. */
  function Executed(u: Surface, events: seq<AgentEvent>): seq<DestructiveCall> {
    if events == [] then []
    else
      var n := |events| - 1;
      var before := Executed(u, events[..n]);
      if Destructive(u, events[n]) && !Blocked(u, events[n]) then before + [CallOf(events, n)] else before
  }

  /** The cards shown, in order. */
  function Cards(u: Surface, events: seq<AgentEvent>): seq<(string, string)> {
    if events == [] then []
    else
      var n := |events| - 1;
      var before, e := Cards(u, events[..n]), events[n];
      if e.ToolCallCompleted? && u.render(e.name, RawOf(e)) != "" then before + [(e.name, u.render(e.name, RawOf(e)))]
      else before
  }

  /** The last final message, stripped. */
  function FinalText(u: Surface, events: seq<AgentEvent>): Option<string> {
    if events == [] then None
    else if events[|events| - 1].FinalMessage? then Some(u.strip(events[|events| - 1].text))
    else FinalText(u, events[..|events| - 1])
  }

  predicate Errored(events: seq<AgentEvent>) {
    exists i :: 0 <= i < |events| && events[i].Failure?
  }

  datatype Gathered = Gathered(captured: seq<ToolCall>, proposal: Option<DestructiveCall>,
                               executed: seq<DestructiveCall>, cards: seq<(string, string)>,
                               finalText: Option<string>, errored: bool)

  /** The event loop of drive_turn. */
  method Gather(u: Surface, events: seq<AgentEvent>) returns (g: Gathered)
    ensures g.captured == Captured(events) && g.executed == Executed(u, events) && g.cards == Cards(u, events)
    ensures g.finalText == FinalText(u, events) && g.errored == Errored(events)
    ensures IsLastProposal(u, events, g.proposal) && IsFinal(u, events, g.finalText)
    ensures exists at :: AreCaptured(u, events, g.captured, at)
    ensures exists at :: AreExecuted(u, events, g.executed, at)
    ensures exists at :: AreCards(u, events, g.cards, at)
  {
    var captured: seq<ToolCall>, executed: seq<DestructiveCall>, cards: seq<(string, string)> := [], [], [];
    var proposal: Option<DestructiveCall>, finalText: Option<string>, errored := None, None, false;
    for i := 0 to |events|
      invariant captured == Captured(events[..i]) && executed == Executed(u, events[..i])
      invariant cards == Cards(u, events[..i])
      invariant finalText == FinalText(u, events[..i]) && errored == Errored(events[..i])
      invariant IsLastProposal(u, events[..i], proposal)
    {
      var e := events[i];
      ghost var next := events[..i + 1];
      assert next[..i] == events[..i] && next[i] == e;
      ExtendProposal(u, events[..i], e, proposal);
      assert events[..i] + [e] == next;
      match e {
        case ToolCallStarted(name, args, callId) =>
          captured := captured + [ToolCall(name, args, callId)];
        case ToolCallCompleted(name, callId, result, resultFull) =>
          var raw := if resultFull == "" then result else resultFull;
          if name != "" && u.isDestructive(name) {
            var call := DestructiveCall(name, ArgsFor(captured, callId));
            if Contains(raw, BLOCKED_MARKER) {
              proposal := Some(call);
            } else {
              executed := executed + [call];
            }
          }
          var rendered := u.render(name, raw);
          if rendered != "" { cards := cards + [(name, rendered)]; }
        case FinalMessage(text) =>
          finalText := Some(u.strip(text));
        case Failure =>
          errored := true;
          assert next[i].Failure?;
        case OtherEvent =>
      }
      assert Errored(next) <==> Errored(events[..i]) || e.Failure? by { ExtendErrored(events[..i], e); }
    }
    assert events[..|events|] == events;
    g := Gathered(captured, proposal, executed, cards, finalText, errored);
    FinalIs(u, events);
    ghost var a := CapturedAre(u, events);
    ghost var b := ExecutedAre(u, events);
    ghost var c := CardsAre(u, events);
  }

  lemma ExtendErrored(events: seq<AgentEvent>, e: AgentEvent)
    ensures Errored(events + [e]) <==> Errored(events) || e.Failure?
  {
    var next := events + [e];
    if i :| 0 <= i < |events| && events[i].Failure? { assert next[i].Failure?; }
    if e.Failure? { assert next[|events|].Failure?; }
  }

  // ---- Which events make up the results ----

  /** A call is started, a destructive one runs, a card is shown. */
  datatype Kind = CallStarted | Ran | Shown

  predicate IsOf(kind: Kind, u: Surface, e: AgentEvent) {
    match kind
    case CallStarted => e.ToolCallStarted?
    case Ran => Destructive(u, e) && !Blocked(u, e)
    case Shown => e.ToolCallCompleted? && u.render(e.name, RawOf(e)) != ""
  }

  /** The positions of the events of a kind, in order. */
  ghost predicate Selects(kind: Kind, u: Surface, events: seq<AgentEvent>, at: seq<nat>) {
    && (forall j, k :: 0 <= j < k < |at| ==> at[j] < at[k])
    && (forall i: nat :: i in at <==> i < |events| && IsOf(kind, u, events[i]))
  }

  lemma SelectsSnoc(kind: Kind, u: Surface, events: seq<AgentEvent>, e: AgentEvent, at: seq<nat>)
    requires Selects(kind, u, events, at)
    ensures Selects(kind, u, events + [e], if IsOf(kind, u, e) then at + [|events|] else at)
  {
    var next := if IsOf(kind, u, e) then at + [|events|] else at;
    forall k | 0 <= k < |at| ensures at[k] < |events| { assert at[k] in at; }
    forall i: nat ensures i in next <==> i < |events + [e]| && IsOf(kind, u, (events + [e])[i]) {
      assert i in next <==> i in at || (IsOf(kind, u, e) && i == |events|);
    }
  }

  /** One captured call for each start, in order, with its name, args and id. */
  ghost predicate AreCaptured(u: Surface, events: seq<AgentEvent>, calls: seq<ToolCall>, at: seq<nat>) {
    && Selects(CallStarted, u, events, at) && |calls| == |at|
    && forall k :: 0 <= k < |at| ==>
         at[k] < |events| && events[at[k]].ToolCallStarted?
         && calls[k] == ToolCall(events[at[k]].name, events[at[k]].args, events[at[k]].callId)
  }

  /** One executed call for each completion of a destructive tool that was not blocked, in order. */
  ghost predicate AreExecuted(u: Surface, events: seq<AgentEvent>, calls: seq<DestructiveCall>, at: seq<nat>) {
    && Selects(Ran, u, events, at) && |calls| == |at|
    && forall k :: 0 <= k < |at| ==> at[k] < |events| && IsCall(events, at[k], calls[k])
  }

  /** One card for each completion its tool renders, in order. */
  ghost predicate AreCards(u: Surface, events: seq<AgentEvent>, cards: seq<(string, string)>, at: seq<nat>) {
    && Selects(Shown, u, events, at) && |cards| == |at|
    && forall k :: 0 <= k < |at| ==>
         at[k] < |events| && events[at[k]].ToolCallCompleted?
         && cards[k] == (events[at[k]].name, u.render(events[at[k]].name, RawOf(events[at[k]])))
  }

  /** The text of the last final message. */
  ghost predicate IsFinal(u: Surface, events: seq<AgentEvent>, text: Option<string>) {
    match text
    case None => forall i :: 0 <= i < |events| ==> !events[i].FinalMessage?
    case Some(t) => exists i :: 0 <= i < |events| && events[i].FinalMessage? && t == u.strip(events[i].text)
                                && forall j :: i < j < |events| ==> !events[j].FinalMessage?
  }

  lemma CapturedSnoc(u: Surface, events: seq<AgentEvent>, e: AgentEvent, calls: seq<ToolCall>, at: seq<nat>)
    requires AreCaptured(u, events, calls, at)
    ensures if e.ToolCallStarted?
            then AreCaptured(u, events + [e], calls + [ToolCall(e.name, e.args, e.callId)], at + [|events|])
            else AreCaptured(u, events + [e], calls, at)
  {
    SelectsSnoc(CallStarted, u, events, e, at);
  }

  lemma {:induction false} CapturedAre(u: Surface, events: seq<AgentEvent>) returns (at: seq<nat>)
    ensures AreCaptured(u, events, Captured(events), at)
  {
    at := [];
    if events != [] {
      var before, e := events[..|events| - 1], events[|events| - 1];
      at := CapturedAre(u, before);
      assert events == before + [e];
      CapturedSnoc(u, before, e, Captured(before), at);
      if e.ToolCallStarted? { at := at + [|before|]; }
    }
  }

  lemma ExecutedSnoc(u: Surface, events: seq<AgentEvent>, e: AgentEvent, calls: seq<DestructiveCall>, at: seq<nat>)
    requires AreExecuted(u, events, calls, at)
    ensures var next := events + [e];
            if Destructive(u, e) && !Blocked(u, e)
            then AreExecuted(u, next, calls + [CallOf(next, |events|)], at + [|events|])
            else AreExecuted(u, next, calls, at)
  {
    SelectsSnoc(Ran, u, events, e, at);
    forall k | 0 <= k < |at| ensures at[k] < |events| && IsCall(events + [e], at[k], calls[k]) {
      StillCall(events, e, at[k], calls[k]);
    }
    if Destructive(u, e) { CallOfIsCall(events + [e], |events|); }
  }

  lemma {:induction false} ExecutedAre(u: Surface, events: seq<AgentEvent>) returns (at: seq<nat>)
    ensures AreExecuted(u, events, Executed(u, events), at)
  {
    at := [];
    if events != [] {
      var before, e := events[..|events| - 1], events[|events| - 1];
      at := ExecutedAre(u, before);
      assert events == before + [e];
      ExecutedSnoc(u, before, e, Executed(u, before), at);
      if Destructive(u, e) && !Blocked(u, e) { at := at + [|before|]; }
    }
  }

  lemma CardsSnoc(u: Surface, events: seq<AgentEvent>, e: AgentEvent, cards: seq<(string, string)>, at: seq<nat>)
    requires AreCards(u, events, cards, at)
    ensures if IsOf(Shown, u, e)
            then AreCards(u, events + [e], cards + [(e.name, u.render(e.name, RawOf(e)))], at + [|events|])
            else AreCards(u, events + [e], cards, at)
  {
    SelectsSnoc(Shown, u, events, e, at);
  }

  lemma {:induction false} CardsAre(u: Surface, events: seq<AgentEvent>) returns (at: seq<nat>)
    ensures AreCards(u, events, Cards(u, events), at)
  {
    at := [];
    if events != [] {
      var before, e := events[..|events| - 1], events[|events| - 1];
      at := CardsAre(u, before);
      assert events == before + [e];
      CardsSnoc(u, before, e, Cards(u, before), at);
      if IsOf(Shown, u, e) { at := at + [|before|]; }
    }
  }

  lemma FinalSnoc(u: Surface, events: seq<AgentEvent>, e: AgentEvent, text: Option<string>)
    requires IsFinal(u, events, text)
    ensures IsFinal(u, events + [e], if e.FinalMessage? then Some(u.strip(e.text)) else text)
  {
    var next := events + [e];
    if e.FinalMessage? {
      assert next[|events|] == e;
    } else if text.Some? {
      var i :| 0 <= i < |events| && events[i].FinalMessage? && text.value == u.strip(events[i].text)
               && forall j :: i < j < |events| ==> !events[j].FinalMessage?;
      assert next[i] == events[i];
    }
  }

  lemma {:induction false} FinalIs(u: Surface, events: seq<AgentEvent>)
    ensures IsFinal(u, events, FinalText(u, events))
  {
    if events != [] {
      var before, e := events[..|events| - 1], events[|events| - 1];
      FinalIs(u, before);
      FinalSnoc(u, before, e, FinalText(u, before));
      assert events == before + [e];
    }
  }

  lemma ExtendProposal(u: Surface, events: seq<AgentEvent>, e: AgentEvent, p: Option<DestructiveCall>)
    requires IsLastProposal(u, events, p)
    ensures var next := events + [e];
            IsLastProposal(u, next, if Blocked(u, e) then Some(CallOf(next, |events|)) else p)
  {
    var next := events + [e];
    if !Blocked(u, e) && p.Some? {
      var i: nat :| i < |events| && Blocked(u, events[i]) && IsCall(events, i, p.value)
                    && forall j :: i < j < |events| ==> !Blocked(u, events[j]);
      StillCall(events, e, i, p.value);
      assert Blocked(u, next[i]);
    } else if Blocked(u, e) {
      CallOfIsCall(next, |events|);
    }
  }
}
