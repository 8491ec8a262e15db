/** The cockpit's session store, and one turn of the REPL against it: consume what is
  * pending, run the agent, stage what was blocked. */
module Cockpit {
  import opened Wrappers
  import opened PyRepr
  import opened AgentEvents
  import opened Bubble
  import EnvFile

  // ---- The store ----

  datatype Message = Message(session: string, role: string, content: string)

  /** The staged proposal of a session. */
  datatype Pending = Pending(toolName: string, args: seq<Field>, messageId: nat)

  /** How a statement ends: it takes effect and says so, fails, or takes effect while the
    * caller gets an error. */
  datatype Reply = Applied | Refused | AppliedButError

  predicate TakesEffect(r: Reply) {
    r != Refused
  }

  datatype Error = DbError | NotFound

  /** `cockpit.session` (to its state), `cockpit.message`, `cockpit.pending_destructive`
    * (keyed by session). */
  class Store {
    var sessions: map<string, string>
    var messages: map<nat, Message>
    var nextId: nat
    var pending: map<string, Pending>

    /** The foreign keys: a pending row names a message of its own session. */
    ghost predicate Valid()
      reads this
    {
      && (forall m :: m in messages ==> m < nextId)
      && (forall s :: s in pending ==>
            pending[s].messageId in messages && messages[pending[s].messageId].session == s)
    }

    constructor ()
      ensures Valid() && sessions == map[] && messages == map[] && pending == map[]
    {
      sessions, messages, nextId, pending := map[], map[], 0, map[];
    }

    /** Store.open: a fresh session row, nothing else; a taken id breaks the primary key. */
    method Open(id: string, reply: Reply) returns (r: Result<string, Error>)
      requires Valid()
      modifies this
      ensures Valid() && messages == old(messages) && pending == old(pending)
      ensures sessions == if TakesEffect(reply) && id !in old(sessions) then old(sessions)[id := "active"]
                          else old(sessions)
      ensures r == if reply == Applied && id !in old(sessions) then Ok(id) else Err(DbError)
    {
      if id in sessions { return Err(DbError); }
      if TakesEffect(reply) { sessions := sessions[id := "active"]; }
      r := if reply == Applied then Ok(id) else Err(DbError);
    }

    /** Store.resume: finds the row; a closed session can be resumed too. */
    method Resume(id: string, reply: Reply) returns (r: Result<string, Error>)
      requires Valid()
      ensures r == if id !in sessions then Err(NotFound) else if reply == Applied then Ok(id) else Err(DbError)
    {
      if id !in sessions { return Err(NotFound); }
      r := if reply == Applied then Ok(id) else Err(DbError);
    }

    /** Conversation.close. */
    method Close(session: string, reply: Reply)
      requires Valid()
      modifies this
      ensures Valid() && messages == old(messages) && pending == old(pending)
      ensures sessions == if TakesEffect(reply) && session in old(sessions) then old(sessions)[session := "closed"]
                          else old(sessions)
    {
      if TakesEffect(reply) && session in sessions { sessions := sessions[session := "closed"]; }
    }

    /** append_message: insert, then touch the session; an error of either is an error. */
    method Append(session: string, role: string, content: string, insert: Reply, touch: Reply)
      returns (r: Result<nat, Error>)
      requires Valid()
      modifies this
      ensures Valid() && sessions == old(sessions) && pending == old(pending)
      ensures messages == if TakesEffect(insert) then old(messages)[old(nextId) := Message(session, role, content)]
                          else old(messages)
      ensures r == if insert == Applied && touch == Applied then Ok(old(nextId)) else Err(DbError)
      ensures nextId == old(nextId) + if TakesEffect(insert) then 1 else 0
    {
      var id := nextId;
      if TakesEffect(insert) {
        messages := messages[id := Message(session, role, content)];
        nextId := nextId + 1;
      }
      r := if insert == Applied && touch == Applied then Ok(id) else Err(DbError);
    }

    /** Conversation.reset: delete the messages, which takes the pending row along by its
      * foreign key, then delete the pending row again. */
    method Reset(session: string, deleteMessages: Reply, deletePending: Reply) returns (ok: bool)
      requires Valid()
      modifies this
      ensures Valid() && sessions == old(sessions)
      ensures pending == if TakesEffect(deleteMessages) then old(pending) - {session} else old(pending)
      ensures messages == if TakesEffect(deleteMessages)
                          then map m | m in old(messages) && old(messages)[m].session != session :: old(messages)[m]
                          else old(messages)
      ensures ok == (deleteMessages == Applied && deletePending == Applied)
    {
      if TakesEffect(deleteMessages) {
        messages := map m | m in messages && messages[m].session != session :: messages[m];
        pending := map s | s in pending && pending[s].messageId in messages :: pending[s];
        assert pending == old(pending) - {session};
      }
      if deleteMessages != Applied { return false; }
      if TakesEffect(deletePending) { pending := pending - {session}; }
      ok := deletePending == Applied;
    }

    /** set_pending_destructive: insert or replace the session's row. */
    method SetPending(session: string, p: Pending, reply: Reply) returns (ok: bool)
      requires Valid() && p.messageId in messages && messages[p.messageId].session == session
      modifies this
      ensures Valid() && sessions == old(sessions) && messages == old(messages) && nextId == old(nextId)
      ensures pending == if TakesEffect(reply) then old(pending)[session := p] else old(pending)
      ensures ok == (reply == Applied)
    {
      if TakesEffect(reply) { pending := pending[session := p]; }
      ok := reply == Applied;
    }

    /** consume_pending_destructive: delete the session's row and return it. The caller
      * reads an error as nothing pending. */
    method Consume(session: string, reply: Reply) returns (r: Option<Pending>)
      requires Valid()
      modifies this
      ensures Valid() && sessions == old(sessions) && messages == old(messages) && nextId == old(nextId)
      ensures pending == if TakesEffect(reply) then old(pending) - {session} else old(pending)
      ensures r == if reply == Applied && session in old(pending) then Some(old(pending)[session]) else None
    {
      r := if reply == Applied && session in pending then Some(pending[session]) else None;
      if TakesEffect(reply) { pending := pending - {session}; }
    }

    /** peek_pending_destructive: look without deleting. */
    method Peek(session: string, reply: Reply) returns (r: Option<Pending>)
      requires Valid()
      ensures r == if reply == Applied && session in pending then Some(pending[session]) else None
    {
      r := if reply == Applied && session in pending then Some(pending[session]) else None;
    }
  }

  // ---- One turn ----

  /** What the agent reports, told whether destructive tools are allowed and the prompt section
    * about a confirmed proposal. */
  type Agent = (bool, Option<string>) -> seq<AgentEvent>

  /** The replies to the statements of one turn. `row` is the assistant row. */
  datatype Replies = Replies(user: Reply, userTouch: Reply, consume: Reply, cards: nat -> Reply,
                             row: Reply, rowTouch: Reply, stage: Reply)

  /** What became of a turn: whether it got past its user row, whether destructive tools
    * were allowed, the proposal in force and the prompt section about it, what it staged, and
    * the assistant text. */
  datatype Report = Report(passed: bool, allowed: bool, consumed: Option<Pending>, section: Option<string>,
                           staged: Option<Pending>, text: Option<string>)

  // ---- The prompt's section about the proposal ----

  const SECTION_HEAD: string :=
    "## Confirmed destructive action\n\nThe operator typed `/confirm` for the prior propose. "
    + "You are now authorised to call exactly:\n\n- tool: `"
  const SECTION_TAIL: string :=
    "\n\nRun it. Surface the result. Do not call any other destructive tool on this turn."

  /** What build_cockpit_prompt says of a consumed proposal. */
  function Section(head: string, p: Pending, tail: string): string {
    head + (p.toolName + (['`'] + ("\n- args: " + (ArgsLine(p.args) + tail))))
  }

  function SectionOf(consumed: Option<Pending>): Option<string> {
    if consumed.Some? then Some(Section(SECTION_HEAD, consumed.value, SECTION_TAIL)) else None
  }

  /** The section names one tool and one ordered list of arguments. */
  lemma SectionInjective(head: string, p: Pending, q: Pending, tail: string)
    requires '`' !in p.toolName && '`' !in q.toolName && PlainArgs(p.args) && PlainArgs(q.args)
    requires Section(head, p, tail) == Section(head, q, tail)
    ensures p.toolName == q.toolName && p.args == q.args
  {
    var a, b := "\n- args: " + (ArgsLine(p.args) + tail), "\n- args: " + (ArgsLine(q.args) + tail);
    SameAfter(head, p.toolName + (['`'] + a), q.toolName + (['`'] + b));
    SplitAt('`', p.toolName, a, q.toolName, b);
    SameAfter("\n- args: ", ArgsLine(p.args) + tail, ArgsLine(q.args) + tail);
    SameBefore(ArgsLine(p.args), ArgsLine(q.args), tail);
    ArgsLineInjective(p.args, q.args);
  }

  lemma SameAfter(head: string, a: string, b: string)
    requires head + a == head + b
    ensures a == b
  {
    assert (head + a)[|head|..] == a && (head + b)[|head|..] == b;
  }

  lemma SameBefore(a: string, b: string, tail: string)
    requires a + tail == b + tail
    ensures a == b
  {
    assert |a| == |b| && (a + tail)[..|a|] == a && (b + tail)[..|b|] == b;
  }

  const ERROR_TEXT: string := "(error: Sorry — something went wrong. Please try again.)"

  /** The turn's blocked call is staged: no error, a final message, and the assistant row
    * and the pending row written. */
  predicate Stages(u: Surface, events: seq<AgentEvent>, proposal: Option<DestructiveCall>, replies: Replies) {
    && proposal.Some? && !Errored(events) && FinalText(u, events).Some?
    && replies.row == Applied && replies.rowTouch == Applied && TakesEffect(replies.stage)
  }

  /** What is staged is the last blocked destructive call of the turn: its tool, with the args the
    * agent gave the call with that id when it last started it. */
  ghost predicate StagedFrom(u: Surface, events: seq<AgentEvent>, p: Pending) {
    exists i: nat, args: Json ::
      && i < |events| && Blocked(u, events[i]) && (forall j :: i < j < |events| ==> !Blocked(u, events[j]))
      && p.toolName == events[i].name && Given(events, i, events[i].callId, args)
      && p.args == if args.JObject? then args.fields else []
  }

  lemma StagedIsLastBlocked(u: Surface, events: seq<AgentEvent>, call: DestructiveCall, p: Pending)
    requires IsLastProposal(u, events, Some(call))
    requires p.toolName == call.name && p.args == FieldsOf(call.args)
    ensures StagedFrom(u, events, p)
  {
    var i: nat :| i < |events| && Blocked(u, events[i]) && IsCall(events, i, call)
                  && forall j :: i < j < |events| ==> !Blocked(u, events[j]);
    assert Given(events, i, events[i].callId, call.args);
  }

  ghost predicate RowPersisted(messages: map<nat, Message>, id: nat, session: string, text: string) {
    id in messages && messages[id] == Message(session, "assistant", text)
  }

  /** The messages after a turn. */
  function Transcript(messages: map<nat, Message>, next: nat, session: string, line: string, report: Report,
                      cards: seq<(string, string)>, errored: bool, replies: Replies): map<nat, Message>
  {
    var (m1, id1) := if TakesEffect(replies.user) then (messages[next := Message(session, "user", line)], next + 1)
                     else (messages, next);
    if !report.passed then m1
    else
      var (m2, id2) := WithCards(m1, id1, session, cards, replies.cards, |cards|);
      WithAnswer(m2, id2, session, report.text, errored, replies.row)
  }

  /** The assistant row of a turn: the error notice, the bubble, or none. */
  function WithAnswer(messages: map<nat, Message>, next: nat, session: string, text: Option<string>, errored: bool,
                      row: Reply): map<nat, Message>
  {
    if !TakesEffect(row) then messages
    else if errored then messages[next := Message(session, "assistant", ERROR_TEXT)]
    else if text.Some? then messages[next := Message(session, "assistant", text.value)]
    else messages
  }

  /** The part of drive_turn after its event loop. */
  method EndTurn(store: Store, u: Surface, session: string, g: Gathered, replies: Replies)
    returns (text: Option<string>, staged: Option<Pending>)
    requires store.Valid()
    modifies store
    ensures store.Valid() && store.sessions == old(store.sessions)
    ensures text == if g.errored || g.finalText.None? then None
                    else Some(BubbleText(u.filters, g.finalText.value, g.captured, g.proposal, g.executed))
    ensures staged.Some? == (g.proposal.Some? && text.Some? && replies.row == Applied && replies.rowTouch == Applied
                             && TakesEffect(replies.stage))
    ensures staged.Some? ==>
              && staged.value.toolName == g.proposal.value.name && staged.value.args == FieldsOf(g.proposal.value.args)
              && RowPersisted(store.messages, staged.value.messageId, session, text.value)
    ensures store.pending == if staged.Some? then old(store.pending)[session := staged.value] else old(store.pending)
    ensures store.messages == WithAnswer(old(store.messages), old(store.nextId), session, text, g.errored, replies.row)
  {
    text, staged := None, None;
    if g.errored {
      var _ := store.Append(session, "assistant", ERROR_TEXT, replies.row, replies.rowTouch);
      return;
    }
    if g.finalText.None? { return; }
    var outcome := FinalizeBubble(u.filters, g.finalText.value, g.captured, g.proposal, g.executed);
    text := Some(outcome.text);
    var row := store.Append(session, "assistant", outcome.text, replies.row, replies.rowTouch);
    if g.proposal.Some? && row.Ok? {
      var p := Pending(g.proposal.value.name, FieldsOf(g.proposal.value.args), row.value);
      var ok := store.SetPending(session, p, replies.stage);
      if TakesEffect(replies.stage) { staged := Some(p); }
    }
  }

  /** The pending rows after a turn: one that got past its user row takes the session's row away,
    * unless the delete fails, and may then stage another. */
  function AfterTurn(pending: map<string, Pending>, session: string, passed: bool, consume: Reply,
                     staged: Option<Pending>): map<string, Pending>
  {
    if !passed then pending
    else
      var left := if TakesEffect(consume) then pending - {session} else pending;
      if staged.Some? then left[session := staged.value] else left
  }

  /** What drive_turn makes of the events: the cards, the answer, and what it stages. */
  method AnswerTurn(store: Store, u: Surface, session: string, events: seq<AgentEvent>, replies: Replies)
    returns (text: Option<string>, staged: Option<Pending>, ghost proposal: Option<DestructiveCall>)
    requires store.Valid()
    modifies store
    ensures store.Valid() && store.sessions == old(store.sessions)
    ensures store.pending == if staged.Some? then old(store.pending)[session := staged.value] else old(store.pending)
    ensures IsLastProposal(u, events, proposal) && staged.Some? == Stages(u, events, proposal, replies)
    ensures staged.Some? ==>
              && text.Some? && proposal.Some? && StagedFrom(u, events, staged.value)
              && staged.value.toolName == proposal.value.name && staged.value.args == FieldsOf(proposal.value.args)
              && RowPersisted(store.messages, staged.value.messageId, session, text.value)
    ensures text.Some? <==> !Errored(events) && FinalText(u, events).Some?
    ensures text.Some? ==>
              text.value == BubbleText(u.filters, FinalText(u, events).value, Captured(events), proposal,
                                       Executed(u, events))
    ensures var cards := Cards(u, events);
            var (shown, next) :=
              WithCards(old(store.messages), old(store.nextId), session, cards, replies.cards, |cards|);
            store.messages == WithAnswer(shown, next, session, text, Errored(events), replies.row)
  {
    var g := Gather(u, events);
    proposal := g.proposal;
    AppendCards(store, session, g.cards, replies.cards);
    text, staged := EndTurn(store, u, session, g, replies);
    if staged.Some? { StagedIsLastBlocked(u, events, proposal.value, staged.value); }
  }

  /** drive_turn. `run` is what the agent would report with and without permission, told the
    * section or not. */
  method DriveTurn(store: Store, u: Surface, session: string, line: string, allowDefault: bool,
                   run: Agent, replies: Replies)
    returns (report: Report, ghost proposal: Option<DestructiveCall>)
    requires store.Valid()
    modifies store
    ensures store.Valid() && store.sessions == old(store.sessions)
    ensures report.passed == (replies.user == Applied && replies.userTouch == Applied)
    ensures !report.passed ==> !report.allowed && report.staged.None?
    ensures store.pending == AfterTurn(old(store.pending), session, report.passed, replies.consume, report.staged)
    // permission is the default, or exactly what was staged for this session
    ensures report.passed ==>
              && report.consumed == (if replies.consume == Applied && session in old(store.pending)
                                     then Some(old(store.pending)[session]) else None)
              && report.allowed == (allowDefault || report.consumed.Some?)
              && report.section == SectionOf(report.consumed)
    // what the turn leaves staged
    ensures report.passed ==>
              && IsLastProposal(u, run(report.allowed, report.section), proposal)
              && report.staged.Some? == Stages(u, run(report.allowed, report.section), proposal, replies)
              && (report.staged.Some? ==>
                    && report.staged.value.toolName == proposal.value.name
                    && report.staged.value.args == FieldsOf(proposal.value.args)
                    && StagedFrom(u, run(report.allowed, report.section), report.staged.value))
    // the transcript: the user's line, the cards, and the assistant's text
    ensures var events := run(report.allowed, report.section);
            && store.messages == Transcript(old(store.messages), old(store.nextId), session, line, report,
                                            Cards(u, events), Errored(events), replies)
            && (report.text.Some? <==> report.passed && !Errored(events) && FinalText(u, events).Some?)
            && (report.text.Some? ==>
                  report.text.value == BubbleText(u.filters, FinalText(u, events).value, Captured(events), proposal,
                                                  Executed(u, events)))
    // the bubble that goes with it
    ensures report.staged.Some? ==>
              && report.text.Some? && proposal.Some?
              && RowPersisted(store.messages, report.staged.value.messageId, session, report.text.value)
  {
    proposal := None;
    report := Report(false, false, None, None, None, None);
    var appended := store.Append(session, "user", line, replies.user, replies.userTouch);
    if appended.Err? { return; }
    var pending := store.Consume(session, replies.consume);
    var allow := allowDefault || pending.Some?;
    var section := SectionOf(pending);
    var text, staged;
    text, staged, proposal := AnswerTurn(store, u, session, run(allow, section), replies);
    report := Report(true, allow, pending, section, staged, text);
  }

  /** The messages and the next id after the first n tool rows of a turn. */
  function WithCards(messages: map<nat, Message>, next: nat, session: string, cards: seq<(string, string)>,
                     reply: nat -> Reply, n: nat): (map<nat, Message>, nat)
    requires n <= |cards|
  {
    if n == 0 then (messages, next)
    else
      var (before, id) := WithCards(messages, next, session, cards, reply, n - 1);
      if TakesEffect(reply(n - 1)) then (before[id := Message(session, "tool", cards[n - 1].1)], id + 1)
      else (before, id)
  }

  /** These rows, and no others, have come after what there was. */
  ghost predicate RowsAdded(was: map<nat, Message>, next: nat, now: map<nat, Message>, rows: seq<Message>) {
    && (forall m :: m in now <==> m in was || next <= m < next + |rows|)
    && (forall m :: m in was ==> now[m] == was[m])
    && (forall k :: 0 <= k < |rows| ==> now[next + k] == rows[k])
  }

  lemma RowAdded(was: map<nat, Message>, next: nat, now: map<nat, Message>, rows: seq<Message>, row: Message)
    requires RowsAdded(was, next, now, rows) && forall m :: m in was ==> m < next
    ensures RowsAdded(was, next, now[next + |rows| := row], rows + [row])
  {
  }

  function CardRows(session: string, cards: seq<(string, string)>): (rows: seq<Message>)
    ensures |rows| == |cards|
  {
    seq(|cards|, k requires 0 <= k < |cards| => Message(session, "tool", cards[k].1))
  }

  lemma {:induction false} AllCards(was: map<nat, Message>, next: nat, messages: map<nat, Message>, rows: seq<Message>,
                                    session: string, cards: seq<(string, string)>, reply: nat -> Reply, n: nat)
    requires n <= |cards| && forall m :: m in was ==> m < next
    requires RowsAdded(was, next, messages, rows) && forall k :: 0 <= k < n ==> TakesEffect(reply(k))
    ensures var (after, id) := WithCards(messages, next + |rows|, session, cards, reply, n);
            id == next + |rows| + n && RowsAdded(was, next, after, rows + CardRows(session, cards[..n]))
  {
    if n == 0 {
      assert rows + CardRows(session, cards[..0]) == rows;
    } else {
      AllCards(was, next, messages, rows, session, cards, reply, n - 1);
      var before, row := WithCards(messages, next + |rows|, session, cards, reply, n - 1).0,
                         Message(session, "tool", cards[n - 1].1);
      RowAdded(was, next, before, rows + CardRows(session, cards[..n - 1]), row);
      assert rows + CardRows(session, cards[..n]) == rows + CardRows(session, cards[..n - 1]) + [row];
    }
  }

  /** The transcript of a turn whose rows are all written: after what there was, the operator's line,
    * the cards in order, and the assistant's text or the error notice. */
  lemma TranscriptInOrder(messages: map<nat, Message>, next: nat, session: string, line: string, report: Report,
                          cards: seq<(string, string)>, errored: bool, replies: Replies)
    requires forall m :: m in messages ==> m < next
    requires report.passed && (errored || report.text.Some?)
    requires TakesEffect(replies.user) && TakesEffect(replies.row)
    requires forall k :: 0 <= k < |cards| ==> TakesEffect(replies.cards(k))
    ensures var answer := Message(session, "assistant", if errored then ERROR_TEXT else report.text.value);
            RowsAdded(messages, next, Transcript(messages, next, session, line, report, cards, errored, replies),
                      [Message(session, "user", line)] + CardRows(session, cards) + [answer])
  {
    var question := Message(session, "user", line);
    var answer := Message(session, "assistant", if errored then ERROR_TEXT else report.text.value);
    CardsInOrder(messages, next, question, session, cards, replies.cards);
    var (shown, id) := WithCards(messages[next := question], next + 1, session, cards, replies.cards, |cards|);
    RowAdded(messages, next, shown, [question] + CardRows(session, cards), answer);
    assert Transcript(messages, next, session, line, report, cards, errored, replies) == shown[id := answer];
  }

  lemma CardsInOrder(messages: map<nat, Message>, next: nat, question: Message, session: string,
                     cards: seq<(string, string)>, reply: nat -> Reply)
    requires forall m :: m in messages ==> m < next
    requires forall k :: 0 <= k < |cards| ==> TakesEffect(reply(k))
    ensures var (shown, id) := WithCards(messages[next := question], next + 1, session, cards, reply, |cards|);
            id == next + 1 + |cards| && RowsAdded(messages, next, shown, [question] + CardRows(session, cards))
  {
    RowAdded(messages, next, messages, [], question);
    assert [] + [question] == [question] && cards[..|cards|] == cards;
    AllCards(messages, next, messages[next := question], [question], session, cards, reply, |cards|);
  }

  /** The tool rows of a turn; their errors are ignored. */
  method AppendCards(store: Store, session: string, cards: seq<(string, string)>, reply: nat -> Reply)
    requires store.Valid()
    modifies store
    ensures store.Valid() && store.sessions == old(store.sessions) && store.pending == old(store.pending)
    ensures (store.messages, store.nextId)
         == WithCards(old(store.messages), old(store.nextId), session, cards, reply, |cards|)
  {
    for i := 0 to |cards|
      invariant store.Valid() && store.sessions == old(store.sessions) && store.pending == old(store.pending)
      invariant (store.messages, store.nextId)
             == WithCards(old(store.messages), old(store.nextId), session, cards, reply, i)
    {
      var _ := store.Append(session, "tool", cards[i].1, reply(i), reply(i));
    }
  }

  /** The rows of an intent turn; their errors are ignored. */
  function IntentRows(messages: map<nat, Message>, next: nat, session: string, line: string, rendered: string,
                      user: Reply, tool: Reply): map<nat, Message>
  {
    var (asked, id) := if TakesEffect(user) then (messages[next := Message(session, "user", line)], next + 1)
                       else (messages, next);
    if TakesEffect(tool) then asked[id := Message(session, "tool", rendered)] else asked
  }

  /** Both rows written: the operator's line, then the tool's answer. */
  lemma IntentRowsInOrder(messages: map<nat, Message>, next: nat, session: string, line: string, rendered: string,
                          user: Reply, tool: Reply)
    requires TakesEffect(user) && TakesEffect(tool) && forall m :: m in messages ==> m < next
    ensures RowsAdded(messages, next, IntentRows(messages, next, session, line, rendered, user, tool),
                      [Message(session, "user", line)] + [Message(session, "tool", rendered)])
  {
    var question, answer := Message(session, "user", line), Message(session, "tool", rendered);
    RowAdded(messages, next, messages, [], question);
    assert [] + [question] == [question];
    RowAdded(messages, next, messages[next := question], [question], answer);
  }

  /** drive_intent_turn: a read answered without the agent. It neither consumes nor stages. */
  method DriveIntentTurn(store: Store, session: string, line: string, rendered: string,
                         user: Reply, userTouch: Reply, tool: Reply, toolTouch: Reply)
    requires store.Valid()
    modifies store
    ensures store.Valid() && store.sessions == old(store.sessions) && store.pending == old(store.pending)
    ensures store.messages
         == IntentRows(old(store.messages), old(store.nextId), session, line, rendered, user, tool)
  {
    var _ := store.Append(session, "user", line, user, userTouch);
    var _ := store.Append(session, "tool", rendered, tool, toolTouch);
  }

  /** `/new`: close the current session, open a fresh one. Returns the active session. */
  method SlashNew(store: Store, current: string, brandNew: string, close: Reply, open: Reply) returns (active: string)
    requires store.Valid()
    modifies store
    ensures store.Valid() && store.pending == old(store.pending) && store.messages == old(store.messages)
    ensures active == if open == Applied && brandNew !in old(store.sessions) then brandNew else current
    ensures var sessions := old(store.sessions);
            var closed := if TakesEffect(close) && current in sessions then sessions[current := "closed"] else sessions;
            store.sessions == if TakesEffect(open) && brandNew !in closed then closed[brandNew := "active"] else closed
  {
    store.Close(current, close);
    var r := store.Open(brandNew, open);
    active := if r.Ok? then r.value else current;
  }

  /** `/switch`: resume another session if there is one. Returns the active session. */
  method SlashSwitch(store: Store, current: string, target: string, resume: Reply) returns (active: string)
    requires store.Valid()
    ensures active == if target != "" && target in store.sessions && resume == Applied then target else current
  {
    if target == "" { return current; }
    var r := store.Resume(target, resume);
    active := if r.Ok? then r.value else current;
  }

  // ---- What the operator typed ----

  /** Where the REPL sends a trimmed line. */
  datatype Route =
    | Skip
    | Exit
    | Help
    | Confirm
    | Slash(cmd: string, arg: string)
    | Intent(tool: string)
    | Ask

  /** The length of the first word. */
  function WordLength(line: string): (n: nat)
    ensures n <= |line|
  {
    if line == "" || EnvFile.IsSpace(line[0]) then 0 else 1 + WordLength(line[1..])
  }

  /** What follows the first word. */
  function ArgOf(line: string): string {
    var n := WordLength(line);
    if n == |line| then "" else EnvFile.Trim(line[n + 1..])
  }

  ghost predicate NoSpace(word: string) {
    forall i :: 0 <= i < |word| ==> !EnvFile.IsSpace(word[i])
  }

  lemma {:induction false} WordEnds(line: string)
    ensures var n := WordLength(line); NoSpace(line[..n]) && (n < |line| ==> EnvFile.IsSpace(line[n]))
  {
    if line != "" && !EnvFile.IsSpace(line[0]) {
      WordEnds(line[1..]);
      var n, m := WordLength(line), WordLength(line[1..]);
      forall i | 0 <= i < n ensures !EnvFile.IsSpace(line[..n][i]) {
        if i > 0 { assert line[..n][i] == line[1..][..m][i - 1]; }
      }
    }
  }

  /** A slash line is its command, which has no white space, and, if anything follows, one white
    * space and a text that trims to the argument. */
  lemma SlashParts(line: string)
    ensures var n := WordLength(line);
            && NoSpace(line[..n])
            && (n == |line| ==> ArgOf(line) == "")
            && (n < |line| ==> EnvFile.IsSpace(line[n]) && ArgOf(line) == EnvFile.Trim(line[n + 1..]))
  {
    WordEnds(line);
  }

  function RouteOf(line: string, intent: string -> Option<string>): Route {
    if line == "" then Skip
    else if line == "/exit" || line == "/quit" then Exit
    else if line == "/help" then Help
    else if line == "/confirm" then Confirm
    else if line[0] == '/' then Slash(line[..WordLength(line)], ArgOf(line))
    else if intent(line).Some? then Intent(intent(line).value)
    else Ask
  }

  /** The lines the REPL takes as commands are these words alone; a line drives a turn if and only if
    * it is /confirm, or has text, no slash in front, and is no list intent. */
  lemma RoutesIff(line: string, intent: string -> Option<string>)
    ensures RouteOf(line, intent) == Confirm <==> line == "/confirm"
    ensures RouteOf(line, intent) == Exit <==> line == "/exit" || line == "/quit"
    ensures RouteOf(line, intent) == Help <==> line == "/help"
    ensures RouteOf(line, intent) == Ask <==> line != "" && line[0] != '/' && intent(line).None?
    ensures RouteOf(line, intent).Intent? <==> line != "" && line[0] != '/' && intent(line).Some?
  {
  }

  const CONFIRM_TEXT: string :=
    "(operator typed /confirm — proceed with the prior destructive proposal now; call the tool)"

  /** Whether a line runs the agent with destructive tools allowed, the default being off. */
  predicate Permits(route: Route, staged: bool, replies: Replies) {
    && (route == Confirm || route == Ask)
    && replies.user == Applied && replies.userTouch == Applied && replies.consume == Applied && staged
  }

  /** What the REPL's loop meets outside the store: which lines are list intents, what their tools
    * answer (none if the tool is not registered), the card a slash command puts in the transcript
    * (/360 and /ports may), and the id of a new session. */
  datatype World = World(intent: string -> Option<string>, answer: string -> Option<string>,
                         card: (string, string) -> Option<string>, brandNew: string)

  /** The replies to the statements of a line that drives no turn. */
  datatype LineReplies = LineReplies(user: Reply, userTouch: Reply, tool: Reply, toolTouch: Reply, close: Reply,
                                     open: Reply, resume: Reply, deleteMessages: Reply, deletePending: Reply)

  /** The messages after a slash command. */
  function SlashMessages(messages: map<nat, Message>, next: nat, session: string, cmd: string, card: Option<string>,
                         r: LineReplies): map<nat, Message>
  {
    if cmd == "/reset" && TakesEffect(r.deleteMessages) then
      map m | m in messages && messages[m].session != session :: messages[m]
    else if (cmd == "/360" || cmd == "/ports") && card.Some? && TakesEffect(r.tool) then
      messages[next := Message(session, "tool", card.value)]
    else messages
  }

  /** The session that is active after a slash command. */
  function ActiveAfter(sessions: map<string, string>, session: string, cmd: string, arg: string, brandNew: string,
                       r: LineReplies): string
  {
    if cmd == "/new" && r.open == Applied && brandNew !in sessions then brandNew
    else if cmd == "/switch" && arg != "" && arg in sessions && r.resume == Applied then arg
    else session
  }

  /** handle_slash. */
  method HandleSlash(store: Store, w: World, session: string, cmd: string, arg: string, r: LineReplies)
    returns (active: string)
    requires store.Valid()
    modifies store
    ensures store.Valid()
    ensures store.pending == if cmd == "/reset" && TakesEffect(r.deleteMessages) then old(store.pending) - {session}
                             else old(store.pending)
    ensures store.messages == SlashMessages(old(store.messages), old(store.nextId), session, cmd, w.card(cmd, arg), r)
    ensures active == ActiveAfter(old(store.sessions), session, cmd, arg, w.brandNew, r)
  {
    active := session;
    if cmd == "/new" {
      active := SlashNew(store, session, w.brandNew, r.close, r.open);
    } else if cmd == "/switch" {
      active := SlashSwitch(store, session, arg, r.resume);
    } else if cmd == "/reset" {
      var _ := store.Reset(session, r.deleteMessages, r.deletePending);
    } else if cmd == "/360" || cmd == "/ports" {
      var card := w.card(cmd, arg);
      if card.Some? { var _ := store.Append(session, "tool", card.value, r.tool, r.toolTouch); }
    }
  }

  /** The line a turn is driven with. */
  function Prompted(route: Route, line: string): string {
    if route == Confirm then CONFIRM_TEXT else line
  }

  /** One turn of the REPL's loop, for one line. Only a question or a /confirm drives a turn; of the
    * other lines only /reset touches a proposal, and it only takes its own session's away. */
  method DriveLine(store: Store, u: Surface, w: World, session: string, line: string,
                   run: Agent, replies: Replies, r: LineReplies)
    returns (report: Option<Report>, active: string)
    requires store.Valid()
    modifies store
    ensures store.Valid()
    ensures report.Some? <==> RouteOf(line, w.intent) == Confirm || RouteOf(line, w.intent) == Ask
    ensures report.Some? ==> report.value.passed == (replies.user == Applied && replies.userTouch == Applied)
    ensures (report.Some? && report.value.allowed)
         == Permits(RouteOf(line, w.intent), session in old(store.pending), replies)
    ensures report.Some? && report.value.allowed ==>
              report.value.section == Some(Section(SECTION_HEAD, old(store.pending)[session], SECTION_TAIL))
    // the pending rows
    ensures report.Some? ==>
              store.pending == AfterTurn(old(store.pending), session, report.value.passed, replies.consume,
                                         report.value.staged)
    ensures report.None? ==>
              var route := RouteOf(line, w.intent);
              store.pending == if route.Slash? && route.cmd == "/reset" && TakesEffect(r.deleteMessages)
                               then old(store.pending) - {session} else old(store.pending)
    // the transcript
    ensures var route, next, was := RouteOf(line, w.intent), old(store.nextId), old(store.messages);
            match route
            case Slash(cmd, arg) => store.messages == SlashMessages(was, next, session, cmd, w.card(cmd, arg), r)
            case Intent(tool) =>
              store.messages == if w.answer(tool).None? then was
                                else IntentRows(was, next, session, line, w.answer(tool).value, r.user, r.tool)
            case Skip => store.messages == was
            case Exit => store.messages == was
            case Help => store.messages == was
            case _ => report.Some? && Recorded(was, next, store.messages, u, session, Prompted(route, line),
                                               report.value, run, replies)
    // the active session
    ensures var route := RouteOf(line, w.intent);
            active == if route.Slash?
                      then ActiveAfter(old(store.sessions), session, route.cmd, route.arg, w.brandNew, r)
                      else session
  {
    report, active := None, session;
    match RouteOf(line, w.intent) {
      case Confirm =>
        var confirmed, _ := DriveTurn(store, u, session, CONFIRM_TEXT, false, run, replies);
        report := Some(confirmed);
      case Ask =>
        var asked, _ := DriveTurn(store, u, session, line, false, run, replies);
        report := Some(asked);
      case Slash(cmd, arg) =>
        active := HandleSlash(store, w, session, cmd, arg, r);
      case Intent(tool) =>
        var answer := w.answer(tool);
        if answer.Some? {
          DriveIntentTurn(store, session, line, answer.value, r.user, r.userTouch, r.tool, r.toolTouch);
        }
      case _ =>
    }
  }

  /** The transcript of the turn that was reported. */
  ghost predicate Recorded(was: map<nat, Message>, next: nat, messages: map<nat, Message>, u: Surface, session: string,
                           line: string, report: Report, run: Agent,
                           replies: Replies)
  {
    var events := run(report.allowed, report.section);
    messages == Transcript(was, next, session, line, report, Cards(u, events), Errored(events), replies)
  }

  /** Nothing but a typed /confirm lets this line run destructive tools. */
  ghost predicate OnlyConfirmPermits(line: string, intent: string -> Option<string>) {
    forall staged: bool, replies: Replies :: Permits(RouteOf(line, intent), staged, replies) ==> line == "/confirm"
  }

  /** That holds of a line if and only if the REPL does not send it to the agent as a question:
    * it is empty, starts with a slash, or matches a list intent. Every other line, a refusal
    * included, takes the staged proposal and runs with destructive tools allowed. */
  lemma OnlyConfirmPermitsIff(line: string, intent: string -> Option<string>)
    ensures OnlyConfirmPermits(line, intent) <==> line == "" || line[0] == '/' || intent(line).Some?
  {
    var replies := Replies(Applied, Applied, Applied, _ => Applied, Applied, Applied, Applied);
    assert Permits(Confirm, true, replies) && Permits(Ask, true, replies);
    if line != "" && line[0] != '/' && intent(line).None? {
      assert RouteOf(line, intent) == Ask && line != "/confirm";
      assert Permits(RouteOf(line, intent), true, replies);
    }
  }
}
