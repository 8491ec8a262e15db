/** One proposal, one turn: over any history of the cockpit, across all sessions, a turn
  * may run destructive tools only on the strength of one earlier turn of its session. */
module CockpitHistory {
  import opened Wrappers
  import opened PyRepr
  import opened AgentEvents
  import opened Bubble
  import opened Cockpit

  /** What happens to the store, as far as the pending rows are concerned. A turn records
    * whether it got past its user row, how its consume ended and what it staged. */
  datatype Op =
    | Turn(session: string, passed: bool, consume: Reply, staged: Option<Pending>)
    | IntentTurn(session: string)
    | Reset(session: string, deleteMessages: Reply)
    | NewSession(from: string)
    | SwitchSession(to: string)

  /** The op a turn was, read off its report. */
  function OpOf(session: string, replies: Replies, report: Report): Op {
    Turn(session, report.passed, replies.consume, report.staged)
  }

  function Apply(pending: map<string, Pending>, op: Op): map<string, Pending> {
    match op
    case Turn(s, passed, consume, staged) => AfterTurn(pending, s, passed, consume, staged)
    case Reset(s, deleteMessages) => if TakesEffect(deleteMessages) then pending - {s} else pending
    case _ => pending
  }

  /** The pending rows before op n. */
  function Before(ops: seq<Op>, n: nat): map<string, Pending>
    requires n <= |ops|
  {
    if n == 0 then map[] else Apply(Before(ops, n - 1), ops[n - 1])
  }

  // ---- The methods perform these ops ----

  /** A turn of the REPL changes the pending rows as its op does, and is allowed exactly by
    * the default or by a row it could consume. */
  method PerformTurn(store: Store, u: Surface, session: string, line: string, allowDefault: bool,
                     run: Agent, replies: Replies) returns (report: Report)
    requires store.Valid()
    modifies store
    ensures store.Valid()
    ensures store.pending == Apply(old(store.pending), OpOf(session, replies, report))
    ensures report.allowed ==
              (report.passed && (allowDefault || (replies.consume == Applied && session in old(store.pending))))
    ensures report.passed && replies.consume == Applied && session in old(store.pending) ==>
              report.section == Some(Section(SECTION_HEAD, old(store.pending)[session], SECTION_TAIL))
  {
    ghost var proposal;
    report, proposal := DriveTurn(store, u, session, line, allowDefault, run, replies);
  }

  /** The op a typed line is. */
  function OpOfLine(session: string, route: Route, replies: Replies, r: LineReplies, report: Option<Report>,
                    active: string): Option<Op>
  {
    if report.Some? then Some(OpOf(session, replies, report.value))
    else
      match route
      case Intent(_) => Some(IntentTurn(session))
      case Slash(cmd, _) =>
        if cmd == "/reset" then Some(Reset(session, r.deleteMessages))
        else if cmd == "/new" then Some(NewSession(session))
        else if cmd == "/switch" then Some(SwitchSession(active))
        else None
      case _ => None
  }

  /** Whatever the operator types, the pending rows change as one op of the history, or not at
    * all; and a turn is allowed exactly by a row it could consume. */
  method PerformLine(store: Store, u: Surface, w: World, session: string, line: string,
                     run: Agent, replies: Replies, r: LineReplies)
    returns (op: Option<Op>, allowed: bool, active: string)
    requires store.Valid()
    modifies store
    ensures store.Valid()
    ensures store.pending == if op.Some? then Apply(old(store.pending), op.value) else old(store.pending)
    ensures var route := RouteOf(line, w.intent);
            (route == Confirm || route == Ask) <==> op.Some? && op.value.Turn?
    ensures op.Some? && op.value.Turn? ==> op.value.session == session && op.value.consume == replies.consume
    ensures allowed == (op.Some? && op.value.Turn? && op.value.passed && op.value.consume == Applied
                        && session in old(store.pending))
  {
    var report;
    report, active := DriveLine(store, u, w, session, line, run, replies, r);
    op := OpOfLine(session, RouteOf(line, w.intent), replies, r, report, active);
    allowed := report.Some? && report.value.allowed;
  }

  // ---- Which staging a turn runs on ----

  ghost predicate StagesOn(op: Op, s: string) {
    op.Turn? && op.session == s && op.passed && op.staged.Some?
  }

  /** The op takes the session's row away, without regard to what it then stages. */
  ghost predicate Clears(op: Op, s: string) {
    || (op.Turn? && op.session == s && op.passed && TakesEffect(op.consume))
    || (op.Reset? && op.session == s && TakesEffect(op.deleteMessages))
  }

  /** Op j staged for s, and nothing since took that row away or replaced it. */
  ghost predicate InForce(ops: seq<Op>, j: nat, n: nat, s: string)
    requires n <= |ops|
  {
    && j < n && StagesOn(ops[j], s)
    && forall k :: j < k < n ==> !Clears(ops[k], s) && !StagesOn(ops[k], s)
  }

  /** At most one staging is in force, and the row is exactly what it staged. */
  lemma {:induction false} RowIsStagingInForce(ops: seq<Op>, n: nat, s: string)
    requires n <= |ops|
    ensures s in Before(ops, n) <==> exists j: nat :: InForce(ops, j, n, s)
    ensures forall j: nat :: InForce(ops, j, n, s) ==> s in Before(ops, n) && Before(ops, n)[s] == ops[j].staged.value
  {
    if n > 0 {
      var op := ops[n - 1];
      RowIsStagingInForce(ops, n - 1, s);
      forall j: nat
        ensures InForce(ops, j, n, s) <==>
                  if j == n - 1 then StagesOn(op, s)
                  else InForce(ops, j, n - 1, s) && !Clears(op, s) && !StagesOn(op, s)
      { }
      if StagesOn(op, s) {
        assert InForce(ops, n - 1, n, s);
      } else if s in Before(ops, n) {
        var j: nat :| InForce(ops, j, n - 1, s);
        assert InForce(ops, j, n, s);
      }
    }
  }

  /** Op n is a turn allowed to run destructive tools, the default being off. */
  ghost predicate Allowed(ops: seq<Op>, n: nat)
    requires n < |ops|
  {
    ops[n].Turn? && ops[n].passed && ops[n].consume == Applied && ops[n].session in Before(ops, n)
  }

  /** A turn whose consume is answered runs with destructive tools allowed if and only if
    * a staging for its own session is in force. */
  lemma AllowedIffInForce(ops: seq<Op>, n: nat)
    requires n < |ops| && ops[n].Turn? && ops[n].passed && ops[n].consume == Applied
    ensures Allowed(ops, n) <==> exists j: nat :: InForce(ops, j, n, ops[n].session)
  {
    RowIsStagingInForce(ops, n, ops[n].session);
  }

  /** Turn j of session s got past its consume step. */
  ghost predicate Consumed(op: Op, s: string) {
    op.Turn? && op.session == s && op.passed
  }

  /** The latest turn of s before n that got past its consume step, if it is j. */
  ghost predicate Latest(ops: seq<Op>, j: nat, n: nat, s: string)
    requires n <= |ops|
  {
    j < n && Consumed(ops[j], s) && forall k :: j < k < n ==> !Consumed(ops[k], s)
  }

  /** With no consume failing, a turn is allowed if and only if the latest earlier turn of
    * its session that got past its consume step staged a proposal, and no reset of the
    * session came between. Other sessions, intent turns, /new and /switch do not matter. */
  lemma OneProposalOneTurn(ops: seq<Op>, n: nat)
    requires n < |ops| && ops[n].Turn? && ops[n].passed
    requires forall k :: 0 <= k <= n && ops[k].Turn? ==> ops[k].consume == Applied
    ensures var s := ops[n].session;
            Allowed(ops, n) <==>
              exists j: nat :: Latest(ops, j, n, s) && ops[j].staged.Some?
                               && forall k :: j < k < n ==> !(ops[k].Reset? && Clears(ops[k], s))
  {
    var s := ops[n].session;
    AllowedIffInForce(ops, n);
    if Allowed(ops, n) {
      var j: nat :| InForce(ops, j, n, s);
      forall k | j < k < n ensures !Consumed(ops[k], s) { assert !Clears(ops[k], s); }
      assert Latest(ops, j, n, s);
    }
    if j: nat :| Latest(ops, j, n, s) && ops[j].staged.Some?
                 && forall k :: j < k < n ==> !(ops[k].Reset? && Clears(ops[k], s)) {
      forall k | j < k < n ensures !Clears(ops[k], s) && !StagesOn(ops[k], s) { assert !Consumed(ops[k], s); }
      assert InForce(ops, j, n, s);
    }
  }

  /** A staged row is consumed at most once: two allowed turns run on different stagings. */
  lemma StagingConsumedOnce(ops: seq<Op>, j: nat, m: nat, n: nat)
    requires m < n < |ops| && Allowed(ops, m) && Allowed(ops, n) && ops[m].session == ops[n].session
    requires InForce(ops, j, m, ops[m].session)
    ensures !InForce(ops, j, n, ops[n].session)
  {
    assert Clears(ops[m], ops[n].session);
  }

  /** The prompt section of the allowed turn is that of the proposal some staging in force put
    * there, and of no other tool or arguments. */
  lemma AllowedRunsWhatWasStaged(ops: seq<Op>, n: nat)
    requires n < |ops| && Allowed(ops, n)
    ensures exists j: nat :: InForce(ops, j, n, ops[n].session)
                             && Before(ops, n)[ops[n].session] == ops[j].staged.value
    ensures forall j: nat, q: Pending ::
              InForce(ops, j, n, ops[n].session) && '`' !in ops[j].staged.value.toolName && '`' !in q.toolName
              && PlainArgs(ops[j].staged.value.args) && PlainArgs(q.args)
              && Section(SECTION_HEAD, Before(ops, n)[ops[n].session], SECTION_TAIL)
                 == Section(SECTION_HEAD, q, SECTION_TAIL)
              ==> q.toolName == ops[j].staged.value.toolName && q.args == ops[j].staged.value.args
  {
    RowIsStagingInForce(ops, n, ops[n].session);
    var j: nat :| InForce(ops, j, n, ops[n].session);
    assert Before(ops, n)[ops[n].session] == ops[j].staged.value;
    var p := Before(ops, n)[ops[n].session];
    forall k: nat, q: Pending | InForce(ops, k, n, ops[n].session) && '`' !in p.toolName && '`' !in q.toolName
                                && PlainArgs(p.args) && PlainArgs(q.args)
                                && Section(SECTION_HEAD, p, SECTION_TAIL) == Section(SECTION_HEAD, q, SECTION_TAIL)
      ensures q.toolName == p.toolName && q.args == p.args
    {
      SectionInjective(SECTION_HEAD, p, q, SECTION_TAIL);
    }
  }

  /** Whatever the operator types after a proposal, the next line of the session that the agent
    * gets takes it: while the staging is in force that turn is allowed, and a later one, a
    * /confirm included, is not unless some turn has staged again. What other sessions do, and
    * intent turns, do not matter. */
  lemma NextLineTakesProposal(ops: seq<Op>, n: nat, m: nat, l: nat, s: string)
    requires n < m < l < |ops| && InForce(ops, n, m, s)
    requires Consumed(ops[m], s) && ops[m].consume == Applied
    requires Consumed(ops[l], s) && forall k :: m <= k < l ==> !StagesOn(ops[k], s)
    ensures Allowed(ops, m) && Before(ops, m)[s] == ops[n].staged.value
    ensures !Allowed(ops, l)
  {
    RowIsStagingInForce(ops, m, s);
    RowIsStagingInForce(ops, l, s);
    assert Clears(ops[m], s);
  }

  /** Nothing of session s: no turn of it that got past its user row, and no reset of it. */
  ghost predicate Elsewhere(op: Op, s: string) {
    !Consumed(op, s) && !(op.Reset? && op.session == s)
  }

  /** So of the next two turns of the session after a staging, whatever other sessions do in
    * between, the first is allowed and the second, if the first staged nothing, is not. */
  lemma OfTwoTurnsTheFirst(ops: seq<Op>, n: nat, m: nat, l: nat, s: string)
    requires n < m < l < |ops| && StagesOn(ops[n], s)
    requires forall k :: n < k < l && k != m ==> Elsewhere(ops[k], s)
    requires Consumed(ops[m], s) && ops[m].consume == Applied && ops[m].staged.None?
    requires Consumed(ops[l], s)
    ensures Allowed(ops, m) && Before(ops, m)[s] == ops[n].staged.value
    ensures !Allowed(ops, l)
  {
    forall k | n < k < l && k != m ensures !Clears(ops[k], s) && !StagesOn(ops[k], s) {
      assert Elsewhere(ops[k], s);
    }
    assert InForce(ops, n, m, s);
    NextLineTakesProposal(ops, n, m, l, s);
  }

  /** A failed consume lets an old proposal outlive a turn: staged by turn 0, its row
    * survives turn 1, and turn 2 runs on it. */
  lemma FailedConsumeKeepsProposal(p: Pending, s: string)
    ensures var ops := [Turn(s, true, Applied, Some(p)), Turn(s, true, Refused, None), Turn(s, true, Applied, None)];
            Allowed(ops, 2) && Latest(ops, 1, 2, s) && ops[1].staged.None?
  {
    var ops := [Turn(s, true, Applied, Some(p)), Turn(s, true, Refused, None), Turn(s, true, Applied, None)];
    assert Before(ops, 0) == map[];
    assert Before(ops, 1) == map[s := p];
    assert Before(ops, 2) == map[s := p];
  }
}
