/** What the relay's tick loop achieves: with every publish succeeding it is
  * sort-and-publish, whatever the batch size; rows that can never be published only
  * slow it down as long as they are fewer than a batch. */
module RelayProgress {
  import opened Wrappers
  import opened Relay
  import opened Sums
  import opened Seqs

  // ---- One tick, seen on the pending rows ----

  /** Which entries can be published. */
  type Publishable = Entry -> bool

  function Failing(xs: seq<Entry>, ok: Publishable): seq<Entry> {
    if xs == [] then [] else (if ok(xs[0]) then [] else [xs[0]]) + Failing(xs[1..], ok)
  }

  /** The pending rows after a tick: of the batch, those that failed; then the rest. */
  function Step(p: seq<Entry>, batch: nat, ok: Publishable): seq<Entry>
  {
    Failing(p[..Limit(batch, p)], ok) + p[Limit(batch, p)..]
  }

  function Steps(p: seq<Entry>, batch: nat, ok: Publishable, n: nat): seq<Entry>
    decreases n
  {
    if n == 0 then p else Steps(Step(p, batch, ok), batch, ok, n - 1)
  }

  /** Everything attempted in n ticks, in order. */
  function Attempted(p: seq<Entry>, batch: nat, ok: Publishable, n: nat): seq<Entry>
    decreases n
  {
    if n == 0 then [] else p[..Limit(batch, p)] + Attempted(Step(p, batch, ok), batch, ok, n - 1)
  }

  lemma {:induction false} FailingMembers(xs: seq<Entry>, ok: Publishable)
    ensures forall e :: e in Failing(xs, ok) <==> e in xs && !ok(e)
  {
    if xs != [] {
      FailingMembers(xs[1..], ok);
      forall e ensures e in Failing(xs, ok) <==> e in xs && !ok(e) {
        assert e in xs <==> e == xs[0] || e in xs[1..];
      }
    }
  }

  lemma {:induction false} FailingSorted(xs: seq<Entry>, ok: Publishable)
    requires Sorted(xs)
    ensures Sorted(Failing(xs, ok))
  {
    if xs != [] {
      FailingSorted(xs[1..], ok);
      FailingMembers(xs[1..], ok);
      var rest := Failing(xs[1..], ok);
      forall k | 0 <= k < |rest| ensures Before(xs[0], rest[k]) { assert rest[k] in rest; }
    }
  }

  lemma StepSpec(p: seq<Entry>, batch: nat, ok: Publishable)
    requires Sorted(p)
    ensures Sorted(Step(p, batch, ok))
    ensures forall e :: e in Step(p, batch, ok)
              <==> e in p[Limit(batch, p)..] || (e in p[..Limit(batch, p)] && !ok(e))
  {
    var n := Limit(batch, p);
    var a, b := Failing(p[..n], ok), p[n..];
    FailingMembers(p[..n], ok);
    FailingSorted(p[..n], ok);
    forall i, j | 0 <= i < |a| && 0 <= j < |b| ensures Before(a[i], b[j]) {
      assert a[i] in a;
      var k :| 0 <= k < n && p[k] == a[i];
    }
  }

  lemma StepSorted(p: seq<Entry>, batch: nat, ok: Publishable)
    requires Sorted(p)
    ensures Sorted(Step(p, batch, ok))
  {
    StepSpec(p, batch, ok);
  }

  // ---- The table after a drain ----

  /** The marks touch nothing the query reads but the published flag. */
  lemma {:induction false} MarkAllPublished(rows: seq<DbRow>, outcomes: seq<RowOutcome>, i: nat)
    requires i < |rows|
    ensures var r := MarkAll(rows, outcomes)[i];
            && EntryOf(r) == EntryOf(rows[i])
            && (r.published <==> rows[i].published || Published(rows[i].row.id) in outcomes)
    decreases |outcomes|
  {
    if outcomes != [] {
      MarkAllPublished(Mark(rows, outcomes[0]), outcomes[1..], i);
      assert Published(rows[i].row.id) in outcomes
        <==> outcomes[0] == Published(rows[i].row.id) || Published(rows[i].row.id) in outcomes[1..];
    }
  }

  /** A committed drain takes the pending rows one step on. */
  lemma DrainSteps(rows: seq<DbRow>, batch: nat, answers: seq<Answer>, ok: Publishable)
    requires UniqueIds(rows) && |answers| == |DrainQuery(rows, batch)|
    requires forall i :: 0 <= i < |answers| ==> (answers[i].Ok? <==> ok(Pending(rows)[i]))
    ensures var after := MarkAll(rows, Outcomes(DrainQuery(rows, batch), answers));
            UniqueIds(after) && Pending(after) == Step(Pending(rows), batch, ok)
  {
    var p, n := Pending(rows), Limit(batch, Pending(rows));
    var outcomes := Outcomes(DrainQuery(rows, batch), answers);
    var after := MarkAll(rows, outcomes);
    PendingSpec(rows);
    forall i | 0 <= i < |rows|
      ensures EntryOf(after[i]) == EntryOf(rows[i])
      ensures after[i].published <==> rows[i].published || Published(rows[i].row.id) in outcomes
    {
      MarkAllPublished(rows, outcomes, i);
    }
    forall i, j | 0 <= i < j < |after| ensures after[i].row.id != after[j].row.id {
      assert EntryOf(after[i]) == EntryOf(rows[i]) && EntryOf(after[j]) == EntryOf(rows[j]);
    }
    SameEntries(rows, after, batch, answers, ok);
    PendingSpec(after);
    StepSpec(p, batch, ok);
    SortedUnique(Pending(after), Step(p, batch, ok));
  }

  /** The rows pending after a drain are those the step leaves. */
  lemma SameEntries(rows: seq<DbRow>, after: seq<DbRow>, batch: nat, answers: seq<Answer>, ok: Publishable)
    requires UniqueIds(rows) && UniqueIds(after) && |after| == |rows|
    requires |answers| == |DrainQuery(rows, batch)|
    requires forall i :: 0 <= i < |answers| ==> (answers[i].Ok? <==> ok(Pending(rows)[i]))
    requires var outcomes := Outcomes(DrainQuery(rows, batch), answers);
             forall i :: 0 <= i < |rows| ==>
               && EntryOf(after[i]) == EntryOf(rows[i])
               && (after[i].published <==> rows[i].published || Published(rows[i].row.id) in outcomes)
    ensures forall e :: e in Pending(after) <==> e in Step(Pending(rows), batch, ok)
  {
    var p, n := Pending(rows), Limit(batch, Pending(rows));
    forall i | 0 <= i < |rows|
      ensures !after[i].published <==> !rows[i].published && EntryOf(rows[i]) in Step(p, batch, ok)
    {
      if !rows[i].published { UnpublishedStays(rows, batch, answers, ok, i); }
    }
    PendingSpec(rows);
    StepSpec(p, batch, ok);
    forall e | e in Step(p, batch, ok) ensures e in p { assert p == p[..n] + p[n..]; }
    PendingAre(rows, after, Step(p, batch, ok));
  }

  lemma PendingAre(rows: seq<DbRow>, after: seq<DbRow>, next: seq<Entry>)
    requires UniqueIds(rows) && UniqueIds(after) && |after| == |rows|
    requires forall i :: 0 <= i < |rows| ==> EntryOf(after[i]) == EntryOf(rows[i])
    requires forall i :: 0 <= i < |rows| ==> (!after[i].published <==> !rows[i].published && EntryOf(rows[i]) in next)
    requires forall e :: e in next ==> e in Pending(rows)
    ensures forall e :: e in Pending(after) <==> e in next
  {
    PendingSpec(rows);
    PendingSpec(after);
    forall e | e in Pending(after) ensures e in next {
      var i :| 0 <= i < |after| && !after[i].published && EntryOf(after[i]) == e;
      assert EntryOf(rows[i]) == e;
    }
    forall e | e in next ensures e in Pending(after) {
      var i :| 0 <= i < |rows| && !rows[i].published && EntryOf(rows[i]) == e;
      assert EntryOf(after[i]) == e;
    }
  }

  /** An unpublished row is marked by the drain iff it was in the batch and its publish succeeded. */
  lemma UnpublishedStays(rows: seq<DbRow>, batch: nat, answers: seq<Answer>, ok: Publishable, i: nat)
    requires UniqueIds(rows) && |answers| == |DrainQuery(rows, batch)|
    requires forall k :: 0 <= k < |answers| ==> (answers[k].Ok? <==> ok(Pending(rows)[k]))
    requires i < |rows| && !rows[i].published
    ensures Published(rows[i].row.id) !in Outcomes(DrainQuery(rows, batch), answers)
       <==> EntryOf(rows[i]) in Step(Pending(rows), batch, ok)
  {
    var p, e := Pending(rows), EntryOf(rows[i]);
    PendingSpec(rows);
    forall j, k | 0 <= j < k < |p| ensures p[j].row.id != p[k].row.id {
      assert p[j] in p && p[k] in p;
      if p[j].row.id == p[k].row.id { SameId(rows, p[j], p[k]); }
    }
    assert e in p;
    var k :| 0 <= k < |p| && p[k] == e;
    BatchMarks(p, Limit(batch, p), answers, ok, k);
    StaysAt(p, batch, ok, k);
  }

  lemma BatchMarks(p: seq<Entry>, n: nat, answers: seq<Answer>, ok: Publishable, k: nat)
    requires n <= |p| && |answers| == n && k < |p|
    requires forall i, j :: 0 <= i < j < |p| ==> p[i].row.id != p[j].row.id
    requires forall i :: 0 <= i < n ==> (answers[i].Ok? <==> ok(p[i]))
    ensures Published(p[k].row.id) in Outcomes(RowsOf(p[..n]), answers) <==> k < n && ok(p[k])
  {
    var outcomes := Outcomes(RowsOf(p[..n]), answers);
    forall i | 0 <= i < n ensures outcomes[i] == OutcomeOf(p[i].row, answers[i]) { }
    if k < n && ok(p[k]) { assert outcomes[k] in outcomes; }
  }

  lemma StaysAt(p: seq<Entry>, batch: nat, ok: Publishable, k: nat)
    requires Sorted(p) && k < |p|
    ensures p[k] in Step(p, batch, ok) <==> k >= Limit(batch, p) || !ok(p[k])
  {
    var n := Limit(batch, p);
    StepSpec(p, batch, ok);
    if k < n {
      assert p[..n][k] == p[k];
      assert p[k] !in p[n..];
    } else {
      assert p[n..][k - n] == p[k];
    }
  }

  /** Entries of the table with the same id are the same. */
  lemma SameId(rows: seq<DbRow>, a: Entry, b: Entry)
    requires UniqueIds(rows) && a in Pending(rows) && b in Pending(rows) && a.row.id == b.row.id
    ensures a == b
  {
    PendingSpec(rows);
  }

  // ---- The loop ----

  ghost predicate AnswersBy(answer: (nat, Message) -> Answer, ok: Publishable) {
    forall n: nat, e: Entry :: answer(n, MessageOf(e.row)).Ok? <==> ok(e)
  }

  // Turns in which the transaction around the drain may fail.

  function StepUnder(p: seq<Entry>, batch: nat, ok: Publishable, fault: Fault): seq<Entry>
  {
    if Commits(fault, Limit(batch, p)) then Step(p, batch, ok) else p
  }

  /** What is published in a turn, committed or not. */
  function Tried(p: seq<Entry>, batch: nat, fault: Fault): seq<Entry>
  {
    if fault == SelectFails then [] else p[..Limit(batch, p)]
  }

  /** A turn that reports an error counts as having drained nothing. */
  function Waits(p: seq<Entry>, batch: nat, fault: Fault): bool
  {
    (if Commits(fault, Limit(batch, p)) && fault != CommitUnreported then Limit(batch, p) else 0) < batch
  }

  /** The turn reports an error. */
  predicate Fails(p: seq<Entry>, batch: nat, fault: Fault) {
    match fault
    case NoFault => false
    case MarkFails(at) => at < batch && at < |p|
    case _ => true
  }

  /** The loop waits exactly after a turn that failed or found less than a full batch. */
  lemma WaitsWhen(p: seq<Entry>, batch: nat, fault: Fault)
    ensures Waits(p, batch, fault) <==> batch > 0 && (Fails(p, batch, fault) || |p| < batch)
  {
  }

  function StepsUnder(p: seq<Entry>, batch: nat, ok: Publishable, faults: seq<Fault>): seq<Entry>
    decreases |faults|
  {
    if faults == [] then p else StepsUnder(StepUnder(p, batch, ok, faults[0]), batch, ok, faults[1..])
  }

  function AttemptedUnder(p: seq<Entry>, batch: nat, ok: Publishable, faults: seq<Fault>): seq<Entry>
    decreases |faults|
  {
    if faults == [] then []
    else Tried(p, batch, faults[0]) + AttemptedUnder(StepUnder(p, batch, ok, faults[0]), batch, ok, faults[1..])
  }

  function WaitsUnder(p: seq<Entry>, batch: nat, ok: Publishable, faults: seq<Fault>): (r: seq<bool>)
    ensures |r| == |faults|
    decreases |faults|
  {
    if faults == [] then []
    else [Waits(p, batch, faults[0])] + WaitsUnder(StepUnder(p, batch, ok, faults[0]), batch, ok, faults[1..])
  }

  /** How many of the turns commit. */
  function Committed(p: seq<Entry>, batch: nat, ok: Publishable, faults: seq<Fault>): nat
    decreases |faults|
  {
    if faults == [] then 0
    else (if Commits(faults[0], Limit(batch, p)) then 1 else 0)
         + Committed(StepUnder(p, batch, ok, faults[0]), batch, ok, faults[1..])
  }

  /** Turns that do not commit only repeat: what is left pending is what as many committed
    * turns leave. */
  lemma {:induction false} OnlyCommitsCount(p: seq<Entry>, batch: nat, ok: Publishable, faults: seq<Fault>)
    ensures StepsUnder(p, batch, ok, faults) == Steps(p, batch, ok, Committed(p, batch, ok, faults))
    decreases |faults|
  {
    if faults != [] { OnlyCommitsCount(StepUnder(p, batch, ok, faults[0]), batch, ok, faults[1..]); }
  }

  lemma AttemptFirst(p: seq<Entry>, batch: nat, ok: Publishable, n: nat)
    requires n > 0
    ensures Attempted(p, batch, ok, n) == p[..Limit(batch, p)] + Attempted(Step(p, batch, ok), batch, ok, n - 1)
  {
  }

  lemma TriedFirst(p: seq<Entry>, batch: nat, ok: Publishable, faults: seq<Fault>)
    requires faults != [] && faults[0] == NoFault
    ensures AttemptedUnder(p, batch, ok, faults)
         == p[..Limit(batch, p)] + AttemptedUnder(Step(p, batch, ok), batch, ok, faults[1..])
    ensures Committed(p, batch, ok, faults) == 1 + Committed(Step(p, batch, ok), batch, ok, faults[1..])
  {
  }

  ghost predicate NoFaults(faults: seq<Fault>) {
    forall i :: 0 <= i < |faults| ==> faults[i] == NoFault
  }

  /** Without faults the attempts are those of as many committed turns. */
  lemma {:induction false} NoFaultsAttempted(p: seq<Entry>, batch: nat, ok: Publishable, faults: seq<Fault>)
    requires NoFaults(faults)
    ensures AttemptedUnder(p, batch, ok, faults) == Attempted(p, batch, ok, |faults|)
    decreases |faults|
  {
    if faults != [] {
      TriedFirst(p, batch, ok, faults);
      AttemptFirst(p, batch, ok, |faults|);
      assert |faults[1..]| == |faults| - 1;
      NoFaultsAttempted(Step(p, batch, ok), batch, ok, faults[1..]);
    }
  }

  lemma {:induction false} NoFaultsCommit(p: seq<Entry>, batch: nat, ok: Publishable, faults: seq<Fault>)
    requires NoFaults(faults)
    ensures Committed(p, batch, ok, faults) == |faults|
    decreases |faults|
  {
    if faults != [] {
      TriedFirst(p, batch, ok, faults);
      NoFaultsCommit(Step(p, batch, ok), batch, ok, faults[1..]);
    }
  }

  /** Without faults, and with every row publishable, turn i finds less than a full batch exactly if
    * the batches so far are more than the rows. */
  lemma {:induction false} NoFaultsWait(p: seq<Entry>, batch: nat, ok: Publishable, faults: seq<Fault>, i: nat)
    requires NoFaults(faults) && AllPublish(p, ok) && batch > 0 && i < |faults|
    ensures WaitsUnder(p, batch, ok, faults)[i] <==> Times(i + 1, batch) > |p|
    decreases |faults|
  {
    if i == 0 {
      WaitsFirst(p, batch, ok, faults, 0);
      assert Times(1, batch) == batch;
    } else {
      NoFaultsWaitLater(p, batch, ok, faults, i);
      HealthyLength(p, batch, ok);
      LeftIsLess(i, batch, |p|, |Step(p, batch, ok)|);
    }
  }

  lemma {:induction false} NoFaultsWaitLater(p: seq<Entry>, batch: nat, ok: Publishable, faults: seq<Fault>, i: nat)
    requires NoFaults(faults) && AllPublish(p, ok) && batch > 0 && 0 < i < |faults|
    ensures WaitsUnder(p, batch, ok, faults)[i] <==> Times(i, batch) > |Step(p, batch, ok)|
    decreases |faults|, 0
  {
    WaitsFirst(p, batch, ok, faults, i);
    HealthyLength(p, batch, ok);
    NoFaultsWait(Step(p, batch, ok), batch, ok, faults[1..], i - 1);
  }

  lemma LeftIsLess(n: nat, batch: nat, total: nat, left: nat)
    requires n > 0 && batch > 0 && left == if batch <= total then total - batch else 0
    ensures Times(n, batch) > left <==> Times(n + 1, batch) > total
  {
    TimesGrows(n, batch);
  }

  lemma WaitsFirst(p: seq<Entry>, batch: nat, ok: Publishable, faults: seq<Fault>, i: nat)
    requires i < |faults| && faults[0] == NoFault
    ensures WaitsUnder(p, batch, ok, faults)[i]
         == if i == 0 then |p| < batch else WaitsUnder(Step(p, batch, ok), batch, ok, faults[1..])[i - 1]
  {
  }

  lemma HealthyLength(p: seq<Entry>, batch: nat, ok: Publishable)
    requires AllPublish(p, ok)
    ensures AllPublish(Step(p, batch, ok), ok) && |Step(p, batch, ok)| == |p| - Limit(batch, p)
  {
    HealthyStep(p, batch, ok);
  }

  lemma TimesGrows(n: nat, d: nat)
    ensures Times(n + 1, d) == d + Times(n, d) && (n > 0 ==> Times(n, d) >= d)
  {
  }

  /** One turn of the loop: it drains a batch, and waits unless it drained a full one. */
  method Tick(outbox: Outbox, publisher: Publisher, batch: nat, fault: Fault, ghost ok: Publishable)
    returns (waits: bool)
    requires UniqueIds(outbox.rows) && AnswersBy(publisher.answer, ok)
    modifies outbox, publisher
    ensures var p := Pending(old(outbox.rows));
            && UniqueIds(outbox.rows)
            && Pending(outbox.rows) == StepUnder(p, batch, ok, fault)
            && Messages(publisher.log) == Messages(old(publisher.log)) + EntryMessages(Tried(p, batch, fault))
            && waits == Waits(p, batch, fault)
            && (waits <==> batch > 0 && (Fails(p, batch, fault) || |p| < batch))
  {
    ghost var rows, log := outbox.rows, publisher.log;
    ghost var p, picked := Pending(rows), DrainQuery(rows, batch);
    ghost var answers := Answers(publisher.answer, |log|, picked);
    forall i | 0 <= i < |answers| ensures answers[i].Ok? <==> ok(p[i]) {
      assert picked[i] == p[i].row;
    }
    var r := outbox.DrainOnce(publisher, batch, fault);
    DrainSteps(rows, batch, answers, ok);
    LogGrows(log, p[..Limit(batch, p)], answers);
    assert Messages(log) + EntryMessages([]) == Messages(log);
    var drained := if r.Ok? then r.value else 0;
    waits := drained < batch;
  }

  /** start_relay for as many turns of its loop as there are `faults`. `ok` says what the broker
    * accepts, at any time; `waits` tells after which turns the loop waits. */
  method RunRelay(outbox: Outbox, publisher: Publisher, batch: nat, faults: seq<Fault>, ghost ok: Publishable)
    returns (waits: seq<bool>)
    requires UniqueIds(outbox.rows) && AnswersBy(publisher.answer, ok)
    modifies outbox, publisher
    ensures UniqueIds(outbox.rows)
    ensures var p := Pending(old(outbox.rows));
            && Pending(outbox.rows) == Steps(p, batch, ok, Committed(p, batch, ok, faults))
            && Messages(publisher.log)
               == Messages(old(publisher.log)) + EntryMessages(AttemptedUnder(p, batch, ok, faults))
            && waits == WaitsUnder(p, batch, ok, faults)
            && Logged(old(publisher.log), publisher.log, AttemptedUnder(p, batch, ok, faults))
  {
    ghost var log := publisher.log;
    waits := [];
    ghost var p0, sent, done: seq<Entry>, p := Pending(outbox.rows), Messages(publisher.log), [], Pending(outbox.rows);
    assert faults[0..] == faults;
    assert done + AttemptedUnder(p, batch, ok, faults) == AttemptedUnder(p, batch, ok, faults);
    assert waits + WaitsUnder(p, batch, ok, faults) == WaitsUnder(p, batch, ok, faults);
    for i := 0 to |faults|
      invariant UniqueIds(outbox.rows) && p == Pending(outbox.rows)
      invariant Messages(publisher.log) == sent + EntryMessages(done)
      invariant Halfway(p0, batch, ok, faults, p, done, waits, faults[i..])
    {
      var wait := Tick(outbox, publisher, batch, faults[i], ok);
      MessagesConcat(sent, done, Tried(p, batch, faults[i]));
      TurnDone(p0, batch, ok, faults, p, done, waits, faults[i..]);
      assert faults[i..][1..] == faults[i + 1..];
      done := done + Tried(p, batch, faults[i]);
      waits := waits + [wait];
      p := StepUnder(p, batch, ok, faults[i]);
    }
    AllDone(p0, batch, ok, faults, p, done, waits, log, publisher.log);
  }

  /** With the turns `left` to go: what is pending, attempted and waited so far. */
  ghost predicate Halfway(p0: seq<Entry>, batch: nat, ok: Publishable, faults: seq<Fault>,
                          p: seq<Entry>, done: seq<Entry>, waits: seq<bool>, left: seq<Fault>)
  {
    && StepsUnder(p0, batch, ok, faults) == StepsUnder(p, batch, ok, left)
    && AttemptedUnder(p0, batch, ok, faults) == done + AttemptedUnder(p, batch, ok, left)
    && WaitsUnder(p0, batch, ok, faults) == waits + WaitsUnder(p, batch, ok, left)
  }

  lemma TurnDone(p0: seq<Entry>, batch: nat, ok: Publishable, faults: seq<Fault>,
                 p: seq<Entry>, done: seq<Entry>, waits: seq<bool>, left: seq<Fault>)
    requires left != [] && Halfway(p0, batch, ok, faults, p, done, waits, left)
    ensures Halfway(p0, batch, ok, faults, StepUnder(p, batch, ok, left[0]), done + Tried(p, batch, left[0]),
                    waits + [Waits(p, batch, left[0])], left[1..])
  {
    var next := StepUnder(p, batch, ok, left[0]);
    Regroup(done, Tried(p, batch, left[0]), AttemptedUnder(next, batch, ok, left[1..]));
    Regroup(waits, [Waits(p, batch, left[0])], WaitsUnder(next, batch, ok, left[1..]));
  }

  lemma AllDone(p0: seq<Entry>, batch: nat, ok: Publishable, faults: seq<Fault>,
                p: seq<Entry>, done: seq<Entry>, waits: seq<bool>,
                before: seq<(Message, Answer)>, log: seq<(Message, Answer)>)
    requires Halfway(p0, batch, ok, faults, p, done, waits, faults[|faults|..])
    requires Messages(log) == Messages(before) + EntryMessages(done)
    ensures p == Steps(p0, batch, ok, Committed(p0, batch, ok, faults))
    ensures AttemptedUnder(p0, batch, ok, faults) == done && WaitsUnder(p0, batch, ok, faults) == waits
    ensures Logged(before, log, done)
  {
    assert faults[|faults|..] == [];
    assert done + [] == done && waits + [] == waits;
    OnlyCommitsCount(p0, batch, ok, faults);
    LoggedCarry(before, log, done);
  }

  lemma LogGrows(log: seq<(Message, Answer)>, batch: seq<Entry>, answers: seq<Answer>)
    requires |answers| == |batch|
    ensures Messages(log + Sent(RowsOf(batch), answers)) == Messages(log) + EntryMessages(batch)
  { }

  /** The messages of a log, without the answers. */
  function Messages(log: seq<(Message, Answer)>): (r: seq<Message>)
    ensures |r| == |log|
  {
    seq(|log|, i requires 0 <= i < |log| => log[i].0)
  }

  function EntryMessages(xs: seq<Entry>): (r: seq<Message>)
    ensures |r| == |xs|
  {
    seq(|xs|, i requires 0 <= i < |xs| => MessageOf(xs[i].row))
  }

  lemma MessagesConcat(sent: seq<Message>, a: seq<Entry>, b: seq<Entry>)
    ensures sent + EntryMessages(a) + EntryMessages(b) == sent + EntryMessages(a + b)
  { }

  // ---- Batched draining is sort-and-publish ----

  lemma {:induction false} NothingFails(xs: seq<Entry>, ok: Publishable)
    requires forall e :: e in xs ==> ok(e)
    ensures Failing(xs, ok) == []
  {
    if xs != [] { NothingFails(xs[1..], ok); }
  }

  ghost predicate AllPublish(p: seq<Entry>, ok: Publishable) {
    forall e :: e in p ==> ok(e)
  }

  /** With every publish succeeding, n ticks attempt the first n * batch pending rows, in
    * the order of the query, each once; so once n * batch reaches their number the
    * attempts are the pending rows sorted by (occurred_at, id), and none is left. */
  lemma DrainingIsSortAndPublish(p: seq<Entry>, batch: nat, ok: Publishable, n: nat)
    requires batch > 0 && AllPublish(p, ok)
    ensures Attempted(p, batch, ok, n) == p[..Limit(n * batch, p)]
    ensures Steps(p, batch, ok, n) == p[Limit(n * batch, p)..]
  {
    AttemptsAndRest(p, batch, ok, n);
    AttemptedLength(p, batch, ok, n);
    TimesIsProduct(n, batch);
  }

  /** What the log gained: the events of these entries, in order. */
  ghost predicate Logged(before: seq<(Message, Answer)>, log: seq<(Message, Answer)>, xs: seq<Entry>) {
    && |log| == |before| + |xs|
    && forall i :: 0 <= i < |xs| ==> Carries(log[|before| + i].0, xs[i].row)
  }

  /** Each message logged for an entry carries its row. */
  lemma LoggedCarry(before: seq<(Message, Answer)>, log: seq<(Message, Answer)>, xs: seq<Entry>)
    requires Messages(log) == Messages(before) + EntryMessages(xs)
    ensures Logged(before, log, xs)
  {
    assert |Messages(log)| == |before| + |xs|;
    forall i | 0 <= i < |xs| ensures Carries(log[|before| + i].0, xs[i].row) {
      assert Messages(log)[|before| + i] == EntryMessages(xs)[i] == MessageOf(xs[i].row);
      MessageCarries(xs[i].row, xs[i].row);
    }
  }

  /** Turn i waits exactly if the batches up to it are more than the rows there were. */
  ghost predicate WaitsOnceIdle(waits: seq<bool>, batch: nat, total: nat) {
    forall i :: 0 <= i < |waits| ==> (waits[i] <==> (i + 1) * batch > total)
  }

  lemma {:induction false} IdleInProducts(waits: seq<bool>, batch: nat, total: nat)
    requires forall i :: 0 <= i < |waits| ==> (waits[i] <==> Times(i + 1, batch) > total)
    ensures WaitsOnceIdle(waits, batch, total)
  {
    forall i | 0 <= i < |waits| ensures waits[i] <==> (i + 1) * batch > total { TimesIsProduct(i + 1, batch); }
  }

  /** What the specification of the loop comes to without faults, every pending row publishable. */
  lemma HealthyTurns(p: seq<Entry>, batch: nat, ok: Publishable, faults: seq<Fault>)
    requires batch > 0 && NoFaults(faults) && AllPublish(p, ok)
    ensures var k := Limit(|faults| * batch, p);
            && AttemptedUnder(p, batch, ok, faults) == p[..k]
            && Steps(p, batch, ok, Committed(p, batch, ok, faults)) == p[k..]
            && WaitsOnceIdle(WaitsUnder(p, batch, ok, faults), batch, |p|)
  {
    NoFaultsAttempted(p, batch, ok, faults);
    NoFaultsCommit(p, batch, ok, faults);
    DrainingIsSortAndPublish(p, batch, ok, |faults|);
    forall i: nat | i < |faults| ensures WaitsUnder(p, batch, ok, faults)[i] <==> Times(i + 1, batch) > |p| {
      NoFaultsWait(p, batch, ok, faults, i);
    }
    IdleInProducts(WaitsUnder(p, batch, ok, faults), batch, |p|);
  }

  /** So the loop, without faults and with a broker that takes every pending row, publishes the
    * events of the pending rows sorted by (occurred_at, id), each once, as far as its turns go; and
    * it waits exactly from the turn on that leaves nothing for a full batch. */
  method RelaySortsAndPublishes(outbox: Outbox, publisher: Publisher, batch: nat, faults: seq<Fault>,
                                ghost ok: Publishable)
    returns (waits: seq<bool>)
    requires UniqueIds(outbox.rows) && AnswersBy(publisher.answer, ok)
    requires batch > 0 && NoFaults(faults) && AllPublish(Pending(outbox.rows), ok)
    modifies outbox, publisher
    ensures UniqueIds(outbox.rows)
    ensures var p, k := Pending(old(outbox.rows)), Limit(|faults| * batch, Pending(old(outbox.rows)));
            && Sorted(p)
            && Messages(publisher.log) == Messages(old(publisher.log)) + EntryMessages(p[..k])
            && Logged(old(publisher.log), publisher.log, p[..k])
            && Pending(outbox.rows) == p[k..]
            && |waits| == |faults| && WaitsOnceIdle(waits, batch, |p|)
  {
    ghost var p := Pending(outbox.rows);
    PendingSpec(outbox.rows);
    HealthyTurns(p, batch, ok, faults);
    waits := RunRelay(outbox, publisher, batch, faults, ok);
  }

  /** A step over rows that all publish just drops its batch. */
  lemma HealthyStep(p: seq<Entry>, batch: nat, ok: Publishable)
    requires AllPublish(p, ok)
    ensures Step(p, batch, ok) == p[Limit(batch, p)..] && AllPublish(Step(p, batch, ok), ok)
  {
    var k := Limit(batch, p);
    forall e | e in p[..k] ensures e in p { }
    forall e | e in p[k..] ensures e in p { }
    NothingFails(p[..k], ok);
  }

  /** What is attempted and what is left make up the rows. */
  lemma {:induction false} AttemptsAndRest(p: seq<Entry>, batch: nat, ok: Publishable, n: nat)
    requires AllPublish(p, ok)
    ensures Attempted(p, batch, ok, n) + Steps(p, batch, ok, n) == p
    decreases n
  {
    if n > 0 {
      var next := Step(p, batch, ok);
      HealthyStep(p, batch, ok);
      AttemptsAndRest(next, batch, ok, n - 1);
      Whole(p, Limit(batch, p), Attempted(next, batch, ok, n - 1), Steps(next, batch, ok, n - 1));
    }
  }

  lemma Whole(p: seq<Entry>, k: nat, a: seq<Entry>, b: seq<Entry>)
    requires k <= |p| && a + b == p[k..]
    ensures (p[..k] + a) + b == p
  {
    Regroup(p[..k], a, b);
    assert p[..k] + p[k..] == p;
  }

  lemma {:induction false} AttemptedLength(p: seq<Entry>, batch: nat, ok: Publishable, n: nat)
    requires AllPublish(p, ok)
    ensures |Attempted(p, batch, ok, n)| == Limit(Times(n, batch), p)
    decreases n
  {
    if n > 0 {
      HealthyStep(p, batch, ok);
      AttemptedLength(Step(p, batch, ok), batch, ok, n - 1);
    }
  }

  // ---- Poison rows ----

  function Healthy(xs: seq<Entry>, ok: Publishable): (n: nat)
    ensures n <= |xs|
  {
    if xs == [] then 0 else (if ok(xs[0]) then 1 else 0) + Healthy(xs[1..], ok)
  }

  function Poison(xs: seq<Entry>, ok: Publishable): nat {
    |xs| - Healthy(xs, ok)
  }

  lemma {:induction false} HealthyConcat(xs: seq<Entry>, ys: seq<Entry>, ok: Publishable)
    ensures Healthy(xs + ys, ok) == Healthy(xs, ok) + Healthy(ys, ok)
  {
    if xs == [] {
      assert xs + ys == ys;
    } else {
      assert (xs + ys)[1..] == xs[1..] + ys;
      HealthyConcat(xs[1..], ys, ok);
    }
  }

  lemma {:induction false} FailingIsPoison(xs: seq<Entry>, ok: Publishable)
    ensures Healthy(Failing(xs, ok), ok) == 0 && |Failing(xs, ok)| == Poison(xs, ok)
  {
    if xs != [] {
      FailingIsPoison(xs[1..], ok);
      HealthyConcat(if ok(xs[0]) then [] else [xs[0]], Failing(xs[1..], ok), ok);
    }
  }

  /** A tick publishes the healthy rows of its batch and keeps the number of poison ones. */
  lemma StepCounts(p: seq<Entry>, batch: nat, ok: Publishable)
    ensures Healthy(Step(p, batch, ok), ok) == Healthy(p, ok) - Healthy(p[..Limit(batch, p)], ok)
    ensures Poison(Step(p, batch, ok), ok) == Poison(p, ok)
  {
    var k := Limit(batch, p);
    assert p == p[..k] + p[k..];
    HealthyConcat(p[..k], p[k..], ok);
    FailingIsPoison(p[..k], ok);
    HealthyConcat(Failing(p[..k], ok), p[k..], ok);
  }

  /** With fewer poison rows than a batch, n ticks publish n * (batch - poison) healthy
    * rows, or all there are. */
  lemma PoisonOnlySlows(p: seq<Entry>, batch: nat, ok: Publishable, n: nat)
    requires Poison(p, ok) < batch
    ensures Healthy(Steps(p, batch, ok, n), ok) <= Healthy(p, ok)
    ensures var published := n * (batch - Poison(p, ok));
            Healthy(Steps(p, batch, ok, n), ok)
            <= if published < Healthy(p, ok) then Healthy(p, ok) - published else 0
  {
    HealthyShrinks(p, batch, ok, n);
    TimesIsProduct(n, batch - Poison(p, ok));
  }

  lemma TickPublishes(p: seq<Entry>, batch: nat, ok: Publishable)
    requires Poison(p, ok) < batch
    ensures var h := Healthy(p[..Limit(batch, p)], ok);
            h == Healthy(p, ok) || (batch - Poison(p, ok) <= h <= Healthy(p, ok))
  {
    var k := Limit(batch, p);
    assert p == p[..k] + p[k..];
    HealthyConcat(p[..k], p[k..], ok);
  }

  lemma {:induction false} HealthyShrinks(p: seq<Entry>, batch: nat, ok: Publishable, n: nat)
    requires Poison(p, ok) < batch
    ensures var published := Times(n, batch - Poison(p, ok));
            Healthy(Steps(p, batch, ok, n), ok)
            <= if published < Healthy(p, ok) then Healthy(p, ok) - published else 0
    decreases n
  {
    if n > 0 {
      StepCounts(p, batch, ok);
      TickPublishes(p, batch, ok);
      HealthyShrinks(Step(p, batch, ok), batch, ok, n - 1);
    }
  }

  // ---- Exactly which rows get through ----

  /** A healthy row inside the batch is published. */
  lemma StepPublishes(p: seq<Entry>, batch: nat, ok: Publishable, i: nat)
    requires Sorted(p) && i < |p| && i < batch && ok(p[i])
    ensures p[i] !in Step(p, batch, ok)
  {
    StaysAt(p, batch, ok, i);
  }

  /** A row outside the batch moves forward past the published rows, with the same
    * number of poison rows before it. */
  lemma StepTracks(p: seq<Entry>, batch: nat, ok: Publishable, i: nat)
    requires 0 <= batch <= i < |p|
    ensures var j, next := i - Healthy(p[..batch], ok), Step(p, batch, ok);
            0 <= j < |next| && next[j] == p[i] && Poison(next[..j], ok) == Poison(p[..i], ok)
  {
    var f, next := Failing(p[..batch], ok), Step(p, batch, ok);
    FailingIsPoison(p[..batch], ok);
    var j := i - Healthy(p[..batch], ok);
    assert next == f + p[batch..];
    assert next[j] == p[batch..][j - |f|];
    assert next[..j] == f + p[batch..i];
    assert p[..i] == p[..batch] + p[batch..i];
    HealthyConcat(f, p[batch..i], ok);
    HealthyConcat(p[..batch], p[batch..i], ok);
  }

  /** The entry stands behind at least a batch of poison rows. */
  ghost predicate Behind(p: seq<Entry>, batch: nat, ok: Publishable, e: Entry) {
    exists i: nat :: i < |p| && p[i] == e && Poison(p[..i], ok) >= batch
  }

  lemma StillBehind(p: seq<Entry>, batch: nat, ok: Publishable, e: Entry)
    requires Behind(p, batch, ok, e)
    ensures Behind(Step(p, batch, ok), batch, ok, e)
  {
    var i: nat :| i < |p| && p[i] == e && Poison(p[..i], ok) >= batch;
    StepTracks(p, batch, ok, i);
  }

  lemma {:induction false} BlockedForever(p: seq<Entry>, batch: nat, ok: Publishable, e: Entry, n: nat)
    requires Behind(p, batch, ok, e)
    ensures Behind(Steps(p, batch, ok, n), batch, ok, e)
    decreases n
  {
    if n > 0 {
      StillBehind(p, batch, ok, e);
      BlockedForever(Step(p, batch, ok), batch, ok, e, n - 1);
    }
  }

  /** With fewer poison rows before it than a batch, some row of the batch gets published. */
  lemma SomeHealthy(p: seq<Entry>, batch: nat, ok: Publishable, i: nat)
    requires batch <= i < |p| && Poison(p[..i], ok) < batch
    ensures Healthy(p[..batch], ok) > 0
  {
    assert p[..i] == p[..batch] + p[batch..i];
    HealthyConcat(p[..batch], p[batch..i], ok);
  }

  lemma {:induction false} GetsThrough(p: seq<Entry>, batch: nat, ok: Publishable, i: nat)
    requires Sorted(p) && i < |p| && ok(p[i]) && Poison(p[..i], ok) < batch
    ensures p[i] !in Steps(p, batch, ok, i + 1)
    decreases i
  {
    StepSorted(p, batch, ok);
    if i < batch {
      StepPublishes(p, batch, ok, i);
      GoneStays(Step(p, batch, ok), batch, ok, p[i], i);
    } else {
      var h := Healthy(p[..batch], ok);
      StepTracks(p, batch, ok, i);
      SomeHealthy(p, batch, ok, i);
      GetsThrough(Step(p, batch, ok), batch, ok, i - h);
      GoneLater(Step(p, batch, ok), batch, ok, p[i], i - h + 1, h - 1);
    }
  }

  lemma GoneLater(p: seq<Entry>, batch: nat, ok: Publishable, e: Entry, m: nat, n: nat)
    requires Sorted(p) && e !in Steps(p, batch, ok, m)
    ensures e !in Steps(p, batch, ok, m + n)
  {
    StepsCompose(p, batch, ok, m, n);
    StepsSorted(p, batch, ok, m);
    GoneStays(Steps(p, batch, ok, m), batch, ok, e, n);
  }

  lemma {:induction false} GoneStays(p: seq<Entry>, batch: nat, ok: Publishable, e: Entry, n: nat)
    requires Sorted(p) && e !in p
    ensures e !in Steps(p, batch, ok, n)
    decreases n
  {
    if n > 0 {
      StepSpec(p, batch, ok);
      assert e !in Step(p, batch, ok);
      GoneStays(Step(p, batch, ok), batch, ok, e, n - 1);
    }
  }

  lemma {:induction false} StepsSorted(p: seq<Entry>, batch: nat, ok: Publishable, n: nat)
    requires Sorted(p)
    ensures Sorted(Steps(p, batch, ok, n))
    decreases n
  {
    if n > 0 {
      StepSorted(p, batch, ok);
      StepsSorted(Step(p, batch, ok), batch, ok, n - 1);
    }
  }

  lemma {:induction false} StepsCompose(p: seq<Entry>, batch: nat, ok: Publishable, m: nat, n: nat)
    ensures Steps(p, batch, ok, m + n) == Steps(Steps(p, batch, ok, m), batch, ok, n)
    decreases m
  {
    if m > 0 { StepsCompose(Step(p, batch, ok), batch, ok, m - 1, n); }
  }

  /** A row that can be published is, some tick, marked if and only if fewer than a batch
    * of rows that cannot be published stand before it. */
  lemma MarkedIffFewPoisonBefore(p: seq<Entry>, batch: nat, ok: Publishable, i: nat)
    requires Sorted(p) && i < |p| && ok(p[i])
    ensures (exists n: nat :: p[i] !in Steps(p, batch, ok, n)) <==> Poison(p[..i], ok) < batch
  {
    if Poison(p[..i], ok) < batch {
      GetsThrough(p, batch, ok, i);
    } else {
      forall n: nat ensures p[i] in Steps(p, batch, ok, n) { BlockedForever(p, batch, ok, p[i], n); }
    }
  }
}
