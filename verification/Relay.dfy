/** The outbox relay: one drain of a batch, and the tick loop over it. */
module Relay {
  import opened Wrappers

  /** The payload column: NULL or the JSON null, or any other value as compact text. */
  datatype Payload = Null | Json(text: string)

  datatype OutboxRow = OutboxRow(id: int, eventId: string, eventType: string, payload: Payload)

  /** A row of `audit.domain_event`. */
  datatype DbRow = DbRow(row: OutboxRow, occurredAt: int, published: bool, attempts: nat, lastError: Option<string>)

  datatype Message = Message(routingKey: string, messageId: string, body: string)

  datatype RowOutcome = Published(id: int) | Failed(id: int, error: string)

  type Answer = Result<(), string>

  // ---- Publishing a batch ----

  /** A missing payload becomes the empty object. */
  function MessageOf(row: OutboxRow): Message {
    Message(row.eventType, row.eventId, if row.payload.Null? then "{}" else row.payload.text)
  }

  /** The message is the event of the row: routed by its type, identified by its event id, with its
    * payload as body, and an empty object only for a missing one. */
  predicate Carries(m: Message, row: OutboxRow) {
    && m.routingKey == row.eventType
    && m.messageId == row.eventId
    && match row.payload
       case Null => m.body == "{}"
       case Json(text) => m.body == text
  }

  /** Rows of different events are sent under different message ids. */
  lemma MessageCarries(row: OutboxRow, other: OutboxRow)
    ensures Carries(MessageOf(row), row)
    ensures MessageOf(row).messageId == MessageOf(other).messageId <==> row.eventId == other.eventId
  {
  }

  const ERROR_LIMIT: nat := 500

  function Truncate(s: string, max: nat): string {
    if |s| <= max then s else s[..max]
  }

  function OutcomeOf(row: OutboxRow, answer: Answer): RowOutcome {
    match answer
    case Ok(_) => Published(row.id)
    case Err(e) => Failed(row.id, Truncate(e, ERROR_LIMIT))
  }

  /** The broker side of the publisher: `answer(n, m)` is what it says to the n-th
    * publish, and `log` is every publish with its answer. */
  class Publisher {
    const answer: (nat, Message) -> Answer
    var log: seq<(Message, Answer)>

    constructor (answer: (nat, Message) -> Answer)
      ensures this.answer == answer && log == []
    {
      this.answer := answer;
      log := [];
    }

    method Publish(m: Message) returns (r: Answer)
      modifies this
      ensures r == answer(|old(log)|, m) && log == old(log) + [(m, r)]
    {
      r := answer(|log|, m);
      log := log + [(m, r)];
    }
  }

  /** The answers to publishing `rows` in order, starting with publish number `from`. */
  function Answers(answer: (nat, Message) -> Answer, from: nat, rows: seq<OutboxRow>): (r: seq<Answer>)
    ensures |r| == |rows|
  {
    seq(|rows|, i requires 0 <= i < |rows| => answer(from + i, MessageOf(rows[i])))
  }

  function Sent(rows: seq<OutboxRow>, answers: seq<Answer>): (r: seq<(Message, Answer)>)
    requires |rows| == |answers|
    ensures |r| == |rows|
  {
    seq(|rows|, i requires 0 <= i < |rows| => (MessageOf(rows[i]), answers[i]))
  }

  function Outcomes(rows: seq<OutboxRow>, answers: seq<Answer>): (r: seq<RowOutcome>)
    requires |rows| == |answers|
    ensures |r| == |rows|
  {
    seq(|rows|, i requires 0 <= i < |rows| => OutcomeOf(rows[i], answers[i]))
  }

  /** Every row is published, in order, whatever happened to those before it. */
  method DrainBatch(rows: seq<OutboxRow>, publisher: Publisher) returns (outcomes: seq<RowOutcome>)
    modifies publisher
    ensures var answers := Answers(publisher.answer, |old(publisher.log)|, rows);
            && publisher.log == old(publisher.log) + Sent(rows, answers)
            && outcomes == Outcomes(rows, answers)
    ensures forall i :: 0 <= i < |rows| ==> Carries(publisher.log[|old(publisher.log)| + i].0, rows[i])
  {
    ghost var before, answers := publisher.log, Answers(publisher.answer, |publisher.log|, rows);
    outcomes := [];
    for i := 0 to |rows|
      invariant |outcomes| == i
      invariant publisher.log == before + Sent(rows, answers)[..i]
      invariant outcomes == Outcomes(rows, answers)[..i]
    {
      var answer := publisher.Publish(MessageOf(rows[i]));
      match answer {
        case Ok(_) => outcomes := outcomes + [Published(rows[i].id)];
        case Err(e) => outcomes := outcomes + [Failed(rows[i].id, Truncate(e, ERROR_LIMIT))];
      }
    }
  }

  // ---- The drain query ----

  /** What the query orders and returns. */
  datatype Entry = Entry(occurredAt: int, row: OutboxRow)

  predicate Before(a: Entry, b: Entry) {
    a.occurredAt < b.occurredAt || (a.occurredAt == b.occurredAt && a.row.id < b.row.id)
  }

  ghost predicate Sorted(xs: seq<Entry>) {
    forall i, j :: 0 <= i < j < |xs| ==> Before(xs[i], xs[j])
  }

  function Insert(xs: seq<Entry>, x: Entry): (r: seq<Entry>)
    ensures multiset(r) == multiset(xs) + multiset{x}
  {
    if xs == [] || Before(x, xs[0]) then
      assert [x] + xs == [x] + xs;
      [x] + xs
    else
      assert xs == [xs[0]] + xs[1..];
      [xs[0]] + Insert(xs[1..], x)
  }

  function EntryOf(r: DbRow): Entry {
    Entry(r.occurredAt, r.row)
  }

  /** The unpublished rows by (occurred_at, id). */
  function Pending(rows: seq<DbRow>): seq<Entry> {
    if rows == [] then []
    else if rows[0].published then Pending(rows[1..])
    else Insert(Pending(rows[1..]), EntryOf(rows[0]))
  }

  function Limit(n: nat, xs: seq<Entry>): nat {
    if n <= |xs| then n else |xs|
  }

  /** DRAIN_SQL with no row locked by another transaction. */
  function DrainQuery(rows: seq<DbRow>, batch: nat): seq<OutboxRow> {
    RowsOf(Pending(rows)[..Limit(batch, Pending(rows))])
  }

  function RowsOf(xs: seq<Entry>): (r: seq<OutboxRow>)
    ensures |r| == |xs|
  {
    seq(|xs|, i requires 0 <= i < |xs| => xs[i].row)
  }

  ghost predicate UniqueIds(rows: seq<DbRow>) {
    forall i, j :: 0 <= i < j < |rows| ==> rows[i].row.id != rows[j].row.id
  }

  lemma InsertMembers(xs: seq<Entry>, x: Entry)
    ensures forall e :: e in Insert(xs, x) <==> e in xs || e == x
  {
    forall e ensures e in Insert(xs, x) <==> e in xs || e == x {
      assert e in Insert(xs, x) <==> e in multiset(Insert(xs, x));
      assert e in xs <==> e in multiset(xs);
    }
  }

  lemma {:induction false} InsertSorted(xs: seq<Entry>, x: Entry)
    requires Sorted(xs) && forall e :: e in xs ==> e.row.id != x.row.id
    ensures Sorted(Insert(xs, x))
  {
    if xs == [] {
    } else if Before(x, xs[0]) {
      var r := [x] + xs;
      forall i, j | 0 <= i < j < |r| ensures Before(r[i], r[j]) {
        assert j > 0 && r[j] == xs[j - 1];
      }
    } else {
      assert xs[0] in xs;
      InsertSorted(xs[1..], x);
      InsertMembers(xs[1..], x);
      var rest := Insert(xs[1..], x);
      forall k | 0 <= k < |rest| ensures Before(xs[0], rest[k]) {
        assert rest[k] in rest;
      }
    }
  }

  /** The query returns exactly the unpublished rows, in strict order. */
  lemma {:induction false} PendingSpec(rows: seq<DbRow>)
    requires UniqueIds(rows)
    ensures Sorted(Pending(rows))
    ensures forall e :: e in Pending(rows) <==>
              exists i :: 0 <= i < |rows| && !rows[i].published && EntryOf(rows[i]) == e
  {
    if rows != [] {
      var rest := Pending(rows[1..]);
      PendingSpec(rows[1..]);
      forall e | e in rest ensures e.row.id != rows[0].row.id {
        var i :| 0 <= i < |rows[1..]| && !rows[1..][i].published && EntryOf(rows[1..][i]) == e;
        assert rows[1..][i] == rows[i + 1];
      }
      if !rows[0].published {
        InsertSorted(rest, EntryOf(rows[0]));
        InsertMembers(rest, EntryOf(rows[0]));
      }
      forall e
        ensures e in Pending(rows) <==>
                  exists i :: 0 <= i < |rows| && !rows[i].published && EntryOf(rows[i]) == e
      {
        if e in rest {
          var i :| 0 <= i < |rows[1..]| && !rows[1..][i].published && EntryOf(rows[1..][i]) == e;
          assert rows[1..][i] == rows[i + 1];
        }
        if i :| 0 <= i < |rows| && !rows[i].published && EntryOf(rows[i]) == e {
          if i > 0 { assert rows[1..][i - 1] == rows[i]; }
        }
      }
    }
  }

  /** A strictly sorted sequence is determined by its members. */
  lemma {:induction false} SortedUnique(xs: seq<Entry>, ys: seq<Entry>)
    requires Sorted(xs) && Sorted(ys) && forall e :: e in xs <==> e in ys
    ensures xs == ys
  {
    assert |xs| > 0 ==> xs[0] in xs;
    assert |ys| > 0 ==> ys[0] in ys;
    if xs != [] {
      var i :| 0 <= i < |xs| && xs[i] == ys[0];
      var j :| 0 <= j < |ys| && ys[j] == xs[0];
      assert i == 0;
      forall e ensures e in xs[1..] <==> e in ys[1..] {
        assert e in xs <==> e == xs[0] || e in xs[1..];
        assert e in ys <==> e == ys[0] || e in ys[1..];
        assert xs[0] !in xs[1..] && ys[0] !in ys[1..];
      }
      SortedUnique(xs[1..], ys[1..]);
    }
  }

  // ---- Marking ----

  /** MARK_OK_SQL or MARK_FAIL_SQL for one outcome. */
  function MarkRow(r: DbRow, o: RowOutcome): DbRow {
    if r.row.id != o.id then r
    else
      match o
      case Published(_) => r.(published := true, attempts := r.attempts + 1)
      case Failed(_, error) => r.(attempts := r.attempts + 1, lastError := Some(error))
  }

  function Mark(rows: seq<DbRow>, o: RowOutcome): (r: seq<DbRow>)
    ensures |r| == |rows| && forall i :: 0 <= i < |rows| ==> r[i] == MarkRow(rows[i], o)
  {
    seq(|rows|, i requires 0 <= i < |rows| => MarkRow(rows[i], o))
  }

  function MarkAll(rows: seq<DbRow>, outcomes: seq<RowOutcome>): (r: seq<DbRow>)
    ensures |r| == |rows|
    decreases |outcomes|
  {
    if outcomes == [] then rows else MarkAll(Mark(rows, outcomes[0]), outcomes[1..])
  }

  lemma {:induction false} MarkAllSnoc(rows: seq<DbRow>, outcomes: seq<RowOutcome>, o: RowOutcome)
    ensures MarkAll(rows, outcomes + [o]) == Mark(MarkAll(rows, outcomes), o)
    decreases |outcomes|
  {
    if outcomes == [] {
      assert [o][1..] == [];
    } else {
      assert (outcomes + [o])[1..] == outcomes[1..] + [o];
      MarkAllSnoc(Mark(rows, outcomes[0]), outcomes[1..], o);
    }
  }

  /** Outcomes of distinct rows: each row is marked by its own outcome, if it has one. */
  lemma {:induction false} MarkedByOwn(rows: seq<DbRow>, outcomes: seq<RowOutcome>, i: nat)
    requires i < |rows| && forall j, k :: 0 <= j < k < |outcomes| ==> outcomes[j].id != outcomes[k].id
    ensures forall k :: 0 <= k < |outcomes| && outcomes[k].id == rows[i].row.id ==>
              MarkAll(rows, outcomes)[i] == MarkRow(rows[i], outcomes[k])
    ensures (forall k :: 0 <= k < |outcomes| ==> outcomes[k].id != rows[i].row.id) ==>
              MarkAll(rows, outcomes)[i] == rows[i]
    decreases |outcomes|
  {
    if outcomes != [] {
      var first, rest := Mark(rows, outcomes[0]), outcomes[1..];
      MarkedByOwn(first, rest, i);
      forall k | 0 <= k < |outcomes| && outcomes[k].id == rows[i].row.id
        ensures MarkAll(rows, outcomes)[i] == MarkRow(rows[i], outcomes[k])
      {
        if k > 0 { assert rest[k - 1] == outcomes[k]; }
      }
    }
  }

  ghost predicate UniqueRows(picked: seq<OutboxRow>) {
    forall j, k :: 0 <= j < k < |picked| ==> picked[j].id != picked[k].id
  }

  /** What the marks of a drain make of a row: selected and published, it is marked; selected and
    * refused, it keeps the first 500 characters of its own error and stays unmarked; each counts
    * one attempt. A row that was not selected is left alone. */
  lemma DrainMarksRow(rows: seq<DbRow>, picked: seq<OutboxRow>, answers: seq<Answer>, i: nat)
    requires i < |rows| && |answers| == |picked| && UniqueRows(picked)
    ensures var old_, new_ := rows[i], MarkAll(rows, Outcomes(picked, answers))[i];
            && (forall k :: 0 <= k < |picked| && picked[k].id == old_.row.id && answers[k].Ok? ==>
                  new_ == old_.(published := true, attempts := old_.attempts + 1))
            && (forall k :: 0 <= k < |picked| && picked[k].id == old_.row.id && answers[k].Err? ==>
                  && new_ == old_.(attempts := old_.attempts + 1, lastError := new_.lastError)
                  && new_.lastError.Some? && new_.lastError.value <= answers[k].error
                  && (|new_.lastError.value| == 500 || new_.lastError.value == answers[k].error)
                  && |new_.lastError.value| <= 500)
            && ((forall k :: 0 <= k < |picked| ==> picked[k].id != old_.row.id) ==> new_ == old_)
  {
    var outcomes := Outcomes(picked, answers);
    assert forall k :: 0 <= k < |outcomes| ==> outcomes[k] == OutcomeOf(picked[k], answers[k]);
    MarkedByOwn(rows, outcomes, i);
  }

  // ---- One drain, and the loop ----

  /** What can go wrong in the transaction around a drain; an unreported commit takes effect
    * while the relay gets an error. */
  datatype Fault = NoFault | SelectFails | MarkFails(at: nat) | CommitFails | CommitUnreported

  /** The transaction of a drain of n rows commits. */
  predicate Commits(fault: Fault, n: nat) {
    match fault
    case NoFault => true
    case CommitUnreported => true
    case MarkFails(at) => at >= n
    case _ => false
  }

  /** The table after a drain that got past its select: marked if the transaction commits. */
  function TableAfter(rows: seq<DbRow>, batch: nat, fault: Fault, answers: seq<Answer>): seq<DbRow>
    requires |answers| == |DrainQuery(rows, batch)|
  {
    var picked := DrainQuery(rows, batch);
    if Commits(fault, |picked|) then MarkAll(rows, Outcomes(picked, answers)) else rows
  }

  class Outbox {
    var rows: seq<DbRow>

    constructor (rows: seq<DbRow>)
      ensures this.rows == rows
    {
      this.rows := rows;
    }

    /** drain_once: select, publish, then mark and commit. Only a commit changes the
      * table; a failure after the select leaves the publishes done. */
    method DrainOnce(publisher: Publisher, batch: int, fault: Fault) returns (r: Result<nat, Fault>)
      modifies this, publisher
      ensures batch < 0 || fault == SelectFails ==>
                r == Err(SelectFails) && rows == old(rows) && publisher.log == old(publisher.log)
      ensures batch >= 0 && fault != SelectFails ==>
                var picked := DrainQuery(old(rows), batch);
                var answers := Answers(publisher.answer, |old(publisher.log)|, picked);
                && publisher.log == old(publisher.log) + Sent(picked, answers)
                && rows == TableAfter(old(rows), batch, fault, answers)
                && (r.Ok? <==> Commits(fault, |picked|) && fault != CommitUnreported)
                && (r.Ok? ==> r.value == |picked|)
    {
      if batch < 0 || fault == SelectFails { return Err(SelectFails); }
      var picked := DrainQuery(rows, batch);
      var outcomes := DrainBatch(picked, publisher);
      var work := rows;
      for i := 0 to |outcomes|
        invariant work == MarkAll(rows, outcomes[..i])
        invariant fault.MarkFails? ==> i <= fault.at
        invariant rows == old(rows)
        invariant publisher.log == old(publisher.log)
                  + Sent(picked, Answers(publisher.answer, |old(publisher.log)|, picked))
      {
        if fault == MarkFails(i) { return Err(fault); }
        MarkAllSnoc(rows, outcomes[..i], outcomes[i]);
        assert outcomes[..i + 1] == outcomes[..i] + [outcomes[i]];
        work := Mark(work, outcomes[i]);
      }
      assert outcomes[..|outcomes|] == outcomes;
      if fault == CommitFails { return Err(fault); }
      rows := work;
      r := if fault == CommitUnreported then Err(fault) else Ok(|picked|);
    }
  }
}
