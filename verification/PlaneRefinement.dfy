/** The imperative relay and consumer are runs of the event plane, so what the plane
  * keeps holds of them. */
module PlaneRefinement {
  import opened Wrappers
  import opened Topology
  import opened DeathHeader
  import opened EventPlane
  import opened Runs
  import Consumer
  import Relay
  import RelayProgress

  // ---- One delivery of the consumer ----

  /** The inbox of one consumer and the effects under its name, as the plane has them. */
  ghost predicate SameStore(db: Consumer.Db, name: string, s: State, q: nat) {
    forall e: nat ::
      && ((e, name) in db.inbox <==> (e, q) in s.inbox)
      && db.effects[(Some(e), name)] == s.effects[(e, q)]
  }

  /** The steps of one delivery, up to the call that tells the broker. */
  ghost function DeliverySteps(i: nat, id: Option<nat>, replies: Consumer.Replies, duplicate: bool): seq<Step> {
    if !replies.begins || (id.Some? && !replies.claims) then [DatabaseErr(i)]
    else if duplicate then [Claim(i)]
    else if replies.handler.Err? then [Claim(i), HandlerErr(i)]
    else
      match replies.commits
      case Done => [Claim(i), HandlerOk(i), Commit(i, true)]
      case NotDone => [Claim(i), HandlerOk(i), DatabaseErr(i)]
      case DoneButError => [Claim(i), HandlerOk(i), Commit(i, false)]
  }

  ghost predicate AboutToServe(cfg: Config, s: State, i: nat, db: Consumer.Db, name: string) {
    && At(s, i, Received) && s.items[i].json
    && (s.items[i].id.Some? ==> !ClaimBlocked(s, i))
    && SameStore(db, name, s, s.items[i].queue)
  }

  /** After one delivery: the store is as process_one left it, nothing else moved, and the
    * consumer stands at the ack or at the retry decision according to the result. */
  ghost predicate Served(s: State, i: nat, t: State, after: Consumer.Db, name: string, ok: bool)
    requires i < |s.items|
  {
    && At(t, i, if ok then AckDue else Failed)
    && t == s.(items := t.items, inbox := t.inbox, effects := t.effects)
    && t.items == s.items[i := s.items[i].(stage := t.items[i].stage)]
    && SameStore(after, name, t, s.items[i].queue)
  }

  /** What process_one does is a run of the plane. */
  lemma ProcessIsRun(cfg: Config, s: State, i: nat, db: Consumer.Db, name: string, replies: Consumer.Replies)
    requires AboutToServe(cfg, s, i, db, name)
    ensures var it, (after, r) := s.items[i], Consumer.Process(db, name, s.items[i].id, replies);
            var steps := DeliverySteps(i, it.id, replies, it.id.Some? && Pair(it) in s.inbox);
            IsRun(cfg, s, steps) && Served(s, i, After(cfg, s, steps), after, name, r.Ok?)
  {
    var it := s.items[i];
    if !replies.begins || (it.id.Some? && !replies.claims) {
      OneStep(cfg, s, DatabaseErr(i));
    } else if it.id.Some? && Pair(it) in s.inbox {
      assert (it.id.value, name) in db.inbox;
      OneStep(cfg, s, Claim(i));
    } else {
      assert it.id.Some? ==> (it.id.value, name) !in db.inbox;
      assert Do(cfg, s, Claim(i)) == SetPhase(s, i, Claimed);
      if replies.handler.Err? {
        TwoSteps(cfg, s, Claim(i), HandlerErr(i));
        assert Do(cfg, SetPhase(s, i, Claimed), HandlerErr(i)) == SetPhase(s, i, Failed);
      } else {
        RanIsRun(cfg, s, i, db, name, replies);
      }
    }
  }

  lemma RanIsRun(cfg: Config, s: State, i: nat, db: Consumer.Db, name: string, replies: Consumer.Replies)
    requires AboutToServe(cfg, s, i, db, name)
    requires replies.begins && (s.items[i].id.Some? ==> replies.claims) && replies.handler.Ok?
    requires s.items[i].id.Some? ==> Pair(s.items[i]) !in s.inbox && (s.items[i].id.value, name) !in db.inbox
    ensures var (after, r) := Consumer.Process(db, name, s.items[i].id, replies);
            var steps := DeliverySteps(i, s.items[i].id, replies, false);
            IsRun(cfg, s, steps) && Served(s, i, After(cfg, s, steps), after, name, r.Ok?)
  {
    var s1, s2 := SetPhase(s, i, Claimed), SetPhase(s, i, Ran);
    assert Do(cfg, s, Claim(i)) == s1;
    assert Do(cfg, s1, HandlerOk(i)) == s2;
    if replies.commits == Consumer.NotDone {
      ThreeSteps(cfg, s, Claim(i), HandlerOk(i), DatabaseErr(i));
      assert Do(cfg, s2, DatabaseErr(i)) == SetPhase(s, i, Failed);
    } else {
      var reported := replies.commits == Consumer.Done;
      ThreeSteps(cfg, s, Claim(i), HandlerOk(i), Commit(i, reported));
      CommitServed(cfg, s, i, db, name, replies, reported);
    }
  }

  lemma CommitServed(cfg: Config, s: State, i: nat, db: Consumer.Db, name: string, replies: Consumer.Replies,
                     reported: bool)
    requires AboutToServe(cfg, s, i, db, name)
    requires replies.begins && (s.items[i].id.Some? ==> replies.claims) && replies.handler.Ok?
    requires s.items[i].id.Some? ==> Pair(s.items[i]) !in s.inbox && (s.items[i].id.value, name) !in db.inbox
    requires replies.commits == if reported then Consumer.Done else Consumer.DoneButError
    ensures Served(s, i, Do(cfg, SetPhase(s, i, Ran), Commit(i, reported)),
                   Consumer.Process(db, name, s.items[i].id, replies).0, name, reported)
  {
    var t := Do(cfg, SetPhase(s, i, Ran), Commit(i, reported));
    assert t.items == s.items[i := s.items[i].(stage := t.items[i].stage)];
  }

  /** The plane's steps for what the loop then tells the broker about the copy with this id: a park
    * only for a publish to the parked queue under that id. Anything else is no step at all. */
  ghost function BrokerSteps(i: nat, id: Option<nat>, actions: seq<Consumer.Action>, parkDelivered: bool): seq<Step>
  {
    if actions == [Consumer.Ack] then [Ack(i)]
    else if |actions| == 2 && actions[0].LogRetry? && actions[1] == Consumer.Nack then [Nack(i)]
    else if |actions| == 2 && actions[0].PublishParked? && actions[0].id == id && actions[1] == Consumer.Ack then
      [ParkCopy(i, parkDelivered), Ack(i)]
    else []
  }

  /** Whatever process_one returned, the loop's answer is a run of the plane: the header it
    * reads gives the decision the plane makes from the copy's deaths. Nothing is handled by it and the
    * delivery is over; a parked copy of the event is new exactly if the delivery failed with its
    * budget spent and the park reached the queue. */
  lemma AnswerIsRun(cfg: Config, t: State, i: nat, body: string, headers: Headers,
                    outcome: Result<Consumer.Processed, string>, parkDelivered: bool)
    requires At(t, i, if outcome.Ok? then AckDue else Failed)
    requires t.items[i].queue < |cfg.budgets| && DeathCount(t.items[i].deaths) < U32
    requires HeadersFor(headers, t.items[i].deaths)
    ensures var it := t.items[i];
            var actions := Consumer.Answer(it.id, body, LapinDeathCount(headers), cfg.budgets[it.queue], outcome);
            && IsRun(cfg, t, BrokerSteps(i, it.id, actions, parkDelivered))
            && Answered(t, After(cfg, t, BrokerSteps(i, it.id, actions, parkDelivered)), i,
                        outcome.Err? && !MustRetry(cfg, it) && parkDelivered)
  {
    var it := t.items[i];
    LapinReadsDeathCount(headers, it.deaths);
    BrokerStepsAre(i, it.id, body, DeathCount(it.deaths), cfg.budgets[it.queue], outcome, parkDelivered);
    if outcome.Ok? {
      AckAnswers(cfg, t, i);
    } else if MustRetry(cfg, it) {
      NackAnswers(cfg, t, i);
    } else {
      ParkAnswers(cfg, t, i, parkDelivered);
    }
  }

  /** What the loop's answer stands for. */
  lemma BrokerStepsAre(i: nat, id: Option<nat>, body: string, deaths: nat, maxRetries: nat,
                       outcome: Result<Consumer.Processed, string>, parkDelivered: bool)
    ensures BrokerSteps(i, id, Consumer.Answer(id, body, deaths, maxRetries, outcome), parkDelivered)
         == if outcome.Ok? then [Ack(i)]
            else if deaths < maxRetries then [Nack(i)]
            else [ParkCopy(i, parkDelivered), Ack(i)]
  {
  }

  lemma AckAnswers(cfg: Config, t: State, i: nat)
    requires Enabled(cfg, t, Ack(i))
    ensures IsRun(cfg, t, [Ack(i)]) && Answered(t, After(cfg, t, [Ack(i)]), i, false)
  {
    OneStep(cfg, t, Ack(i));
  }

  /** Nothing is handled, the delivery is over, and nothing is new but a parked copy if there is
    * to be one. */
  ghost predicate Answered(t: State, u: State, i: nat, parked: bool) {
    && u.inbox == t.inbox && u.effects == t.effects
    && i < |t.items| <= |u.items| && (u.items[i].stage == Gone || u.items[i].stage == Waiting)
    && (forall j :: 0 <= j < |t.items| && j != i ==> u.items[j] == t.items[j])
    && u.items[|t.items|..]
       == if parked then [Item(t.items[i].queue, t.items[i].id, t.items[i].json, [], Stage.Parked)] else []
  }

  lemma NackAnswers(cfg: Config, t: State, i: nat)
    requires Enabled(cfg, t, Nack(i))
    ensures IsRun(cfg, t, [Nack(i)]) && Answered(t, After(cfg, t, [Nack(i)]), i, false)
  {
    OneStep(cfg, t, Nack(i));
  }

  lemma ParkAnswers(cfg: Config, t: State, i: nat, delivered: bool)
    requires Enabled(cfg, t, ParkCopy(i, delivered))
    ensures IsRun(cfg, t, [ParkCopy(i, delivered), Ack(i)])
    ensures Answered(t, After(cfg, t, [ParkCopy(i, delivered), Ack(i)]), i, delivered)
  {
    var p := Do(cfg, t, ParkCopy(i, delivered));
    assert p.items[i] == t.items[i].(stage := Busy(t.items[i].stage.live, AckDue));
    TwoSteps(cfg, t, ParkCopy(i, delivered), Ack(i));
  }

  // ---- One drain of the relay ----

  /** How a routing key is split at its dots. */
  type Splitter = string -> Key

  /** The table and the plane's rows agree on what the relay reads and writes: the event types, the
    * marks and the attempts. */
  ghost predicate SameTable(split: Splitter, table: seq<Relay.DbRow>, rows: seq<Row>) {
    && |table| == |rows|
    && forall r :: 0 <= r < |rows| ==> SameRow(split, table[r], rows[r])
  }

  ghost predicate SameRow(split: Splitter, entry: Relay.DbRow, row: Row) {
    && row.key == split(entry.row.eventType)
    && row.published == entry.published && row.attempts == entry.attempts
  }

  /** Event ids are unique, so an id stands for the row it is of. */
  ghost predicate UniqueEvents(table: seq<Relay.DbRow>) {
    forall i, j :: 0 <= i < j < |table| ==> table[i].row.eventId != table[j].row.eventId
  }

  /** The row a message id names. */
  ghost function EventOf(table: seq<Relay.DbRow>, messageId: string): Option<nat> {
    if r: nat :| r < |table| && table[r].row.eventId == messageId then Some(r) else None
  }

  /** The copies that the delivered of these messages put on the queues: on every queue bound to
    * the routing key of the message, under the event its message id names. */
  ghost function CopiesOf(cfg: Config, split: Splitter, table: seq<Relay.DbRow>,
                          sent: seq<(Relay.Message, Relay.Answer)>, delivered: seq<bool>): seq<Item>
    requires |sent| == |delivered|
    decreases |sent|
  {
    if sent == [] then []
    else
      (if delivered[0]
       then FanOut(cfg, split(sent[0].0.routingKey), EventOf(table, sent[0].0.messageId), true, [])
       else [])
      + CopiesOf(cfg, split, table, sent[1..], delivered[1..])
  }

  /** The copies a drain of these rows of the plane puts there. */
  ghost function DrainCopies(cfg: Config, rows: seq<Row>, positions: seq<nat>, delivered: seq<bool>): seq<Item>
    requires |positions| == |delivered| && forall k :: 0 <= k < |positions| ==> positions[k] < |rows|
    decreases |positions|
  {
    if positions == [] then []
    else
      (if delivered[0] then FanOut(cfg, rows[positions[0]].key, Some(positions[0]), true, []) else [])
      + DrainCopies(cfg, rows, positions[1..], delivered[1..])
  }

  /** The copies carry the key and the id of the message sent. */
  lemma {:induction false} SameCopies(cfg: Config, split: Splitter, table: seq<Relay.DbRow>, rows: seq<Row>,
                                      picked: seq<Relay.OutboxRow>, answers: seq<Relay.Answer>,
                                      positions: seq<nat>, delivered: seq<bool>)
    requires SameTable(split, table, rows) && UniqueEvents(table) && PositionsOf(table, picked, positions)
    requires |answers| == |delivered| == |picked|
    ensures CopiesOf(cfg, split, table, Relay.Sent(picked, answers), delivered)
         == DrainCopies(cfg, rows, positions, delivered)
    decreases |picked|
  {
    if picked != [] {
      var sent := Relay.Sent(picked, answers);
      assert sent[1..] == Relay.Sent(picked[1..], answers[1..]);
      SameCopies(cfg, split, table, rows, picked[1..], answers[1..], positions[1..], delivered[1..]);
      NamesItsRow(split, table, rows, positions[0]);
    }
  }

  lemma NamesItsRow(split: Splitter, table: seq<Relay.DbRow>, rows: seq<Row>, r: nat)
    requires SameTable(split, table, rows) && UniqueEvents(table) && r < |table|
    ensures var m := Relay.MessageOf(table[r].row);
            EventOf(table, m.messageId) == Some(r) && split(m.routingKey) == rows[r].key
  {
    var m := Relay.MessageOf(table[r].row);
    Relay.MessageCarries(table[r].row, table[r].row);
    assert table[r].row.eventId == m.messageId;
    assert SameRow(split, table[r], rows[r]);
  }

  /** `positions` are where the picked rows stand in the table. */
  ghost predicate PositionsOf(table: seq<Relay.DbRow>, picked: seq<Relay.OutboxRow>, positions: seq<nat>) {
    && |positions| == |picked|
    && forall k :: 0 <= k < |picked| ==>
         positions[k] < |table| && table[positions[k]].row == picked[k] && !table[positions[k]].published
  }

  /** The query picks distinct unpublished rows of the table. */
  lemma PickedPositions(table: seq<Relay.DbRow>, batch: nat) returns (positions: seq<nat>)
    requires Relay.UniqueIds(table)
    ensures PositionsOf(table, Relay.DrainQuery(table, batch), positions) && Distinct(positions)
  {
    Relay.PendingSpec(table);
    var p, picked := Relay.Pending(table), Relay.DrainQuery(table, batch);
    positions := [];
    for k := 0 to |picked|
      invariant |positions| == k
      invariant forall j :: 0 <= j < k ==>
        positions[j] < |table| && Relay.EntryOf(table[positions[j]]) == p[j] && !table[positions[j]].published
    {
      assert p[k] in p;
      var i :| 0 <= i < |table| && !table[i].published && Relay.EntryOf(table[i]) == p[k];
      positions := positions + [i];
    }
    forall j, k | 0 <= j < k < |positions| ensures positions[j] != positions[k] {
      assert Relay.Before(p[j], p[k]);
    }
  }

  ghost function PublishSteps(d: nat, oks: seq<bool>, delivered: seq<bool>): seq<Step>
    requires |oks| == |delivered|
  {
    if oks == [] then [] else [Publish(d, oks[0], delivered[0])] + PublishSteps(d, oks[1..], delivered[1..])
  }

  /** Publishing touches nothing of a row but the record of its publishes. */
  ghost predicate SameButPublishes(a: seq<Row>, b: seq<Row>) {
    && |a| == |b|
    && forall r :: 0 <= r < |a| ==> b[r] == a[r].(okPublishes := b[r].okPublishes, enqueued := b[r].enqueued)
  }

  lemma SameRowsTrans(a: seq<Row>, b: seq<Row>, c: seq<Row>)
    requires SameButPublishes(a, b) && SameButPublishes(b, c)
    ensures SameButPublishes(a, c)
  {
    forall r | 0 <= r < |a| ensures c[r] == a[r].(okPublishes := c[r].okPublishes, enqueued := c[r].enqueued) {
      assert b[r] == a[r].(okPublishes := b[r].okPublishes, enqueued := b[r].enqueued);
    }
  }

  /** Drain d has published `oks` more, which put these copies on the queues; nothing else about it
    * or the rows' marks changed. */
  ghost predicate HasPublished(s: State, t: State, d: nat, oks: seq<bool>, copies: seq<Item>)
    requires d < |s.drains|
  {
    && |t.drains| == |s.drains| && t.drains[d] == s.drains[d].(oks := s.drains[d].oks + oks)
    && SameButPublishes(s.rows, t.rows)
    && t.items == s.items + copies
  }

  lemma HasPublishedTrans(s: State, s1: State, t: State, d: nat, first: bool, rest: seq<bool>,
                          copy: seq<Item>, copies: seq<Item>)
    requires d < |s.drains| && HasPublished(s, s1, d, [first], copy) && HasPublished(s1, t, d, rest, copies)
    ensures HasPublished(s, t, d, [first] + rest, copy + copies)
  {
    assert (s.drains[d].oks + [first]) + rest == s.drains[d].oks + ([first] + rest);
    assert (s.items + copy) + copies == s.items + (copy + copies);
    SameRowsTrans(s.rows, s1.rows, t.rows);
  }

  lemma PublishIsOneMore(cfg: Config, s: State, d: nat, ok: bool, delivered: bool)
    requires Enabled(cfg, s, Publish(d, ok, delivered))
    ensures var r := s.drains[d].rows[|s.drains[d].oks|];
            HasPublished(s, Do(cfg, s, Publish(d, ok, delivered)), d, [ok],
                         if delivered then FanOut(cfg, s.rows[r].key, Some(r), true, []) else [])
  {
    assert s.items + [] == s.items;
  }

  /** The copies depend on the keys of the rows only, which publishing does not touch. */
  lemma {:induction false} SameKeysSameCopies(cfg: Config, a: seq<Row>, b: seq<Row>, positions: seq<nat>,
                                              delivered: seq<bool>)
    requires SameButPublishes(a, b) && |positions| == |delivered|
    requires forall k :: 0 <= k < |positions| ==> positions[k] < |a|
    ensures DrainCopies(cfg, b, positions, delivered) == DrainCopies(cfg, a, positions, delivered)
    decreases |positions|
  {
    if positions != [] {
      assert b[positions[0]].key == a[positions[0]].key;
      SameKeysSameCopies(cfg, a, b, positions[1..], delivered[1..]);
    }
  }

  lemma OneLess(s: State, s1: State, d: nat, ok: bool, copies: seq<Item>)
    requires ActiveDrain(s, d) && |s.drains[d].oks| < |s.drains[d].rows| && HasPublished(s, s1, d, [ok], copies)
    ensures ActiveDrain(s1, d) && |s1.rows| == |s.rows| && s1.drains[d].rows == s.drains[d].rows
    ensures |s1.drains[d].oks| == |s.drains[d].oks| + 1
    ensures s1.drains[d].rows[|s1.drains[d].oks|..] == s.drains[d].rows[|s.drains[d].oks|..][1..]
  {
  }

  /** From a drain that has published `from` rows, publishing the rest is a run. */
  lemma {:induction false} PublishesAreRun(cfg: Config, s: State, d: nat, oks: seq<bool>, delivered: seq<bool>)
    requires ActiveDrain(s, d) && |oks| == |delivered|
    requires |s.drains[d].oks| + |oks| == |s.drains[d].rows|
    requires forall k :: 0 <= k < |s.drains[d].rows| ==> s.drains[d].rows[k] < |s.rows|
    ensures IsRun(cfg, s, PublishSteps(d, oks, delivered))
    ensures HasPublished(s, After(cfg, s, PublishSteps(d, oks, delivered)), d, oks,
                         DrainCopies(cfg, s.rows, s.drains[d].rows[|s.drains[d].oks|..], delivered))
    decreases |oks|
  {
    var left := s.drains[d].rows[|s.drains[d].oks|..];
    if oks == [] {
      assert s.drains[d].oks + [] == s.drains[d].oks && s.items + [] == s.items;
    } else {
      var first, rest := Publish(d, oks[0], delivered[0]), PublishSteps(d, oks[1..], delivered[1..]);
      var s1 := Do(cfg, s, first);
      PublishIsOneMore(cfg, s, d, oks[0], delivered[0]);
      OneLess(s, s1, d, oks[0], if delivered[0] then FanOut(cfg, s.rows[left[0]].key, Some(left[0]), true, []) else []);
      PublishesAreRun(cfg, s1, d, oks[1..], delivered[1..]);
      SameKeysSameCopies(cfg, s.rows, s1.rows, left[1..], delivered[1..]);
      FirstStep(cfg, s, first, rest);
      HasPublishedTrans(s, s1, After(cfg, s1, rest), d, oks[0], oks[1..],
                        if delivered[0] then FanOut(cfg, s.rows[left[0]].key, Some(left[0]), true, []) else [],
                        DrainCopies(cfg, s.rows, left[1..], delivered[1..]));
      assert oks == [oks[0]] + oks[1..];
    }
  }

  /** A drain that ends with its commit, or with its transaction rolled back. */
  ghost function DrainSteps(d: nat, positions: seq<nat>, oks: seq<bool>, delivered: seq<bool>, commits: bool)
    : seq<Step>
    requires |oks| == |delivered|
  {
    [Select(positions)] + (PublishSteps(d, oks, delivered) + [if commits then CommitDrain(d) else AbortDrain(d)])
  }

  /** The rows once the drain has ended. */
  ghost predicate Drained(s: State, t: State, positions: seq<nat>, oks: seq<bool>, commits: bool)
    requires |oks| == |positions|
  {
    && |t.rows| == |s.rows|
    && forall r :: 0 <= r < |s.rows| ==>
         && t.rows[r].key == s.rows[r].key && t.rows[r].lock.None?
         && t.rows[r].attempts == s.rows[r].attempts + (if commits && r in positions then 1 else 0)
         && (t.rows[r].published <==>
               s.rows[r].published || (commits && exists k :: 0 <= k < |oks| && positions[k] == r && oks[k]))
  }

  /** Select, publish each, mark and commit, or roll back: a run, with exactly these marks, that puts
    * exactly these copies on the queues. */
  lemma DrainIsPlaneRun(cfg: Config, s: State, positions: seq<nat>, oks: seq<bool>, delivered: seq<bool>, commits: bool)
    requires Enabled(cfg, s, Select(positions)) && |oks| == |delivered| == |positions|
    requires forall r :: 0 <= r < |s.rows| ==> s.rows[r].lock.None?
    ensures var steps := DrainSteps(|s.drains|, positions, oks, delivered, commits);
            && IsRun(cfg, s, steps)
            && Drained(s, After(cfg, s, steps), positions, oks, commits)
            && After(cfg, s, steps).items == s.items + DrainCopies(cfg, s.rows, positions, delivered)
  {
    var d := |s.drains|;
    var s1 := Do(cfg, s, Select(positions));
    var publishes, last := PublishSteps(d, oks, delivered), if commits then CommitDrain(d) else AbortDrain(d);
    PublishesAreRun(cfg, s1, d, oks, delivered);
    var s2 := After(cfg, s1, publishes);
    assert s2.drains[d].oks == oks by { assert [] + oks == oks; }
    assert s1.drains[d].rows[0..] == positions;
    LockedCopies(cfg, s.rows, positions, Some(d), positions, delivered);
    OneStep(cfg, s2, last);
    RunConcat(cfg, s1, publishes, [last]);
    FirstStep(cfg, s, Select(positions), publishes + [last]);
    EndOfDrain(cfg, s, s2, positions, oks, commits);
  }

  lemma {:induction false} LockedCopies(cfg: Config, rows: seq<Row>, locked: seq<nat>, lock: Option<nat>,
                                        positions: seq<nat>, delivered: seq<bool>)
    requires |positions| == |delivered| && forall k :: 0 <= k < |positions| ==> positions[k] < |rows|
    ensures DrainCopies(cfg, LockRows(rows, locked, lock), positions, delivered)
         == DrainCopies(cfg, rows, positions, delivered)
    decreases |positions|
  {
    if positions != [] { LockedCopies(cfg, rows, locked, lock, positions[1..], delivered[1..]); }
  }

  /** The last step of a drain that has published everything. */
  lemma EndOfDrain(cfg: Config, s: State, s2: State, positions: seq<nat>, oks: seq<bool>, commits: bool)
    requires Enabled(cfg, s, Select(positions)) && |oks| == |positions|
    requires forall r :: 0 <= r < |s.rows| ==> s.rows[r].lock.None?
    requires |s2.drains| == |s.drains| + 1 && s2.drains[|s.drains|] == Drain(positions, oks, Active)
    requires SameButPublishes(LockRows(s.rows, positions, Some(|s.drains|)), s2.rows)
    ensures var last := if commits then CommitDrain(|s.drains|) else AbortDrain(|s.drains|);
            Enabled(cfg, s2, last) && Drained(s, Do(cfg, s2, last), positions, oks, commits)
  {
    var d := |s.drains|;
    forall r | 0 <= r < |s.rows|
      ensures PublishedIn(s2.drains[d], r) <==> exists k :: 0 <= k < |oks| && positions[k] == r && oks[k]
    {
      if k :| 0 <= k < |oks| && positions[k] == r && oks[k] {
        assert s2.drains[d].rows[k] == r && s2.drains[d].oks[k];
      }
    }
  }

  ghost function OksOf(answers: seq<Relay.Answer>): (oks: seq<bool>)
    ensures |oks| == |answers| && forall k :: 0 <= k < |oks| ==> oks[k] == answers[k].Ok?
  {
    seq(|answers|, k requires 0 <= k < |answers| => answers[k].Ok?)
  }

  /** Each id named once by the outcomes is attempted once, the others not at all. */
  lemma {:induction false} MarkAllAttempts(table: seq<Relay.DbRow>, outcomes: seq<Relay.RowOutcome>, r: nat)
    requires r < |table|
    requires forall j, k :: 0 <= j < k < |outcomes| ==> outcomes[j].id != outcomes[k].id
    ensures Relay.MarkAll(table, outcomes)[r].attempts
         == table[r].attempts
            + (if exists k :: 0 <= k < |outcomes| && outcomes[k].id == table[r].row.id then 1 else 0)
    decreases |outcomes|
  {
    if outcomes != [] {
      var id := table[r].row.id;
      MarkAllAttempts(Relay.Mark(table, outcomes[0]), outcomes[1..], r);
      if k :| 0 <= k < |outcomes| && outcomes[k].id == id {
        if k > 0 { assert outcomes[1..][k - 1].id == id; }
      }
      if k :| 0 <= k < |outcomes[1..]| && outcomes[1..][k].id == id {
        assert outcomes[k + 1].id == id;
      }
    }
  }

  /** One turn of the relay, whatever goes wrong in its transaction, is a run of the plane: it leaves
    * the same table, and the queues get the copies of exactly the messages it sent that the broker
    * enqueued, each with the routing key and the message id it was sent with. */
  lemma DrainRefines(cfg: Config, s: State, split: Splitter, table: seq<Relay.DbRow>, batch: nat, fault: Relay.Fault,
                     answers: seq<Relay.Answer>, delivered: seq<bool>) returns (steps: seq<Step>)
    requires Relay.UniqueIds(table) && UniqueEvents(table) && SameTable(split, table, s.rows)
    requires |answers| == |delivered| == |Relay.DrainQuery(table, batch)|
    requires forall r :: 0 <= r < |s.rows| ==> s.rows[r].lock.None?
    ensures IsRun(cfg, s, steps)
    ensures var picked, t := Relay.DrainQuery(table, batch), After(cfg, s, steps);
            && SameTable(split, Relay.TableAfter(table, batch, fault, answers), t.rows)
            && (forall r :: 0 <= r < |t.rows| ==> t.rows[r].lock.None?)
            && t.items == s.items + if fault == Relay.SelectFails then []
                                    else CopiesOf(cfg, split, table, Relay.Sent(picked, answers), delivered)
  {
    var picked := Relay.DrainQuery(table, batch);
    if picked == [] || fault == Relay.SelectFails {
      steps := [];
      assert s.items + [] == s.items;
    } else {
      var positions := PickedPositions(table, batch);
      var commits := Relay.Commits(fault, |picked|);
      steps := DrainSteps(|s.drains|, positions, OksOf(answers), delivered, commits);
      DrainIsPlaneRun(cfg, s, positions, OksOf(answers), delivered, commits);
      SameCopies(cfg, split, table, s.rows, picked, answers, positions, delivered);
      SameTableAfter(cfg, s, After(cfg, s, steps), split, table, batch, fault, answers, positions);
    }
  }

  lemma SameTableAfter(cfg: Config, s: State, t: State, split: Splitter, table: seq<Relay.DbRow>, batch: nat,
                       fault: Relay.Fault, answers: seq<Relay.Answer>, positions: seq<nat>)
    requires Relay.UniqueIds(table) && SameTable(split, table, s.rows)
    requires |answers| == |Relay.DrainQuery(table, batch)|
    requires PositionsOf(table, Relay.DrainQuery(table, batch), positions) && Distinct(positions)
    requires Drained(s, t, positions, OksOf(answers), Relay.Commits(fault, |answers|))
    ensures SameTable(split, Relay.TableAfter(table, batch, fault, answers), t.rows)
  {
    var picked := Relay.DrainQuery(table, batch);
    var outcomes := Relay.Outcomes(picked, answers);
    forall j, k | 0 <= j < k < |outcomes| ensures outcomes[j].id != outcomes[k].id {
      assert table[positions[j]].row.id != table[positions[k]].row.id;
    }
    forall r: nat | r < |table| ensures SameRow(split, Relay.TableAfter(table, batch, fault, answers)[r], t.rows[r]) {
      assert SameRow(split, table[r], s.rows[r]);
      MarkAllAttempts(table, outcomes, r);
      RelayProgress.MarkAllPublished(table, outcomes, r);
      SamePicks(table, picked, answers, positions, r);
    }
  }

  /** A row is named by an outcome iff its position was selected, and so for the Ok ones. */
  lemma SamePicks(table: seq<Relay.DbRow>, picked: seq<Relay.OutboxRow>, answers: seq<Relay.Answer>,
                  positions: seq<nat>, r: nat)
    requires Relay.UniqueIds(table) && PositionsOf(table, picked, positions) && r < |table|
    requires |answers| == |picked|
    ensures var outcomes := Relay.Outcomes(picked, answers);
            && (r in positions <==> exists k :: 0 <= k < |outcomes| && outcomes[k].id == table[r].row.id)
            && (Relay.Published(table[r].row.id) in outcomes <==>
                 (exists k :: 0 <= k < |answers| && positions[k] == r && OksOf(answers)[k]))
  {
    var outcomes := Relay.Outcomes(picked, answers);
    forall k | 0 <= k < |outcomes|
      ensures outcomes[k].id == table[r].row.id <==> positions[k] == r
      ensures outcomes[k] == Relay.Published(table[r].row.id) <==> positions[k] == r && answers[k].Ok?
    {
      assert outcomes[k] == Relay.OutcomeOf(picked[k], answers[k]);
      assert table[positions[k]].row == picked[k];
    }
    if k :| 0 <= k < |answers| && positions[k] == r && OksOf(answers)[k] {
      assert outcomes[k] in outcomes;
    }
    if r in positions {
      var k :| 0 <= k < |positions| && positions[k] == r;
      assert outcomes[k].id == table[r].row.id;
    }
  }
}
