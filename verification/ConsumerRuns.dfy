/** The consume loop over any number of deliveries, on the plane: with everything else going on
  * between two deliveries, it is a run, and the store it ends with is the plane's. */
module ConsumerRuns {
  import opened Wrappers
  import opened Topology
  import opened DeathHeader
  import opened EventPlane
  import opened PlaneRefinement
  import Consumer
  import opened Runs

  /** Which queue the loop consumes, under which name and budget. */
  datatype Reader = Reader(queue: nat, name: string, maxRetries: nat)

  ghost predicate Fits(cfg: Config, r: Reader) {
    r.queue < |cfg.budgets| && cfg.budgets[r.queue] == r.maxRetries
  }

  /** What happens around one element of the stream: the steps everybody else takes before it,
    * the copy delivered, and whether a park of it reaches the parked queue. */
  datatype Turn = Turn(before: seq<Step>, item: nat, parkDelivered: bool)

  /** The element is the delivery of this copy, which waits in the queue; nobody else consumes
    * the queue at that moment. */
  ghost predicate Delivers(s: State, r: Reader, i: nat, d: Consumer.Incoming)
    requires d.Delivery?
  {
    && i < |s.items| && s.items[i].stage == Ready && s.items[i].queue == r.queue
    && d.id == s.items[i].id && d.body.Some? == s.items[i].json
    && HeadersFor(d.headers, s.items[i].deaths) && DeathCount(s.items[i].deaths) < U32
    && forall j :: 0 <= j < |s.items| && Holds(s.items[j]) ==> s.items[j].queue != r.queue
  }

  ghost function ServeSteps(s: State, r: Reader, turn: Turn, d: Consumer.Incoming): seq<Step>
    requires d.Delivery? ==> turn.item < |s.items|
  {
    var i := turn.item;
    if d.StreamError? then []
    else if d.body.None? then [Deliver(i), DropBadJson(i), Ack(i)]
    else
      var duplicate := d.id.Some? && (d.id.value, r.queue) in s.inbox;
      [Deliver(i)]
      + (DeliverySteps(i, d.id, d.replies, duplicate) + BrokerSteps(i, d.id, Answers(s, r, d), turn.parkDelivered))
  }

  /** What the loop tells the broker about the delivery. */
  ghost function Answers(s: State, r: Reader, d: Consumer.Incoming): seq<Consumer.Action>
    requires d.Delivery? && d.body.Some?
  {
    Consumer.Answer(d.id, d.body.value, LapinDeathCount(d.headers), r.maxRetries, Outcome(s, r, d))
  }

  ghost function Outcome(s: State, r: Reader, d: Consumer.Incoming): Result<Consumer.Processed, string>
    requires d.Delivery?
  {
    Consumer.Process(StoreOf(s, r), r.name, d.id, d.replies).1
  }

  /** The consumer's own view of the plane's inbox; the answer depends on nothing else. */
  ghost function StoreOf(s: State, r: Reader): Consumer.Db {
    Consumer.Db(set e | e in s.inbox && e.1 == r.queue :: (e.0, r.name), multiset{})
  }

  /** The answer depends on the inbox only. */
  lemma SameOutcome(s: State, r: Reader, db: Consumer.Db, d: Consumer.Incoming)
    requires d.Delivery? && SameStore(db, r.name, s, r.queue)
    ensures Outcome(s, r, d) == Consumer.Process(db, r.name, d.id, d.replies).1
  {
    if d.id.Some? {
      var e := d.id.value;
      assert (e, r.name) in StoreOf(s, r).inbox <==> (e, r.queue) in s.inbox;
    }
  }

  // ---- One element ----

  lemma BadJsonIsRun(cfg: Config, s: State, r: Reader, turn: Turn, d: Consumer.Incoming)
    requires Fits(cfg, r) && d.Delivery? && Delivers(s, r, turn.item, d) && d.body.None?
    ensures IsRun(cfg, s, ServeSteps(s, r, turn, d))
    ensures var t := After(cfg, s, ServeSteps(s, r, turn, d)); t.inbox == s.inbox && t.effects == s.effects
  {
    ThreeSteps(cfg, s, Deliver(turn.item), DropBadJson(turn.item), Ack(turn.item));
  }

  lemma DeliveryServed(cfg: Config, s: State, r: Reader, db: Consumer.Db, turn: Turn, d: Consumer.Incoming)
    requires Fits(cfg, r) && d.Delivery? && Delivers(s, r, turn.item, d) && d.body.Some?
    requires SameStore(db, r.name, s, r.queue)
    ensures IsRun(cfg, s, ServeSteps(s, r, turn, d))
    ensures SameStore(Consumer.Process(db, r.name, d.id, d.replies).0, r.name,
                      After(cfg, s, ServeSteps(s, r, turn, d)), r.queue)
  {
    var i := turn.item;
    var s1 := Do(cfg, s, Deliver(i));
    assert forall j :: 0 <= j < |s1.items| && Holds(s1.items[j]) ==> j != i && Holds(s.items[j]);
    assert AboutToServe(cfg, s1, i, db, r.name);
    ProcessIsRun(cfg, s1, i, db, r.name, d.replies);
    var (after, outcome) := Consumer.Process(db, r.name, d.id, d.replies);
    var first := DeliverySteps(i, d.id, d.replies, d.id.Some? && (d.id.value, r.queue) in s.inbox);
    var t := After(cfg, s1, first);
    SameOutcome(s, r, db, d);
    AnswerIsRun(cfg, t, i, d.body.value, d.headers, outcome, turn.parkDelivered);
    var last := BrokerSteps(i, d.id, Answers(s, r, d), turn.parkDelivered);
    RunConcat(cfg, s1, first, last);
    FirstStep(cfg, s, Deliver(i), first + last);
  }

  lemma TurnIsRun(cfg: Config, s: State, r: Reader, db: Consumer.Db, turn: Turn, d: Consumer.Incoming)
    requires Fits(cfg, r) && SameStore(db, r.name, s, r.queue) && (d.Delivery? ==> Delivers(s, r, turn.item, d))
    ensures IsRun(cfg, s, ServeSteps(s, r, turn, d))
    ensures SameStore(Consumer.Serve(db, r.name, r.maxRetries, d).0, r.name,
                      After(cfg, s, ServeSteps(s, r, turn, d)), r.queue)
  {
    if d.Delivery? {
      if d.body.None? { BadJsonIsRun(cfg, s, r, turn, d); } else { DeliveryServed(cfg, s, r, db, turn, d); }
    }
  }

  // ---- Any number of elements ----

  ghost predicate SameQueue(s: State, t: State, q: nat) {
    forall e: nat :: ((e, q) in s.inbox <==> (e, q) in t.inbox) && s.effects[(e, q)] == t.effects[(e, q)]
  }

  /** From s: before each element, others take steps that handle nothing of this queue; then it
    * is served. */
  ghost predicate Schedule(cfg: Config, s: State, r: Reader, ds: seq<Consumer.Incoming>, turns: seq<Turn>)
    decreases |ds|
  {
    |ds| == |turns| &&
    (ds != [] ==>
       && IsRun(cfg, s, turns[0].before)
       && var e := After(cfg, s, turns[0].before);
          && SameQueue(s, e, r.queue)
          && (ds[0].Delivery? ==> Delivers(e, r, turns[0].item, ds[0]))
          && Schedule(cfg, After(cfg, e, ServeSteps(e, r, turns[0], ds[0])), r, ds[1..], turns[1..]))
  }

  ghost function ScheduleSteps(cfg: Config, s: State, r: Reader, ds: seq<Consumer.Incoming>, turns: seq<Turn>)
    : seq<Step>
    requires Schedule(cfg, s, r, ds, turns)
    decreases |ds|
  {
    if ds == [] then []
    else
      var e := After(cfg, s, turns[0].before);
      var steps := ServeSteps(e, r, turns[0], ds[0]);
      turns[0].before + (steps + ScheduleSteps(cfg, After(cfg, e, steps), r, ds[1..], turns[1..]))
  }

  /** Serving a whole stream is a run of the plane, and leaves the same inbox and effects. */
  lemma {:induction false} ServeAllIsRun(cfg: Config, s: State, r: Reader, db: Consumer.Db,
                                         ds: seq<Consumer.Incoming>, turns: seq<Turn>)
    requires Fits(cfg, r) && SameStore(db, r.name, s, r.queue) && Schedule(cfg, s, r, ds, turns)
    ensures IsRun(cfg, s, ScheduleSteps(cfg, s, r, ds, turns))
    ensures SameStore(Consumer.ServeAll(db, r.name, r.maxRetries, ds).0, r.name,
                      After(cfg, s, ScheduleSteps(cfg, s, r, ds, turns)), r.queue)
    decreases |ds|
  {
    if ds != [] {
      var e := After(cfg, s, turns[0].before);
      var steps := ServeSteps(e, r, turns[0], ds[0]);
      var mid := Consumer.Serve(db, r.name, r.maxRetries, ds[0]).0;
      TurnIsRun(cfg, e, r, db, turns[0], ds[0]);
      var t := After(cfg, e, steps);
      ServeAllIsRun(cfg, t, r, mid, ds[1..], turns[1..]);
      var rest := ScheduleSteps(cfg, t, r, ds[1..], turns[1..]);
      RunConcat(cfg, e, steps, rest);
      RunConcat(cfg, s, turns[0].before, steps + rest);
    }
  }

  // ---- The endless loop ----

  /** All elements of all streams, in order. */
  function Stream(rounds: seq<Consumer.Round>): seq<Consumer.Incoming> {
    if rounds == [] then []
    else (if rounds[0].Stream? then rounds[0].deliveries else []) + Stream(rounds[1..])
  }

  lemma {:induction false} ServeAllConcat(db: Consumer.Db, name: string, maxRetries: nat,
                                          a: seq<Consumer.Incoming>, b: seq<Consumer.Incoming>)
    ensures Consumer.ServeAll(db, name, maxRetries, a + b).0
         == Consumer.ServeAll(Consumer.ServeAll(db, name, maxRetries, a).0, name, maxRetries, b).0
    decreases |a|
  {
    if a == [] {
      assert a + b == b;
    } else {
      assert (a + b)[0] == a[0] && (a + b)[1..] == a[1..] + b;
      ServeAllConcat(Consumer.Serve(db, name, maxRetries, a[0]).0, name, maxRetries, a[1..], b);
    }
  }

  /** Failed binds and ended streams do not touch the store. */
  lemma {:induction false} DriveServesAll(db: Consumer.Db, name: string, maxRetries: nat, backoff: nat,
                                          rounds: seq<Consumer.Round>)
    ensures Consumer.Drive(db, name, maxRetries, backoff, rounds).0
         == Consumer.ServeAll(db, name, maxRetries, Stream(rounds)).0
    decreases |rounds|
  {
    if rounds != [] {
      var first := if rounds[0].Stream? then rounds[0].deliveries else [];
      var mid := Consumer.ServeAll(db, name, maxRetries, first).0;
      DriveServesAll(mid, name, maxRetries, Consumer.NextBackoff(Consumer.SleepOf(backoff, rounds[0])), rounds[1..]);
      ServeAllConcat(db, name, maxRetries, first, Stream(rounds[1..]));
    }
  }

  /** bind_consumer over any rounds, with relays, the broker and all other consumers doing what
    * they do in between, is a run of the plane; its store is the plane's at the end. */
  lemma DriveIsRun(cfg: Config, s: State, r: Reader, db: Consumer.Db, rounds: seq<Consumer.Round>, turns: seq<Turn>)
    requires Fits(cfg, r) && SameStore(db, r.name, s, r.queue) && Schedule(cfg, s, r, Stream(rounds), turns)
    ensures IsRun(cfg, s, ScheduleSteps(cfg, s, r, Stream(rounds), turns))
    ensures SameStore(Consumer.Drive(db, r.name, r.maxRetries, Consumer.INITIAL_BACKOFF, rounds).0, r.name,
                      After(cfg, s, ScheduleSteps(cfg, s, r, Stream(rounds), turns)), r.queue)
  {
    ServeAllIsRun(cfg, s, r, db, Stream(rounds), turns);
    DriveServesAll(db, r.name, r.maxRetries, Consumer.INITIAL_BACKOFF, rounds);
  }
}
