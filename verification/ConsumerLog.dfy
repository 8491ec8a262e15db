/** What the consume loop tells the broker, delivery by delivery: each is acked or nacked once,
  * a failure below the budget is nacked, and one that has spent it is parked before its ack. */
module ConsumerLog {
  import opened Wrappers
  import opened Topology
  import opened DeathHeader
  import opened Consumer
  import opened Seqs

  // ---- When a delivery fails, and why ----

  /** The transaction is rolled back or not seen to commit, for this reason. */
  function Failure(inbox: set<(nat, string)>, consumer: string, d: Incoming): Option<string>
    requires d.Delivery?
  {
    var claims := d.id.Some?;
    if d.body.None? then None
    else if !d.replies.begins || (claims && !d.replies.claims) then Some(DB_ERROR)
    else if claims && (d.id.value, consumer) in inbox then None
    else
      match d.replies.handler
      case Err(reason) => Some(reason)
      case Ok(_) => if d.replies.commits == Done then None else Some(DB_ERROR)
  }

  /** What the broker is told about one element of the stream, after what came before it. */
  ghost predicate Told(inbox: set<(nat, string)>, consumer: string, maxRetries: nat, d: Incoming, told: seq<Action>) {
    if d.StreamError? then told == []
    else
      var failure, count := Failure(inbox, consumer, d), LapinDeathCount(d.headers);
      if failure.None? then told == [Ack]
      else if count < maxRetries then told == [LogRetry(count + 1), Nack]
      else told == [PublishParked(d.id, d.body.value, failure.value), Ack]
  }

  lemma ServeTells(db: Db, consumer: string, maxRetries: nat, d: Incoming)
    ensures Told(db.inbox, consumer, maxRetries, d, Serve(db, consumer, maxRetries, d).1)
  {
  }

  // ---- The log, element by element ----

  /** Serving one element more. */
  lemma {:induction false} ServeAllSnoc(db: Db, consumer: string, maxRetries: nat, ds: seq<Incoming>, d: Incoming)
    ensures var (mid, told) := ServeAll(db, consumer, maxRetries, ds);
            var (after, more) := Serve(mid, consumer, maxRetries, d);
            ServeAll(db, consumer, maxRetries, ds + [d]) == (after, told + more)
    decreases |ds|
  {
    if ds == [] {
      assert [d][1..] == [];
      var (after, more) := Serve(db, consumer, maxRetries, d);
      assert more + [] == more && [] + more == more;
    } else {
      var (mid, first) := Serve(db, consumer, maxRetries, ds[0]);
      assert (ds + [d])[0] == ds[0] && (ds + [d])[1..] == ds[1..] + [d];
      ServeAllSnoc(mid, consumer, maxRetries, ds[1..], d);
      var (last, told) := ServeAll(mid, consumer, maxRetries, ds[1..]);
      Regroup(first, told, Serve(last, consumer, maxRetries, d).1);
    }
  }

  lemma {:induction false} ServeAllPrefix(db: Db, consumer: string, maxRetries: nat, ds: seq<Incoming>, i: nat)
    requires i <= |ds|
    ensures ServeAll(db, consumer, maxRetries, ds[..i]).1 <= ServeAll(db, consumer, maxRetries, ds).1
    decreases |ds| - i
  {
    if i == |ds| {
      assert ds[..i] == ds;
    } else {
      ServeAllPrefix(db, consumer, maxRetries, ds, i + 1);
      assert ds[..i + 1] == ds[..i] + [ds[i]];
      ServeAllSnoc(db, consumer, maxRetries, ds[..i], ds[i]);
    }
  }

  /** The backoff a loop that started with `backoff` has after these rounds. */
  function BackoffAfter(backoff: nat, rounds: seq<Round>): nat
    decreases |rounds|
  {
    if rounds == [] then backoff else BackoffAfter(NextBackoff(SleepOf(backoff, rounds[0])), rounds[1..])
  }

  /** What one round does, started with `backoff`. */
  function RoundOf(db: Db, consumer: string, maxRetries: nat, backoff: nat, round: Round): (Db, seq<Action>) {
    var (after, told) := if round.Stream? then ServeAll(db, consumer, maxRetries, round.deliveries) else (db, []);
    (after, told + [Sleep(SleepOf(backoff, round))])
  }

  lemma DriveFirst(db: Db, consumer: string, maxRetries: nat, backoff: nat, rounds: seq<Round>)
    requires rounds != []
    ensures var (mid, first) := RoundOf(db, consumer, maxRetries, backoff, rounds[0]);
            var next := NextBackoff(SleepOf(backoff, rounds[0]));
            var (after, rest) := Drive(mid, consumer, maxRetries, next, rounds[1..]);
            Drive(db, consumer, maxRetries, backoff, rounds) == (after, first + rest)
  {
  }

  /** One round more. */
  lemma {:induction false} DriveSnoc(db: Db, consumer: string, maxRetries: nat, backoff: nat, rounds: seq<Round>,
                                     round: Round)
    ensures var (mid, told) := Drive(db, consumer, maxRetries, backoff, rounds);
            var (after, more) := RoundOf(mid, consumer, maxRetries, BackoffAfter(backoff, rounds), round);
            Drive(db, consumer, maxRetries, backoff, rounds + [round]) == (after, told + more)
    decreases |rounds|
  {
    var all := rounds + [round];
    DriveFirst(db, consumer, maxRetries, backoff, all);
    if rounds == [] {
      var more := RoundOf(db, consumer, maxRetries, backoff, round).1;
      assert all[0] == round && all[1..] == [] && more + [] == more && [] + more == more;
    } else {
      var next := NextBackoff(SleepOf(backoff, rounds[0]));
      var (mid, first) := RoundOf(db, consumer, maxRetries, backoff, rounds[0]);
      assert all[0] == rounds[0] && all[1..] == rounds[1..] + [round];
      DriveFirst(db, consumer, maxRetries, backoff, rounds);
      DriveSnoc(mid, consumer, maxRetries, next, rounds[1..], round);
      var (last, told) := Drive(mid, consumer, maxRetries, next, rounds[1..]);
      Regroup(first, told, RoundOf(last, consumer, maxRetries, BackoffAfter(next, rounds[1..]), round).1);
    }
  }

  lemma {:induction false} DrivePrefix(db: Db, consumer: string, maxRetries: nat, backoff: nat, rounds: seq<Round>,
                                       r: nat)
    requires r <= |rounds|
    ensures Drive(db, consumer, maxRetries, backoff, rounds[..r]).1
         <= Drive(db, consumer, maxRetries, backoff, rounds).1
    decreases |rounds| - r
  {
    if r == |rounds| {
      assert rounds[..r] == rounds;
    } else {
      DrivePrefix(db, consumer, maxRetries, backoff, rounds, r + 1);
      assert rounds[..r + 1] == rounds[..r] + [rounds[r]];
      DriveSnoc(db, consumer, maxRetries, backoff, rounds[..r], rounds[r]);
    }
  }

  /** The store and the log once the elements before number i of round r have been served. */
  function Until(db: Db, consumer: string, maxRetries: nat, rounds: seq<Round>, r: nat, i: nat): (Db, seq<Action>)
    requires r < |rounds| && rounds[r].Stream? && i <= |rounds[r].deliveries|
  {
    var (mid, told) := Drive(db, consumer, maxRetries, INITIAL_BACKOFF, rounds[..r]);
    Prepend(told, ServeAll(mid, consumer, maxRetries, rounds[r].deliveries[..i]))
  }

  /** Every element of every stream adds to the log exactly what its outcome and its death count
    * call for, after all before it: one ack; below the budget the next attempt and one nack; with
    * the budget spent one park of the same id and body, for the reason of that failure, and then
    * one ack. */
  lemma DeliveryAnswered(db: Db, consumer: string, maxRetries: nat, rounds: seq<Round>, r: nat, i: nat)
    returns (told: seq<Action>)
    requires r < |rounds| && rounds[r].Stream? && i < |rounds[r].deliveries|
    ensures var before := Until(db, consumer, maxRetries, rounds, r, i);
            && Told(before.0.inbox, consumer, maxRetries, rounds[r].deliveries[i], told)
            && Until(db, consumer, maxRetries, rounds, r, i + 1).1 == before.1 + told
            && before.1 + told <= Drive(db, consumer, maxRetries, INITIAL_BACKOFF, rounds).1
  {
    var (mid, log) := Drive(db, consumer, maxRetries, INITIAL_BACKOFF, rounds[..r]);
    var ds := rounds[r].deliveries;
    var (before, sofar) := ServeAll(mid, consumer, maxRetries, ds[..i]);
    told := Serve(before, consumer, maxRetries, ds[i]).1;
    ServeTells(before, consumer, maxRetries, ds[i]);
    assert ds[..i + 1] == ds[..i] + [ds[i]];
    ServeAllSnoc(mid, consumer, maxRetries, ds[..i], ds[i]);
    Regroup(log, sofar, told);
    RoundWithin(db, consumer, maxRetries, rounds, r);
    ServeAllPrefix(mid, consumer, maxRetries, ds, i + 1);
    PrefixWithin(log, ServeAll(mid, consumer, maxRetries, ds[..i + 1]).1, ServeAll(mid, consumer, maxRetries, ds).1);
  }

  lemma PrefixWithin(log: seq<Action>, a: seq<Action>, b: seq<Action>)
    requires a <= b
    ensures log + a <= log + b
  {
  }

  /** Round r adds to the log what it tells the broker and then one sleep. */
  lemma RoundWithin(db: Db, consumer: string, maxRetries: nat, rounds: seq<Round>, r: nat)
    requires r < |rounds|
    ensures var (mid, log) := Drive(db, consumer, maxRetries, INITIAL_BACKOFF, rounds[..r]);
            var told := if rounds[r].Stream? then ServeAll(mid, consumer, maxRetries, rounds[r].deliveries).1 else [];
            && (exists slept :: Drive(db, consumer, maxRetries, INITIAL_BACKOFF, rounds[..r + 1]).1
                             == log + told + [Sleep(slept)])
            && log + told <= Drive(db, consumer, maxRetries, INITIAL_BACKOFF, rounds).1
  {
    var (mid, log) := Drive(db, consumer, maxRetries, INITIAL_BACKOFF, rounds[..r]);
    var told := if rounds[r].Stream? then ServeAll(mid, consumer, maxRetries, rounds[r].deliveries).1 else [];
    var slept := SleepOf(BackoffAfter(INITIAL_BACKOFF, rounds[..r]), rounds[r]);
    assert rounds[..r + 1] == rounds[..r] + [rounds[r]];
    DriveSnoc(db, consumer, maxRetries, INITIAL_BACKOFF, rounds[..r], rounds[r]);
    Regroup(log, told, [Sleep(slept)]);
    DrivePrefix(db, consumer, maxRetries, INITIAL_BACKOFF, rounds, r + 1);
    assert log + told <= log + told + [Sleep(slept)];
  }

  // ---- One ack or nack each ----

  predicate Settles(a: Action) {
    a == Ack || a == Nack
  }

  function Deliveries(rounds: seq<Round>): nat {
    if rounds == [] then 0
    else (if rounds[0].Stream? then |Filter((d: Incoming) => d.Delivery?, rounds[0].deliveries)| else 0)
         + Deliveries(rounds[1..])
  }

  lemma OneActions(a: Action)
    ensures Filter(Settles, [a]) == if Settles(a) then [a] else []
  {
    assert [a][1..] == [];
  }

  lemma TwoActions(a: Action, b: Action)
    ensures Filter(Settles, [a, b]) == (if Settles(a) then [a] else []) + (if Settles(b) then [b] else [])
  {
    assert [a, b] == [a] + [b];
    FilterConcat(Settles, [a], [b]);
    OneActions(a);
    OneActions(b);
  }

  lemma TellsOnce(db: Db, consumer: string, maxRetries: nat, d: Incoming)
    ensures |Filter(Settles, Serve(db, consumer, maxRetries, d).1)| == if d.Delivery? then 1 else 0
  {
    var told := Serve(db, consumer, maxRetries, d).1;
    if |told| == 2 { TwoActions(told[0], told[1]); } else if |told| == 1 { OneActions(told[0]); }
  }

  lemma {:induction false} StreamTellsOnce(db: Db, consumer: string, maxRetries: nat, ds: seq<Incoming>)
    ensures |Filter(Settles, ServeAll(db, consumer, maxRetries, ds).1)| == |Filter((d: Incoming) => d.Delivery?, ds)|
    decreases |ds|
  {
    if ds != [] {
      var (mid, first) := Serve(db, consumer, maxRetries, ds[0]);
      TellsOnce(db, consumer, maxRetries, ds[0]);
      StreamTellsOnce(mid, consumer, maxRetries, ds[1..]);
      FilterConcat(Settles, first, ServeAll(mid, consumer, maxRetries, ds[1..]).1);
    }
  }

  /** In all, as many acks and nacks as deliveries. */
  lemma {:induction false} OneAnswerEach(db: Db, consumer: string, maxRetries: nat, backoff: nat, rounds: seq<Round>)
    ensures |Filter(Settles, Drive(db, consumer, maxRetries, backoff, rounds).1)| == Deliveries(rounds)
    decreases |rounds|
  {
    if rounds != [] {
      var slept := SleepOf(backoff, rounds[0]);
      var (mid, told) := if rounds[0].Stream? then ServeAll(db, consumer, maxRetries, rounds[0].deliveries)
                         else (db, []);
      var rest := Drive(mid, consumer, maxRetries, NextBackoff(slept), rounds[1..]).1;
      if rounds[0].Stream? { StreamTellsOnce(db, consumer, maxRetries, rounds[0].deliveries); }
      OneAnswerEach(mid, consumer, maxRetries, NextBackoff(slept), rounds[1..]);
      FilterConcat(Settles, told + [Sleep(slept)], rest);
      FilterConcat(Settles, told, [Sleep(slept)]);
      OneActions(Sleep(slept));
    }
  }

  // ---- The loop itself ----

  /** bind_consumer answers every delivery so, and ends with the store that goes with it. */
  method BindConsumerAnswers(store: Store, consumer: string, maxRetries: nat, rounds: seq<Round>)
    returns (log: seq<Action>)
    modifies store
    ensures |Filter(Settles, log)| == Deliveries(rounds)
    ensures forall r: nat, i: nat :: r < |rounds| && rounds[r].Stream? && i < |rounds[r].deliveries| ==>
              Answered(old(store.db), consumer, maxRetries, rounds, r, i, log)
  {
    ghost var db := store.db;
    log := BindConsumer(store, consumer, maxRetries, rounds);
    OneAnswerEach(db, consumer, maxRetries, INITIAL_BACKOFF, rounds);
    forall r: nat, i: nat | r < |rounds| && rounds[r].Stream? && i < |rounds[r].deliveries|
      ensures Answered(db, consumer, maxRetries, rounds, r, i, log)
    {
      var told := DeliveryAnswered(db, consumer, maxRetries, rounds, r, i);
    }
  }

  /** The log answers element i of round r where everything before it has been answered. */
  ghost predicate Answered(db: Db, consumer: string, maxRetries: nat, rounds: seq<Round>, r: nat, i: nat,
                           log: seq<Action>)
    requires r < |rounds| && rounds[r].Stream? && i < |rounds[r].deliveries|
  {
    var before := Until(db, consumer, maxRetries, rounds, r, i);
    exists told ::
      && Told(before.0.inbox, consumer, maxRetries, rounds[r].deliveries[i], told)
      && before.1 + told <= log
  }
}
