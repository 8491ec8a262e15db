/** The safe consumer: one delivery through the inbox transaction, the consume loop
  * around it, and the re-subscription backoff. */
module Consumer {
  import opened Wrappers
  import opened Topology
  import opened DeathHeader

  // ---- One delivery through the transaction ----

  /** The committed inbox, and one element for each committed handler run: the event it
    * claimed, if it had an id, and the consumer. */
  datatype Db = Db(inbox: set<(nat, string)>, effects: multiset<(Option<nat>, string)>)

  datatype CommitAnswer = Done | NotDone | DoneButError

  /** What the database and the handler answer during one delivery. */
  datatype Replies = Replies(begins: bool, claims: bool, handler: Result<(), string>, commits: CommitAnswer)

  datatype Processed = Handled | Duplicate

  const DB_ERROR: string := "database error"

  /** What one delivery does to the committed state, and what the caller is told. */
  function Process(db: Db, consumer: string, id: Option<nat>, replies: Replies): (Db, Result<Processed, string>) {
    if !replies.begins then (db, Err(DB_ERROR))
    else if id.Some? && !replies.claims then (db, Err(DB_ERROR))
    else if id.Some? && (id.value, consumer) in db.inbox then (db, Ok(Duplicate))
    else if replies.handler.Err? then (db, Err(replies.handler.error))
    else
      var after := Db(if id.Some? then db.inbox + {(id.value, consumer)} else db.inbox,
                      db.effects + multiset{(id, consumer)});
      match replies.commits
      case Done => (after, Ok(Handled))
      case NotDone => (db, Err(DB_ERROR))
      case DoneButError => (after, Err(DB_ERROR))
  }

  /** Between a consumer's transactions: an event has one effect if it is in the inbox. */
  ghost predicate OncePerEvent(db: Db) {
    forall e: nat, c: string :: db.effects[(Some(e), c)] == if (e, c) in db.inbox then 1 else 0
  }

  /** The handler's transaction takes effect: it began, claimed an event not in the inbox, if it has
    * an id, the handler succeeded, and the commit was applied, reported or not. */
  ghost predicate TakesEffect(db: Db, consumer: string, id: Option<nat>, replies: Replies) {
    && replies.begins && (id.Some? ==> replies.claims && (id.value, consumer) !in db.inbox)
    && replies.handler.Ok? && replies.commits != NotDone
  }

  /** Whatever is answered, no event takes effect twice; a transaction that takes effect adds one
    * effect of its event and records it, any other changes nothing. */
  lemma ProcessOncePerEvent(db: Db, consumer: string, id: Option<nat>, replies: Replies)
    requires OncePerEvent(db)
    ensures var (after, r) := Process(db, consumer, id, replies);
            && OncePerEvent(after)
            && after.effects == db.effects + (if TakesEffect(db, consumer, id, replies) then multiset{(id, consumer)}
                                              else multiset{})
            && after.inbox == db.inbox + (if TakesEffect(db, consumer, id, replies) && id.Some?
                                          then {(id.value, consumer)} else {})
            && (r == Ok(Handled) <==> TakesEffect(db, consumer, id, replies) && replies.commits == Done)
            && (r.Ok? && id.Some? ==> (id.value, consumer) in after.inbox)
            && (r == Ok(Duplicate) ==> after == db)
  { }

  class Store {
    var db: Db

    constructor ()
      ensures db == Db({}, multiset{})
    {
      db := Db({}, multiset{});
    }

    /** process_one. The transaction's own view is `tx`; only a commit writes it back. */
    method ProcessOne(consumer: string, id: Option<nat>, replies: Replies) returns (r: Result<Processed, string>)
      modifies this
      ensures (db, r) == Process(old(db), consumer, id, replies)
    {
      if !replies.begins { return Err(DB_ERROR); }
      var tx := db;
      if id.Some? {
        if !replies.claims { return Err(DB_ERROR); }
        var rowsAffected := if (id.value, consumer) in tx.inbox then 0 else 1;
        if rowsAffected == 0 { return Ok(Duplicate); }
        tx := tx.(inbox := tx.inbox + {(id.value, consumer)});
      }
      if replies.handler.Err? { return Err(replies.handler.error); }
      tx := tx.(effects := tx.effects + multiset{(id, consumer)});
      match replies.commits {
        case Done =>
          db := tx;
          r := Ok(Handled);
        case NotDone =>
          r := Err(DB_ERROR);
        case DoneButError =>
          db := tx;
          r := Err(DB_ERROR);
      }
    }
  }

  // ---- The consume loop ----

  /** One element of the delivery stream. `id` is the message id when it parses as a
    * UUID; `body` is absent when the data is not JSON. */
  datatype Incoming =
    | StreamError
    | Delivery(id: Option<nat>, body: Option<string>, headers: Option<map<string, AmqpValue>>, replies: Replies)

  /** One turn of the outer loop: the subscription fails, or yields a stream that ends. */
  datatype Round = BindFails | Stream(deliveries: seq<Incoming>)

  /** What the consumer tells the broker, and how long it sleeps. */
  datatype Action =
    | Ack
    | LogRetry(attempt: nat)
    | Nack
    | PublishParked(id: Option<nat>, body: string, reason: string)
    | Sleep(seconds: nat)

  const INITIAL_BACKOFF: nat := 1
  const MAX_BACKOFF: nat := 30

  function NextBackoff(current: nat): nat {
    if current * 2 <= MAX_BACKOFF then current * 2 else MAX_BACKOFF
  }

  function Answer(id: Option<nat>, body: string, deaths: nat, maxRetries: nat, outcome: Result<Processed, string>)
    : seq<Action>
  {
    match outcome
    case Ok(_) => [Ack]
    case Err(reason) =>
      match DecideRetry(deaths, maxRetries)
      case RetryAgain(attempt) => [LogRetry(attempt), Nack]
      case Park => [PublishParked(id, body, reason), Ack]
  }

  function Serve(db: Db, consumer: string, maxRetries: nat, d: Incoming): (Db, seq<Action>) {
    match d
    case StreamError => (db, [])
    case Delivery(id, body, headers, replies) =>
      if body.None? then (db, [Ack])
      else
        var (after, outcome) := Process(db, consumer, id, replies);
        (after, Answer(id, body.value, LapinDeathCount(headers), maxRetries, outcome))
  }

  function ServeAll(db: Db, consumer: string, maxRetries: nat, ds: seq<Incoming>): (Db, seq<Action>)
    decreases |ds|
  {
    if ds == [] then (db, [])
    else
      var (mid, first) := Serve(db, consumer, maxRetries, ds[0]);
      var (after, rest) := ServeAll(mid, consumer, maxRetries, ds[1..]);
      (after, first + rest)
  }

  /** The backoff slept after a round that started with `backoff`. */
  function SleepOf(backoff: nat, round: Round): nat {
    if round.Stream? && round.deliveries != [] then INITIAL_BACKOFF else backoff
  }

  function Drive(db: Db, consumer: string, maxRetries: nat, backoff: nat, rounds: seq<Round>): (Db, seq<Action>)
    decreases |rounds|
  {
    if rounds == [] then (db, [])
    else
      var (mid, first) := if rounds[0].Stream? then ServeAll(db, consumer, maxRetries, rounds[0].deliveries)
                          else (db, []);
      var slept := SleepOf(backoff, rounds[0]);
      var (after, rest) := Drive(mid, consumer, maxRetries, NextBackoff(slept), rounds[1..]);
      (after, first + [Sleep(slept)] + rest)
  }

  /** resubscribe_backoff: sleep, then move the backoff on. */
  method ResubscribeBackoff(current: nat) returns (next: nat, slept: Action)
    ensures slept == Sleep(current) && next == NextBackoff(current)
  {
    slept := Sleep(current);
    next := NextBackoff(current);
  }

  /** bind_consumer, for the first |rounds| turns of its endless loop. Deliveries are
    * served one after the other, each to its ack or nack before the next. */
  method BindConsumer(store: Store, consumer: string, maxRetries: nat, rounds: seq<Round>) returns (log: seq<Action>)
    modifies store
    ensures (store.db, log) == Drive(old(store.db), consumer, maxRetries, INITIAL_BACKOFF, rounds)
  {
    var backoff := INITIAL_BACKOFF;
    log := [];
    assert rounds[0..] == rounds;
    ghost var all := Drive(store.db, consumer, maxRetries, backoff, rounds);
    assert log + all.1 == all.1;
    for r := 0 to |rounds|
      invariant Drive(old(store.db), consumer, maxRetries, INITIAL_BACKOFF, rounds)
             == Prepend(log, Drive(store.db, consumer, maxRetries, backoff, rounds[r..]))
    {
      ghost var db0, log0, backoff0 := store.db, log, backoff;
      if rounds[r].Stream? {
        var gotAny := false;
        var ds := rounds[r].deliveries;
        assert ds[0..] == ds;
        for i := 0 to |ds|
          invariant gotAny == (i > 0)
          invariant Prepend(log0, ServeAll(db0, consumer, maxRetries, ds))
                 == Prepend(log, ServeAll(store.db, consumer, maxRetries, ds[i..]))
        {
          gotAny := true;
          ghost var db1, log1 := store.db, log;
          match ds[i] {
            case StreamError =>
            case Delivery(id, body, headers, replies) =>
              if body.None? {
                log := log + [Ack];
              } else {
                var outcome := store.ProcessOne(consumer, id, replies);
                match outcome {
                  case Ok(_) => log := log + [Ack];
                  case Err(reason) =>
                    var deaths := LapinDeathCount(headers);
                    match DecideRetry(deaths, maxRetries) {
                      case RetryAgain(attempt) => log := log + [LogRetry(attempt), Nack];
                      case Park => log := log + [PublishParked(id, body.value, reason), Ack];
                    }
                }
              }
          }
          assert ds[i..][1..] == ds[i + 1..] && log1 + [] == log1;
          ServeStep(db1, consumer, maxRetries, ds[i..], log1, log, store.db);
        }
        assert ds[|ds|..] == [] && log + [] == log;
        if gotAny { backoff := INITIAL_BACKOFF; }
      }
      var next, slept := ResubscribeBackoff(backoff);
      backoff := next;
      assert rounds[r..][1..] == rounds[r + 1..];
      RoundDone(db0, consumer, maxRetries, backoff0, rounds[r..], log0, log, store.db);
      log := log + [slept];
    }
    assert rounds[|rounds|..] == [] && log + [] == log;
  }

  function Prepend(log: seq<Action>, r: (Db, seq<Action>)): (Db, seq<Action>) {
    (r.0, log + r.1)
  }

  lemma ServeStep(db: Db, consumer: string, maxRetries: nat, ds: seq<Incoming>,
                  before: seq<Action>, after: seq<Action>, next: Db)
    requires ds != [] && (next, after) == Prepend(before, Serve(db, consumer, maxRetries, ds[0]))
    ensures Prepend(before, ServeAll(db, consumer, maxRetries, ds))
         == Prepend(after, ServeAll(next, consumer, maxRetries, ds[1..]))
  {
    var first, rest := Serve(db, consumer, maxRetries, ds[0]).1, ServeAll(next, consumer, maxRetries, ds[1..]).1;
    assert before + (first + rest) == (before + first) + rest;
  }

  lemma RoundDone(db: Db, consumer: string, maxRetries: nat, backoff: nat, rounds: seq<Round>,
                  before: seq<Action>, after: seq<Action>, next: Db)
    requires rounds != []
    requires rounds[0].BindFails? ==> next == db && after == before
    requires rounds[0].Stream? ==>
               (next, after) == Prepend(before, ServeAll(db, consumer, maxRetries, rounds[0].deliveries))
    ensures Prepend(before, Drive(db, consumer, maxRetries, backoff, rounds))
         == Prepend(after + [Sleep(SleepOf(backoff, rounds[0]))],
                    Drive(next, consumer, maxRetries, NextBackoff(SleepOf(backoff, rounds[0])), rounds[1..]))
  {
    var slept := SleepOf(backoff, rounds[0]);
    var rest := Drive(next, consumer, maxRetries, NextBackoff(slept), rounds[1..]).1;
    if rounds[0].Stream? {
      var first := ServeAll(db, consumer, maxRetries, rounds[0].deliveries).1;
      assert before + (first + [Sleep(slept)] + rest) == (before + first + [Sleep(slept)]) + rest;
    } else {
      assert before + ([] + [Sleep(slept)] + rest) == (before + [Sleep(slept)]) + rest;
    }
  }
}
