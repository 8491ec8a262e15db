/** How often the handler of one queue can fail on one event, over every run of the plane: the
  * retry budget and one run for each copy the broker enqueued, and one for each time it took a
  * delivery back. */
module FailureBudget {
  import opened Wrappers
  import opened Topology
  import opened DeathHeader
  import opened EventPlane
  import opened Safety
  import opened Sums

  /** No other queue's retries reach q; so with bindings that are distinct and literal. */
  ghost predicate OwnRetries(cfg: Config, q: nat) {
    && q < |cfg.bindings|
    && forall p: nat :: p < |cfg.bindings| ==> (q in Bound(cfg, cfg.bindings[p]) <==> p == q)
  }

  lemma LiteralsOwnRetries(cfg: Config, q: nat)
    requires q < |cfg.bindings|
    requires forall p :: 0 <= p < |cfg.bindings| ==>
               Literal(cfg.bindings[p]) && (cfg.bindings[p] == cfg.bindings[q] ==> p == q)
    ensures OwnRetries(cfg, q)
  {
    forall p: nat | p < |cfg.bindings| ensures q in Bound(cfg, cfg.bindings[p]) <==> p == q {
      LiteralMatch(cfg.bindings[q], cfg.bindings[p]);
    }
  }

  /** The retry budget of q. */
  ghost function BudgetOf(cfg: Config, q: nat): nat {
    if q < |cfg.budgets| then cfg.budgets[q] else 0
  }

  /** How often a copy has been through the retry queue of q. */
  ghost function Retried(it: Item, q: nat): nat {
    CountOf(it.deaths, Retry(q))
  }

  // ---- What is kept ----

  /** A copy in q has died there only: the count the consumer reads is that of q. */
  ghost predicate OwnDeaths(cfg: Config, it: Item, q: nat)
  {
    it.queue == q ==>
      && (it.stage == Ready || it.stage.Busy? ==> DeathCount(it.deaths) == Retried(it, q) <= BudgetOf(cfg, q))
      && (it.stage == Waiting ==> Retried(it, q) < BudgetOf(cfg, q))
  }

  ghost predicate Is(it: Item, e: nat, q: nat) {
    it.id == Some(e) && it.queue == q
  }

  /** A live copy due for its ack is handled, or out of retries. */
  ghost predicate AckSpent(cfg: Config, s: State, it: Item, e: nat, q: nat)
  {
    Is(it, e, q) && it.stage == Busy(true, AckDue) && (e, q) !in s.inbox ==> Retried(it, q) == BudgetOf(cfg, q)
  }

  ghost predicate Kept(cfg: Config, s: State, e: nat, q: nat) {
    && OwnRetries(cfg, q) && Inv(cfg, s)
    && (forall i :: 0 <= i < |s.items| ==> OwnDeaths(cfg, s.items[i], q))
    && (forall i :: 0 <= i < |s.items| ==> AckSpent(cfg, s, s.items[i], e, q))
  }

  /** The step is about one copy of e in q. */
  ghost predicate About(s: State, step: Step, e: nat, q: nat) {
    Moves(step) && step.item < |s.items| && Is(s.items[step.item], e, q)
  }

  /** Steps of the broker and the consumers that move one copy. */
  ghost predicate Moves(step: Step) {
    !AddsItems(step)
  }

  /** What a moving step makes of its copy, and the copy it may add. */
  ghost predicate Moved(s: State, t: State, i: nat) {
    && i < |s.items| <= |t.items| <= |s.items| + 1
    && (forall j :: 0 <= j < |s.items| && j != i ==> t.items[j] == s.items[j])
    && t.items[i].id == s.items[i].id && t.items[i].queue == s.items[i].queue
    && (|t.items| > |s.items| ==>
          t.items[|s.items|].id == s.items[i].id && t.items[|s.items|].queue == s.items[i].queue)
  }

  lemma MovesMove(cfg: Config, s: State, step: Step)
    requires Enabled(cfg, s, step) && Moves(step)
    ensures Moved(s, Do(cfg, s, step), step.item)
  {
    if !step.Nack? { OneItemMoves(cfg, s, step); }
  }

  // ---- Own deaths ----

  lemma MovedOwnDeaths(cfg: Config, s: State, step: Step, q: nat)
    requires OwnRetries(cfg, q) && Enabled(cfg, s, step) && Moves(step) && OwnDeaths(cfg, s.items[step.item], q)
    ensures var t := Do(cfg, s, step);
            && OwnDeaths(cfg, t.items[step.item], q)
            && (|t.items| > |s.items| ==> OwnDeaths(cfg, t.items[|s.items|], q))
  {
    if step.Nack? {
      CountBump(s.items[step.item].deaths, Main(s.items[step.item].queue), Retry(q));
    } else {
      OneItemMoves(cfg, s, step);
    }
  }

  lemma ExpiredOwnDeaths(cfg: Config, it: Item, q: nat, copy: Item)
    requires OwnRetries(cfg, q) && it.queue < |cfg.bindings| && it.stage == Waiting && OwnDeaths(cfg, it, q)
    requires copy in FanOut(cfg, cfg.bindings[it.queue], it.id, it.json, Bump(it.deaths, Retry(it.queue)))
    ensures OwnDeaths(cfg, copy, q)
  {
    var copies := FanOut(cfg, cfg.bindings[it.queue], it.id, it.json, Bump(it.deaths, Retry(it.queue)));
    var k :| 0 <= k < |copies| && copies[k] == copy;
    assert copy.queue in Bound(cfg, cfg.bindings[it.queue]);
    if copy.queue == q {
      assert it.queue == q;
      CountBump(it.deaths, Retry(q), Retry(q));
    }
  }

  lemma AddedOwnDeaths(cfg: Config, s: State, step: Step, q: nat, i: nat)
    requires OwnRetries(cfg, q) && Enabled(cfg, s, step) && AddsItems(step)
    requires forall j :: 0 <= j < |s.items| ==> OwnDeaths(cfg, s.items[j], q)
    requires i < |Do(cfg, s, step).items|
    ensures OwnDeaths(cfg, Do(cfg, s, step).items[i], q)
  {
    var t := Do(cfg, s, step);
    if i >= |s.items| && step.Expire? {
      ExpiredOwnDeaths(cfg, s.items[step.item], q, t.items[i]);
    }
  }

  lemma KeepOwnDeaths(cfg: Config, s: State, step: Step, e: nat, q: nat)
    requires Kept(cfg, s, e, q) && Enabled(cfg, s, step)
    ensures forall i :: 0 <= i < |Do(cfg, s, step).items| ==> OwnDeaths(cfg, Do(cfg, s, step).items[i], q)
  {
    var t := Do(cfg, s, step);
    if Moves(step) {
      MovesMove(cfg, s, step);
      MovedOwnDeaths(cfg, s, step, q);
    } else {
      forall i: nat | i < |t.items| ensures OwnDeaths(cfg, t.items[i], q) { AddedOwnDeaths(cfg, s, step, q, i); }
    }
  }

  // ---- Acks of a spent copy ----

  lemma MovedAckSpent(cfg: Config, s: State, step: Step, e: nat, q: nat)
    requires Kept(cfg, s, e, q) && Enabled(cfg, s, step) && Moves(step)
    ensures var t := Do(cfg, s, step);
            && AckSpent(cfg, t, t.items[step.item], e, q)
            && (|t.items| > |s.items| ==> AckSpent(cfg, t, t.items[|s.items|], e, q))
  {
    var i := step.item;
    assert OwnDeaths(cfg, s.items[i], q) && AckSpent(cfg, s, s.items[i], e, q) && ItemOk(cfg, s.items[i]);
  }

  /** The inbox only grows. */
  lemma InboxGrows(cfg: Config, s: State, step: Step)
    requires Enabled(cfg, s, step)
    ensures s.inbox <= Do(cfg, s, step).inbox
  { }

  lemma AddedAckSpent(cfg: Config, s: State, step: Step, e: nat, q: nat, i: nat)
    requires Kept(cfg, s, e, q) && Enabled(cfg, s, step) && AddsItems(step) && i < |Do(cfg, s, step).items|
    ensures AckSpent(cfg, Do(cfg, s, step), Do(cfg, s, step).items[i], e, q)
  {
    if i < |s.items| { assert AckSpent(cfg, s, s.items[i], e, q); }
  }

  lemma KeepAckSpent(cfg: Config, s: State, step: Step, e: nat, q: nat)
    requires Kept(cfg, s, e, q) && Enabled(cfg, s, step)
    ensures var t := Do(cfg, s, step); forall i :: 0 <= i < |t.items| ==> AckSpent(cfg, t, t.items[i], e, q)
  {
    var t := Do(cfg, s, step);
    InboxGrows(cfg, s, step);
    if Moves(step) { MovesMove(cfg, s, step); MovedAckSpent(cfg, s, step, e, q); }
    forall i: nat | i < |t.items| ensures AckSpent(cfg, t, t.items[i], e, q) {
      if !Moves(step) {
        AddedAckSpent(cfg, s, step, e, q, i);
      } else if i < |s.items| && i != step.item {
        SameAckSpent(cfg, s, t, s.items[i], e, q);
      }
    }
  }

  lemma SameAckSpent(cfg: Config, s: State, t: State, it: Item, e: nat, q: nat)
    requires AckSpent(cfg, s, it, e, q) && s.inbox <= t.inbox
    ensures AckSpent(cfg, t, it, e, q)
  { }

  lemma KeepKept(cfg: Config, s: State, step: Step, e: nat, q: nat)
    requires Kept(cfg, s, e, q) && Enabled(cfg, s, step)
    ensures Kept(cfg, Do(cfg, s, step), e, q)
  {
    KeepItemsOk(cfg, s, step);
    KeepExactlyOnce(cfg, s, step);
    KeepNothingLost(cfg, s, step);
    KeepOriginates(cfg, s, step);
    KeepOwnDeaths(cfg, s, step, e, q);
    KeepAckSpent(cfg, s, step, e, q);
  }

  // ---- The failures a copy has left ----

  ghost function Left(cfg: Config, it: Item, e: nat, q: nat, handled: bool): nat
  {
    if !Is(it, e, q) || handled || Retried(it, q) > BudgetOf(cfg, q) then 0
    else
      var retries := BudgetOf(cfg, q) - Retried(it, q);
      match it.stage
      case Ready => retries + 1
      case Waiting => retries
      case Parked => 0
      case Gone => 0
      case Busy(live, phase) =>
        match phase
        case Received => if live then retries + 1 else 1
        case Claimed => if live then retries + 1 else 1
        case AckDue => 0
        case _ => if live then retries else 0
  }

  ghost function Lefts(cfg: Config, items: seq<Item>, e: nat, q: nat, handled: bool): (ws: seq<nat>)
    ensures |ws| == |items| && forall i :: 0 <= i < |ws| ==> ws[i] == Left(cfg, items[i], e, q, handled)
  {
    seq(|items|, i requires 0 <= i < |items| => Left(cfg, items[i], e, q, handled))
  }

  ghost function AllLeft(cfg: Config, s: State, e: nat, q: nat): nat
  {
    Sum(Lefts(cfg, s.items, e, q, (e, q) in s.inbox))
  }

  ghost function One(b: bool): nat {
    if b then 1 else 0
  }

  /** The handler of q fails on e. */
  ghost predicate Fails(s: State, step: Step, e: nat, q: nat) {
    About(s, step, e, q) && step.HandlerErr?
  }

  /** The broker takes a delivery of e in q back. */
  ghost predicate Returns(s: State, step: Step, e: nat, q: nat) {
    About(s, step, e, q) && s.items[step.item].stage.Busy? && s.items[step.item].stage.live
    && (step.DropConnection? || step.Redeliver? || step.Crash?)
  }

  /** The broker enqueues a publish of e for q. */
  ghost predicate Enqueues(cfg: Config, s: State, step: Step, e: nat, q: nat)
    requires Enabled(cfg, s, step)
  {
    && step.Publish? && step.delivered && s.drains[step.drain].rows[|s.drains[step.drain].oks|] == e
    && q in Bound(cfg, s.rows[e].key)
  }

  /** Nothing else than failing handlers uses up tries of e in q: no handler returns Ok, so
    * nothing commits, no database error, no crash. */
  ghost predicate Clean(s: State, step: Step, e: nat, q: nat) {
    About(s, step, e, q) ==> !step.HandlerOk? && !step.Commit? && !step.DatabaseErr? && !step.Crash?
  }

  /** What its copy had left pays for a moving step's failure and for what is left after it. */
  ghost predicate CopyBalances(cfg: Config, s: State, step: Step, e: nat, q: nat)
    requires Enabled(cfg, s, step) && Moves(step) && Moved(s, Do(cfg, s, step), step.item)
  {
    var t, i, handled := Do(cfg, s, step), step.item, (e, q) in Do(cfg, s, step).inbox;
    var before, after := Left(cfg, s.items[i], e, q, (e, q) in s.inbox), Left(cfg, t.items[i], e, q, handled);
    var added := if |t.items| > |s.items| then Left(cfg, t.items[|s.items|], e, q, handled) else 0;
    && One(Fails(s, step, e, q)) + after + added <= before + One(Returns(s, step, e, q))
    && (Clean(s, step, e, q) && (e, q) !in s.inbox ==>
          && One(Fails(s, step, e, q)) + after + added == before + One(Returns(s, step, e, q))
          && !handled)
  }

  lemma TryBalance(cfg: Config, s: State, step: Step, e: nat, q: nat)
    requires Kept(cfg, s, e, q) && Enabled(cfg, s, step) && Moves(step) && Moved(s, Do(cfg, s, step), step.item)
    requires
      || step.Deliver? || step.DropBadJson? || step.Claim? || step.HandlerOk? || step.HandlerErr?
      || step.DatabaseErr?
    ensures CopyBalances(cfg, s, step, e, q)
  {
    var it := s.items[step.item];
    assert OwnDeaths(cfg, it, q) && ItemOk(cfg, it);
    if step.HandlerErr? && Is(it, e, q) { assert Holds(it); }
  }

  lemma EndBalance(cfg: Config, s: State, step: Step, e: nat, q: nat)
    requires Kept(cfg, s, e, q) && Enabled(cfg, s, step) && Moves(step) && Moved(s, Do(cfg, s, step), step.item)
    requires step.NackErr? || step.ParkCopy?
    ensures CopyBalances(cfg, s, step, e, q)
  {
    assert OwnDeaths(cfg, s.items[step.item], q);
  }

  lemma NackBalance(cfg: Config, s: State, step: Step, e: nat, q: nat)
    requires Kept(cfg, s, e, q) && Enabled(cfg, s, step) && Moves(step) && Moved(s, Do(cfg, s, step), step.item)
    requires step.Nack?
    ensures CopyBalances(cfg, s, step, e, q)
  {
    var it := s.items[step.item];
    assert OwnDeaths(cfg, it, q);
    CountBump(it.deaths, Main(it.queue), Retry(q));
  }

  lemma DoneBalance(cfg: Config, s: State, step: Step, e: nat, q: nat)
    requires Kept(cfg, s, e, q) && Enabled(cfg, s, step) && Moves(step) && Moved(s, Do(cfg, s, step), step.item)
    requires step.Commit? || step.Ack? || step.AckErr?
    ensures CopyBalances(cfg, s, step, e, q)
  {
    var it := s.items[step.item];
    assert OwnDeaths(cfg, it, q) && AckSpent(cfg, s, it, e, q);
  }

  lemma ReturnBalance(cfg: Config, s: State, step: Step, e: nat, q: nat)
    requires Kept(cfg, s, e, q) && Enabled(cfg, s, step) && Moves(step) && Moved(s, Do(cfg, s, step), step.item)
    requires step.Redeliver? || step.DropConnection? || step.Crash?
    ensures CopyBalances(cfg, s, step, e, q)
  {
    var it := s.items[step.item];
    assert OwnDeaths(cfg, it, q) && AckSpent(cfg, s, it, e, q) && ItemOk(cfg, it);
  }

  lemma CopyBalance(cfg: Config, s: State, step: Step, e: nat, q: nat)
    requires Kept(cfg, s, e, q) && Enabled(cfg, s, step) && Moves(step)
    ensures Moved(s, Do(cfg, s, step), step.item) && CopyBalances(cfg, s, step, e, q)
  {
    MovesMove(cfg, s, step);
    if step.Redeliver? || step.DropConnection? || step.Crash? {
      ReturnBalance(cfg, s, step, e, q);
    } else if step.Nack? {
      NackBalance(cfg, s, step, e, q);
    } else if step.NackErr? || step.ParkCopy? {
      EndBalance(cfg, s, step, e, q);
    } else if step.Commit? || step.Ack? || step.AckErr? {
      DoneBalance(cfg, s, step, e, q);
    } else {
      TryBalance(cfg, s, step, e, q);
    }
  }

  // ---- All copies ----

  lemma LeftsUpdate(cfg: Config, items: seq<Item>, i: nat, it: Item, e: nat, q: nat, handled: bool)
    requires i < |items|
    ensures Sum(Lefts(cfg, items[i := it], e, q, handled)) + Left(cfg, items[i], e, q, handled)
         == Sum(Lefts(cfg, items, e, q, handled)) + Left(cfg, it, e, q, handled)
  {
    assert Lefts(cfg, items[i := it], e, q, handled)
        == Lefts(cfg, items, e, q, handled)[i := Left(cfg, it, e, q, handled)];
    SumUpdate(Lefts(cfg, items, e, q, handled), i, Left(cfg, it, e, q, handled));
  }

  lemma LeftsConcat(cfg: Config, a: seq<Item>, b: seq<Item>, e: nat, q: nat, handled: bool)
    ensures Sum(Lefts(cfg, a + b, e, q, handled))
         == Sum(Lefts(cfg, a, e, q, handled)) + Sum(Lefts(cfg, b, e, q, handled))
  {
    assert Lefts(cfg, a + b, e, q, handled) == Lefts(cfg, a, e, q, handled) + Lefts(cfg, b, e, q, handled);
    SumConcat(Lefts(cfg, a, e, q, handled), Lefts(cfg, b, e, q, handled));
  }

  /** A fan-out leaves what its one copy on q leaves. */
  lemma FanOutLeft(cfg: Config, key: Key, id: Option<nat>, json: bool, deaths: Deaths, e: nat, q: nat, handled: bool)
    ensures Sum(Lefts(cfg, FanOut(cfg, key, id, json, deaths), e, q, handled))
         == if q in Bound(cfg, key) then Left(cfg, Item(q, id, json, deaths, Ready), e, q, handled) else 0
  {
    var queues, copies := Bound(cfg, key), FanOut(cfg, key, id, json, deaths);
    assert queues == BoundFrom(cfg, key, 0);
    if q in queues {
      var k :| 0 <= k < |queues| && queues[k] == q;
      SumSingle(Lefts(cfg, copies, e, q, handled), k);
    } else {
      SumZero(Lefts(cfg, copies, e, q, handled));
    }
  }

  /** A handled event has no failures left. */
  lemma HandledLeft(cfg: Config, items: seq<Item>, e: nat, q: nat)
    ensures Sum(Lefts(cfg, items, e, q, true)) == 0
  {
    SumZero(Lefts(cfg, items, e, q, true));
  }

  /** What a step's enqueued copy may fail. */
  ghost function Grant(cfg: Config, s: State, step: Step, e: nat, q: nat): nat
    requires Enabled(cfg, s, step)
  {
    if Enqueues(cfg, s, step, e, q) then BudgetOf(cfg, q) + 1 else 0
  }

  /** The balance of a step over all copies, exact for a clean step of an unhandled event. */
  ghost predicate Balances(cfg: Config, s: State, step: Step, e: nat, q: nat)
    requires Enabled(cfg, s, step)
  {
    var spent := One(Fails(s, step, e, q)) + AllLeft(cfg, Do(cfg, s, step), e, q);
    var had := AllLeft(cfg, s, e, q) + Grant(cfg, s, step, e, q) + One(Returns(s, step, e, q));
    spent <= had && (Clean(s, step, e, q) && (e, q) !in s.inbox ==> spent == had && (e, q) !in Do(cfg, s, step).inbox)
  }

  lemma MoveBalances(cfg: Config, s: State, step: Step, e: nat, q: nat)
    requires Kept(cfg, s, e, q) && Enabled(cfg, s, step) && Moves(step)
    ensures Balances(cfg, s, step, e, q)
  {
    var t, i := Do(cfg, s, step), step.item;
    var was, now := (e, q) in s.inbox, (e, q) in t.inbox;
    CopyBalance(cfg, s, step, e, q);
    if was == now { MovedLefts(cfg, s, t, i, e, q, now); } else { CommitBalances(cfg, s, step, e, q); }
  }

  /** The commit that handles the event leaves nothing to fail. */
  lemma CommitBalances(cfg: Config, s: State, step: Step, e: nat, q: nat)
    requires Kept(cfg, s, e, q) && Enabled(cfg, s, step) && Moves(step)
    requires (e, q) !in s.inbox && (e, q) in Do(cfg, s, step).inbox
    ensures Balances(cfg, s, step, e, q)
  {
    assert step.Commit? && Is(s.items[step.item], e, q);
    HandledLeft(cfg, Do(cfg, s, step).items, e, q);
  }

  lemma MovedLefts(cfg: Config, s: State, t: State, i: nat, e: nat, q: nat, handled: bool)
    requires Moved(s, t, i)
    ensures Sum(Lefts(cfg, t.items, e, q, handled)) + Left(cfg, s.items[i], e, q, handled)
         == Sum(Lefts(cfg, s.items, e, q, handled)) + Left(cfg, t.items[i], e, q, handled)
            + if |t.items| > |s.items| then Left(cfg, t.items[|s.items|], e, q, handled) else 0
  {
    var moved, more := s.items[i := t.items[i]], t.items[|s.items|..];
    assert t.items == moved + more;
    LeftsUpdate(cfg, s.items, i, t.items[i], e, q, handled);
    LeftsConcat(cfg, moved, more, e, q, handled);
    MoreLeft(cfg, s, t, i, e, q, handled);
  }

  lemma MoreLeft(cfg: Config, s: State, t: State, i: nat, e: nat, q: nat, handled: bool)
    requires Moved(s, t, i)
    ensures Sum(Lefts(cfg, t.items[|s.items|..], e, q, handled))
         == if |t.items| > |s.items| then Left(cfg, t.items[|s.items|], e, q, handled) else 0
  {
    var more := t.items[|s.items|..];
    if |more| == 1 { SumSingle(Lefts(cfg, more, e, q, handled), 0); } else { SumZero(Lefts(cfg, more, e, q, handled)); }
  }

  lemma PublishBalances(cfg: Config, s: State, d: nat, ok: bool, delivered: bool, e: nat, q: nat)
    requires Kept(cfg, s, e, q) && Enabled(cfg, s, Publish(d, ok, delivered))
    ensures Balances(cfg, s, Publish(d, ok, delivered), e, q)
  {
    var r := s.drains[d].rows[|s.drains[d].oks|];
    if delivered {
      FanOutLeft(cfg, s.rows[r].key, Some(r), true, [], e, q, (e, q) in s.inbox);
      LeftsConcat(cfg, s.items, FanOut(cfg, s.rows[r].key, Some(r), true, []), e, q, (e, q) in s.inbox);
    }
  }

  lemma ExpireBalances(cfg: Config, s: State, i: nat, e: nat, q: nat)
    requires Kept(cfg, s, e, q) && Enabled(cfg, s, Expire(i))
    ensures Balances(cfg, s, Expire(i), e, q)
  {
    var it, handled := s.items[i], (e, q) in s.inbox;
    var copies := FanOut(cfg, cfg.bindings[it.queue], it.id, it.json, Bump(it.deaths, Retry(it.queue)));
    assert OwnDeaths(cfg, it, q);
    ExpiredLeft(cfg, it, e, q, handled);
    LeftsUpdate(cfg, s.items, i, it.(stage := Gone), e, q, handled);
    LeftsConcat(cfg, s.items[i := it.(stage := Gone)], copies, e, q, handled);
  }

  /** An expiry hands on what the copy had left. */
  lemma ExpiredLeft(cfg: Config, it: Item, e: nat, q: nat, handled: bool)
    requires OwnRetries(cfg, q) && it.queue < |cfg.bindings| && it.stage == Waiting && OwnDeaths(cfg, it, q)
    ensures Sum(Lefts(cfg, FanOut(cfg, cfg.bindings[it.queue], it.id, it.json, Bump(it.deaths, Retry(it.queue))),
                      e, q, handled))
         == Left(cfg, it, e, q, handled)
  {
    CountBump(it.deaths, Retry(it.queue), Retry(q));
    FanOutLeft(cfg, cfg.bindings[it.queue], it.id, it.json, Bump(it.deaths, Retry(it.queue)), e, q, handled);
  }

  lemma InlineBalances(cfg: Config, s: State, key: Key, json: bool, e: nat, q: nat)
    requires Kept(cfg, s, e, q)
    ensures Balances(cfg, s, PublishInline(key, json), e, q)
  {
    FanOutLeft(cfg, key, None, json, [], e, q, (e, q) in s.inbox);
    LeftsConcat(cfg, s.items, FanOut(cfg, key, None, json, []), e, q, (e, q) in s.inbox);
  }

  lemma StepBalances(cfg: Config, s: State, step: Step, e: nat, q: nat)
    requires Kept(cfg, s, e, q) && Enabled(cfg, s, step)
    ensures Balances(cfg, s, step, e, q)
  {
    if Moves(step) {
      MoveBalances(cfg, s, step, e, q);
    } else {
      match step
      case Publish(d, ok, delivered) => PublishBalances(cfg, s, d, ok, delivered, e, q);
      case Expire(i) => ExpireBalances(cfg, s, i, e, q);
      case PublishInline(key, json) => InlineBalances(cfg, s, key, json, e, q);
      case _ =>
    }
  }

  // ---- Over a run ----

  /** The failures of q's handler on e in a run. */
  ghost function Failures(cfg: Config, s: State, steps: seq<Step>, e: nat, q: nat): nat
    decreases |steps|
  {
    if steps == [] || !Enabled(cfg, s, steps[0]) then 0
    else One(Fails(s, steps[0], e, q)) + Failures(cfg, Do(cfg, s, steps[0]), steps[1..], e, q)
  }

  /** The copies of e the broker enqueued for q. */
  ghost function Enqueued(cfg: Config, s: State, steps: seq<Step>, e: nat, q: nat): nat
    decreases |steps|
  {
    if steps == [] || !Enabled(cfg, s, steps[0]) then 0
    else One(Enqueues(cfg, s, steps[0], e, q)) + Enqueued(cfg, Do(cfg, s, steps[0]), steps[1..], e, q)
  }

  /** The deliveries of e the broker took back. */
  ghost function Returned(cfg: Config, s: State, steps: seq<Step>, e: nat, q: nat): nat
    decreases |steps|
  {
    if steps == [] || !Enabled(cfg, s, steps[0]) then 0
    else One(Returns(s, steps[0], e, q)) + Returned(cfg, Do(cfg, s, steps[0]), steps[1..], e, q)
  }

  ghost predicate AllClean(cfg: Config, s: State, steps: seq<Step>, e: nat, q: nat)
    decreases |steps|
  {
    || steps == [] || !Enabled(cfg, s, steps[0])
    || (Clean(s, steps[0], e, q) && AllClean(cfg, Do(cfg, s, steps[0]), steps[1..], e, q))
  }

  ghost function Granted(cfg: Config, s: State, steps: seq<Step>, e: nat, q: nat): nat
    decreases |steps|
  {
    if steps == [] || !Enabled(cfg, s, steps[0]) then 0
    else Grant(cfg, s, steps[0], e, q) + Granted(cfg, Do(cfg, s, steps[0]), steps[1..], e, q)
  }

  lemma {:induction false} GrantedIsTimes(cfg: Config, s: State, steps: seq<Step>, e: nat, q: nat)
    requires IsRun(cfg, s, steps)
    ensures Granted(cfg, s, steps, e, q) == Times(Enqueued(cfg, s, steps, e, q), BudgetOf(cfg, q) + 1)
    decreases |steps|
  {
    if steps != [] { GrantedIsTimes(cfg, Do(cfg, s, steps[0]), steps[1..], e, q); }
  }

  lemma {:induction false} RunBalances(cfg: Config, s: State, steps: seq<Step>, e: nat, q: nat)
    requires Kept(cfg, s, e, q) && IsRun(cfg, s, steps)
    ensures var spent := Failures(cfg, s, steps, e, q) + AllLeft(cfg, After(cfg, s, steps), e, q);
            var had := AllLeft(cfg, s, e, q) + Granted(cfg, s, steps, e, q) + Returned(cfg, s, steps, e, q);
            spent <= had && (AllClean(cfg, s, steps, e, q) && (e, q) !in s.inbox ==> spent == had)
    decreases |steps|
  {
    if steps != [] {
      var t := Do(cfg, s, steps[0]);
      StepBalances(cfg, s, steps[0], e, q);
      KeepKept(cfg, s, steps[0], e, q);
      RunBalances(cfg, t, steps[1..], e, q);
    }
  }

  /** In every run: the handler of q fails on e at most budget + 1 times for each copy the
    * broker enqueued, and once more for each delivery it took back. */
  lemma FailuresWithinBudget(cfg: Config, steps: seq<Step>, e: nat, q: nat)
    requires OwnRetries(cfg, q) && IsRun(cfg, EMPTY, steps)
    ensures Failures(cfg, EMPTY, steps, e, q)
         <= Enqueued(cfg, EMPTY, steps, e, q) * (cfg.budgets[q] + 1) + Returned(cfg, EMPTY, steps, e, q)
  {
    RunBalances(cfg, EMPTY, steps, e, q);
    GrantedIsTimes(cfg, EMPTY, steps, e, q);
    TimesIsProduct(Enqueued(cfg, EMPTY, steps, e, q), cfg.budgets[q] + 1);
  }

  /** Exactly that often if nothing but failing handlers ended its tries and all its copies are
    * parked or gone. */
  lemma FailuresExhaustBudget(cfg: Config, steps: seq<Step>, e: nat, q: nat)
    requires OwnRetries(cfg, q) && IsRun(cfg, EMPTY, steps) && AllClean(cfg, EMPTY, steps, e, q)
    requires forall it :: it in After(cfg, EMPTY, steps).items && Is(it, e, q) ==>
               it.stage == Stage.Parked || it.stage == Gone
    ensures Failures(cfg, EMPTY, steps, e, q)
         == Enqueued(cfg, EMPTY, steps, e, q) * (cfg.budgets[q] + 1) + Returned(cfg, EMPTY, steps, e, q)
  {
    RunBalances(cfg, EMPTY, steps, e, q);
    GrantedIsTimes(cfg, EMPTY, steps, e, q);
    TimesIsProduct(Enqueued(cfg, EMPTY, steps, e, q), cfg.budgets[q] + 1);
    var t := After(cfg, EMPTY, steps);
    forall i | 0 <= i < |t.items| ensures Left(cfg, t.items[i], e, q, (e, q) in t.inbox) == 0 {
      assert t.items[i] in t.items;
    }
    SumZero(Lefts(cfg, t.items, e, q, (e, q) in t.inbox));
  }
}
