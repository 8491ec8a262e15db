/** What every run of the event plane keeps: each (event, queue) takes effect at most
  * once, no published event is lost silently, and every copy stays within its budget. */
module Safety {
  import opened Wrappers
  import opened Topology
  import opened DeathHeader
  import opened EventPlane

  // ---- Copies stay well formed and within budget ----

  ghost function Budget(cfg: Config): nat {
    MaxOf(cfg.budgets)
  }

  ghost predicate ItemOk(cfg: Config, it: Item) {
    && it.queue < |cfg.bindings|
    && (it.id.Some? ==> it.json)
    && (it.stage == Ready || it.stage.Busy? ==> Circulating(it.deaths, |cfg.bindings|, Budget(cfg)))
    && (it.stage == Waiting ==> Resting(it.deaths, |cfg.bindings|, Budget(cfg), it.queue))
  }

  ghost predicate ItemsOk(cfg: Config, s: State) {
    forall i :: 0 <= i < |s.items| ==> ItemOk(cfg, s.items[i])
  }

  lemma FreshCirculates(n: nat, budget: nat)
    ensures Circulating([], n, budget)
  {
    forall q: nat | q < n ensures BudgetKept([], q, budget) { }
  }

  lemma FanOutOk(cfg: Config, key: Key, id: Option<nat>, json: bool, deaths: Deaths)
    requires Circulating(deaths, |cfg.bindings|, Budget(cfg)) && (id.Some? ==> json)
    ensures forall it :: it in FanOut(cfg, key, id, json, deaths) ==> ItemOk(cfg, it)
  {
    var queues := Bound(cfg, key);
    forall it | it in FanOut(cfg, key, id, json, deaths) ensures ItemOk(cfg, it) {
      var k :| 0 <= k < |queues| && it == FanOut(cfg, key, id, json, deaths)[k];
      assert queues[k] in queues;
    }
  }

  lemma AppendOk(cfg: Config, s: State, base: seq<Item>, extra: seq<Item>)
    requires s.items == base + extra
    requires forall i :: 0 <= i < |base| ==> ItemOk(cfg, base[i])
    requires forall it :: it in extra ==> ItemOk(cfg, it)
    ensures ItemsOk(cfg, s)
  { }

  /** Only item i changes, and only in its stage; at most one copy of it appears. */
  ghost predicate OneItem(s: State, t: State, i: nat) {
    && i < |s.items| <= |t.items| <= |s.items| + 1
    && (forall j :: 0 <= j < |s.items| && j != i ==> t.items[j] == s.items[j])
    && t.items[i] == s.items[i].(stage := t.items[i].stage)
    && t.items[i].stage != Waiting
    && (t.items[i].stage == Ready || t.items[i].stage.Busy? ==> s.items[i].stage == Ready || s.items[i].stage.Busy?)
    && (|t.items| > |s.items| ==>
          var copy := t.items[|s.items|];
          && copy == s.items[i].(stage := copy.stage, deaths := copy.deaths)
          && (copy.stage == Stage.Parked ||
              (copy.stage == Ready && copy.deaths == s.items[i].deaths && s.items[i].stage.Busy?)))
  }

  /** Steps of the relay and the broker's queues. */
  ghost predicate AddsItems(step: Step) {
    step.StageRow? || step.PublishInline? || step.Select? || step.Publish? || step.CommitDrain? || step.AbortDrain?
    || step.Expire?
  }

  /** Steps that only move a copy on within its delivery. */
  ghost predicate StaysInHand(step: Step) {
    step.Deliver? || step.DropBadJson? || step.Claim? || step.HandlerOk? || step.HandlerErr? || step.DatabaseErr?
    || step.Commit?
  }

  lemma InHandMoves(cfg: Config, s: State, step: Step)
    requires Enabled(cfg, s, step) && StaysInHand(step)
    ensures OneItem(s, Do(cfg, s, step), step.item)
  { }

  lemma OneItemMoves(cfg: Config, s: State, step: Step)
    requires Enabled(cfg, s, step) && !AddsItems(step)
    requires step.Nack? ==> !s.items[step.item].stage.live
    ensures OneItem(s, Do(cfg, s, step), step.item)
  {
    if StaysInHand(step) { InHandMoves(cfg, s, step); }
  }

  lemma OneItemOk(cfg: Config, s: State, t: State, i: nat)
    requires ItemsOk(cfg, s) && OneItem(s, t, i)
    ensures ItemsOk(cfg, t)
  {
    assert ItemOk(cfg, s.items[i]);
    forall j | 0 <= j < |t.items| ensures ItemOk(cfg, t.items[j]) {
      if j < |s.items| && j != i { assert ItemOk(cfg, s.items[j]); }
    }
  }

  lemma NackKeepsItems(cfg: Config, s: State, i: nat)
    requires Enabled(cfg, s, Nack(i)) && ItemsOk(cfg, s)
    ensures ItemsOk(cfg, Do(cfg, s, Nack(i)))
  {
    MaxOfBounds(cfg.budgets, s.items[i].queue);
    NackRests(s.items[i].deaths, |cfg.bindings|, Budget(cfg), s.items[i].queue);
    if !s.items[i].stage.live { OneItemOk(cfg, s, Do(cfg, s, Nack(i)), i); }
  }

  lemma ExpireKeepsItems(cfg: Config, s: State, i: nat)
    requires Enabled(cfg, s, Expire(i)) && ItemsOk(cfg, s)
    ensures ItemsOk(cfg, Do(cfg, s, Expire(i)))
  {
    var it := s.items[i];
    var deaths := Bump(it.deaths, Retry(it.queue));
    assert ItemOk(cfg, it);
    ExpiryCirculates(it.deaths, |cfg.bindings|, Budget(cfg), it.queue);
    FanOutOk(cfg, cfg.bindings[it.queue], it.id, it.json, deaths);
    AppendOk(cfg, Do(cfg, s, Expire(i)), SetStage(s, i, Gone).items,
             FanOut(cfg, cfg.bindings[it.queue], it.id, it.json, deaths));
  }

  lemma KeepItemsOk(cfg: Config, s: State, step: Step)
    requires Enabled(cfg, s, step) && ItemsOk(cfg, s)
    ensures ItemsOk(cfg, Do(cfg, s, step))
  {
    var t := Do(cfg, s, step);
    FreshCirculates(|cfg.bindings|, Budget(cfg));
    match step
    case Nack(i) => NackKeepsItems(cfg, s, i);
    case Expire(i) => ExpireKeepsItems(cfg, s, i);
    case PublishInline(key, json) =>
      FanOutOk(cfg, key, None, json, []);
      AppendOk(cfg, t, s.items, FanOut(cfg, key, None, json, []));
    case Publish(d, _, delivered) =>
      var r := s.drains[d].rows[|s.drains[d].oks|];
      FanOutOk(cfg, s.rows[r].key, Some(r), true, []);
      if delivered { AppendOk(cfg, t, s.items, FanOut(cfg, s.rows[r].key, Some(r), true, [])); }
    case StageRow(_) =>
    case Select(_) =>
    case CommitDrain(_) =>
    case AbortDrain(_) =>
    case _ =>
      OneItemMoves(cfg, s, step);
      OneItemOk(cfg, s, t, step.item);
  }

  // ---- Exactly once ----

  ghost predicate Effective(s: State) {
    forall p: (nat, nat) :: s.effects[p] == if p in s.inbox then 1 else 0
  }

  ghost predicate HoldersFresh(s: State) {
    forall i :: 0 <= i < |s.items| && Holds(s.items[i]) ==> Pair(s.items[i]) !in s.inbox
  }

  ghost predicate HoldersApart(s: State) {
    forall i, j :: 0 <= i < j < |s.items| && Holds(s.items[i]) && Holds(s.items[j])
                   ==> Pair(s.items[i]) != Pair(s.items[j])
  }

  ghost predicate ExactlyOnce(s: State) {
    Effective(s) && HoldersFresh(s) && HoldersApart(s)
  }

  /** Every holder after the step already held the same key before it. */
  ghost predicate NoNewHolders(s: State, t: State) {
    forall i :: 0 <= i < |t.items| && Holds(t.items[i])
                ==> i < |s.items| && Holds(s.items[i]) && Pair(s.items[i]) == Pair(t.items[i])
  }

  lemma SameHolders(s: State, t: State)
    requires ExactlyOnce(s) && NoNewHolders(s, t) && t.inbox == s.inbox && t.effects == s.effects
    ensures ExactlyOnce(t)
  { }

  lemma AddedHoldNothing(cfg: Config, s: State, step: Step)
    requires Enabled(cfg, s, step) && AddsItems(step)
    ensures NoNewHolders(s, Do(cfg, s, step))
  { }

  lemma MovedHoldNothing(cfg: Config, s: State, step: Step)
    requires Enabled(cfg, s, step) && !AddsItems(step) && !step.Claim? && !step.Nack?
    ensures NoNewHolders(s, Do(cfg, s, step))
  {
    var t, i := Do(cfg, s, step), step.item;
    OneItemMoves(cfg, s, step);
    assert Holds(t.items[i]) ==> Holds(s.items[i]);
  }

  /** Only a claim makes a holder. */
  lemma OnlyClaimHolds(cfg: Config, s: State, step: Step)
    requires Enabled(cfg, s, step) && !step.Claim?
    ensures NoNewHolders(s, Do(cfg, s, step))
  {
    if AddsItems(step) { AddedHoldNothing(cfg, s, step); }
    else if !step.Nack? { MovedHoldNothing(cfg, s, step); }
  }

  /** A fresh claim: nobody else holds the key, and it is not in the inbox. */
  lemma ClaimKeepsExactlyOnce(cfg: Config, s: State, i: nat)
    requires Enabled(cfg, s, Claim(i)) && ExactlyOnce(s)
    ensures ExactlyOnce(Do(cfg, s, Claim(i)))
  {
    var t := Do(cfg, s, Claim(i));
    if !(s.items[i].id.Some? && Pair(s.items[i]) !in s.inbox) {
      SameHolders(s, t);
    } else {
      forall j: nat | j < |t.items| && j != i && Holds(t.items[j])
        ensures Pair(t.items[j]) != Pair(t.items[i])
      {
        assert Holds(s.items[j]);
      }
    }
  }

  /** The holder's commit, reported or not, adds the first effect of its key and no other,
    * and the key is held no more. */
  lemma CommitKeepsExactlyOnce(cfg: Config, s: State, i: nat, reported: bool)
    requires Enabled(cfg, s, Commit(i, reported)) && ExactlyOnce(s)
    ensures ExactlyOnce(Do(cfg, s, Commit(i, reported)))
    ensures s.items[i].id.Some? ==>
              var t, p := Do(cfg, s, Commit(i, reported)), Pair(s.items[i]);
              && s.effects[p] == 0 && t.effects == s.effects + multiset{p} && t.effects[p] == 1
              && p !in s.inbox && t.inbox == s.inbox + {p}
              && forall j :: 0 <= j < |t.items| && Holds(t.items[j]) ==> Pair(t.items[j]) != p
  {
    var t := Do(cfg, s, Commit(i, reported));
    OnlyClaimHolds(cfg, s, Commit(i, reported));
    if s.items[i].id.Some? {
      assert Holds(s.items[i]);
      forall j | 0 <= j < |t.items| && Holds(t.items[j])
        ensures Pair(t.items[j]) !in t.inbox
      {
        assert j != i && Pair(s.items[j]) != Pair(s.items[i]);
      }
    } else {
      SameHolders(s, t);
    }
  }

  lemma KeepExactlyOnce(cfg: Config, s: State, step: Step)
    requires Enabled(cfg, s, step) && ExactlyOnce(s)
    ensures ExactlyOnce(Do(cfg, s, step))
  {
    match step
    case Claim(i) => ClaimKeepsExactlyOnce(cfg, s, i);
    case Commit(i, reported) => CommitKeepsExactlyOnce(cfg, s, i, reported);
    case _ =>
      OnlyClaimHolds(cfg, s, step);
      SameHolders(s, Do(cfg, s, step));
  }

  // ---- No silent loss ----

  /** A copy that can still reach the handler of queue q, or rests in its parked queue. */
  ghost predicate Carries(it: Item, e: nat, q: nat) {
    && it.queue == q && it.id == Some(e)
    && (it.stage == Ready || it.stage == Waiting || it.stage == Stage.Parked || (it.stage.Busy? && it.stage.live))
  }

  ghost predicate Carried(s: State, e: nat, q: nat) {
    exists i :: 0 <= i < |s.items| && Carries(s.items[i], e, q)
  }

  ghost predicate ParkedFor(s: State, e: nat, q: nat) {
    exists i :: 0 <= i < |s.items| && s.items[i].stage == Stage.Parked
                && s.items[i].queue == q && s.items[i].id == Some(e)
  }

  /** Handled, or rests in the parked queue, or its park publish was lost. */
  ghost predicate Settled(s: State, e: nat, q: nat) {
    (e, q) in s.inbox || (e, q) in s.parkLost || ParkedFor(s, e, q)
  }

  ghost predicate Covered(s: State, e: nat, q: nat) {
    (e, q) in s.inbox || (e, q) in s.parkLost || Carried(s, e, q)
  }

  /** A consumer about to ack an event has settled it. */
  ghost predicate AcksSettled(s: State) {
    forall i :: 0 <= i < |s.items| && s.items[i].id.Some? && At(s, i, AckDue)
                ==> Settled(s, s.items[i].id.value, s.items[i].queue)
  }

  ghost predicate RowsCovered(cfg: Config, s: State) {
    forall r, q: nat :: 0 <= r < |s.rows| && q in Bound(cfg, s.rows[r].key) ==>
      s.rows[r].enqueued ==> Covered(s, r, q)
  }

  ghost predicate NothingLost(cfg: Config, s: State) {
    AcksSettled(s) && RowsCovered(cfg, s)
  }

  lemma Parks(s: State, i: nat, e: nat, q: nat)
    requires i < |s.items| && s.items[i].stage == Stage.Parked && s.items[i].queue == q && s.items[i].id == Some(e)
    ensures ParkedFor(s, e, q) && Carried(s, e, q)
  { }

  lemma CarriedBy(s: State, i: nat, e: nat, q: nat)
    requires i < |s.items| && Carries(s.items[i], e, q)
    ensures Carried(s, e, q)
  { }

  /** The fan-out puts a copy on each queue bound to the key. */
  lemma FanOutCarries(cfg: Config, base: seq<Item>, key: Key, e: nat, deaths: Deaths, q: nat, s: State)
    requires q in Bound(cfg, key)
    requires s.items == base + FanOut(cfg, key, Some(e), true, deaths)
    ensures Carried(s, e, q)
  {
    var queues := Bound(cfg, key);
    var k :| 0 <= k < |queues| && queues[k] == q;
    assert s.items[|base| + k] == Item(q, Some(e), true, deaths, Ready);
    CarriedBy(s, |base| + k, e, q);
  }

  /** Once settled, always settled. */
  lemma KeepSettled(cfg: Config, s: State, step: Step, e: nat, q: nat)
    requires Enabled(cfg, s, step) && Settled(s, e, q)
    ensures Settled(Do(cfg, s, step), e, q)
  {
    var t := Do(cfg, s, step);
    if ParkedFor(s, e, q) {
      var i :| 0 <= i < |s.items| && s.items[i].stage == Stage.Parked
               && s.items[i].queue == q && s.items[i].id == Some(e);
      assert t.items[i] == s.items[i];
      Parks(t, i, e, q);
    }
  }

  /** No step uncovers an event: whatever takes a carrying copy away leaves another
    * copy for the same queue, a settled event, or a note that the park was lost. */
  lemma KeepCovered(cfg: Config, s: State, step: Step, e: nat, q: nat)
    requires Enabled(cfg, s, step) && ItemsOk(cfg, s) && AcksSettled(s) && Covered(s, e, q)
    ensures Covered(Do(cfg, s, step), e, q)
  {
    var t := Do(cfg, s, step);
    if (e, q) !in s.inbox && (e, q) !in s.parkLost {
      var i :| 0 <= i < |s.items| && Carries(s.items[i], e, q);
      if i < |t.items| && Carries(t.items[i], e, q) {
        CarriedBy(t, i, e, q);
      } else {
        LostCarrierCovered(cfg, s, step, i, e, q);
      }
    }
  }

  /** A retry comes back to its own queue at least. */
  lemma ExpiryCarries(cfg: Config, s: State, i: nat, e: nat, q: nat)
    requires Enabled(cfg, s, Expire(i)) && ItemsOk(cfg, s) && Carries(s.items[i], e, q)
    ensures Carried(Do(cfg, s, Expire(i)), e, q)
  {
    assert ItemOk(cfg, s.items[i]);
    SelfMatch(cfg.bindings[q]);
    FanOutCarries(cfg, SetStage(s, i, Gone).items, cfg.bindings[q], e, Bump(s.items[i].deaths, Retry(q)), q,
                  Do(cfg, s, Expire(i)));
  }

  lemma LostCarrierCovered(cfg: Config, s: State, step: Step, i: nat, e: nat, q: nat)
    requires Enabled(cfg, s, step) && ItemsOk(cfg, s) && AcksSettled(s)
    requires i < |s.items| && Carries(s.items[i], e, q)
    requires i < |Do(cfg, s, step).items| ==> !Carries(Do(cfg, s, step).items[i], e, q)
    ensures Covered(Do(cfg, s, step), e, q)
  {
    var t := Do(cfg, s, step);
    match step
    case Expire(j) =>
      assert j == i;
      ExpiryCarries(cfg, s, i, e, q);
    case DropConnection(j) =>
      assert j == i;
      CarriedBy(t, |s.items|, e, q);
    case Ack(j) =>
      assert j == i && Settled(s, e, q);
      KeepSettled(cfg, s, step, e, q);
      SettledCovered(t, e, q);
    case _ =>
  }

  lemma SettledCovered(s: State, e: nat, q: nat)
    requires Settled(s, e, q)
    ensures Covered(s, e, q)
  {
    if ParkedFor(s, e, q) {
      var i :| 0 <= i < |s.items| && s.items[i].stage == Stage.Parked
               && s.items[i].queue == q && s.items[i].id == Some(e);
      Parks(s, i, e, q);
    }
  }

  /** Identity and queue of a copy never change. */
  lemma SameIdentity(cfg: Config, s: State, step: Step, i: nat)
    requires Enabled(cfg, s, step) && i < |s.items|
    ensures var t := Do(cfg, s, step);
            i < |t.items| && t.items[i].id == s.items[i].id && t.items[i].queue == s.items[i].queue
  {
    if !AddsItems(step) && !step.Nack? { OneItemMoves(cfg, s, step); }
  }

  /** A copy that is now due for its ack has just been handled, parked, or lost to a park. */
  lemma NewAckSettled(cfg: Config, s: State, step: Step, i: nat)
    requires Enabled(cfg, s, step) && ItemsOk(cfg, s) && !AddsItems(step)
    requires var t := Do(cfg, s, step);
             i < |t.items| && t.items[i].id.Some? && At(t, i, AckDue) && !At(s, i, AckDue)
    ensures var t := Do(cfg, s, step); Settled(t, t.items[i].id.value, t.items[i].queue)
  {
    var t := Do(cfg, s, step);
    assert i == step.item;
    assert ItemOk(cfg, s.items[i]);
    if step.ParkCopy? && step.delivered { Parks(t, |s.items|, t.items[i].id.value, t.items[i].queue); }
  }

  lemma AddedNotDue(cfg: Config, s: State, step: Step, i: nat)
    requires Enabled(cfg, s, step) && AddsItems(step)
    ensures At(Do(cfg, s, step), i, AckDue) ==> At(s, i, AckDue)
  { }

  lemma KeepAcksSettled(cfg: Config, s: State, step: Step)
    requires Enabled(cfg, s, step) && ItemsOk(cfg, s) && AcksSettled(s)
    ensures AcksSettled(Do(cfg, s, step))
  {
    var t := Do(cfg, s, step);
    forall i | 0 <= i < |t.items| && t.items[i].id.Some? && At(t, i, AckDue)
      ensures Settled(t, t.items[i].id.value, t.items[i].queue)
    {
      if AddsItems(step) { AddedNotDue(cfg, s, step, i); }
      if At(s, i, AckDue) {
        SameIdentity(cfg, s, step, i);
        KeepSettled(cfg, s, step, t.items[i].id.value, t.items[i].queue);
      } else {
        NewAckSettled(cfg, s, step, i);
      }
    }
  }

  lemma KeepNothingLost(cfg: Config, s: State, step: Step)
    requires Enabled(cfg, s, step) && ItemsOk(cfg, s) && NothingLost(cfg, s)
    ensures NothingLost(cfg, Do(cfg, s, step))
  {
    var t := Do(cfg, s, step);
    KeepAcksSettled(cfg, s, step);
    forall r, q: nat | 0 <= r < |t.rows| && t.rows[r].enqueued && q in Bound(cfg, t.rows[r].key)
      ensures Covered(t, r, q)
    {
      assert r < |s.rows| && t.rows[r].key == s.rows[r].key;
      if s.rows[r].enqueued {
        KeepCovered(cfg, s, step, r, q);
      } else {
        assert step.Publish? && step.delivered;
        FanOutCarries(cfg, s.items, s.rows[r].key, r, [], q, t);
      }
    }
  }

  // ---- Nothing comes from nowhere ----

  /** What carries an event, and what is recorded of it, stems from a publish of its row that
    * the broker enqueued. */
  ghost predicate Originates(s: State) {
    && (forall i :: 0 <= i < |s.items| && s.items[i].id.Some? ==> WasEnqueued(s, s.items[i].id.value))
    && (forall p :: p in s.inbox || p in s.parkLost ==> WasEnqueued(s, p.0))
  }

  ghost predicate WasEnqueued(s: State, e: nat) {
    e < |s.rows| && s.rows[e].enqueued
  }

  lemma EnqueuedStays(cfg: Config, s: State, step: Step, e: nat)
    requires Enabled(cfg, s, step) && WasEnqueued(s, e)
    ensures WasEnqueued(Do(cfg, s, step), e)
  { }

  /** A new copy is of an event that had one, or of the row just enqueued. */
  lemma NewCopyOriginates(cfg: Config, s: State, step: Step, i: nat)
    requires Enabled(cfg, s, step) && Originates(s)
    requires var t := Do(cfg, s, step); |s.items| <= i < |t.items| && t.items[i].id.Some?
    ensures var t := Do(cfg, s, step); WasEnqueued(t, t.items[i].id.value)
  {
    var t := Do(cfg, s, step);
    if !step.Publish? {
      assert (step.Expire? || step.DropConnection? || step.ParkCopy?) && t.items[i].id == s.items[step.item].id;
      EnqueuedStays(cfg, s, step, t.items[i].id.value);
    }
  }

  lemma KeepOriginates(cfg: Config, s: State, step: Step)
    requires Enabled(cfg, s, step) && Originates(s)
    ensures Originates(Do(cfg, s, step))
  {
    var t := Do(cfg, s, step);
    forall i | 0 <= i < |t.items| && t.items[i].id.Some? ensures WasEnqueued(t, t.items[i].id.value) {
      if i < |s.items| {
        SameIdentity(cfg, s, step, i);
        EnqueuedStays(cfg, s, step, t.items[i].id.value);
      } else {
        NewCopyOriginates(cfg, s, step, i);
      }
    }
    forall p | p in t.inbox || p in t.parkLost ensures WasEnqueued(t, p.0) {
      RecordedBefore(cfg, s, step, p);
      EnqueuedStays(cfg, s, step, p.0);
    }
  }

  lemma RecordedBefore(cfg: Config, s: State, step: Step, p: (nat, nat))
    requires Enabled(cfg, s, step) && Originates(s)
    requires var t := Do(cfg, s, step); p in t.inbox || p in t.parkLost
    ensures WasEnqueued(s, p.0)
  {
    if p !in s.inbox && p !in s.parkLost {
      assert (step.Commit? || step.ParkCopy?) && s.items[step.item].id == Some(p.0);
    }
  }

  // ---- Over whole runs ----

  ghost predicate Inv(cfg: Config, s: State) {
    ItemsOk(cfg, s) && ExactlyOnce(s) && NothingLost(cfg, s) && Originates(s)
  }

  lemma {:induction false} RunKeepsInv(cfg: Config, s: State, steps: seq<Step>)
    requires IsRun(cfg, s, steps) && Inv(cfg, s)
    ensures Inv(cfg, After(cfg, s, steps))
    decreases |steps|
  {
    if steps != [] {
      KeepItemsOk(cfg, s, steps[0]);
      KeepExactlyOnce(cfg, s, steps[0]);
      KeepNothingLost(cfg, s, steps[0]);
      KeepOriginates(cfg, s, steps[0]);
      RunKeepsInv(cfg, Do(cfg, s, steps[0]), steps[1..]);
    }
  }

  /** Exactly-once effect: after any run, a (event, queue) has one committed handler
    * effect if it is in the inbox and none otherwise. */
  lemma EffectsExactlyOnce(cfg: Config, steps: seq<Step>, e: nat, q: nat)
    requires IsRun(cfg, EMPTY, steps)
    ensures var s := After(cfg, EMPTY, steps);
            s.effects[(e, q)] <= 1 && (s.effects[(e, q)] == 1 <==> (e, q) in s.inbox)
  {
    RunKeepsInv(cfg, EMPTY, steps);
  }

  /** Every copy, after any run, keeps each per-queue death count within the largest
    * budget M, and has been nacked at most Q * (M - 1) + 1 times. */
  lemma CopiesWithinBudget(cfg: Config, steps: seq<Step>, i: nat)
    requires IsRun(cfg, EMPTY, steps) && i < |After(cfg, EMPTY, steps).items|
    ensures var it := After(cfg, EMPTY, steps).items[i];
            it.stage == Ready || it.stage == Waiting || it.stage.Busy? ==>
              && (forall q: nat :: q < |cfg.bindings| ==> CountOf(it.deaths, Main(q)) <= Budget(cfg))
              && Rejections(it.deaths, |cfg.bindings|) <= NackLimit(|cfg.bindings|, Budget(cfg))
  {
    RunKeepsInv(cfg, EMPTY, steps);
    var it := After(cfg, EMPTY, steps).items[i];
    assert ItemOk(cfg, it);
    if it.stage == Waiting {
      RestingLimit(it.deaths, |cfg.bindings|, Budget(cfg), it.queue);
    } else if it.stage == Ready || it.stage.Busy? {
      CirculatingLimit(it.deaths, |cfg.bindings|, Budget(cfg));
    }
  }
}
