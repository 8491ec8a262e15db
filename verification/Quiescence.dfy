/** Once nothing more is staged and nothing more fails, every sequence of relay, broker
  * and consumer steps comes to an end, whatever the handlers answer, and at the end
  * every event is handled or parked. */
module Quiescence {
  import opened Wrappers
  import opened Topology
  import opened DeathHeader
  import opened EventPlane
  import opened Safety
  import opened RelayAccounting
  import opened Sums

  /** The steps that are neither new work nor a failure. The broker may still take back
    * what an earlier failure left unacknowledged. */
  ghost predicate Quiet(step: Step) {
    match step
    case Select(_) => true
    case Publish(_, ok, delivered) => ok && delivered
    case CommitDrain(_) => true
    case Deliver(_) => true
    case Expire(_) => true
    case Redeliver(_) => true
    case DropBadJson(_) => true
    case Claim(_) => true
    case HandlerOk(_) => true
    case HandlerErr(_) => true
    case Commit(_, reported) => reported
    case Nack(_) => true
    case ParkCopy(_, delivered) => delivered
    case Ack(_) => true
    case _ => false
  }

  ghost predicate AllQuiet(steps: seq<Step>) {
    forall i :: 0 <= i < |steps| ==> Quiet(steps[i])
  }

  ghost predicate Kept(cfg: Config, s: State) {
    Inv(cfg, s) && Accounted(s)
  }

  // ---- The measure ----

  /** The weight of a copy in a main queue that can still be nacked n times: each nack
    * and expiry turns it into at most one copy a queue, each with one nack less. */
  ghost function Weight(queues: nat, n: nat): (w: nat)
    ensures w >= 10
  {
    if n == 0 then 10 else queues * Weight(queues, n - 1) + 10
  }

  ghost function NacksLeft(cfg: Config, deaths: Deaths): nat {
    var limit := NackLimit(|cfg.bindings|, Budget(cfg));
    var used := Rejections(deaths, |cfg.bindings|);
    if used <= limit then limit - used else 0
  }

  ghost function ItemWeight(cfg: Config, it: Item): nat {
    var w := Weight(|cfg.bindings|, NacksLeft(cfg, it.deaths));
    match it.stage
    case Ready => w
    case Waiting => |cfg.bindings| * w + 1
    case Parked => 0
    case Gone => 0
    case Busy(_, phase) =>
      match phase
      case Stuck => w + 1
      case Received => w - 1
      case Claimed => w - 2
      case Ran => w - 3
      case Failed => w - 4
      case AckDue => 1
  }

  /** What one publish can put into the queues, plus one. */
  ghost function PublishWeight(cfg: Config): nat {
    |cfg.bindings| * Weight(|cfg.bindings|, NacksLeft(cfg, [])) + 1
  }

  ghost predicate Tried(d: Drain, r: nat) {
    exists k: nat :: k < |d.oks| && k < |d.rows| && d.rows[k] == r
  }

  ghost function RowWeight(cfg: Config, s: State, r: nat): nat
    requires r < |s.rows|
  {
    var row, p := s.rows[r], PublishWeight(cfg);
    if row.published then 0
    else if row.lock.None? || row.lock.value >= |s.drains| then p + 4
    else
      var d := s.drains[row.lock.value];
      if PublishedIn(d, r) then 0 else if Tried(d, r) then p + 5 else p + 2
  }

  /** An open transaction has its commit to go; a relay that was rolled back may still have
    * publishes to go. */
  ghost function DrainWeight(cfg: Config, d: Drain): nat {
    match d.status
    case Active => 1
    case Committed => 0
    case Aborted => if |d.oks| <= |d.rows| then Times(|d.rows| - |d.oks|, PublishWeight(cfg)) else 0
  }

  ghost function ItemWeights(cfg: Config, items: seq<Item>): (ws: seq<nat>)
    ensures |ws| == |items| && forall i :: 0 <= i < |ws| ==> ws[i] == ItemWeight(cfg, items[i])
  {
    seq(|items|, i requires 0 <= i < |items| => ItemWeight(cfg, items[i]))
  }

  ghost function RowWeights(cfg: Config, s: State): (ws: seq<nat>)
    ensures |ws| == |s.rows| && forall i :: 0 <= i < |ws| ==> ws[i] == RowWeight(cfg, s, i)
  {
    seq(|s.rows|, i requires 0 <= i < |s.rows| => RowWeight(cfg, s, i))
  }

  ghost function DrainWeights(cfg: Config, drains: seq<Drain>): (ws: seq<nat>)
    ensures |ws| == |drains| && forall i :: 0 <= i < |ws| ==> ws[i] == DrainWeight(cfg, drains[i])
  {
    seq(|drains|, i requires 0 <= i < |drains| => DrainWeight(cfg, drains[i]))
  }

  ghost function Measure(cfg: Config, s: State): nat {
    Sum(ItemWeights(cfg, s.items)) + Sum(RowWeights(cfg, s)) + Sum(DrainWeights(cfg, s.drains))
  }

  // ---- Each quiet step lowers it ----

  lemma SameRows(cfg: Config, s: State, t: State)
    requires t.rows == s.rows && t.drains == s.drains
    ensures RowWeights(cfg, t) == RowWeights(cfg, s)
  { }

  lemma MoreIsMore(m: nat, n: nat, w: nat)
    requires m <= n
    ensures m * w <= n * w
  {
    assert n * w == m * w + (n - m) * w;
  }

  lemma FanOutWeight(cfg: Config, key: Key, id: Option<nat>, json: bool, deaths: Deaths)
    ensures Sum(ItemWeights(cfg, FanOut(cfg, key, id, json, deaths)))
         <= |cfg.bindings| * Weight(|cfg.bindings|, NacksLeft(cfg, deaths))
  {
    var copies := FanOut(cfg, key, id, json, deaths);
    var w := Weight(|cfg.bindings|, NacksLeft(cfg, deaths));
    SumBounded(ItemWeights(cfg, copies), w);
    MoreIsMore(|copies|, |cfg.bindings|, w);
  }

  lemma ItemsConcat(cfg: Config, a: seq<Item>, b: seq<Item>)
    ensures Sum(ItemWeights(cfg, a + b)) == Sum(ItemWeights(cfg, a)) + Sum(ItemWeights(cfg, b))
  {
    assert ItemWeights(cfg, a + b) == ItemWeights(cfg, a) + ItemWeights(cfg, b);
    SumConcat(ItemWeights(cfg, a), ItemWeights(cfg, b));
  }

  lemma ItemsUpdate(cfg: Config, items: seq<Item>, i: nat, it: Item)
    requires i < |items|
    ensures Sum(ItemWeights(cfg, items[i := it])) + ItemWeight(cfg, items[i])
         == Sum(ItemWeights(cfg, items)) + ItemWeight(cfg, it)
  {
    assert ItemWeights(cfg, items[i := it]) == ItemWeights(cfg, items)[i := ItemWeight(cfg, it)];
    SumUpdate(ItemWeights(cfg, items), i, ItemWeight(cfg, it));
  }

  /** A nack uses up one of the nacks left. */
  lemma NackUses(cfg: Config, it: Item)
    requires ItemOk(cfg, it) && it.stage.Busy? && it.queue < |cfg.budgets| && MustRetry(cfg, it)
    ensures NacksLeft(cfg, it.deaths) == NacksLeft(cfg, Bump(it.deaths, Main(it.queue))) + 1
  {
    MaxOfBounds(cfg.budgets, it.queue);
    NackRests(it.deaths, |cfg.bindings|, Budget(cfg), it.queue);
    RestingLimit(Bump(it.deaths, Main(it.queue)), |cfg.bindings|, Budget(cfg), it.queue);
    RejectionsBump(it.deaths, |cfg.bindings|, Main(it.queue));
  }

  lemma NackLowers(cfg: Config, s: State, i: nat)
    requires Kept(cfg, s) && Enabled(cfg, s, Nack(i))
    ensures ItemWeight(cfg, Do(cfg, s, Nack(i)).items[i]) < ItemWeight(cfg, s.items[i])
  {
    var it := s.items[i];
    assert ItemOk(cfg, it);
    if it.stage.live {
      NackUses(cfg, it);
      var n := NacksLeft(cfg, Bump(it.deaths, Main(it.queue)));
      assert Weight(|cfg.bindings|, n + 1) == |cfg.bindings| * Weight(|cfg.bindings|, n) + 10;
    }
  }

  /** Item i changes and others are added. */
  lemma ReplacedBy(cfg: Config, items: seq<Item>, i: nat, it: Item, more: seq<Item>)
    requires i < |items|
    ensures Sum(ItemWeights(cfg, items[i := it] + more)) + ItemWeight(cfg, items[i])
         == Sum(ItemWeights(cfg, items)) + ItemWeight(cfg, it) + Sum(ItemWeights(cfg, more))
  {
    ItemsUpdate(cfg, items, i, it);
    ItemsConcat(cfg, items[i := it], more);
  }

  lemma ExpireLowers(cfg: Config, s: State, i: nat)
    requires Kept(cfg, s) && Enabled(cfg, s, Expire(i))
    ensures Measure(cfg, Do(cfg, s, Expire(i))) < Measure(cfg, s)
  {
    var it, t := s.items[i], Do(cfg, s, Expire(i));
    var copies := FanOut(cfg, cfg.bindings[it.queue], it.id, it.json, Bump(it.deaths, Retry(it.queue)));
    assert t.items == s.items[i := it.(stage := Gone)] + copies;
    ReplacedBy(cfg, s.items, i, it.(stage := Gone), copies);
    ExpiryWeight(cfg, it);
    SameRows(cfg, s, t);
  }

  /** A resting copy weighs more than all the copies its expiry makes. */
  lemma ExpiryWeight(cfg: Config, it: Item)
    requires it.stage == Waiting && it.queue < |cfg.bindings|
    ensures Sum(ItemWeights(cfg, FanOut(cfg, cfg.bindings[it.queue], it.id, it.json, Bump(it.deaths, Retry(it.queue)))))
          < ItemWeight(cfg, it)
  {
    var after := Bump(it.deaths, Retry(it.queue));
    RejectionsBump(it.deaths, |cfg.bindings|, Retry(it.queue));
    assert NacksLeft(cfg, after) == NacksLeft(cfg, it.deaths);
    FanOutWeight(cfg, cfg.bindings[it.queue], it.id, it.json, after);
  }

  lemma ParkLowers(cfg: Config, s: State, i: nat)
    requires Kept(cfg, s) && Enabled(cfg, s, ParkCopy(i, true))
    ensures Measure(cfg, Do(cfg, s, ParkCopy(i, true))) < Measure(cfg, s)
  {
    var it, t := s.items[i], Do(cfg, s, ParkCopy(i, true));
    var acked := it.(stage := Busy(it.stage.live, AckDue));
    var parked := [Item(it.queue, it.id, it.json, [], Stage.Parked)];
    assert t.items == s.items[i := acked] + parked;
    ReplacedBy(cfg, s.items, i, acked, parked);
    SumSingle(ItemWeights(cfg, parked), 0);
    SameRows(cfg, s, t);
  }

  /** The other consumer and broker steps move one copy to a lighter stage. */
  lemma CopyStepLowers(cfg: Config, s: State, step: Step)
    requires Kept(cfg, s) && Enabled(cfg, s, step) && Quiet(step)
    requires !step.Select? && !step.Publish? && !step.CommitDrain? && !step.Expire? && !step.ParkCopy?
    ensures Measure(cfg, Do(cfg, s, step)) < Measure(cfg, s)
  {
    var t, i := Do(cfg, s, step), step.item;
    CopyLighter(cfg, s, step);
    ItemsUpdate(cfg, s.items, i, t.items[i]);
    SameRows(cfg, s, t);
  }

  lemma CopyLighter(cfg: Config, s: State, step: Step)
    requires Kept(cfg, s) && Enabled(cfg, s, step) && Quiet(step)
    requires !step.Select? && !step.Publish? && !step.CommitDrain? && !step.Expire? && !step.ParkCopy?
    ensures var t, i := Do(cfg, s, step), step.item;
            && i < |s.items| == |t.items| && t.items == s.items[i := t.items[i]]
            && t.rows == s.rows && t.drains == s.drains
            && ItemWeight(cfg, t.items[i]) < ItemWeight(cfg, s.items[i])
  {
    if step.Nack? { NackLowers(cfg, s, step.item); }
  }

  lemma SelectLowers(cfg: Config, s: State, rs: seq<nat>)
    requires Kept(cfg, s) && Enabled(cfg, s, Select(rs))
    ensures Measure(cfg, Do(cfg, s, Select(rs))) < Measure(cfg, s)
  {
    var t := Do(cfg, s, Select(rs));
    NewDrainWeight(cfg, s.drains, rs);
    forall r: nat | r < |s.rows|
      ensures RowWeight(cfg, t, r) + (if r in rs then 2 else 0) == RowWeight(cfg, s, r)
    {
      SelectedRowWeight(cfg, s, rs, r);
    }
    assert rs[0] in rs;
    SumBelow(RowWeights(cfg, t), RowWeights(cfg, s), rs[0]);
  }

  lemma NewDrainWeight(cfg: Config, drains: seq<Drain>, rs: seq<nat>)
    ensures Sum(DrainWeights(cfg, drains + [Drain(rs, [], Active)])) == Sum(DrainWeights(cfg, drains)) + 1
  {
    assert DrainWeights(cfg, drains + [Drain(rs, [], Active)]) == DrainWeights(cfg, drains) + [1];
    SumConcat(DrainWeights(cfg, drains), [1]);
  }

  lemma SelectedRowWeight(cfg: Config, s: State, rs: seq<nat>, r: nat)
    requires Kept(cfg, s) && Enabled(cfg, s, Select(rs)) && r < |s.rows|
    ensures RowWeight(cfg, Do(cfg, s, Select(rs)), r) + (if r in rs then 2 else 0) == RowWeight(cfg, s, r)
  {
    if r in rs {
      assert s.rows[r].lock.None? && !s.rows[r].published;
      assert !PublishedIn(Drain(rs, [], Active), r) && !Tried(Drain(rs, [], Active), r);
    } else if s.rows[r].lock.Some? {
      assert ActiveDrain(s, s.rows[r].lock.value);
    }
  }

  /** Publishing one row of a drain leaves the standing of its other rows. */
  lemma OtherRowsStand(d: Drain, ok: bool, r: nat)
    requires DrainOk(d) && |d.oks| < |d.rows|
    ensures var e := d.(oks := d.oks + [ok]);
            if r == d.rows[|d.oks|] then (PublishedIn(e, r) <==> ok) && !Tried(d, r) && !PublishedIn(d, r)
            else (PublishedIn(e, r) <==> PublishedIn(d, r)) && (Tried(e, r) <==> Tried(d, r))
  {
    var e, n := d.(oks := d.oks + [ok]), |d.oks|;
    forall k: nat | k < n ensures e.oks[k] == d.oks[k] && d.rows[k] != d.rows[n] { }
    assert e.oks[n] == ok;
    if r == d.rows[n] {
      assert PublishedIn(e, r) <== ok;
    } else {
      assert PublishedIn(d, r) ==> PublishedIn(e, r) by {
        if PublishedIn(d, r) {
          var k: nat :| k < |d.oks| && k < |d.rows| && d.rows[k] == r && d.oks[k];
          assert e.oks[k];
        }
      }
      assert Tried(d, r) ==> Tried(e, r) by {
        if Tried(d, r) {
          var k: nat :| k < |d.oks| && k < |d.rows| && d.rows[k] == r;
          assert k < |e.oks|;
        }
      }
    }
  }

  /** A publish after the rollback uses up one of those the relay had left. */
  lemma LatePublishLowers(cfg: Config, s: State, d: nat)
    requires Kept(cfg, s) && Enabled(cfg, s, Publish(d, true, true)) && s.drains[d].status == Aborted
    ensures Measure(cfg, Do(cfg, s, Publish(d, true, true))) < Measure(cfg, s)
  {
    var t, drain := Do(cfg, s, Publish(d, true, true)), s.drains[d];
    LatePublishRows(cfg, s, d);
    LateDrainWeight(cfg, s.drains, d, true);
    PublishedItems(cfg, s, drain.rows[|drain.oks|]);
  }

  lemma LatePublishRows(cfg: Config, s: State, d: nat)
    requires Kept(cfg, s) && Enabled(cfg, s, Publish(d, true, true)) && s.drains[d].status == Aborted
    ensures RowWeights(cfg, Do(cfg, s, Publish(d, true, true))) == RowWeights(cfg, s)
  {
    var t := Do(cfg, s, Publish(d, true, true));
    forall r | 0 <= r < |s.rows| ensures RowWeight(cfg, t, r) == RowWeight(cfg, s, r) {
      if s.rows[r].lock.Some? { assert ActiveDrain(s, s.rows[r].lock.value); }
    }
  }

  lemma LateDrainWeight(cfg: Config, drains: seq<Drain>, d: nat, ok: bool)
    requires d < |drains| && drains[d].status == Aborted && |drains[d].oks| < |drains[d].rows|
    ensures Sum(DrainWeights(cfg, drains[d := drains[d].(oks := drains[d].oks + [ok])])) + PublishWeight(cfg)
         == Sum(DrainWeights(cfg, drains))
  {
    var x := drains[d].(oks := drains[d].oks + [ok]);
    LateOnce(cfg, drains[d], ok);
    assert DrainWeights(cfg, drains[d := x]) == DrainWeights(cfg, drains)[d := DrainWeight(cfg, x)];
    SumUpdate(DrainWeights(cfg, drains), d, DrainWeight(cfg, x));
  }

  lemma LateOnce(cfg: Config, d: Drain, ok: bool)
    requires d.status == Aborted && |d.oks| < |d.rows|
    ensures DrainWeight(cfg, d) == DrainWeight(cfg, d.(oks := d.oks + [ok])) + PublishWeight(cfg)
  {
  }

  /** A publish adds less to the items than its weight. */
  lemma PublishedItems(cfg: Config, s: State, r: nat)
    requires r < |s.rows|
    ensures Sum(ItemWeights(cfg, s.items + FanOut(cfg, s.rows[r].key, Some(r), true, [])))
          < Sum(ItemWeights(cfg, s.items)) + PublishWeight(cfg)
  {
    ItemsConcat(cfg, s.items, FanOut(cfg, s.rows[r].key, Some(r), true, []));
    FanOutWeight(cfg, s.rows[r].key, Some(r), true, []);
  }

  lemma PublishLowers(cfg: Config, s: State, d: nat)
    requires Kept(cfg, s) && Enabled(cfg, s, Publish(d, true, true)) && ActiveDrain(s, d)
    ensures Measure(cfg, Do(cfg, s, Publish(d, true, true))) < Measure(cfg, s)
  {
    var t := Do(cfg, s, Publish(d, true, true));
    var drain := s.drains[d];
    var r0 := drain.rows[|drain.oks|];
    assert s.rows[r0].lock == Some(d) && !s.rows[r0].published;
    forall r | 0 <= r < |s.rows|
      ensures RowWeight(cfg, t, r) == if r == r0 then 0 else RowWeight(cfg, s, r)
    {
      OtherRowsStand(drain, true, r);
    }
    OtherRowsStand(drain, true, r0);
    SumBelow(RowWeights(cfg, t), RowWeights(cfg, s), r0);
    assert DrainWeights(cfg, t.drains) == DrainWeights(cfg, s.drains);
    PublishedItems(cfg, s, r0);
  }

  lemma CommitDrainLowers(cfg: Config, s: State, d: nat)
    requires Kept(cfg, s) && Enabled(cfg, s, CommitDrain(d))
    ensures Measure(cfg, Do(cfg, s, CommitDrain(d))) < Measure(cfg, s)
  {
    var t := Do(cfg, s, CommitDrain(d));
    var drain := s.drains[d];
    forall r | 0 <= r < |s.rows|
      ensures RowWeight(cfg, t, r) <= RowWeight(cfg, s, r)
    {
      if Selected(drain, r) {
        var k :| 0 <= k < |drain.rows| && drain.rows[k] == r;
        assert s.rows[r].lock == Some(d) && Tried(drain, r);
      } else if s.rows[r].lock.Some? {
        assert Selected(s.drains[s.rows[r].lock.value], r);
        assert s.rows[r].lock.value != d;
      }
    }
    SumAtMost(RowWeights(cfg, t), RowWeights(cfg, s));
    assert DrainWeights(cfg, t.drains) == DrainWeights(cfg, s.drains)[d := 0];
    SumUpdate(DrainWeights(cfg, s.drains), d, 0);
  }

  lemma QuietLowers(cfg: Config, s: State, step: Step)
    requires Kept(cfg, s) && Enabled(cfg, s, step) && Quiet(step)
    ensures Measure(cfg, Do(cfg, s, step)) < Measure(cfg, s)
  {
    match step
    case Select(rs) => SelectLowers(cfg, s, rs);
    case Publish(d, _, _) =>
      if s.drains[d].status == Active { PublishLowers(cfg, s, d); } else { LatePublishLowers(cfg, s, d); }
    case CommitDrain(d) => CommitDrainLowers(cfg, s, d);
    case Expire(i) => ExpireLowers(cfg, s, i);
    case ParkCopy(i, _) => ParkLowers(cfg, s, i);
    case _ => CopyStepLowers(cfg, s, step);
  }

  lemma StepKeeps(cfg: Config, s: State, step: Step)
    requires Kept(cfg, s) && Enabled(cfg, s, step)
    ensures Kept(cfg, Do(cfg, s, step))
  {
    KeepItemsOk(cfg, s, step);
    KeepExactlyOnce(cfg, s, step);
    KeepNothingLost(cfg, s, step);
    KeepOriginates(cfg, s, step);
    KeepAccounted(cfg, s, step);
  }

  /** A run of quiet steps is no longer than the measure of its first state. */
  lemma {:induction false} QuietRunsEnd(cfg: Config, s: State, steps: seq<Step>)
    requires Kept(cfg, s) && IsRun(cfg, s, steps) && AllQuiet(steps)
    ensures |steps| + Measure(cfg, After(cfg, s, steps)) <= Measure(cfg, s)
    ensures Kept(cfg, After(cfg, s, steps))
    decreases |steps|
  {
    if steps != [] {
      StepKeeps(cfg, s, steps[0]);
      QuietLowers(cfg, s, steps[0]);
      QuietRunsEnd(cfg, Do(cfg, s, steps[0]), steps[1..]);
    }
  }

  // ---- A state without a quiet step is at rest ----

  /** A publish by a relay whose transaction is gone: it may come, or the relay has died. */
  ghost predicate Late(s: State, step: Step) {
    step.Publish? && !ActiveDrain(s, step.drain)
  }

  /** No quiet step is left that must still come. */
  ghost predicate NoQuietStep(cfg: Config, s: State)
  {
    forall step :: Quiet(step) && !Late(s, step) ==> !Enabled(cfg, s, step)
  }

  /** All rows marked, no relay transaction open, main and retry queues empty, no
    * delivery in hand. */
  ghost predicate AtRest(s: State) {
    && (forall r :: 0 <= r < |s.rows| ==> s.rows[r].published)
    && (forall d :: 0 <= d < |s.drains| ==> s.drains[d].status != Active)
    && (forall i :: 0 <= i < |s.items| ==> s.items[i].stage == Stage.Parked || s.items[i].stage == Gone)
  }

  /** Some quiet step moves a copy that is not at rest; a blocked claim waits for a
    * transaction that can move. */
  lemma CopyCanMove(cfg: Config, s: State, i: nat) returns (step: Step)
    requires Kept(cfg, s) && i < |s.items|
    requires s.items[i].stage != Stage.Parked && s.items[i].stage != Gone
    ensures Quiet(step) && !Late(s, step) && Enabled(cfg, s, step)
  {
    var it := s.items[i];
    assert ItemOk(cfg, it);
    match it.stage
    case Ready => step := Deliver(i);
    case Waiting => step := Expire(i);
    case Busy(_, phase) =>
      match phase
      case Received =>
        if !it.json {
          step := DropBadJson(i);
        } else if it.id.Some? && ClaimBlocked(s, i) {
          var j: nat :| j < |s.items| && j != i && Holds(s.items[j]) && Pair(s.items[j]) == Pair(s.items[i]);
          step := if s.items[j].stage.phase == Claimed then HandlerOk(j) else Commit(j, true);
        } else {
          step := Claim(i);
        }
      case Claimed => step := HandlerOk(i);
      case Ran => step := Commit(i, true);
      case Failed => step := if MustRetry(cfg, it) then Nack(i) else ParkCopy(i, true);
      case AckDue => step := Ack(i);
      case Stuck => step := Redeliver(i);
  }

  lemma DrainCanMove(cfg: Config, s: State, d: nat) returns (step: Step)
    requires Kept(cfg, s) && ActiveDrain(s, d)
    ensures Quiet(step) && !Late(s, step) && Enabled(cfg, s, step)
  {
    assert DrainOk(s.drains[d]);
    step := if |s.drains[d].oks| == |s.drains[d].rows| then CommitDrain(d) else Publish(d, true, true);
  }

  lemma CanMove(cfg: Config, s: State) returns (step: Step)
    requires Kept(cfg, s) && !AtRest(s)
    ensures Quiet(step) && !Late(s, step) && Enabled(cfg, s, step)
  {
    if i: nat :| i < |s.items| && s.items[i].stage != Stage.Parked && s.items[i].stage != Gone {
      step := CopyCanMove(cfg, s, i);
    } else if d: nat :| d < |s.drains| && s.drains[d].status == Active {
      step := DrainCanMove(cfg, s, d);
    } else {
      var r: nat :| r < |s.rows| && !s.rows[r].published;
      assert s.rows[r].lock.None?;
      step := Select([r]);
    }
  }

  /** An Ok publish of the row was lost, and so far none was enqueued. */
  ghost predicate PublishLost(row: Row) {
    row.okPublishes > 0 && !row.enqueued
  }

  /** Quiet steps lose nothing: what is lost after them had been lost before. */
  lemma {:induction false} QuietLosesNothing(cfg: Config, s: State, steps: seq<Step>)
    requires IsRun(cfg, s, steps) && AllQuiet(steps)
    ensures var t := After(cfg, s, steps);
            && t.parkLost == s.parkLost && |t.rows| == |s.rows|
            && forall r :: 0 <= r < |s.rows| ==>
                 t.rows[r].key == s.rows[r].key && (PublishLost(t.rows[r]) ==> PublishLost(s.rows[r]))
    decreases |steps|
  {
    if steps != [] {
      assert AllQuiet(steps[1..]);
      QuietLosesNothing(cfg, Do(cfg, s, steps[0]), steps[1..]);
    }
  }

  /** At rest, each event is settled for each queue bound to its key. */
  lemma RestSettles(cfg: Config, t: State, r: nat, q: nat)
    requires Kept(cfg, t) && AtRest(t) && r < |t.rows| && q in Bound(cfg, t.rows[r].key)
    ensures PublishLost(t.rows[r]) || Settled(t, r, q)
  {
    assert RowAccounted(t, r);
    if t.rows[r].enqueued {
      assert Covered(t, r, q);
      if Carried(t, r, q) {
        var i :| 0 <= i < |t.items| && Carries(t.items[i], r, q);
        Parks(t, i, r, q);
      }
    }
  }

  lemma RunKeeps(cfg: Config, steps: seq<Step>)
    requires IsRun(cfg, EMPTY, steps)
    ensures Kept(cfg, After(cfg, EMPTY, steps))
  {
    RunKeepsInv(cfg, EMPTY, steps);
    RunKeepsAccounts(cfg, EMPTY, steps);
  }

  lemma NothingDue(cfg: Config, s: State, step: Step)
    requires AtRest(s) && Quiet(step) && !Late(s, step)
    ensures !Enabled(cfg, s, step)
  {
    match step
    case Select(rows) => if rows != [] { assert rows[0] in rows; }
    case _ =>
  }

  /** At rest no quiet step is left that must still come: rest is exactly that. */
  lemma AtRestIffNoQuietStep(cfg: Config, s: State)
    requires Kept(cfg, s)
    ensures AtRest(s) <==> NoQuietStep(cfg, s)
  {
    if !AtRest(s) {
      var step := CanMove(cfg, s);
    } else {
      forall step | Quiet(step) && !Late(s, step) ensures !Enabled(cfg, s, step) {
        NothingDue(cfg, s, step);
      }
    }
  }

  /** Quiescence: after any run `past`, with all its crashes and failures, quiet steps are at
    * most as many as the measure; and none is left that must come if and only if the plane is at rest. */
  lemma QuietRunsRest(cfg: Config, past: seq<Step>, steps: seq<Step>)
    requires IsRun(cfg, EMPTY, past)
    requires IsRun(cfg, After(cfg, EMPTY, past), steps) && AllQuiet(steps)
    ensures |steps| <= Measure(cfg, After(cfg, EMPTY, past))
    ensures var t := After(cfg, After(cfg, EMPTY, past), steps); NoQuietStep(cfg, t) <==> AtRest(t)
  {
    RunKeeps(cfg, past);
    var s := After(cfg, EMPTY, past);
    QuietRunsEnd(cfg, s, steps);
    AtRestIffNoQuietStep(cfg, After(cfg, s, steps));
  }

  /** And at rest every event is, for every queue bound to its key, handled or parked, unless
    * `past` lost every publish of it so far or a park. */
  lemma Quiescent(cfg: Config, past: seq<Step>, steps: seq<Step>, r: nat, q: nat)
    requires IsRun(cfg, EMPTY, past)
    requires IsRun(cfg, After(cfg, EMPTY, past), steps) && AllQuiet(steps)
    requires r < |After(cfg, EMPTY, past).rows| && q in Bound(cfg, After(cfg, EMPTY, past).rows[r].key)
    requires NoQuietStep(cfg, After(cfg, After(cfg, EMPTY, past), steps))
    ensures var s, t := After(cfg, EMPTY, past), After(cfg, After(cfg, EMPTY, past), steps);
            (r, q) in t.inbox || ParkedFor(t, r, q) || PublishLost(s.rows[r]) || (r, q) in s.parkLost
  {
    RunKeeps(cfg, past);
    var s := After(cfg, EMPTY, past);
    QuietRunsEnd(cfg, s, steps);
    QuietRunsRest(cfg, past, steps);
    QuietLosesNothing(cfg, s, steps);
    RestSettles(cfg, After(cfg, s, steps), r, q);
  }

  /** Rest can always be reached. */
  lemma {:induction false} RestIsReachable(cfg: Config, s: State) returns (steps: seq<Step>)
    requires Kept(cfg, s)
    ensures IsRun(cfg, s, steps) && AllQuiet(steps)
    ensures AtRest(After(cfg, s, steps)) && NoQuietStep(cfg, After(cfg, s, steps))
    decreases Measure(cfg, s)
  {
    if AtRest(s) {
      steps := [];
      AtRestIffNoQuietStep(cfg, s);
    } else {
      var step := CanMove(cfg, s);
      StepKeeps(cfg, s, step);
      QuietLowers(cfg, s, step);
      var rest := RestIsReachable(cfg, Do(cfg, s, step));
      steps := [step] + rest;
      assert steps[1..] == rest;
    }
  }
}
