/** The two ways an event can be lost, each shown by a run, and exactly when a publish and a
  * park lose one. */
module Losses {
  import opened Wrappers
  import opened Topology
  import opened DeathHeader
  import opened EventPlane
  import opened Safety
  import opened Runs

  /** The row is marked, yet for the queue nothing is left: not handled, no copy. */
  ghost predicate LostFor(s: State, r: nat, q: nat) {
    r < |s.rows| && s.rows[r].published && (r, q) !in s.inbox && !Carried(s, r, q)
  }

  const ONE_QUEUE: Config := Queues(["q"], [["k"]], [0])

  /** One row staged, published and marked; the broker enqueues it or loses it. */
  ghost function RelayRun(delivered: bool): seq<Step> {
    [StageRow(["k"]), Select([0]), Publish(0, true, delivered), CommitDrain(0)]
  }

  ghost function Marked(delivered: bool): State {
    State([Row(["k"], true, 1, None, 1, delivered)], [Drain([0], [true], Committed)],
          if delivered then [Item(0, Some(0), true, [], Ready)] else [], {}, multiset{}, {})
  }

  /** The handler fails with no retry left, the park publish fails, the ack follows. */
  ghost function FailedParkRun(): seq<Step> {
    [Deliver(0), Claim(0), HandlerErr(0)] + [ParkCopy(0, false), Ack(0)]
  }

  ghost function Forgotten(): State {
    Marked(true).(items := [Item(0, Some(0), true, [], Gone)], parkLost := {(0, 0)})
  }

  lemma OneQueueFanOut()
    ensures FanOut(ONE_QUEUE, ["k"], Some(0), true, []) == [Item(0, Some(0), true, [], Ready)]
  {
    LiteralMatch(["k"], ["k"]);
    var b := Bound(ONE_QUEUE, ["k"]);
    assert 0 in b && |b| <= 1;
  }

  lemma RelayMarks(delivered: bool)
    ensures IsRun(ONE_QUEUE, EMPTY, RelayRun(delivered))
    ensures After(ONE_QUEUE, EMPTY, RelayRun(delivered)) == Marked(delivered)
  {
    OneQueueFanOut();
    var row := Row(["k"], false, 0, None, 0, false);
    var s1 := EMPTY.(rows := [row]);
    var s2 := s1.(rows := [row.(lock := Some(0))], drains := [Drain([0], [], Active)]);
    assert s1 == Do(ONE_QUEUE, EMPTY, StageRow(["k"]));
    assert s2 == Do(ONE_QUEUE, s1, Select([0]));
    PublishMarks(s2, row, delivered);
    ThreeSteps(ONE_QUEUE, s1, Select([0]), Publish(0, true, delivered), CommitDrain(0));
    FirstStep(ONE_QUEUE, EMPTY, StageRow(["k"]), [Select([0]), Publish(0, true, delivered), CommitDrain(0)]);
  }

  lemma PublishMarks(s: State, row: Row, delivered: bool)
    requires row == Row(["k"], false, 0, None, 0, false)
    requires s == EMPTY.(rows := [row.(lock := Some(0))], drains := [Drain([0], [], Active)])
    ensures Enabled(ONE_QUEUE, s, Publish(0, true, delivered))
    ensures Enabled(ONE_QUEUE, Do(ONE_QUEUE, s, Publish(0, true, delivered)), CommitDrain(0))
    ensures Do(ONE_QUEUE, Do(ONE_QUEUE, s, Publish(0, true, delivered)), CommitDrain(0)) == Marked(delivered)
  {
    OneQueueFanOut();
    var t := Do(ONE_QUEUE, s, Publish(0, true, delivered));
    assert t.rows == [row.(lock := Some(0), okPublishes := 1, enqueued := delivered)];
    assert [] + [true] == [true] && t.drains == [Drain([0], [true], Active)];
    assert t.drains[0].oks[0] && PublishedIn(t.drains[0], 0);
  }

  ghost function InPhase(phase: Phase): State {
    Marked(true).(items := [Item(0, Some(0), true, [], Busy(true, phase))])
  }

  lemma HandlerFails()
    ensures IsRun(ONE_QUEUE, Marked(true), [Deliver(0), Claim(0), HandlerErr(0)])
    ensures After(ONE_QUEUE, Marked(true), [Deliver(0), Claim(0), HandlerErr(0)]) == InPhase(Failed)
  {
    OneQueueFanOut();
    assert Do(ONE_QUEUE, Marked(true), Deliver(0)) == InPhase(Received);
    assert Do(ONE_QUEUE, InPhase(Received), Claim(0)) == InPhase(Claimed);
    assert Do(ONE_QUEUE, InPhase(Claimed), HandlerErr(0)) == InPhase(Failed);
    ThreeSteps(ONE_QUEUE, Marked(true), Deliver(0), Claim(0), HandlerErr(0));
  }

  lemma ParkFails()
    ensures IsRun(ONE_QUEUE, InPhase(Failed), [ParkCopy(0, false), Ack(0)])
    ensures After(ONE_QUEUE, InPhase(Failed), [ParkCopy(0, false), Ack(0)]) == Forgotten()
  {
    OneQueueFanOut();
    var acked := InPhase(AckDue).(parkLost := {(0, 0)});
    assert Do(ONE_QUEUE, InPhase(Failed), ParkCopy(0, false)) == acked;
    assert Do(ONE_QUEUE, acked, Ack(0)) == Forgotten();
    TwoSteps(ONE_QUEUE, InPhase(Failed), ParkCopy(0, false), Ack(0));
  }

  /** The consumer acks after a failed park publish, so the event is gone. */
  lemma FailedParkLoses()
    ensures IsRun(ONE_QUEUE, EMPTY, RelayRun(true) + FailedParkRun())
    ensures LostFor(After(ONE_QUEUE, EMPTY, RelayRun(true) + FailedParkRun()), 0, 0)
  {
    RelayMarks(true);
    HandlerFails();
    ParkFails();
    RunConcat(ONE_QUEUE, Marked(true), [Deliver(0), Claim(0), HandlerErr(0)], [ParkCopy(0, false), Ack(0)]);
    RunConcat(ONE_QUEUE, EMPTY, RelayRun(true), FailedParkRun());
  }

  /** Publishing never asks for broker confirms, so Ok does not mean enqueued. */
  lemma UnconfirmedPublishLoses()
    ensures IsRun(ONE_QUEUE, EMPTY, RelayRun(false))
    ensures LostFor(After(ONE_QUEUE, EMPTY, RelayRun(false)), 0, 0)
  {
    RelayMarks(false);
  }

  /** The last row of a relay transaction, published with the answer Ok and then marked by the
    * commit, for a queue that has nothing of it yet: the event is kept if and only if the
    * broker enqueued the publish. */
  lemma PublishKeepsIffDelivered(cfg: Config, s: State, d: nat, q: nat, delivered: bool)
    requires ActiveDrain(s, d) && |s.drains[d].oks| + 1 == |s.drains[d].rows|
    requires Enabled(cfg, s, Publish(d, true, delivered))
    requires var r := s.drains[d].rows[|s.drains[d].oks|];
             q in Bound(cfg, s.rows[r].key) && (r, q) !in s.inbox && !Carried(s, r, q)
    ensures var r := s.drains[d].rows[|s.drains[d].oks|];
            var t := Do(cfg, s, Publish(d, true, delivered));
            && Enabled(cfg, t, CommitDrain(d))
            && var u := Do(cfg, t, CommitDrain(d));
               && u.rows[r].published
               && ((r, q) in u.inbox || Carried(u, r, q) <==> delivered)
  {
    var n := |s.drains[d].oks|;
    var r := s.drains[d].rows[n];
    var t := Do(cfg, s, Publish(d, true, delivered));
    assert t.drains[d].rows[n] == r && t.drains[d].oks[n];
    assert PublishedIn(t.drains[d], r) && Selected(t.drains[d], r);
    if delivered { FanOutCarries(cfg, s.items, s.rows[r].key, r, [], q, Do(cfg, t, CommitDrain(d))); }
  }

  /** At the end of the budget, with no other copy for the queue and the event not yet
    * handled: parking and acking keeps the event if and only if the park was delivered. */
  lemma ParkKeepsIffDelivered(cfg: Config, s: State, i: nat, delivered: bool)
    requires Enabled(cfg, s, ParkCopy(i, delivered)) && s.items[i].id.Some?
    requires Pair(s.items[i]) !in s.inbox
    requires forall j :: 0 <= j < |s.items| && j != i ==>
               !Carries(s.items[j], s.items[i].id.value, s.items[i].queue)
    ensures var t := Do(cfg, s, ParkCopy(i, delivered));
            && Enabled(cfg, t, Ack(i))
            && var u := Do(cfg, t, Ack(i));
               (Pair(s.items[i]) in u.inbox || Carried(u, s.items[i].id.value, s.items[i].queue)) <==> delivered
  {
    var t := Do(cfg, s, ParkCopy(i, delivered));
    var u := Do(cfg, t, Ack(i));
    var (e, q) := Pair(s.items[i]);
    if delivered {
      CarriedBy(u, |s.items|, e, q);
    }
  }
}
