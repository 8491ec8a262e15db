/** Where a retried message goes: to the queues its publish reached for every key, if and only
  * if the binding of the retrying queue has no wildcard. */
module RetryReach {
  import opened Wrappers
  import opened Topology
  import opened DeathHeader
  import opened EventPlane
  import opened Runs

  /** A retry out of a queue with this binding reaches what the publish reached, whatever other
    * queues there are. */
  ghost predicate RetryKeepsReach(binding: Key) {
    forall cfg: Config, q: nat, key: Key ::
      (q < |cfg.bindings| && cfg.bindings[q] == binding && Match(binding, key)) ==>
      Bound(cfg, cfg.bindings[q]) == Bound(cfg, key)
  }

  /** A queue with the binding, and one bound to just the other key it matches. */
  ghost function TwoQueues(binding: Key): Config {
    Queues(["p", "q"], [binding, OtherKey(binding)], [1, 1])
  }

  /** The publish reaches both, the retry only the first. */
  lemma TwoQueuesReach(binding: Key)
    requires !Literal(binding)
    ensures Bound(TwoQueues(binding), OtherKey(binding)) == [0, 1] && Bound(TwoQueues(binding), binding) == [0]
  {
    var cfg, key := TwoQueues(binding), OtherKey(binding);
    assert "p"[0] != "q"[0];
    OtherKeyMatches(binding);
    SelfMatch(binding);
    LiteralMatch(key, key);
    LiteralMatch(key, binding);
    assert BoundFrom(cfg, key, 2) == [] && BoundFrom(cfg, binding, 2) == [];
    assert BoundFrom(cfg, key, 1) == [1] && BoundFrom(cfg, binding, 1) == [];
  }

  lemma RetryKeepsReachIff(binding: Key)
    ensures RetryKeepsReach(binding) <==> Literal(binding)
  {
    if Literal(binding) {
      forall cfg: Config, q: nat, key: Key | q < |cfg.bindings| && cfg.bindings[q] == binding
                                             && Match(binding, key)
        ensures Bound(cfg, cfg.bindings[q]) == Bound(cfg, key)
      {
        LiteralMatch(binding, key);
      }
    } else {
      TwoQueuesReach(binding);
      OtherKeyMatches(binding);
      var cfg := TwoQueues(binding);
      assert cfg.bindings[0] == binding && Bound(cfg, cfg.bindings[0]) != Bound(cfg, OtherKey(binding));
    }
  }

  // ---- A run ----

  ghost function Copy(q: nat, deaths: Deaths, stage: Stage): Item {
    Item(q, Some(0), true, deaths, stage)
  }

  /** One event, published to both queues; the copy of the first as given. */
  ghost function Both(binding: Key, first: Item): State {
    State([Row(OtherKey(binding), true, 1, None, 1, true)], [Drain([0], [true], Committed)],
          [first, Copy(1, [], Ready)], {}, multiset{}, {})
  }

  ghost function PublishRun(binding: Key): seq<Step> {
    [StageRow(OtherKey(binding)), Select([0]), Publish(0, true, true), CommitDrain(0)]
  }

  lemma PublishReachesBoth(binding: Key)
    requires !Literal(binding)
    ensures IsRun(TwoQueues(binding), EMPTY, PublishRun(binding))
    ensures After(TwoQueues(binding), EMPTY, PublishRun(binding)) == Both(binding, Copy(0, [], Ready))
  {
    TwoQueuesReach(binding);
    var cfg, key := TwoQueues(binding), OtherKey(binding);
    var row := Row(key, false, 0, None, 0, false);
    var s1 := EMPTY.(rows := [row]);
    var s2 := s1.(rows := [row.(lock := Some(0))], drains := [Drain([0], [], Active)]);
    assert s1 == Do(cfg, EMPTY, StageRow(key));
    assert s2 == Do(cfg, s1, Select([0]));
    PublishFansOut(binding, s2, row);
    ThreeSteps(cfg, s1, Select([0]), Publish(0, true, true), CommitDrain(0));
    FirstStep(cfg, EMPTY, StageRow(key), [Select([0]), Publish(0, true, true), CommitDrain(0)]);
  }

  lemma PublishFansOut(binding: Key, s: State, row: Row)
    requires !Literal(binding) && row == Row(OtherKey(binding), false, 0, None, 0, false)
    requires s == EMPTY.(rows := [row.(lock := Some(0))], drains := [Drain([0], [], Active)])
    ensures Enabled(TwoQueues(binding), s, Publish(0, true, true))
    ensures Enabled(TwoQueues(binding), Do(TwoQueues(binding), s, Publish(0, true, true)), CommitDrain(0))
    ensures Do(TwoQueues(binding), Do(TwoQueues(binding), s, Publish(0, true, true)), CommitDrain(0))
         == Both(binding, Copy(0, [], Ready))
  {
    TwoQueuesReach(binding);
    var cfg := TwoQueues(binding);
    assert FanOut(cfg, row.key, Some(0), true, []) == [Copy(0, [], Ready), Copy(1, [], Ready)];
    var t := Do(cfg, s, Publish(0, true, true));
    assert [] + [true] == [true] && t.drains == [Drain([0], [true], Active)];
    assert t.drains[0].oks[0] && PublishedIn(t.drains[0], 0);
    assert t.rows == [row.(lock := Some(0), okPublishes := 1, enqueued := true)];
  }

  ghost function RetryRun(): seq<Step> {
    [Deliver(0), Claim(0), HandlerErr(0)] + [Nack(0), Expire(0)]
  }

  lemma FirstFails(binding: Key)
    ensures IsRun(TwoQueues(binding), Both(binding, Copy(0, [], Ready)), [Deliver(0), Claim(0), HandlerErr(0)])
    ensures After(TwoQueues(binding), Both(binding, Copy(0, [], Ready)), [Deliver(0), Claim(0), HandlerErr(0)])
         == Both(binding, Copy(0, [], Busy(true, Failed)))
  {
    var cfg, s := TwoQueues(binding), Both(binding, Copy(0, [], Ready));
    var s1, s2 := Both(binding, Copy(0, [], Busy(true, Received))), Both(binding, Copy(0, [], Busy(true, Claimed)));
    assert Do(cfg, s, Deliver(0)) == s1;
    assert Do(cfg, s1, Claim(0)) == s2;
    assert Do(cfg, s2, HandlerErr(0)) == Both(binding, Copy(0, [], Busy(true, Failed)));
    ThreeSteps(cfg, s, Deliver(0), Claim(0), HandlerErr(0));
  }

  ghost function Retried(binding: Key): State {
    var deaths := Bump(Bump([], Main(0)), Retry(0));
    var first := Copy(0, Bump([], Main(0)), Gone);
    Both(binding, first).(items := [first, Copy(1, [], Ready), Copy(0, deaths, Ready)])
  }

  lemma FirstRetries(binding: Key)
    requires !Literal(binding)
    ensures IsRun(TwoQueues(binding), Both(binding, Copy(0, [], Busy(true, Failed))), [Nack(0), Expire(0)])
    ensures After(TwoQueues(binding), Both(binding, Copy(0, [], Busy(true, Failed))), [Nack(0), Expire(0)])
         == Retried(binding)
  {
    TwoQueuesReach(binding);
    var cfg, s := TwoQueues(binding), Both(binding, Copy(0, [], Busy(true, Failed)));
    var died := Bump([], Main(0));
    var waiting := Both(binding, Copy(0, died, Waiting));
    assert Do(cfg, s, Nack(0)) == waiting;
    assert FanOut(cfg, binding, Some(0), true, Bump(died, Retry(0))) == [Copy(0, Bump(died, Retry(0)), Ready)];
    assert Do(cfg, waiting, Expire(0)) == Retried(binding);
    TwoSteps(cfg, s, Nack(0), Expire(0));
  }

  /** For every binding with a wildcard, a run in which the publish puts a copy on two queues
    * and the retry of the first copy comes back to one of them only. */
  lemma RetryMissesQueue(binding: Key)
    requires !Literal(binding)
    ensures IsRun(TwoQueues(binding), EMPTY, PublishRun(binding))
    ensures After(TwoQueues(binding), EMPTY, PublishRun(binding)).items == [Copy(0, [], Ready), Copy(1, [], Ready)]
    ensures IsRun(TwoQueues(binding), EMPTY, PublishRun(binding) + RetryRun())
    ensures After(TwoQueues(binding), EMPTY, PublishRun(binding) + RetryRun()) == Retried(binding)
  {
    PublishReachesBoth(binding);
    FirstFails(binding);
    FirstRetries(binding);
    var cfg, s := TwoQueues(binding), Both(binding, Copy(0, [], Ready));
    RunConcat(cfg, s, [Deliver(0), Claim(0), HandlerErr(0)], [Nack(0), Expire(0)]);
    RunConcat(cfg, EMPTY, PublishRun(binding), RetryRun());
  }
}
