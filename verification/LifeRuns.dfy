/** The life of a copy whose handler always fails, step by step on the event plane. */
module LifeRuns {
  import opened Wrappers
  import opened Topology
  import opened DeathHeader
  import opened EventPlane
  import opened ConsumerProperties
  import opened Runs

  /** On a plane with one queue, a copy that waits there, its event not yet handled and not
    * in anybody's hands. */
  ghost predicate Alone(cfg: Config, s: State, i: nat) {
    && |cfg.bindings| == 1
    && i < |s.items| && s.items[i].queue == 0 && s.items[i].json && s.items[i].stage == Ready
    && (s.items[i].id.Some? ==>
          && Pair(s.items[i]) !in s.inbox
          && forall j :: 0 <= j < |s.items| && Holds(s.items[j]) ==> Pair(s.items[j]) != Pair(s.items[i]))
  }

  ghost function FailedAt(s: State, i: nat): State
    requires i < |s.items|
  {
    SetStage(s, i, Busy(true, Failed))
  }

  lemma Fails(cfg: Config, s: State, i: nat)
    requires Alone(cfg, s, i)
    ensures IsRun(cfg, s, [Deliver(i), Claim(i), HandlerErr(i)])
    ensures After(cfg, s, [Deliver(i), Claim(i), HandlerErr(i)]) == FailedAt(s, i)
  {
    var s1, s2 := SetStage(s, i, Busy(true, Received)), SetStage(s, i, Busy(true, Claimed));
    assert Do(cfg, s, Deliver(i)) == s1;
    if s.items[i].id.Some? {
      forall j: nat | j < |s1.items| && j != i && Holds(s1.items[j]) ensures Pair(s1.items[j]) != Pair(s1.items[i]) {
        assert s1.items[j] == s.items[j];
      }
    }
    assert Do(cfg, s1, Claim(i)) == s2;
    assert Do(cfg, s2, HandlerErr(i)) == FailedAt(s, i);
    ThreeSteps(cfg, s, Deliver(i), Claim(i), HandlerErr(i));
  }

  /** The copy's delivery is over, and a new copy of it, last in the list, has its place. */
  ghost predicate Replaced(s: State, t: State, i: nat, deaths: Deaths) {
    && i < |s.items| < |t.items|
    && (forall j :: 0 <= j < |s.items| && j != i ==> t.items[j] == s.items[j])
    && t.items[i].stage == Gone
    && (forall j :: |s.items| <= j < |t.items| - 1 ==> t.items[j].stage == Stage.Parked)
    && t.items[|t.items| - 1] == s.items[i].(deaths := deaths, stage := Ready)
    && t.inbox == s.inbox && t.effects == s.effects && t.parkLost == s.parkLost
  }

  lemma ReplacedIsAlone(cfg: Config, s: State, t: State, i: nat, deaths: Deaths)
    requires Alone(cfg, s, i) && Replaced(s, t, i, deaths)
    ensures Alone(cfg, t, |t.items| - 1)
  {
    var it := t.items[|t.items| - 1];
    if it.id.Some? {
      forall j | 0 <= j < |t.items| && Holds(t.items[j]) ensures Pair(t.items[j]) != Pair(it) {
        assert j < |s.items| && j != i && t.items[j] == s.items[j];
      }
    }
  }

  lemma OneQueueFanOut(cfg: Config, it: Item, deaths: Deaths)
    requires |cfg.bindings| == 1 && it.queue == 0
    ensures FanOut(cfg, cfg.bindings[0], it.id, it.json, deaths) == [it.(deaths := deaths, stage := Ready)]
  {
    SelfMatch(cfg.bindings[0]);
    var b := Bound(cfg, cfg.bindings[0]);
    assert 0 in b && |b| <= 1;
  }

  /** The steps that end one failed delivery. */
  ghost function Ending(i: nat, retry: bool, dropped: bool): seq<Step> {
    if retry then (if dropped then [DropConnection(i), Nack(i)] else [Nack(i), Expire(i)])
    else if dropped then [ParkCopy(i, true), DropConnection(i), Ack(i)]
    else [ParkCopy(i, true), Ack(i)]
  }

  lemma RetryCycles(cfg: Config, s: State, i: nat)
    requires Alone(cfg, s, i) && MustRetry(cfg, s.items[i])
    ensures IsRun(cfg, FailedAt(s, i), [Nack(i), Expire(i)])
    ensures Replaced(s, After(cfg, FailedAt(s, i), [Nack(i), Expire(i)]), i, Cycle(s.items[i].deaths))
  {
    var f, it := FailedAt(s, i), s.items[i];
    var n := Do(cfg, f, Nack(i));
    assert n.items[i] == it.(deaths := Bump(it.deaths, Main(0)), stage := Waiting);
    OneQueueFanOut(cfg, it, Cycle(it.deaths));
    TwoSteps(cfg, f, Nack(i), Expire(i));
  }

  lemma RetryDropped(cfg: Config, s: State, i: nat)
    requires Alone(cfg, s, i) && MustRetry(cfg, s.items[i])
    ensures IsRun(cfg, FailedAt(s, i), [DropConnection(i), Nack(i)])
    ensures Replaced(s, After(cfg, FailedAt(s, i), [DropConnection(i), Nack(i)]), i, s.items[i].deaths)
  {
    var f, it := FailedAt(s, i), s.items[i];
    var d := Do(cfg, f, DropConnection(i));
    assert d.items[i] == it.(stage := Busy(false, Failed));
    TwoSteps(cfg, f, DropConnection(i), Nack(i));
  }

  lemma ParkDropped(cfg: Config, s: State, i: nat)
    requires Alone(cfg, s, i) && !MustRetry(cfg, s.items[i])
    ensures IsRun(cfg, FailedAt(s, i), [ParkCopy(i, true), DropConnection(i), Ack(i)])
    ensures Replaced(s, After(cfg, FailedAt(s, i), [ParkCopy(i, true), DropConnection(i), Ack(i)]), i,
                     s.items[i].deaths)
  {
    var f, it := FailedAt(s, i), s.items[i];
    var p := Do(cfg, f, ParkCopy(i, true));
    assert p.items[i] == it.(stage := Busy(true, AckDue));
    var d := Do(cfg, p, DropConnection(i));
    assert d.items[i] == it.(stage := Busy(false, AckDue));
    ThreeSteps(cfg, f, ParkCopy(i, true), DropConnection(i), Ack(i));
  }

  ghost function CountSteps(steps: seq<Step>, p: Step -> bool): nat {
    if steps == [] then 0 else (if p(steps[0]) then 1 else 0) + CountSteps(steps[1..], p)
  }

  lemma {:induction false} CountConcat(a: seq<Step>, b: seq<Step>, p: Step -> bool)
    ensures CountSteps(a + b, p) == CountSteps(a, p) + CountSteps(b, p)
  {
    if a == [] {
      assert a + b == b;
    } else {
      assert (a + b)[1..] == a[1..] + b && (a + b)[0] == a[0];
      CountConcat(a[1..], b, p);
    }
  }

  predicate IsFailure(step: Step) { step.HandlerErr? }

  predicate IsPark(step: Step) { step.ParkCopy? }

  lemma CountTwo(a: Step, b: Step, p: Step -> bool)
    ensures CountSteps([a, b], p) == (if p(a) then 1 else 0) + (if p(b) then 1 else 0)
  {
    assert [a, b][1..] == [b] && [b][1..] == [];
    assert CountSteps([b], p) == if p(b) then 1 else 0;
  }

  lemma CountThree(a: Step, b: Step, c: Step, p: Step -> bool)
    ensures CountSteps([a, b, c], p) == (if p(a) then 1 else 0) + (if p(b) then 1 else 0) + (if p(c) then 1 else 0)
  {
    assert [a, b, c][1..] == [b, c];
    CountTwo(b, c, p);
  }

  lemma OneDelivery(i: nat, retry: bool, dropped: bool, p: Step -> bool)
    requires p == IsFailure || p == IsPark
    ensures CountSteps([Deliver(i), Claim(i), HandlerErr(i)] + Ending(i, retry, dropped), p)
         == if p(HandlerErr(i)) || (p(ParkCopy(i, true)) && !retry) then 1 else 0
  {
    CountConcat([Deliver(i), Claim(i), HandlerErr(i)], Ending(i, retry, dropped), p);
    CountThree(Deliver(i), Claim(i), HandlerErr(i), p);
    if !retry && dropped {
      CountThree(ParkCopy(i, true), DropConnection(i), Ack(i), p);
    } else {
      var last := Ending(i, retry, dropped);
      CountTwo(last[0], last[1], p);
      assert last == [last[0], last[1]];
    }
  }

  ghost function Delivery(i: nat, retry: bool, dropped: bool): seq<Step> {
    [Deliver(i), Claim(i), HandlerErr(i)] + Ending(i, retry, dropped)
  }

  lemma DeliveryIsRun(cfg: Config, s: State, i: nat, dropped: bool)
    requires Alone(cfg, s, i)
    ensures var it := s.items[i];
            var retry := MustRetry(cfg, it);
            && IsRun(cfg, s, Delivery(i, retry, dropped))
            && After(cfg, s, Delivery(i, retry, dropped)).effects == s.effects
            && (retry || dropped ==> Replaced(s, After(cfg, s, Delivery(i, retry, dropped)), i,
                                              if retry && !dropped then Cycle(it.deaths) else it.deaths))
  {
    Fails(cfg, s, i);
    var retry := MustRetry(cfg, s.items[i]);
    if retry {
      if dropped { RetryDropped(cfg, s, i); } else { RetryCycles(cfg, s, i); }
    } else {
      if dropped { ParkDropped(cfg, s, i); } else { TwoSteps(cfg, FailedAt(s, i), ParkCopy(i, true), Ack(i)); }
    }
    RunConcat(cfg, s, [Deliver(i), Claim(i), HandlerErr(i)], Ending(i, retry, dropped));
  }

  /** So many failed handler runs and so many parks. */
  ghost predicate Counts(steps: seq<Step>, runs: nat, parks: nat) {
    CountSteps(steps, IsFailure) == runs && CountSteps(steps, IsPark) == parks
  }

  lemma CountsConcat(a: seq<Step>, b: seq<Step>, ra: nat, pa: nat, rb: nat, pb: nat)
    requires Counts(a, ra, pa) && Counts(b, rb, pb)
    ensures Counts(a + b, ra + rb, pa + pb)
  {
    CountConcat(a, b, IsFailure);
    CountConcat(a, b, IsPark);
  }

  lemma DeliveryCounts(i: nat, retry: bool, dropped: bool)
    ensures Counts(Delivery(i, retry, dropped), 1, if retry then 0 else 1)
  {
    OneDelivery(i, retry, dropped, IsFailure);
    OneDelivery(i, retry, dropped, IsPark);
  }

  /** A life is its first delivery, and then, unless that ends it, the rest. */
  lemma LiveFirst(deaths: Deaths, maxRetries: nat, drops: seq<bool>)
    requires drops != []
    ensures var life := Live(deaths, maxRetries, drops);
            var retry := DecideRetry(DeathCount(deaths), maxRetries).RetryAgain?;
            var parks := if retry then 0 else 1;
            if !retry && !drops[0] then life.runs == 1 && life.parks == parks
            else
              var rest := Live(if retry && !drops[0] then Cycle(deaths) else deaths, maxRetries, drops[1..]);
              life.runs == 1 + rest.runs && life.parks == parks + rest.parks
  {
  }

  /** The life counted on its own is a run of the plane with as many failed handler runs and
    * as many parks. */
  lemma {:induction false} LifeIsRun(cfg: Config, s: State, i: nat, drops: seq<bool>) returns (steps: seq<Step>)
    requires Alone(cfg, s, i)
    ensures IsRun(cfg, s, steps) && After(cfg, s, steps).effects == s.effects
    ensures var life := Live(s.items[i].deaths, cfg.budgets[0], drops); Counts(steps, life.runs, life.parks)
    decreases |drops|
  {
    if drops == [] { return []; }
    var it, retry := s.items[i], MustRetry(cfg, s.items[i]);
    var first := Delivery(i, retry, drops[0]);
    DeliveryIsRun(cfg, s, i, drops[0]);
    var parks := if retry then 0 else 1;
    DeliveryCounts(i, retry, drops[0]);
    LiveFirst(it.deaths, cfg.budgets[0], drops);
    if !retry && !drops[0] { return first; }
    var t, deaths := After(cfg, s, first), if retry && !drops[0] then Cycle(it.deaths) else it.deaths;
    ReplacedIsAlone(cfg, s, t, i, deaths);
    var rest := LifeIsRun(cfg, t, |t.items| - 1, drops[1..]);
    var life := Live(deaths, cfg.budgets[0], drops[1..]);
    RunConcat(cfg, s, first, rest);
    CountsConcat(first, rest, 1, parks, life.runs, life.parks);
    steps := first + rest;
  }
}
