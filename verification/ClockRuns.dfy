/** What every run of concurrent clock calls keeps: no update is lost or made twice. */
module ClockRuns {
  import opened Wrappers
  import opened Clock

  // ---- The log, read on its own ----

  /** Frozen before change i: a freeze came earlier, and since it only advances. */
  ghost predicate FrozenBefore(log: seq<Landing>, i: nat)
    requires i <= |log|
  {
    exists p :: 0 <= p < i && log[p].update.Pin? && OnlyShifts(log, p + 1, i)
  }

  ghost predicate OnlyShifts(log: seq<Landing>, start: nat, end: nat)
    requires start <= end <= |log|
  {
    forall q :: start <= q < end ==> log[q].update.Shift?
  }

  /** The sum of the deltas that landed between two changes. */
  ghost function Deltas(log: seq<Landing>, start: nat, end: nat): int
    requires start <= end <= |log|
    decreases end
  {
    if start == end then 0
    else Deltas(log, start, end - 1) + if log[end - 1].update.Shift? then log[end - 1].update.delta else 0
  }

  /** The sum of the deltas that landed while the clock was not frozen, since the last reset. */
  ghost function WallDeltas(log: seq<Landing>, end: nat): int
    requires end <= |log|
  {
    if end == 0 then 0
    else match log[end - 1].update
      case Restore => 0
      case Shift(delta) => WallDeltas(log, end - 1) + if FrozenBefore(log, end - 1) then 0 else delta
      case Pin(_) => WallDeltas(log, end - 1)
      case Thaw => WallDeltas(log, end - 1)
  }

  /** How many changes are a call's. */
  ghost function Count(log: seq<Landing>, c: nat): nat {
    if log == [] then 0 else Count(log[..|log| - 1], c) + if log[|log| - 1].call == Some(c) then 1 else 0
  }

  // ---- One change ----

  /** The log read on its own against the state. */
  ghost predicate Agrees(log: seq<Landing>, inner: Inner) {
    && (inner.mode == Frozen <==> inner.frozenAt.Some?)
    && (inner.mode == Frozen <==> FrozenBefore(log, |log|))
    && (forall p :: 0 <= p < |log| && log[p].update.Pin? && OnlyShifts(log, p + 1, |log|) ==>
          inner.frozenAt == Some(log[p].update.at + Deltas(log, p + 1, |log|)))
    && inner.offset == WallDeltas(log, |log|)
  }

  lemma {:induction false} DeltasPrefix(log: seq<Landing>, more: seq<Landing>, start: nat, end: nat)
    requires start <= end <= |log|
    ensures Deltas(log + more, start, end) == Deltas(log, start, end)
    decreases end
  {
    if start < end { DeltasPrefix(log, more, start, end - 1); }
  }

  lemma FrozenPrefix(log: seq<Landing>, more: seq<Landing>, i: nat)
    requires i <= |log|
    ensures FrozenBefore(log + more, i) <==> FrozenBefore(log, i)
  {
    forall p, q | 0 <= p <= q <= i ensures OnlyShifts(log + more, p, q) <==> OnlyShifts(log, p, q) {
      assert forall k :: 0 <= k < i ==> (log + more)[k] == log[k];
    }
    if FrozenBefore(log, i) {
      var p :| 0 <= p < i && log[p].update.Pin? && OnlyShifts(log, p + 1, i);
      assert (log + more)[p].update.Pin? && OnlyShifts(log + more, p + 1, i);
    }
    if FrozenBefore(log + more, i) {
      var p :| 0 <= p < i && (log + more)[p].update.Pin? && OnlyShifts(log + more, p + 1, i);
      assert log[p].update.Pin? && OnlyShifts(log, p + 1, i);
    }
  }

  lemma {:induction false} WallDeltasPrefix(log: seq<Landing>, more: seq<Landing>, end: nat)
    requires end <= |log|
    ensures WallDeltas(log + more, end) == WallDeltas(log, end)
  {
    if end > 0 {
      WallDeltasPrefix(log, more, end - 1);
      FrozenPrefix(log, more, end - 1);
    }
  }

  /** Frozen after one more change: if it is a freeze, or an advance of a frozen clock. */
  lemma FrozenSnoc(log: seq<Landing>, l: Landing)
    ensures FrozenBefore(log + [l], |log| + 1)
       <==> (l.update.Pin? || (l.update.Shift? && FrozenBefore(log, |log|)))
  {
    var n, all := |log|, log + [l];
    assert all[n] == l;
    if l.update.Pin? { assert OnlyShifts(all, n + 1, n + 1); }
    if l.update.Shift? && FrozenBefore(log, n) {
      var p :| 0 <= p < n && log[p].update.Pin? && OnlyShifts(log, p + 1, n);
      assert all[p].update.Pin? && OnlyShifts(all, p + 1, n + 1);
    }
    if FrozenBefore(all, n + 1) && !l.update.Pin? {
      var p :| 0 <= p < n + 1 && all[p].update.Pin? && OnlyShifts(all, p + 1, n + 1);
      assert p < n && log[p].update.Pin? && OnlyShifts(log, p + 1, n) by {
        assert forall k :: 0 <= k < n ==> all[k] == log[k];
      }
    }
  }

  lemma OneMoreChange(log: seq<Landing>, inner: Inner, l: Landing, wall: int)
    requires Agrees(log, inner)
    ensures Agrees(log + [l], Apply(l.update, inner, wall))
  {
    var n, all, next := |log|, log + [l], Apply(l.update, inner, wall);
    assert all[n] == l;
    FrozenSnoc(log, l);
    FrozenPrefix(log, [l], n);
    WallDeltasPrefix(log, [l], n);
    forall p | 0 <= p < n + 1 && all[p].update.Pin? && OnlyShifts(all, p + 1, n + 1)
      ensures next.frozenAt == Some(all[p].update.at + Deltas(all, p + 1, n + 1))
    {
      if p < n {
        assert forall k :: 0 <= k < n ==> all[k] == log[k];
        assert OnlyShifts(log, p + 1, n) && l.update.Shift?;
        assert FrozenBefore(log, n);
        DeltasPrefix(log, [l], p + 1, n);
      }
    }
  }

  // ---- Every run ----

  /** The update a call may make. */
  ghost predicate Makes(call: Call, u: Update) {
    match call.op
    case Freeze(at) => u.Pin? && (at.Some? ==> u.at == at.value)
    case Unfreeze => u == Thaw
    case Advance(delta) => delta >= 0 && u == Shift(delta)
  }

  ghost predicate CallOk(s: State, c: nat)
    requires c in s.calls
  {
    var call, version := s.calls[c], |s.log|;
    && call.since <= call.peekedAt <= version
    && (call.phase.Ready? ==> Makes(call, call.phase.update) && call.retries == 0)
    && (call.phase.Loaded? ==>
          && Makes(call, call.phase.update)
          && call.since + call.retries <= call.phase.version <= version
          && (call.phase.version == version ==>
                exists wall :: call.phase.next == Apply(call.phase.update, s.inner, wall)))
    && (call.phase.Begun? || call.phase.Peeked? ==> call.retries == 0 && call.op == Freeze(None))
    && call.since + call.retries <= version
    && (call.phase.Rejected? <==> call.op.Advance? && call.op.delta < 0)
    && Count(s.log, c) == (if call.phase.Landed? || call.phase.Returned? then 1 else 0)
  }

  ghost predicate LogOk(s: State) {
    forall i :: 0 <= i < |s.log| && s.log[i].call.Some? ==>
      var c := s.log[i].call.value;
      c in s.calls && Makes(s.calls[c], s.log[i].update) && s.calls[c].since + s.calls[c].retries <= i
  }

  ghost predicate Inv(s: State) {
    && Agrees(s.log, s.inner)
    && LogOk(s)
    && (forall c :: c in s.calls ==> CallOk(s, c))
    && (forall c :: c !in s.calls ==> Count(s.log, c) == 0)
  }

  lemma CountSnoc(log: seq<Landing>, l: Landing, c: nat)
    ensures Count(log + [l], c) == Count(log, c) + if l.call == Some(c) then 1 else 0
  {
    assert (log + [l])[..|log|] == log;
  }

  lemma KeepAgrees(s: State, step: Step)
    requires Inv(s) && Enabled(s, step)
    ensures Agrees(Do(s, step).log, Do(s, step).inner)
  {
    match step
    case Swap(c) =>
      var call := s.calls[c];
      assert CallOk(s, c);
      if call.phase.version == |s.log| {
        var wall :| call.phase.next == Apply(call.phase.update, s.inner, wall);
        OneMoreChange(s.log, s.inner, Landing(Some(c), call.phase.update), wall);
      }
    case Reset => OneMoreChange(s.log, s.inner, Landing(None, Restore), 0);
    case Begin(_, _) =>
    case Peek(_) =>
    case ReadWall(_) =>
    case Load(_) =>
    case Return(_) =>
    case Tick(_) =>
  }

  lemma KeepSwapped(s: State, c: nat)
    requires Inv(s) && Enabled(s, Swap(c))
    ensures CallOk(Do(s, Swap(c)), c)
  {
    assert CallOk(s, c);
    CountSnoc(s.log, Landing(Some(c), s.calls[c].phase.update), c);
  }

  /** Changes a call did not make leave it as it was. */
  lemma KeepBystander(s: State, step: Step, c: nat)
    requires Inv(s) && Enabled(s, step) && c in s.calls
    requires step.Tick? || step.Reset? || step.call != c
    ensures CallOk(Do(s, step), c)
  {
    var t := Do(s, step);
    assert CallOk(s, c);
    if step.Reset? { CountSnoc(s.log, Landing(None, Restore), c); }
    if step.Swap? { CountSnoc(s.log, Landing(Some(step.call), s.calls[step.call].phase.update), c); }
    SameCall(s, t, c);
  }

  lemma SameCall(s: State, t: State, c: nat)
    requires c in s.calls && c in t.calls && CallOk(s, c) && t.calls[c] == s.calls[c]
    requires |t.log| >= |s.log| && (|t.log| == |s.log| ==> t.inner == s.inner) && Count(t.log, c) == Count(s.log, c)
    ensures CallOk(t, c)
  {
    var call := s.calls[c];
    if call.phase.Loaded? && call.phase.version == |t.log| {
      var wall :| call.phase.next == Apply(call.phase.update, s.inner, wall);
      assert call.phase.next == Apply(call.phase.update, t.inner, wall);
    }
  }

  lemma KeepCalls(s: State, step: Step, c: nat)
    requires Inv(s) && Enabled(s, step) && c in Do(s, step).calls
    ensures CallOk(Do(s, step), c)
  {
    if step.Tick? || step.Reset? || step.call != c {
      KeepBystander(s, step, c);
    } else if step.Swap? {
      KeepSwapped(s, c);
    } else if !step.Begin? {
      assert CallOk(s, c);
    }
  }

  lemma KeepInv(s: State, step: Step)
    requires Inv(s) && Enabled(s, step)
    ensures Inv(Do(s, step))
  {
    var t := Do(s, step);
    KeepAgrees(s, step);
    forall c | c in t.calls ensures CallOk(t, c) { KeepCalls(s, step, c); }
    forall c | c !in t.calls ensures Count(t.log, c) == 0 {
      if step.Reset? { CountSnoc(s.log, Landing(None, Restore), c); }
      if step.Swap? { CountSnoc(s.log, Landing(Some(step.call), s.calls[step.call].phase.update), c); }
    }
    KeepLog(s, step);
  }

  lemma {:induction false} LoggedCounts(log: seq<Landing>, i: nat, c: nat)
    requires i < |log| && log[i].call == Some(c)
    ensures Count(log, c) >= 1
  {
    if i < |log| - 1 { LoggedCounts(log[..|log| - 1], i, c); }
  }

  lemma KeepLog(s: State, step: Step)
    requires Inv(s) && Enabled(s, step)
    ensures LogOk(Do(s, step))
  {
    var t := Do(s, step);
    forall i | 0 <= i < |t.log| && t.log[i].call.Some?
      ensures var c := t.log[i].call.value;
              c in t.calls && Makes(t.calls[c], t.log[i].update) && t.calls[c].since + t.calls[c].retries <= i
    {
      if i < |s.log| {
        var c := s.log[i].call.value;
        LoggedCounts(s.log, i, c);
        assert CallOk(s, c);
      } else if step.Swap? {
        assert CallOk(s, step.call);
      }
    }
  }

  lemma {:induction false} RunKeepsInv(s: State, steps: seq<Step>)
    requires Inv(s) && IsRun(s, steps)
    ensures Inv(After(s, steps))
    decreases |steps|
  {
    if steps != [] {
      KeepInv(s, steps[0]);
      RunKeepsInv(Do(s, steps[0]), steps[1..]);
    }
  }

  /** After any run: the clock is frozen exactly when it holds an instant, which is when a
    * freeze has landed and since then only advances; the instant is the frozen one plus the
    * deltas landed since; the offset is the sum of the deltas landed while not frozen. */
  lemma NoUpdateIsLost(steps: seq<Step>)
    requires IsRun(START, steps)
    ensures var s := After(START, steps);
            && (s.inner.mode == Frozen <==> s.inner.frozenAt.Some?)
            && (s.inner.mode == Frozen <==> FrozenBefore(s.log, |s.log|))
            && (forall p :: 0 <= p < |s.log| && s.log[p].update.Pin? && OnlyShifts(s.log, p + 1, |s.log|) ==>
                  s.inner.frozenAt == Some(s.log[p].update.at + Deltas(s.log, p + 1, |s.log|)))
            && s.inner.offset == WallDeltas(s.log, |s.log|)
  {
    RunKeepsInv(START, steps);
  }

  /** A call that is done has landed its own update exactly once, after it began; a refused one
    * never; and it retried only as often as changes landed since it began. */
  lemma EachCallLandsOnce(steps: seq<Step>, c: nat)
    requires IsRun(START, steps) && c in After(START, steps).calls
    ensures var s := After(START, steps);
            var call := s.calls[c];
            && Count(s.log, c) == (if call.phase.Landed? || call.phase.Returned? then 1 else 0)
            && (call.phase.Rejected? <==> call.op.Advance? && call.op.delta < 0)
            && call.retries <= |s.log| - call.since
            && (forall i :: 0 <= i < |s.log| && s.log[i].call == Some(c) ==>
                  call.since + call.retries <= i && Makes(call, s.log[i].update))
  {
    RunKeepsInv(START, steps);
    assert CallOk(After(START, steps), c);
  }

  /** Unless the state is reset, the offset never falls. */
  lemma {:induction false} OffsetNeverFalls(s: State, steps: seq<Step>)
    requires Inv(s) && IsRun(s, steps) && Reset !in steps
    ensures s.inner.offset <= After(s, steps).inner.offset
    decreases |steps|
  {
    if steps != [] {
      KeepInv(s, steps[0]);
      if steps[0].Swap? { assert CallOk(s, steps[0].call); }
      assert steps[0] in steps;
      OffsetNeverFalls(Do(s, steps[0]), steps[1..]);
    }
  }

  // ---- A freeze that reads the time itself ----

  /** The instant such a freeze carries is the time of the state it peeked at, at the wall time
    * it read. */
  ghost predicate PeekOk(s: State, call: Call) {
    && call.peekedAt <= |s.log| && call.readAt <= s.wall
    && (call.phase.Peeked? ==> Agrees(s.log[..call.peekedAt], call.phase.inner))
    && (call.op == Freeze(None) && call.phase.Ready? ==> IsPeeked(s, call, call.phase.update))
    && (call.op == Freeze(None) && call.phase.Loaded? ==> IsPeeked(s, call, call.phase.update))
  }

  ghost predicate IsPeeked(s: State, call: Call, u: Update)
    requires call.peekedAt <= |s.log|
  {
    exists inner :: Agrees(s.log[..call.peekedAt], inner) && u == Pin(Now(inner, call.readAt))
  }

  ghost predicate PeeksOk(s: State) {
    forall c :: c in s.calls ==> PeekOk(s, s.calls[c])
  }

  lemma LaterKeepsPeek(s: State, t: State, call: Call)
    requires PeekOk(s, call) && s.log <= t.log && s.wall <= t.wall
    ensures PeekOk(t, call)
  {
    assert t.log[..call.peekedAt] == s.log[..call.peekedAt];
    if call.op == Freeze(None) && (call.phase.Ready? || call.phase.Loaded?) {
      var inner :| Agrees(s.log[..call.peekedAt], inner) && call.phase.update == Pin(Now(inner, call.readAt));
      assert Agrees(t.log[..call.peekedAt], inner);
    }
  }

  lemma KeepPeeks(s: State, step: Step)
    requires Inv(s) && PeeksOk(s) && Enabled(s, step)
    ensures PeeksOk(Do(s, step))
  {
    var t := Do(s, step);
    assert s.log[..|s.log|] == s.log;
    forall c | c in t.calls ensures PeekOk(t, t.calls[c]) {
      if c in s.calls {
        LaterKeepsPeek(s, t, s.calls[c]);
        assert CallOk(s, c);
        if step == ReadWall(c) {
          assert Agrees(t.log[..s.calls[c].peekedAt], s.calls[c].phase.inner);
        }
      }
    }
  }

  lemma {:induction false} RunKeepsPeeks(s: State, steps: seq<Step>)
    requires Inv(s) && PeeksOk(s) && IsRun(s, steps)
    ensures PeeksOk(After(s, steps))
    decreases |steps|
  {
    if steps != [] {
      KeepInv(s, steps[0]);
      KeepPeeks(s, steps[0]);
      RunKeepsPeeks(Do(s, steps[0]), steps[1..]);
    }
  }

  /** Advances move the visible time by their deltas, frozen or not. */
  lemma {:induction false} AdvancesMoveNow(log: seq<Landing>, k: nat, a: Inner, b: Inner, wall: int)
    requires k <= |log| && Agrees(log[..k], a) && Agrees(log, b) && OnlyShifts(log, k, |log|)
    ensures Now(b, wall) == Now(a, wall) + Deltas(log, k, |log|)
    decreases |log| - k
  {
    if k == |log| {
      assert log[..k] == log;
      if a.mode == Frozen {
        var p :| 0 <= p < k && log[p].update.Pin? && OnlyShifts(log, p + 1, k);
      }
    } else {
      var next := Apply(log[k].update, a, wall);
      OneMoreChange(log[..k], a, log[k], wall);
      assert log[..k + 1] == log[..k] + [log[k]];
      AdvancesMoveNow(log, k + 1, next, b, wall);
      DeltasFirst(log, k, |log|);
    }
  }

  lemma {:induction false} DeltasFirst(log: seq<Landing>, first: nat, end: nat)
    requires first < end <= |log| && log[first].update.Shift?
    ensures Deltas(log, first, end) == log[first].update.delta + Deltas(log, first + 1, end)
    decreases end
  {
    if first + 1 < end { DeltasFirst(log, first, end - 1); }
  }

  // ---- What it pins ----

  /** The visible time a log stands for: the last freeze in force plus what landed since, or
    * the wall time plus the deltas landed while not frozen. */
  ghost function TimeOf(log: seq<Landing>, wall: int): int {
    if p: nat :| p < |log| && log[p].update.Pin? && OnlyShifts(log, p + 1, |log|)
    then log[p].update.at + Deltas(log, p + 1, |log|)
    else wall + WallDeltas(log, |log|)
  }

  lemma NowIsTimeOf(log: seq<Landing>, inner: Inner, wall: int)
    requires Agrees(log, inner)
    ensures Now(inner, wall) == TimeOf(log, wall)
  {
    if inner.mode == Frozen {
      var p: nat :| p < |log| && log[p].update.Pin? && OnlyShifts(log, p + 1, |log|);
      assert inner.frozenAt == Some(log[p].update.at + Deltas(log, p + 1, |log|));
    }
  }

  /** A freeze at the current time about to land. */
  ghost predicate AboutToFreeze(s: State, c: nat) {
    && c in s.calls && s.calls[c].op == Freeze(None)
    && s.calls[c].phase.Loaded? && s.calls[c].phase.version == |s.log|
    && s.calls[c].peekedAt <= |s.log|
  }

  /** Whatever landed since it peeked, such a freeze pins the time of the log it peeked at. The
    * clock stood at the time of the whole log, so the freeze is atomic if and only if the two
    * logs tell the same time at the wall time it read. */
  lemma FreezePinsWhatItPeeked(steps: seq<Step>, c: nat)
    requires IsRun(START, steps) && AboutToFreeze(After(START, steps), c)
    ensures var s := After(START, steps);
            var call := s.calls[c];
            var t := Do(s, Swap(c));
            && call.readAt <= s.wall
            && t.inner.frozenAt == Some(TimeOf(s.log[..call.peekedAt], call.readAt))
            && Now(s.inner, call.readAt) == TimeOf(s.log, call.readAt)
            && (t.inner.frozenAt == Some(Now(s.inner, call.readAt)) <==>
                  TimeOf(s.log[..call.peekedAt], call.readAt) == TimeOf(s.log, call.readAt))
  {
    RunKeepsInv(START, steps);
    RunKeepsPeeks(START, steps);
    var s := After(START, steps);
    var call := s.calls[c];
    assert PeekOk(s, call) && CallOk(s, c);
    var inner :| Agrees(s.log[..call.peekedAt], inner) && call.phase.update == Pin(Now(inner, call.readAt));
    NowIsTimeOf(s.log[..call.peekedAt], inner, call.readAt);
    NowIsTimeOf(s.log, s.inner, call.readAt);
  }

  /** If only advances landed since it peeked, the pinned time lacks exactly their deltas: the
    * freeze is atomic if and only if they sum to nothing. */
  lemma FreezeUndoesAdvances(steps: seq<Step>, c: nat)
    requires IsRun(START, steps) && AboutToFreeze(After(START, steps), c)
    requires var s := After(START, steps); OnlyShifts(s.log, s.calls[c].peekedAt, |s.log|)
    ensures var s := After(START, steps);
            var call := s.calls[c];
            var t := Do(s, Swap(c));
            && t.inner.frozenAt == Some(Now(s.inner, call.readAt) - Deltas(s.log, call.peekedAt, |s.log|))
            && (t.inner.frozenAt == Some(Now(s.inner, call.readAt)) <==> Deltas(s.log, call.peekedAt, |s.log|) == 0)
  {
    RunKeepsInv(START, steps);
    RunKeepsPeeks(START, steps);
    var s := After(START, steps);
    var call := s.calls[c];
    assert PeekOk(s, call) && CallOk(s, c);
    var inner :| Agrees(s.log[..call.peekedAt], inner) && call.phase.update == Pin(Now(inner, call.readAt));
    AdvancesMoveNow(s.log, call.peekedAt, inner, s.inner, call.readAt);
  }

  lemma RunCons(s: State, step: Step, rest: seq<Step>)
    requires Enabled(s, step) && IsRun(Do(s, step), rest)
    ensures IsRun(s, [step] + rest) && After(s, [step] + rest) == After(Do(s, step), rest)
  {
    assert ([step] + rest)[1..] == rest;
  }

  function AdvanceSteps(c: nat, delta: nat, rest: seq<Step>): seq<Step> {
    [Begin(c, Advance(delta))] + ([Load(c)] + ([Swap(c)] + ([Return(c)] + rest)))
  }

  /** An advance that runs alone. */
  lemma LoneAdvance(s: State, c: nat, delta: nat, rest: seq<Step>)
    requires c !in s.calls
    requires IsRun(Advanced(s, c, delta), rest)
    ensures IsRun(s, AdvanceSteps(c, delta, rest))
    ensures After(s, AdvanceSteps(c, delta, rest)) == After(Advanced(s, c, delta), rest)
  {
    var s1 := Do(s, Begin(c, Advance(delta)));
    var s2 := Do(s1, Load(c));
    var s3 := Do(s2, Swap(c));
    var s4 := Do(s3, Return(c));
    assert s4 == Advanced(s, c, delta);
    RunCons(s3, Return(c), rest);
    RunCons(s2, Swap(c), [Return(c)] + rest);
    RunCons(s1, Load(c), [Swap(c)] + ([Return(c)] + rest));
    RunCons(s, Begin(c, Advance(delta)), [Load(c)] + ([Swap(c)] + ([Return(c)] + rest)));
  }

  function Advanced(s: State, c: nat, delta: nat): State {
    s.(inner := Apply(Shift(delta), s.inner, s.wall),
       log := s.log + [Landing(Some(c), Shift(delta))],
       calls := s.calls[c := Call(Advance(delta), Returned, |s.log|, 0, |s.log|, s.wall)])
  }

  /** A freeze that has its instant lands it whatever the clock has come to. */
  lemma FreezeLands(s: State, c: nat, at: int)
    requires c in s.calls && s.calls[c].phase == Ready(Pin(at))
    ensures var steps := [Load(c)] + ([Swap(c)] + []);
            IsRun(s, steps) && After(s, steps).inner == Inner(Frozen, Some(at), s.inner.offset)
  {
    var s1 := Do(s, Load(c));
    RunCons(s1, Swap(c), []);
    RunCons(s, Load(c), [Swap(c)] + []);
  }

  /** A freeze that has read the time, alone, and not yet landed. */
  function TimeRead(s: State, c: nat): State {
    s.(calls := s.calls[c := Call(Freeze(None), Ready(Pin(Now(s.inner, s.wall))), |s.log|, 0, |s.log|, s.wall)])
  }

  lemma LoneRead(s: State, c: nat, rest: seq<Step>)
    requires c !in s.calls && IsRun(TimeRead(s, c), rest)
    ensures var steps := [Begin(c, Freeze(None))] + ([Peek(c)] + ([ReadWall(c)] + rest));
            IsRun(s, steps) && After(s, steps) == After(TimeRead(s, c), rest)
  {
    var s1 := Do(s, Begin(c, Freeze(None)));
    var s2 := Do(s1, Peek(c));
    assert Do(s2, ReadWall(c)) == TimeRead(s, c);
    RunCons(s2, ReadWall(c), rest);
    RunCons(s1, Peek(c), [ReadWall(c)] + rest);
    RunCons(s, Begin(c, Freeze(None)), [Peek(c)] + ([ReadWall(c)] + rest));
  }

  /** From any state, any advance can be undone by a freeze at the current time: the freeze
    * reads the time, the advance moves it and returns, and the freeze sets it back. */
  lemma AnAdvanceUndone(s: State, freeze: nat, advance: nat, delta: nat)
    requires freeze !in s.calls && advance !in s.calls && freeze != advance
    requires s.inner.mode == Frozen <==> s.inner.frozenAt.Some?
    ensures exists first, second :: Undone(s, advance, delta, first, second)
  {
    var s4 := Advanced(TimeRead(s, freeze), advance, delta);
    AdvanceWithin(s, freeze, advance, delta);
    var first :| IsRun(s, first) && After(s, first) == s4;
    FreezeLands(s4, freeze, Now(s.inner, s.wall));
    var second := [Load(freeze)] + ([Swap(freeze)] + []);
    assert Undone(s, advance, delta, first, second);
  }

  /** The freeze reads the time, and then the advance runs from start to end. */
  lemma AdvanceWithin(s: State, freeze: nat, advance: nat, delta: nat)
    requires freeze !in s.calls && advance !in s.calls && freeze != advance
    ensures exists steps :: IsRun(s, steps) && After(s, steps) == Advanced(TimeRead(s, freeze), advance, delta)
  {
    LoneAdvance(TimeRead(s, freeze), advance, delta, []);
    TimeReadFirst(s, freeze, AdvanceSteps(advance, delta, []));
  }

  lemma TimeReadFirst(s: State, c: nat, rest: seq<Step>)
    requires c !in s.calls && IsRun(TimeRead(s, c), rest)
    ensures exists steps :: IsRun(s, steps) && After(s, steps) == After(TimeRead(s, c), rest)
  {
    LoneRead(s, c, rest);
  }

  /** After `first` the advance has returned and the time has moved by delta; after `second` it
    * is back where it was, with no reset and no time passing. */
  ghost predicate Undone(s: State, advance: nat, delta: nat, first: seq<Step>, second: seq<Step>) {
    && IsRun(s, first)
    && var t := After(s, first);
       && advance in t.calls && t.calls[advance].phase == Returned && t.calls[advance].op == Advance(delta)
       && Now(t.inner, t.wall) == Now(s.inner, s.wall) + delta && t.wall == s.wall
       && IsRun(t, second) && Now(After(t, second).inner, s.wall) == Now(s.inner, s.wall)
  }
}
