/** The scenario clock: its state, the updates callers make, and the compare-and-swap loops
  * through which any number of callers make them at once. */
module Clock {
  import opened Wrappers

  // ---- The state ----

  /** Instants and durations, in whatever unit. */
  datatype Mode = Wall | Frozen

  datatype Inner = Inner(mode: Mode, frozenAt: Option<int>, offset: int)

  const DEFAULT: Inner := Inner(Wall, None, 0)

  /** compute_now. */
  function Now(inner: Inner, wall: int): int {
    match inner.mode
    case Frozen => if inner.frozenAt.Some? then inner.frozenAt.value else wall
    case Wall => wall + inner.offset
  }

  /** What one call makes of the state. */
  datatype Update = Pin(at: int) | Thaw | Shift(delta: int) | Restore

  function Apply(u: Update, cur: Inner, wall: int): Inner {
    match u
    case Pin(at) => Inner(Frozen, Some(at), cur.offset)
    case Thaw => Inner(Wall, None, cur.offset)
    case Shift(delta) =>
      if cur.mode == Frozen
      then Inner(Frozen, Some((if cur.frozenAt.Some? then cur.frozenAt.value else wall) + delta), cur.offset)
      else Inner(Wall, None, cur.offset + delta)
    case Restore => DEFAULT
  }

  datatype Error = NegativeDuration

  /** The clock of a process with one caller. */
  class Clock {
    var state: Inner

    /** Every writer keeps this. */
    ghost predicate Valid()
      reads this
    {
      state.mode == Frozen <==> state.frozenAt.Some?
    }

    constructor ()
      ensures Valid() && state == DEFAULT
    {
      state := DEFAULT;
    }

    method Freeze(at: Option<int>, wall: int) returns (pinned: int)
      requires Valid()
      modifies this
      ensures Valid() && Now(state, wall) == pinned && state == Apply(Pin(pinned), old(state), wall)
      ensures pinned == if at.Some? then at.value else old(Now(state, wall))
    {
      pinned := if at.Some? then at.value else Now(state, wall);
      state := Inner(Frozen, Some(pinned), state.offset);
    }

    method Unfreeze(wall: int)
      requires Valid()
      modifies this
      ensures Valid() && state == Apply(Thaw, old(state), wall)
      ensures Now(state, wall) == wall + old(state.offset)
    {
      state := Inner(Wall, None, state.offset);
    }

    /** The visible time moves by delta in either mode; the mode stays. */
    method Advance(delta: int, wall: int) returns (r: Result<int, Error>)
      requires Valid()
      modifies this
      ensures Valid() && state.mode == old(state.mode)
      ensures delta < 0 ==> r == Err(NegativeDuration) && state == old(state)
      ensures delta >= 0 ==> r == Ok(old(Now(state, wall)) + delta) && r.value == Now(state, wall)
      ensures delta >= 0 ==> state == Apply(Shift(delta), old(state), wall)
    {
      if delta < 0 { return Err(NegativeDuration); }
      match state.mode {
        case Frozen =>
          var at := if state.frozenAt.Some? then state.frozenAt.value else wall;
          state := Inner(Frozen, Some(at + delta), state.offset);
        case Wall =>
          state := Inner(Wall, None, state.offset + delta);
      }
      r := Ok(Now(state, wall));
    }

    method ResetForTests()
      modifies this
      ensures Valid() && state == DEFAULT
    {
      state := DEFAULT;
    }
  }

  // ---- Many callers ----

  datatype Op = Freeze(at: Option<int>) | Unfreeze | Advance(delta: int)

  /** Where a call is. `version` numbers the states the pointer has held. */
  datatype Phase =
    | Begun
    | Peeked(inner: Inner, version: nat)
    | Ready(update: Update)
    | Loaded(update: Update, version: nat, next: Inner)
    | Landed
    | Returned
    | Rejected

  /** A call, with the version at its start, its failed swaps, and, for a freeze that read the
    * time itself, the version and the wall time it read. */
  datatype Call = Call(op: Op, phase: Phase, since: nat, retries: nat, peekedAt: nat, readAt: int)

  /** One change of the state: whose, and which. */
  datatype Landing = Landing(call: Option<nat>, update: Update)

  /** The state behind the pointer, all changes so far (their number is the version), the wall
    * clock, and the calls. */
  datatype State = State(inner: Inner, log: seq<Landing>, wall: int, calls: map<nat, Call>)

  const START: State := State(DEFAULT, [], 0, map[])

  datatype Step =
    | Begin(call: nat, op: Op)
    | Peek(call: nat)
    | ReadWall(call: nat)
    | Load(call: nat)
    | Swap(call: nat)
    | Return(call: nat)
    | Tick(elapsed: nat)
    | Reset

  predicate Enabled(s: State, step: Step) {
    match step
    case Begin(c, _) => c !in s.calls
    case Peek(c) => c in s.calls && s.calls[c].phase.Begun?
    case ReadWall(c) => c in s.calls && s.calls[c].phase.Peeked?
    case Load(c) => c in s.calls && s.calls[c].phase.Ready?
    case Swap(c) => c in s.calls && s.calls[c].phase.Loaded?
    case Return(c) => c in s.calls && s.calls[c].phase.Landed?
    case Tick(_) => true
    case Reset => true
  }

  /** The first thing a call does: a freeze without an instant must read the time, and a
    * negative advance is refused. */
  function FirstPhase(op: Op): Phase {
    match op
    case Freeze(at) => if at.Some? then Ready(Pin(at.value)) else Begun
    case Unfreeze => Ready(Thaw)
    case Advance(delta) => if delta < 0 then Rejected else Ready(Shift(delta))
  }

  function Goto(s: State, c: nat, p: Phase): State
    requires c in s.calls
  {
    s.(calls := s.calls[c := s.calls[c].(phase := p)])
  }

  function Do(s: State, step: Step): State
    requires Enabled(s, step)
  {
    var version := |s.log|;
    match step
    case Begin(c, op) => s.(calls := s.calls[c := Call(op, FirstPhase(op), version, 0, version, s.wall)])
    case Peek(c) =>
      s.(calls := s.calls[c := s.calls[c].(phase := Peeked(s.inner, version), peekedAt := version)])
    case ReadWall(c) =>
      var pin := Pin(Now(s.calls[c].phase.inner, s.wall));
      s.(calls := s.calls[c := s.calls[c].(phase := Ready(pin), readAt := s.wall)])
    case Load(c) =>
      var u := s.calls[c].phase.update;
      Goto(s, c, Loaded(u, version, Apply(u, s.inner, s.wall)))
    case Swap(c) =>
      var call := s.calls[c];
      var u := call.phase.update;
      if call.phase.version == version then
        Goto(s, c, Landed).(inner := call.phase.next, log := s.log + [Landing(Some(c), u)])
      else
        var phase := Loaded(u, version, Apply(u, s.inner, s.wall));
        s.(calls := s.calls[c := call.(phase := phase, retries := call.retries + 1)])
    case Return(c) => Goto(s, c, Returned)
    case Tick(elapsed) => s.(wall := s.wall + elapsed)
    case Reset => s.(inner := DEFAULT, log := s.log + [Landing(None, Restore)])
  }

  ghost predicate IsRun(s: State, steps: seq<Step>)
    decreases |steps|
  {
    steps == [] || (Enabled(s, steps[0]) && IsRun(Do(s, steps[0]), steps[1..]))
  }

  /** The state after the steps, up to the first that is not enabled: after all of them, if
    * they are a run. */
  ghost function After(s: State, steps: seq<Step>): State
    decreases |steps|
  {
    if steps == [] || !Enabled(s, steps[0]) then s else After(Do(s, steps[0]), steps[1..])
  }
}
