/** The cockpit's two-file configuration cache: what a call returns while other callers,
  * writers and resets run between its stats, its reads and its store. */
module ConfigCache {
  import opened Wrappers

  // ---- The mutex-protected part ----

  /** CACHE: the last good configuration and the two mtimes taken before it was read. */
  datatype Slot<S> = Slot(config: Option<S>, operatorMtime: Option<nat>, settingsMtime: Option<nat>)

  function Cold<S>(): Slot<S> {
    Slot(None, None, None)
  }

  /** Why a load failed: a read error, or this version of the settings does not parse. */
  datatype Cause = Io | Invalid(settingsAt: nat)

  datatype Outcome<S> =
    | Hit(config: S)
    | Reloaded(config: S)
    | LastGood(config: S, cause: Cause)
    | Failed(cause: Cause)

  predicate FreshEnough<S>(slot: Slot<S>, operator: nat, settings: nat) {
    && slot.config.Some?
    && slot.operatorMtime.Some? && operator <= slot.operatorMtime.value
    && slot.settingsMtime.Some? && settings <= slot.settingsMtime.value
  }

  /** What a caller that had to load stores and returns. */
  function Settle<S>(slot: Slot<S>, operator: nat, settings: nat, load: Result<S, Cause>): (r: (Slot<S>, Outcome<S>)) {
    match load
    case Ok(got) => (Slot(Some(got), Some(operator), Some(settings)), Reloaded(got))
    case Err(cause) => (slot, if slot.config.Some? then LastGood(slot.config.value, cause) else Failed(cause))
  }

  class Cache<S> {
    var config: Option<S>
    var operatorMtime: Option<nat>
    var settingsMtime: Option<nat>

    ghost function Contents(): Slot<S>
      reads this
    {
      Slot(config, operatorMtime, settingsMtime)
    }

    constructor ()
      ensures Contents() == Cold()
    {
      config, operatorMtime, settingsMtime := None, None, None;
    }

    /** `current` under the lock, `disk` being what load_from_disk finds if it is asked. */
    method Current(operator: nat, settings: nat, disk: Result<S, Cause>) returns (r: Outcome<S>)
      modifies this
      ensures (Contents(), r) == if old(FreshEnough(Contents(), operator, settings))
                                 then (old(Contents()), Hit(old(config).value))
                                 else Settle(old(Contents()), operator, settings, disk)
    {
      var freshEnough :=
        config.Some?
        && (operatorMtime.Some? && operator <= operatorMtime.value)
        && settingsMtime.Some? && settings <= settingsMtime.value;
      if freshEnough { return Hit(config.value); }
      match disk {
        case Ok(got) =>
          config := Some(got);
          operatorMtime := Some(operator);
          settingsMtime := Some(settings);
          r := Reloaded(got);
        case Err(cause) =>
          if config.None? { return Failed(cause); }
          r := LastGood(config.value, cause);
      }
    }

    method ResetCache()
      modifies this
      ensures Contents() == Cold()
    {
      config, operatorMtime, settingsMtime := None, None, None;
    }
  }

  // ---- Many callers and writers ----

  /** One version of a file. */
  datatype File = File(text: string, mtime: nat)

  /** A configuration read from disk, with the versions it was read from. */
  datatype Snapshot<S> = Snapshot(operatorMd: string, settings: S, operatorAt: nat, settingsAt: nat)

  /** Where a call of `current` is. */
  datatype Phase<S> =
    | Begun
    | StatOne(operator: nat)
    | StatTwo(operator: nat, settings: nat)
    | Loading(operator: nat, settings: nat)
    | ReadOne(operator: nat, settings: nat, md: string, operatorAt: nat)
    | Loaded(operator: nat, settings: nat, load: Result<Snapshot<S>, Cause>)
    | Returned(outcome: Outcome<Snapshot<S>>)

  /** A call, with how many versions of each file there were when it began. */
  datatype Call<S> = Call(phase: Phase<S>, operatorFrom: nat, settingsFrom: nat)

  /** All versions each file has had, the cache, who holds its lock, and the calls so far. */
  datatype State<S> = State(
    operator: seq<File>,
    settings: seq<File>,
    slot: Slot<Snapshot<S>>,
    lock: Option<nat>,
    calls: map<nat, Call<S>>)

  datatype Step =
    | Begin(call: nat)
    | StatOperator(call: nat, ok: bool)
    | StatSettings(call: nat, ok: bool)
    | Lock(call: nat)
    | ReadOperator(call: nat, ok: bool)
    | ReadSettings(call: nat, ok: bool)
    | Unlock(call: nat)
    | WriteOperator(text: string, mtime: nat)
    | WriteSettings(text: string, mtime: nat)
    | ResetCache

  predicate InPhase<S>(s: State<S>, call: nat, p: Phase<S> -> bool) {
    call in s.calls && p(s.calls[call].phase)
  }

  predicate Enabled<S>(s: State<S>, step: Step) {
    match step
    case Begin(c) => c !in s.calls
    case StatOperator(c, _) => InPhase(s, c, (p: Phase<S>) => p.Begun?)
    case StatSettings(c, _) => InPhase(s, c, (p: Phase<S>) => p.StatOne?)
    case Lock(c) => s.lock.None? && InPhase(s, c, (p: Phase<S>) => p.StatTwo?)
    case ReadOperator(c, _) => InPhase(s, c, (p: Phase<S>) => p.Loading?)
    case ReadSettings(c, _) => InPhase(s, c, (p: Phase<S>) => p.ReadOne?)
    case Unlock(c) => InPhase(s, c, (p: Phase<S>) => p.Loaded?)
    case WriteOperator(_, _) => true
    case WriteSettings(_, _) => true
    case ResetCache => s.lock.None?
  }

  function Goto<S>(s: State<S>, c: nat, p: Phase<S>): State<S>
    requires c in s.calls
  {
    s.(calls := s.calls[c := s.calls[c].(phase := p)])
  }

  function Do<S>(parse: string -> Option<S>, s: State<S>, step: Step): State<S>
    requires Enabled(s, step) && s.operator != [] && s.settings != []
  {
    var (operatorNow, settingsNow) := (|s.operator| - 1, |s.settings| - 1);
    match step
    case Begin(c) => s.(calls := s.calls[c := Call(Begun, operatorNow, settingsNow)])
    case StatOperator(c, ok) =>
      Goto(s, c, if ok then StatOne(s.operator[operatorNow].mtime) else Returned(Failed(Io)))
    case StatSettings(c, ok) =>
      Goto(s, c, if ok then StatTwo(s.calls[c].phase.operator, s.settings[settingsNow].mtime) else Returned(Failed(Io)))
    case Lock(c) =>
      var p := s.calls[c].phase;
      if FreshEnough(s.slot, p.operator, p.settings) then Goto(s, c, Returned(Hit(s.slot.config.value)))
      else Goto(s, c, Loading(p.operator, p.settings)).(lock := Some(c))
    case ReadOperator(c, ok) =>
      var p := s.calls[c].phase;
      Goto(s, c, if ok then ReadOne(p.operator, p.settings, s.operator[operatorNow].text, operatorNow)
                 else Loaded(p.operator, p.settings, Err(Io)))
    case ReadSettings(c, ok) =>
      var p := s.calls[c].phase;
      var load :=
        if !ok then Err(Io)
        else match parse(s.settings[settingsNow].text)
             case Some(v) => Ok(Snapshot(p.md, v, p.operatorAt, settingsNow))
             case None => Err(Invalid(settingsNow));
      Goto(s, c, Loaded(p.operator, p.settings, load))
    case Unlock(c) =>
      var p := s.calls[c].phase;
      var (slot, outcome) := Settle(s.slot, p.operator, p.settings, p.load);
      Goto(s, c, Returned(outcome)).(slot := slot, lock := None)
    case WriteOperator(text, mtime) => s.(operator := s.operator + [File(text, mtime)])
    case WriteSettings(text, mtime) => s.(settings := s.settings + [File(text, mtime)])
    case ResetCache => s.(slot := Cold())
  }

  ghost predicate IsRun<S>(parse: string -> Option<S>, s: State<S>, steps: seq<Step>)
    requires s.operator != [] && s.settings != []
    decreases |steps|
  {
    steps == [] || (Enabled(s, steps[0]) && IsRun(parse, Do(parse, s, steps[0]), steps[1..]))
  }

  /** The state after the steps, up to the first that is not enabled: after all of them, if
    * they are a run. */
  ghost function After<S>(parse: string -> Option<S>, s: State<S>, steps: seq<Step>): (r: State<S>)
    requires s.operator != [] && s.settings != []
    ensures r.operator != [] && r.settings != []
    decreases |steps|
  {
    if steps == [] || !Enabled(s, steps[0]) then s else After(parse, Do(parse, s, steps[0]), steps[1..])
  }

  function Start<S>(operator: File, settings: File): State<S> {
    State([operator], [settings], Cold(), None, map[])
  }

  // ---- Mtimes ----

  /** Each write strictly raises the mtime. */
  ghost predicate Rising(files: seq<File>) {
    forall i, j :: 0 <= i < j < |files| ==> files[i].mtime < files[j].mtime
  }

  ghost predicate AllRising<S>(s: State<S>) {
    Rising(s.operator) && Rising(s.settings)
  }

  lemma {:induction false} WritesOnlyAppend<S>(parse: string -> Option<S>, s: State<S>, steps: seq<Step>)
    requires s.operator != [] && s.settings != [] && IsRun(parse, s, steps)
    ensures var r := After(parse, s, steps); s.operator <= r.operator && s.settings <= r.settings
    decreases |steps|
  {
    if steps != [] { WritesOnlyAppend(parse, Do(parse, s, steps[0]), steps[1..]); }
  }

  // ---- The invariant ----

  ghost predicate SnapshotOk<S>(parse: string -> Option<S>, s: State<S>, c: Snapshot<S>) {
    && c.operatorAt < |s.operator| && c.settingsAt < |s.settings|
    && c.operatorMd == s.operator[c.operatorAt].text
    && Some(c.settings) == parse(s.settings[c.settingsAt].text)
  }

  /** Cached content is never older than its recorded mtimes. */
  ghost predicate SlotOk<S>(parse: string -> Option<S>, s: State<S>) {
    match s.slot.config
    case None => s.slot == Cold()
    case Some(c) =>
      && SnapshotOk(parse, s, c)
      && s.slot.operatorMtime.Some? && s.slot.operatorMtime.value <= s.operator[c.operatorAt].mtime
      && s.slot.settingsMtime.Some? && s.slot.settingsMtime.value <= s.settings[c.settingsAt].mtime
  }

  /** A stat taken since version `from`. */
  ghost predicate StatOk(files: seq<File>, from: nat, mtime: nat) {
    from < |files| && files[from].mtime <= mtime <= files[|files| - 1].mtime
  }

  ghost predicate CauseOk<S>(parse: string -> Option<S>, s: State<S>, call: Call<S>, cause: Cause) {
    || cause == Io
    || (call.settingsFrom <= cause.settingsAt < |s.settings| && parse(s.settings[cause.settingsAt].text).None?)
  }

  /** Read since the call began. */
  ghost predicate Since<S>(call: Call<S>, c: Snapshot<S>) {
    call.operatorFrom <= c.operatorAt && call.settingsFrom <= c.settingsAt
  }

  ghost predicate OutcomeOk<S>(parse: string -> Option<S>, s: State<S>, call: Call<S>, outcome: Outcome<Snapshot<S>>) {
    match outcome
    case Hit(c) => SnapshotOk(parse, s, c) && Since(call, c)
    case Reloaded(c) => SnapshotOk(parse, s, c) && Since(call, c)
    case LastGood(c, cause) => SnapshotOk(parse, s, c) && CauseOk(parse, s, call, cause)
    case Failed(cause) => CauseOk(parse, s, call, cause)
  }

  ghost predicate LoadOk<S>(parse: string -> Option<S>, s: State<S>, call: Call<S>, load: Result<Snapshot<S>, Cause>)
    requires call.phase.Loaded?
  {
    match load
    case Ok(c) =>
      && SnapshotOk(parse, s, c) && Since(call, c)
      && call.phase.operator <= s.operator[c.operatorAt].mtime
      && call.phase.settings <= s.settings[c.settingsAt].mtime
    case Err(cause) => CauseOk(parse, s, call, cause)
  }

  ghost predicate CallOk<S>(parse: string -> Option<S>, s: State<S>, call: Call<S>) {
    && call.operatorFrom < |s.operator| && call.settingsFrom < |s.settings|
    && match call.phase
       case Begun => true
       case StatOne(m) => StatOk(s.operator, call.operatorFrom, m)
       case StatTwo(m, n) => StatOk(s.operator, call.operatorFrom, m) && StatOk(s.settings, call.settingsFrom, n)
       case Loading(m, n) => StatOk(s.operator, call.operatorFrom, m) && StatOk(s.settings, call.settingsFrom, n)
       case ReadOne(m, n, md, at) =>
         && StatOk(s.operator, call.operatorFrom, m) && StatOk(s.settings, call.settingsFrom, n)
         && call.operatorFrom <= at < |s.operator| && md == s.operator[at].text && m <= s.operator[at].mtime
       case Loaded(_, _, load) => LoadOk(parse, s, call, load)
       case Returned(outcome) => OutcomeOk(parse, s, call, outcome)
  }

  ghost predicate Inv<S>(parse: string -> Option<S>, s: State<S>) {
    && s.operator != [] && s.settings != []
    && SlotOk(parse, s)
    && (forall c :: c in s.calls ==> CallOk(parse, s, s.calls[c]))
    && (forall c :: c in s.calls && HoldsLock(s.calls[c]) ==> s.lock == Some(c))
  }

  predicate HoldsLock<S>(call: Call<S>) {
    call.phase.Loading? || call.phase.ReadOne? || call.phase.Loaded?
  }

  // ---- Each step keeps it ----

  /** A write disturbs nothing a call has seen. */
  lemma WriteKeepsCall<S>(parse: string -> Option<S>, s: State<S>, t: State<S>, call: Call<S>)
    requires CallOk(parse, s, call) && AllRising(t)
    requires s.operator <= t.operator && s.settings <= t.settings
    ensures CallOk(parse, t, call)
  {
  }

  /** A stat that the record covers is of a version no newer than the one read. */
  lemma CoveredIsSince(files: seq<File>, from: nat, mtime: nat, recorded: nat, at: nat)
    requires Rising(files) && StatOk(files, from, mtime) && at < |files|
    requires mtime <= recorded <= files[at].mtime
    ensures from <= at
  {
  }

  /** A hit is since the call began. */
  lemma HitIsSince<S>(parse: string -> Option<S>, s: State<S>, c: nat)
    requires Inv(parse, s) && AllRising(s) && Enabled(s, Lock(c))
    requires FreshEnough(s.slot, s.calls[c].phase.operator, s.calls[c].phase.settings)
    ensures Since(s.calls[c], s.slot.config.value)
  {
    var call, hit := s.calls[c], s.slot.config.value;
    assert CallOk(parse, s, call);
    CoveredIsSince(s.operator, call.operatorFrom, call.phase.operator, s.slot.operatorMtime.value, hit.operatorAt);
    CoveredIsSince(s.settings, call.settingsFrom, call.phase.settings, s.slot.settingsMtime.value, hit.settingsAt);
  }

  /** A stat now is since the call began. */
  lemma StatNow(files: seq<File>, start: nat)
    requires Rising(files) && start < |files|
    ensures StatOk(files, start, files[|files| - 1].mtime)
  {
  }

  lemma KeepReader<S>(parse: string -> Option<S>, s: State<S>, step: Step, c: nat)
    requires Inv(parse, s) && AllRising(s) && Enabled(s, step)
    requires (step.ReadOperator? || step.ReadSettings?) && step.call == c
    ensures var t := Do(parse, s, step); CallOk(parse, t, t.calls[c])
  {
    assert CallOk(parse, s, s.calls[c]);
    if step.ReadSettings? && step.ok { SettingsRead(parse, s, c); }
  }

  lemma SettingsRead<S>(parse: string -> Option<S>, s: State<S>, c: nat)
    requires Inv(parse, s) && AllRising(s) && Enabled(s, ReadSettings(c, true))
    ensures var t := Do(parse, s, ReadSettings(c, true)); LoadOk(parse, t, t.calls[c], t.calls[c].phase.load)
  {
    assert CallOk(parse, s, s.calls[c]);
  }

  lemma KeepUnlocked<S>(parse: string -> Option<S>, s: State<S>, c: nat)
    requires Inv(parse, s) && Enabled(s, Unlock(c))
    ensures var t := Do(parse, s, Unlock(c)); CallOk(parse, t, t.calls[c])
  {
    assert CallOk(parse, s, s.calls[c]);
  }

  lemma KeepStat<S>(parse: string -> Option<S>, s: State<S>, step: Step, c: nat)
    requires Inv(parse, s) && AllRising(s) && Enabled(s, step)
    requires (step.StatOperator? || step.StatSettings?) && step.call == c
    ensures var t := Do(parse, s, step); CallOk(parse, t, t.calls[c])
  {
    assert CallOk(parse, s, s.calls[c]);
    StatNow(s.operator, s.calls[c].operatorFrom);
    StatNow(s.settings, s.calls[c].settingsFrom);
  }

  lemma KeepCall<S>(parse: string -> Option<S>, s: State<S>, step: Step, c: nat)
    requires Inv(parse, s) && AllRising(s) && Enabled(s, step)
    requires OfCall(step) && step.call == c
    ensures var t := Do(parse, s, step); CallOk(parse, t, t.calls[c])
  {
    if step.Unlock? {
      KeepUnlocked(parse, s, c);
    } else if step.ReadOperator? || step.ReadSettings? {
      KeepReader(parse, s, step, c);
    } else if step.Lock? {
      assert CallOk(parse, s, s.calls[c]);
      if FreshEnough(s.slot, s.calls[c].phase.operator, s.calls[c].phase.settings) { HitIsSince(parse, s, c); }
    } else if !step.Begin? {
      KeepStat(parse, s, step, c);
    }
  }

  lemma KeepSlot<S>(parse: string -> Option<S>, s: State<S>, step: Step)
    requires Inv(parse, s) && Enabled(s, step)
    ensures SlotOk(parse, Do(parse, s, step))
  {
    if step.Unlock? { assert CallOk(parse, s, s.calls[step.call]); }
  }

  lemma KeepInv<S>(parse: string -> Option<S>, s: State<S>, step: Step)
    requires Inv(parse, s) && Enabled(s, step) && AllRising(Do(parse, s, step))
    ensures Inv(parse, Do(parse, s, step))
  {
    var t := Do(parse, s, step);
    KeepSlot(parse, s, step);
    FilesGrow(parse, s, step);
    KeepHolders(parse, s, step);
    forall c | c in t.calls ensures CallOk(parse, t, t.calls[c]) {
      if OfCall(step) && step.call == c {
        KeepCall(parse, s, step, c);
      } else {
        OtherCall(parse, s, step, c);
        WriteKeepsCall(parse, s, t, s.calls[c]);
      }
    }
  }

  /** The step is one of a call. */
  predicate OfCall(step: Step) {
    !step.WriteOperator? && !step.WriteSettings? && !step.ResetCache?
  }

  lemma FilesGrow<S>(parse: string -> Option<S>, s: State<S>, step: Step)
    requires Enabled(s, step) && s.operator != [] && s.settings != []
    ensures var t := Do(parse, s, step); s.operator <= t.operator && s.settings <= t.settings
    ensures AllRising(Do(parse, s, step)) ==> AllRising(s)
  {
  }

  /** A step leaves the calls it is not of as they were. */
  lemma OtherCall<S>(parse: string -> Option<S>, s: State<S>, step: Step, c: nat)
    requires Enabled(s, step) && s.operator != [] && s.settings != [] && !(OfCall(step) && step.call == c)
    ensures c in Do(parse, s, step).calls <==> c in s.calls
    ensures c in s.calls ==> Do(parse, s, step).calls[c] == s.calls[c]
  {
  }

  /** Only the holder of the lock is between its check and its store. */
  lemma KeepHolders<S>(parse: string -> Option<S>, s: State<S>, step: Step)
    requires Inv(parse, s) && Enabled(s, step)
    ensures var t := Do(parse, s, step); forall c :: c in t.calls && HoldsLock(t.calls[c]) ==> t.lock == Some(c)
  {
    forall c | c in s.calls && !(OfCall(step) && step.call == c) ensures Do(parse, s, step).calls[c] == s.calls[c] {
      OtherCall(parse, s, step, c);
    }
  }

  lemma {:induction false} RunKeepsInv<S>(parse: string -> Option<S>, s: State<S>, steps: seq<Step>)
    requires Inv(parse, s) && IsRun(parse, s, steps) && AllRising(After(parse, s, steps))
    ensures Inv(parse, After(parse, s, steps))
    decreases |steps|
  {
    if steps != [] {
      var t := Do(parse, s, steps[0]);
      WritesOnlyAppend(parse, t, steps[1..]);
      KeepInv(parse, s, steps[0]);
      RunKeepsInv(parse, t, steps[1..]);
    }
  }

  // ---- What a call returns ----

  /** In any run whose writes raise the mtimes: a call that hits or reloads returns, file by
    * file, content that was on disk while it ran, and one that does not has seen a read error
    * or settings that do not parse while it ran. */
  lemma CallsSeeTheirOwnTime<S>(parse: string -> Option<S>, operator: File, settings: File, steps: seq<Step>, c: nat)
    requires var s := Start<S>(operator, settings);
             IsRun(parse, s, steps) && AllRising(After(parse, s, steps)) && c in After(parse, s, steps).calls
    ensures var t := After(parse, Start<S>(operator, settings), steps);
            var call := t.calls[c];
            call.phase.Returned? ==> OutcomeOk(parse, t, call, call.phase.outcome)
  {
    RunKeepsInv(parse, Start<S>(operator, settings), steps);
    var t := After(parse, Start<S>(operator, settings), steps);
    assert CallOk(parse, t, t.calls[c]);
  }

  /** A call that no write overlapped returns the parse of the current files if they parse and
    * could be read, and otherwise the last good configuration or, if there is none, the error. */
  lemma QuietCallIsDirectLoad<S>(parse: string -> Option<S>, operator: File, settings: File, steps: seq<Step>, c: nat)
    requires var s := Start<S>(operator, settings);
             IsRun(parse, s, steps) && AllRising(After(parse, s, steps)) && c in After(parse, s, steps).calls
    requires var t := After(parse, Start<S>(operator, settings), steps);
             && t.calls[c].phase.Returned?
             && t.calls[c].operatorFrom == |t.operator| - 1 && t.calls[c].settingsFrom == |t.settings| - 1
    ensures var t := After(parse, Start<S>(operator, settings), steps);
            var now := parse(t.settings[|t.settings| - 1].text);
            match t.calls[c].phase.outcome
            case Hit(r) => r.operatorMd == t.operator[|t.operator| - 1].text && now == Some(r.settings)
            case Reloaded(r) => r.operatorMd == t.operator[|t.operator| - 1].text && now == Some(r.settings)
            case LastGood(_, cause) => cause == Io || now.None?
            case Failed(cause) => cause == Io || now.None?
  {
    CallsSeeTheirOwnTime(parse, operator, settings, steps, c);
  }

  // ---- Which configuration is the last good one ----

  /** The configuration the last successful load of a run read, unless a reset came after it. */
  ghost function LastLoaded<S>(parse: string -> Option<S>, s: State<S>, steps: seq<Step>,
                               soFar: Option<Snapshot<S>>): Option<Snapshot<S>>
    requires s.operator != [] && s.settings != [] && IsRun(parse, s, steps)
    decreases |steps|
  {
    if steps == [] then soFar
    else
      var next := match steps[0]
                  case ResetCache => None
                  case Unlock(c) => if s.calls[c].phase.load.Ok? then Some(s.calls[c].phase.load.value) else soFar
                  case _ => soFar;
      LastLoaded(parse, Do(parse, s, steps[0]), steps[1..], next)
  }

  lemma {:induction false} CacheIsLastLoaded<S>(parse: string -> Option<S>, s: State<S>, steps: seq<Step>)
    requires s.operator != [] && s.settings != [] && IsRun(parse, s, steps)
    ensures After(parse, s, steps).slot.config == LastLoaded(parse, s, steps, s.slot.config)
    decreases |steps|
  {
    if steps != [] { CacheIsLastLoaded(parse, Do(parse, s, steps[0]), steps[1..]); }
  }

  /** After any run: a call whose load fails gets the configuration of the last successful load
    * since the last reset, and the error only if there is none. */
  lemma FailedLoadServesLastGood<S>(parse: string -> Option<S>, operator: File, settings: File, steps: seq<Step>,
                                    c: nat)
    requires IsRun(parse, Start<S>(operator, settings), steps)
    requires var t := After(parse, Start<S>(operator, settings), steps);
             Enabled(t, Unlock(c)) && t.calls[c].phase.load.Err?
    ensures var t := After(parse, Start<S>(operator, settings), steps);
            var u := Do(parse, t, Unlock(c));
            var cause := t.calls[c].phase.load.error;
            && u.slot == t.slot
            && u.calls[c].phase.Returned?
            && u.calls[c].phase.outcome ==
                 (match LastLoaded(parse, Start<S>(operator, settings), steps, None)
                  case Some(good) => LastGood(good, cause)
                  case None => Failed(cause))
  {
    CacheIsLastLoaded(parse, Start<S>(operator, settings), steps);
  }

  // ---- Why the mtimes must rise ----

  lemma RunCons<S>(parse: string -> Option<S>, s: State<S>, step: Step, rest: seq<Step>)
    requires s.operator != [] && s.settings != [] && Enabled(s, step) && IsRun(parse, Do(parse, s, step), rest)
    ensures IsRun(parse, s, [step] + rest) && After(parse, s, [step] + rest) == After(parse, Do(parse, s, step), rest)
  {
    assert ([step] + rest)[1..] == rest;
  }

  /** A call that runs alone from its stats to its hit. */
  lemma LoneHit<S>(parse: string -> Option<S>, s: State<S>, c: nat)
    requires s.operator != [] && s.settings != [] && s.lock.None? && c !in s.calls
    requires FreshEnough(s.slot, s.operator[|s.operator| - 1].mtime, s.settings[|s.settings| - 1].mtime)
    ensures var steps := AloneTo(c, [Lock(c)] + []);
            IsRun(parse, s, steps) && c in After(parse, s, steps).calls
            && After(parse, s, steps).calls[c].phase == Returned(Hit(s.slot.config.value))
  {
    var s1 := Do(parse, s, Begin(c));
    var s2 := Do(parse, s1, StatOperator(c, true));
    var s3 := Do(parse, s2, StatSettings(c, true));
    RunCons(parse, s3, Lock(c), []);
    RunCons(parse, s2, StatSettings(c, true), [Lock(c)] + []);
    RunCons(parse, s1, StatOperator(c, true), [StatSettings(c, true)] + ([Lock(c)] + []));
    RunCons(parse, s, Begin(c), [StatOperator(c, true)] + ([StatSettings(c, true)] + ([Lock(c)] + [])));
  }

  /** A call that runs alone from its stats over its reads to its store. */
  lemma LoneReload<S>(parse: string -> Option<S>, s: State<S>, c: nat)
    requires s.operator != [] && s.settings != [] && s.lock.None? && c !in s.calls
    requires !FreshEnough(s.slot, s.operator[|s.operator| - 1].mtime, s.settings[|s.settings| - 1].mtime)
    requires parse(s.settings[|s.settings| - 1].text).Some?
    ensures var steps := AloneTo(c, [Lock(c)]
                                    + ([ReadOperator(c, true)] + ([ReadSettings(c, true)] + ([Unlock(c)] + []))));
            IsRun(parse, s, steps) && c in After(parse, s, steps).calls
            && After(parse, s, steps).calls[c].phase == Returned(Reloaded(Current(parse, s)))
  {
    var s1 := Do(parse, s, Begin(c));
    var s2 := Do(parse, s1, StatOperator(c, true));
    var s3 := Do(parse, s2, StatSettings(c, true));
    var s4 := Do(parse, s3, Lock(c));
    var s5 := Do(parse, s4, ReadOperator(c, true));
    var s6 := Do(parse, s5, ReadSettings(c, true));
    var load := [ReadOperator(c, true)] + ([ReadSettings(c, true)] + ([Unlock(c)] + []));
    RunCons(parse, s6, Unlock(c), []);
    RunCons(parse, s5, ReadSettings(c, true), [Unlock(c)] + []);
    RunCons(parse, s4, ReadOperator(c, true), [ReadSettings(c, true)] + ([Unlock(c)] + []));
    RunCons(parse, s3, Lock(c), load);
    RunCons(parse, s2, StatSettings(c, true), [Lock(c)] + load);
    RunCons(parse, s1, StatOperator(c, true), [StatSettings(c, true)] + ([Lock(c)] + load));
    RunCons(parse, s, Begin(c), [StatOperator(c, true)] + ([StatSettings(c, true)] + ([Lock(c)] + load)));
  }

  function AloneTo(c: nat, rest: seq<Step>): seq<Step> {
    [Begin(c)] + ([StatOperator(c, true)] + ([StatSettings(c, true)] + rest))
  }

  /** The configuration of the newest versions. */
  function Current<S>(parse: string -> Option<S>, s: State<S>): Snapshot<S>
    requires s.operator != [] && s.settings != [] && parse(s.settings[|s.settings| - 1].text).Some?
  {
    Snapshot(s.operator[|s.operator| - 1].text, parse(s.settings[|s.settings| - 1].text).value,
             |s.operator| - 1, |s.settings| - 1)
  }

  /** What a call that runs alone does, no read failing and the settings parsing. */
  function AloneSteps<S>(s: State<S>, c: nat): seq<Step>
    requires s.operator != [] && s.settings != []
  {
    AloneTo(c, if FreshEnough(s.slot, s.operator[|s.operator| - 1].mtime, s.settings[|s.settings| - 1].mtime)
               then [Lock(c)] + []
               else [Lock(c)] + ([ReadOperator(c, true)] + ([ReadSettings(c, true)] + ([Unlock(c)] + []))))
  }

  /** A write to either file that leaves the mtime within the record is invisible: with the
    * cache fresh before it, a call that runs alone after it is served the old configuration,
    * whatever was written, parsing or not. */
  lemma UnraisedWriteIsInvisible<S>(parse: string -> Option<S>, s: State<S>, write: Step, c: nat)
    requires s.operator != [] && s.settings != [] && s.lock.None? && c !in s.calls
    requires FreshEnough(s.slot, s.operator[|s.operator| - 1].mtime, s.settings[|s.settings| - 1].mtime)
    requires (write.WriteOperator? || write.WriteSettings?) && !Raised(s.slot, write)
    ensures var t := Do(parse, s, write);
            && IsRun(parse, t, AloneSteps(t, c))
            && var u := After(parse, t, AloneSteps(t, c));
               c in u.calls && u.calls[c].phase == Returned(Hit(s.slot.config.value))
  {
    LoneHit(parse, Do(parse, s, write), c);
  }

  /** With the cache fresh: a call that runs alone after a write to either file returns the
    * configuration with the written version if and only if the mtime exceeds that file's
    * record. If it does not, the call is served the old configuration, whatever was written. */
  lemma WriteSeenIffRaised<S>(parse: string -> Option<S>, s: State<S>, write: Step, c: nat)
    requires Inv(parse, s) && s.lock.None? && c !in s.calls
    requires FreshEnough(s.slot, s.operator[|s.operator| - 1].mtime, s.settings[|s.settings| - 1].mtime)
    requires write.WriteOperator? || write.WriteSettings?
    requires var t := Do(parse, s, write); parse(t.settings[|t.settings| - 1].text).Some?
    ensures var t := Do(parse, s, write);
            && IsRun(parse, t, AloneSteps(t, c))
            && var u := After(parse, t, AloneSteps(t, c));
               && c in u.calls && u.calls[c].phase.Returned?
               && (u.calls[c].phase.outcome == Reloaded(Current(parse, t)) <==> Raised(s.slot, write))
               && (u.calls[c].phase.outcome == Hit(s.slot.config.value) <==> !Raised(s.slot, write))
               && s.slot.config.value != Current(parse, t)
  {
    var t := Do(parse, s, write);
    if Raised(s.slot, write) { LoneReload(parse, t, c); } else { UnraisedWriteIsInvisible(parse, s, write, c); }
  }

  /** The write's mtime exceeds what the cache recorded for its file. */
  predicate Raised<S>(slot: Slot<S>, write: Step)
    requires write.WriteOperator? || write.WriteSettings?
  {
    match write
    case WriteOperator(_, mtime) => slot.operatorMtime.None? || mtime > slot.operatorMtime.value
    case WriteSettings(_, mtime) => slot.settingsMtime.None? || mtime > slot.settingsMtime.value
  }
}
