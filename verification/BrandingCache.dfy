/** The branding cache: one optional file, served again while its mtime is the recorded one,
  * with defaults where there is nothing good to serve. */
module BrandingCache {
  import opened Wrappers

  // ---- The mutex-protected part ----

  datatype Slot<S> = Slot(settings: Option<S>, mtime: Option<nat>)

  function Cold<S>(): Slot<S> {
    Slot(None, None)
  }

  predicate Serves<S>(slot: Slot<S>, mtime: Option<nat>) {
    slot.settings.Some? && mtime == slot.mtime
  }

  /** What a caller that is not served stores and returns; `load` matters only if the stat
    * found a file. */
  function Settle<S>(defaults: S, slot: Slot<S>, mtime: Option<nat>, load: Option<S>): (r: (Slot<S>, S)) {
    if mtime.None? then (Slot(Some(defaults), None), defaults)
    else match load
      case Some(s) => (Slot(Some(s), mtime), s)
      case None => if slot.settings.None? then (Slot(Some(defaults), mtime), defaults) else (slot, slot.settings.value)
  }

  class Cache<S> {
    var settings: Option<S>
    var mtime: Option<nat>

    ghost function Contents(): Slot<S>
      reads this
    {
      Slot(settings, mtime)
    }

    constructor ()
      ensures Contents() == Cold()
    {
      settings, mtime := None, None;
    }

    /** cached_settings under the lock. */
    method CachedSettings(defaults: S, stat: Option<nat>, load: Option<S>) returns (r: S)
      modifies this
      ensures (Contents(), r) == if old(settings).Some? && stat == old(mtime)
                                 then (old(Contents()), old(settings).value)
                                 else Settle(defaults, old(Contents()), stat, load)
    {
      if settings.Some? && stat == mtime { return settings.value; }
      var now: S;
      if stat.None? {
        now := defaults;
      } else {
        match load {
          case Some(s) => now := s;
          case None =>
            if settings.None? { now := defaults; } else { return settings.value; }
        }
      }
      settings, mtime := Some(now), stat;
      r := now;
    }

    method ResetCache()
      modifies this
      ensures Contents() == Cold()
    {
      settings, mtime := None, None;
    }
  }

  // ---- Many callers and writers ----

  datatype File = File(text: string, mtime: nat)

  /** What has been at the path: a version of the file, or nothing. */
  type Disk = Option<File>

  /** Cached settings, with the moments of the disk that were statted and then read. */
  datatype Reading<S> = Reading(settings: S, statAt: nat, at: nat)

  /** What has been done to the cache: settings stored, or a reset. */
  datatype Put<S> = Stored(settings: S) | Cleared

  /** A load that failed: the moment of the disk that did not load, and how much had been done to the
    * cache by then. */
  datatype Failure = Failure(at: nat, puts: nat)

  /** `failed`: the failure, if the last good settings are served because of it. */
  datatype Phase<S> =
    | Begun
    | Statted(statAt: nat)
    | Loading(statAt: nat)
    | Returned(settings: S, failed: Option<Failure>)

  datatype Call<S> = Call(phase: Phase<S>, since: nat)

  /** `puts` is all that has been done to the cache, oldest first. */
  datatype State<S> = State(
    disk: seq<Disk>,
    slot: Slot<Reading<S>>,
    lock: Option<nat>,
    calls: map<nat, Call<S>>,
    puts: seq<Put<S>>)

  datatype Step =
    | Begin(call: nat)
    | Stat(call: nat)
    | Lock(call: nat)
    | Load(call: nat)
    | Write(text: string, mtime: nat)
    | Remove
    | ResetCache

  function MtimeOf(d: Disk): Option<nat> {
    if d.Some? then Some(d.value.mtime) else None
  }

  /** load_settings on one moment of the disk; None for every error. */
  function LoadSettings<S>(parse: string -> Option<S>, d: Disk): Option<S> {
    if d.Some? then parse(d.value.text) else None
  }

  /** What the branding should be at one moment of the disk. */
  function Direct<S>(parse: string -> Option<S>, defaults: S, d: Disk): S {
    match LoadSettings(parse, d)
    case Some(s) => s
    case None => defaults
  }

  /** A stat is always of a moment the disk has had. */
  predicate Enabled<S>(s: State<S>, step: Step) {
    match step
    case Begin(c) => c !in s.calls
    case Stat(c) => c in s.calls && s.calls[c].phase.Begun?
    case Lock(c) => s.lock.None? && c in s.calls && s.calls[c].phase.Statted? && s.calls[c].phase.statAt < |s.disk|
    case Load(c) => c in s.calls && s.calls[c].phase.Loading? && s.calls[c].phase.statAt < |s.disk|
    case Write(_, _) => true
    case Remove => true
    case ResetCache => s.lock.None?
  }

  function Goto<S>(s: State<S>, c: nat, p: Phase<S>): State<S>
    requires c in s.calls
  {
    s.(calls := s.calls[c := s.calls[c].(phase := p)])
  }

  function Do<S>(parse: string -> Option<S>, defaults: S, s: State<S>, step: Step): State<S>
    requires Enabled(s, step) && s.disk != []
  {
    var now := |s.disk| - 1;
    match step
    case Begin(c) => s.(calls := s.calls[c := Call(Begun, now)])
    case Stat(c) => Goto(s, c, Statted(now))
    case Lock(c) =>
      var statAt := s.calls[c].phase.statAt;
      var mtime := MtimeOf(s.disk[statAt]);
      if Serves(s.slot, mtime) then Goto(s, c, Returned(s.slot.settings.value.settings, None))
      else if mtime.None? then
        var (slot, reading) := Settle(Reading(defaults, statAt, statAt), s.slot, None, None);
        Goto(s, c, Returned(reading.settings, None)).(slot := slot, puts := s.puts + [Stored(defaults)])
      else Goto(s, c, Loading(statAt)).(lock := Some(c))
    case Load(c) =>
      var statAt := s.calls[c].phase.statAt;
      var load := match LoadSettings(parse, s.disk[now])
                  case Some(v) => Some(Reading(v, statAt, now))
                  case None => None;
      var (slot, reading) := Settle(Reading(defaults, statAt, now), s.slot, MtimeOf(s.disk[statAt]), load);
      var failed := if load.None? && s.slot.settings.Some? then Some(Failure(now, |s.puts|)) else None;
      var puts := if load.Some? then [Stored(load.value.settings)]
                  else if s.slot.settings.None? then [Stored(defaults)] else [];
      Goto(s, c, Returned(reading.settings, failed)).(slot := slot, lock := None, puts := s.puts + puts)
    case Write(text, mtime) => s.(disk := s.disk + [Some(File(text, mtime))])
    case Remove => s.(disk := s.disk + [None])
    case ResetCache => s.(slot := Cold(), puts := s.puts + [Cleared])
  }

  ghost predicate IsRun<S>(parse: string -> Option<S>, defaults: S, s: State<S>, steps: seq<Step>)
    requires s.disk != []
    decreases |steps|
  {
    steps == [] || (Enabled(s, steps[0]) && IsRun(parse, defaults, Do(parse, defaults, s, steps[0]), steps[1..]))
  }

  /** The state after the steps, up to the first that is not enabled: after all of them, if
    * they are a run. */
  ghost function After<S>(parse: string -> Option<S>, defaults: S, s: State<S>, steps: seq<Step>): (r: State<S>)
    requires s.disk != []
    ensures r.disk != []
    decreases |steps|
  {
    if steps == [] || !Enabled(s, steps[0]) then s
    else After(parse, defaults, Do(parse, defaults, s, steps[0]), steps[1..])
  }

  function Start<S>(disk: Disk): State<S> {
    State([disk], Cold(), None, map[], [])
  }

  // ---- The invariant ----

  /** No two versions have the same mtime; since the cache tests for equality, they need not
    * rise. */
  ghost predicate Distinct(disk: seq<Disk>) {
    forall i, j :: 0 <= i < j < |disk| && disk[i].Some? && disk[j].Some? ==> disk[i].value.mtime != disk[j].value.mtime
  }

  /** What the cache last stored, unless a reset came after it. */
  function LastStored<S>(puts: seq<Put<S>>): Option<S> {
    if puts == [] || puts[|puts| - 1].Cleared? then None else Some(puts[|puts| - 1].settings)
  }

  ghost predicate SlotOk<S>(parse: string -> Option<S>, defaults: S, s: State<S>) {
    match s.slot.settings
    case None => s.slot == Cold() && LastStored(s.puts).None?
    case Some(r) =>
      && LastStored(s.puts) == Some(r.settings)
      && r.statAt <= r.at < |s.disk|
      && s.slot.mtime == MtimeOf(s.disk[r.statAt])
      && (s.disk[r.statAt].None? ==> r.at == r.statAt)
      && r.settings == Direct(parse, defaults, s.disk[r.at])
  }

  /** The settings of some moment since the call began. */
  ghost predicate Reflects<S>(parse: string -> Option<S>, defaults: S, s: State<S>, settings: S, since: nat) {
    exists k :: since <= k < |s.disk| && settings == Direct(parse, defaults, s.disk[k])
  }

  ghost predicate AnswerOk<S>(parse: string -> Option<S>, defaults: S, s: State<S>, call: Call<S>)
    requires call.phase.Returned?
  {
    match call.phase.failed
    case None => Reflects(parse, defaults, s, call.phase.settings, call.since)
    case Some(f) =>
      && call.since <= f.at < |s.disk| && LoadSettings(parse, s.disk[f.at]).None?
      && f.puts <= |s.puts| && LastStored(s.puts[..f.puts]) == Some(call.phase.settings)
      && Reflects(parse, defaults, s, call.phase.settings, 0)
  }

  ghost predicate CallOk<S>(parse: string -> Option<S>, defaults: S, s: State<S>, call: Call<S>) {
    && call.since < |s.disk|
    && match call.phase
       case Begun => true
       case Statted(at) => call.since <= at < |s.disk|
       case Loading(at) => call.since <= at < |s.disk| && s.disk[at].Some?
       case Returned(_, _) => AnswerOk(parse, defaults, s, call)
  }

  ghost predicate Inv<S>(parse: string -> Option<S>, defaults: S, s: State<S>) {
    && s.disk != []
    && SlotOk(parse, defaults, s)
    && forall c :: c in s.calls ==> CallOk(parse, defaults, s, s.calls[c])
  }

  lemma LaterKeepsCall<S>(parse: string -> Option<S>, defaults: S, s: State<S>, t: State<S>, call: Call<S>)
    requires CallOk(parse, defaults, s, call) && s.disk <= t.disk && s.puts <= t.puts
    ensures CallOk(parse, defaults, t, call)
  {
    if call.phase.Returned? {
      var from := if call.phase.failed.None? then call.since else 0;
      if call.phase.failed.Some? {
        assert t.puts[..call.phase.failed.value.puts] == s.puts[..call.phase.failed.value.puts];
      }
      var k :| from <= k < |s.disk| && call.phase.settings == Direct(parse, defaults, s.disk[k]);
      assert t.disk[k] == s.disk[k];
    }
  }

  /** What the cache serves for a stat was on disk at that stat or later. */
  lemma ServedIsSince<S>(parse: string -> Option<S>, defaults: S, s: State<S>, statAt: nat)
    requires SlotOk(parse, defaults, s) && Distinct(s.disk) && statAt < |s.disk|
    requires Serves(s.slot, MtimeOf(s.disk[statAt]))
    ensures Reflects(parse, defaults, s, s.slot.settings.value.settings, statAt)
  {
    var r := s.slot.settings.value;
    if s.disk[statAt].Some? {
      assert statAt == r.statAt;
      assert r.settings == Direct(parse, defaults, s.disk[r.at]);
    } else {
      assert r.settings == Direct(parse, defaults, s.disk[statAt]);
    }
  }

  lemma KeepCall<S>(parse: string -> Option<S>, defaults: S, s: State<S>, step: Step)
    requires Inv(parse, defaults, s) && Distinct(s.disk) && Enabled(s, step) && (step.Lock? || step.Load?)
    ensures var t := Do(parse, defaults, s, step); CallOk(parse, defaults, t, t.calls[step.call])
  {
    var call, now := s.calls[step.call], |s.disk| - 1;
    var t := Do(parse, defaults, s, step);
    if step.Lock? {
      if Serves(s.slot, MtimeOf(s.disk[call.phase.statAt])) {
        ServedIsSince(parse, defaults, s, call.phase.statAt);
        var k :| call.phase.statAt <= k < |s.disk|
                 && s.slot.settings.value.settings == Direct(parse, defaults, s.disk[k]);
        assert call.since <= k;
      } else if s.disk[call.phase.statAt].None? {
        assert defaults == Direct(parse, defaults, s.disk[call.phase.statAt]);
        assert Reflects(parse, defaults, t, defaults, call.since);
      }
    } else if LoadSettings(parse, s.disk[now]).Some? || s.slot.settings.None? {
      assert t.calls[step.call].phase.settings == Direct(parse, defaults, s.disk[now]);
    } else {
      var r := s.slot.settings.value;
      assert r.settings == Direct(parse, defaults, s.disk[r.at]);
      assert t.puts[..|s.puts|] == s.puts;
    }
  }

  lemma DiskGrows<S>(parse: string -> Option<S>, defaults: S, s: State<S>, step: Step)
    requires s.disk != [] && Enabled(s, step)
    ensures s.disk <= Do(parse, defaults, s, step).disk && s.puts <= Do(parse, defaults, s, step).puts
    ensures Distinct(Do(parse, defaults, s, step).disk) ==> Distinct(s.disk)
  {
  }

  lemma KeepSlot<S>(parse: string -> Option<S>, defaults: S, s: State<S>, step: Step)
    requires Inv(parse, defaults, s) && Enabled(s, step)
    ensures SlotOk(parse, defaults, Do(parse, defaults, s, step))
  {
    if step.Load? { assert CallOk(parse, defaults, s, s.calls[step.call]); }
  }

  lemma KeepInv<S>(parse: string -> Option<S>, defaults: S, s: State<S>, step: Step)
    requires Inv(parse, defaults, s) && Enabled(s, step) && Distinct(Do(parse, defaults, s, step).disk)
    ensures Inv(parse, defaults, Do(parse, defaults, s, step))
  {
    var t := Do(parse, defaults, s, step);
    DiskGrows(parse, defaults, s, step);
    KeepSlot(parse, defaults, s, step);
    forall c | c in t.calls ensures CallOk(parse, defaults, t, t.calls[c]) {
      if (step.Lock? || step.Load?) && step.call == c {
        KeepCall(parse, defaults, s, step);
      } else if c in s.calls {
        LaterKeepsCall(parse, defaults, s, t, s.calls[c]);
      }
    }
  }

  lemma {:induction false} WritesOnlyAppend<S>(parse: string -> Option<S>, defaults: S, s: State<S>, steps: seq<Step>)
    requires s.disk != [] && IsRun(parse, defaults, s, steps)
    ensures s.disk <= After(parse, defaults, s, steps).disk
    decreases |steps|
  {
    if steps != [] { WritesOnlyAppend(parse, defaults, Do(parse, defaults, s, steps[0]), steps[1..]); }
  }

  lemma {:induction false} RunKeepsInv<S>(parse: string -> Option<S>, defaults: S, s: State<S>, steps: seq<Step>)
    requires Inv(parse, defaults, s) && IsRun(parse, defaults, s, steps)
    requires Distinct(After(parse, defaults, s, steps).disk)
    ensures Inv(parse, defaults, After(parse, defaults, s, steps))
    decreases |steps|
  {
    if steps != [] {
      var t := Do(parse, defaults, s, steps[0]);
      WritesOnlyAppend(parse, defaults, t, steps[1..]);
      KeepInv(parse, defaults, s, steps[0]);
      RunKeepsInv(parse, defaults, t, steps[1..]);
    }
  }

  /** Every returned call, however writers, removals and resets raced with it: its settings are
    * those of the disk at some moment while it ran, or the disk did not load at some such
    * moment and it got the last good ones. */
  lemma CallsSeeTheirOwnTime<S>(parse: string -> Option<S>, defaults: S, disk: Disk, steps: seq<Step>, c: nat)
    requires IsRun(parse, defaults, Start(disk), steps) && Distinct(After(parse, defaults, Start(disk), steps).disk)
    requires c in After(parse, defaults, Start(disk), steps).calls
    ensures var t := After(parse, defaults, Start(disk), steps);
            t.calls[c].phase.Returned? ==> AnswerOk(parse, defaults, t, t.calls[c])
  {
    RunKeepsInv(parse, defaults, Start(disk), steps);
    var t := After(parse, defaults, Start(disk), steps);
    assert CallOk(parse, defaults, t, t.calls[c]);
  }

  /** A call that nothing on disk overlapped returns what the file says now, and the defaults
    * when there is no file; only a file that does not load can get it anything else. */
  lemma QuietCallIsDirectLoad<S>(parse: string -> Option<S>, defaults: S, disk: Disk, steps: seq<Step>, c: nat)
    requires IsRun(parse, defaults, Start(disk), steps) && Distinct(After(parse, defaults, Start(disk), steps).disk)
    requires var t := After(parse, defaults, Start(disk), steps);
             c in t.calls && t.calls[c].phase.Returned? && t.calls[c].since == |t.disk| - 1
    ensures var t := After(parse, defaults, Start(disk), steps);
            var now := t.disk[|t.disk| - 1];
            t.calls[c].phase.settings == Direct(parse, defaults, now)
            || (t.calls[c].phase.failed.Some? && LoadSettings(parse, now).None?)
  {
    CallsSeeTheirOwnTime(parse, defaults, disk, steps, c);
  }

  /** The slot holds what was last stored, and only calls whose stat found a file load. */
  ghost predicate Holds<S>(s: State<S>) {
    && s.disk != []
    && (match s.slot.settings
        case None => LastStored(s.puts).None?
        case Some(r) => LastStored(s.puts) == Some(r.settings))
    && forall c :: c in s.calls && s.calls[c].phase.Loading? ==>
         s.calls[c].phase.statAt < |s.disk| && s.disk[s.calls[c].phase.statAt].Some?
  }

  lemma KeepHolds<S>(parse: string -> Option<S>, defaults: S, s: State<S>, step: Step)
    requires Holds(s) && Enabled(s, step)
    ensures Holds(Do(parse, defaults, s, step))
  {
    assert s.puts + [] == s.puts;
  }

  lemma {:induction false} RunHolds<S>(parse: string -> Option<S>, defaults: S, s: State<S>, steps: seq<Step>)
    requires Holds(s) && IsRun(parse, defaults, s, steps)
    ensures Holds(After(parse, defaults, s, steps))
    decreases |steps|
  {
    if steps != [] {
      KeepHolds(parse, defaults, s, steps[0]);
      RunHolds(parse, defaults, Do(parse, defaults, s, steps[0]), steps[1..]);
    }
  }

  /** After any run, whatever the mtimes: a call whose load fails gets the settings that were last
    * stored since the last reset, and leaves the cache alone; only if there are none does it get the
    * defaults, which it stores. */
  lemma FailedLoadServesLastGood<S>(parse: string -> Option<S>, defaults: S, disk: Disk, steps: seq<Step>, c: nat)
    requires IsRun(parse, defaults, Start(disk), steps)
    requires var t := After(parse, defaults, Start(disk), steps);
             Enabled(t, Load(c)) && LoadSettings(parse, t.disk[|t.disk| - 1]).None?
    ensures var t := After(parse, defaults, Start(disk), steps);
            var u := Do(parse, defaults, t, Load(c));
            && u.calls[c].phase.Returned?
            && match LastStored(t.puts)
               case Some(good) => u.calls[c].phase.settings == good && u.slot == t.slot && u.puts == t.puts
               case None => u.calls[c].phase.settings == defaults && LastStored(u.puts) == Some(defaults)
  {
    RunHolds(parse, defaults, Start(disk), steps);
    var t := After(parse, defaults, Start(disk), steps);
    assert t.puts + [] == t.puts;
  }

  // ---- Why the mtimes must differ ----

  lemma RunCons<S>(parse: string -> Option<S>, defaults: S, s: State<S>, step: Step, rest: seq<Step>)
    requires s.disk != [] && Enabled(s, step) && IsRun(parse, defaults, Do(parse, defaults, s, step), rest)
    ensures IsRun(parse, defaults, s, [step] + rest)
    ensures After(parse, defaults, s, [step] + rest) == After(parse, defaults, Do(parse, defaults, s, step), rest)
  {
    assert ([step] + rest)[1..] == rest;
  }

  /** A call that runs alone on a disk that has a file. */
  function AloneSteps<S>(s: State<S>, c: nat): seq<Step>
    requires s.disk != []
  {
    [Begin(c)]
    + ([Stat(c)] + ([Lock(c)] + if Serves(s.slot, MtimeOf(s.disk[|s.disk| - 1])) then [] else [Load(c)] + []))
  }

  lemma LoneCall<S>(parse: string -> Option<S>, defaults: S, s: State<S>, c: nat)
    requires s.disk != [] && s.lock.None? && c !in s.calls
    requires s.disk[|s.disk| - 1].Some? && LoadSettings(parse, s.disk[|s.disk| - 1]).Some?
    ensures IsRun(parse, defaults, s, AloneSteps(s, c))
    ensures var u := After(parse, defaults, s, AloneSteps(s, c));
            && c in u.calls
            && u.calls[c].phase == Returned(if Serves(s.slot, MtimeOf(s.disk[|s.disk| - 1]))
                                            then s.slot.settings.value.settings
                                            else LoadSettings(parse, s.disk[|s.disk| - 1]).value, None)
  {
    var s1 := Do(parse, defaults, s, Begin(c));
    var s2 := Do(parse, defaults, s1, Stat(c));
    var s3 := Do(parse, defaults, s2, Lock(c));
    var last := if Serves(s.slot, MtimeOf(s.disk[|s.disk| - 1])) then [] else [Load(c)] + [];
    if last != [] { RunCons(parse, defaults, s3, Load(c), []); }
    RunCons(parse, defaults, s2, Lock(c), last);
    RunCons(parse, defaults, s1, Stat(c), [Lock(c)] + last);
    RunCons(parse, defaults, s, Begin(c), [Stat(c)] + ([Lock(c)] + last));
  }

  /** With anything cached: a call that runs alone after a write that loads returns what was
    * written if and only if the mtime differs from the recorded one, or the cached settings
    * happen to be the same. */
  lemma WriteSeenIffDistinct<S>(parse: string -> Option<S>, defaults: S, s: State<S>, text: string, mtime: nat, c: nat)
    requires s.disk != [] && s.lock.None? && c !in s.calls && s.slot.settings.Some? && parse(text).Some?
    ensures var t := Do(parse, defaults, s, Write(text, mtime));
            && IsRun(parse, defaults, t, AloneSteps(t, c))
            && var u := After(parse, defaults, t, AloneSteps(t, c));
               && c in u.calls && u.calls[c].phase.Returned?
               && (u.calls[c].phase.settings == parse(text).value <==>
                     s.slot.mtime != Some(mtime) || s.slot.settings.value.settings == parse(text).value)
               && (s.slot.mtime == Some(mtime) ==> u.calls[c].phase.settings == s.slot.settings.value.settings)
  {
    LoneCall(parse, defaults, Do(parse, defaults, s, Write(text, mtime)), c);
  }

  /** Two writes with one mtime: the second is never seen. */
  lemma SecondWriteUnseen<S>(parse: string -> Option<S>, defaults: S, disk: Disk, first: string, second: string,
                             mtime: nat)
    requires parse(first).Some? && parse(second).Some? && parse(first) != parse(second)
    ensures exists steps, more ::
              && IsRun(parse, defaults, Start(disk), [Write(first, mtime)] + steps)
              && var s := After(parse, defaults, Start(disk), [Write(first, mtime)] + steps);
                 && IsRun(parse, defaults, s, [Write(second, mtime)] + more)
                 && var t := After(parse, defaults, s, [Write(second, mtime)] + more);
                    1 in t.calls && t.calls[1].phase == Returned(parse(first).value, None)
  {
    var s1 := Do(parse, defaults, Start(disk), Write(first, mtime));
    LoneCall(parse, defaults, s1, 0);
    RunCons(parse, defaults, Start(disk), Write(first, mtime), AloneSteps(s1, 0));
    var s := After(parse, defaults, s1, AloneSteps(s1, 0));
    AloneLeaves(parse, defaults, s1, 0);
    var s2 := Do(parse, defaults, s, Write(second, mtime));
    LoneCall(parse, defaults, s2, 1);
    RunCons(parse, defaults, s, Write(second, mtime), AloneSteps(s2, 1));
  }

  /** It leaves the lock free and, on a cold cache, what it loaded. */
  lemma AloneLeaves<S>(parse: string -> Option<S>, defaults: S, s: State<S>, c: nat)
    requires s.disk != [] && s.lock.None? && c !in s.calls && s.slot == Cold()
    requires s.disk[|s.disk| - 1].Some? && LoadSettings(parse, s.disk[|s.disk| - 1]).Some?
    ensures IsRun(parse, defaults, s, AloneSteps(s, c))
    ensures var u := After(parse, defaults, s, AloneSteps(s, c));
            && u.lock.None? && u.disk == s.disk && u.calls.Keys == s.calls.Keys + {c}
            && u.slot.settings.Some? && u.slot.mtime == MtimeOf(s.disk[|s.disk| - 1])
            && u.slot.settings.value.settings == LoadSettings(parse, s.disk[|s.disk| - 1]).value
  {
    LoneCall(parse, defaults, s, c);
    var s1 := Do(parse, defaults, s, Begin(c));
    var s2 := Do(parse, defaults, s1, Stat(c));
    var s3 := Do(parse, defaults, s2, Lock(c));
    RunCons(parse, defaults, s3, Load(c), []);
    RunCons(parse, defaults, s2, Lock(c), [Load(c)] + []);
    RunCons(parse, defaults, s1, Stat(c), [Lock(c)] + ([Load(c)] + []));
    RunCons(parse, defaults, s, Begin(c), [Stat(c)] + ([Lock(c)] + ([Load(c)] + [])));
  }
}
