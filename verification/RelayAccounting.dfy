/** What any number of concurrent relays keep, with rollbacks at any point: every
  * publish and every attempt of a row is accounted for, and open relay transactions
  * hold disjoint rows. */
module RelayAccounting {
  import opened Wrappers
  import opened Topology
  import opened EventPlane
  import opened Safety

  ghost function OkIn(d: Drain, r: nat): nat {
    if PublishedIn(d, r) then 1 else 0
  }

  ghost function SelectedIn(d: Drain, r: nat): nat {
    if Selected(d, r) then 1 else 0
  }

  /** Over the drains with the given status: how many published row r with result Ok. */
  ghost function OkPublishes(drains: seq<Drain>, status: DrainStatus, r: nat): nat {
    if drains == [] then 0
    else OkPublishes(drains[..|drains| - 1], status, r)
         + (if drains[|drains| - 1].status == status then OkIn(drains[|drains| - 1], r) else 0)
  }

  /** Over the drains with the given status: how many selected row r. */
  ghost function Selections(drains: seq<Drain>, status: DrainStatus, r: nat): nat {
    if drains == [] then 0
    else Selections(drains[..|drains| - 1], status, r)
         + (if drains[|drains| - 1].status == status then SelectedIn(drains[|drains| - 1], r) else 0)
  }

  ghost function Share(d: Drain, status: DrainStatus, n: nat): nat {
    if d.status == status then n else 0
  }

  lemma {:induction false} OkPublishesUpdate(drains: seq<Drain>, d: nat, x: Drain, status: DrainStatus, r: nat)
    requires d < |drains|
    ensures OkPublishes(drains[d := x], status, r) + Share(drains[d], status, OkIn(drains[d], r))
         == OkPublishes(drains, status, r) + Share(x, status, OkIn(x, r))
  {
    var m := |drains| - 1;
    if d == m {
      assert drains[d := x][..m] == drains[..m];
    } else {
      assert drains[d := x][..m] == drains[..m][d := x];
      OkPublishesUpdate(drains[..m], d, x, status, r);
    }
  }

  lemma {:induction false} SelectionsUpdate(drains: seq<Drain>, d: nat, x: Drain, status: DrainStatus, r: nat)
    requires d < |drains|
    ensures Selections(drains[d := x], status, r) + Share(drains[d], status, SelectedIn(drains[d], r))
         == Selections(drains, status, r) + Share(x, status, SelectedIn(x, r))
  {
    var m := |drains| - 1;
    if d == m {
      assert drains[d := x][..m] == drains[..m];
    } else {
      assert drains[d := x][..m] == drains[..m][d := x];
      SelectionsUpdate(drains[..m], d, x, status, r);
    }
  }

  // ---- The invariant ----

  ghost predicate DrainOk(d: Drain) {
    && Distinct(d.rows) && |d.oks| <= |d.rows|
    && (d.status == Committed ==> |d.oks| == |d.rows|)
  }

  ghost predicate LocksOk(s: State) {
    && (forall d :: 0 <= d < |s.drains| ==> DrainOk(s.drains[d]))
    && (forall d, k: nat :: 0 <= d < |s.drains| && k < |s.drains[d].rows| ==> s.drains[d].rows[k] < |s.rows|)
    && (forall d, k: nat :: 0 <= d < |s.drains| && s.drains[d].status == Active && k < |s.drains[d].rows|
          ==> s.rows[s.drains[d].rows[k]].lock == Some(d))
    && (forall r :: 0 <= r < |s.rows| && s.rows[r].lock.Some? ==>
          ActiveDrain(s, s.rows[r].lock.value) && Selected(s.drains[s.rows[r].lock.value], r) && !s.rows[r].published)
  }

  ghost predicate RowAccounted(s: State, r: nat)
    requires r < |s.rows|
  {
    && s.rows[r].okPublishes == OkPublishes(s.drains, Committed, r) + OkPublishes(s.drains, Aborted, r)
                                + OkPublishes(s.drains, Active, r)
    && OkPublishes(s.drains, Committed, r) == (if s.rows[r].published then 1 else 0)
    && s.rows[r].attempts == Selections(s.drains, Committed, r)
  }

  ghost predicate Accounted(s: State) {
    && LocksOk(s)
    && forall r: nat :: r < |s.rows| ==> RowAccounted(s, r)
  }

  // ---- Each step keeps it ----

  lemma KeepLocksOk(cfg: Config, s: State, step: Step)
    requires Enabled(cfg, s, step) && LocksOk(s)
    requires step.Select? || step.Publish? || step.CommitDrain? || step.AbortDrain? || step.StageRow?
    ensures LocksOk(Do(cfg, s, step))
  {
    var t := Do(cfg, s, step);
    match step
    case Select(rs) => SelectKeepsLocks(cfg, s, rs);
    case Publish(d, ok, delivered) => PublishKeepsLocks(cfg, s, d, ok, delivered);
    case CommitDrain(d) => UnlockKeepsLocks(s, t, d);
    case AbortDrain(d) => UnlockKeepsLocks(s, t, d);
    case StageRow(_) =>
  }

  lemma SelectKeepsLocks(cfg: Config, s: State, rs: seq<nat>)
    requires Enabled(cfg, s, Select(rs)) && LocksOk(s)
    ensures LocksOk(Do(cfg, s, Select(rs)))
  {
    var t, new_ := Do(cfg, s, Select(rs)), |s.drains|;
    forall d | 0 <= d < |t.drains|
      ensures t.drains[d] == if d < new_ then s.drains[d] else Drain(rs, [], Active)
    { }
    forall d, k: nat | 0 <= d < |t.drains| && t.drains[d].status == Active && k < |t.drains[d].rows|
      ensures t.rows[t.drains[d].rows[k]].lock == Some(d)
    {
      if d < new_ { assert s.rows[s.drains[d].rows[k]].lock == Some(d); }
    }
    forall r | 0 <= r < |t.rows| && t.rows[r].lock.Some?
      ensures var d := t.rows[r].lock.value; ActiveDrain(t, d) && Selected(t.drains[d], r) && !t.rows[r].published
    {
      if r in rs { assert t.drains[new_].rows == rs; } else { assert t.rows[r] == s.rows[r]; }
    }
  }

  lemma PublishKeepsLocks(cfg: Config, s: State, d: nat, ok: bool, delivered: bool)
    requires Enabled(cfg, s, Publish(d, ok, delivered)) && LocksOk(s)
    ensures LocksOk(Do(cfg, s, Publish(d, ok, delivered)))
  {
    var t := Do(cfg, s, Publish(d, ok, delivered));
    forall e | 0 <= e < |t.drains|
      ensures DrainOk(t.drains[e]) && t.drains[e].rows == s.drains[e].rows && t.drains[e].status == s.drains[e].status
    { }
    forall r | 0 <= r < |t.rows|
      ensures t.rows[r].lock == s.rows[r].lock && t.rows[r].published == s.rows[r].published
    { }
  }

  /** Ending drain d frees its rows and no others. */
  lemma UnlockKeepsLocks(s: State, t: State, d: nat)
    requires LocksOk(s) && ActiveDrain(s, d) && |t.rows| == |s.rows| && |t.drains| == |s.drains|
    requires DrainOk(t.drains[d]) && t.drains[d].status != Active && t.drains[d].rows == s.drains[d].rows
    requires forall e :: 0 <= e < |s.drains| && e != d ==> t.drains[e] == s.drains[e]
    requires forall r :: 0 <= r < |s.rows| ==>
               if Selected(s.drains[d], r) then t.rows[r].lock.None? else t.rows[r] == s.rows[r]
    ensures LocksOk(t)
  {
    forall e, k: nat | 0 <= e < |t.drains| && t.drains[e].status == Active && k < |t.drains[e].rows|
      ensures t.rows[t.drains[e].rows[k]].lock == Some(e)
    {
      assert s.rows[s.drains[e].rows[k]].lock == Some(e);
    }
  }

  /** A drain that has selected r once cannot publish it twice. */
  lemma PublishAdds(d: Drain, ok: bool, r: nat)
    requires DrainOk(d) && |d.oks| < |d.rows|
    ensures OkIn(d.(oks := d.oks + [ok]), r) == OkIn(d, r) + (if ok && d.rows[|d.oks|] == r then 1 else 0)
  {
    var e := d.(oks := d.oks + [ok]);
    var n := |d.oks|;
    if PublishedIn(d, r) {
      var k: nat :| k < |d.oks| && k < |d.rows| && d.rows[k] == r && d.oks[k];
      assert e.rows[k] == r && e.oks[k];
      assert d.rows[n] != r;
    } else if ok && d.rows[n] == r {
      assert e.oks[n];
    }
  }

  lemma SelectAccounted(cfg: Config, s: State, rs: seq<nat>, r: nat)
    requires Enabled(cfg, s, Select(rs)) && Accounted(s) && r < |s.rows|
    ensures RowAccounted(Do(cfg, s, Select(rs)), r)
  {
    var t := Do(cfg, s, Select(rs));
    assert RowAccounted(s, r);
    assert t.drains[..|t.drains| - 1] == s.drains;
    assert !PublishedIn(t.drains[|s.drains|], r);
  }

  lemma PublishAccounted(cfg: Config, s: State, d: nat, ok: bool, delivered: bool, r: nat)
    requires Enabled(cfg, s, Publish(d, ok, delivered)) && Accounted(s) && r < |s.rows|
    ensures RowAccounted(Do(cfg, s, Publish(d, ok, delivered)), r)
  {
    var t := Do(cfg, s, Publish(d, ok, delivered));
    assert RowAccounted(s, r);
    PublishAdds(s.drains[d], ok, r);
    UpdateAll(s.drains, d, t.drains[d], r);
    assert Selected(t.drains[d], r) <==> Selected(s.drains[d], r);
  }

  lemma CommitAccounted(cfg: Config, s: State, d: nat, r: nat)
    requires Enabled(cfg, s, CommitDrain(d)) && Accounted(s) && r < |s.rows|
    ensures RowAccounted(Do(cfg, s, CommitDrain(d)), r)
  {
    var t := Do(cfg, s, CommitDrain(d));
    assert RowAccounted(s, r);
    UpdateAll(s.drains, d, t.drains[d], r);
    assert PublishedIn(s.drains[d], r) ==> Selected(s.drains[d], r);
    if Selected(s.drains[d], r) {
      var k :| 0 <= k < |s.drains[d].rows| && s.drains[d].rows[k] == r;
      assert s.rows[r].lock == Some(d);
    }
    assert PublishedIn(t.drains[d], r) <==> PublishedIn(s.drains[d], r);
  }

  lemma AbortAccounted(cfg: Config, s: State, d: nat, r: nat)
    requires Enabled(cfg, s, AbortDrain(d)) && Accounted(s) && r < |s.rows|
    ensures RowAccounted(Do(cfg, s, AbortDrain(d)), r)
  {
    var t := Do(cfg, s, AbortDrain(d));
    assert RowAccounted(s, r);
    UpdateAll(s.drains, d, t.drains[d], r);
    assert PublishedIn(t.drains[d], r) <==> PublishedIn(s.drains[d], r);
  }

  lemma UpdateAll(drains: seq<Drain>, d: nat, x: Drain, r: nat)
    requires d < |drains|
    ensures forall status :: OkPublishes(drains[d := x], status, r) + Share(drains[d], status, OkIn(drains[d], r))
                          == OkPublishes(drains, status, r) + Share(x, status, OkIn(x, r))
    ensures forall status :: Selections(drains[d := x], status, r) + Share(drains[d], status, SelectedIn(drains[d], r))
                          == Selections(drains, status, r) + Share(x, status, SelectedIn(x, r))
  {
    forall status
      ensures OkPublishes(drains[d := x], status, r) + Share(drains[d], status, OkIn(drains[d], r))
           == OkPublishes(drains, status, r) + Share(x, status, OkIn(x, r))
      ensures Selections(drains[d := x], status, r) + Share(drains[d], status, SelectedIn(drains[d], r))
           == Selections(drains, status, r) + Share(x, status, SelectedIn(x, r))
    {
      OkPublishesUpdate(drains, d, x, status, r);
      SelectionsUpdate(drains, d, x, status, r);
    }
  }

  /** Nothing has selected a row that is not there yet. */
  lemma {:induction false} NotYet(drains: seq<Drain>, status: DrainStatus, r: nat)
    requires forall d, k: nat :: 0 <= d < |drains| && k < |drains[d].rows| ==> drains[d].rows[k] < r
    ensures OkPublishes(drains, status, r) == 0 && Selections(drains, status, r) == 0
  {
    if drains != [] {
      var last := drains[|drains| - 1];
      NotYet(drains[..|drains| - 1], status, r);
      assert !Selected(last, r) && !PublishedIn(last, r);
    }
  }

  lemma StageAccounted(cfg: Config, s: State, key: Key, r: nat)
    requires Accounted(s) && r <= |s.rows|
    ensures RowAccounted(Do(cfg, s, StageRow(key)), r)
  {
    if r < |s.rows| {
      assert RowAccounted(s, r);
    } else {
      NotYet(s.drains, Committed, r);
      NotYet(s.drains, Aborted, r);
      NotYet(s.drains, Active, r);
    }
  }

  lemma KeepAccounted(cfg: Config, s: State, step: Step)
    requires Enabled(cfg, s, step) && Accounted(s)
    ensures Accounted(Do(cfg, s, step))
  {
    var t := Do(cfg, s, step);
    if step.Select? || step.Publish? || step.CommitDrain? || step.AbortDrain? {
      KeepLocksOk(cfg, s, step);
      forall r: nat | r < |t.rows| ensures RowAccounted(t, r) {
        match step
        case Select(rs) => SelectAccounted(cfg, s, rs, r);
        case Publish(d, ok, delivered) => PublishAccounted(cfg, s, d, ok, delivered, r);
        case CommitDrain(d) => CommitAccounted(cfg, s, d, r);
        case AbortDrain(d) => AbortAccounted(cfg, s, d, r);
      }
    } else if step.StageRow? {
      KeepLocksOk(cfg, s, step);
      forall r: nat | r < |t.rows| ensures RowAccounted(t, r) { StageAccounted(cfg, s, step.key, r); }
    } else {
      assert t.rows == s.rows && t.drains == s.drains;
      forall r: nat | r < |t.rows| ensures RowAccounted(t, r) { assert RowAccounted(s, r); }
    }
  }

  lemma {:induction false} RunKeepsAccounts(cfg: Config, s: State, steps: seq<Step>)
    requires IsRun(cfg, s, steps) && Accounted(s)
    ensures Accounted(After(cfg, s, steps))
    decreases |steps|
  {
    if steps != [] {
      KeepAccounted(cfg, s, steps[0]);
      RunKeepsAccounts(cfg, Do(cfg, s, steps[0]), steps[1..]);
    }
  }

  // ---- The accounts, after any run ----

  /** Ok publishes of a row = 1 if it is marked + those inside aborted drains + those
    * inside open drains; its attempts are the committed drains that selected it. */
  lemma PublishesAccounted(cfg: Config, steps: seq<Step>, r: nat)
    requires IsRun(cfg, EMPTY, steps) && r < |After(cfg, EMPTY, steps).rows|
    ensures var s := After(cfg, EMPTY, steps);
            && s.rows[r].okPublishes == (if s.rows[r].published then 1 else 0)
                                        + OkPublishes(s.drains, Aborted, r) + OkPublishes(s.drains, Active, r)
            && s.rows[r].attempts == Selections(s.drains, Committed, r)
            && (s.rows[r].published ==> s.rows[r].okPublishes >= 1)
  {
    RunKeepsAccounts(cfg, EMPTY, steps);
    assert RowAccounted(After(cfg, EMPTY, steps), r);
  }

  /** Two open relay transactions never share a row, and none holds a marked row. */
  lemma OpenDrainsDisjoint(cfg: Config, steps: seq<Step>, d: nat, e: nat, r: nat)
    requires IsRun(cfg, EMPTY, steps)
    requires ActiveDrain(After(cfg, EMPTY, steps), d) && ActiveDrain(After(cfg, EMPTY, steps), e)
    requires Selected(After(cfg, EMPTY, steps).drains[d], r) && Selected(After(cfg, EMPTY, steps).drains[e], r)
    ensures d == e && r < |After(cfg, EMPTY, steps).rows| && !After(cfg, EMPTY, steps).rows[r].published
  {
    RunKeepsAccounts(cfg, EMPTY, steps);
    var s := After(cfg, EMPTY, steps);
    var j :| 0 <= j < |s.drains[d].rows| && s.drains[d].rows[j] == r;
    var k :| 0 <= k < |s.drains[e].rows| && s.drains[e].rows[k] == r;
    assert s.rows[r].lock == Some(d) && s.rows[r].lock == Some(e);
  }

  /** No silent loss: after any run, for every row and every queue bound to its key, either
    * it is handled, or a copy is on its way or parked, or a park publish for it was lost; or
    * the broker never enqueued any of its publishes. A marked row of the latter kind has had
    * an Ok publish, and every one of them was lost. */
  lemma NoSilentLoss(cfg: Config, steps: seq<Step>, r: nat, q: nat)
    requires IsRun(cfg, EMPTY, steps) && r < |After(cfg, EMPTY, steps).rows|
    requires q in Bound(cfg, After(cfg, EMPTY, steps).rows[r].key)
    ensures var s := After(cfg, EMPTY, steps);
            && ((r, q) in s.inbox || Carried(s, r, q) || (r, q) in s.parkLost <==> s.rows[r].enqueued)
            && (s.rows[r].published && !s.rows[r].enqueued ==> s.rows[r].okPublishes >= 1)
  {
    RunKeepsInv(cfg, EMPTY, steps);
    PublishesAccounted(cfg, steps, r);
    var s := After(cfg, EMPTY, steps);
    assert RowsCovered(cfg, s);
    assert Carried(s, r, q) ==> WasEnqueued(s, r);
  }
}
