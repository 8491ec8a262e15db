/** The event plane as a labelled transition system: outbox rows, relay
  * transactions, message copies at the broker and at consumers, the committed
  * inbox and the committed handler effects. All nondeterminism is in the label. */
module EventPlane {
  import opened Wrappers
  import opened Topology
  import opened DeathHeader

  // ---- State ----

  /** An `audit.domain_event` row. Its position stands for both its id and its unique
    * event id. `lock` is the relay transaction holding the row lock. The last two
    * fields are history: how often a publish of the row returned Ok, and whether the
    * broker ever enqueued one. */
  datatype Row = Row(key: Key, published: bool, attempts: nat, lock: Option<nat>,
                     okPublishes: nat, enqueued: bool)

  datatype DrainStatus = Active | Committed | Aborted

  /** One relay transaction: the rows it selected and, for the prefix it has published
    * so far, whether the publish returned Ok. Ended transactions stay as history. */
  datatype Drain = Drain(rows: seq<nat>, oks: seq<bool>, status: DrainStatus)

  /** Where a consumer stands with one delivery. */
  datatype Phase =
    | Received  // delivered, nothing begun
    | Claimed   // transaction open, inbox row inserted (when the message has an id)
    | Ran       // handler returned Ok, commit not yet attempted
    | Failed    // some step failed and the transaction is rolled back
    | AckDue    // the next call is the ack
    | Stuck     // the ack or nack failed; the broker still holds the delivery

  /** `live` is false once the connection was lost: the broker has the copy back in the
    * queue while the consumer still works on this delivery. */
  datatype Stage = Ready | Waiting | Parked | Gone | Busy(live: bool, phase: Phase)

  /** One copy of a message: in a main queue (Ready), its retry queue (Waiting), its
    * parked queue, or at a consumer. `id` is the relay's message_id; messages published
    * inline carry none. `json` says whether the body parses. */
  datatype Item = Item(queue: nat, id: Option<nat>, json: bool, deaths: Deaths, stage: Stage)

  /** `effects` holds one (event, queue) for each committed handler run; `parkLost`
    * the pairs for which a park publish did not reach the parked queue. */
  datatype State = State(rows: seq<Row>, drains: seq<Drain>, items: seq<Item>,
                         inbox: set<(nat, nat)>, effects: multiset<(nat, nat)>,
                         parkLost: set<(nat, nat)>)

  const EMPTY: State := State([], [], [], {}, multiset{}, {})

  // ---- Labels ----

  datatype Step =
    // stagers, and services that publish inline without an id
    | StageRow(key: Key)
    | PublishInline(key: Key, json: bool)
    // relay replicas
    | Select(selected: seq<nat>)
    | Publish(drain: nat, ok: bool, delivered: bool)
    | CommitDrain(drain: nat)
    | AbortDrain(drain: nat)
    // broker
    | Deliver(item: nat)
    | Expire(item: nat)
    | Redeliver(item: nat)
    | DropConnection(item: nat)
    // consumers
    | DropBadJson(item: nat)
    | Claim(item: nat)
    | HandlerOk(item: nat)
    | HandlerErr(item: nat)
    | DatabaseErr(item: nat)
    | Commit(item: nat, reported: bool)
    | Nack(item: nat)
    | NackErr(item: nat)
    | ParkCopy(item: nat, delivered: bool)
    | Ack(item: nat)
    | AckErr(item: nat)
    | Crash(item: nat)

  // ---- Enabling conditions ----

  ghost predicate At(s: State, i: nat, phase: Phase) {
    i < |s.items| && s.items[i].stage.Busy? && s.items[i].stage.phase == phase
  }

  /** Item i is in a transaction that has inserted its inbox row but not committed. */
  ghost predicate Holds(it: Item) {
    it.id.Some? && it.stage.Busy? && (it.stage.phase == Claimed || it.stage.phase == Ran)
  }

  ghost function Pair(it: Item): (nat, nat)
    requires it.id.Some?
  {
    (it.id.value, it.queue)
  }

  /** Another open transaction holds the inbox key, so the insert waits. */
  ghost predicate ClaimBlocked(s: State, i: nat)
    requires i < |s.items| && s.items[i].id.Some?
  {
    exists j: nat :: j < |s.items| && j != i && Holds(s.items[j]) && Pair(s.items[j]) == Pair(s.items[i])
  }

  ghost predicate Distinct(xs: seq<nat>) {
    forall j, k :: 0 <= j < k < |xs| ==> xs[j] != xs[k]
  }

  ghost predicate ActiveDrain(s: State, d: nat) {
    d < |s.drains| && s.drains[d].status == Active
  }

  ghost predicate MustRetry(cfg: Config, it: Item)
    requires it.queue < |cfg.budgets|
  {
    DecideRetry(DeathCount(it.deaths), cfg.budgets[it.queue]).RetryAgain?
  }

  ghost predicate Enabled(cfg: Config, s: State, step: Step)
  {
    match step
    case StageRow(_) => true
    case PublishInline(_, _) => true
    // Any non-empty set of unpublished, unlocked rows: whatever the order, the limit
    // and the snapshot of the query leave.
    case Select(rs) =>
      && rs != [] && Distinct(rs)
      && forall k :: 0 <= k < |rs| ==> rs[k] < |s.rows| && !s.rows[rs[k]].published && s.rows[rs[k]].lock.None?
    // A relay whose transaction was rolled back under it finds out only when it marks, so
    // it may go on publishing.
    case Publish(d, _, _) =>
      && d < |s.drains| && s.drains[d].status != Committed && |s.drains[d].oks| < |s.drains[d].rows|
      && s.drains[d].rows[|s.drains[d].oks|] < |s.rows|
    case CommitDrain(d) => ActiveDrain(s, d) && |s.drains[d].oks| == |s.drains[d].rows|
    case AbortDrain(d) => ActiveDrain(s, d)
    case Deliver(i) => i < |s.items| && s.items[i].stage == Ready
    case Expire(i) => i < |s.items| && s.items[i].stage == Waiting && s.items[i].queue < |cfg.bindings|
    case Redeliver(i) => At(s, i, Stuck)
    case DropConnection(i) => i < |s.items| && s.items[i].stage.Busy? && s.items[i].stage.live
    case DropBadJson(i) => At(s, i, Received) && !s.items[i].json
    case Claim(i) => At(s, i, Received) && s.items[i].json && (s.items[i].id.Some? ==> !ClaimBlocked(s, i))
    case HandlerOk(i) => At(s, i, Claimed)
    case HandlerErr(i) => At(s, i, Claimed)
    case DatabaseErr(i) => (At(s, i, Received) && s.items[i].json) || At(s, i, Claimed) || At(s, i, Ran)
    case Commit(i, _) => At(s, i, Ran)
    case Nack(i) => At(s, i, Failed) && s.items[i].queue < |cfg.budgets| && MustRetry(cfg, s.items[i])
    case NackErr(i) => At(s, i, Failed) && s.items[i].queue < |cfg.budgets| && MustRetry(cfg, s.items[i])
    case ParkCopy(i, _) => At(s, i, Failed) && s.items[i].queue < |cfg.budgets| && !MustRetry(cfg, s.items[i])
    case Ack(i) => At(s, i, AckDue)
    case AckErr(i) => At(s, i, AckDue)
    case Crash(i) => i < |s.items| && s.items[i].stage.Busy?
  }

  // ---- Effects ----

  ghost function SetStage(s: State, i: nat, stage: Stage): State
    requires i < |s.items|
  {
    s.(items := s.items[i := s.items[i].(stage := stage)])
  }

  ghost function SetPhase(s: State, i: nat, phase: Phase): State
    requires i < |s.items| && s.items[i].stage.Busy?
  {
    SetStage(s, i, Busy(s.items[i].stage.live, phase))
  }

  /** The consumer is done with the delivery without telling the broker so: a live one
    * stays unacknowledged, a dead one is forgotten. */
  ghost function GiveUp(s: State, i: nat): State
    requires i < |s.items| && s.items[i].stage.Busy?
  {
    if s.items[i].stage.live then SetPhase(s, i, Stuck) else SetStage(s, i, Gone)
  }

  /** One fresh copy on every queue bound to `key`. */
  ghost function FanOut(cfg: Config, key: Key, id: Option<nat>, json: bool, deaths: Deaths): (copies: seq<Item>)
    ensures |copies| == |Bound(cfg, key)|
  {
    var queues := Bound(cfg, key);
    seq(|queues|, k requires 0 <= k < |queues| => Item(queues[k], id, json, deaths, Ready))
  }

  ghost predicate Selected(d: Drain, r: nat) {
    r in d.rows
  }

  /** The drain published row r, and the publish returned Ok. */
  ghost predicate PublishedIn(d: Drain, r: nat) {
    exists k: nat :: k < |d.oks| && k < |d.rows| && d.rows[k] == r && d.oks[k]
  }

  ghost function LockRows(rows: seq<Row>, selected: seq<nat>, lock: Option<nat>): (r: seq<Row>)
    ensures |r| == |rows|
    ensures forall i :: 0 <= i < |rows| ==> r[i] == if i in selected then rows[i].(lock := lock) else rows[i]
  {
    seq(|rows|, i requires 0 <= i < |rows| => if i in selected then rows[i].(lock := lock) else rows[i])
  }

  /** MARK_OK_SQL or MARK_FAIL_SQL on each selected row, and the locks released. */
  ghost function MarkRows(rows: seq<Row>, d: Drain): (r: seq<Row>)
    ensures |r| == |rows|
    ensures forall i :: 0 <= i < |rows| ==>
              r[i] == if Selected(d, i)
                      then rows[i].(published := rows[i].published || PublishedIn(d, i),
                                    attempts := rows[i].attempts + 1, lock := None)
                      else rows[i]
  {
    seq(|rows|, i requires 0 <= i < |rows| =>
      if Selected(d, i)
      then rows[i].(published := rows[i].published || PublishedIn(d, i),
                    attempts := rows[i].attempts + 1, lock := None)
      else rows[i])
  }

  ghost function DoPublish(cfg: Config, s: State, d: nat, ok: bool, delivered: bool): State
    requires Enabled(cfg, s, Publish(d, ok, delivered))
  {
    var drain := s.drains[d];
    var r := drain.rows[|drain.oks|];
    var row := s.rows[r];
    s.(drains := s.drains[d := drain.(oks := drain.oks + [ok])],
       rows := s.rows[r := row.(okPublishes := row.okPublishes + (if ok then 1 else 0),
                                enqueued := row.enqueued || delivered)],
       items := if delivered then s.items + FanOut(cfg, row.key, Some(r), true, []) else s.items)
  }

  ghost function DoCommit(s: State, i: nat, reported: bool): State
    requires At(s, i, Ran)
  {
    var after := SetPhase(s, i, if reported then AckDue else Failed);
    if s.items[i].id.None? then after
    else after.(inbox := s.inbox + {Pair(s.items[i])}, effects := s.effects + multiset{Pair(s.items[i])})
  }

  ghost function DoPark(s: State, i: nat, delivered: bool): State
    requires At(s, i, Failed)
  {
    var it := s.items[i];
    var after := SetPhase(s, i, AckDue);
    if delivered then after.(items := after.items + [Item(it.queue, it.id, it.json, [], Stage.Parked)])
    else if it.id.Some? then after.(parkLost := s.parkLost + {Pair(it)})
    else after
  }

  ghost function Do(cfg: Config, s: State, step: Step): State
    requires Enabled(cfg, s, step)
  {
    match step
    case StageRow(key) => s.(rows := s.rows + [Row(key, false, 0, None, 0, false)])
    case PublishInline(key, json) => s.(items := s.items + FanOut(cfg, key, None, json, []))
    case Select(rs) =>
      s.(drains := s.drains + [Drain(rs, [], Active)], rows := LockRows(s.rows, rs, Some(|s.drains|)))
    case Publish(d, ok, delivered) => DoPublish(cfg, s, d, ok, delivered)
    case CommitDrain(d) =>
      s.(drains := s.drains[d := s.drains[d].(status := Committed)], rows := MarkRows(s.rows, s.drains[d]))
    case AbortDrain(d) =>
      s.(drains := s.drains[d := s.drains[d].(status := Aborted)],
         rows := LockRows(s.rows, s.drains[d].rows, None))
    case Deliver(i) => SetStage(s, i, Busy(true, Received))
    case Expire(i) =>
      var it := s.items[i];
      var gone := SetStage(s, i, Gone);
      gone.(items := gone.items
                   + FanOut(cfg, cfg.bindings[it.queue], it.id, it.json, Bump(it.deaths, Retry(it.queue))))
    case Redeliver(i) => SetStage(s, i, if s.items[i].stage.live then Ready else Gone)
    case DropConnection(i) =>
      var it := s.items[i];
      var orphan := SetStage(s, i, if it.stage.phase == Stuck then Gone else Busy(false, it.stage.phase));
      orphan.(items := orphan.items + [it.(stage := Ready)])
    case DropBadJson(i) => SetPhase(s, i, AckDue)
    case Claim(i) =>
      if s.items[i].id.Some? && Pair(s.items[i]) in s.inbox then SetPhase(s, i, AckDue)
      else SetPhase(s, i, Claimed)
    case HandlerOk(i) => SetPhase(s, i, Ran)
    case HandlerErr(i) => SetPhase(s, i, Failed)
    case DatabaseErr(i) => SetPhase(s, i, Failed)
    case Commit(i, reported) => DoCommit(s, i, reported)
    case Nack(i) =>
      var it := s.items[i];
      if it.stage.live
      then s.(items := s.items[i := it.(deaths := Bump(it.deaths, Main(it.queue)), stage := Waiting)])
      else SetStage(s, i, Gone)
    case NackErr(i) => GiveUp(s, i)
    case ParkCopy(i, delivered) => DoPark(s, i, delivered)
    case Ack(i) => SetStage(s, i, Gone)
    case AckErr(i) => GiveUp(s, i)
    case Crash(i) => SetStage(s, i, if s.items[i].stage.live then Ready else Gone)
  }

  // ---- Runs ----

  ghost predicate IsRun(cfg: Config, s: State, steps: seq<Step>)
    decreases |steps|
  {
    steps == [] || (Enabled(cfg, s, steps[0]) && IsRun(cfg, Do(cfg, s, steps[0]), steps[1..]))
  }

  /** The state after the steps, up to the first that is not enabled: after all of them, if
    * they are a run. */
  ghost function After(cfg: Config, s: State, steps: seq<Step>): State
    decreases |steps|
  {
    if steps == [] || !Enabled(cfg, s, steps[0]) then s else After(cfg, Do(cfg, s, steps[0]), steps[1..])
  }
}
