/**
 * Reconciliation of uploaded media: objects whose asset turns out to be unbound are deleted, but only on
 * a second look. One worker; tasks may be enqueued and handled by hand at any moment in between.
 */
module MediaReconciliation {
  import opened Collections

  datatype AssetKey = AssetKey(store: string, asset: string)

  datatype TaskStatus = Pending | Working | ResolvedBound | Cleaned | Failed | Discarded

  /** `origin` is the position in the log of the enqueue that supplied the object keys. */
  datatype Task = Task(objectKeys: seq<string>, status: TaskStatus, observations: nat, attempts: nat, maxAttempts: nat,
                       nextRun: nat, updated: nat, origin: nat)

  datatype Leased = Leased(key: AssetKey, task: Task)

  datatype Action = Retry | Discard

  datatype Audit = Audit(key: AssetKey, action: Action, idempotencyKey: string, oldStatus: TaskStatus, newStatus: TaskStatus)

  datatype HandleReply = Handled(replayed: bool) | NotFound | Conflict

  /** What happened, in order; the tables do not hold it. */
  datatype Note =
    | Enqueued(key: AssetKey, objectKeys: seq<string>, observed: nat)
    | Looked(key: AssetKey, bound: bool)
    | Confirmed(key: AssetKey)
    | Removed(key: AssetKey, objectKey: string)

  /** Where the worker is with the first task of its pass. */
  datatype Phase = Fresh | Deleting(done: nat) | Raised

  datatype Media = Media(rows: map<AssetKey, Task>, audits: seq<Audit>, now: nat,
                         pass: seq<Leased>, phase: Phase, log: seq<Note>)

  datatype Decision = ResolveBound | ConfirmUnbound | Cleanup

  function NextReconciliationStep(bound: bool, observations: nat): Decision {
    if bound then ResolveBound else if observations > 0 then Cleanup else ConfirmUnbound
  }

  const FIVE_MINUTES := 300000

  function RetryDelay(attempt: nat): nat {
    var delay := 5000 * PowerOfTwo(if attempt > 0 then attempt - 1 else 0);
    if delay < 300000 then delay else 300000
  }

  function Written(m: Media, k: AssetKey, t: Task): Media {
    m.(rows := m.rows[k := t.(updated := m.now)])
  }

  /** Enqueuing again replaces the object keys, whatever the status, and reopens a failed task; counters stay. */
  function EnqueuedRow(m: Media, k: AssetKey, objectKeys: seq<string>, delay: nat, maxAttempts: nat): Task {
    if k in m.rows then
      var t := m.rows[k].(objectKeys := objectKeys, origin := |m.log|);
      if t.status == Failed then t.(status := Pending, nextRun := m.now + delay) else t
    else Task(objectKeys, Pending, 0, 0, maxAttempts, m.now + delay, m.now, |m.log|)
  }

  function Enqueue(m: Media, k: AssetKey, objectKeys: seq<string>, delay: nat, maxAttempts: nat): Media {
    var row := EnqueuedRow(m, k, objectKeys, delay, maxAttempts);
    Written(m.(log := m.log + [Enqueued(k, objectKeys, row.observations)]), k, row)
  }

  predicate Due(m: Media, k: AssetKey) {
    && k in m.rows
    && ((m.rows[k].status == Pending && m.rows[k].nextRun <= m.now)
        || (m.rows[k].status == Working && m.rows[k].updated + FIVE_MINUTES < m.now))
  }

  function PickDue(m: Media, order: seq<AssetKey>, limit: nat): (keys: seq<AssetKey>)
    ensures |keys| <= limit
    ensures forall k | k in keys :: Due(m, k)
  {
    if order == [] then []
    else
      var last := |order| - 1;
      var before := PickDue(m, order[..last], limit);
      if |before| < limit && Due(m, order[last]) && order[last] !in before then before + [order[last]] else before
  }

  /** The tasks as the claim returns them. */
  function Claimed(m: Media, keys: seq<AssetKey>): (pass: seq<Leased>)
    requires forall k | k in keys :: k in m.rows
    ensures |pass| == |keys|
    ensures forall i | 0 <= i < |keys| :: pass[i] == Leased(keys[i], m.rows[keys[i]].(status := Working, updated := m.now))
  {
    seq(|keys|, i requires 0 <= i < |keys| =>
      assert keys[i] in keys;
      Leased(keys[i], m.rows[keys[i]].(status := Working, updated := m.now)))
  }

  function StartPass(m: Media, order: seq<AssetKey>, limit: nat): Media {
    if m.pass != [] then m
    else
      var keys := PickDue(m, order, limit);
      m.(rows := map k | k in m.rows :: if k in keys then m.rows[k].(status := Working, updated := m.now) else m.rows[k],
         pass := Claimed(m, keys), phase := Fresh)
  }

  function Next(m: Media): Media
    requires m.pass != []
  {
    m.(pass := m.pass[1..], phase := Fresh)
  }

  /** A write on the first task's row: an error, even a lost reply, leaves the worker to record a failure. */
  function Store(m: Media, t: Task, notes: seq<Note>, d: Delivery): Media
    requires m.pass != []
  {
    match d
    case NotDone => m.(phase := Raised)
    case ReplyLost => Written(m, m.pass[0].key, t).(phase := Raised, log := m.log + notes)
    case Acked => Next(Written(m, m.pass[0].key, t).(log := m.log + notes))
  }

  function ConfirmedRow(m: Media, row: Task): Task {
    row.(status := Pending, observations := row.observations + 1, nextRun := m.now + 30000)
  }

  /** The binding query and the step it leads to; None is a failed query. */
  function Ask(m: Media, bound: Option<bool>, d: Delivery): Media {
    if m.pass == [] || m.phase != Fresh || m.pass[0].key !in m.rows then m
    else if bound.None? then m.(phase := Raised)
    else
      var (k, task) := (m.pass[0].key, m.pass[0].task);
      var looked := m.(log := m.log + [Looked(k, bound.value)]);
      match NextReconciliationStep(bound.value, task.observations)
      case ResolveBound => Store(looked, m.rows[k].(status := ResolvedBound), [], d)
      case ConfirmUnbound => Store(looked, ConfirmedRow(m, m.rows[k]), [Confirmed(k)], d)
      case Cleanup => looked.(phase := Deleting(0))
  }

  /** Deletes the next object of the leased task, or, after the last one, completes the row. */
  function Delete(m: Media, d: Delivery): Media {
    if m.pass == [] || !m.phase.Deleting? || m.pass[0].key !in m.rows then m
    else
      var (k, task, done) := (m.pass[0].key, m.pass[0].task, m.phase.done);
      if done >= |task.objectKeys| then Store(m, m.rows[k].(status := Cleaned), [], d)
      else
        var removed := if d == NotDone then m else m.(log := m.log + [Removed(k, task.objectKeys[done])]);
        removed.(phase := if d == Acked then Deleting(done + 1) else Raised)
  }

  function FailedRow(m: Media, row: Task, leased: Task): Task {
    var attempts := leased.attempts + 1;
    row.(status := if attempts >= leased.maxAttempts then Failed else Pending, attempts := attempts,
         nextRun := m.now + RetryDelay(attempts))
  }

  /** Recording the failure from the task as leased; if that raises too, the pass ends. */
  function Fail(m: Media, d: Delivery): Media {
    if m.pass == [] || m.phase != Raised || m.pass[0].key !in m.rows then m
    else
      var k := m.pass[0].key;
      var failed := Written(m, k, FailedRow(m, m.rows[k], m.pass[0].task));
      match d
      case NotDone => m.(pass := [], phase := Fresh)
      case ReplyLost => failed.(pass := [], phase := Fresh)
      case Acked => Next(failed)
  }

  function FindAudit(audits: seq<Audit>, store: string, idempotencyKey: string): (i: Option<nat>)
    ensures i.Some? ==> i.value < |audits| && audits[i.value].key.store == store && audits[i.value].idempotencyKey == idempotencyKey
    ensures i.None? ==> forall a | a in audits :: !(a.key.store == store && a.idempotencyKey == idempotencyKey)
  {
    if audits == [] then None
    else
      var last := |audits| - 1;
      assert audits == audits[..last] + [audits[last]];
      if audits[last].key.store == store && audits[last].idempotencyKey == idempotencyKey then Some(last)
      else FindAudit(audits[..last], store, idempotencyKey)
  }

  function ManualReconciliationTarget(status: TaskStatus, action: Action): Option<TaskStatus> {
    if status != Failed then None else if action == Retry then Some(Pending) else Some(Discarded)
  }

  /** An operator's decision on a failed task; a replayed key writes nothing. */
  function HandleFailed(m: Media, k: AssetKey, action: Action, idempotencyKey: string): (Media, HandleReply) {
    var existing := FindAudit(m.audits, k.store, idempotencyKey);
    if existing.Some? then
      (m, if m.audits[existing.value].key == k && m.audits[existing.value].action == action then Handled(true) else Conflict)
    else if k !in m.rows then (m, NotFound)
    else
      var task := m.rows[k];
      match ManualReconciliationTarget(task.status, action)
      case None => (m, Conflict)
      case Some(target) =>
        var row := if target == Pending then task.(status := Pending, attempts := 0, nextRun := m.now) else task.(status := target);
        (Written(m, k, row).(audits := m.audits + [Audit(k, action, idempotencyKey, task.status, target)]), Handled(false))
  }

  datatype Event =
    | EnqueueTask(key: AssetKey, objectKeys: seq<string>, delay: nat, maxAttempts: nat)
    | Claim(order: seq<AssetKey>, limit: nat)
    | Query(bound: Option<bool>, write: Delivery)
    | DeleteNext(outcome: Delivery)
    | RecordFailure(write: Delivery)
    | Crash
    | Handle(key: AssetKey, action: Action, idempotencyKey: string)
    | Wait(ms: nat)

  function Step(m: Media, e: Event): Media {
    match e
    case EnqueueTask(k, objectKeys, delay, maxAttempts) => Enqueue(m, k, objectKeys, delay, maxAttempts)
    case Claim(order, limit) => StartPass(m, order, limit)
    case Query(bound, d) => Ask(m, bound, d)
    case DeleteNext(d) => Delete(m, d)
    case RecordFailure(d) => Fail(m, d)
    case Crash => m.(pass := [], phase := Fresh)
    case Handle(k, action, idempotencyKey) => HandleFailed(m, k, action, idempotencyKey).0
    case Wait(ms) => m.(now := m.now + ms)
  }

  function Run(m: Media, es: seq<Event>): Media
    decreases |es|
  {
    if es == [] then m else Run(Step(m, es[0]), es[1..])
  }

  const EMPTY := Media(map[], [], 0, [], Fresh, [])
}
