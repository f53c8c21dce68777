/**
 * The inbox of payment provider webhooks: at-least-once deliveries in, leased tasks out.
 *
 * Times are milliseconds. Payloads are compared as values, which is what comparing their hashes means
 * for a hash without collisions.
 */
module WebhookInbox {
  import opened Collections
  import opened Refunds

  datatype Content =
    | PaidContent(amount: int, currency: string, captureId: Option<string>)
    | RefundContent(refundId: string, status: Reported, amount: int, currency: string)
    | OtherContent(text: string)

  datatype EventKey = EventKey(store: string, provider: string, event: string)

  datatype WebhookStatus = InProgress | Processed | GivenUp

  datatype Row = Row(paymentId: string, orderId: Option<string>, payload: Content, status: WebhookStatus,
                     attempts: nat, maxAttempts: nat, nextAttempt: nat)

  datatype Webhook = Webhook(key: EventKey, paymentId: string, orderId: Option<string>, payload: Content,
                             maxAttempts: Option<nat>)

  datatype Task = Task(key: EventKey, paymentId: string, orderId: Option<string>, payload: Content,
                       attempts: nat, maxAttempts: nat)

  datatype Decision = ClaimAsNew | ClaimAsRetry | DuplicateProcessing | DuplicateProcessed | PayloadConflict

  type Rows = map<EventKey, Row>

  function DecideWebhookClaim(existing: Option<Row>, payload: Content): Decision {
    match existing
    case None => ClaimAsNew
    case Some(row) =>
      if row.payload != payload then PayloadConflict
      else if row.status == GivenUp then ClaimAsRetry
      else if row.status == Processed then DuplicateProcessed
      else DuplicateProcessing
  }

  function Find(rows: Rows, k: EventKey): Option<Row> {
    if k in rows then Some(rows[k]) else None
  }

  /** None when the table rejects the attempt limit. */
  function ClaimDelivery(rows: Rows, now: nat, d: Webhook): (Rows, Option<Decision>) {
    var limit := d.maxAttempts.GetOr(8);
    if limit == 0 || limit > 100 then (rows, None)
    else
      var decision := DecideWebhookClaim(Find(rows, d.key), d.payload);
      match decision
      case ClaimAsNew => (rows[d.key := Row(d.paymentId, d.orderId, d.payload, InProgress, 1, limit, now)], Some(decision))
      case ClaimAsRetry =>
        assert d.key in rows;
        (rows[d.key := rows[d.key].(status := InProgress, attempts := 1, nextAttempt := now)], Some(decision))
      case _ => (rows, Some(decision))
  }

  predicate Due(rows: Rows, now: nat, k: EventKey) {
    k in rows && rows[k].status == InProgress && rows[k].nextAttempt <= now
  }

  /** The first `limit` due keys in the given order. */
  function PickDue(rows: Rows, now: nat, order: seq<EventKey>, limit: nat): (keys: seq<EventKey>)
    ensures |keys| <= limit
    ensures forall k | k in keys :: Due(rows, now, k)
  {
    if order == [] then []
    else
      var last := |order| - 1;
      var before := PickDue(rows, now, order[..last], limit);
      if |before| < limit && Due(rows, now, order[last]) && order[last] !in before then before + [order[last]] else before
  }

  function Leased(rows: Rows, keys: seq<EventKey>, until: nat): Rows {
    map k | k in rows :: if k in keys then rows[k].(nextAttempt := until) else rows[k]
  }

  function TaskOf(k: EventKey, row: Row): Task {
    Task(k, row.paymentId, row.orderId, row.payload, row.attempts, row.maxAttempts)
  }

  function TasksOf(rows: Rows, keys: seq<EventKey>): (tasks: seq<Task>)
    requires forall k | k in keys :: k in rows
    ensures |tasks| == |keys| && forall i | 0 <= i < |keys| :: tasks[i] == TaskOf(keys[i], rows[keys[i]])
  {
    seq(|keys|, i requires 0 <= i < |keys| => assert keys[i] in keys; TaskOf(keys[i], rows[keys[i]]))
  }

  function WithProcessed(rows: Rows, k: EventKey): Option<Rows> {
    if k in rows && rows[k].status == InProgress then Some(rows[k := rows[k].(status := Processed)]) else None
  }

  function NextWebhookFailure(attempts: nat, maxAttempts: nat): (WebhookStatus, nat) {
    if attempts >= maxAttempts then (GivenUp, maxAttempts) else (InProgress, attempts + 1)
  }

  function RetryDelay(attempts: nat): nat
    requires attempts > 0
  {
    var delay := 1000 * PowerOfTwo(if attempts - 1 < 6 then attempts - 1 else 6);
    if delay < 60000 then delay else 60000
  }

  /** What is written comes from the task as it was leased. */
  function WithFailure(rows: Rows, now: nat, task: Task): Option<Rows>
    requires task.attempts > 0
  {
    var k := task.key;
    if k in rows && rows[k].status == InProgress then
      var (status, attempts) := NextWebhookFailure(task.attempts, task.maxAttempts);
      Some(rows[k := rows[k].(status := status, attempts := attempts, nextAttempt := now + RetryDelay(task.attempts))])
    else None
  }

  // ----- Runs: deliveries at any time, and one worker whose passes do not overlap -----

  /** How a leased task ends. When its last write was not answered, or not even the failure was written, the pass is over. */
  datatype Outcome = Handled(answered: bool) | Raised(answered: bool) | Aborted

  datatype Inbox = Inbox(rows: Rows, now: nat, pass: seq<Task>)

  datatype InboxEvent =
    | Deliver(delivery: Webhook)
    | StartPass(order: seq<EventKey>, limit: nat, leaseMs: nat)
    | Settle(outcome: Outcome)
    | Crash
    | Wait(ms: nat)

  ghost predicate Healthy(s: Inbox) {
    && (forall k | k in s.rows :: 1 <= s.rows[k].attempts <= s.rows[k].maxAttempts <= 100)
    && (forall i, j | 0 <= i < j < |s.pass| :: s.pass[i].key != s.pass[j].key)
    && (forall t | t in s.pass :: t.key in s.rows && s.rows[t.key].status == InProgress && t == TaskOf(t.key, s.rows[t.key]))
  }

  function NextState(s: Inbox, e: InboxEvent): Inbox
    requires Healthy(s)
  {
    match e
    case Deliver(d) => s.(rows := ClaimDelivery(s.rows, s.now, d).0)
    case StartPass(order, limit, leaseMs) =>
      if s.pass != [] then s
      else
        var keys := PickDue(s.rows, s.now, order, limit);
        var rows := Leased(s.rows, keys, s.now + leaseMs);
        s.(rows := rows, pass := TasksOf(rows, keys))
    case Settle(outcome) =>
      if s.pass == [] then s
      else
        var task := s.pass[0];
        assert task in s.pass;
        (match outcome
         case Handled(answered) =>
           var rows := WithProcessed(s.rows, task.key);
           s.(rows := rows.GetOr(s.rows), pass := if answered then s.pass[1..] else [])
         case Raised(answered) =>
           var rows := WithFailure(s.rows, s.now, task);
           s.(rows := rows.GetOr(s.rows), pass := if answered then s.pass[1..] else [])
         case Aborted => s.(pass := []))
    case Crash => s.(pass := [])
    case Wait(ms) => s.(now := s.now + ms)
  }

  predicate Distinct(keys: seq<EventKey>) {
    forall i, j | 0 <= i < j < |keys| :: keys[i] != keys[j]
  }

  lemma {:induction false} PickedDistinct(rows: Rows, now: nat, order: seq<EventKey>, limit: nat)
    ensures Distinct(PickDue(rows, now, order, limit))
  {
    if order != [] {
      PickedDistinct(rows, now, order[..|order| - 1], limit);
    }
  }

  /** A pass takes only due events, and unless it is full it takes every due event of the given order. */
  lemma {:induction false} PickedExactly(rows: Rows, now: nat, order: seq<EventKey>, limit: nat, k: EventKey)
    ensures var keys := PickDue(rows, now, order, limit);
            && (k in keys ==> k in order && Due(rows, now, k))
            && (|keys| < limit ==> (k in keys <==> k in order && Due(rows, now, k)))
  {
    if order != [] {
      PickedExactly(rows, now, order[..|order| - 1], limit, k);
    }
  }

  lemma PassStart(s: Inbox, order: seq<EventKey>, limit: nat, leaseMs: nat)
    requires Healthy(s)
    ensures Healthy(NextState(s, StartPass(order, limit, leaseMs)))
  {
    if s.pass == [] {
      var s' := NextState(s, StartPass(order, limit, leaseMs));
      var keys := PickDue(s.rows, s.now, order, limit);
      PickedDistinct(s.rows, s.now, order, limit);
      forall i, j | 0 <= i < j < |s'.pass| ensures s'.pass[i].key != s'.pass[j].key {
        assert s'.pass[i].key == keys[i] && s'.pass[j].key == keys[j];
      }
      forall t | t in s'.pass
        ensures t.key in s'.rows && s'.rows[t.key].status == InProgress && t == TaskOf(t.key, s'.rows[t.key])
      {
        var i :| 0 <= i < |s'.pass| && s'.pass[i] == t;
        assert keys[i] in keys;
      }
    }
  }

  lemma PassSettles(s: Inbox, outcome: Outcome)
    requires Healthy(s)
    ensures Healthy(NextState(s, Settle(outcome)))
  {
    if s.pass != [] && outcome != Aborted {
      var s' := NextState(s, Settle(outcome));
      assert s.pass[0] in s.pass;
      forall t | t in s'.pass
        ensures t.key in s'.rows && s'.rows[t.key].status == InProgress && t == TaskOf(t.key, s'.rows[t.key])
      {
        var i :| 0 <= i < |s'.pass| && s'.pass[i] == t;
        assert t == s.pass[i + 1] && t in s.pass && t.key != s.pass[0].key;
      }
    }
  }

  lemma StaysHealthy(s: Inbox, e: InboxEvent)
    requires Healthy(s)
    ensures Healthy(NextState(s, e))
  {
    match e
    case Deliver(d) =>
    case StartPass(order, limit, leaseMs) => PassStart(s, order, limit, leaseMs);
    case Settle(outcome) => PassSettles(s, outcome);
    case Crash =>
    case Wait(_) =>
  }

  ghost function RunInbox(s: Inbox, es: seq<InboxEvent>): (s': Inbox)
    requires Healthy(s)
    ensures Healthy(s')
    decreases |es|
  {
    if es == [] then s
    else
      StaysHealthy(s, es[0]);
      RunInbox(NextState(s, es[0]), es[1..])
  }

  // ----- Laws over every run -----

  /** A step keeps every row, its payload and its identity; a processed row is never written again, nor leased. */
  ghost predicate Keeps(s: Inbox, s': Inbox, k: EventKey) {
    k in s.rows ==>
      && k in s'.rows
      && s'.rows[k] == s.rows[k].(status := s'.rows[k].status, attempts := s'.rows[k].attempts, nextAttempt := s'.rows[k].nextAttempt)
      && (s.rows[k].status == Processed ==> s'.rows[k] == s.rows[k] && forall t | t in s'.pass :: t.key != k)
  }

  lemma StepKeeps(s: Inbox, e: InboxEvent, k: EventKey)
    requires Healthy(s)
    ensures Keeps(s, NextState(s, e), k)
  {
    StaysHealthy(s, e);
    if e.Settle? && s.pass != [] {
      assert s.pass[0] in s.pass;
    }
  }

  /** An event once stored keeps its payload; once processed it stays as it is and is never handed out again. */
  lemma {:induction false} ProcessedForGood(s: Inbox, es: seq<InboxEvent>, k: EventKey)
    requires Healthy(s)
    ensures Keeps(s, RunInbox(s, es), k)
    decreases |es|
  {
    if es == [] {
      forall t | t in s.pass ensures k in s.rows && s.rows[k].status == Processed ==> t.key != k {
      }
    } else {
      StaysHealthy(s, es[0]);
      StepKeeps(s, es[0], k);
      ProcessedForGood(NextState(s, es[0]), es[1..], k);
    }
  }

  /**
   * The payload of the first delivery is the event's for good: in every later state a delivery is a conflict exactly
   * when its payload differs, and it writes the row exactly when it agrees and the event had been given up.
   */
  lemma FirstPayloadDecides(s: Inbox, es: seq<InboxEvent>, d: Webhook)
    requires Healthy(s) && d.key in s.rows && 1 <= d.maxAttempts.GetOr(8) <= 100
    ensures d.key in RunInbox(s, es).rows
    ensures var later := RunInbox(s, es);
            var (rows, decision) := ClaimDelivery(later.rows, later.now, d);
            && (decision == Some(PayloadConflict) <==> d.payload != s.rows[d.key].payload)
            && (rows != later.rows <==> d.payload == s.rows[d.key].payload && later.rows[d.key].status == GivenUp)
  {
    ProcessedForGood(s, es, d.key);
    var later := RunInbox(s, es);
    var (rows, decision) := ClaimDelivery(later.rows, later.now, d);
    if decision == Some(ClaimAsRetry) {
      assert rows[d.key].status != later.rows[d.key].status;
    }
  }

  /** How often the event failed, was claimed again after giving up, and was completed. */
  datatype Counts = Counts(failures: nat, retries: nat, completions: nat)

  predicate Settles(s: Inbox, e: InboxEvent, k: EventKey) {
    e.Settle? && s.pass != [] && s.pass[0].key == k
  }

  function Counted(c: Counts, s: Inbox, e: InboxEvent, k: EventKey): Counts {
    if Settles(s, e, k) && e.outcome.Raised? then c.(failures := c.failures + 1)
    else if Settles(s, e, k) && e.outcome.Handled? then c.(completions := c.completions + 1)
    else if e.Deliver? && e.delivery.key == k && ClaimDelivery(s.rows, s.now, e.delivery).1 == Some(ClaimAsRetry)
    then c.(retries := c.retries + 1)
    else c
  }

  ghost function CountAlong(c: Counts, s: Inbox, es: seq<InboxEvent>, k: EventKey): Counts
    requires Healthy(s)
    decreases |es|
  {
    if es == [] then c
    else
      StaysHealthy(s, es[0]);
      CountAlong(Counted(c, s, es[0], k), NextState(s, es[0]), es[1..], k)
  }

  /** Every claim is good for exactly `maxAttempts` failures, and an event is completed once or not at all. */
  predicate Accounted(s: Inbox, k: EventKey, c: Counts) {
    if k !in s.rows then c == Counts(0, 0, 0)
    else
      var row := s.rows[k];
      && c.failures == c.retries * row.maxAttempts + (if row.status == GivenUp then row.maxAttempts else row.attempts - 1)
      && c.completions == if row.status == Processed then 1 else 0
  }

  lemma OneMoreClaim(retries: nat, limit: nat)
    ensures (retries + 1) * limit == retries * limit + limit
  {
  }

  lemma AccountedStep(s: Inbox, e: InboxEvent, k: EventKey, c: Counts)
    requires Healthy(s) && Accounted(s, k, c)
    ensures Accounted(NextState(s, e), k, Counted(c, s, e, k))
  {
    if e.Settle? && s.pass != [] {
      assert s.pass[0] in s.pass;
    } else if e.Deliver? && k in s.rows {
      OneMoreClaim(c.retries, s.rows[k].maxAttempts);
    }
  }

  /** The accounting holds over every run: in particular an event is given up exactly when its last claim failed `maxAttempts` times. */
  lemma {:induction false} FailureAccounting(s: Inbox, es: seq<InboxEvent>, k: EventKey, c: Counts)
    requires Healthy(s) && Accounted(s, k, c)
    ensures Accounted(RunInbox(s, es), k, CountAlong(c, s, es, k))
    decreases |es|
  {
    if es != [] {
      AccountedStep(s, es[0], k, c);
      StaysHealthy(s, es[0]);
      FailureAccounting(NextState(s, es[0]), es[1..], k, Counted(c, s, es[0], k));
    }
  }

  /** From the start: `failures == (retries + 1) * maxAttempts` exactly for the events that were given up. */
  lemma GivenUpExactly(now: nat, es: seq<InboxEvent>, k: EventKey)
    ensures Healthy(Inbox(map[], now, []))
    ensures var s := Inbox(map[], now, []);
            var c, e := CountAlong(Counts(0, 0, 0), s, es, k), RunInbox(s, es);
            k in e.rows ==>
              && (e.rows[k].status == GivenUp <==> c.failures == (c.retries + 1) * e.rows[k].maxAttempts)
              && (e.rows[k].status == Processed <==> c.completions == 1) && c.completions <= 1
  {
    var s := Inbox(map[], now, []);
    FailureAccounting(s, es, k, Counts(0, 0, 0));
    var c, e := CountAlong(Counts(0, 0, 0), s, es, k), RunInbox(s, es);
    if k in e.rows {
      assert (c.retries + 1) * e.rows[k].maxAttempts == c.retries * e.rows[k].maxAttempts + e.rows[k].maxAttempts;
    }
  }

  /** The back-off starts at a second and doubles, up to a minute from the seventh attempt on. */
  lemma RetryDelayBounds(attempts: nat)
    requires attempts > 0
    ensures 1000 <= RetryDelay(attempts) <= 60000
    ensures attempts == 1 ==> RetryDelay(attempts) == 1000
    ensures attempts < 6 ==> RetryDelay(attempts + 1) == 2 * RetryDelay(attempts)
    ensures attempts >= 7 ==> RetryDelay(attempts) == 60000
  {
    assert PowerOfTwo(0) == 1 && PowerOfTwo(6) == 64 && PowerOfTwo(5) == 32 by {
      assert PowerOfTwo(2) == 4 && PowerOfTwo(4) == 4 * PowerOfTwo(2);
    }
    if attempts < 6 {
      PowersGrow(attempts, 5);
    }
  }

  /** No open event is scheduled further away than the longest lease or the longest back-off. */
  ghost predicate Bounded(s: Inbox, horizon: nat) {
    forall k | k in s.rows && s.rows[k].status == InProgress :: s.rows[k].nextAttempt <= s.now + horizon
  }

  predicate LeasesWithin(es: seq<InboxEvent>, horizon: nat) {
    forall e | e in es && e.StartPass? :: e.leaseMs <= horizon
  }

  lemma BoundedStep(s: Inbox, e: InboxEvent, horizon: nat)
    requires Healthy(s) && Bounded(s, horizon) && horizon >= 60000 && (e.StartPass? ==> e.leaseMs <= horizon)
    ensures Bounded(NextState(s, e), horizon)
  {
  }

  /** Nothing is forgotten: after any run, crashes included, waiting one lease makes every open event due again. */
  lemma {:induction false} NeverStuck(s: Inbox, es: seq<InboxEvent>, horizon: nat, k: EventKey)
    requires Healthy(s) && Bounded(s, horizon) && horizon >= 60000 && LeasesWithin(es, horizon)
    ensures var e := RunInbox(s, es);
            k in e.rows && e.rows[k].status == InProgress ==> Due(e.rows, NextState(e, Wait(horizon)).now, k)
    decreases |es|
  {
    if es != [] {
      BoundedStep(s, es[0], horizon);
      StaysHealthy(s, es[0]);
      assert forall e | e in es[1..] :: e in es;
      NeverStuck(NextState(s, es[0]), es[1..], horizon, k);
    }
  }
}
