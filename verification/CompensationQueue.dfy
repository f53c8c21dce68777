/**
 * The durable compensation tasks, their claims by workers, and the dead letters.
 *
 * Every transaction is one step.  Claims are snapshots of the task row: a worker writes
 * back what it read when it claimed, whatever has happened to the row since.
 */
module CompensationQueue {
  import opened Collections
  import opened OrderState

  const MAX_ATTEMPTS: nat := 8

  /** A line's own key `<reservation>:compensation:<action>`, or an administrator's `<key>:inventory:<index>`. */
  datatype TaskKey = LineKey(reservation: string, action: Action) | AdminKey(key: string, index: nat)

  datatype TaskStatus = Pending | Processing | Retrying | Completed | DeadLettered

  datatype Task = Task(action: Action, reservation: string, status: TaskStatus, attempts: nat, maxAttempts: nat)

  datatype DeadLetterStatus = Open | RetryGranted | Discarded

  datatype DeadLetter = DeadLetter(task: TaskKey, status: DeadLetterStatus)

  datatype Decision = Decision(row: nat, oldStatus: DeadLetterStatus, newStatus: DeadLetterStatus)

  datatype ClaimPhase = Claimed | CallSucceeded | CallFailed

  datatype Claim = Claim(key: TaskKey, task: Task, phase: ClaimPhase)

  /** `deadLetters` and `decisions` are append-only tables. */
  datatype Queue = Queue(tasks: map<TaskKey, Task>, claims: map<nat, Claim>,
                         deadLetters: seq<DeadLetter>, decisions: seq<Decision>)

  /**
   * After `CompleteLost` the task is completed but the worker, having lost the reply, goes on to record a failure;
   * `Abandon` is a claim whose failure could not be recorded, or that a crash or an ended pass leaves behind.
   */
  datatype Event =
    | Enqueue(key: TaskKey, action: Action, reservation: string)
    | ClaimTask(id: nat, key: TaskKey)
    | CallReturned(id: nat, ok: bool)
    | Complete(id: nat)
    | CompleteLost(id: nat)
    | Fail(id: nat)
    | Abandon(id: nat)
    | Decide(row: nat, retry: bool)

  /** Re-inserting an existing key resets status and payload, but neither the attempts nor the type. */
  function Enqueued(q: Queue, key: TaskKey, action: Action, reservation: string): Queue {
    var task := if key in q.tasks then q.tasks[key].(status := Pending, reservation := reservation)
                else Task(action, reservation, Pending, 0, MAX_ATTEMPTS);
    q.(tasks := q.tasks[key := task])
  }

  predicate Due(q: Queue, key: TaskKey) {
    key in q.tasks && (q.tasks[key].status == Pending || q.tasks[key].status == Retrying)
  }

  predicate DeadLetters(c: Claim) {
    c.task.attempts + 1 >= c.task.maxAttempts
  }

  function Failed(q: Queue, c: Claim): Queue
    requires c.key in q.tasks
  {
    var attempts := c.task.attempts + 1;
    if DeadLetters(c) then
      q.(tasks := q.tasks[c.key := q.tasks[c.key].(status := DeadLettered, attempts := attempts)],
         deadLetters := q.deadLetters + [DeadLetter(c.key, Open)])
    else
      q.(tasks := q.tasks[c.key := q.tasks[c.key].(status := Retrying, attempts := attempts)])
  }

  predicate Enabled(q: Queue, e: Event) {
    match e
    case Enqueue(_, _, _) => true
    case ClaimTask(id, key) => id !in q.claims && Due(q, key)
    case CallReturned(id, _) => id in q.claims && q.claims[id].phase == Claimed
    case Complete(id) => id in q.claims && q.claims[id].phase == CallSucceeded && q.claims[id].key in q.tasks
    case CompleteLost(id) => id in q.claims && q.claims[id].phase == CallSucceeded && q.claims[id].key in q.tasks
    case Fail(id) => id in q.claims && q.claims[id].phase != Claimed && q.claims[id].key in q.tasks
    case Abandon(id) => id in q.claims
    case Decide(row, _) =>
      row < |q.deadLetters| && q.deadLetters[row].status == Open && q.deadLetters[row].task in q.tasks
  }

  function Step(q: Queue, e: Event): Queue {
    if !Enabled(q, e) then q
    else
      match e
      case Enqueue(key, action, reservation) => Enqueued(q, key, action, reservation)
      case ClaimTask(id, key) =>
        q.(claims := q.claims[id := Claim(key, q.tasks[key], Claimed)],
           tasks := q.tasks[key := q.tasks[key].(status := Processing)])
      case CallReturned(id, ok) =>
        q.(claims := q.claims[id := q.claims[id].(phase := if ok then CallSucceeded else CallFailed)])
      case Complete(id) =>
        var key := q.claims[id].key;
        q.(tasks := q.tasks[key := q.tasks[key].(status := Completed)], claims := q.claims - {id})
      case CompleteLost(id) =>
        var key := q.claims[id].key;
        q.(tasks := q.tasks[key := q.tasks[key].(status := Completed)],
           claims := q.claims[id := q.claims[id].(phase := CallFailed)])
      case Fail(id) => Failed(q, q.claims[id]).(claims := q.claims - {id})
      case Abandon(id) => q.(claims := q.claims - {id})
      case Decide(row, retry) =>
        var task := q.deadLetters[row].task;
        var status := if retry then RetryGranted else Discarded;
        q.(deadLetters := q.deadLetters[row := q.deadLetters[row].(status := status)],
           decisions := q.decisions + [Decision(row, Open, status)],
           tasks := if retry then q.tasks[task := q.tasks[task].(status := Pending, attempts := 0)] else q.tasks)
  }

  function Run(q: Queue, es: seq<Event>): Queue
    decreases |es|
  {
    if es == [] then q else Run(Step(q, es[0]), es[1..])
  }

  // ----- Dead-letter accounting -----

  function RowsFor(rows: seq<DeadLetter>, key: TaskKey): nat {
    if rows == [] then 0
    else RowsFor(rows[..|rows| - 1], key) + (if rows[|rows| - 1].task == key then 1 else 0)
  }

  function Decided(rows: seq<DeadLetter>): nat {
    if rows == [] then 0
    else Decided(rows[..|rows| - 1]) + (if rows[|rows| - 1].status != Open then 1 else 0)
  }

  /** The step moves task `key` to dead-lettered. */
  predicate DeadLettersTask(q: Queue, e: Event, key: TaskKey) {
    e.Fail? && Enabled(q, e) && q.claims[e.id].key == key && Step(q, e).tasks[key].status == DeadLettered
  }

  function DeadLetterings(q: Queue, es: seq<Event>, key: TaskKey): nat
    decreases |es|
  {
    if es == [] then 0
    else (if DeadLettersTask(q, es[0], key) then 1 else 0) + DeadLetterings(Step(q, es[0]), es[1..], key)
  }

  /** The decisions are exactly the decided rows, each once and each taken while the row was open. */
  ghost predicate DecisionsMatch(q: Queue) {
    && Decided(q.deadLetters) == |q.decisions|
    && (forall i | 0 <= i < |q.decisions| ::
          && q.decisions[i].row < |q.deadLetters|
          && q.decisions[i].oldStatus == Open
          && q.decisions[i].newStatus != Open
          && q.deadLetters[q.decisions[i].row].status == q.decisions[i].newStatus)
    && (forall i, j | 0 <= i < j < |q.decisions| :: q.decisions[i].row != q.decisions[j].row)
  }

  lemma {:induction false} RowUpdate(rows: seq<DeadLetter>, row: nat, status: DeadLetterStatus, key: TaskKey)
    requires row < |rows|
    ensures var rows' := rows[row := rows[row].(status := status)];
            && RowsFor(rows', key) == RowsFor(rows, key)
            && Decided(rows') == Decided(rows) + (if status != Open then 1 else 0)
                                 - (if rows[row].status != Open then 1 else 0)
  {
    var last := |rows| - 1;
    var rows' := rows[row := rows[row].(status := status)];
    if row == last {
      assert rows'[..last] == rows[..last];
    } else {
      RowUpdate(rows[..last], row, status, key);
      assert rows'[..last] == rows[..last][row := rows[..last][row].(status := status)];
    }
  }

  lemma RowAppend(rows: seq<DeadLetter>, r: DeadLetter, key: TaskKey)
    ensures RowsFor(rows + [r], key) == RowsFor(rows, key) + (if r.task == key then 1 else 0)
    ensures Decided(rows + [r]) == Decided(rows) + (if r.status != Open then 1 else 0)
  {
  }

  lemma DeadLetterStep(q: Queue, e: Event, key: TaskKey)
    ensures RowsFor(Step(q, e).deadLetters, key)
            == RowsFor(q.deadLetters, key) + (if DeadLettersTask(q, e, key) then 1 else 0)
  {
    if Enabled(q, e) {
      if e.Fail? {
        RowAppend(q.deadLetters, DeadLetter(q.claims[e.id].key, Open), key);
      } else if e.Decide? {
        RowUpdate(q.deadLetters, e.row, if e.retry then RetryGranted else Discarded, key);
      }
    }
  }

  lemma NewRowKeepsDecisions(q: Queue, r: DeadLetter)
    requires DecisionsMatch(q) && r.status == Open
    ensures DecisionsMatch(q.(deadLetters := q.deadLetters + [r]))
  {
  }

  lemma DecisionRecorded(q: Queue, row: nat, status: DeadLetterStatus)
    requires DecisionsMatch(q) && row < |q.deadLetters| && q.deadLetters[row].status == Open && status != Open
    ensures DecisionsMatch(q.(deadLetters := q.deadLetters[row := q.deadLetters[row].(status := status)],
                              decisions := q.decisions + [Decision(row, Open, status)]))
  {
    RowUpdate(q.deadLetters, row, status, q.deadLetters[row].task);
  }

  lemma DecisionStep(q: Queue, e: Event)
    requires DecisionsMatch(q)
    ensures DecisionsMatch(Step(q, e))
  {
    if Enabled(q, e) {
      if e.Fail? {
        NewRowKeepsDecisions(q, DeadLetter(q.claims[e.id].key, Open));
      } else if e.Decide? {
        DecisionRecorded(q, e.row, if e.retry then RetryGranted else Discarded);
      }
    }
  }

  /**
   * Over every run, with any number of workers: a task gains one dead letter per transition to
   * dead-lettered, and the decision log stays one to one with the decided rows.
   */
  lemma {:induction false} DeadLetterAccounting(q: Queue, es: seq<Event>, key: TaskKey)
    requires DecisionsMatch(q)
    ensures DecisionsMatch(Run(q, es))
    ensures RowsFor(Run(q, es).deadLetters, key) == RowsFor(q.deadLetters, key) + DeadLetterings(q, es, key)
    decreases |es|
  {
    if es != [] {
      DeadLetterStep(q, es[0], key);
      DecisionStep(q, es[0]);
      DeadLetterAccounting(Step(q, es[0]), es[1..], key);
    }
  }

  /** A decision, once taken, stands: no later step reopens or changes the row. */
  lemma {:induction false} DecisionStands(q: Queue, es: seq<Event>, row: nat)
    requires row < |q.deadLetters|
    ensures row < |Run(q, es).deadLetters| && Run(q, es).deadLetters[row].task == q.deadLetters[row].task
    ensures q.deadLetters[row].status != Open ==> Run(q, es).deadLetters[row] == q.deadLetters[row]
    decreases |es|
  {
    if es != [] {
      DecisionStands(Step(q, es[0]), es[1..], row);
    }
  }

  // ----- Progress -----

  /** Claims stand for existing tasks and know their limit, whatever has become of the attempts since. */
  ghost predicate LimitsKnown(q: Queue) {
    forall id | id in q.claims ::
      q.claims[id].key in q.tasks && q.tasks[q.claims[id].key].maxAttempts == q.claims[id].task.maxAttempts
  }

  /** How many more failures the task can take that are only retried. */
  function RetriesLeft(q: Queue, key: TaskKey): nat
    requires key in q.tasks
  {
    if q.tasks[key].attempts + 1 < q.tasks[key].maxAttempts then q.tasks[key].maxAttempts - 1 - q.tasks[key].attempts else 0
  }

  /** A failure of task `key` that does not dead-letter it. */
  predicate RetriesTask(q: Queue, e: Event, key: TaskKey) {
    e.Fail? && Enabled(q, e) && q.claims[e.id].key == key && !DeadLetters(q.claims[e.id])
  }

  predicate Resets(q: Queue, e: Event, key: TaskKey) {
    e.Decide? && e.retry && Enabled(q, e) && q.deadLetters[e.row].task == key
  }

  function RetriedFailures(q: Queue, es: seq<Event>, key: TaskKey): nat
    decreases |es|
  {
    if es == [] then 0
    else (if RetriesTask(q, es[0], key) then 1 else 0) + RetriedFailures(Step(q, es[0]), es[1..], key)
  }

  function ResetCount(q: Queue, es: seq<Event>, key: TaskKey): nat
    decreases |es|
  {
    if es == [] then 0
    else (if Resets(q, es[0], key) then 1 else 0) + ResetCount(Step(q, es[0]), es[1..], key)
  }

  /** The failure is recorded from a claim that has counted fewer attempts than the row has by now. */
  predicate StaleFailure(q: Queue, e: Event, key: TaskKey)
    requires key in q.tasks
  {
    RetriesTask(q, e, key) && q.claims[e.id].task.attempts < q.tasks[key].attempts
  }

  lemma LimitsStep(q: Queue, e: Event, key: TaskKey)
    requires LimitsKnown(q) && key in q.tasks
    ensures LimitsKnown(Step(q, e)) && key in Step(q, e).tasks
    ensures Step(q, e).tasks[key].maxAttempts == q.tasks[key].maxAttempts
  {
  }

  /** A retried failure uses up a retry exactly when it is not stale. */
  lemma RetryUsedExactly(q: Queue, e: Event, key: TaskKey)
    requires LimitsKnown(q) && key in q.tasks && RetriesTask(q, e, key)
    ensures key in Step(q, e).tasks
    ensures RetriesLeft(Step(q, e), key) < RetriesLeft(q, key) <==> !StaleFailure(q, e, key)
  {
  }

  predicate NoStaleFailure(q: Queue, es: seq<Event>, key: TaskKey)
    decreases |es|
  {
    es == [] || ((key in q.tasks ==> !StaleFailure(q, es[0], key)) && NoStaleFailure(Step(q, es[0]), es[1..], key))
  }

  predicate EveryRetryCounts(q: Queue, es: seq<Event>, key: TaskKey)
    requires key in q.tasks
    decreases |es|
  {
    es == []
    || ((RetriesTask(q, es[0], key) ==> key in Step(q, es[0]).tasks && RetriesLeft(Step(q, es[0]), key) < RetriesLeft(q, key))
        && key in Step(q, es[0]).tasks && EveryRetryCounts(Step(q, es[0]), es[1..], key))
  }

  /** In a run every retried failure of a task uses up a retry exactly when none of its failures is stale. */
  lemma {:induction false} RetriesCountExactly(q: Queue, es: seq<Event>, key: TaskKey)
    requires LimitsKnown(q) && key in q.tasks
    ensures EveryRetryCounts(q, es, key) <==> NoStaleFailure(q, es, key)
    decreases |es|
  {
    if es != [] {
      LimitsStep(q, es[0], key);
      if RetriesTask(q, es[0], key) {
        RetryUsedExactly(q, es[0], key);
      }
      RetriesCountExactly(Step(q, es[0]), es[1..], key);
    }
  }

  lemma ProgressStep(q: Queue, e: Event, key: TaskKey)
    requires LimitsKnown(q) && key in q.tasks && !StaleFailure(q, e, key)
    ensures var q' := Step(q, e);
            && key in q'.tasks
            && RetriesLeft(q', key) + (if RetriesTask(q, e, key) then 1 else 0)
               <= RetriesLeft(q, key) + (if Resets(q, e, key) && q.tasks[key].maxAttempts > 0
                                         then q.tasks[key].maxAttempts - 1 else 0)
  {
  }

  /**
   * Without a stale failure a task is merely retried at most as often as it has retries left, plus a full
   * allowance for each dead letter an administrator sends back; every further failure dead-letters it.
   * Neither overlapping claims nor re-enqueuing change that by themselves.
   */
  lemma {:induction false} BoundedRetries(q: Queue, es: seq<Event>, key: TaskKey, allowance: nat)
    requires LimitsKnown(q) && key in q.tasks && q.tasks[key].maxAttempts == allowance + 1
    requires NoStaleFailure(q, es, key)
    ensures RetriedFailures(q, es, key) <= RetriesLeft(q, key) + ResetCount(q, es, key) * allowance
    decreases |es|
  {
    if es != [] {
      ProgressStep(q, es[0], key);
      LimitsStep(q, es[0], key);
      BoundedRetries(Step(q, es[0]), es[1..], key, allowance);
      OneMore(ResetCount(Step(q, es[0]), es[1..], key), allowance);
    }
  }

  // ----- One claim at a time -----

  /** No task is claimed while an earlier claim of it is still open. */
  predicate OneClaimAtATime(q: Queue, es: seq<Event>)
    decreases |es|
  {
    es == []
    || ((es[0].ClaimTask? ==> forall id | id in q.claims :: q.claims[id].key != es[0].key)
        && OneClaimAtATime(Step(q, es[0]), es[1..]))
  }

  ghost predicate ClaimsCurrent(q: Queue) {
    && LimitsKnown(q)
    && (forall id | id in q.claims :: q.tasks[q.claims[id].key].attempts <= q.claims[id].task.attempts)
    && (forall i, j | i in q.claims && j in q.claims && i != j :: q.claims[i].key != q.claims[j].key)
  }

  lemma CurrentStep(q: Queue, e: Event)
    requires ClaimsCurrent(q)
    requires e.ClaimTask? ==> forall id | id in q.claims :: q.claims[id].key != e.key
    ensures ClaimsCurrent(Step(q, e))
  {
    var q' := Step(q, e);
    assert LimitsKnown(q');
    forall id | id in q'.claims ensures q'.tasks[q'.claims[id].key].attempts <= q'.claims[id].task.attempts {
      CurrentClaim(q, e, id);
    }
    forall i, j | i in q'.claims && j in q'.claims && i != j ensures q'.claims[i].key != q'.claims[j].key {
      SameClaim(q, e, i);
      SameClaim(q, e, j);
    }
  }

  /** A claim keeps its key and its task; a new one is of the task as it was. */
  lemma SameClaim(q: Queue, e: Event, id: nat)
    requires id in Step(q, e).claims
    ensures if id in q.claims then Step(q, e).claims[id] == q.claims[id].(phase := Step(q, e).claims[id].phase)
            else e == ClaimTask(id, Step(q, e).claims[id].key)
                 && e.key in q.tasks && Step(q, e).claims[id].task == q.tasks[e.key]
  {
  }

  lemma CurrentClaim(q: Queue, e: Event, id: nat)
    requires ClaimsCurrent(q) && id in Step(q, e).claims
    requires e.ClaimTask? ==> forall i | i in q.claims :: q.claims[i].key != e.key
    ensures var c := Step(q, e).claims[id];
            c.key in Step(q, e).tasks && Step(q, e).tasks[c.key].attempts <= c.task.attempts
  {
    SameClaim(q, e, id);
  }

  /** Claims that never overlap are never stale. */
  lemma {:induction false} SingleClaimsNeverStale(q: Queue, es: seq<Event>, key: TaskKey)
    requires ClaimsCurrent(q) && OneClaimAtATime(q, es)
    ensures NoStaleFailure(q, es, key)
    decreases |es|
  {
    if es != [] {
      CurrentStep(q, es[0]);
      SingleClaimsNeverStale(Step(q, es[0]), es[1..], key);
    }
  }

  lemma OneMore(n: nat, m: nat)
    ensures (1 + n) * m == m + n * m
  {
  }

  lemma CountCons(q: Queue, e: Event, es: seq<Event>, key: TaskKey)
    ensures RetriedFailures(q, [e] + es, key)
            == (if RetriesTask(q, e, key) then 1 else 0) + RetriedFailures(Step(q, e), es, key)
    ensures ResetCount(q, [e] + es, key) == (if Resets(q, e, key) then 1 else 0) + ResetCount(Step(q, e), es, key)
  {
  }

  /** A stale failure breaks the bound: of two overlapping claims both write the same attempt count. */
  lemma OverlappingClaimsRetryTwice(q: Queue, key: TaskKey)
    requires key in q.tasks && q.tasks[key].status == Pending && q.tasks[key].attempts + 2 == q.tasks[key].maxAttempts
    requires q.claims == map[]
    ensures var es := [ClaimTask(1, key)] + ([Enqueue(key, q.tasks[key].action, q.tasks[key].reservation)] + ([ClaimTask(2, key)]
                      + ([CallReturned(1, false)] + ([CallReturned(2, false)] + ([Fail(1)] + ([Fail(2)] + []))))));
            && LimitsKnown(q) && RetriesLeft(q, key) == 1
            && ResetCount(q, es, key) == 0 && RetriedFailures(q, es, key) == 2
  {
    var again := Enqueue(key, q.tasks[key].action, q.tasks[key].reservation);
    var q1 := Step(q, ClaimTask(1, key));
    var q2 := Step(q1, again);
    var q3 := Step(q2, ClaimTask(2, key));
    var q4 := Step(q3, CallReturned(1, false));
    var q5 := Step(q4, CallReturned(2, false));
    var q6 := Step(q5, Fail(1));
    CountCons(q6, Fail(2), [], key);
    CountCons(q5, Fail(1), [Fail(2)] + [], key);
    CountCons(q4, CallReturned(2, false), [Fail(1)] + ([Fail(2)] + []), key);
    CountCons(q3, CallReturned(1, false), [CallReturned(2, false)] + ([Fail(1)] + ([Fail(2)] + [])), key);
    CountCons(q2, ClaimTask(2, key), [CallReturned(1, false)] + ([CallReturned(2, false)] + ([Fail(1)] + ([Fail(2)] + []))), key);
    CountCons(q1, again, [ClaimTask(2, key)] + ([CallReturned(1, false)] + ([CallReturned(2, false)]
                         + ([Fail(1)] + ([Fail(2)] + [])))), key);
    CountCons(q, ClaimTask(1, key), [again] + ([ClaimTask(2, key)] + ([CallReturned(1, false)] + ([CallReturned(2, false)]
                                    + ([Fail(1)] + ([Fail(2)] + []))))), key);
  }
}
