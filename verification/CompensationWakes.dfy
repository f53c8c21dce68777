/** When a compensation task is to be worked on: what decisions, enqueues, failures and completions make of it. */
module CompensationWakes {
  import opened Collections
  import opened OrderState
  import opened CompensationQueue

  /** A retry decision on an open row gives the task a fresh start; a discard leaves every task alone. */
  lemma DecideExactly(q: Queue, row: nat, retry: bool)
    ensures var q' := Step(q, Decide(row, retry));
            if row < |q.deadLetters| && q.deadLetters[row].status == Open && q.deadLetters[row].task in q.tasks then
              var key := q.deadLetters[row].task;
              && q'.deadLetters == q.deadLetters[row := DeadLetter(key, if retry then RetryGranted else Discarded)]
              && q'.decisions == q.decisions + [Decision(row, Open, if retry then RetryGranted else Discarded)]
              && q'.claims == q.claims && q'.tasks.Keys == q.tasks.Keys
              && (forall k | k in q.tasks && (k != key || !retry) :: q'.tasks[k] == q.tasks[k])
              && (retry ==>
                    && q'.tasks[key] == Task(q.tasks[key].action, q.tasks[key].reservation, Pending, 0, q.tasks[key].maxAttempts)
                    && Due(q', key)
                    && RetriesLeft(q', key) == if q.tasks[key].maxAttempts > 0 then q.tasks[key].maxAttempts - 1 else 0)
            else q' == q
  {
  }

  /** Whatever a task's status was, an enqueue of its key makes it due; only a new task starts with all its attempts. */
  lemma EnqueueExactly(q: Queue, key: TaskKey, action: Action, reservation: string)
    ensures var q' := Step(q, Enqueue(key, action, reservation));
            && Due(q', key) && q'.tasks.Keys == q.tasks.Keys + {key} && (forall k | k in q.tasks && k != key :: q'.tasks[k] == q.tasks[k])
            && q'.claims == q.claims && q'.deadLetters == q.deadLetters && q'.decisions == q.decisions
            && q'.tasks[key] == if key in q.tasks then Task(q.tasks[key].action, reservation, Pending, q.tasks[key].attempts, q.tasks[key].maxAttempts)
                                else Task(action, reservation, Pending, 0, 8)
  {
  }

  /**
   * An enqueue of the task, a retry decision on an open row of it, or a failure that some claim of it still has to record and
   * that is not its last.
   */
  predicate Wakes(q: Queue, e: Event, key: TaskKey) {
    match e
    case Enqueue(k, _, _) => k == key
    case Decide(row, retry) => retry && row < |q.deadLetters| && q.deadLetters[row] == DeadLetter(key, Open)
    case Fail(id) => id in q.claims && q.claims[id].key == key && q.claims[id].phase != Claimed
                     && q.claims[id].task.attempts + 1 < q.claims[id].task.maxAttempts
    case _ => false
  }

  /** A task that is being processed, completed or dead-lettered becomes due by these steps and no other. */
  lemma WakesExactly(q: Queue, e: Event, key: TaskKey)
    requires key in q.tasks && !Due(q, key)
    ensures key in Step(q, e).tasks
    ensures Due(Step(q, e), key) <==> Wakes(q, e, key)
  {
  }

  predicate BecomesDue(q: Queue, es: seq<Event>, key: TaskKey)
    decreases |es|
  {
    es != [] && (Due(Step(q, es[0]), key) || BecomesDue(Step(q, es[0]), es[1..], key))
  }

  predicate Woken(q: Queue, es: seq<Event>, key: TaskKey)
    decreases |es|
  {
    es != [] && (Wakes(q, es[0], key) || Woken(Step(q, es[0]), es[1..], key))
  }

  /** So over every run, a task whose claim was abandoned included: without such a step it stays as it is for good. */
  lemma {:induction false} BecomesDueExactly(q: Queue, es: seq<Event>, key: TaskKey)
    requires key in q.tasks && !Due(q, key)
    ensures BecomesDue(q, es, key) <==> Woken(q, es, key)
    decreases |es|
  {
    if es != [] {
      WakesExactly(q, es[0], key);
      if !Due(Step(q, es[0]), key) {
        BecomesDueExactly(Step(q, es[0]), es[1..], key);
      }
    }
  }

  /** An enqueue, or a retry decision on an open row. */
  predicate Requeues(q: Queue, e: Event, key: TaskKey) {
    (e.Enqueue? && e.key == key) || (e.Decide? && e.retry && e.row < |q.deadLetters| && q.deadLetters[e.row] == DeadLetter(key, Open))
  }

  predicate Requeued(q: Queue, es: seq<Event>, key: TaskKey)
    decreases |es|
  {
    es != [] && (Requeues(q, es[0], key) || Requeued(Step(q, es[0]), es[1..], key))
  }

  /** While no claims of one task overlap, a dead-lettered task has none left, and only requeuing makes it due again. */
  lemma {:induction false} DeadLetteredExactly(q: Queue, es: seq<Event>, key: TaskKey)
    requires ClaimsCurrent(q) && OneClaimAtATime(q, es) && key in q.tasks && q.tasks[key].status == DeadLettered
    requires forall id | id in q.claims :: q.claims[id].key != key
    ensures BecomesDue(q, es, key) <==> Requeued(q, es, key)
    ensures !Requeued(q, es, key) ==> key in Run(q, es).tasks && Run(q, es).tasks[key] == q.tasks[key]
    decreases |es|
  {
    if es != [] {
      WakesExactly(q, es[0], key);
      CurrentStep(q, es[0]);
      if !Requeues(q, es[0], key) {
        StaysDeadLettered(q, es[0], key);
        DeadLetteredExactly(Step(q, es[0]), es[1..], key);
      }
    }
  }

  lemma StaysDeadLettered(q: Queue, e: Event, key: TaskKey)
    requires LimitsKnown(q) && key in q.tasks && q.tasks[key].status == DeadLettered && !Requeues(q, e, key)
    requires forall id | id in q.claims :: q.claims[id].key != key
    ensures key in Step(q, e).tasks && Step(q, e).tasks[key] == q.tasks[key]
    ensures forall id | id in Step(q, e).claims :: Step(q, e).claims[id].key != key
  {
  }

  /**
   * A claim learns the outcome of its call once; a success that could not be reported counts as a failure. It ends with its own
   * completion or failure, or is abandoned.
   */
  lemma ClaimAfterExactly(q: Queue, e: Event, id: nat)
    requires id in q.claims && q.claims[id].key in q.tasks
    ensures var (c, claims) := (q.claims[id], Step(q, e).claims);
            match e
            case CallReturned(i, ok) => id in claims && claims[id] == if i == id && c.phase == Claimed
                                                                      then Claim(c.key, c.task, if ok then CallSucceeded else CallFailed) else c
            case CompleteLost(i) => id in claims && claims[id] == if i == id && c.phase == CallSucceeded then Claim(c.key, c.task, CallFailed) else c
            case Complete(i) => if i == id && c.phase == CallSucceeded then id !in claims else id in claims && claims[id] == c
            case Fail(i) => if i == id && c.phase != Claimed then id !in claims else id in claims && claims[id] == c
            case Abandon(i) => if i == id then id !in claims else id in claims && claims[id] == c
            case _ => id in claims && claims[id] == c
  {
  }

  /** A claim takes a due task as it is, under a number of its own, and nobody else can take the task meanwhile. */
  lemma ClaimExactly(q: Queue, id: nat, key: TaskKey)
    ensures var q' := Step(q, ClaimTask(id, key));
            if id !in q.claims && key in q.tasks && (q.tasks[key].status == Pending || q.tasks[key].status == Retrying) then
              && q'.claims == q.claims[id := Claim(key, q.tasks[key], Claimed)] && !Due(q', key)
              && q'.tasks == q.tasks[key := q.tasks[key].(status := Processing)] && q'.deadLetters == q.deadLetters && q'.decisions == q.decisions
            else q' == q
  {
  }

  // ----- One task, failing again and again -----

  /** Claimed, called in vain, and the failure recorded, `n` times. */
  function Rounds(key: TaskKey, id: nat, n: nat): seq<Event> {
    if n == 0 then [] else Rounds(key, id, n - 1) + [ClaimTask(id, key), CallReturned(id, false), Fail(id)]
  }

  lemma {:induction false} RunAppend(q: Queue, es: seq<Event>, fs: seq<Event>)
    ensures Run(q, es + fs) == Run(Run(q, es), fs)
    decreases |es|
  {
    if es == [] {
      assert es + fs == fs;
    } else {
      assert (es + fs)[1..] == es[1..] + fs;
      RunAppend(Step(q, es[0]), es[1..], fs);
    }
  }

  lemma RunThree(q: Queue, a: Event, b: Event, c: Event)
    ensures Run(q, [a, b, c]) == Step(Step(Step(q, a), b), c)
  {
    assert [a, b, c][1..] == [b, c] && [b, c][1..] == [c] && [c][1..] == [];
    assert Run(Step(Step(q, a), b), [c]) == Step(Step(Step(q, a), b), c);
  }

  /** One failing round of a due task: an attempt more, and a dead letter exactly if that was the last one. */
  lemma OneRound(q: Queue, key: TaskKey, id: nat)
    requires Due(q, key) && id !in q.claims
    ensures var (q', t) := (Run(q, [ClaimTask(id, key), CallReturned(id, false), Fail(id)]), q.tasks[key]);
            var last := t.attempts + 1 >= t.maxAttempts;
            && q'.tasks == q.tasks[key := t.(status := if last then DeadLettered else Retrying, attempts := t.attempts + 1)]
            && q'.claims == q.claims && q'.decisions == q.decisions
            && q'.deadLetters == q.deadLetters + if last then [DeadLetter(key, Open)] else []
  {
    RunThree(q, ClaimTask(id, key), CallReturned(id, false), Fail(id));
  }

  /** A task whose calls all fail is retried until its attempts are used up, and dead-lettered by the last of them and no earlier. */
  lemma {:induction false} FailsToTheEnd(q: Queue, key: TaskKey, id: nat, n: nat)
    requires Due(q, key) && id !in q.claims && 0 < n <= q.tasks[key].maxAttempts - q.tasks[key].attempts
    ensures var (q', t) := (Run(q, Rounds(key, id, n)), q.tasks[key]);
            var last := t.attempts + n == t.maxAttempts;
            && q'.tasks == q.tasks[key := t.(status := if last then DeadLettered else Retrying, attempts := t.attempts + n)]
            && q'.claims == q.claims && q'.deadLetters == q.deadLetters + if last then [DeadLetter(key, Open)] else []
  {
    var round := [ClaimTask(id, key), CallReturned(id, false), Fail(id)];
    RunAppend(q, Rounds(key, id, n - 1), round);
    if n == 1 {
      OneRound(q, key, id);
    } else {
      FailsToTheEnd(q, key, id, n - 1);
      OneRound(Run(q, Rounds(key, id, n - 1)), key, id);
    }
  }

  /** A call that succeeds completes the task at once, and it is not due again. */
  lemma OneSuccess(q: Queue, key: TaskKey, id: nat)
    requires Due(q, key) && id !in q.claims
    ensures var q' := Run(q, [ClaimTask(id, key), CallReturned(id, true), Complete(id)]);
            q' == q.(tasks := q.tasks[key := q.tasks[key].(status := Completed)]) && !Due(q', key)
  {
    RunThree(q, ClaimTask(id, key), CallReturned(id, true), Complete(id));
    assert q.claims[id := Claim(key, q.tasks[key], Claimed)] - {id} == q.claims;
  }
}
