/** The queue inside the saga runs like the queue on its own, so its accounting holds in every interleaving of the three services. */
module SagaQueue {
  import opened Collections
  import opened OrderState
  import Q = CompensationQueue
  import opened Saga

  function ManualEvents(adminKey: string, action: Action, lines: seq<string>, from: nat): seq<Q.Event>
    requires from <= |lines|
    decreases |lines| - from
  {
    if from == |lines| then []
    else [Q.Enqueue(Q.AdminKey(adminKey, from), action, lines[from])] + ManualEvents(adminKey, action, lines, from + 1)
  }

  /** What a step of the saga does to the queue. */
  function QueueEvents(w: World, e: Event): seq<Q.Event> {
    if !Enabled(w, e) then []
    else
      match e
      case EnqueueLine(run, stored) =>
        var r := w.runs[run];
        if stored then [Q.Enqueue(Q.LineKey(r.lines[r.next], r.action), r.action, r.lines[r.next])] else []
      case ManualCompensation(order, action, adminKey) => ManualEvents(adminKey, action, w.orders[order].lines, 0)
      case WorkerClaim(id, key) => [Q.ClaimTask(id, key)]
      case WorkerCall(id, d) =>
        var task := w.queue.claims[id].task;
        [Q.CallReturned(id, Delivered(w.store, InventoryCall(task.action, task.reservation), d).1)]
      case WorkerWrite(q) => [q]
      case _ => []
  }

  function Projected(w: World, es: seq<Event>): seq<Q.Event>
    decreases |es|
  {
    if es == [] then [] else QueueEvents(w, es[0]) + Projected(Step(w, es[0]), es[1..])
  }

  lemma {:induction false} QueueRunAppend(q: Q.Queue, es: seq<Q.Event>, fs: seq<Q.Event>)
    ensures Q.Run(q, es + fs) == Q.Run(Q.Run(q, es), fs)
    decreases |es|
  {
    if es == [] {
      assert es + fs == fs;
    } else {
      assert (es + fs)[1..] == es[1..] + fs;
      QueueRunAppend(Q.Step(q, es[0]), es[1..], fs);
    }
  }

  lemma {:induction false} ManualProjects(q: Q.Queue, adminKey: string, action: Action, lines: seq<string>, from: nat)
    requires from <= |lines|
    ensures EnqueuedAll(q, adminKey, action, lines, from) == Q.Run(q, ManualEvents(adminKey, action, lines, from))
    decreases |lines| - from
  {
    if from < |lines| {
      var es := ManualEvents(adminKey, action, lines, from);
      assert es[1..] == ManualEvents(adminKey, action, lines, from + 1);
      ManualProjects(Q.Enqueued(q, Q.AdminKey(adminKey, from), action, lines[from]), adminKey, action, lines, from + 1);
    }
  }

  lemma OneEvent(q: Q.Queue, e: Q.Event)
    ensures Q.Run(q, [e]) == Q.Step(q, e) && Q.Run(q, []) == q
  {
  }

  lemma StepProjects(w: World, e: Event)
    ensures Step(w, e).queue == Q.Run(w.queue, QueueEvents(w, e))
  {
    if Enabled(w, e) {
      match e
      case ManualCompensation(order, action, adminKey) => ManualProjects(w.queue, adminKey, action, w.orders[order].lines, 0);
      case EnqueueLine(run, stored) =>
        var r := w.runs[run];
        OneEvent(w.queue, Q.Enqueue(Q.LineKey(r.lines[r.next], r.action), r.action, r.lines[r.next]));
      case WorkerClaim(id, key) => OneEvent(w.queue, Q.ClaimTask(id, key));
      case WorkerCall(id, d) => OneEvent(w.queue, QueueEvents(w, e)[0]);
      case WorkerWrite(q) => OneEvent(w.queue, q);
      case _ =>
    }
  }

  lemma {:induction false} ExecProjects(w: World, es: seq<Event>)
    ensures Exec(w, es).queue == Q.Run(w.queue, Projected(w, es))
    decreases |es|
  {
    if es != [] {
      StepProjects(w, es[0]);
      ExecProjects(Step(w, es[0]), es[1..]);
      QueueRunAppend(w.queue, QueueEvents(w, es[0]), Projected(Step(w, es[0]), es[1..]));
    }
  }

  /**
   * In every interleaving of payment runs, manual compensations and workers a task has one dead letter per
   * transition to dead-lettered, and the decision log is one to one with the decided dead letters.
   */
  lemma DeadLettersInSaga(w: World, es: seq<Event>, key: Q.TaskKey)
    requires Q.DecisionsMatch(w.queue)
    ensures var end := Exec(w, es).queue;
            && Q.DecisionsMatch(end)
            && Q.RowsFor(end.deadLetters, key) == Q.RowsFor(w.queue.deadLetters, key) + Q.DeadLetterings(w.queue, Projected(w, es), key)
  {
    ExecProjects(w, es);
    Q.DeadLetterAccounting(w.queue, Projected(w, es), key);
  }

  /** Without a stale failure, re-enqueuing runs and overlapping workers included, a task is merely retried within its allowance. */
  lemma RetriesInSaga(w: World, es: seq<Event>, key: Q.TaskKey, allowance: nat)
    requires Q.LimitsKnown(w.queue) && key in w.queue.tasks && w.queue.tasks[key].maxAttempts == allowance + 1
    requires Q.NoStaleFailure(w.queue, Projected(w, es), key)
    ensures Exec(w, es).queue == Q.Run(w.queue, Projected(w, es))
    ensures Q.RetriedFailures(w.queue, Projected(w, es), key)
            <= Q.RetriesLeft(w.queue, key) + Q.ResetCount(w.queue, Projected(w, es), key) * allowance
  {
    ExecProjects(w, es);
    Q.BoundedRetries(w.queue, Projected(w, es), key, allowance);
  }
}
