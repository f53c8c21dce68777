/** The compensation worker as it runs: one batch at a time, one task after the other. */
module WorkerService {
  import opened Collections
  import opened InventoryBackend
  import opened InventoryStores
  import opened OrderState
  import Q = CompensationQueue
  import opened Saga

  /** What becomes of a task's call, of the write that completes it and of the write that records a failure. */
  datatype Script = Script(call: Delivery, completion: Delivery, failure: Delivery)

  function CompletionEvents(id: nat, d: Delivery): seq<Event> {
    match d
    case Acked => [WorkerWrite(Q.Complete(id))]
    case ReplyLost => [WorkerWrite(Q.CompleteLost(id))]
    case NotDone => []
  }

  function FailureEvent(id: nat, d: Delivery): Event {
    WorkerWrite(if d == NotDone then Q.Abandon(id) else Q.Fail(id))
  }

  /** One claimed task: the call, then the completion, then the failure; what the outcome rules out finds nothing to do. */
  function TaskEvents(id: nat, s: Script): seq<Event> {
    [WorkerCall(id, s.call)] + CompletionEvents(id, s.completion) + [FailureEvent(id, s.failure)]
  }

  function ClaimEvents(first: nat, keys: seq<Q.TaskKey>): seq<Event> {
    if keys == [] then []
    else ClaimEvents(first, keys[..|keys| - 1]) + [WorkerClaim(first + |keys| - 1, keys[|keys| - 1])]
  }

  function BatchEvents(first: nat, scripts: seq<Script>): seq<Event> {
    if scripts == [] then []
    else BatchEvents(first, scripts[..|scripts| - 1]) + TaskEvents(first + |scripts| - 1, scripts[|scripts| - 1])
  }

  /** The claims that an ended pass leaves behind. */
  function AbandonEvents(first: nat, n: nat): seq<Event> {
    if n == 0 then [] else AbandonEvents(first, n - 1) + [WorkerWrite(Q.Abandon(first + n - 1))]
  }

  /** A pass that claimed `keys` and got through the first `done` of them. */
  function PassEvents(first: nat, keys: seq<Q.TaskKey>, scripts: seq<Script>, done: nat): seq<Event>
    requires done <= |keys| && done <= |scripts|
  {
    ClaimEvents(first, keys) + (BatchEvents(first, scripts[..done]) + AbandonEvents(first + done, |keys| - done))
  }

  function Completion(w: World, id: nat, d: Delivery): World {
    match d
    case Acked => Step(w, WorkerWrite(Q.Complete(id)))
    case ReplyLost => Step(w, WorkerWrite(Q.CompleteLost(id)))
    case NotDone => w
  }

  /** What the completing write leaves of a successful claim. */
  lemma CompletionWrites(w: World, id: nat, d: Delivery)
    requires id in w.queue.claims && w.queue.claims[id].phase == Q.CallSucceeded && w.queue.claims[id].key in w.queue.tasks
    ensures var (q, c) := (w.queue, w.queue.claims[id]);
            Completion(w, id, d)
            == if d == NotDone then w
               else w.(queue := q.(tasks := q.tasks[c.key := q.tasks[c.key].(status := Q.Completed)],
                                   claims := if d == Acked then q.claims - {id} else q.claims[id := c.(phase := Q.CallFailed)]))
  {
  }

  /** What the write of a failure leaves of a claim. */
  lemma FailureWrites(w: World, id: nat, d: Delivery)
    requires id in w.queue.claims && w.queue.claims[id].phase != Q.Claimed && w.queue.claims[id].key in w.queue.tasks
    ensures Step(w, FailureEvent(id, d))
            == w.(queue := (if d == NotDone then w.queue else Q.Failed(w.queue, w.queue.claims[id])).(claims := w.queue.claims - {id}))
  {
  }

  lemma FailureIgnoresPhase(q: Q.Queue, c: Q.Claim, d: Q.Claim)
    requires c.key in q.tasks && d == c.(phase := d.phase)
    ensures Q.Failed(q, c) == Q.Failed(q, d)
  {
  }

  lemma ExecOne(w: World, e: Event)
    ensures Exec(w, [e]) == Step(w, e)
  {
    assert [e][1..] == [];
  }

  lemma TaskInParts(w: World, id: nat, s: Script)
    ensures Exec(w, TaskEvents(id, s))
            == Step(Completion(Step(w, WorkerCall(id, s.call)), id, s.completion), FailureEvent(id, s.failure))
  {
    var (call, rest) := ([WorkerCall(id, s.call)], CompletionEvents(id, s.completion));
    ExecAppend(w, call + rest, [FailureEvent(id, s.failure)]);
    ExecAppend(w, call, rest);
    ExecOne(w, call[0]);
    ExecOne(Exec(w, call + rest), FailureEvent(id, s.failure));
    if rest != [] {
      ExecOne(Step(w, call[0]), rest[0]);
    }
  }

  lemma {:induction false} AbandonAll(w: World, first: nat, n: nat)
    ensures Exec(w, AbandonEvents(first, n)) == w.(queue := w.queue.(claims := Without(w.queue.claims, first, n)))
  {
    if n > 0 {
      AbandonAll(w, first, n - 1);
      var before := Exec(w, AbandonEvents(first, n - 1));
      ExecAppend(w, AbandonEvents(first, n - 1), [WorkerWrite(Q.Abandon(first + n - 1))]);
      ExecOne(before, WorkerWrite(Q.Abandon(first + n - 1)));
      WithoutMore(w.queue.claims, first, n - 1);
    } else {
      assert Without(w.queue.claims, first, 0) == w.queue.claims;
    }
  }

  class CompensationWorker {
    const inventory: InventoryService
    const batchSize: nat
    var tasks: map<Q.TaskKey, Q.Task>
    var deadLetters: seq<Q.DeadLetter>
    var isRunning: bool
    var processed: nat
    var retried: nat
    var deadLettered: nat
    ghost var decisions: seq<Q.Decision>
    ghost var claims: map<nat, Q.Claim>
    ghost var orders: map<string, Order>
    ghost var runs: map<nat, PaymentRun>
    ghost var lost: set<Q.TaskKey>
    ghost var won: set<(string, Action)>
    ghost var unreported: set<(string, Action)>

    constructor (inventory: InventoryService, batchSize: nat)
      ensures this.inventory == inventory && this.batchSize == batchSize && !isRunning
      ensures View() == Initial(inventory.View())
    {
      this.inventory, this.batchSize := inventory, batchSize;
      tasks, deadLetters, isRunning := map[], [], false;
      processed, retried, deadLettered := 0, 0, 0;
      decisions, claims, orders, runs, lost, won, unreported := [], map[], map[], map[], {}, {}, {};
    }

    ghost function View(): World
      reads this, inventory.memoryStore, inventory.repository
    {
      World(inventory.View(), orders, Q.Queue(tasks, claims, deadLetters, decisions), runs, lost, won, unreported)
    }

    function Handled(): nat
      reads this
    {
      processed + retried + deadLettered
    }

    method ClaimTask(key: Q.TaskKey, ghost id: nat) returns (task: Q.Task)
      requires id !in claims && Q.Due(View().queue, key)
      modifies this`tasks, this`claims
      ensures View() == Step(old(View()), WorkerClaim(id, key))
      ensures task == old(tasks)[key]
      ensures tasks == old(tasks)[key := task.(status := Q.Processing)]
      ensures claims == old(claims)[id := Q.Claim(key, task, Q.Claimed)]
    {
      ClaimWrites(View(), id, key);
      task := tasks[key];
      claims := claims[id := Q.Claim(key, task, Q.Claimed)];
      tasks := tasks[key := task.(status := Q.Processing)];
    }

    /** Claims the ripe keys that are pending or retrying, in order, up to the batch size. */
    method ClaimDueTasks(ripe: seq<Q.TaskKey>, ghost first: nat) returns (keys: seq<Q.TaskKey>, claimed: seq<Q.Task>)
      requires Distinct(ripe)
      requires forall id | id in claims :: id < first
      modifies this`tasks, this`claims
      ensures View() == Exec(old(View()), ClaimEvents(first, keys))
      ensures keys == Picked(old(tasks), ripe, batchSize)
      ensures |claimed| == |keys| && tasks.Keys == old(tasks).Keys
      ensures forall i | 0 <= i < |keys| :: keys[i] in old(tasks) && claimed[i] == old(tasks)[keys[i]]
      ensures claims == WithClaims(old(claims), first, keys, claimed)
    {
      keys, claimed := [], [];
      ghost var start := View();
      for n := 0 to |ripe|
        invariant Claiming(start, ripe[..n], first, keys, claimed)
      {
        PickedMore(start.queue.tasks, ripe, n, batchSize);
        var key := ripe[n];
        if |keys| < batchSize && key in tasks && (tasks[key].status == Q.Pending || tasks[key].status == Q.Retrying) {
          var task := ClaimAnother(start, first, keys, claimed, key);
          keys, claimed := keys + [key], claimed + [task];
        }
      }
      assert ripe[..|ripe|] == ripe;
    }

    /** The ripe keys seen so far have been claimed or skipped. */
    ghost predicate Claiming(start: World, seen: seq<Q.TaskKey>, first: nat, keys: seq<Q.TaskKey>, claimed: seq<Q.Task>)
      reads this, inventory.memoryStore, inventory.repository
    {
      keys == Picked(start.queue.tasks, seen, batchSize) && ClaimedSoFar(start, View(), first, keys, claimed)
    }

    method ClaimAnother(ghost start: World, ghost first: nat, ghost keys: seq<Q.TaskKey>,
                        ghost claimed: seq<Q.Task>, key: Q.TaskKey)
      returns (task: Q.Task)
      requires ClaimedSoFar(start, View(), first, keys, claimed)
      requires key !in keys && Q.Due(View().queue, key)
      modifies this`tasks, this`claims
      ensures ClaimedSoFar(start, View(), first, keys + [key], claimed + [task])
      ensures key in old(tasks) && task == old(tasks)[key]
    {
      FreshClaim(start, View(), first, keys, claimed);
      ghost var w := View();
      task := ClaimTask(key, first + |keys|);
      OneMoreClaimed(start, w, View(), first, keys, claimed, key, task);
    }

    /** The path follows the task's type, whatever its payload says. */
    method CallInventory(task: Q.Task, delivery: Delivery) returns (ok: bool)
      modifies inventory.memoryStore, inventory.repository
      ensures (inventory.View(), ok) == Delivered(old(inventory.View()), InventoryCall(task.action, task.reservation), delivery)
    {
      if delivery == NotDone {
        return false;
      }
      var reply := inventory.Handle(InventoryCall(task.action, task.reservation));
      ok := delivery == Acked && reply.Ok();
    }

    /** Retries or dead-letters the task; the counters move only if the write is acknowledged. */
    method RecordFailure(key: Q.TaskKey, task: Q.Task, d: Delivery) returns (ok: bool)
      requires key in tasks
      modifies this`tasks, this`deadLetters, this`retried, this`deadLettered
      ensures ok <==> d == Acked
      ensures View().queue == if d == NotDone then old(View()).queue else Q.Failed(old(View()).queue, Q.Claim(key, task, Q.CallFailed))
      ensures Handled() == old(Handled()) + if ok then 1 else 0
      ensures ok ==> deadLettered == old(deadLettered) + |deadLetters| - |old(deadLetters)|
    {
      var nextAttempt := task.attempts + 1;
      if d == NotDone {
        return false;
      }
      if nextAttempt >= task.maxAttempts {
        tasks := tasks[key := tasks[key].(status := Q.DeadLettered, attempts := nextAttempt)];
        deadLetters := deadLetters + [Q.DeadLetter(key, Q.Open)];
        if d == Acked {
          deadLettered := deadLettered + 1;
        }
        return d == Acked;
      }
      tasks := tasks[key := tasks[key].(status := Q.Retrying, attempts := nextAttempt)];
      if d == Acked {
        retried := retried + 1;
      }
      return d == Acked;
    }

    /** The write that completes the task; true when it is acknowledged. */
    method CompleteTask(key: Q.TaskKey, task: Q.Task, d: Delivery, ghost id: nat) returns (ok: bool)
      requires key in tasks && id in claims && claims[id] == Q.Claim(key, task, Q.CallSucceeded)
      modifies this`tasks, this`processed, this`claims
      ensures ok <==> d == Acked
      ensures View() == Completion(old(View()), id, d)
      ensures tasks.Keys == old(tasks).Keys
      ensures claims == if ok then old(claims) - {id} else if d == NotDone then old(claims) else old(claims)[id := Q.Claim(key, task, Q.CallFailed)]
      ensures Handled() == old(Handled()) + if ok then 1 else 0
    {
      CompletionWrites(View(), id, d);
      if d != NotDone {
        tasks := tasks[key := tasks[key].(status := Q.Completed)];
      }
      if d == Acked {
        processed := processed + 1;
        claims := claims - {id};
      } else if d == ReplyLost {
        claims := claims[id := Q.Claim(key, task, Q.CallFailed)];
      }
      return d == Acked;
    }

    /** The write that records the failure, if it comes to that; true when the error ends the pass. */
    method FailTask(key: Q.TaskKey, task: Q.Task, d: Delivery, ghost id: nat) returns (ended: bool)
      requires key in tasks && id in claims && claims[id].key == key && claims[id].task == task && claims[id].phase != Q.Claimed
      modifies this`tasks, this`deadLetters, this`retried, this`deadLettered, this`claims
      ensures View() == Step(old(View()), FailureEvent(id, d))
      ensures claims == old(claims) - {id} && tasks.Keys == old(tasks).Keys
      ensures ended <==> d != Acked
      ensures Handled() == old(Handled()) + if ended then 0 else 1
    {
      FailureWrites(View(), id, d);
      FailureIgnoresPhase(View().queue, claims[id], Q.Claim(key, task, Q.CallFailed));
      var recorded := RecordFailure(key, task, d);
      claims := claims - {id};
      return !recorded;
    }

    /** The writes for the outcome of the call. */
    method RecordOutcome(key: Q.TaskKey, task: Q.Task, ok: bool, s: Script, ghost id: nat) returns (ended: bool)
      requires key in tasks && id in claims
      requires claims[id] == Q.Claim(key, task, if ok then Q.CallSucceeded else Q.CallFailed)
      modifies this`tasks, this`deadLetters, this`processed, this`retried, this`deadLettered, this`claims
      ensures View() == Step(Completion(old(View()), id, s.completion), FailureEvent(id, s.failure))
      ensures claims == old(claims) - {id} && tasks.Keys == old(tasks).Keys
      ensures ended ==> s.failure != Acked
      ensures Handled() == old(Handled()) + if ended then 0 else 1
    {
      if ok {
        var completed := CompleteTask(key, task, s.completion, id);
        if completed {
          return false;
        }
      }
      ended := FailTask(key, task, s.failure, id);
    }

    /** The call and its writes; a failure that cannot be recorded, or not with a reply, ends the pass. */
    method ProcessTask(key: Q.TaskKey, task: Q.Task, s: Script, ghost id: nat) returns (ended: bool)
      requires key in tasks && id in claims && claims[id] == Q.Claim(key, task, Q.Claimed)
      modifies this, inventory.memoryStore, inventory.repository
      ensures View() == Exec(old(View()), TaskEvents(id, s))
      ensures claims == old(claims) - {id} && tasks.Keys == old(tasks).Keys
      ensures ended ==> s.failure != Acked
      ensures Handled() == old(Handled()) + (if ended then 0 else 1) && isRunning == old(isRunning)
    {
      TaskInParts(View(), id, s);
      var ok := CallForTask(key, task, s.call, id);
      ended := RecordOutcome(key, task, ok, s, id);
    }

    method CallForTask(ghost key: Q.TaskKey, task: Q.Task, delivery: Delivery, ghost id: nat) returns (ok: bool)
      requires id in claims && claims[id] == Q.Claim(key, task, Q.Claimed)
      modifies this`claims, inventory.memoryStore, inventory.repository
      ensures View() == Step(old(View()), WorkerCall(id, delivery))
      ensures claims == old(claims)[id := Q.Claim(key, task, if ok then Q.CallSucceeded else Q.CallFailed)]
    {
      ok := CallInventory(task, delivery);
      claims := claims[id := claims[id].(phase := if ok then Q.CallSucceeded else Q.CallFailed)];
    }

    /** One more task of a batch of which `done` have been processed. */
    method ProcessNext(key: Q.TaskKey, task: Q.Task, scripts: seq<Script>, done: nat, ghost first: nat, ghost taken: World)
      returns (ended: bool)
      requires key in tasks && done < |scripts| && first + done in claims && claims[first + done] == Q.Claim(key, task, Q.Claimed)
      requires View() == Exec(taken, BatchEvents(first, scripts[..done]))
      requires claims == Without(taken.queue.claims, first, done)
      modifies this, inventory.memoryStore, inventory.repository
      ensures View() == Exec(taken, BatchEvents(first, scripts[..done + 1]))
      ensures claims == Without(taken.queue.claims, first, done + 1) && tasks.Keys == old(tasks).Keys
      ensures ended ==> scripts[done].failure != Acked
      ensures Handled() == old(Handled()) + (if ended then 0 else 1) && isRunning == old(isRunning)
    {
      BatchMore(taken, first, scripts, done);
      WithoutMore(taken.queue.claims, first, done);
      ended := ProcessTask(key, task, scripts[done], first + done);
    }

    /** The claimed tasks in turn, until an error ends the pass. */
    method ProcessBatch(keys: seq<Q.TaskKey>, claimed: seq<Q.Task>, scripts: seq<Script>, ghost first: nat, ghost base: map<nat, Q.Claim>)
      returns (done: nat, ended: bool)
      requires |keys| == |claimed| <= |scripts|
      requires forall i | 0 <= i < |keys| :: keys[i] in tasks
      requires claims == WithClaims(base, first, keys, claimed)
      modifies this, inventory.memoryStore, inventory.repository
      ensures done <= |keys| && (ended ==> done > 0 && scripts[done - 1].failure != Acked) && (!ended ==> done == |keys|)
      ensures View() == Exec(old(View()), BatchEvents(first, scripts[..done]))
      ensures claims == Without(old(claims), first, done)
      ensures Handled() == old(Handled()) + done - (if ended then 1 else 0) && isRunning == old(isRunning)
    {
      ghost var taken := View();
      done, ended := 0, false;
      while done < |keys| && !ended
        invariant done <= |keys| && (ended ==> done > 0 && scripts[done - 1].failure != Acked)
        invariant View() == Exec(taken, BatchEvents(first, scripts[..done]))
        invariant tasks.Keys == taken.queue.tasks.Keys && isRunning == old(isRunning)
        invariant claims == Without(taken.queue.claims, first, done)
        invariant Handled() == old(Handled()) + done - if ended then 1 else 0
      {
        ClaimAt(base, first, keys, claimed, done);
        ended := ProcessNext(keys[done], claimed[done], scripts, done, first, taken);
        done := done + 1;
      }
    }

    /** The rest of a pass once its tasks are claimed: the claims it does not get to are left behind. */
    method Work(claim: Delivery, keys: seq<Q.TaskKey>, claimed: seq<Q.Task>, scripts: seq<Script>, ghost first: nat, ghost base: map<nat, Q.Claim>)
      returns (done: nat, ended: bool)
      requires |keys| == |claimed| <= |scripts|
      requires forall i | 0 <= i < |keys| :: keys[i] in tasks
      requires forall id | id in base :: id < first
      requires claims == WithClaims(base, first, keys, claimed)
      modifies this, inventory.memoryStore, inventory.repository
      ensures done <= |keys| && (claim != Acked ==> done == 0 && !ended) && (claim == Acked && !ended ==> done == |keys|)
      ensures ended ==> done > 0 && scripts[done - 1].failure != Acked
      ensures View() == Exec(old(View()), BatchEvents(first, scripts[..done]) + AbandonEvents(first + done, |keys| - done))
      ensures claims == base && isRunning == old(isRunning)
      ensures Handled() == old(Handled()) + done - if ended then 1 else 0
    {
      ghost var taken := View();
      AllGone(base, first, keys, claimed);
      done, ended := 0, false;
      if claim == Acked {
        done, ended := ProcessBatch(keys, claimed, scripts, first, base);
      } else {
        assert Without(claims, first, 0) == claims && scripts[..0] == [];
      }
      LeaveClaims(taken, base, first, done, |keys|, scripts);
    }

    ghost method LeaveClaims(taken: World, base: map<nat, Q.Claim>, first: nat, done: nat, n: nat, scripts: seq<Script>)
      requires done <= n && done <= |scripts| && View() == Exec(taken, BatchEvents(first, scripts[..done]))
      requires claims == Without(taken.queue.claims, first, done) && Without(taken.queue.claims, first, n) == base
      modifies this`claims
      ensures claims == base
      ensures View() == Exec(taken, BatchEvents(first, scripts[..done]) + AbandonEvents(first + done, n - done))
    {
      ExecAppend(taken, BatchEvents(first, scripts[..done]), AbandonEvents(first + done, n - done));
      AbandonAll(View(), first + done, n - done);
      WithoutBoth(taken.queue.claims, first, done, n);
      claims := base;
    }

    /** The claim, whose reply may be lost, and the claimed tasks in turn. */
    method Pass(ripe: seq<Q.TaskKey>, claim: Delivery, scripts: seq<Script>, ghost first: nat)
      returns (keys: seq<Q.TaskKey>, done: nat, ended: bool)
      requires isRunning && Distinct(ripe) && claim != NotDone && |scripts| == batchSize
      requires forall id | id in claims :: id < first
      modifies this, inventory.memoryStore, inventory.repository
      ensures keys == Picked(old(tasks), ripe, batchSize) && claims == old(claims) && isRunning == old(isRunning)
      ensures done <= |keys| && (claim != Acked ==> done == 0 && !ended) && (claim == Acked && !ended ==> done == |keys|)
      ensures ended ==> done > 0 && scripts[done - 1].failure != Acked
      ensures View() == Exec(old(View()), PassEvents(first, keys, scripts, done))
      ensures Handled() == old(Handled()) + done - if ended then 1 else 0
    {
      ghost var start := View();
      var claimed;
      keys, claimed := ClaimDueTasks(ripe, first);
      done, ended := Work(claim, keys, claimed, scripts, first, start.queue.claims);
      ExecAppend(start, ClaimEvents(first, keys), BatchEvents(first, scripts[..done]) + AbandonEvents(first + done, |keys| - done));
    }

    /** A pass is one claim, carried out or not, and the claimed tasks in turn; nothing while another pass runs. */
    method RunOnce(ripe: seq<Q.TaskKey>, claim: Delivery, scripts: seq<Script>, ghost first: nat)
      returns (keys: seq<Q.TaskKey>, done: nat, ended: bool)
      requires Distinct(ripe) && |scripts| == batchSize
      requires forall id | id in claims :: id < first
      modifies this, inventory.memoryStore, inventory.repository
      ensures old(isRunning) || claim == NotDone ==> keys == [] && View() == old(View()) && isRunning == old(isRunning)
      ensures !old(isRunning) && claim != NotDone ==>
                keys == Picked(old(tasks), ripe, batchSize) && !isRunning && claims == old(claims)
      ensures done <= |keys| && (claim != Acked ==> done == 0 && !ended)
      ensures claim == Acked && !ended ==> done == |keys|
      ensures ended ==> done > 0 && scripts[done - 1].failure != Acked
      ensures !old(isRunning) && claim != NotDone ==> View() == Exec(old(View()), PassEvents(first, keys, scripts, done))
      ensures Handled() == old(Handled()) + done - if ended then 1 else 0
    {
      if isRunning || claim == NotDone {
        return [], 0, false;
      }
      isRunning := true;
      keys, done, ended := Pass(ripe, claim, scripts, first);
      isRunning := false;
    }
  }

  predicate Distinct(keys: seq<Q.TaskKey>) {
    forall i, j | 0 <= i < j < |keys| :: keys[i] != keys[j]
  }

  /** The first `limit` of the ripe keys whose task is pending or retrying. */
  function Picked(tasks: map<Q.TaskKey, Q.Task>, ripe: seq<Q.TaskKey>, limit: nat): (keys: seq<Q.TaskKey>)
    ensures |keys| <= limit
  {
    if ripe == [] then []
    else
      var last := |ripe| - 1;
      var before := Picked(tasks, ripe[..last], limit);
      var key := ripe[last];
      if |before| < limit && key in tasks && (tasks[key].status == Q.Pending || tasks[key].status == Q.Retrying)
      then before + [key] else before
  }

  /** Only due tasks are picked, and when the batch is not full, all of them. */
  lemma {:induction false} PickedExactly(tasks: map<Q.TaskKey, Q.Task>, ripe: seq<Q.TaskKey>, limit: nat, k: Q.TaskKey)
    ensures var keys := Picked(tasks, ripe, limit);
            var due := k in ripe && k in tasks && (tasks[k].status == Q.Pending || tasks[k].status == Q.Retrying);
            (k in keys ==> due) && (|keys| < limit ==> (k in keys <==> due))
  {
    if ripe != [] {
      PickedExactly(tasks, ripe[..|ripe| - 1], limit, k);
    }
  }

  lemma PickedMore(tasks: map<Q.TaskKey, Q.Task>, ripe: seq<Q.TaskKey>, n: nat, limit: nat)
    requires n < |ripe| && Distinct(ripe)
    ensures ripe[n] !in Picked(tasks, ripe[..n], limit)
    ensures var before, key := Picked(tasks, ripe[..n], limit), ripe[n];
            Picked(tasks, ripe[..n + 1], limit)
            == if |before| < limit && key in tasks && (tasks[key].status == Q.Pending || tasks[key].status == Q.Retrying)
               then before + [key] else before
  {
    assert ripe[..n + 1][..n] == ripe[..n];
    PickedExactly(tasks, ripe[..n], limit, ripe[n]);
  }

  lemma BatchMore(w: World, first: nat, scripts: seq<Script>, i: nat)
    requires i < |scripts|
    ensures Exec(w, BatchEvents(first, scripts[..i + 1]))
            == Exec(Exec(w, BatchEvents(first, scripts[..i])), TaskEvents(first + i, scripts[i]))
  {
    assert scripts[..i + 1][..i] == scripts[..i];
    ExecAppend(w, BatchEvents(first, scripts[..i]), TaskEvents(first + i, scripts[i]));
  }

  lemma WithoutBoth(m: map<nat, Q.Claim>, first: nat, i: nat, n: nat)
    requires i <= n
    ensures Without(Without(m, first, i), first + i, n - i) == Without(m, first, n)
  {
  }

  lemma WithoutMore(m: map<nat, Q.Claim>, first: nat, n: nat)
    ensures Without(m, first, n) - {first + n} == Without(m, first, n + 1)
  {
  }

  lemma WithOneMore(base: map<nat, Q.Claim>, first: nat, keys: seq<Q.TaskKey>, claimed: seq<Q.Task>, key: Q.TaskKey, task: Q.Task)
    requires |keys| == |claimed|
    ensures WithClaims(base, first, keys + [key], claimed + [task])
            == WithClaims(base, first, keys, claimed)[first + |keys| := Q.Claim(key, task, Q.Claimed)]
  {
  }

  function WithClaims(base: map<nat, Q.Claim>, first: nat, keys: seq<Q.TaskKey>, claimed: seq<Q.Task>): map<nat, Q.Claim>
    requires |keys| == |claimed|
  {
    if keys == [] then base
    else
      var last := |keys| - 1;
      WithClaims(base, first, keys[..last], claimed[..last])[first + last := Q.Claim(keys[last], claimed[last], Q.Claimed)]
  }

  function Without(m: map<nat, Q.Claim>, first: nat, n: nat): map<nat, Q.Claim> {
    map id | id in m && (id < first || first + n <= id) :: m[id]
  }

  lemma ClaimMore(start: World, before: World, first: nat, keys: seq<Q.TaskKey>, key: Q.TaskKey)
    requires before == Exec(start, ClaimEvents(first, keys))
    ensures Exec(start, ClaimEvents(first, keys + [key])) == Step(before, WorkerClaim(first + |keys|, key))
  {
    assert (keys + [key])[..|keys|] == keys;
    ExecAppend(start, ClaimEvents(first, keys), [WorkerClaim(first + |keys|, key)]);
    assert Exec(before, [WorkerClaim(first + |keys|, key)]) == Step(before, WorkerClaim(first + |keys|, key));
  }

  /** From `start` the keys have been claimed one after the other, and nothing else happened. */
  ghost predicate ClaimedSoFar(start: World, w: World, first: nat, keys: seq<Q.TaskKey>, claimed: seq<Q.Task>) {
    && w == Exec(start, ClaimEvents(first, keys))
    && |claimed| == |keys| && ClaimedTasks(start.queue.tasks, w.queue.tasks, keys, claimed)
    && w.queue.claims == WithClaims(start.queue.claims, first, keys, claimed)
    && (forall id | id in start.queue.claims :: id < first)
  }

  /** The claimed tasks are as they were, and so are all that are not claimed. */
  ghost predicate ClaimedTasks(start: map<Q.TaskKey, Q.Task>, now: map<Q.TaskKey, Q.Task>, keys: seq<Q.TaskKey>, claimed: seq<Q.Task>)
    requires |claimed| == |keys|
  {
    && now.Keys == start.Keys
    && (forall i | 0 <= i < |keys| :: keys[i] in start && claimed[i] == start[keys[i]])
    && (forall k | k in now && k !in keys :: now[k] == start[k])
  }

  lemma OneMoreTask(start: map<Q.TaskKey, Q.Task>, now: map<Q.TaskKey, Q.Task>, keys: seq<Q.TaskKey>, claimed: seq<Q.Task>,
                    key: Q.TaskKey, task: Q.Task)
    requires |claimed| == |keys| && ClaimedTasks(start, now, keys, claimed) && key in now && key !in keys
    ensures ClaimedTasks(start, now[key := task], keys + [key], claimed + [now[key]])
  {
  }

  lemma ClaimWrites(w: World, id: nat, key: Q.TaskKey)
    requires id !in w.queue.claims && Q.Due(w.queue, key)
    ensures var q := w.queue;
            Step(w, WorkerClaim(id, key))
            == w.(queue := q.(claims := q.claims[id := Q.Claim(key, q.tasks[key], Q.Claimed)],
                              tasks := q.tasks[key := q.tasks[key].(status := Q.Processing)]))
  {
  }

  lemma FreshClaim(start: World, w: World, first: nat, keys: seq<Q.TaskKey>, claimed: seq<Q.Task>)
    requires ClaimedSoFar(start, w, first, keys, claimed)
    ensures first + |keys| !in w.queue.claims
  {
    WithClaimsBelow(start.queue.claims, first, keys, claimed);
  }

  lemma OneMoreClaimed(start: World, w: World, w': World, first: nat, keys: seq<Q.TaskKey>, claimed: seq<Q.Task>,
                       key: Q.TaskKey, task: Q.Task)
    requires ClaimedSoFar(start, w, first, keys, claimed) && key !in keys && Q.Due(w.queue, key)
    requires w' == Step(w, WorkerClaim(first + |keys|, key)) && task == w.queue.tasks[key]
    ensures ClaimedSoFar(start, w', first, keys + [key], claimed + [task])
  {
    FreshClaim(start, w, first, keys, claimed);
    ClaimMore(start, w, first, keys, key);
    ClaimWrites(w, first + |keys|, key);
    ClaimAssembled(start, w, w', first, keys, claimed, key, task);
  }

  lemma ClaimAssembled(start: World, w: World, w': World, first: nat, keys: seq<Q.TaskKey>, claimed: seq<Q.Task>,
                       key: Q.TaskKey, task: Q.Task)
    requires ClaimedSoFar(start, w, first, keys, claimed) && key !in keys && key in w.queue.tasks && task == w.queue.tasks[key]
    requires w' == Exec(start, ClaimEvents(first, keys + [key]))
    requires w'.queue.tasks == w.queue.tasks[key := task.(status := Q.Processing)]
    requires w'.queue.claims == w.queue.claims[first + |keys| := Q.Claim(key, task, Q.Claimed)]
    ensures ClaimedSoFar(start, w', first, keys + [key], claimed + [task])
  {
    WithOneMore(start.queue.claims, first, keys, claimed, key, task);
    OneMoreTask(start.queue.tasks, w.queue.tasks, keys, claimed, key, task.(status := Q.Processing));
  }

  lemma {:induction false} ClaimAt(base: map<nat, Q.Claim>, first: nat, keys: seq<Q.TaskKey>, claimed: seq<Q.Task>, i: nat)
    requires |keys| == |claimed| && i < |keys|
    ensures var m := WithClaims(base, first, keys, claimed);
            first + i in m && m[first + i] == Q.Claim(keys[i], claimed[i], Q.Claimed)
  {
    if i < |keys| - 1 {
      ClaimAt(base, first, keys[..|keys| - 1], claimed[..|keys| - 1], i);
    }
  }

  lemma {:induction false} AllGone(base: map<nat, Q.Claim>, first: nat, keys: seq<Q.TaskKey>, claimed: seq<Q.Task>)
    requires |keys| == |claimed| && forall id | id in base :: id < first
    ensures Without(WithClaims(base, first, keys, claimed), first, |keys|) == base
  {
    if keys != [] {
      var last := |keys| - 1;
      AllGone(base, first, keys[..last], claimed[..last]);
      var m := WithClaims(base, first, keys[..last], claimed[..last]);
      assert forall id | id in base :: id in Without(m, first, last);
      WithClaimsBelow(base, first, keys[..last], claimed[..last]);
    }
  }

  lemma {:induction false} WithClaimsBelow(base: map<nat, Q.Claim>, first: nat, keys: seq<Q.TaskKey>, claimed: seq<Q.Task>)
    requires |keys| == |claimed| && forall id | id in base :: id < first
    ensures forall id | id in WithClaims(base, first, keys, claimed) :: id < first + |keys|
  {
    if keys != [] {
      WithClaimsBelow(base, first, keys[..|keys| - 1], claimed[..|keys| - 1]);
    }
  }
}
