/** The reconciliation repository and its worker as classes: a pass is a run of the state machine. */
module MediaService {
  import opened Collections
  import opened MediaReconciliation

  /** What the catalog and the stores answer while one task is processed. */
  datatype Script = Script(bound: Option<bool>, write: Delivery, deletes: seq<Delivery>, completion: Delivery, failure: Delivery)

  function DeleteEvents(ds: seq<Delivery>): (es: seq<Event>)
    ensures |es| == |ds| && forall i | 0 <= i < |ds| :: es[i] == DeleteNext(ds[i])
  {
    seq(|ds|, i requires 0 <= i < |ds| => DeleteNext(ds[i]))
  }

  /** One task; the events that its answers rule out find nothing to do. */
  function TaskEvents(s: Script): seq<Event> {
    [Query(s.bound, s.write)] + DeleteEvents(s.deletes) + [DeleteNext(s.completion), RecordFailure(s.failure)]
  }

  function PassEvents(scripts: seq<Script>): seq<Event> {
    if scripts == [] then []
    else PassEvents(scripts[..|scripts| - 1]) + TaskEvents(scripts[|scripts| - 1])
  }

  lemma {:induction false} RunAppend(m: Media, es: seq<Event>, fs: seq<Event>)
    ensures Run(m, es + fs) == Run(Run(m, es), fs)
    decreases |es|
  {
    if es == [] {
      assert es + fs == fs;
    } else {
      assert (es + fs)[1..] == es[1..] + fs;
      RunAppend(Step(m, es[0]), es[1..], fs);
    }
  }

  lemma RunOne(m: Media, e: Event)
    ensures Run(m, [e]) == Step(m, e)
  {
  }

  /** Without a phase to serve, deletions do nothing. */
  lemma {:induction false} IdleDeletes(m: Media, ds: seq<Delivery>)
    requires m.pass == [] || !m.phase.Deleting?
    ensures Run(m, DeleteEvents(ds)) == m
    decreases |ds|
  {
    if ds != [] {
      assert DeleteEvents(ds)[1..] == DeleteEvents(ds[1..]);
      IdleDeletes(m, ds[1..]);
    }
  }

  lemma DeletesMore(m: Media, ds: seq<Delivery>, i: nat)
    requires i < |ds|
    ensures Run(m, DeleteEvents(ds[..i + 1])) == Step(Run(m, DeleteEvents(ds[..i])), DeleteNext(ds[i]))
  {
    assert DeleteEvents(ds[..i + 1]) == DeleteEvents(ds[..i]) + [DeleteNext(ds[i])];
    RunAppend(m, DeleteEvents(ds[..i]), [DeleteNext(ds[i])]);
    RunOne(Run(m, DeleteEvents(ds[..i])), DeleteNext(ds[i]));
  }

  lemma {:induction false} DeletesSkipped(m: Media, ds: seq<Delivery>, i: nat)
    requires i <= |ds|
    requires var r := Run(m, DeleteEvents(ds[..i])); r.pass == [] || !r.phase.Deleting?
    ensures Run(m, DeleteEvents(ds)) == Run(m, DeleteEvents(ds[..i]))
  {
    assert DeleteEvents(ds) == DeleteEvents(ds[..i]) + DeleteEvents(ds[i..]);
    RunAppend(m, DeleteEvents(ds[..i]), DeleteEvents(ds[i..]));
    IdleDeletes(Run(m, DeleteEvents(ds[..i])), ds[i..]);
  }

  lemma TaskInParts(m: Media, s: Script)
    ensures Run(m, TaskEvents(s))
            == Fail(Delete(Run(Ask(m, s.bound, s.write), DeleteEvents(s.deletes)), s.completion), s.failure)
  {
    var (q, ds, rest) := ([Query(s.bound, s.write)], DeleteEvents(s.deletes), [DeleteNext(s.completion), RecordFailure(s.failure)]);
    RunAppend(m, q + ds, rest);
    RunAppend(m, q, ds);
    RunOne(m, q[0]);
    var deleted := Run(Step(m, q[0]), ds);
    assert rest[1..] == [RecordFailure(s.failure)];
    RunOne(Step(deleted, rest[0]), RecordFailure(s.failure));
  }

  class MediaReconciliationRepository {
    var rows: map<AssetKey, Task>
    var audits: seq<Audit>
    var log: seq<Note>

    ghost function View(now: nat, pass: seq<Leased>, phase: Phase): Media
      reads this
    {
      Media(rows, audits, now, pass, phase, log)
    }

    method EnqueueTask(k: AssetKey, objectKeys: seq<string>, delay: nat, maxAttempts: nat, now: nat,
                       ghost pass: seq<Leased>, ghost phase: Phase)
      modifies this
      ensures View(now, pass, phase) == Enqueue(old(View(now, pass, phase)), k, objectKeys, delay, maxAttempts)
    {
      var row;
      if k in rows {
        row := rows[k].(objectKeys := objectKeys, origin := |log|);
        if row.status == Failed {
          row := row.(status := Pending, nextRun := now + delay);
        }
      } else {
        row := Task(objectKeys, Pending, 0, 0, maxAttempts, now + delay, now, |log|);
      }
      rows := rows[k := row.(updated := now)];
      log := log + [Enqueued(k, objectKeys, row.observations)];
    }

    method ClaimDue(order: seq<AssetKey>, limit: nat, now: nat) returns (tasks: seq<Leased>)
      modifies this`rows
      ensures View(now, tasks, Fresh) == StartPass(old(View(now, [], Fresh)), order, limit)
      ensures forall i | 0 <= i < |tasks| :: tasks[i].key in rows
    {
      var m := Media(rows, audits, now, [], Fresh, log);
      var keys := PickDue(m, order, limit);
      tasks := Claimed(m, keys);
      assert forall i | 0 <= i < |keys| :: keys[i] in keys;
      rows := map k | k in rows :: if k in keys then rows[k].(status := Working, updated := now) else rows[k];
    }

    /** By id alone, whatever the status has become. */
    method Complete(k: AssetKey, status: TaskStatus, now: nat, d: Delivery) returns (ok: bool)
      requires k in rows
      modifies this`rows
      ensures ok <==> d == Acked
      ensures rows == if d == NotDone then old(rows) else old(rows)[k := old(rows)[k].(status := status, updated := now)]
    {
      if d != NotDone {
        rows := rows[k := rows[k].(status := status, updated := now)];
      }
      return d == Acked;
    }

    method ConfirmUnbound(k: AssetKey, now: nat, d: Delivery) returns (ok: bool)
      requires k in rows
      modifies this`rows, this`log
      ensures ok <==> d == Acked
      ensures d == NotDone ==> rows == old(rows) && log == old(log)
      ensures d != NotDone ==> log == old(log) + [Confirmed(k)]
      ensures d != NotDone ==>
                rows == old(rows)[k := old(rows)[k].(status := Pending, observations := old(rows)[k].observations + 1,
                                                     nextRun := now + 30000, updated := now)]
    {
      if d != NotDone {
        var row := rows[k];
        row := row.(status := Pending, observations := row.observations + 1);
        rows := rows[k := row.(nextRun := now + 30000, updated := now)];
        log := log + [Confirmed(k)];
      }
      return d == Acked;
    }

    method MarkFailure(l: Leased, now: nat, d: Delivery, ghost rest: seq<Leased>) returns (ok: bool)
      requires l.key in rows
      modifies this`rows
      ensures ok <==> d == Acked
      ensures rows.Keys == old(rows).Keys
      ensures View(now, if ok then rest else [], Fresh) == Fail(old(View(now, [l] + rest, Raised)), d)
    {
      assert ([l] + rest)[1..] == rest;
      if d != NotDone {
        var attempts := l.task.attempts + 1;
        var row := rows[l.key].(attempts := attempts, nextRun := now + RetryDelay(attempts));
        row := row.(status := if attempts >= l.task.maxAttempts then Failed else Pending);
        rows := rows[l.key := row.(updated := now)];
      }
      return d == Acked;
    }

    method HandleFailedTask(k: AssetKey, action: Action, idempotencyKey: string, now: nat,
                            ghost pass: seq<Leased>, ghost phase: Phase) returns (reply: HandleReply)
      modifies this
      ensures (View(now, pass, phase), reply) == HandleFailed(old(View(now, pass, phase)), k, action, idempotencyKey)
    {
      var existing := FindAudit(audits, k.store, idempotencyKey);
      if existing.Some? {
        var audit := audits[existing.value];
        return if audit.key == k && audit.action == action then Handled(true) else Conflict;
      }
      if k !in rows {
        return NotFound;
      }
      var task := rows[k];
      if task.status != Failed {
        return Conflict;
      }
      if action == Retry {
        rows := rows[k := task.(status := Pending, attempts := 0, nextRun := now, updated := now)];
      } else {
        rows := rows[k := task.(status := Discarded, updated := now)];
      }
      audits := audits + [Audit(k, action, idempotencyKey, task.status, rows[k].status)];
      return Handled(false);
    }
  }

  class MediaReconciliationWorker {
    const reconciliation: MediaReconciliationRepository
    var running: bool

    constructor (reconciliation: MediaReconciliationRepository)
      ensures this.reconciliation == reconciliation && !running
    {
      this.reconciliation, running := reconciliation, false;
    }

    /** Deletes the objects of the leased task in order, up to the first error. */
    method DeleteObjects(l: Leased, ds: seq<Delivery>, now: nat, ghost pass: seq<Leased>) returns (ok: bool)
      requires pass != [] && pass[0] == l && |ds| == |l.task.objectKeys| && l.key in reconciliation.rows
      modifies reconciliation`log
      ensures reconciliation.View(now, pass, if ok then Deleting(|ds|) else Raised)
              == Run(old(reconciliation.View(now, pass, Deleting(0))), DeleteEvents(ds))
    {
      ghost var start := reconciliation.View(now, pass, Deleting(0));
      var i := 0;
      while i < |ds|
        invariant 0 <= i <= |ds| && l.key in reconciliation.rows
        invariant reconciliation.View(now, pass, Deleting(i)) == Run(start, DeleteEvents(ds[..i]))
      {
        DeletesMore(start, ds, i);
        if ds[i] != NotDone {
          reconciliation.log := reconciliation.log + [Removed(l.key, l.task.objectKeys[i])];
        }
        if ds[i] != Acked {
          assert reconciliation.View(now, pass, Raised) == Run(start, DeleteEvents(ds[..i + 1]));
          DeletesSkipped(start, ds, i + 1);
          return false;
        }
        i := i + 1;
      }
      assert ds[..|ds|] == ds;
      return true;
    }

    /** The decision for one task and the write it leads to; an error anywhere leaves it to the caller to record a failure. */
    method Decide(l: Leased, s: Script, now: nat, ghost rest: seq<Leased>) returns (ok: bool)
      requires l.key in reconciliation.rows && |s.deletes| == |l.task.objectKeys|
      modifies reconciliation
      ensures reconciliation.View(now, if ok then rest else [l] + rest, if ok then Fresh else Raised)
              == Delete(Run(Ask(old(reconciliation.View(now, [l] + rest, Fresh)), s.bound, s.write), DeleteEvents(s.deletes)), s.completion)
      ensures reconciliation.rows.Keys == old(reconciliation.rows.Keys)
    {
      ghost var start := reconciliation.View(now, [l] + rest, Fresh);
      ghost var asked := Ask(start, s.bound, s.write);
      assert ([l] + rest)[1..] == rest;
      if s.bound.None? {
        IdleDeletes(asked, s.deletes);
        return false;
      }
      reconciliation.log := reconciliation.log + [Looked(l.key, s.bound.value)];
      assert reconciliation.log + [] == reconciliation.log;
      var decision := NextReconciliationStep(s.bound.value, l.task.observations);
      match decision {
        case ResolveBound =>
          ok := reconciliation.Complete(l.key, ResolvedBound, now, s.write);
          IdleDeletes(asked, s.deletes);
        case ConfirmUnbound =>
          ok := reconciliation.ConfirmUnbound(l.key, now, s.write);
          IdleDeletes(asked, s.deletes);
        case Cleanup =>
          ok := DeleteObjects(l, s.deletes, now, [l] + rest);
          if ok {
            assert reconciliation.log + [] == reconciliation.log;
            ok := reconciliation.Complete(l.key, Cleaned, now, s.completion);
          }
      }
    }

    /** One task from query to write, error handling included; `ended` says that recording the failure raised as well. */
    method Process(l: Leased, s: Script, now: nat, ghost rest: seq<Leased>) returns (ended: bool)
      requires l.key in reconciliation.rows && |s.deletes| == |l.task.objectKeys|
      modifies reconciliation
      ensures reconciliation.View(now, if ended then [] else rest, Fresh)
              == Run(old(reconciliation.View(now, [l] + rest, Fresh)), TaskEvents(s))
      ensures reconciliation.rows.Keys == old(reconciliation.rows.Keys)
    {
      TaskInParts(reconciliation.View(now, [l] + rest, Fresh), s);
      var ok := Decide(l, s, now, rest);
      if ok {
        return false;
      }
      ok := reconciliation.MarkFailure(l, now, s.failure, rest);
      return !ok;
    }

    /** A pass claims the due tasks and processes them in turn, and does nothing while another pass runs. */
    method RunOnce(order: seq<AssetKey>, limit: nat, now: nat, scripts: seq<Script>) returns (tasks: seq<Leased>)
      requires Fits(reconciliation.View(now, [], Fresh), order, limit, scripts)
      modifies this, reconciliation
      ensures old(running) ==> tasks == [] && running && reconciliation.View(now, [], Fresh) == old(reconciliation.View(now, [], Fresh))
      ensures !old(running) ==> !running && tasks == StartPass(old(reconciliation.View(now, [], Fresh)), order, limit).pass
      ensures !old(running) ==>
                reconciliation.View(now, [], Fresh)
                == Run(StartPass(old(reconciliation.View(now, [], Fresh)), order, limit), PassEvents(scripts[..|tasks|]))
    {
      tasks := [];
      if running {
        return;
      }
      running := true;
      tasks := reconciliation.ClaimDue(order, limit, now);
      ProcessAll(tasks, scripts[..|tasks|], now);
      running := false;
    }

    /** The claimed tasks in turn, with other passes kept out meanwhile. */
    method ProcessAll(tasks: seq<Leased>, scripts: seq<Script>, now: nat)
      requires running && |scripts| == |tasks|
      requires forall i | 0 <= i < |tasks| :: tasks[i].key in reconciliation.rows && |scripts[i].deletes| == |tasks[i].task.objectKeys|
      modifies reconciliation
      ensures reconciliation.View(now, [], Fresh) == Run(old(reconciliation.View(now, tasks, Fresh)), PassEvents(scripts))
    {
      ghost var start := reconciliation.View(now, tasks, Fresh);
      var i, ended := 0, false;
      while i < |tasks| && !ended
        invariant 0 <= i <= |tasks| && reconciliation.rows.Keys == old(reconciliation.rows.Keys)
        invariant reconciliation.View(now, if ended then [] else tasks[i..], Fresh) == Run(start, PassEvents(scripts[..i]))
      {
        assert tasks[i..] == [tasks[i]] + tasks[i + 1..];
        PassMore(start, scripts, i);
        ended := Process(tasks[i], scripts[i], now, tasks[i + 1..]);
        i := i + 1;
      }
      PassOver(start, scripts, i);
    }
  }

  /** The scripts answer for every object of the tasks that will be claimed. */
  ghost predicate Fits(m: Media, order: seq<AssetKey>, limit: nat, scripts: seq<Script>) {
    var tasks := StartPass(m, order, limit).pass;
    |tasks| <= |scripts| && forall i | 0 <= i < |tasks| :: |scripts[i].deletes| == |tasks[i].task.objectKeys|
  }

  lemma PassMore(m: Media, scripts: seq<Script>, i: nat)
    requires i < |scripts|
    ensures Run(m, PassEvents(scripts[..i + 1])) == Run(Run(m, PassEvents(scripts[..i])), TaskEvents(scripts[i]))
  {
    assert scripts[..i + 1][..i] == scripts[..i];
    RunAppend(m, PassEvents(scripts[..i]), TaskEvents(scripts[i]));
  }

  /** Once the pass is over, or all scripts are used, nothing more happens. */
  lemma {:induction false} PassOver(m: Media, scripts: seq<Script>, i: nat)
    requires i <= |scripts|
    requires i < |scripts| ==> Run(m, PassEvents(scripts[..i])).pass == []
    ensures Run(m, PassEvents(scripts)) == Run(m, PassEvents(scripts[..i]))
    decreases |scripts| - i
  {
    if i == |scripts| {
      assert scripts[..i] == scripts;
    } else {
      var r := Run(m, PassEvents(scripts[..i]));
      PassMore(m, scripts, i);
      TaskInParts(r, scripts[i]);
      IdleDeletes(r, scripts[i].deletes);
      PassOver(m, scripts, i + 1);
    }
  }
}
