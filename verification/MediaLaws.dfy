/** Deletion safety, settled tasks and the audit trail of media reconciliation, over every run of one worker. */
module MediaLaws {
  import opened Collections
  import opened MediaReconciliation

  // ----- Invariant -----

  /** Leased tasks behind the first one are being worked on and are as they were leased. */
  ghost predicate LeasesOk(m: Media) {
    && (forall i, j | 0 <= i < j < |m.pass| :: m.pass[i].key != m.pass[j].key)
    && (forall i | 0 <= i < |m.pass| :: m.pass[i].key in m.rows)
    && (forall i | 1 <= i < |m.pass| :: AsLeased(m, m.pass[i]))
  }

  predicate AsLeased(m: Media, l: Leased) {
    l.key in m.rows && m.rows[l.key].status == Working && m.rows[l.key].observations == l.task.observations
  }

  /** So is the first one, unless a write of its own was lost; it is never failed or discarded while leased. */
  ghost predicate HeadOk(m: Media) {
    m.pass != [] && m.pass[0].key in m.rows ==>
      if m.phase == Raised
      then m.rows[m.pass[0].key].status != Failed && m.rows[m.pass[0].key].status != Discarded
      else AsLeased(m, m.pass[0])
  }

  function Confirmations(log: seq<Note>, k: AssetKey): nat {
    if log == [] then 0
    else Confirmations(log[..|log| - 1], k) + if log[|log| - 1] == Confirmed(k) then 1 else 0
  }

  /** The observation counter counts the persisted unbound observations, and there is at most one. */
  ghost predicate CountersOk(m: Media) {
    && (forall k | k in m.rows :: m.rows[k].observations == Confirmations(m.log, k) <= 1)
    && (forall k | k !in m.rows :: Confirmations(m.log, k) == 0)
  }

  predicate Quiet(note: Note) {
    note.Enqueued? || note.Removed?
  }

  /** The deletion at `i` follows an unbound look, with nothing else seen since, and that one a persisted unbound observation. */
  ghost predicate WarrantedBy(log: seq<Note>, first: nat, look: nat, i: nat, k: AssetKey) {
    && first < look < i <= |log|
    && log[first] == Confirmed(k) && log[look] == Looked(k, false)
    && forall n | look < n < i :: Quiet(log[n])
  }

  ghost predicate Warranted(log: seq<Note>, i: nat, k: AssetKey) {
    exists first: nat, look: nat :: WarrantedBy(log, first, look, i, k)
  }

  predicate RemovedAt(log: seq<Note>, i: nat) {
    i < |log| && log[i].Removed?
  }

  ghost predicate DeletionsOk(log: seq<Note>) {
    forall i: nat | RemovedAt(log, i) :: Warranted(log, i, log[i].key)
  }

  ghost predicate LookOk(m: Media) {
    m.phase.Deleting? ==>
      m.pass != [] && m.pass[0].task.observations > 0 && Warranted(m.log, |m.log|, m.pass[0].key)
  }

  /** The task's object keys come from the enqueue its origin points at. */
  predicate FromOrigin(log: seq<Note>, k: AssetKey, t: Task) {
    t.origin < |log| && log[t.origin].Enqueued? && log[t.origin].key == k && log[t.origin].objectKeys == t.objectKeys
  }

  /** The note at `i`, if it is an enqueue, holds the observations made before it. */
  predicate CountedAt(log: seq<Note>, i: nat) {
    i < |log| && log[i].Enqueued? ==> log[i].observed == Confirmations(log[..i], log[i].key)
  }

  ghost predicate OriginsOk(m: Media) {
    && (forall k | k in m.rows :: FromOrigin(m.log, k, m.rows[k]))
    && (forall i | 0 <= i < |m.pass| :: FromOrigin(m.log, m.pass[i].key, m.pass[i].task))
    && (forall i: nat :: CountedAt(m.log, i))
  }

  ghost predicate Base(m: Media) {
    LeasesOk(m) && CountersOk(m) && DeletionsOk(m.log) && OriginsOk(m)
  }

  ghost predicate Inv(m: Media) {
    Base(m) && HeadOk(m) && LookOk(m)
  }

  // ----- Extending the log -----

  lemma ConfirmationsMore(log: seq<Note>, note: Note, k: AssetKey)
    ensures Confirmations(log + [note], k) == Confirmations(log, k) + if note == Confirmed(k) then 1 else 0
  {
  }

  lemma WarrantedMore(log: seq<Note>, note: Note, i: nat, k: AssetKey)
    requires Warranted(log, i, k)
    ensures Warranted(log + [note], i, k)
    ensures i == |log| && Quiet(note) ==> Warranted(log + [note], i + 1, k)
  {
    var first: nat, look: nat :| WarrantedBy(log, first, look, i, k);
    assert WarrantedBy(log + [note], first, look, i, k);
    if i == |log| && Quiet(note) {
      assert WarrantedBy(log + [note], first, look, i + 1, k);
    }
  }

  lemma DeletionsMore(log: seq<Note>, note: Note)
    requires DeletionsOk(log) && (note.Removed? ==> Warranted(log, |log|, note.key))
    ensures DeletionsOk(log + [note])
  {
    forall i: nat | RemovedAt(log + [note], i) ensures Warranted(log + [note], i, (log + [note])[i].key) {
      if i < |log| {
        assert RemovedAt(log, i);
      }
      WarrantedMore(log, note, i, (log + [note])[i].key);
    }
  }

  lemma CountedMore(log: seq<Note>, note: Note, i: nat)
    requires CountedAt(log, i)
    requires note.Enqueued? ==> note.observed == Confirmations(log, note.key)
    ensures CountedAt(log + [note], i)
  {
    if i < |log| {
      assert (log + [note])[..i] == log[..i];
    } else {
      assert (log + [note])[..|log|] == log;
    }
  }

  lemma {:induction false} SomeConfirmed(log: seq<Note>, k: AssetKey)
    requires Confirmations(log, k) > 0
    ensures exists j: nat :: j < |log| && log[j] == Confirmed(k)
  {
    var last := |log| - 1;
    if log[last] != Confirmed(k) {
      SomeConfirmed(log[..last], k);
      var j: nat :| j < last && log[..last][j] == Confirmed(k);
      assert log[j] == Confirmed(k);
    }
  }

  /** The second look just logged warrants deletions from here on. */
  lemma SecondLook(log: seq<Note>, k: AssetKey)
    requires Confirmations(log, k) > 0
    ensures Warranted(log + [Looked(k, false)], |log| + 1, k)
  {
    SomeConfirmed(log, k);
    var j: nat :| j < |log| && log[j] == Confirmed(k);
    assert WarrantedBy(log + [Looked(k, false)], j, |log|, |log| + 1, k);
  }

  // ----- What a step is made of -----

  /** A look or a deletion is logged. */
  lemma LoggedBase(m: Media, note: Note)
    requires Base(m) && (note.Looked? || (note.Removed? && Warranted(m.log, |m.log|, note.key)))
    ensures Base(m.(log := m.log + [note]))
  {
    DeletionsMore(m.log, note);
    forall i: nat ensures CountedAt(m.log + [note], i) {
      CountedMore(m.log, note, i);
    }
    forall k ensures Confirmations(m.log + [note], k) == Confirmations(m.log, k) {
      ConfirmationsMore(m.log, note, k);
    }
  }

  /** The first task's row is written, its observations and objects staying as they are. */
  lemma WrittenBase(m: Media, t: Task)
    requires Base(m) && m.pass != []
    requires var row := m.rows[m.pass[0].key];
             t.objectKeys == row.objectKeys && t.origin == row.origin && t.observations == row.observations
    ensures Base(Written(m, m.pass[0].key, t))
  {
  }

  lemma ConfirmedLog(log: seq<Note>, k: AssetKey)
    requires DeletionsOk(log) && forall i: nat :: CountedAt(log, i)
    ensures DeletionsOk(log + [Confirmed(k)]) && forall i: nat :: CountedAt(log + [Confirmed(k)], i)
    ensures forall x :: Confirmations(log + [Confirmed(k)], x) == Confirmations(log, x) + if x == k then 1 else 0
  {
    DeletionsMore(log, Confirmed(k));
    forall i: nat ensures CountedAt(log + [Confirmed(k)], i) {
      CountedMore(log, Confirmed(k), i);
    }
    forall x ensures Confirmations(log + [Confirmed(k)], x) == Confirmations(log, x) + if x == k then 1 else 0 {
      ConfirmationsMore(log, Confirmed(k), x);
    }
  }

  lemma ConfirmedRows(m: Media, m': Media, k: AssetKey, t: Task)
    requires LeasesOk(m) && OriginsOk(m) && m.pass != [] && k == m.pass[0].key
    requires m' == Written(m, k, t).(log := m.log + [Confirmed(k)]) && forall i: nat :: CountedAt(m'.log, i)
    requires t.objectKeys == m.rows[k].objectKeys && t.origin == m.rows[k].origin
    ensures LeasesOk(m') && OriginsOk(m')
  {
  }

  /** The first unbound observation of the first task is persisted. */
  lemma ConfirmedBase(m: Media, t: Task)
    requires Base(m) && m.pass != []
    requires var row := m.rows[m.pass[0].key];
             t.objectKeys == row.objectKeys && t.origin == row.origin && t.observations == row.observations + 1 == 1
    ensures Base(Written(m, m.pass[0].key, t).(log := m.log + [Confirmed(m.pass[0].key)]))
  {
    var k := m.pass[0].key;
    ConfirmedLog(m.log, k);
    ConfirmedRows(m, Written(m, k, t).(log := m.log + [Confirmed(k)]), k, t);
  }

  lemma NextKeeps(m: Media)
    requires Base(m) && m.pass != []
    ensures Inv(Next(m))
  {
  }

  /** After a write of its own the worker goes on, or has to record a failure. */
  lemma WrittenKeeps(m: Media)
    requires Base(m) && m.pass != []
    requires m.rows[m.pass[0].key].status != Failed && m.rows[m.pass[0].key].status != Discarded
    ensures Inv(Next(m)) && Inv(m.(phase := Raised))
  {
    NextKeeps(m);
  }

  lemma StoreKeeps(m: Media, t: Task, notes: seq<Note>, d: Delivery)
    requires Base(m) && m.pass != [] && AsLeased(m, m.pass[0])
    requires var row := m.rows[m.pass[0].key];
             t.objectKeys == row.objectKeys && t.origin == row.origin && t.status != Failed && t.status != Discarded
             && ((notes == [] && t.observations == row.observations)
                 || (notes == [Confirmed(m.pass[0].key)] && t.observations == row.observations + 1 == 1))
    ensures Inv(Store(m, t, notes, d))
  {
    if d != NotDone {
      if notes == [] {
        assert m.log + notes == m.log;
        WrittenBase(m, t);
      } else {
        ConfirmedBase(m, t);
      }
      WrittenKeeps(Written(m, m.pass[0].key, t).(log := m.log + notes));
    } else {
      WrittenKeeps(m);
    }
  }

  // ----- Steps -----

  lemma EnqueueLogs(m: Media, note: Note)
    requires Base(m) && note.Enqueued? && note.observed == Confirmations(m.log, note.key)
    ensures Base(m.(log := m.log + [note]))
  {
    DeletionsMore(m.log, note);
    forall i: nat ensures CountedAt(m.log + [note], i) {
      CountedMore(m.log, note, i);
    }
    forall x ensures Confirmations(m.log + [note], x) == Confirmations(m.log, x) {
      ConfirmationsMore(m.log, note, x);
    }
  }

  /** The row gets the objects of the enqueue just logged. */
  lemma EnqueueWrites(m: Media, k: AssetKey, t: Task)
    requires Base(m) && FromOrigin(m.log, k, t) && t.observations == Confirmations(m.log, k) <= 1
    requires k in m.rows && m.rows[k].status == Working ==> t.status == Working
    ensures Base(Written(m, k, t))
  {
  }

  lemma EnqueueBase(m: Media, k: AssetKey, row: Task, note: Note)
    requires Base(m) && note == Enqueued(k, row.objectKeys, row.observations) && row.origin == |m.log|
    requires row.observations == Confirmations(m.log, k) <= 1
    requires k in m.rows && m.rows[k].status == Working ==> row.status == Working
    ensures Base(Written(m.(log := m.log + [note]), k, row))
  {
    EnqueueLogs(m, note);
    ConfirmationsMore(m.log, note, k);
    EnqueueWrites(m.(log := m.log + [note]), k, row);
  }

  lemma EnqueueKeepsLook(m: Media, note: Note)
    requires LookOk(m) && note.Enqueued?
    ensures LookOk(m.(log := m.log + [note]))
  {
    if m.phase.Deleting? {
      WarrantedMore(m.log, note, |m.log|, m.pass[0].key);
    }
  }

  lemma EnqueueKeeps(m: Media, k: AssetKey, objectKeys: seq<string>, delay: nat, maxAttempts: nat)
    requires Inv(m)
    ensures Inv(Enqueue(m, k, objectKeys, delay, maxAttempts))
  {
    var row := EnqueuedRow(m, k, objectKeys, delay, maxAttempts);
    var note := Enqueued(k, objectKeys, row.observations);
    EnqueueBase(m, k, row, note);
    EnqueueKeepsLook(m, note);
    EnqueueKeepsHead(m, k, row);
  }

  lemma EnqueueKeepsHead(m: Media, k: AssetKey, row: Task)
    requires Base(m) && HeadOk(m)
    requires row.observations == if k in m.rows then m.rows[k].observations else 0
    requires k in m.rows ==> row.status == m.rows[k].status || (m.rows[k].status == Failed && row.status == Pending)
    ensures HeadOk(Written(m, k, row))
  {
  }

  predicate Distinct(keys: seq<AssetKey>) {
    forall i, j | 0 <= i < j < |keys| :: keys[i] != keys[j]
  }

  lemma {:induction false} PickedDistinct(m: Media, order: seq<AssetKey>, limit: nat)
    ensures Distinct(PickDue(m, order, limit))
  {
    if order != [] {
      PickedDistinct(m, order[..|order| - 1], limit);
    }
  }

  lemma ClaimKeeps(m: Media, order: seq<AssetKey>, limit: nat)
    requires Inv(m)
    ensures Inv(StartPass(m, order, limit))
  {
    if m.pass == [] {
      var keys, m' := PickDue(m, order, limit), StartPass(m, order, limit);
      PickedDistinct(m, order, limit);
      forall i | 0 <= i < |keys|
        ensures m'.pass[i].key == keys[i] && AsLeased(m', m'.pass[i]) && FromOrigin(m'.log, keys[i], m'.pass[i].task)
      {
        assert keys[i] in keys;
        assert FromOrigin(m.log, keys[i], m.rows[keys[i]]);
      }
      forall i, j | 0 <= i < j < |m'.pass| ensures m'.pass[i].key != m'.pass[j].key {
        assert keys[i] != keys[j];
      }
      forall k | k in m'.rows ensures FromOrigin(m'.log, k, m'.rows[k]) {
        assert FromOrigin(m.log, k, m.rows[k]);
      }
    }
  }

  lemma AskKeeps(m: Media, bound: Option<bool>, d: Delivery)
    requires Inv(m)
    ensures Inv(Ask(m, bound, d))
  {
    if m.pass != [] && m.phase == Fresh && bound.Some? {
      LoggedBase(m, Looked(m.pass[0].key, bound.value));
      AnswerKeeps(m, m.(log := m.log + [Looked(m.pass[0].key, bound.value)]), bound.value, d);
    }
  }

  lemma AnswerKeeps(m: Media, looked: Media, bound: bool, d: Delivery)
    requires Inv(m) && m.pass != [] && m.phase == Fresh
    requires Base(looked) && looked == m.(log := m.log + [Looked(m.pass[0].key, bound)])
    ensures Inv(Ask(m, Some(bound), d))
  {
    var (k, task) := (m.pass[0].key, m.pass[0].task);
    match NextReconciliationStep(bound, task.observations)
    case ResolveBound => StoreKeeps(looked, m.rows[k].(status := ResolvedBound), [], d);
    case ConfirmUnbound => StoreKeeps(looked, ConfirmedRow(m, m.rows[k]), [Confirmed(k)], d);
    case Cleanup =>
      SecondLook(m.log, k);
      DeletingKeeps(looked, 0);
  }

  /** A warranted deletion goes on, or has to record a failure. */
  lemma DeletingKeeps(m: Media, done: nat)
    requires Base(m) && m.pass != [] && AsLeased(m, m.pass[0])
    requires m.pass[0].task.observations > 0 && Warranted(m.log, |m.log|, m.pass[0].key)
    ensures Inv(m.(phase := Deleting(done))) && Inv(m.(phase := Raised))
  {
  }

  /** The log with the next object of the first task deleted. */
  function WithRemoved(m: Media): Media
    requires m.pass != [] && m.phase.Deleting? && m.phase.done < |m.pass[0].task.objectKeys|
  {
    m.(log := m.log + [Removed(m.pass[0].key, m.pass[0].task.objectKeys[m.phase.done])])
  }

  lemma RemovedBase(m: Media)
    requires Inv(m) && m.phase.Deleting? && m.phase.done < |m.pass[0].task.objectKeys|
    ensures var removed := WithRemoved(m);
            Base(removed) && AsLeased(removed, m.pass[0]) && Warranted(removed.log, |removed.log|, m.pass[0].key)
  {
    var note := Removed(m.pass[0].key, m.pass[0].task.objectKeys[m.phase.done]);
    LoggedBase(m, note);
    WarrantedMore(m.log, note, |m.log|, m.pass[0].key);
  }

  lemma RemoveLeaves(m: Media, d: Delivery)
    requires m.pass != [] && m.pass[0].key in m.rows && m.phase.Deleting? && m.phase.done < |m.pass[0].task.objectKeys|
    ensures Delete(m, d)
            == match d
               case NotDone => m.(phase := Raised)
               case ReplyLost => WithRemoved(m).(phase := Raised)
               case Acked => WithRemoved(m).(phase := Deleting(m.phase.done + 1))
  {
  }

  lemma HeadLeased(m: Media)
    requires Inv(m) && m.phase.Deleting?
    ensures m.pass != [] && AsLeased(m, m.pass[0]) && m.pass[0].task.observations > 0
  {
  }

  lemma RemovedKeeps(m: Media)
    requires Inv(m) && m.phase.Deleting? && m.phase.done < |m.pass[0].task.objectKeys|
    ensures Inv(WithRemoved(m).(phase := Deleting(m.phase.done + 1))) && Inv(WithRemoved(m).(phase := Raised))
  {
    HeadLeased(m);
    RemovedBase(m);
    DeletingKeeps(WithRemoved(m), m.phase.done + 1);
  }

  lemma RemoveKeeps(m: Media, d: Delivery)
    requires Inv(m) && m.phase.Deleting? && m.phase.done < |m.pass[0].task.objectKeys|
    ensures Inv(Delete(m, d))
  {
    HeadLeased(m);
    RemoveLeaves(m, d);
    RemovedKeeps(m);
    if d == NotDone {
      DeletingKeeps(m, m.phase.done);
    }
  }

  lemma DeleteKeeps(m: Media, d: Delivery)
    requires Inv(m)
    ensures Inv(Delete(m, d))
  {
    if m.pass != [] && m.phase.Deleting? {
      if m.phase.done < |m.pass[0].task.objectKeys| {
        RemoveKeeps(m, d);
      } else {
        StoreKeeps(m, m.rows[m.pass[0].key].(status := Cleaned), [], d);
      }
    }
  }

  lemma FailKeeps(m: Media, d: Delivery)
    requires Inv(m)
    ensures Inv(Fail(m, d))
  {
    if m.pass != [] && m.phase == Raised && d != NotDone {
      var k := m.pass[0].key;
      var row := FailedRow(m, m.rows[k], m.pass[0].task);
      WrittenBase(m, row);
      NextKeeps(Written(m, k, row));
    }
  }

  lemma HandleKeeps(m: Media, k: AssetKey, action: Action, key: string)
    requires Inv(m)
    ensures Inv(HandleFailed(m, k, action, key).0)
  {
    var (m', reply) := HandleFailed(m, k, action, key);
    if reply == Handled(false) {
      HandledRow(m, k, m'.rows[k]);
      AuditsApart(Written(m, k, m'.rows[k]), m'.audits);
    }
  }

  /** The row of a failed task, which no lease shows, is written. */
  lemma HandledRow(m: Media, k: AssetKey, t: Task)
    requires Inv(m) && k in m.rows && m.rows[k].status == Failed
    requires t.objectKeys == m.rows[k].objectKeys && t.origin == m.rows[k].origin && t.observations == m.rows[k].observations
    ensures Inv(Written(m, k, t))
  {
    forall i | 0 <= i < |m.pass| ensures m.pass[i].key != k {
      assert AsLeased(m, m.pass[i]) || i == 0;
    }
    forall x | x in Written(m, k, t).rows ensures FromOrigin(m.log, x, Written(m, k, t).rows[x]) {
      assert x in m.rows && FromOrigin(m.log, x, m.rows[x]);
    }
  }

  lemma AuditsApart(m: Media, audits: seq<Audit>)
    requires Inv(m)
    ensures Inv(m.(audits := audits))
  {
  }

  lemma StepKeeps(m: Media, e: Event)
    requires Inv(m)
    ensures Inv(Step(m, e))
  {
    match e
    case EnqueueTask(k, objectKeys, delay, maxAttempts) => EnqueueKeeps(m, k, objectKeys, delay, maxAttempts);
    case Claim(order, limit) => ClaimKeeps(m, order, limit);
    case Query(bound, d) => AskKeeps(m, bound, d);
    case DeleteNext(d) => DeleteKeeps(m, d);
    case RecordFailure(d) => FailKeeps(m, d);
    case Crash =>
    case Handle(k, action, key) => HandleKeeps(m, k, action, key);
    case Wait(_) =>
  }

  lemma {:induction false} InvAlways(m: Media, es: seq<Event>)
    requires Inv(m)
    ensures Inv(Run(m, es))
    decreases |es|
  {
    if es != [] {
      StepKeeps(m, es[0]);
      InvAlways(Step(m, es[0]), es[1..]);
    }
  }

  // ----- Deletion safety -----

  /**
   * Whatever happens in whatever order, every deleted object was deleted in a pass that had just seen its asset
   * unbound, after an unbound observation persisted by an earlier look of the same task.
   */
  lemma DeletedOnlyOnSecondLook(es: seq<Event>, i: nat)
    requires i < |Run(EMPTY, es).log| && Run(EMPTY, es).log[i].Removed?
    ensures var log := Run(EMPTY, es).log;
            exists first: nat, look: nat ::
              && first < look < i
              && log[first] == Confirmed(log[i].key) && log[look] == Looked(log[i].key, false)
              && forall n | look < n < i :: log[n].Enqueued? || log[n].Removed?
  {
    InvAlways(EMPTY, es);
    var log := Run(EMPTY, es).log;
    assert RemovedAt(log, i);
    var first: nat, look: nat :| WarrantedBy(log, first, look, i, log[i].key);
    assert forall n | look < n < i :: Quiet(log[n]);
  }

  lemma {:induction false} ConfirmationsSplit(log: seq<Note>, k: AssetKey, i: nat)
    requires i <= |log|
    ensures Confirmations(log, k) >= Confirmations(log[..i], k)
    ensures Confirmations(log, k) == Confirmations(log[..i], k) <==> forall j | i <= j < |log| :: log[j] != Confirmed(k)
  {
    var last := |log| - 1;
    if i == |log| {
      assert log[..i] == log;
    } else {
      ConfirmationsSplit(log[..last], k, i);
      assert log[..last][..i] == log[..i];
      if log[last] != Confirmed(k) && Confirmations(log, k) == Confirmations(log[..i], k) {
        forall j | i <= j < |log| ensures log[j] != Confirmed(k) {
          assert j < last ==> log[..last][j] == log[j];
        }
      }
    }
  }

  /**
   * The rule is about the task, not its objects: an object about to be deleted was seen unbound twice since it was
   * enqueued exactly when the task had no observation yet at that enqueue.
   */
  lemma SeenTwiceSinceEnqueueExactly(m: Media)
    requires Inv(m) && m.phase.Deleting?
    ensures FromOrigin(m.log, m.pass[0].key, m.pass[0].task)
    ensures var (k, task) := (m.pass[0].key, m.pass[0].task);
            (exists j :: task.origin < j < |m.log| && m.log[j] == Confirmed(k)) <==> m.log[task.origin].observed == 0
  {
    var (k, task) := (m.pass[0].key, m.pass[0].task);
    assert m.pass[0] in m.pass && m.rows[k].observations == task.observations;
    ConfirmationsSplit(m.log, k, task.origin);
    assert CountedAt(m.log, task.origin) && FromOrigin(m.log, k, task);
    if m.log[task.origin].observed == 0 {
      var j :| task.origin <= j < |m.log| && m.log[j] == Confirmed(k);
      assert j != task.origin;
    }
  }

  const ASSET := AssetKey("s", "a")

  /** Object "x" is seen unbound once; then the task is enqueued again with object "y". */
  const REPLACING: seq<Event> :=
    [EnqueueTask(ASSET, ["x"], 0, 8), Claim([ASSET], 1), Query(Some(false), Acked), EnqueueTask(ASSET, ["y"], 0, 8)]

  const CLEANING: seq<Event> := [Wait(30000), Claim([ASSET], 1), Query(Some(false), Acked), DeleteNext(Acked)]

  lemma RunFour(m: Media, a: Event, b: Event, c: Event, d: Event)
    ensures Run(m, [a, b, c, d]) == Step(Step(Step(Step(m, a), b), c), d)
  {
    assert [a, b, c, d][1..] == [b, c, d] && [b, c, d][1..] == [c, d] && [c, d][1..] == [d] && [d][1..] == [];
    assert Run(Step(Step(Step(m, a), b), c), [d]) == Step(Step(Step(Step(m, a), b), c), d);
    assert Run(Step(Step(m, a), b), [c, d]) == Run(Step(Step(Step(m, a), b), c), [d]);
    assert Run(Step(m, a), [b, c, d]) == Run(Step(Step(m, a), b), [c, d]);
  }

  lemma ReplacedTask()
    ensures Run(EMPTY, REPLACING)
            == Media(map[ASSET := Task(["y"], Pending, 1, 0, 8, 30000, 0, 3)], [], 0, [], Fresh,
                     [Enqueued(ASSET, ["x"], 0), Looked(ASSET, false), Confirmed(ASSET), Enqueued(ASSET, ["y"], 1)])
  {
    RunFour(EMPTY, REPLACING[0], REPLACING[1], REPLACING[2], REPLACING[3]);
    var m1 := Step(EMPTY, REPLACING[0]);
    assert m1.rows[ASSET] == Task(["x"], Pending, 0, 0, 8, 0, 0, 0);
    assert [ASSET][..0] == [] && PickDue(m1, [], 1) == [] && PickDue(m1, [ASSET], 1) == [ASSET];
    var m2 := Step(m1, REPLACING[1]);
    assert m2.pass == [Leased(ASSET, m1.rows[ASSET].(status := Working))];
    var m3 := Step(m2, REPLACING[2]);
    assert m3.rows[ASSET] == Task(["x"], Pending, 1, 0, 8, 30000, 0, 0) && m3.pass == [];
  }

  /** So an object can go after a single look: "y" was never seen unbound before the look that deletes it. */
  lemma ReplacedObjectSeenOnce()
    ensures Run(Run(EMPTY, REPLACING), CLEANING).log
            == [Enqueued(ASSET, ["x"], 0), Looked(ASSET, false), Confirmed(ASSET), Enqueued(ASSET, ["y"], 1),
                Looked(ASSET, false), Removed(ASSET, "y")]
  {
    ReplacedTask();
    var m := Run(EMPTY, REPLACING);
    RunFour(m, CLEANING[0], CLEANING[1], CLEANING[2], CLEANING[3]);
    var m1 := Step(m, CLEANING[0]);
    assert [ASSET][..0] == [] && PickDue(m1, [], 1) == [] && PickDue(m1, [ASSET], 1) == [ASSET];
    var m2 := Step(m1, CLEANING[1]);
    assert m2.pass == [Leased(ASSET, m1.rows[ASSET].(status := Working, updated := 30000))];
    var m3 := Step(m2, CLEANING[2]);
    assert m3.phase == Deleting(0) && m3.pass == m2.pass;
  }

  // ----- Settled tasks -----

  predicate Terminal(s: TaskStatus) {
    s == ResolvedBound || s == Cleaned || s == Discarded
  }

  /** Settled: terminal, and no pass holds the task any more. */
  ghost predicate Settled(m: Media, k: AssetKey) {
    k in m.rows && Terminal(m.rows[k].status) && forall l | l in m.pass :: l.key != k
  }

  /** The worker's other steps write only rows being worked on. */
  lemma WorkerKeepsTerminal(m: Media, e: Event, k: AssetKey)
    requires Inv(m) && k in m.rows && Terminal(m.rows[k].status)
    requires e.Query? || e.DeleteNext?
    ensures k in Step(m, e).rows && Step(m, e).rows[k].status == m.rows[k].status
  {
    if e.Query? {
      AskWritesHead(m, e.bound, e.write, k);
    } else {
      DeleteWritesHead(m, e.outcome, k);
    }
  }

  lemma AskWritesHead(m: Media, bound: Option<bool>, d: Delivery, k: AssetKey)
    requires HeadOk(m) && k in m.rows && Terminal(m.rows[k].status)
    ensures k in Ask(m, bound, d).rows && Ask(m, bound, d).rows[k].status == m.rows[k].status
  {
  }

  lemma DeleteWritesHead(m: Media, d: Delivery, k: AssetKey)
    requires HeadOk(m) && k in m.rows && Terminal(m.rows[k].status)
    ensures k in Delete(m, d).rows && Delete(m, d).rows[k].status == m.rows[k].status
  {
  }

  lemma OthersKeepTerminal(m: Media, e: Event, k: AssetKey)
    requires k in m.rows && Terminal(m.rows[k].status)
    requires !e.Query? && !e.DeleteNext? && !e.RecordFailure?
    ensures k in Step(m, e).rows && Step(m, e).rows[k].status == m.rows[k].status
  {
  }

  lemma FailureLeavesTerminal(m: Media, d: Delivery, k: AssetKey)
    requires Inv(m) && k in m.rows && Terminal(m.rows[k].status)
    ensures k in Fail(m, d).rows
    ensures Fail(m, d).rows[k].status != m.rows[k].status <==>
            d != NotDone && m.phase == Raised && m.pass != [] && m.pass[0].key == k
  {
  }

  /** A terminal status is left exactly when the worker, having lost the reply to its own write, records a failure over it. */
  lemma TerminalLeftExactly(m: Media, e: Event, k: AssetKey)
    requires Inv(m) && k in m.rows && Terminal(m.rows[k].status)
    ensures k in Step(m, e).rows
    ensures Step(m, e).rows[k].status != m.rows[k].status <==>
            e.RecordFailure? && e.write != NotDone && m.phase == Raised && m.pass != [] && m.pass[0].key == k
    ensures m.rows[k].status == Discarded ==> Settled(m, k)
  {
    if e.RecordFailure? {
      FailureLeavesTerminal(m, e.write, k);
    } else if e.Query? || e.DeleteNext? {
      WorkerKeepsTerminal(m, e, k);
    } else {
      OthersKeepTerminal(m, e, k);
    }
    DiscardedIsSettled(m, k);
  }

  lemma DiscardedIsSettled(m: Media, k: AssetKey)
    requires Inv(m) && k in m.rows
    ensures m.rows[k].status == Discarded ==> Settled(m, k)
  {
  }

  function Removals(log: seq<Note>, k: AssetKey): nat {
    if log == [] then 0
    else Removals(log[..|log| - 1], k) + if log[|log| - 1].Removed? && log[|log| - 1].key == k then 1 else 0
  }

  lemma RemovalsMore(log: seq<Note>, note: Note, k: AssetKey)
    ensures Removals(log + [note], k) == Removals(log, k) + if note.Removed? && note.key == k then 1 else 0
  {
  }

  lemma SettledStep(m: Media, e: Event, k: AssetKey)
    requires Inv(m) && Settled(m, k)
    ensures Settled(Step(m, e), k) && Step(m, e).rows[k].status == m.rows[k].status
  {
    TerminalLeftExactly(m, e, k);
    assert m.pass != [] ==> m.pass[0] in m.pass;
    if e.Claim? && m.pass == [] {
      SettledUnclaimed(m, e.order, e.limit, k);
    } else {
      PassShrinks(m, e);
    }
  }

  lemma SettledUnclaimed(m: Media, order: seq<AssetKey>, limit: nat, k: AssetKey)
    requires m.pass == [] && k in m.rows && Terminal(m.rows[k].status)
    ensures forall l | l in StartPass(m, order, limit).pass :: l.key != k
  {
    var (keys, pass) := (PickDue(m, order, limit), StartPass(m, order, limit).pass);
    forall l | l in pass ensures l.key != k {
      var i :| 0 <= i < |keys| && pass[i] == l;
      assert keys[i] in keys;
    }
  }

  lemma PassShrinks(m: Media, e: Event)
    requires !e.Claim? || m.pass != []
    ensures forall l | l in Step(m, e).pass :: l in m.pass
  {
    assert m.pass != [] ==> forall l | l in m.pass[1..] :: l in m.pass;
  }

  lemma AskRemovesNothing(m: Media, bound: Option<bool>, d: Delivery, k: AssetKey)
    ensures Removals(Ask(m, bound, d).log, k) == Removals(m.log, k)
  {
    if m.pass != [] && bound.Some? {
      var note := Looked(m.pass[0].key, bound.value);
      RemovalsMore(m.log, note, k);
      RemovalsMore(m.log + [note], Confirmed(m.pass[0].key), k);
      assert m.log + [note] + [] == m.log + [note];
    }
  }

  lemma DeleteRemovesHead(m: Media, d: Delivery, k: AssetKey)
    requires m.pass != [] ==> m.pass[0].key != k
    ensures Removals(Delete(m, d).log, k) == Removals(m.log, k)
  {
    assert m.log + [] == m.log;
    if m.pass != [] && m.phase.Deleting? && m.phase.done < |m.pass[0].task.objectKeys| {
      RemovalsMore(m.log, Removed(m.pass[0].key, m.pass[0].task.objectKeys[m.phase.done]), k);
    }
  }

  lemma SettledKeepsObjects(m: Media, e: Event, k: AssetKey)
    requires Settled(m, k)
    ensures Removals(Step(m, e).log, k) == Removals(m.log, k)
  {
    match e
    case EnqueueTask(x, objectKeys, delay, maxAttempts) =>
      RemovalsMore(m.log, Enqueued(x, objectKeys, EnqueuedRow(m, x, objectKeys, delay, maxAttempts).observations), k);
    case Query(bound, d) => AskRemovesNothing(m, bound, d, k);
    case DeleteNext(d) =>
      assert m.pass != [] ==> m.pass[0] in m.pass;
      DeleteRemovesHead(m, d, k);
    case _ =>
  }

  /** Resolved, cleaned and discarded are absorbing once the pass has let go: no run changes the status or deletes another object. */
  lemma {:induction false} SettledForGood(m: Media, es: seq<Event>, k: AssetKey)
    requires Inv(m) && Settled(m, k)
    ensures Settled(Run(m, es), k) && Run(m, es).rows[k].status == m.rows[k].status
    ensures Removals(Run(m, es).log, k) == Removals(m.log, k)
    decreases |es|
  {
    if es != [] {
      SettledStep(m, es[0], k);
      SettledKeepsObjects(m, es[0], k);
      StepKeeps(m, es[0]);
      SettledForGood(Step(m, es[0]), es[1..], k);
    }
  }

  /** The back-off doubles from five seconds up to five minutes, where it stays from the seventh attempt on. */
  lemma RetryDelayBounds(attempt: nat)
    requires attempt > 0
    ensures 5000 <= RetryDelay(attempt) <= 300000 && RetryDelay(1) == 5000
    ensures attempt < 6 ==> RetryDelay(attempt + 1) == 2 * RetryDelay(attempt)
    ensures attempt >= 7 ==> RetryDelay(attempt) == 300000
  {
    assert PowerOfTwo(6) == 64 && PowerOfTwo(5) == 32 by {
      assert PowerOfTwo(2) == 4 && PowerOfTwo(4) == 4 * PowerOfTwo(2);
    }
    PowersGrow(0, attempt - 1);
    if attempt >= 7 {
      PowersGrow(6, attempt - 1);
    } else if attempt < 6 {
      PowersGrow(attempt, 5);
    }
  }

  // ----- Manual decisions -----

  predicate DiscardRecorded(audits: seq<Audit>, k: AssetKey) {
    exists a | a in audits :: a.key == k && a.action == Discard
  }

  predicate AuditFits(m: Media, a: Audit) {
    a.key in m.rows && a.oldStatus == Failed && ManualReconciliationTarget(Failed, a.action) == Some(a.newStatus)
  }

  /** No key is used twice, and a discard is the last word on its task. */
  ghost predicate TrailOk(audits: seq<Audit>) {
    && (forall i, j | 0 <= i < j < |audits| ::
          !(audits[i].key.store == audits[j].key.store && audits[i].idempotencyKey == audits[j].idempotencyKey))
    && (forall i, j | 0 <= i < j < |audits| && audits[i].key == audits[j].key :: audits[i].action == Retry)
  }

  ghost predicate AuditsOk(m: Media) {
    && (forall a | a in m.audits :: AuditFits(m, a))
    && TrailOk(m.audits)
    && (forall k | k in m.rows :: m.rows[k].status == Discarded <==> DiscardRecorded(m.audits, k))
  }

  /** A decision writes the task exactly when it writes an audit row, and then it is the first use of its key. */
  lemma DecisionIsAudited(m: Media, k: AssetKey, action: Action, key: string)
    requires Inv(m)
    ensures var (m', reply) := HandleFailed(m, k, action, key);
            && (reply == Handled(false) <==> m'.rows != m.rows)
            && (reply == Handled(false) <==> m'.audits != m.audits)
            && (reply == Handled(false) <==> k in m.rows && m.rows[k].status == Failed && FindAudit(m.audits, k.store, key) == None)
            && (reply == Handled(false) ==> m'.audits == m.audits + [Audit(k, action, key, Failed, m'.rows[k].status)])
  {
    var (m', reply) := HandleFailed(m, k, action, key);
    if reply == Handled(false) {
      assert m'.rows[k].status != m.rows[k].status;
      assert |m'.audits| == |m.audits| + 1;
    }
  }

  /** The audit rows of the decisions a run accepts, in order. */
  function Accepted(m: Media, e: Event): seq<Audit> {
    if e.Handle? && e.key in m.rows && m.rows[e.key].status == Failed && FindAudit(m.audits, e.key.store, e.idempotencyKey) == None
    then [Audit(e.key, e.action, e.idempotencyKey, Failed, if e.action == Retry then Pending else Discarded)] else []
  }

  function AcceptedIn(m: Media, es: seq<Event>): seq<Audit>
    decreases |es|
  {
    if es == [] then [] else Accepted(m, es[0]) + AcceptedIn(Step(m, es[0]), es[1..])
  }

  /** The audit table is the history of accepted decisions: one row each, in order, and nothing else ever writes to it. */
  lemma {:induction false} AuditsAreDecisions(m: Media, es: seq<Event>)
    ensures Run(m, es).audits == m.audits + AcceptedIn(m, es)
    decreases |es|
  {
    if es != [] {
      var m' := Step(m, es[0]);
      StepAudits(m, es[0]);
      AuditsAreDecisions(m', es[1..]);
      Regrouped(m.audits, Accepted(m, es[0]), AcceptedIn(m', es[1..]));
    }
  }

  lemma Regrouped(a: seq<Audit>, b: seq<Audit>, c: seq<Audit>)
    ensures (a + b) + c == a + (b + c)
  {
  }

  lemma StepAudits(m: Media, e: Event)
    ensures Step(m, e).audits == m.audits + Accepted(m, e)
  {
    if !e.Handle? {
      WorkerKeepsAudits(m, e);
    }
  }

  lemma TrailMore(audits: seq<Audit>, a: Audit)
    requires TrailOk(audits) && FindAudit(audits, a.key.store, a.idempotencyKey) == None && !DiscardRecorded(audits, a.key)
    ensures TrailOk(audits + [a])
  {
  }

  lemma DiscardMore(audits: seq<Audit>, a: Audit, k: AssetKey)
    ensures DiscardRecorded(audits + [a], k) <==> DiscardRecorded(audits, k) || (a.key == k && a.action == Discard)
  {
  }

  lemma HandleKeepsAudits(m: Media, k: AssetKey, action: Action, key: string)
    requires Inv(m) && AuditsOk(m)
    ensures AuditsOk(HandleFailed(m, k, action, key).0) && m.audits <= HandleFailed(m, k, action, key).0.audits
  {
    var (m', reply) := HandleFailed(m, k, action, key);
    DecisionIsAudited(m, k, action, key);
    if reply == Handled(false) {
      DecidedAudits(m, m', Audit(k, action, key, Failed, m'.rows[k].status));
    }
  }

  lemma DecidedAudits(m: Media, m': Media, added: Audit)
    requires AuditsOk(m) && added.key in m.rows && m.rows[added.key].status == Failed
    requires FindAudit(m.audits, added.key.store, added.idempotencyKey) == None && m'.audits == m.audits + [added]
    requires m'.rows.Keys == m.rows.Keys && forall x | x in m.rows && x != added.key :: m'.rows[x] == m.rows[x]
    requires m'.rows[added.key].status == added.newStatus && added.oldStatus == Failed
    requires ManualReconciliationTarget(Failed, added.action) == Some(added.newStatus)
    ensures AuditsOk(m')
  {
    TrailMore(m.audits, added);
    forall x | x in m'.rows ensures m'.rows[x].status == Discarded <==> DiscardRecorded(m'.audits, x) {
      DiscardMore(m.audits, added, x);
    }
    forall a | a in m'.audits ensures AuditFits(m', a) {
      assert a in m.audits ==> AuditFits(m, a);
    }
  }

  lemma WorkerKeepsAudits(m: Media, e: Event)
    requires !e.Handle?
    ensures Step(m, e).audits == m.audits
    ensures m.rows.Keys <= Step(m, e).rows.Keys
  {
  }

  lemma NewRowsAreOpen(m: Media, e: Event, k: AssetKey)
    requires !e.Handle? && k in Step(m, e).rows && k !in m.rows
    ensures Step(m, e).rows[k].status == Pending
  {
  }

  lemma AuditsStep(m: Media, e: Event)
    requires Inv(m) && AuditsOk(m)
    ensures AuditsOk(Step(m, e)) && m.audits <= Step(m, e).audits
  {
    if e.Handle? {
      HandleKeepsAudits(m, e.key, e.action, e.idempotencyKey);
    } else {
      WorkerKeepsAudits(m, e);
      WorkerAuditsOk(m, Step(m, e), e);
    }
  }

  lemma WorkerAuditsOk(m: Media, m': Media, e: Event)
    requires Inv(m) && AuditsOk(m) && !e.Handle? && m' == Step(m, e)
    requires m'.audits == m.audits && m.rows.Keys <= m'.rows.Keys
    ensures AuditsOk(m')
  {
    forall k | k in m'.rows ensures m'.rows[k].status == Discarded <==> DiscardRecorded(m.audits, k) {
      if k in m.rows {
        StatusByWorker(m, e, k);
      } else {
        NewRowsAreOpen(m, e, k);
        forall a | a in m.audits ensures a.key != k {
          assert AuditFits(m, a);
        }
      }
    }
    forall a | a in m'.audits ensures AuditFits(m', a) {
      assert AuditFits(m, a);
    }
  }

  lemma StatusByWorker(m: Media, e: Event, k: AssetKey)
    requires Inv(m) && !e.Handle? && k in m.rows
    ensures k in Step(m, e).rows && (Step(m, e).rows[k].status == Discarded <==> m.rows[k].status == Discarded)
  {
    if m.rows[k].status == Discarded {
      TerminalLeftExactly(m, e, k);
      SettledStep(m, e, k);
    } else {
      NeverDiscards(m, e, k);
    }
  }

  lemma NeverDiscards(m: Media, e: Event, k: AssetKey)
    requires !e.Handle? && k in m.rows && m.rows[k].status != Discarded
    ensures k in Step(m, e).rows && Step(m, e).rows[k].status != Discarded
  {
  }

  /** A task is discarded exactly when an audit row says so, that row is its last, and every key was used once, over every run. */
  lemma {:induction false} AuditTrail(m: Media, es: seq<Event>)
    requires Inv(m) && AuditsOk(m)
    ensures AuditsOk(Run(m, es)) && m.audits <= Run(m, es).audits
    decreases |es|
  {
    if es != [] {
      AuditsStep(m, es[0]);
      StepKeeps(m, es[0]);
      AuditTrail(Step(m, es[0]), es[1..]);
    }
  }

  /** A key once used decides nothing ever again: it replays its own decision and conflicts with any other. */
  lemma UsedKeyReplays(m: Media, es: seq<Event>, i: nat, k: AssetKey, action: Action)
    requires Inv(m) && AuditsOk(m) && i < |m.audits| && k.store == m.audits[i].key.store
    ensures var later := Run(m, es);
            HandleFailed(later, k, action, m.audits[i].idempotencyKey)
            == (later, if m.audits[i].key == k && m.audits[i].action == action then Handled(true) else Conflict)
  {
    AuditTrail(m, es);
    var later, key := Run(m, es), m.audits[i].idempotencyKey;
    assert later.audits[i] == m.audits[i] && m.audits[i] in later.audits && TrailOk(later.audits);
    var found := FindAudit(later.audits, k.store, key);
    assert found == Some(i);
  }
}
