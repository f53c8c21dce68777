/** What each step of media reconciliation makes of the task it is about, told from the row it finds. */
module MediaSteps {
  import opened Collections
  import opened MediaReconciliation

  /** A new task waits for its first run; a known one gets the objects and, if it had failed, another run, but keeps its counters. */
  lemma EnqueueExactly(m: Media, k: AssetKey, objectKeys: seq<string>, delay: nat, maxAttempts: nat)
    ensures var (m', now) := (Enqueue(m, k, objectKeys, delay, maxAttempts), m.now);
            && m' == m.(rows := m'.rows, log := m'.log)
            && m'.rows.Keys == m.rows.Keys + {k} && (forall j | j in m.rows && j != k :: m'.rows[j] == m.rows[j])
            && m'.log == m.log + [Enqueued(k, objectKeys, if k in m.rows then m.rows[k].observations else 0)]
            && m'.rows[k] == if k !in m.rows then Task(objectKeys, Pending, 0, 0, maxAttempts, now + delay, now, |m.log|)
                             else
                               var t := m.rows[k];
                               Task(objectKeys, if t.status == Failed then Pending else t.status, t.observations, t.attempts, t.maxAttempts,
                                    if t.status == Failed then now + delay else t.nextRun, now, |m.log|)
  {
  }

  /** Waiting and ripe, or taken more than five minutes ago by a pass that never came back to it. */
  predicate Ripe(m: Media, k: AssetKey) {
    && k in m.rows
    && ((m.rows[k].status == Pending && m.rows[k].nextRun <= m.now) || (m.rows[k].status == Working && m.now - m.rows[k].updated > 300000))
  }

  /** Every ripe key of the list that stands before one of the first `limit` picked keys is picked too. */
  lemma {:induction false} PickedExactly(m: Media, order: seq<AssetKey>, limit: nat)
    ensures var keys := PickDue(m, order, limit);
            && |keys| <= limit
            && (forall k | k in keys :: k in order && Ripe(m, k))
            && (forall i, j | 0 <= i < j < |keys| :: keys[i] != keys[j])
            && (forall n | 0 <= n < |order| && Ripe(m, order[n]) && |PickDue(m, order[..n], limit)| < limit :: order[n] in keys)
    ensures |order| > 0 ==> PickDue(m, order[..|order| - 1], limit) <= PickDue(m, order, limit)
  {
    if order != [] {
      var last := |order| - 1;
      PickedExactly(m, order[..last], limit);
      forall n | 0 <= n < |order| && Ripe(m, order[n]) && |PickDue(m, order[..n], limit)| < limit ensures order[n] in PickDue(m, order, limit) {
        assert n < last ==> order[..last][..n] == order[..n] && order[..last][n] == order[n];
      }
    }
  }

  /** A pass takes the picked tasks as they are then, marks them as taken now, and begins with the first; while another is under way it takes none. */
  lemma StartExactly(m: Media, order: seq<AssetKey>, limit: nat)
    ensures m.pass != [] ==> StartPass(m, order, limit) == m
    ensures m.pass == [] ==>
              var (m', keys) := (StartPass(m, order, limit), PickDue(m, order, limit));
              && m' == m.(rows := m'.rows, pass := m'.pass, phase := Fresh) && m'.rows.Keys == m.rows.Keys
              && (forall k | k in m.rows :: m'.rows[k] == if k in keys then m.rows[k].(status := Working, updated := m.now) else m.rows[k])
              && |m'.pass| == |keys|
              && forall i | 0 <= i < |keys| :: keys[i] in m'.rows && m'.pass[i] == Leased(keys[i], m'.rows[keys[i]])
  {
    forall i | 0 <= i < |PickDue(m, order, limit)| ensures PickDue(m, order, limit)[i] in m.rows {
      assert PickDue(m, order, limit)[i] in PickDue(m, order, limit);
    }
  }

  /** The row of the first task, with the note it leaves, once a write of it was carried out. */
  ghost predicate Wrote(m: Media, m': Media, t: Task, notes: seq<Note>, d: Delivery) {
    && m.pass != []
    && m'.rows == (if d == NotDone then m.rows else m.rows[m.pass[0].key := t]) && m'.log == m.log + (if d == NotDone then [] else notes)
    && m'.audits == m.audits && m'.now == m.now
    && m'.pass == (if d == Acked then m.pass[1..] else m.pass) && m'.phase == (if d == Acked then Fresh else Raised)
  }

  /**
   * A bound asset resolves the task. An unbound one is noted the first time, to be looked at again in thirty seconds, and the
   * objects are deleted the next time. A failed query leaves only a failure to record.
   */
  lemma AskExactly(m: Media, bound: Option<bool>, d: Delivery)
    requires m.pass != [] && m.phase == Fresh && m.pass[0].key in m.rows
    ensures var (m', k, row, leased) := (Ask(m, bound, d), m.pass[0].key, m.rows[m.pass[0].key], m.pass[0].task);
            match bound
            case None => m' == m.(phase := Raised)
            case Some(true) => Wrote(m.(log := m.log + [Looked(k, true)]), m', row.(status := ResolvedBound, updated := m.now), [], d)
            case Some(false) =>
              if leased.observations == 0 then
                Wrote(m.(log := m.log + [Looked(k, false)]), m',
                      row.(status := Pending, observations := row.observations + 1, nextRun := m.now + 30000, updated := m.now), [Confirmed(k)], d)
              else m' == m.(log := m.log + [Looked(k, false)], phase := Deleting(0))
  {
  }

  lemma NothingToAsk(m: Media, bound: Option<bool>, d: Delivery)
    requires m.pass == [] || m.phase != Fresh || m.pass[0].key !in m.rows
    ensures Ask(m, bound, d) == m
  {
  }

  /** The leased objects go one after the other; after the last one the task is cleaned. */
  lemma DeleteExactly(m: Media, done: nat, d: Delivery)
    requires m.pass != [] && m.phase == Deleting(done) && m.pass[0].key in m.rows
    ensures var (m', k, objects) := (Delete(m, d), m.pass[0].key, m.pass[0].task.objectKeys);
            if done < |objects| then
              m' == m.(log := m.log + (if d == NotDone then [] else [Removed(k, objects[done])]),
                       phase := if d == Acked then Deleting(done + 1) else Raised)
            else Wrote(m, m', m.rows[k].(status := Cleaned, updated := m.now), [], d)
  {
  }

  lemma NothingToDelete(m: Media, d: Delivery)
    requires m.pass == [] || !m.phase.Deleting? || m.pass[0].key !in m.rows
    ensures Delete(m, d) == m
  {
  }

  /** A failure uses up an attempt of those the task had when it was taken; after the last one the task has failed, before it waits longer each time. */
  lemma FailExactly(m: Media, d: Delivery)
    requires m.pass != [] && m.phase == Raised && m.pass[0].key in m.rows
    ensures var (m', k, row, leased) := (Fail(m, d), m.pass[0].key, m.rows[m.pass[0].key], m.pass[0].task);
            var failed := row.(status := if leased.attempts + 1 < leased.maxAttempts then Pending else Failed, attempts := leased.attempts + 1,
                               nextRun := m.now + RetryDelay(leased.attempts + 1), updated := m.now);
            m' == m.(rows := if d == NotDone then m.rows else m.rows[k := failed], pass := if d == Acked then m.pass[1..] else [], phase := Fresh)
  {
  }

  lemma NothingFailed(m: Media, d: Delivery)
    requires m.pass == [] || m.phase != Raised || m.pass[0].key !in m.rows
    ensures Fail(m, d) == m
  {
  }

  /** A decision is for a failed task and a key not used in the store: retry gives the task all its attempts back, discard ends it. */
  lemma HandleExactly(m: Media, k: AssetKey, action: Action, idempotencyKey: string)
    ensures var (m', reply) := HandleFailed(m, k, action, idempotencyKey);
            && (forall a | a in m.audits :: a.key.store != k.store || a.idempotencyKey != idempotencyKey) ==>
                 if k !in m.rows then m' == m && reply == NotFound
                 else if m.rows[k].status != Failed then m' == m && reply == Conflict
                 else
                   var row := if action == Retry then m.rows[k].(status := Pending, attempts := 0, nextRun := m.now, updated := m.now)
                              else m.rows[k].(status := Discarded, updated := m.now);
                   && reply == Handled(false)
                   && m' == m.(rows := m.rows[k := row], audits := m.audits + [Audit(k, action, idempotencyKey, Failed, row.status)])
  {
  }

  /** A key once used is answered from its decision: handled again if it is the same, in conflict if not. */
  lemma UsedKeyExactly(m: Media, k: AssetKey, action: Action, idempotencyKey: string, i: nat)
    requires i < |m.audits| && m.audits[i].key.store == k.store && m.audits[i].idempotencyKey == idempotencyKey
    requires forall j | 0 <= j < |m.audits| && j != i :: m.audits[j].key.store != k.store || m.audits[j].idempotencyKey != idempotencyKey
    ensures HandleFailed(m, k, action, idempotencyKey)
            == (m, if m.audits[i].key == k && m.audits[i].action == action then Handled(true) else Conflict)
  {
    assert m.audits[i] in m.audits;
    assert FindAudit(m.audits, k.store, idempotencyKey) == Some(i);
  }
}
