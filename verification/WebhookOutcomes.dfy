/** When a webhook event counts as processed, told from the rows of the inbox and of the ledger. */
module WebhookOutcomes {
  import opened Collections
  import opened Refunds
  import opened RefundLaws
  import opened RefundStatuses
  import opened PaymentSteps
  import opened WebhookInbox
  import opened WebhookService

  /** The refund that the select returned has the event's id, amount and currency, and is open or has its status already. */
  predicate RefundFits(l: Ledger, pick: nat, id: string, status: RefundStatus, amount: int, currency: string) {
    && pick < |l.refunds| && l.refunds[pick].providerRefundId == Some(id)
    && l.refunds[pick].amount == amount && l.refunds[pick].currency == currency
    && (l.refunds[pick].status == status || l.refunds[pick].status == Processing || l.refunds[pick].status == Pending)
  }

  /** The ledger takes the event as it was stored; a paid one also needs the order service, and from PayPal a capture id. */
  predicate Taken(l: Ledger, k: EventKey, row: Row, c: Circumstances) {
    match row.payload
    case RefundContent(id, status, amount, currency) => RefundFits(l, c.pick, id, status, amount, currency)
    case PaidContent(amount, currency, captureId) =>
      && row.orderId.Some? && c.confirmed && (k.provider == "paypal" ==> captureId.Some?)
      && PaidFits(l, k.provider, row.paymentId, row.orderId.value, amount, currency)
    case OtherContent(_) => false
  }

  lemma TakenExactly(l: Ledger, k: EventKey, row: Row, c: Circumstances)
    requires Referenced(l)
    ensures var e := Requested(TaskOf(k, row), c);
            && (e.Some? ==> WellFormed(e.value))
            && (e.Some? && Accepted(l, e.value) <==> Taken(l, k, row, c))
            && (!Taken(l, k, row, c) ==> (if e.Some? then Step(l, e.value) else l) == l)
  {
    match row.payload
    case RefundContent(id, status, amount, currency) => EventDecided(l, c.pick, id, status, amount, currency);
    case PaidContent(amount, currency, captureId) =>
      if row.orderId.Some? {
        PaidExactly(l, k.provider, row.paymentId, row.orderId.value, amount, currency, captureId);
      }
    case OtherContent(_) =>
  }

  /** What the handling of the first leased event makes of its row, of the other rows, and of the pass. */
  lemma HandledExactly(w: World, c: Circumstances)
    requires Good(w) && w.inbox.pass != []
    ensures w.inbox.pass[0].key in w.inbox.rows
    ensures var (w', k, row) := (Moved(w, HandleNext(c)), w.inbox.pass[0].key, w.inbox.rows[w.inbox.pass[0].key]);
            var taken := Taken(w.ledger, k, row, c);
            && w'.inbox.rows.Keys == w.inbox.rows.Keys && (forall j | j in w.inbox.rows && j != k :: w'.inbox.rows[j] == w.inbox.rows[j])
            && w'.inbox.rows[k] == (if taken && c.completion != NotDone then row.(status := Processed)
                                    else if c.failure == NotDone then row
                                    else if row.attempts >= row.maxAttempts
                                    then row.(status := GivenUp, attempts := row.maxAttempts, nextAttempt := w.inbox.now + RetryDelay(row.attempts))
                                    else row.(attempts := row.attempts + 1, nextAttempt := w.inbox.now + RetryDelay(row.attempts)))
            && w'.inbox.pass == (if c.completion == Acked && taken then w.inbox.pass[1..]
                                 else if c.failure == Acked && !(taken && c.completion != NotDone) then w.inbox.pass[1..] else [])
            && (!taken ==> w'.ledger == w.ledger)
  {
    var task := w.inbox.pass[0];
    assert task in w.inbox.pass;
    TakenExactly(w.ledger, task.key, w.inbox.rows[task.key], c);
  }

  /** Both writes that end the handling of an event find an open event, or refuse. */
  lemma WritesExactly(rows: Rows, now: nat, task: Task)
    requires task.attempts > 0
    ensures var (done, failed) := (WithProcessed(rows, task.key), WithFailure(rows, now, task));
            if task.key in rows && rows[task.key].status == InProgress then
              var (row, later) := (rows[task.key], now + RetryDelay(task.attempts));
              && done == Some(rows[task.key := row.(status := Processed)])
              && failed == Some(rows[task.key := if task.attempts < task.maxAttempts
                                                 then row.(attempts := task.attempts + 1, nextAttempt := later)
                                                 else row.(status := GivenUp, attempts := task.maxAttempts, nextAttempt := later)])
            else done == None && failed == None
  {
  }

  // ----- Deliveries and leases -----

  /**
   * A delivery with an attempt limit from 1 to 100 is stored if it is new and refused if its payload differs from the first; a
   * repeated one starts a given up event afresh and leaves any other alone.
   */
  lemma DeliveryExactly(rows: Rows, now: nat, d: Webhook)
    ensures var limit := if d.maxAttempts.Some? then d.maxAttempts.value else 8;
            var first := Row(d.paymentId, d.orderId, d.payload, InProgress, 1, limit, now);
            ClaimDelivery(rows, now, d)
            == if limit < 1 || limit > 100 then (rows, None)
               else if d.key !in rows then (rows[d.key := first], Some(ClaimAsNew))
               else
                 var row := rows[d.key];
                 if row.payload != d.payload then (rows, Some(PayloadConflict))
                 else
                   match row.status
                   case InProgress => (rows, Some(DuplicateProcessing))
                   case Processed => (rows, Some(DuplicateProcessed))
                   case GivenUp => (rows[d.key := Row(row.paymentId, row.orderId, row.payload, InProgress, 1, row.maxAttempts, now)], Some(ClaimAsRetry))
  {
  }

  /** Open and ripe. */
  predicate Ripe(s: Inbox, k: EventKey) {
    k in s.rows && s.rows[k].status == InProgress && s.rows[k].nextAttempt <= s.now
  }

  lemma {:induction false} RipePicked(s: Inbox, order: seq<EventKey>, limit: nat)
    ensures var keys := PickDue(s.rows, s.now, order, limit);
            && |keys| <= limit && (forall k | k in keys :: k in order && Ripe(s, k))
            && (forall i, j | 0 <= i < j < |keys| :: keys[i] != keys[j])
            && (forall n | 0 <= n < |order| && Ripe(s, order[n]) && |PickDue(s.rows, s.now, order[..n], limit)| < limit :: order[n] in keys)
  {
    if order != [] {
      var last := |order| - 1;
      RipePicked(s, order[..last], limit);
      forall n | 0 <= n < |order| && Ripe(s, order[n]) && |PickDue(s.rows, s.now, order[..n], limit)| < limit
        ensures order[n] in PickDue(s.rows, s.now, order, limit)
      {
        assert n < last ==> order[..last][..n] == order[..n] && order[..last][n] == order[n];
      }
    }
  }

  /** A pass puts the picked events out of everybody's reach for the length of the lease, and takes them as they are stored. */
  lemma LeaseExactly(s: Inbox, order: seq<EventKey>, limit: nat, leaseMs: nat)
    requires Healthy(s)
    ensures s.pass != [] ==> NextState(s, StartPass(order, limit, leaseMs)) == s
    ensures s.pass == [] ==>
              var (s', keys) := (NextState(s, StartPass(order, limit, leaseMs)), PickDue(s.rows, s.now, order, limit));
              && s'.now == s.now && s'.rows.Keys == s.rows.Keys
              && (forall k | k in s.rows :: s'.rows[k] == if k in keys then s.rows[k].(nextAttempt := s.now + leaseMs) else s.rows[k])
              && |s'.pass| == |keys|
              && forall i | 0 <= i < |keys| ::
                   keys[i] in s.rows
                   && (var row := s.rows[keys[i]];
                       s'.pass[i] == Task(keys[i], row.paymentId, row.orderId, row.payload, row.attempts, row.maxAttempts))
  {
    var keys := PickDue(s.rows, s.now, order, limit);
    forall i | 0 <= i < |keys| ensures keys[i] in s.rows {
      assert keys[i] in keys;
    }
  }

  /** The move handles the event, the ledger takes it, and the write that completes it is carried out. */
  predicate Completes(w: World, m: Move, k: EventKey) {
    && m.HandleNext? && w.inbox.pass != [] && w.inbox.pass[0].key == k && k in w.inbox.rows
    && Taken(w.ledger, k, w.inbox.rows[k], m.c) && m.c.completion != NotDone
  }

  ghost predicate CompletedIn(w: World, ms: seq<Move>, k: EventKey)
    requires Good(w) && forall m | m in ms :: Possible(m)
    decreases |ms|
  {
    ms != [] && (Completes(w, ms[0], k) || (MovedGood(w, ms[0]); CompletedIn(Moved(w, ms[0]), ms[1..], k)))
  }

  predicate IsProcessed(w: World, k: EventKey) {
    k in w.inbox.rows && w.inbox.rows[k].status == Processed
  }

  lemma ProcessedStep(w: World, m: Move, k: EventKey)
    requires Good(w) && Possible(m)
    ensures IsProcessed(Moved(w, m), k) <==> IsProcessed(w, k) || Completes(w, m, k)
  {
    match m
    case InInbox(e) => StepKeeps(w.inbox, e, k);
    case InLedger(_) =>
    case HandleNext(c) =>
      if w.inbox.pass != [] {
        assert w.inbox.pass[0] in w.inbox.pass;
        HandledExactly(w, c);
      }
  }

  /**
   * Over every run an event that was not processed before ends up processed exactly if at some moment the ledger took it, with the
   * payload it was stored with, and the completing write was carried out; so from an empty inbox for every processed event.
   */
  lemma {:induction false} ProcessedExactly(w: World, ms: seq<Move>, k: EventKey)
    requires Good(w) && (forall m | m in ms :: Possible(m)) && !IsProcessed(w, k)
    ensures IsProcessed(Moves(w, ms), k) <==> CompletedIn(w, ms, k)
    decreases |ms|
  {
    if ms != [] {
      MovedGood(w, ms[0]);
      ProcessedStep(w, ms[0], k);
      if IsProcessed(Moved(w, ms[0]), k) {
        StaysProcessed(Moved(w, ms[0]), ms[1..], k);
      } else {
        ProcessedExactly(Moved(w, ms[0]), ms[1..], k);
      }
    }
  }

  lemma {:induction false} StaysProcessed(w: World, ms: seq<Move>, k: EventKey)
    requires Good(w) && (forall m | m in ms :: Possible(m)) && IsProcessed(w, k)
    ensures IsProcessed(Moves(w, ms), k)
    decreases |ms|
  {
    if ms != [] {
      MovedGood(w, ms[0]);
      ProcessedStep(w, ms[0], k);
      StaysProcessed(Moved(w, ms[0]), ms[1..], k);
    }
  }
}
