/** The webhook worker: it leases due events, applies them to payments and refunds, and settles them in the inbox. */
module WebhookService {
  import opened Collections
  import opened Refunds
  import opened RefundLaws
  import opened RefundStore
  import opened WebhookInbox

  /**
   * Which row a select returns first, whether the order service acknowledged the payment confirmation, and what becomes of the
   * write that completes the event and of the one that records a failure.
   */
  datatype Circumstances = Circumstances(pick: nat, confirmed: bool, completion: Delivery, failure: Delivery)

  /** The ledger step a task asks for, when its own checks pass. */
  function Requested(task: Task, c: Circumstances): Option<Event> {
    match task.payload
    case RefundContent(id, status, amount, currency) => Some(ProviderEvent(c.pick, id, status, amount, currency))
    case PaidContent(amount, currency, captureId) =>
      if task.orderId.None? || (task.key.provider == "paypal" && captureId.None?) || !c.confirmed then None
      else Some(PaymentPaid(task.key.provider, task.paymentId, task.orderId.value, amount, currency, captureId))
    case OtherContent(_) => None
  }

  function Accepted(l: Ledger, e: Event): bool
    requires Referenced(l) && WellFormed(e)
  {
    match e
    case ProviderEvent(pick, id, status, a, c) => ApplyProviderEvent(l, pick, id, status, a, c).1
    case PaymentPaid(p, id, o, a, c, capture) => PaidEvent(l, p, id, o, a, c, capture).1
    case _ => true
  }

  lemma RequestedWellFormed(task: Task, c: Circumstances)
    ensures var e := Requested(task, c); e.Some? ==> WellFormed(e.value)
  {
  }

  // ----- Inbox and ledger together -----

  datatype World = World(inbox: Inbox, ledger: Ledger)

  datatype Move =
    | InInbox(step: InboxEvent)
    | InLedger(e: Event)
    | HandleNext(c: Circumstances)

  predicate Possible(m: Move) {
    match m
    case InInbox(e) => !e.Settle?
    case InLedger(e) => WellFormed(e)
    case HandleNext(_) => true
  }

  ghost predicate Good(w: World) {
    Healthy(w.inbox) && Referenced(w.ledger)
  }

  /** After a completion whose reply was lost the failure finds the event processed: that ends the pass. */
  function OutcomeOf(ok: bool, c: Circumstances): Outcome {
    if ok && c.completion != NotDone then Handled(c.completion == Acked)
    else if c.failure != NotDone then Raised(c.failure == Acked)
    else Aborted
  }

  function Moved(w: World, m: Move): World
    requires Good(w) && Possible(m)
  {
    match m
    case InInbox(e) => w.(inbox := NextState(w.inbox, e))
    case InLedger(e) => w.(ledger := Step(w.ledger, e))
    case HandleNext(c) =>
      if w.inbox.pass == [] then w
      else
        var requested := Requested(w.inbox.pass[0], c);
        RequestedWellFormed(w.inbox.pass[0], c);
        var ok := requested.Some? && Accepted(w.ledger, requested.value);
        World(NextState(w.inbox, Settle(OutcomeOf(ok, c))),
              if requested.Some? then Step(w.ledger, requested.value) else w.ledger)
  }

  lemma MovedGood(w: World, m: Move)
    requires Good(w) && Possible(m)
    ensures Good(Moved(w, m))
  {
    match m
    case InInbox(e) => StaysHealthy(w.inbox, e);
    case InLedger(e) =>
    case HandleNext(c) =>
      if w.inbox.pass != [] {
        var requested := Requested(w.inbox.pass[0], c);
        RequestedWellFormed(w.inbox.pass[0], c);
        StaysHealthy(w.inbox, Settle(OutcomeOf(requested.Some? && Accepted(w.ledger, requested.value), c)));
      }
  }

  ghost function Moves(w: World, ms: seq<Move>): (w': World)
    requires Good(w) && forall m | m in ms :: Possible(m)
    ensures Good(w')
    decreases |ms|
  {
    if ms == [] then w
    else
      MovedGood(w, ms[0]);
      Moves(Moved(w, ms[0]), ms[1..])
  }

  /** The ledger events of a run, deliveries handled twice included. */
  ghost function LedgerEvents(w: World, ms: seq<Move>): seq<Event>
    requires Good(w) && forall m | m in ms :: Possible(m)
    decreases |ms|
  {
    if ms == [] then []
    else
      MovedGood(w, ms[0]);
      LedgerEvent(w, ms[0]) + LedgerEvents(Moved(w, ms[0]), ms[1..])
  }

  function LedgerEvent(w: World, m: Move): seq<Event> {
    match m
    case InInbox(_) => []
    case InLedger(e) => [e]
    case HandleNext(c) =>
      if w.inbox.pass == [] then []
      else
        var e := Requested(w.inbox.pass[0], c);
        if e.Some? then [e.value] else []
  }

  lemma MovedLedger(w: World, m: Move)
    requires Good(w) && Possible(m)
    ensures forall e | e in LedgerEvent(w, m) :: WellFormed(e)
    ensures Moved(w, m).ledger == if LedgerEvent(w, m) == [] then w.ledger else Step(w.ledger, LedgerEvent(w, m)[0])
    ensures |LedgerEvent(w, m)| <= 1
  {
  }

  lemma {:induction false} LedgerFollows(w: World, ms: seq<Move>)
    requires Good(w) && forall m | m in ms :: Possible(m)
    ensures forall e | e in LedgerEvents(w, ms) :: WellFormed(e)
    ensures Moves(w, ms).ledger == Run(w.ledger, LedgerEvents(w, ms))
    decreases |ms|
  {
    if ms != [] {
      MovedGood(w, ms[0]);
      MovedLedger(w, ms[0]);
      var now, later := LedgerEvent(w, ms[0]), LedgerEvents(Moved(w, ms[0]), ms[1..]);
      LedgerFollows(Moved(w, ms[0]), ms[1..]);
      assert forall e | e in now + later :: e in now || e in later;
      if now == [] {
        assert now + later == later;
      } else {
        assert now == [now[0]];
        RunFirst(w.ledger, now[0], later);
      }
    }
  }

  /** The cap holds after every move. */
  ghost predicate StaysCapped(w: World, ms: seq<Move>)
    requires Good(w) && forall m | m in ms :: Possible(m)
    decreases |ms|
  {
    Capped(w.ledger)
    && (ms == [] || (MovedGood(w, ms[0]); StaysCapped(Moved(w, ms[0]), ms[1..])))
  }

  lemma {:induction false} StaysCappedFollows(w: World, ms: seq<Move>)
    requires Good(w) && forall m | m in ms :: Possible(m)
    ensures forall e | e in LedgerEvents(w, ms) :: WellFormed(e)
    ensures StaysCapped(w, ms) <==> NeverExceeds(w.ledger, LedgerEvents(w, ms))
    decreases |ms|
  {
    LedgerFollows(w, ms);
    if ms != [] {
      MovedGood(w, ms[0]);
      MovedLedger(w, ms[0]);
      var now, later := LedgerEvent(w, ms[0]), LedgerEvents(Moved(w, ms[0]), ms[1..]);
      StaysCappedFollows(Moved(w, ms[0]), ms[1..]);
      if now == [] {
        assert now + later == later;
      } else {
        assert now == [now[0]] && (now + later)[1..] == later;
      }
    }
  }

  /**
   * Money cap with the inbox in front: whatever is delivered twice, handled again after a crash or mixed with
   * claims and results, the cap holds after every move exactly when every event applied on the way fits.
   */
  lemma CapWithRedelivery(w: World, ms: seq<Move>)
    requires Good(w) && Sane(w.ledger) && Capped(w.ledger) && forall m | m in ms :: Possible(m)
    ensures forall e | e in LedgerEvents(w, ms) :: WellFormed(e)
    ensures StaysCapped(w, ms) <==> EveryEventFits(w.ledger, LedgerEvents(w, ms))
  {
    StaysCappedFollows(w, ms);
    CapThroughoutExactly(w.ledger, LedgerEvents(w, ms));
  }

  // ----- Handling an event again -----

  lemma {:induction false} MarkPaidTwice(xs: seq<Transaction>, provider: string, paymentId: string, orderId: string,
                                         amount: int, currency: string, captureId: Option<string>)
    ensures var (ys, found) := MarkPaid(xs, provider, paymentId, orderId, amount, currency, captureId);
            MarkPaid(ys, provider, paymentId, orderId, amount, currency, captureId) == (ys, found)
  {
    if xs != [] && !Pays(xs[0], provider, paymentId, orderId, amount, currency) {
      MarkPaidTwice(xs[1..], provider, paymentId, orderId, amount, currency, captureId);
      var rest := MarkPaid(xs[1..], provider, paymentId, orderId, amount, currency, captureId).0;
      assert ([xs[0]] + rest)[1..] == rest;
    }
  }

  /** An event handled again right away changes nothing and is answered as before: redelivery has the effect of one delivery. */
  lemma RedeliveryIsHarmless(l: Ledger, task: Task, c: Circumstances)
    requires Referenced(l) && Requested(task, c).Some?
    ensures WellFormed(Requested(task, c).value)
    ensures var e := Requested(task, c).value;
            Step(Step(l, e), e) == Step(l, e) && Accepted(Step(l, e), e) == Accepted(l, e)
  {
    var e := Requested(task, c).value;
    if e.PaymentPaid? {
      MarkPaidTwice(l.transactions, e.provider, e.paymentId, e.orderId, e.amount, e.currency, e.captureId);
    } else {
      WithStatusRows(l.refunds, e.id, e.status);
    }
  }

  // ----- The classes -----

  class PaymentWebhookInboxRepository {
    var rows: Rows

    method Claim(d: Webhook, now: nat) returns (decision: Option<Decision>)
      modifies this
      ensures (rows, decision) == ClaimDelivery(old(rows), now, d)
    {
      var limit := d.maxAttempts.GetOr(8);
      if limit == 0 || limit > 100 {
        return None;
      }
      if d.key !in rows {
        rows := rows[d.key := Row(d.paymentId, d.orderId, d.payload, InProgress, 1, limit, now)];
        return Some(ClaimAsNew);
      }
      var decided := DecideWebhookClaim(Some(rows[d.key]), d.payload);
      if decided == ClaimAsRetry {
        rows := rows[d.key := rows[d.key].(status := InProgress, attempts := 1, nextAttempt := now)];
      }
      return Some(decided);
    }

    method ClaimDue(now: nat, order: seq<EventKey>, limit: nat, leaseMs: nat) returns (tasks: seq<Task>)
      modifies this
      ensures rows == Leased(old(rows), PickDue(old(rows), now, order, limit), now + leaseMs)
      ensures tasks == TasksOf(rows, PickDue(old(rows), now, order, limit))
    {
      var keys := PickDue(rows, now, order, limit);
      rows := Leased(rows, keys, now + leaseMs);
      tasks := TasksOf(rows, keys);
    }

    method MarkProcessed(k: EventKey) returns (ok: bool)
      modifies this
      ensures ok == WithProcessed(old(rows), k).Some? && rows == WithProcessed(old(rows), k).GetOr(old(rows))
    {
      ok := k in rows && rows[k].status == InProgress;
      if ok {
        rows := rows[k := rows[k].(status := Processed)];
      }
    }

    method MarkProcessingFailure(task: Task, now: nat) returns (ok: bool)
      requires task.attempts > 0
      modifies this
      ensures ok == WithFailure(old(rows), now, task).Some? && rows == WithFailure(old(rows), now, task).GetOr(old(rows))
    {
      var (status, attempts) := NextWebhookFailure(task.attempts, task.maxAttempts);
      ok := task.key in rows && rows[task.key].status == InProgress;
      if ok {
        var row := rows[task.key];
        rows := rows[task.key := row.(status := status, attempts := attempts, nextAttempt := now + RetryDelay(task.attempts))];
      }
    }
  }

  class PaymentWebhookWorker {
    const repository: PaymentWebhookInboxRepository
    const payments: PaymentRepository
    var running: bool

    constructor (repository: PaymentWebhookInboxRepository, payments: PaymentRepository)
      ensures this.repository == repository && this.payments == payments && !running
    {
      this.repository, this.payments, running := repository, payments, false;
    }

    ghost function View(now: nat, pass: seq<Task>): World
      reads repository, payments
    {
      World(Inbox(repository.rows, now, pass), payments.View())
    }

    /** The handler proper; it reports whether it raised. */
    method Process(task: Task, c: Circumstances) returns (ok: bool)
      requires Referenced(payments.View())
      modifies payments
      ensures var e := Requested(task, c);
              && (e.Some? ==> WellFormed(e.value))
              && payments.View() == (if e.Some? then Step(old(payments.View()), e.value) else old(payments.View()))
              && ok == (e.Some? && Accepted(old(payments.View()), e.value))
    {
      match task.payload {
        case RefundContent(id, status, amount, currency) =>
          ok := payments.ApplyEvent(c.pick, id, status, amount, currency);
        case PaidContent(amount, currency, captureId) =>
          if task.orderId.None? || (task.key.provider == "paypal" && captureId.None?) || !c.confirmed {
            return false;
          }
          ok := payments.CompletePayment(task.key.provider, task.paymentId, task.orderId.value, amount, currency, captureId);
        case OtherContent(_) =>
          return false;
      }
    }

    /** One leased task, up to its write; `ended` says that even the failure could not be written. */
    method HandleOne(task: Task, c: Circumstances, now: nat, ghost rest: seq<Task>) returns (ended: bool)
      requires Good(View(now, [task] + rest))
      modifies payments, repository
      ensures View(now, if ended then [] else rest) == Moved(old(View(now, [task] + rest)), HandleNext(c))
    {
      assert task in [task] + rest && ([task] + rest)[1..] == rest;
      var ok := Process(task, c);
      if ok && c.completion != NotDone {
        var processed := repository.MarkProcessed(task.key);
        if processed && c.completion == Acked {
          return false;
        }
      }
      ended := FailOne(task, c.failure, now);
    }

    /** The write of a failure: it raises when the event is not in progress, or when it is not answered. */
    method FailOne(task: Task, write: Delivery, now: nat) returns (ended: bool)
      requires task.attempts > 0
      modifies repository
      ensures var rows := WithFailure(old(repository.rows), now, task);
              && repository.rows == (if write == NotDone then old(repository.rows) else rows.GetOr(old(repository.rows)))
              && ended == (write != Acked || rows.None?)
    {
      if write == NotDone {
        return true;
      }
      var ok := repository.MarkProcessingFailure(task, now);
      ended := !ok || write == ReplyLost;
    }

    method HandleNth(tasks: seq<Task>, script: seq<Circumstances>, i: nat, now: nat, ghost leased: World) returns (ended: bool)
      requires Good(leased) && |script| == |tasks| && i < |tasks|
      requires View(now, tasks[i..]) == Moves(leased, Handling(script[..i]))
      modifies payments, repository
      ensures View(now, if ended then [] else tasks[i + 1..]) == Moves(leased, Handling(script[..i + 1]))
    {
      assert tasks[i..] == [tasks[i]] + tasks[i + 1..];
      OneMoreMove(leased, script, i);
      ended := HandleOne(tasks[i], script[i], now, tasks[i + 1..]);
    }

    /** The leased tasks in turn, until a failure cannot be written. */
    method HandleAll(tasks: seq<Task>, script: seq<Circumstances>, now: nat)
      requires Good(View(now, tasks)) && |script| == |tasks|
      modifies payments, repository
      ensures View(now, []) == Moves(old(View(now, tasks)), Handling(script))
    {
      ghost var leased := View(now, tasks);
      var i, ended := 0, false;
      assert Moves(leased, Handling(script[..0])) == leased;
      while i < |tasks| && !ended
        invariant 0 <= i <= |tasks|
        invariant View(now, if ended then [] else tasks[i..]) == Moves(leased, Handling(script[..i]))
      {
        ended := HandleNth(tasks, script, i, now, leased);
        i := i + 1;
      }
      IdleMoves(leased, script, i, |tasks|);
      assert script[..|tasks|] == script;
    }

    /**
     * A pass is one lease followed by the handling of each leased task; nothing while another pass runs or when the lease is not
     * carried out. A lease whose reply is lost takes events and handles none.
     */
    method RunOnce(now: nat, order: seq<EventKey>, limit: nat, leaseMs: nat, claim: Delivery, script: seq<Circumstances>)
      returns (taken: nat)
      requires Good(View(now, [])) && |script| == limit
      modifies this, payments, repository
      ensures old(running) || claim == NotDone ==> taken == 0 && running == old(running) && View(now, []) == old(View(now, []))
      ensures !old(running) ==> !running
      ensures !old(running) && claim == ReplyLost ==>
                taken == 0 && View(now, []) == Moves(old(View(now, [])), [InInbox(StartPass(order, limit, leaseMs)), InInbox(Crash)])
      ensures !old(running) && claim == Acked ==>
                && taken == |PickDue(old(repository.rows), now, order, limit)|
                && View(now, []) == Moves(old(View(now, [])), [InInbox(StartPass(order, limit, leaseMs))] + Handling(script[..taken]))
    {
      if running || claim == NotDone {
        return 0;
      }
      running := true;
      taken := Pass(now, order, limit, leaseMs, claim, script);
      running := false;
    }

    method Lease(now: nat, order: seq<EventKey>, limit: nat, leaseMs: nat) returns (tasks: seq<Task>)
      requires Good(View(now, []))
      modifies repository
      ensures View(now, tasks) == Moved(old(View(now, [])), InInbox(StartPass(order, limit, leaseMs)))
      ensures |tasks| == |PickDue(old(repository.rows), now, order, limit)| <= limit
    {
      tasks := repository.ClaimDue(now, order, limit, leaseMs);
    }

    method Pass(now: nat, order: seq<EventKey>, limit: nat, leaseMs: nat, claim: Delivery, script: seq<Circumstances>)
      returns (taken: nat)
      requires running && Good(View(now, [])) && |script| == limit && claim != NotDone
      modifies this, payments, repository
      ensures claim == ReplyLost ==>
                taken == 0 && View(now, []) == Moves(old(View(now, [])), [InInbox(StartPass(order, limit, leaseMs)), InInbox(Crash)])
      ensures claim == Acked ==>
                && taken == |PickDue(old(repository.rows), now, order, limit)|
                && View(now, []) == Moves(old(View(now, [])), [InInbox(StartPass(order, limit, leaseMs))] + Handling(script[..taken]))
    {
      ghost var start := View(now, []);
      var tasks := Lease(now, order, limit, leaseMs);
      if claim == ReplyLost {
        LostLease(start, StartPass(order, limit, leaseMs));
        return 0;
      }
      taken := |tasks|;
      FirstMove(start, InInbox(StartPass(order, limit, leaseMs)), Handling(script[..taken]));
      HandleAll(tasks, script[..taken], now);
    }
  }

  function Handling(script: seq<Circumstances>): (ms: seq<Move>)
    ensures |ms| == |script| && forall m | m in ms :: Possible(m)
    ensures forall i | 0 <= i < |script| :: ms[i] == HandleNext(script[i])
  {
    seq(|script|, i requires 0 <= i < |script| => HandleNext(script[i]))
  }

  lemma LostLease(w: World, e: InboxEvent)
    requires Good(w) && !e.Settle?
    ensures var after := Moved(w, InInbox(e));
            Moves(w, [InInbox(e), InInbox(Crash)]) == after.(inbox := after.inbox.(pass := []))
  {
    MovedGood(w, InInbox(e));
    MovedGood(Moved(w, InInbox(e)), InInbox(Crash));
    assert [InInbox(e), InInbox(Crash)][1..] == [InInbox(Crash)] && [InInbox(Crash)][1..] == [];
  }

  lemma FirstMove(w: World, m: Move, ms: seq<Move>)
    requires Good(w) && Possible(m) && forall x | x in ms :: Possible(x)
    ensures Good(Moved(w, m)) && Moves(w, [m] + ms) == Moves(Moved(w, m), ms)
  {
    MovedGood(w, m);
    assert ([m] + ms)[1..] == ms;
  }

  lemma {:induction false} LastMove(w: World, ms: seq<Move>, m: Move)
    requires Good(w) && Possible(m) && forall x | x in ms :: Possible(x)
    ensures Moves(w, ms + [m]) == Moved(Moves(w, ms), m)
    decreases |ms|
  {
    if ms == [] {
      assert ms + [m] == [m];
      MovedGood(w, m);
    } else {
      MovedGood(w, ms[0]);
      LastMove(Moved(w, ms[0]), ms[1..], m);
      assert (ms + [m])[1..] == ms[1..] + [m];
    }
  }

  lemma OneMoreMove(w: World, script: seq<Circumstances>, i: nat)
    requires Good(w) && i < |script|
    ensures Moves(w, Handling(script[..i + 1])) == Moved(Moves(w, Handling(script[..i])), HandleNext(script[i]))
  {
    assert Handling(script[..i + 1]) == Handling(script[..i]) + [HandleNext(script[i])];
    LastMove(w, Handling(script[..i]), HandleNext(script[i]));
  }

  /** Once the pass is over nothing more is handled. */
  lemma {:induction false} IdleMoves(w: World, script: seq<Circumstances>, i: nat, n: nat)
    requires Good(w) && i <= n <= |script|
    requires i < n ==> Moves(w, Handling(script[..i])).inbox.pass == []
    ensures Moves(w, Handling(script[..n])) == Moves(w, Handling(script[..i]))
    decreases n - i
  {
    if i < n {
      OneMoreMove(w, script, i);
      IdleMoves(w, script, i + 1, n);
    }
  }
}
