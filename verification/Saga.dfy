/**
 * Payment confirmation and cancellation across the order, inventory and worker services.
 *
 * A step is one transaction or one remote call; any number of runs, workers and other users of
 * the inventory interleave.  The order row is read without a lock when a run starts and checked
 * again under a lock only when it ends.
 */
module Saga {
  import opened Collections
  import Inventory
  import opened InventoryBackend
  import opened OrderState
  import Q = CompensationQueue

  /** `lines` are the reservation keys of the order lines. */
  datatype Order = Order(state: State, lines: seq<string>)

  datatype Phase = Calling | Enqueuing | Ended(granted: bool)

  /** One call of `transitionPayment`: lines before `next` are done, `queued` once a call was not acknowledged. */
  datatype PaymentRun = PaymentRun(order: string, action: Action, lines: seq<string>, next: nat, queued: bool, phase: Phase)

  /**
   * `lost` are the tasks whose insert failed, `won` the runs that reported a final state, `unreported` those whose
   * final state was written behind a lost reply.
   */
  datatype World = World(store: Store, orders: map<string, Order>, queue: Q.Queue, runs: map<nat, PaymentRun>,
                         lost: set<Q.TaskKey>, won: set<(string, Action)>, unreported: set<(string, Action)>)

  datatype Event =
    | Elsewhere(call: ServiceCall)
    | CreateOrder(order: string, lines: seq<string>)
    | StartRun(run: nat, order: string, action: Action)
    | CallLine(run: nat, delivery: Delivery)
    | EnqueueLine(run: nat, stored: bool)
    | EndRun(run: nat, write: Delivery)
    | ManualCompensation(order: string, action: Action, adminKey: string)
    | WorkerClaim(id: nat, key: Q.TaskKey)
    | WorkerCall(id: nat, delivery: Delivery)
    | WorkerWrite(event: Q.Event)

  function InventoryCall(action: Action, reservation: string): ServiceCall {
    SettleCall(reservation, action == ConfirmPayment)
  }

  function Delivered(s: Store, c: ServiceCall, d: Delivery): (r: (Store, bool)) {
    if d == NotDone then (s, false) else (Handle(s, c).store, d == Acked && Handle(s, c).reply.Ok())
  }

  function EnqueuedAll(q: Q.Queue, adminKey: string, action: Action, lines: seq<string>, from: nat): Q.Queue
    requires from <= |lines|
    decreases |lines| - from
  {
    if from == |lines| then q
    else EnqueuedAll(Q.Enqueued(q, Q.AdminKey(adminKey, from), action, lines[from]), adminKey, action, lines, from + 1)
  }

  function Start(w: World, run: nat, order: string, action: Action): World
    requires order in w.orders
  {
    var o := w.orders[order];
    var begun := PaymentRun(order, action, o.lines, 0, false, Calling);
    if IsFinal(o.state, action) then
      w.(runs := w.runs[run := begun.(phase := Ended(true))], won := w.won + {(order, action)})
    else if !AllowedTransition(o.state, Desired(action)) then
      w.(runs := w.runs[run := begun.(phase := Ended(false))])
    else
      w.(runs := w.runs[run := begun])
  }

  function Call(w: World, run: nat, d: Delivery): World
    requires run in w.runs && w.runs[run].next < |w.runs[run].lines|
  {
    var r := w.runs[run];
    var (store, ok) := Delivered(w.store, InventoryCall(r.action, r.lines[r.next]), d);
    w.(store := store,
       runs := w.runs[run := if ok then r.(next := r.next + 1) else r.(queued := true, phase := Enqueuing)])
  }

  function EnqueueFailed(w: World, run: nat, stored: bool): World
    requires run in w.runs && w.runs[run].next < |w.runs[run].lines|
  {
    var r := w.runs[run];
    var key := Q.LineKey(r.lines[r.next], r.action);
    w.(queue := if stored then Q.Enqueued(w.queue, key, r.action, r.lines[r.next]) else w.queue,
       lost := if stored then w.lost else w.lost + {key},
       runs := w.runs[run := r.(next := r.next + 1, phase := Calling)])
  }

  /** What the run is going to write. */
  function Outcome(r: PaymentRun): State {
    if r.queued then AwaitingCompensation(r.action) else Desired(r.action)
  }

  /** The order row is checked again and written; a run that gets no answer ends without one. */
  function End(w: World, run: nat, d: Delivery): World
    requires run in w.runs && w.runs[run].order in w.orders
  {
    var r := w.runs[run];
    var o := w.orders[r.order];
    if d == NotDone || !AllowedTransition(o.state, Outcome(r)) then
      w.(runs := w.runs[run := r.(phase := Ended(false))])
    else
      w.(orders := w.orders[r.order := o.(state := Outcome(r))],
         runs := w.runs[run := r.(phase := Ended(d == Acked))],
         won := if r.queued || d != Acked then w.won else w.won + {(r.order, r.action)},
         unreported := if r.queued || d == Acked then w.unreported else w.unreported + {(r.order, r.action)})
  }

  function Compensate(w: World, order: string, action: Action, adminKey: string): World
    requires order in w.orders
  {
    var o := w.orders[order];
    w.(queue := EnqueuedAll(w.queue, adminKey, action, o.lines, 0),
       orders := w.orders[order := o.(state := AwaitingCompensation(action))])
  }

  predicate Enabled(w: World, e: Event) {
    match e
    case Elsewhere(_) => true
    case CreateOrder(order, lines) => order !in w.orders && lines != []
    case StartRun(run, order, _) => run !in w.runs && order in w.orders
    case CallLine(run, _) => run in w.runs && w.runs[run].phase == Calling && w.runs[run].next < |w.runs[run].lines|
    case EnqueueLine(run, _) => run in w.runs && w.runs[run].phase == Enqueuing && w.runs[run].next < |w.runs[run].lines|
    case EndRun(run, _) =>
      && run in w.runs && w.runs[run].phase == Calling && w.runs[run].next == |w.runs[run].lines|
      && w.runs[run].order in w.orders
    case ManualCompensation(order, _, _) => order in w.orders && IsException(w.orders[order].state)
    case WorkerClaim(_, _) => true
    case WorkerCall(id, _) => id in w.queue.claims && w.queue.claims[id].phase == Q.Claimed
    case WorkerWrite(q) => q.Complete? || q.CompleteLost? || q.Fail? || q.Abandon? || q.Decide?
  }

  function Step(w: World, e: Event): World {
    if !Enabled(w, e) then w
    else
      match e
      case Elsewhere(call) => w.(store := Handle(w.store, call).store)
      case CreateOrder(order, lines) => w.(orders := w.orders[order := Order(CREATED, lines)])
      case StartRun(run, order, action) => Start(w, run, order, action)
      case CallLine(run, d) => Call(w, run, d)
      case EnqueueLine(run, stored) => EnqueueFailed(w, run, stored)
      case EndRun(run, d) => End(w, run, d)
      case ManualCompensation(order, action, adminKey) => Compensate(w, order, action, adminKey)
      case WorkerClaim(id, key) => w.(queue := Q.Step(w.queue, Q.ClaimTask(id, key)))
      case WorkerCall(id, d) =>
        var task := w.queue.claims[id].task;
        var (store, ok) := Delivered(w.store, InventoryCall(task.action, task.reservation), d);
        w.(store := store, queue := Q.Step(w.queue, Q.CallReturned(id, ok)))
      case WorkerWrite(q) => w.(queue := Q.Step(w.queue, q))
  }

  function Exec(w: World, es: seq<Event>): World
    decreases |es|
  {
    if es == [] then w else Exec(Step(w, es[0]), es[1..])
  }

  /** No orders yet; the inventory may hold anything. */
  function Initial(store: Store): World {
    World(store, map[], Q.Queue(map[], map[], [], []), map[], {}, {}, {})
  }

  // ----- The invariant -----

  predicate Reached(w: World, line: string, action: Action) {
    InStatus(w.store, line, if action == ConfirmPayment then Inventory.Confirmed else Inventory.Cancelled)
  }

  predicate Covered(w: World, line: string, action: Action) {
    Reached(w, line, action) || Q.LineKey(line, action) in w.queue.tasks || Q.LineKey(line, action) in w.lost
  }

  ghost predicate RunsInv(w: World) {
    forall run | run in w.runs :: RunInv(w, w.runs[run])
  }

  ghost predicate RunInv(w: World, r: PaymentRun) {
    && r.order in w.orders && r.lines == w.orders[r.order].lines && r.next <= |r.lines|
    && (r.phase == Enqueuing ==> r.queued && r.next < |r.lines|)
    && (forall j | 0 <= j < r.next :: Covered(w, r.lines[j], r.action))
    && (!r.queued ==> forall j | 0 <= j < r.next :: Reached(w, r.lines[j], r.action))
  }

  ghost predicate OrdersInv(w: World) {
    forall order | order in w.orders :: OrderInv(w, order, w.orders[order])
  }

  ghost predicate OrderInv(w: World, order: string, o: Order) {
    && o.lines != [] && ShownTogether(o.state)
    && (forall action :: IsFinal(o.state, action) ==> forall line | line in o.lines :: Reached(w, line, action))
    && (forall action :: IsFinal(o.state, action) <==> (order, action) in w.won + w.unreported)
    && (o.state.status == PendingPayment ==> o.state == CREATED)
    && (o.state.status == Compensating <==> o.state.inventory == CompensationPending)
  }

  /** The five combinations of statuses that an order row ever shows. */
  predicate ShownTogether(s: State) {
    || s == State(PendingPayment, MockCreated, StockReserved)
    || s == State(Paid, PaymentPaid, StockConfirmed)
    || s == State(OrderCancelled, PaymentCancelled, StockCancelled)
    || s == State(Compensating, PaymentPaid, CompensationPending)
    || s == State(Compensating, PaymentCancelled, CompensationPending)
  }

  ghost predicate WonInv(w: World) {
    forall x | x in w.won + w.unreported :: x.0 in w.orders
  }

  ghost predicate TasksInv(w: World) {
    forall line, action | Q.LineKey(line, action) in w.queue.tasks :: TaskInv(w, line, action, w.queue.tasks[Q.LineKey(line, action)])
  }

  ghost predicate TaskInv(w: World, line: string, action: Action, t: Q.Task) {
    && t.action == action && t.reservation == line
    && (t.status == Q.Completed ==> Reached(w, line, action))
  }

  ghost predicate ClaimsInv(w: World) {
    forall id | id in w.queue.claims && w.queue.claims[id].key.LineKey? :: ClaimInv(w, w.queue.claims[id])
  }

  ghost predicate ClaimInv(w: World, c: Q.Claim)
    requires c.key.LineKey?
  {
    && c.task.action == c.key.action && c.task.reservation == c.key.reservation
    && (c.phase == Q.CallSucceeded ==> Reached(w, c.key.reservation, c.key.action))
  }

  ghost predicate Inv(w: World) {
    RunsInv(w) && OrdersInv(w) && WonInv(w) && TasksInv(w) && ClaimsInv(w)
  }

  /** Nothing that was reached or covered stops being so, and orders keep their lines. */
  ghost predicate Later(w: World, w': World) {
    && Grows(w.store, w'.store)
    && w.queue.tasks.Keys <= w'.queue.tasks.Keys
    && w.lost <= w'.lost
    && (forall order | order in w.orders :: order in w'.orders && w'.orders[order].lines == w.orders[order].lines)
  }

  lemma EnqueuedAllKeeps(q: Q.Queue, adminKey: string, action: Action, lines: seq<string>, from: nat)
    requires from <= |lines|
    ensures var q' := EnqueuedAll(q, adminKey, action, lines, from);
            && q.tasks.Keys <= q'.tasks.Keys && q'.claims == q.claims
            && (forall line, a :: Q.LineKey(line, a) in q'.tasks <==> Q.LineKey(line, a) in q.tasks)
            && (forall line, a | Q.LineKey(line, a) in q.tasks :: q'.tasks[Q.LineKey(line, a)] == q.tasks[Q.LineKey(line, a)])
    decreases |lines| - from
  {
    if from < |lines| {
      EnqueuedAllKeeps(Q.Enqueued(q, Q.AdminKey(adminKey, from), action, lines[from]), adminKey, action, lines, from + 1);
    }
  }

  lemma DeliveredFacts(s: Store, action: Action, line: string, d: Delivery)
    ensures var (s', ok) := Delivered(s, InventoryCall(action, line), d);
            Grows(s, s') && (ok ==> InStatus(s', line, SettledStatus(action == ConfirmPayment)))
  {
    HandleGrows(s, InventoryCall(action, line));
    if Delivered(s, InventoryCall(action, line), d).1 {
      SettledWhenOk(s, line, action == ConfirmPayment);
    }
  }

  lemma StepIsLater(w: World, e: Event)
    ensures Later(w, Step(w, e))
  {
    if Enabled(w, e) {
      match e
      case Elsewhere(call) => HandleGrows(w.store, call);
      case CallLine(run, d) => DeliveredFacts(w.store, w.runs[run].action, w.runs[run].lines[w.runs[run].next], d);
      case WorkerCall(id, d) => DeliveredFacts(w.store, w.queue.claims[id].task.action, w.queue.claims[id].task.reservation, d);
      case ManualCompensation(order, action, adminKey) =>
        EnqueuedAllKeeps(w.queue, adminKey, action, w.orders[order].lines, 0);
      case WorkerWrite(q) => KeysStay(w.queue, q);
      case _ =>
    }
  }

  lemma KeysStay(q: Q.Queue, e: Q.Event)
    ensures q.tasks.Keys <= Q.Step(q, e).tasks.Keys
  {
  }

  lemma RunStays(w: World, w': World, r: PaymentRun)
    requires RunInv(w, r) && Later(w, w')
    ensures RunInv(w', r)
  {
  }

  lemma RunCalled(w: World, run: nat, d: Delivery)
    requires Enabled(w, CallLine(run, d)) && RunInv(w, w.runs[run])
    ensures RunInv(Call(w, run, d), Call(w, run, d).runs[run])
  {
    var w', r := Call(w, run, d), w.runs[run];
    StepIsLater(w, CallLine(run, d));
    RunStays(w, w', r);
    DeliveredFacts(w.store, r.action, r.lines[r.next], d);
    RunAdvanced(w', r, Delivered(w.store, InventoryCall(r.action, r.lines[r.next]), d).1);
  }

  lemma RunAdvanced(w: World, r: PaymentRun, ok: bool)
    requires RunInv(w, r) && r.phase == Calling && r.next < |r.lines| && (ok ==> Reached(w, r.lines[r.next], r.action))
    ensures RunInv(w, if ok then r.(next := r.next + 1) else r.(queued := true, phase := Enqueuing))
  {
  }

  lemma RunEnqueued(w: World, run: nat, stored: bool)
    requires Enabled(w, EnqueueLine(run, stored)) && RunInv(w, w.runs[run])
    ensures RunInv(EnqueueFailed(w, run, stored), EnqueueFailed(w, run, stored).runs[run])
  {
  }

  predicate Advances(e: Event, run: nat) {
    (e.CallLine? || e.EnqueueLine?) && e.run == run
  }

  /** Other steps at most end the run. */
  lemma OtherRunsKept(w: World, e: Event, run: nat)
    requires run in w.runs && !Advances(e, run)
    ensures run in Step(w, e).runs
    ensures var r, r' := w.runs[run], Step(w, e).runs[run];
            r' == r || (r.phase == Calling && r'.phase.Ended? && r' == r.(phase := r'.phase))
  {
  }

  lemma RunKept(w: World, e: Event, run: nat)
    requires run in w.runs && RunInv(w, w.runs[run])
    ensures run in Step(w, e).runs && RunInv(Step(w, e), Step(w, e).runs[run])
  {
    if Advances(e, run) && Enabled(w, e) {
      if e.CallLine? {
        RunCalled(w, run, e.delivery);
      } else {
        RunEnqueued(w, run, e.stored);
      }
    } else if !Advances(e, run) {
      StepIsLater(w, e);
      RunStays(w, Step(w, e), w.runs[run]);
      OtherRunsKept(w, e, run);
    }
  }

  lemma NewRun(w: World, e: Event, run: nat)
    requires run in Step(w, e).runs && run !in w.runs
    ensures RunInv(Step(w, e), Step(w, e).runs[run])
  {
  }

  lemma RunsKept(w: World, e: Event)
    requires RunsInv(w)
    ensures RunsInv(Step(w, e))
  {
    forall run | run in Step(w, e).runs ensures RunInv(Step(w, e), Step(w, e).runs[run]) {
      if run in w.runs {
        RunKept(w, e, run);
      } else {
        NewRun(w, e, run);
      }
    }
  }

  lemma OrdersKept(w: World, e: Event)
    requires Inv(w)
    ensures OrdersInv(Step(w, e)) && WonInv(Step(w, e))
  {
    var w' := Step(w, e);
    forall order | order in w'.orders ensures OrderInv(w', order, w'.orders[order]) {
      if order in w.orders {
        OrderKept(w, e, order);
      } else {
        OrderCreated(w, e, order);
      }
    }
    OnlyOrdersWin(w, e);
  }

  lemma OrderCreated(w: World, e: Event, order: string)
    requires WonInv(w) && order in Step(w, e).orders && order !in w.orders
    ensures OrderInv(Step(w, e), order, Step(w, e).orders[order])
  {
    assert e.CreateOrder? && e.order == order;
    assert forall action :: (order, action) !in w.won + w.unreported;
  }

  lemma OnlyOrdersWin(w: World, e: Event)
    requires RunsInv(w) && WonInv(w)
    ensures WonInv(Step(w, e))
  {
    StepIsLater(w, e);
    forall x | x in Step(w, e).won + Step(w, e).unreported ensures x.0 in Step(w, e).orders {
      if x !in w.won + w.unreported {
        NewWin(w, e, x);
      }
    }
  }

  /** What is newly reported is of the order the step is about. */
  lemma NewWin(w: World, e: Event, x: (string, Action))
    requires x in Step(w, e).won + Step(w, e).unreported && x !in w.won + w.unreported
    ensures x.0 in w.orders
  {
  }

  lemma OrderKept(w: World, e: Event, order: string)
    requires RunsInv(w) && order in w.orders && OrderInv(w, order, w.orders[order])
    ensures order in Step(w, e).orders && OrderInv(Step(w, e), order, Step(w, e).orders[order])
  {
    if Enabled(w, e) && e.EndRun? && w.runs[e.run].order == order {
      assert RunInv(w, w.runs[e.run]);
      OrderEnded(w, e.run, e.write);
    } else {
      OrderUntouched(w, e, order);
    }
  }

  lemma OrderUntouched(w: World, e: Event, order: string)
    requires order in w.orders && OrderInv(w, order, w.orders[order])
    requires !(Enabled(w, e) && e.EndRun? && w.runs[e.run].order == order)
    ensures order in Step(w, e).orders && OrderInv(Step(w, e), order, Step(w, e).orders[order])
  {
    StepIsLater(w, e);
    OrderFrame(w, e, order);
    forall action, line | IsFinal(Step(w, e).orders[order].state, action) && line in w.orders[order].lines
      ensures Reached(Step(w, e), line, action)
    {
      assert Reached(w, line, action);
    }
  }

  /** But for the end of one of its runs an order changes by manual compensation only, and is newly reported only if final. */
  lemma OrderFrame(w: World, e: Event, order: string)
    requires order in w.orders && !(Enabled(w, e) && e.EndRun? && w.runs[e.run].order == order)
    ensures order in Step(w, e).orders
    ensures var (o, o') := (w.orders[order], Step(w, e).orders[order]);
            o' == o || (e.ManualCompensation? && IsException(o.state) && o' == o.(state := AwaitingCompensation(e.action)))
    ensures var w' := Step(w, e);
            forall action :: (order, action) in w'.won + w'.unreported
                             <==> (order, action) in w.won + w.unreported
                                  || (e.StartRun? && Enabled(w, e) && e.order == order && e.action == action
                                      && IsFinal(w.orders[order].state, action))
  {
  }

  lemma OrderEnded(w: World, run: nat, d: Delivery)
    requires Enabled(w, EndRun(run, d)) && RunInv(w, w.runs[run]) && OrderInv(w, w.runs[run].order, w.orders[w.runs[run].order])
    ensures var w', order := End(w, run, d), w.runs[run].order; OrderInv(w', order, w'.orders[order])
  {
    var w', r := End(w, run, d), w.runs[run];
    var o, o' := w.orders[r.order], w'.orders[r.order];
    forall action, line | IsFinal(o'.state, action) && line in o.lines
      ensures Reached(w', line, action)
    {
      if o'.state == o.state {
        assert IsFinal(o.state, action);
      } else {
        assert action == r.action && !r.queued;
        var j :| 0 <= j < |r.lines| && r.lines[j] == line;
        assert Reached(w, r.lines[j], r.action);
      }
    }
  }

  lemma TaskKept(w: World, e: Event, line: string, action: Action)
    requires Q.LineKey(line, action) in w.queue.tasks && TaskInv(w, line, action, w.queue.tasks[Q.LineKey(line, action)])
    requires ClaimsInv(w)
    ensures Q.LineKey(line, action) in Step(w, e).queue.tasks
    ensures TaskInv(Step(w, e), line, action, Step(w, e).queue.tasks[Q.LineKey(line, action)])
  {
    if e.WorkerWrite? {
      TaskWritten(w, e.event, line, action);
    } else if e.ManualCompensation? {
      if Enabled(w, e) {
        EnqueuedAllKeeps(w.queue, e.adminKey, e.action, w.orders[e.order].lines, 0);
      }
    } else {
      StepIsLater(w, e);
    }
  }

  lemma TaskWritten(w: World, q: Q.Event, line: string, action: Action)
    requires Q.LineKey(line, action) in w.queue.tasks && TaskInv(w, line, action, w.queue.tasks[Q.LineKey(line, action)])
    requires ClaimsInv(w)
    ensures var w' := Step(w, WorkerWrite(q));
            && Q.LineKey(line, action) in w'.queue.tasks
            && TaskInv(w', line, action, w'.queue.tasks[Q.LineKey(line, action)])
  {
    if (q.Complete? || q.CompleteLost?) && q.id in w.queue.claims && w.queue.claims[q.id].key.LineKey? {
      assert ClaimInv(w, w.queue.claims[q.id]);
    }
  }

  lemma NewTask(w: World, e: Event, line: string, action: Action)
    requires Q.LineKey(line, action) in Step(w, e).queue.tasks && Q.LineKey(line, action) !in w.queue.tasks
    ensures TaskInv(Step(w, e), line, action, Step(w, e).queue.tasks[Q.LineKey(line, action)])
  {
    if e.ManualCompensation? && Enabled(w, e) {
      EnqueuedAllKeeps(w.queue, e.adminKey, e.action, w.orders[e.order].lines, 0);
    }
  }

  lemma TasksKept(w: World, e: Event)
    requires TasksInv(w) && ClaimsInv(w)
    ensures TasksInv(Step(w, e))
  {
    var w' := Step(w, e);
    forall line, action | Q.LineKey(line, action) in w'.queue.tasks
      ensures TaskInv(w', line, action, w'.queue.tasks[Q.LineKey(line, action)])
    {
      if Q.LineKey(line, action) in w.queue.tasks {
        TaskKept(w, e, line, action);
      } else {
        NewTask(w, e, line, action);
      }
    }
  }

  lemma ClaimKept(w: World, e: Event, id: nat)
    requires id in w.queue.claims && w.queue.claims[id].key.LineKey? && ClaimInv(w, w.queue.claims[id])
    requires id in Step(w, e).queue.claims
    ensures Step(w, e).queue.claims[id].key.LineKey? && ClaimInv(Step(w, e), Step(w, e).queue.claims[id])
  {
    if e.WorkerCall? {
      ClaimCalled(w, e.id, e.delivery, id);
    } else if e.WorkerWrite? {
      ClaimWritten(w, e.event, id);
    } else {
      ClaimUntouched(w, e, id);
      StepIsLater(w, e);
      ClaimStays(w, Step(w, e), w.queue.claims[id]);
    }
  }

  lemma ClaimStays(w: World, w': World, c: Q.Claim)
    requires c.key.LineKey? && ClaimInv(w, c) && Later(w, w')
    ensures ClaimInv(w', c)
  {
  }

  lemma ClaimUntouched(w: World, e: Event, id: nat)
    requires id in w.queue.claims && !e.WorkerCall? && !e.WorkerWrite?
    ensures id in Step(w, e).queue.claims && Step(w, e).queue.claims[id] == w.queue.claims[id]
  {
    if e.ManualCompensation? && Enabled(w, e) {
      EnqueuedAllKeeps(w.queue, e.adminKey, e.action, w.orders[e.order].lines, 0);
    }
  }

  lemma ClaimWritten(w: World, q: Q.Event, id: nat)
    requires id in w.queue.claims && w.queue.claims[id].key.LineKey? && ClaimInv(w, w.queue.claims[id])
    requires id in Step(w, WorkerWrite(q)).queue.claims
    ensures var w' := Step(w, WorkerWrite(q));
            w'.queue.claims[id].key.LineKey? && ClaimInv(w', w'.queue.claims[id])
  {
  }

  lemma ClaimCalled(w: World, called: nat, d: Delivery, id: nat)
    requires id in w.queue.claims && w.queue.claims[id].key.LineKey? && ClaimInv(w, w.queue.claims[id])
    ensures var w' := Step(w, WorkerCall(called, d));
            id in w'.queue.claims && w'.queue.claims[id].key.LineKey? && ClaimInv(w', w'.queue.claims[id])
  {
    var (w', c) := (Step(w, WorkerCall(called, d)), w.queue.claims[id]);
    StepIsLater(w, WorkerCall(called, d));
    ClaimStays(w, w', c);
    if called == id && c.phase == Q.Claimed {
      DeliveredFacts(w.store, c.task.action, c.task.reservation, d);
      var ok := Delivered(w.store, InventoryCall(c.task.action, c.task.reservation), d).1;
      assert w'.queue.claims[id] == c.(phase := if ok then Q.CallSucceeded else Q.CallFailed);
    } else {
      assert w'.queue.claims[id] == c;
    }
  }

  /** Claims appear by claiming alone, and keep their key. */
  lemma ClaimOrigin(w: World, e: Event, id: nat)
    requires id in Step(w, e).queue.claims
    ensures id in w.queue.claims ==> Step(w, e).queue.claims[id].key == w.queue.claims[id].key
    ensures id !in w.queue.claims ==>
              e.WorkerClaim? && e.id == id && e.key in w.queue.tasks
              && Step(w, e).queue.claims[id] == Q.Claim(e.key, w.queue.tasks[e.key], Q.Claimed)
  {
    if e.ManualCompensation? && Enabled(w, e) {
      EnqueuedAllKeeps(w.queue, e.adminKey, e.action, w.orders[e.order].lines, 0);
    }
  }

  lemma ClaimsKept(w: World, e: Event)
    requires TasksInv(w) && ClaimsInv(w)
    ensures ClaimsInv(Step(w, e))
  {
    var w' := Step(w, e);
    forall id | id in w'.queue.claims && w'.queue.claims[id].key.LineKey? ensures ClaimInv(w', w'.queue.claims[id]) {
      ClaimOrigin(w, e, id);
      if id in w.queue.claims {
        ClaimKept(w, e, id);
      } else {
        var key := e.key;
        assert TaskInv(w, key.reservation, key.action, w.queue.tasks[key]);
      }
    }
  }

  lemma InvStep(w: World, e: Event)
    requires Inv(w)
    ensures Inv(Step(w, e))
  {
    RunsKept(w, e);
    OrdersKept(w, e);
    TasksKept(w, e);
    ClaimsKept(w, e);
  }

  lemma {:induction false} InvAlways(w: World, es: seq<Event>)
    requires Inv(w)
    ensures Inv(Exec(w, es))
    decreases |es|
  {
    if es != [] {
      InvStep(w, es[0]);
      InvAlways(Step(w, es[0]), es[1..]);
    }
  }

  // ----- The safety claims, over every interleaving from the start -----

  /** A paid order has every line confirmed, a cancelled order has every line cancelled, and the row shows no other mixture. */
  lemma FinalMeansSettled(store: Store, es: seq<Event>, order: string)
    requires order in Exec(Initial(store), es).orders
    ensures var (w, o) := (Exec(Initial(store), es), Exec(Initial(store), es).orders[order]);
            && ShownTogether(o.state)
            && (o.state.status == Paid ==>
                  && o.state == State(Paid, PaymentPaid, StockConfirmed)
                  && forall line | line in o.lines :: InStatus(w.store, line, Inventory.Confirmed))
            && (o.state.status == OrderCancelled ==>
                  && o.state == State(OrderCancelled, PaymentCancelled, StockCancelled)
                  && forall line | line in o.lines :: InStatus(w.store, line, Inventory.Cancelled))
  {
    InvAlways(Initial(store), es);
    FinalLines(Exec(Initial(store), es), order);
  }

  lemma FinalLines(w: World, order: string)
    requires Inv(w) && order in w.orders
    ensures var o := w.orders[order];
            && ShownTogether(o.state)
            && (o.state.status == Paid ==> forall line | line in o.lines :: InStatus(w.store, line, Inventory.Confirmed))
            && (o.state.status == OrderCancelled ==> forall line | line in o.lines :: InStatus(w.store, line, Inventory.Cancelled))
  {
    var o := w.orders[order];
    assert OrderInv(w, order, o);
    forall line | line in o.lines && o.state.status == Paid ensures InStatus(w.store, line, Inventory.Confirmed) {
      assert IsFinal(o.state, ConfirmPayment) && Reached(w, line, ConfirmPayment);
    }
    forall line | line in o.lines && o.state.status == OrderCancelled ensures InStatus(w.store, line, Inventory.Cancelled) {
      assert IsFinal(o.state, CancelPayment) && Reached(w, line, CancelPayment);
    }
  }

  /** An order is paid, or cancelled, exactly when a confirm run, or a cancel run, of it reported that or wrote it behind a lost reply. */
  lemma FinalExactlyWhenWon(store: Store, es: seq<Event>, order: string)
    ensures var w := Exec(Initial(store), es);
            && ((order, ConfirmPayment) in w.won + w.unreported <==> order in w.orders && w.orders[order].state.status == Paid)
            && ((order, CancelPayment) in w.won + w.unreported <==> order in w.orders && w.orders[order].state.status == OrderCancelled)
  {
    InvAlways(Initial(store), es);
    var w := Exec(Initial(store), es);
    if order in w.orders {
      assert OrderInv(w, order, w.orders[order]);
    }
  }

  /** A confirm run and a cancel run can never both succeed, not even for two orders that share a reservation. */
  lemma NeverBothSucceed(store: Store, es: seq<Event>, paid: string, cancelled: string)
    requires (paid, ConfirmPayment) in Exec(Initial(store), es).won
    requires (cancelled, CancelPayment) in Exec(Initial(store), es).won
    ensures var w := Exec(Initial(store), es);
            && paid in w.orders && cancelled in w.orders && paid != cancelled
            && forall line | line in w.orders[paid].lines :: line !in w.orders[cancelled].lines
  {
    var w := Exec(Initial(store), es);
    FinalExactlyWhenWon(store, es, paid);
    FinalExactlyWhenWon(store, es, cancelled);
    FinalMeansSettled(store, es, paid);
    FinalMeansSettled(store, es, cancelled);
    forall line | line in w.orders[paid].lines ensures line !in w.orders[cancelled].lines {
      assert InStatus(w.store, line, Inventory.Confirmed);
      assert !InStatus(w.store, line, Inventory.Cancelled);
    }
  }

  /** A paid or cancelled order is left as it is by every later run, and its reservations stay settled. */
  lemma {:induction false} FinalForever(w: World, es: seq<Event>, order: string)
    requires Inv(w) && order in w.orders && (w.orders[order].state.status == Paid || w.orders[order].state.status == OrderCancelled)
    ensures order in Exec(w, es).orders && Exec(w, es).orders[order] == w.orders[order]
    ensures var settled := if w.orders[order].state.status == Paid then Inventory.Confirmed else Inventory.Cancelled;
            forall line | line in w.orders[order].lines :: InStatus(Exec(w, es).store, line, settled)
    decreases |es|
  {
    FinalLines(w, order);
    if es != [] {
      InvStep(w, es[0]);
      FinalStays(w, es[0], order);
      FinalForever(Step(w, es[0]), es[1..], order);
    }
  }

  lemma FinalStays(w: World, e: Event, order: string)
    requires order in w.orders && ShownTogether(w.orders[order].state)
    requires w.orders[order].state.status == Paid || w.orders[order].state.status == OrderCancelled
    ensures order in Step(w, e).orders && Step(w, e).orders[order] == w.orders[order]
  {
  }

  // ----- What the steps write on the order row -----

  /** A run begins its calls exactly if the order is neither paid nor cancelled; otherwise it ends at once, granted if the order is as it asks. */
  lemma StartExactly(w: World, run: nat, order: string, action: Action)
    requires Enabled(w, StartRun(run, order, action)) && ShownTogether(w.orders[order].state)
    ensures var (w', o) := (Step(w, StartRun(run, order, action)), w.orders[order]);
            && w' == w.(runs := w'.runs, won := w'.won) && run in w'.runs && w'.runs == w.runs[run := w'.runs[run]]
            && w'.runs[run] == PaymentRun(order, action, o.lines, 0, false, w'.runs[run].phase)
            && w'.runs[run].phase == match o.state.status
                                     case Paid => Ended(action == ConfirmPayment)
                                     case OrderCancelled => Ended(action == CancelPayment)
                                     case _ => Calling
  {
  }

  /** The settle call of a line: carried out unless it got lost on the way, and done only if its success was heard of. */
  lemma CallExactly(w: World, run: nat, d: Delivery)
    requires Enabled(w, CallLine(run, d))
    ensures var (w', r) := (Step(w, CallLine(run, d)), w.runs[run]);
            var answer := Handle(w.store, SettleCall(r.lines[r.next], r.action.ConfirmPayment?));
            && w' == w.(store := w'.store, runs := w'.runs)
            && w'.store == (if d == NotDone then w.store else answer.store)
            && w'.runs == w.runs[run := if d == Acked && answer.reply.Accepted? then PaymentRun(r.order, r.action, r.lines, r.next + 1, r.queued, Calling)
                                        else PaymentRun(r.order, r.action, r.lines, r.next, true, Enqueuing)]
  {
  }

  /** A line that is not done gets a task of its own, due at once, or the insert is lost; either way the run goes on. */
  lemma EnqueueExactly(w: World, run: nat, stored: bool)
    requires Enabled(w, EnqueueLine(run, stored))
    ensures var (w', r) := (Step(w, EnqueueLine(run, stored)), w.runs[run]);
            var key := Q.LineKey(r.lines[r.next], r.action);
            && w'.store == w.store && w'.orders == w.orders && w'.won == w.won && w'.unreported == w.unreported
            && w'.runs == w.runs[run := PaymentRun(r.order, r.action, r.lines, r.next + 1, r.queued, Calling)]
            && w'.lost == (if stored then w.lost else w.lost + {key})
            && (!stored ==> w'.queue == w.queue)
            && (stored ==>
                  && w'.queue == w.queue.(tasks := w'.queue.tasks) && w'.queue.tasks.Keys == w.queue.tasks.Keys + {key}
                  && (forall k | k in w.queue.tasks && k != key :: w'.queue.tasks[k] == w.queue.tasks[k])
                  && Q.Due(w'.queue, key) && w'.queue.tasks[key].reservation == r.lines[r.next]
                  && (key !in w.queue.tasks ==> w'.queue.tasks[key].action == r.action && w'.queue.tasks[key].attempts == 0))
  {
  }

  /** A claimed task makes the call its own action names. */
  lemma WorkerCallExactly(w: World, id: nat, d: Delivery)
    requires id in w.queue.claims && w.queue.claims[id].phase == Q.Claimed
    ensures var (w', c) := (Step(w, WorkerCall(id, d)), w.queue.claims[id]);
            var answer := Handle(w.store, SettleCall(c.task.reservation, c.task.action.ConfirmPayment?));
            && w' == w.(store := w'.store, queue := w.queue.(claims := w'.queue.claims))
            && w'.store == (if d == NotDone then w.store else answer.store)
            && w'.queue.claims
               == w.queue.claims[id := Q.Claim(c.key, c.task, if d == Acked && answer.reply.Accepted? then Q.CallSucceeded else Q.CallFailed)]
  {
    SettleReplies(w.store, w.queue.claims[id].task.reservation, w.queue.claims[id].task.action.ConfirmPayment?);
  }

  lemma SettleReplies(s: Store, key: string, confirm: bool)
    ensures Handle(s, SettleCall(key, confirm)).reply.Ok() <==> Handle(s, SettleCall(key, confirm)).reply.Accepted?
  {
  }

  /** Other users of the inventory are free to call it; the worker's other steps are those of the queue, and no task is called for twice on one claim. */
  lemma OthersExactly(w: World, call: ServiceCall, q: Q.Event, id: nat, key: Q.TaskKey, d: Delivery)
    ensures Step(w, Elsewhere(call)) == w.(store := Handle(w.store, call).store)
    ensures Step(w, WorkerClaim(id, key)) == w.(queue := Q.Step(w.queue, Q.ClaimTask(id, key)))
    ensures Step(w, WorkerWrite(q)) == if q.Enqueue? || q.ClaimTask? || q.CallReturned? then w else w.(queue := Q.Step(w.queue, q))
    ensures id !in w.queue.claims || w.queue.claims[id].phase != Q.Claimed ==> Step(w, WorkerCall(id, d)) == w
  {
  }

  /** An order begins open, with the lines it is given; the id must be new. */
  lemma CreateExactly(w: World, order: string, lines: seq<string>)
    ensures Step(w, CreateOrder(order, lines))
            == if order in w.orders || lines == [] then w
               else w.(orders := w.orders[order := Order(State(PendingPayment, MockCreated, StockReserved), lines)])
  {
  }

  /** What a run that has been through its lines makes of the row, if the write is carried out at all. */
  lemma EndExactly(w: World, run: nat, d: Delivery)
    requires Enabled(w, EndRun(run, d)) && ShownTogether(w.orders[w.runs[run].order].state)
    ensures var (w', r, o) := (Step(w, EndRun(run, d)), w.runs[run], w.orders[w.runs[run].order]);
            var settled := match r.action
                           case ConfirmPayment => State(Paid, PaymentPaid, StockConfirmed)
                           case CancelPayment => State(OrderCancelled, PaymentCancelled, StockCancelled);
            var next := if r.queued then State(Compensating, settled.payment, CompensationPending) else settled;
            && run in w'.runs && r.order in w'.orders
            && w'.runs[run] == r.(phase := Ended(d == Acked && (o.state == next || o.state.status == PendingPayment || o.state.status == Compensating)))
            && w'.orders == w.orders[r.order := o.(state := w'.orders[r.order].state)]
            && w'.orders[r.order].state == if d == NotDone || o.state.status == Paid || o.state.status == OrderCancelled then o.state else next
  {
  }

  /** Compensation by hand is possible exactly for a compensating order, and leaves it compensating, in the direction asked for. */
  lemma ManualCompensationExactly(w: World, order: string, action: Action, adminKey: string)
    requires order in w.orders && ShownTogether(w.orders[order].state)
    ensures Enabled(w, ManualCompensation(order, action, adminKey)) <==> w.orders[order].state.status == Compensating
    ensures var (w', o) := (Step(w, ManualCompensation(order, action, adminKey)), w.orders[order]);
            o.state.status == Compensating ==>
              && w'.orders == w.orders[order := o.(state := State(Compensating, if action == ConfirmPayment then PaymentPaid else PaymentCancelled,
                                                                  CompensationPending))]
              && (forall i | 0 <= i < |o.lines| ::
                    var key := Q.AdminKey(adminKey, i);
                    && key in w'.queue.tasks && w'.queue.tasks[key].reservation == o.lines[i] && w'.queue.tasks[key].status == Q.Pending
                    && (key !in w.queue.tasks ==> w'.queue.tasks[key].action == action))
              && (forall key | key in w.queue.tasks && (key.LineKey? || key.key != adminKey || key.index >= |o.lines|) ::
                    key in w'.queue.tasks && w'.queue.tasks[key] == w.queue.tasks[key])
  {
    if w.orders[order].state.status == Compensating {
      AllEnqueued(w.queue, adminKey, action, w.orders[order].lines, 0);
    }
  }

  lemma {:induction false} AllEnqueued(q: Q.Queue, adminKey: string, action: Action, lines: seq<string>, from: nat)
    requires from <= |lines|
    ensures var q' := EnqueuedAll(q, adminKey, action, lines, from);
            && (forall i | from <= i < |lines| ::
                  var key := Q.AdminKey(adminKey, i);
                  && key in q'.tasks && q'.tasks[key].reservation == lines[i] && q'.tasks[key].status == Q.Pending
                  && (key !in q.tasks ==> q'.tasks[key].action == action))
            && (forall key | key in q.tasks && !(key.AdminKey? && key.key == adminKey && from <= key.index < |lines|) ::
                  key in q'.tasks && q'.tasks[key] == q.tasks[key])
    decreases |lines| - from
  {
    if from < |lines| {
      AllEnqueued(Q.Enqueued(q, Q.AdminKey(adminKey, from), action, lines[from]), adminKey, action, lines, from + 1);
    }
  }

  /** Every task insert of the trace succeeds. */
  predicate DurableEnqueues(es: seq<Event>) {
    forall e | e in es :: e.EnqueueLine? ==> e.stored
  }

  lemma ThroughStays(w: World, e: Event, run: nat)
    requires run in w.runs && w.runs[run].next == |w.runs[run].lines|
    ensures var w' := Step(w, e);
            && run in w'.runs && w'.runs[run].lines == w.runs[run].lines
            && w'.runs[run].action == w.runs[run].action && w'.runs[run].next == w.runs[run].next
  {
  }

  lemma {:induction false} CoverageStays(w: World, es: seq<Event>, run: nat)
    requires Inv(w) && run in w.runs && w.runs[run].next == |w.runs[run].lines|
    ensures forall line | line in w.runs[run].lines :: Covered(Exec(w, es), line, w.runs[run].action)
    decreases |es|
  {
    if es == [] {
      assert RunInv(w, w.runs[run]);
      forall line | line in w.runs[run].lines ensures Covered(w, line, w.runs[run].action) {
        var j :| 0 <= j < |w.runs[run].lines| && w.runs[run].lines[j] == line;
      }
    } else {
      InvStep(w, es[0]);
      ThroughStays(w, es[0], run);
      CoverageStays(Step(w, es[0]), es[1..], run);
    }
  }

  lemma {:induction false} NothingLost(w: World, es: seq<Event>)
    requires DurableEnqueues(es)
    ensures Exec(w, es).lost == w.lost
    decreases |es|
  {
    if es != [] {
      assert es[0] in es;
      assert forall e | e in es[1..] :: e in es;
      NothingLost(Step(w, es[0]), es[1..]);
    }
  }

  lemma {:induction false} ExecAppend(w: World, es: seq<Event>, fs: seq<Event>)
    ensures Exec(w, es + fs) == Exec(Exec(w, es), fs)
    decreases |es|
  {
    if es == [] {
      assert es + fs == fs;
    } else {
      assert (es + fs)[0] == es[0] && (es + fs)[1..] == es[1..] + fs;
      ExecAppend(Step(w, es[0]), es[1..], fs);
    }
  }

  /**
   * Once a run has been through all its lines, then at that moment and ever after each line has
   * reached the run's target or has a task under its own compensation key, unless the insert of
   * that very task was lost.
   */
  lemma CompensationCoverage(store: Store, es: seq<Event>, later: seq<Event>, run: nat)
    requires var w := Exec(Initial(store), es); run in w.runs && w.runs[run].next == |w.runs[run].lines|
    ensures var r := Exec(Initial(store), es).runs[run];
            var w' := Exec(Initial(store), es + later);
            && (forall line | line in r.lines :: Covered(w', line, r.action))
            && (DurableEnqueues(es + later) ==>
                  forall line | line in r.lines ::
                    Reached(w', line, r.action) || Q.LineKey(line, r.action) in w'.queue.tasks)
  {
    InvAlways(Initial(store), es);
    CoverageStays(Exec(Initial(store), es), later, run);
    ExecAppend(Initial(store), es, later);
    if DurableEnqueues(es + later) {
      NothingLost(Initial(store), es + later);
    }
  }

  /** A completed task under a line's compensation key has its reservation in the status its type names. */
  lemma CompletedMeansReached(store: Store, es: seq<Event>, line: string, action: Action)
    requires Q.LineKey(line, action) in Exec(Initial(store), es).queue.tasks
    ensures var w := Exec(Initial(store), es);
            var t := w.queue.tasks[Q.LineKey(line, action)];
            && t.action == action && t.reservation == line
            && (t.status == Q.Completed ==> Reached(w, line, action))
  {
    InvAlways(Initial(store), es);
    var w := Exec(Initial(store), es);
    assert TaskInv(w, line, action, w.queue.tasks[Q.LineKey(line, action)]);
  }

  /** The end of a payment run, or a manual compensation, that gives the order another state. */
  predicate MovesOrder(w: World, e: Event, order: string) {
    && Enabled(w, e) && order in w.orders
    && match e
       case EndRun(run, d) =>
         var r := w.runs[run];
         && r.order == order && d != NotDone
         && AllowedTransition(w.orders[order].state, Outcome(r)) && Outcome(r) != w.orders[order].state
       case ManualCompensation(o, action, _) => o == order && AwaitingCompensation(action) != w.orders[order].state
       case _ => false
  }

  lemma OrderMoves(w: World, e: Event, order: string)
    requires order in w.orders
    ensures order in Step(w, e).orders
    ensures Step(w, e).orders[order] == w.orders[order] <==> !MovesOrder(w, e, order)
  {
  }

  predicate NeverMoved(w: World, es: seq<Event>, order: string)
    decreases |es|
  {
    es == [] || (!MovesOrder(w, es[0], order) && NeverMoved(Step(w, es[0]), es[1..], order))
  }

  /** The order's row is `o` in every state of the run. */
  predicate Stays(w: World, es: seq<Event>, order: string, o: Order)
    decreases |es|
  {
    order in w.orders && w.orders[order] == o && (es == [] || Stays(Step(w, es[0]), es[1..], order, o))
  }

  /**
   * The worker settles reservations but never moves an order: whatever it completes, an order stays where it is, `compensating`
   * included, exactly as long as no payment run ends with another state for it and nobody compensates it by hand.
   */
  lemma {:induction false} OnlyRunsMoveOrders(w: World, es: seq<Event>, order: string)
    requires order in w.orders
    ensures Stays(w, es, order, w.orders[order]) <==> NeverMoved(w, es, order)
    decreases |es|
  {
    if es != [] {
      var w' := Step(w, es[0]);
      OrderMoves(w, es[0], order);
      if w'.orders[order] == w.orders[order] {
        OnlyRunsMoveOrders(w', es[1..], order);
      }
    }
  }
}
