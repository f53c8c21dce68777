/**
 * The order service as it runs: loops over the order lines, remote calls, the orders and
 * compensation tables.  An uninterrupted call is shown to be one particular schedule of the
 * saga, so everything proved there about all schedules applies to it.
 */
module OrderService {
  import opened Collections
  import Inventory
  import opened InventoryBackend
  import InventoryBatches
  import opened InventoryStores
  import opened OrderState
  import Q = CompensationQueue
  import opened Saga

  /** NoAnswer is an error of the order write, which may have been carried out. */
  datatype TransitionReply = NoSuchOrder | AlreadyFinal(state: State) | Refused | NoAnswer | Moved(state: State, compensationQueued: bool)

  /** The calls for the first lines, each followed by the task insert that is made only if the call failed. */
  function LineEvents(run: nat, net: seq<Delivery>, up: seq<bool>): seq<Event>
    requires |net| == |up|
  {
    if net == [] then []
    else
      var last := |net| - 1;
      LineEvents(run, net[..last], up[..last]) + [CallLine(run, net[last]), EnqueueLine(run, up[last])]
  }

  function Schedule(run: nat, order: string, action: Action, net: seq<Delivery>, up: seq<bool>, write: Delivery): seq<Event>
    requires |net| == |up|
  {
    [StartRun(run, order, action)] + (LineEvents(run, net, up) + [EndRun(run, write)])
  }

  lemma ExecTwo(w: World, e: Event, f: Event)
    ensures Exec(w, [e, f]) == Step(Step(w, e), f)
  {
    assert [e, f][1..] == [f];
    assert Exec(Step(w, e), [f]) == Step(Step(w, e), f);
  }

  lemma ExecLine(w: World, run: nat, net: seq<Delivery>, up: seq<bool>, i: nat)
    requires |net| == |up| && i < |net|
    ensures Exec(w, LineEvents(run, net[..i + 1], up[..i + 1]))
            == Step(Step(Exec(w, LineEvents(run, net[..i], up[..i])), CallLine(run, net[i])), EnqueueLine(run, up[i]))
  {
    assert net[..i + 1][..i] == net[..i] && up[..i + 1][..i] == up[..i];
    ExecAppend(w, LineEvents(run, net[..i], up[..i]), [CallLine(run, net[i]), EnqueueLine(run, up[i])]);
    ExecTwo(Exec(w, LineEvents(run, net[..i], up[..i])), CallLine(run, net[i]), EnqueueLine(run, up[i]));
  }

  lemma ExecSchedule(w: World, run: nat, order: string, action: Action, net: seq<Delivery>, up: seq<bool>, write: Delivery)
    requires |net| == |up|
    ensures Exec(w, Schedule(run, order, action, net, up, write))
            == Step(Exec(Step(w, StartRun(run, order, action)), LineEvents(run, net, up)), EndRun(run, write))
  {
    var rest := LineEvents(run, net, up) + [EndRun(run, write)];
    assert Schedule(run, order, action, net, up, write)[1..] == rest;
    ExecAppend(Step(w, StartRun(run, order, action)), LineEvents(run, net, up), [EndRun(run, write)]);
    var w' := Exec(Step(w, StartRun(run, order, action)), LineEvents(run, net, up));
    assert Exec(w', [EndRun(run, write)]) == Step(w', EndRun(run, write));
  }

  lemma EndIsEnabled(w: World, run: nat, d: Delivery)
    requires run in w.runs && w.runs[run].phase == Calling && w.runs[run].next == |w.runs[run].lines| && w.runs[run].order in w.orders
    ensures Step(w, EndRun(run, d)) == End(w, run, d)
  {
  }

  /** Two worlds are equal when the parts that the end of a run may write are. */
  lemma SameEnd(w: World, v: World, run: nat, d: Delivery)
    requires run in w.runs && w.runs[run].order in w.orders
    requires v == w.(orders := v.orders, runs := v.runs, won := v.won, unreported := v.unreported)
    requires var (r, o) := (w.runs[run], w.orders[w.runs[run].order]);
             var written := d != NotDone && AllowedTransition(o.state, Saga.Outcome(r));
             && v.orders == (if written then w.orders[r.order := o.(state := Saga.Outcome(r))] else w.orders)
             && v.runs == w.runs[run := r.(phase := Ended(written && d == Acked))]
             && v.won == (if written && !r.queued && d == Acked then w.won + {(r.order, r.action)} else w.won)
             && v.unreported == (if written && !r.queued && d != Acked then w.unreported + {(r.order, r.action)} else w.unreported)
    ensures v == End(w, run, d)
  {
  }

  /** The line events of a run that has ended change nothing. */
  lemma {:induction false} EndedRunsAreInert(w: World, run: nat, net: seq<Delivery>, up: seq<bool>)
    requires |net| == |up| && run in w.runs && w.runs[run].phase.Ended?
    ensures Exec(w, LineEvents(run, net, up)) == w
  {
    if net != [] {
      var last := |net| - 1;
      EndedRunsAreInert(w, run, net[..last], up[..last]);
      assert net[..last + 1] == net && up[..last + 1] == up;
      ExecLine(w, run, net, up, last);
    }
  }

  /** The row of an order whose payment was confirmed or cancelled. */
  function Settled(action: Action): State {
    if action == ConfirmPayment then State(Paid, PaymentPaid, StockConfirmed) else State(OrderCancelled, PaymentCancelled, StockCancelled)
  }

  function InCompensation(action: Action): State {
    State(Compensating, if action == ConfirmPayment then PaymentPaid else PaymentCancelled, CompensationPending)
  }

  predicate Open(s: State) {
    s.status == PendingPayment || s.status == Compensating
  }

  class Service {
    const inventory: InventoryService
    var orders: map<string, Order>
    var tasks: map<Q.TaskKey, Q.Task>
    ghost var runs: map<nat, PaymentRun>
    ghost var lost: set<Q.TaskKey>
    ghost var won: set<(string, Action)>
    ghost var unreported: set<(string, Action)>
    ghost var claims: map<nat, Q.Claim>
    ghost var deadLetters: seq<Q.DeadLetter>
    ghost var decisions: seq<Q.Decision>

    constructor (inventory: InventoryService)
      ensures this.inventory == inventory && View() == Initial(inventory.View())
    {
      this.inventory := inventory;
      orders, tasks := map[], map[];
      runs, lost, won, unreported, claims, deadLetters, decisions := map[], {}, {}, {}, map[], [], [];
    }

    ghost function View(): World
      reads this, inventory.memoryStore, inventory.repository
    {
      World(inventory.View(), orders, Q.Queue(tasks, claims, deadLetters, decisions), runs, lost, won, unreported)
    }

    method CallInventory(action: Action, reservation: string, delivery: Delivery) returns (ok: bool)
      modifies inventory.memoryStore, inventory.repository
      ensures (inventory.View(), ok) == Delivered(old(inventory.View()), InventoryCall(action, reservation), delivery)
    {
      if delivery == NotDone {
        return false;
      }
      var reply := inventory.Handle(InventoryCall(action, reservation));
      ok := delivery == Acked && reply.Ok();
    }

    method EnqueueCompensationTask(key: Q.TaskKey, action: Action, reservation: string)
      modifies this`tasks
      ensures View().queue == Q.Enqueued(old(View()).queue, key, action, reservation)
    {
      if key in tasks {
        tasks := tasks[key := tasks[key].(status := Q.Pending, reservation := reservation)];
      } else {
        tasks := tasks[key := Q.Task(action, reservation, Q.Pending, 0, Q.MAX_ATTEMPTS)];
      }
    }

    /** One line: the call and, when it is not acknowledged, the insert of its compensation task. */
    method ApplyToLine(ghost run: nat, action: Action, reservation: string, delivery: Delivery, stored: bool)
      returns (failed: bool)
      requires run in runs && runs[run].phase == Calling && runs[run].action == action
      requires runs[run].next < |runs[run].lines| && runs[run].lines[runs[run].next] == reservation
      modifies this, inventory.memoryStore, inventory.repository
      ensures View() == Step(Step(old(View()), CallLine(run, delivery)), EnqueueLine(run, stored))
      ensures run in runs && runs[run] == old(runs[run]).(next := old(runs[run]).next + 1, queued := old(runs[run]).queued || failed)
      ensures orders == old(orders)
    {
      failed := CallForLine(run, action, reservation, delivery);
      if failed {
        QueueLine(run, action, reservation, stored);
      }
    }

    /** The call of the line, which fails unless it is acknowledged. */
    method CallForLine(ghost run: nat, action: Action, reservation: string, delivery: Delivery) returns (failed: bool)
      requires run in runs && runs[run].phase == Calling && runs[run].action == action
      requires runs[run].next < |runs[run].lines| && runs[run].lines[runs[run].next] == reservation
      modifies this`runs, inventory.memoryStore, inventory.repository
      ensures View() == Step(old(View()), CallLine(run, delivery))
      ensures run in runs
      ensures runs[run] == if failed then old(runs[run]).(queued := true, phase := Enqueuing) else old(runs[run]).(next := old(runs[run]).next + 1)
    {
      ghost var r := runs[run];
      var ok := CallInventory(action, reservation, delivery);
      runs := runs[run := if ok then r.(next := r.next + 1) else r.(queued := true, phase := Enqueuing)];
      failed := !ok;
    }

    /** The insert of the line's task, or its loss. */
    method QueueLine(ghost run: nat, action: Action, reservation: string, stored: bool)
      requires run in runs && runs[run].phase == Enqueuing && runs[run].action == action && runs[run].queued
      requires runs[run].next < |runs[run].lines| && runs[run].lines[runs[run].next] == reservation
      modifies this
      ensures View() == Step(old(View()), EnqueueLine(run, stored))
      ensures run in runs && runs[run] == old(runs[run]).(next := old(runs[run]).next + 1, phase := Calling)
      ensures orders == old(orders)
    {
      if stored {
        EnqueueCompensationTask(Q.LineKey(reservation, action), action, reservation);
      } else {
        lost := lost + {Q.LineKey(reservation, action)};
      }
      ghost var r := runs[run];
      runs := runs[run := r.(next := r.next + 1, phase := Calling)];
    }

    method ApplyInventoryTransition(ghost run: nat, action: Action, lines: seq<string>, net: seq<Delivery>, up: seq<bool>)
      returns (compensationQueued: bool)
      requires run in runs && runs[run].phase == Calling && runs[run].action == action && runs[run].lines == lines
      requires runs[run].next == 0 && !runs[run].queued
      requires |lines| == |net| == |up|
      modifies this, inventory.memoryStore, inventory.repository
      ensures View() == Exec(old(View()), LineEvents(run, net, up))
      ensures run in runs && runs[run] == old(runs[run]).(next := |lines|, queued := compensationQueued)
      ensures orders == old(orders)
    {
      compensationQueued := false;
      ghost var start := View();
      for i := 0 to |lines|
        invariant View() == Exec(start, LineEvents(run, net[..i], up[..i]))
        invariant run in runs && runs[run] == old(runs[run]).(next := i, queued := compensationQueued)
        invariant orders == old(orders)
      {
        ExecLine(start, run, net, up, i);
        var failed := ApplyToLine(run, action, lines[i], net[i], up[i]);
        if failed {
          compensationQueued := true;
        }
      }
      assert net[..|lines|] == net && up[..|lines|] == up;
    }

    /** Rechecks the row before writing it. */
    method TransitionOrder(order: string, next: State, write: Delivery) returns (reply: TransitionReply)
      requires order in orders
      modifies this`orders
      ensures var written := write != NotDone && AllowedTransition(old(orders)[order].state, next);
              && orders == (if written then old(orders)[order := old(orders)[order].(state := next)] else old(orders))
              && reply == if written && write == Acked then Moved(next, next.status == Compensating)
                          else if write == Acked then Refused else NoAnswer
    {
      if write == NotDone {
        return NoAnswer;
      }
      if !AllowedTransition(orders[order].state, next) {
        return if write == Acked then Refused else NoAnswer;
      }
      orders := orders[order := orders[order].(state := next)];
      return if write == Acked then Moved(next, next.status == Compensating) else NoAnswer;
    }

    /** The last write of a run that has been through its lines. */
    method FinishRun(ghost run: nat, order: string, action: Action, compensationQueued: bool, write: Delivery)
      returns (reply: TransitionReply)
      requires order in orders && run in runs && runs[run].order == order && runs[run].action == action
      requires runs[run].phase == Calling && runs[run].next == |runs[run].lines| && runs[run].queued == compensationQueued
      modifies this`orders, this`runs, this`won, this`unreported
      ensures View() == Step(old(View()), EndRun(run, write))
      ensures !reply.NoSuchOrder? && !reply.AlreadyFinal? && (reply.NoAnswer? <==> write != Acked)
      ensures reply.Refused? ==> orders == old(orders)
      ensures Open(old(orders)[order].state) && write == Acked ==> reply.Moved?
      ensures reply.Moved? ==> && order in orders && orders[order].state == reply.state
                               && reply.compensationQueued == compensationQueued
                               && reply.state == (if compensationQueued then InCompensation(action) else Settled(action))
    {
      EndIsEnabled(View(), run, write);
      var next := if compensationQueued then AwaitingCompensation(action) else Desired(action);
      ghost var written := write != NotDone && AllowedTransition(orders[order].state, next);
      reply := TransitionOrder(order, next, write);
      runs := runs[run := runs[run].(phase := Ended(reply.Moved?))];
      if written && !compensationQueued {
        if write == Acked {
          won := won + {(order, action)};
        } else {
          unreported := unreported + {(order, action)};
        }
      }
      SameEnd(old(View()), View(), run, write);
    }

    /** An order kept in memory never stores a task: its runs are those in which every insert is lost. */
    method TransitionPayment(ghost run: nat, order: string, action: Action, net: seq<Delivery>, up: seq<bool>, write: Delivery)
      returns (reply: TransitionReply)
      requires run !in runs
      requires |net| == |up| && (order in orders ==> |net| == |orders[order].lines|)
      modifies this, inventory.memoryStore, inventory.repository
      ensures View() == Exec(old(View()), Schedule(run, order, action, net, up, write))
      ensures reply == NoSuchOrder <==> order !in old(orders)
      ensures reply.AlreadyFinal? <==> order in old(orders) && old(orders)[order].state == Settled(action)
      ensures reply.AlreadyFinal? ==> reply.state == Settled(action)
      ensures reply.Moved? ==> && order in orders && orders[order].state == reply.state
                               && reply.state == (if reply.compensationQueued then InCompensation(action) else Settled(action))
      ensures order in old(orders) && old(orders)[order].state.status == Paid && action == CancelPayment ==> reply.Refused?
      ensures order in old(orders) && old(orders)[order].state.status == OrderCancelled && action == ConfirmPayment ==> reply.Refused?
      ensures order in old(orders) && Open(old(orders)[order].state) && write == Acked ==> reply.Moved?
      ensures order in old(orders) && (reply.AlreadyFinal? || reply.Refused?) ==> orders == old(orders)
      ensures reply.NoAnswer? <==> order in old(orders) && Open(old(orders)[order].state) && write != Acked
    {
      ghost var start := View();
      ExecSchedule(start, run, order, action, net, up, write);
      ghost var begun := Step(start, StartRun(run, order, action));
      if order !in orders {
        NothingWithoutRun(start, run, net, up);
        return NoSuchOrder;
      }
      var ended := BeginRun(run, order, action);
      if ended.Some? {
        EndedRunsAreInert(begun, run, net, up);
        return ended.value;
      }
      reply := RunThrough(run, order, action, net, up, write);
    }

    /** The checks before the first call; a reply ends the run. */
    method BeginRun(ghost run: nat, order: string, action: Action) returns (ended: Option<TransitionReply>)
      requires run !in runs && order in orders
      modifies this`runs, this`won
      ensures View() == Step(old(View()), StartRun(run, order, action))
      ensures run in runs && runs[run] == PaymentRun(order, action, orders[order].lines, 0, false, runs[run].phase)
      ensures if ended.None? then runs[run].phase == Calling else runs[run].phase.Ended?
      ensures ended == match orders[order].state
                       case State(PendingPayment, _, _) => None
                       case State(Compensating, _, _) => None
                       case current => Some(if current == Settled(action) then AlreadyFinal(current) else Refused)
    {
      var current := orders[order].state;
      ghost var r := PaymentRun(order, action, orders[order].lines, 0, false, Calling);
      if IsFinal(current, action) {
        runs, won := runs[run := r.(phase := Ended(true))], won + {(order, action)};
        return Some(AlreadyFinal(current));
      }
      if !AllowedTransition(current, Desired(action)) {
        runs := runs[run := r.(phase := Ended(false))];
        return Some(Refused);
      }
      runs := runs[run := r];
      return None;
    }

    /** The calls for the lines and the write of the order. */
    method RunThrough(ghost run: nat, order: string, action: Action, net: seq<Delivery>, up: seq<bool>, write: Delivery)
      returns (reply: TransitionReply)
      requires order in orders && |net| == |up| == |orders[order].lines|
      requires run in runs && runs[run] == PaymentRun(order, action, orders[order].lines, 0, false, Calling)
      modifies this, inventory.memoryStore, inventory.repository
      ensures View() == Step(Exec(old(View()), LineEvents(run, net, up)), EndRun(run, write))
      ensures !reply.NoSuchOrder? && !reply.AlreadyFinal? && (reply.NoAnswer? <==> write != Acked)
      ensures reply.Refused? ==> orders == old(orders)
      ensures Open(old(orders)[order].state) && write == Acked ==> reply.Moved?
      ensures reply.Moved? ==> && order in orders && orders[order].state == reply.state
                               && reply.state == (if reply.compensationQueued then InCompensation(action) else Settled(action))
    {
      var compensationQueued := ApplyInventoryTransition(run, action, orders[order].lines, net, up);
      reply := FinishRun(run, order, action, compensationQueued, write);
    }
  }

  /** A run that never started has no effect either. */
  lemma {:induction false} NothingWithoutRun(w: World, run: nat, net: seq<Delivery>, up: seq<bool>)
    requires |net| == |up| && run !in w.runs
    ensures Exec(w, LineEvents(run, net, up)) == w
  {
    if net != [] {
      var last := |net| - 1;
      NothingWithoutRun(w, run, net[..last], up[..last]);
      assert net[..last + 1] == net && up[..last + 1] == up;
      ExecLine(w, run, net, up, last);
    }
  }

  // ----- What an uninterrupted run achieves -----

  /** The reservation exists and has not been settled the other way. */
  predicate Settleable(s: Store, line: string, action: Action) {
    InStatus(s, line, Inventory.Reserved) || InStatus(s, line, if action == ConfirmPayment then Inventory.Confirmed else Inventory.Cancelled)
  }

  /** The memory store, durable items that are not oversold, or rows that cover what is open. */
  ghost predicate Dependable(s: Store) {
    match s
    case Rows(tables) => InventoryBatches.AllCovered(tables)
    case Items(stock) =>
      stock.storage == Inventory.Memory
      || (&& Inventory.Balanced(stock) && Inventory.NoOversell(stock)
          && forall key | key in stock.reservations :: stock.reservations[key].at in stock.items)
  }

  lemma StaysDependable(s: Store, line: string, action: Action)
    requires Dependable(s)
    ensures Dependable(Handle(s, InventoryCall(action, line)).store)
  {
    var confirm := action == ConfirmPayment;
    match s
    case Items(stock) =>
      var c := ItemCall(InventoryCall(action, line));
      if stock.storage == Inventory.Postgres {
        Inventory.BalancedStep(stock, c);
        Inventory.CautiousExactly(stock, c);
        Inventory.StepEvolves(stock, c);
      }
    case Rows(tables) =>
      if InStatus(s, line, Inventory.Reserved) {
        InventoryBatches.CoveredSettle(tables, line, SettledStatus(confirm));
      }
  }

  lemma SettleableCall(s: Store, line: string, action: Action)
    requires Dependable(s)
    ensures Handle(s, InventoryCall(action, line)).reply.Ok() <==> Settleable(s, line, action)
  {
    if InStatus(s, line, Inventory.Reserved) {
      var status := SettledStatus(action == ConfirmPayment);
      match s
      case Items(stock) =>
        if stock.storage == Inventory.Postgres {
          Inventory.FloorCheckUnreachable(stock, line, status);
        }
      case Rows(tables) => InventoryBatches.CoveredSettle(tables, line, status);
    }
  }

  /** A settle call changes no other reservation, and its own only into the target status. */
  lemma OthersStay(s: Store, line: string, action: Action)
    ensures var s' := Handle(s, InventoryCall(action, line)).store;
            && s'.Reservations().Keys == s.Reservations().Keys
            && forall l | l in s.Reservations() :: s'.Reservations()[l] != s.Reservations()[l] ==>
                 && l == line && s.Reservations()[l].status == Inventory.Reserved
                 && s'.Reservations()[l].status == SettledStatus(action == ConfirmPayment)
  {
    if s.Items? {
      var c := ItemCall(InventoryCall(action, line));
      if Inventory.Effective(s.stock, c) {
        Inventory.SettleEffect(s.stock, c, line, SettledStatus(action == ConfirmPayment));
      } else {
        Inventory.Ineffective(s.stock, c);
      }
    }
  }

  lemma SettleableLine(s: Store, line: string, action: Action)
    requires Dependable(s)
    ensures var (s', ok) := Delivered(s, InventoryCall(action, line), Acked);
            && Dependable(s')
            && (ok <==> Settleable(s, line, action))
            && (forall l :: Settleable(s', l, action) <==> Settleable(s, l, action))
  {
    StaysDependable(s, line, action);
    SettleableCall(s, line, action);
    OthersStay(s, line, action);
  }

  predicate AllSettleable(s: Store, lines: seq<string>, action: Action) {
    forall line | line in lines :: Settleable(s, line, action)
  }

  predicate AllAcked(net: seq<Delivery>) {
    forall d | d in net :: d == Acked
  }

  /** One acknowledged line: the run goes on, and is queued if the line was not settleable. */
  lemma AckedLine(w: World, run: nat, stored: bool)
    requires Dependable(w.store)
    requires run in w.runs && w.runs[run].phase == Calling && w.runs[run].next < |w.runs[run].lines|
    ensures var w', r := Step(Step(w, CallLine(run, Acked)), EnqueueLine(run, stored)), w.runs[run];
            && w'.orders == w.orders && Dependable(w'.store) && run in w'.runs
            && w'.runs[run] == r.(next := r.next + 1, queued := r.queued || !Settleable(w.store, r.lines[r.next], r.action))
            && (forall l :: Settleable(w'.store, l, r.action) <==> Settleable(w.store, l, r.action))
  {
    SettleableLine(w.store, w.runs[run].lines[w.runs[run].next], w.runs[run].action);
  }

  lemma {:induction false} AckedLines(w: World, run: nat, net: seq<Delivery>, up: seq<bool>)
    requires Dependable(w.store) && AllAcked(net)
    requires run in w.runs && w.runs[run].phase == Calling && w.runs[run].next == 0 && !w.runs[run].queued
    requires |net| == |up| <= |w.runs[run].lines|
    ensures var w', r := Exec(w, LineEvents(run, net, up)), w.runs[run];
            && w'.orders == w.orders && Dependable(w'.store) && run in w'.runs
            && w'.runs[run] == r.(next := |net|, queued := !AllSettleable(w.store, r.lines[..|net|], r.action))
            && (forall l :: Settleable(w'.store, l, r.action) <==> Settleable(w.store, l, r.action))
  {
    if net != [] {
      var last, r := |net| - 1, w.runs[run];
      assert forall d | d in net[..last] :: d in net;
      AckedLines(w, run, net[..last], up[..last]);
      assert net[..last + 1] == net && up[..last + 1] == up && net[last] in net;
      ExecLine(w, run, net, up, last);
      AckedLine(Exec(w, LineEvents(run, net[..last], up[..last])), run, up[last]);
      OneMoreSettleable(w.store, r.lines, last, r.action);
    }
  }

  lemma OneMoreSettleable(s: Store, lines: seq<string>, n: nat, action: Action)
    requires n < |lines|
    ensures AllSettleable(s, lines[..n + 1], action) <==> AllSettleable(s, lines[..n], action) && Settleable(s, lines[n], action)
  {
    assert lines[..n + 1] == lines[..n] + [lines[n]];
  }

  /**
   * With every call acknowledged and nobody else acting, a run takes an open or compensating order to
   * its final state exactly when no line is missing or settled the other way, and to compensation otherwise.
   */
  lemma UninterruptedRun(w: World, run: nat, order: string, action: Action, net: seq<Delivery>, up: seq<bool>)
    requires Dependable(w.store) && AllAcked(net)
    requires run !in w.runs && order in w.orders
    requires w.orders[order].state.status == PendingPayment || w.orders[order].state.status == Compensating
    requires |net| == |up| == |w.orders[order].lines|
    ensures var w', o := Exec(w, Schedule(run, order, action, net, up, Acked)), w.orders[order];
            && order in w'.orders
            && w'.orders[order].state == match (action, AllSettleable(w.store, o.lines, action))
                                         case (ConfirmPayment, true) => State(Paid, PaymentPaid, StockConfirmed)
                                         case (CancelPayment, true) => State(OrderCancelled, PaymentCancelled, StockCancelled)
                                         case (ConfirmPayment, false) => State(Compensating, PaymentPaid, CompensationPending)
                                         case (CancelPayment, false) => State(Compensating, PaymentCancelled, CompensationPending)
  {
    var begun, lines := Step(w, StartRun(run, order, action)), w.orders[order].lines;
    ExecSchedule(w, run, order, action, net, up, Acked);
    Begun(w, run, order, action);
    AckedLines(begun, run, net, up);
    assert lines[..|net|] == lines;
    EndsAsQueued(Exec(begun, LineEvents(run, net, up)), run);
  }

  lemma Begun(w: World, run: nat, order: string, action: Action)
    requires run !in w.runs && order in w.orders
    requires w.orders[order].state.status == PendingPayment || w.orders[order].state.status == Compensating
    ensures Step(w, StartRun(run, order, action))
            == w.(runs := w.runs[run := PaymentRun(order, action, w.orders[order].lines, 0, false, Calling)])
  {
  }

  lemma EndsAsQueued(w: World, run: nat)
    requires run in w.runs && w.runs[run].phase == Calling && w.runs[run].next == |w.runs[run].lines| && w.runs[run].order in w.orders
    requires var s := w.orders[w.runs[run].order].state; s.status == PendingPayment || s.status == Compensating
    ensures var (w', order) := (Step(w, EndRun(run, Acked)), w.runs[run].order);
            order in w'.orders && w'.orders[order].state == Saga.Outcome(w.runs[run])
  {
  }
}
