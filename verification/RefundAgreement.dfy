/** When the status of a payment says how much of it is refunded, and which steps make it lie. */
module RefundAgreement {
  import opened Collections
  import opened Refunds
  import opened RefundLaws

  /** The transaction status says how much of the payment is refunded. */
  predicate AgreesAt(l: Ledger, t: nat)
    requires t < |l.transactions|
  {
    var x, total := l.transactions[t], Sum(l.refunds, t, DONE);
    Shows(x) ==>
      && (x.status == Refunded <==> total == x.amount)
      && (x.status == PartiallyRefunded <==> 0 < total < x.amount)
      && (x.status == Paid <==> total == 0)
  }

  /** A captured payment of a positive amount. */
  predicate Shows(x: Transaction) {
    x.Captured() && x.amount > 0
  }

  ghost predicate Agrees(l: Ledger) {
    forall t | 0 <= t < |l.transactions| :: AgreesAt(l, t)
  }

  /** Both totals call for the same status of a payment of that amount. */
  predicate SameBand(a: int, b: int, amount: int) {
    (a == 0 <==> b == 0) && (a == amount <==> b == amount) && (0 < a < amount <==> 0 < b < amount)
  }

  /** What an event adds to the completed total of a transaction, over all the carriers of its id. */
  function Shift(refunds: seq<Refund>, id: string, status: RefundStatus, t: nat): int {
    if refunds == [] then 0
    else
      var r := refunds[|refunds| - 1];
      Shift(refunds[..|refunds| - 1], id, status, t) + Weight(Marked(r, id, status), t, DONE) - Weight(r, t, DONE)
  }

  // ----- The steps that can disagree -----

  predicate Recorded(l: Ledger, e: Event) {
    && e.ProviderResult? && e.refund < |l.refunds|
    && l.refunds[e.refund].status != Failed && IndexAllows(l.refunds, e.refund, e.id)
  }

  /** A `pending` result lands on a completed refund of a fully refunded payment, or on its only completed refund. */
  predicate Disturbs(l: Ledger, e: Event)
    requires Referenced(l)
  {
    && Recorded(l, e) && !e.completed && l.refunds[e.refund].status == Completed
    && (var r := l.refunds[e.refund];
        assert r in l.refunds;
        var total := Sum(l.refunds, r.transaction, DONE);
        l.transactions[r.transaction].amount > 0 && (total == l.transactions[r.transaction].amount || total == r.amount))
  }

  /** A `completed` result takes the completed total beyond the payment. */
  predicate Overshoots(l: Ledger, e: Event)
    requires Referenced(l)
  {
    && Recorded(l, e) && e.completed && l.refunds[e.refund].status != Completed
    && (var r := l.refunds[e.refund];
        assert r in l.refunds;
        var amount := l.transactions[r.transaction].amount;
        amount > 0 && Sum(l.refunds, r.transaction, DONE) + r.amount > amount)
  }

  /** The event takes the total of a payment beyond its amount, or, where it does not recalculate, into a different status. */
  predicate MisleadsAt(l: Ledger, e: Event, u: nat)
    requires Applies(l, e) && u < |l.transactions|
  {
    var (was, amount) := (Sum(l.refunds, u, DONE), l.transactions[u].amount);
    var now := was + Shift(l.refunds, e.id, e.status, u);
    Shows(l.transactions[u]) && if u == l.refunds[e.pick].transaction then now > amount else !SameBand(was, now, amount)
  }

  /** It does so for the payment it was looked up for, or for another one through another carrier of its id. */
  ghost predicate Misleads(l: Ledger, e: Event) {
    Applies(l, e) && exists u :: 0 <= u < |l.transactions| && MisleadsAt(l, e, u)
  }

  ghost predicate Benign(l: Ledger, e: Event)
    requires Referenced(l)
  {
    !Disturbs(l, e) && !Overshoots(l, e) && !Misleads(l, e)
  }

  // ----- One step -----

  lemma {:induction false} SumShifted(refunds: seq<Refund>, id: string, status: RefundStatus, t: nat)
    ensures Sum(WithStatus(refunds, id, status), t, DONE) == Sum(refunds, t, DONE) + Shift(refunds, id, status, t)
  {
    if refunds != [] {
      SumShifted(refunds[..|refunds| - 1], id, status, t);
      WithStatusLast(refunds, id, status, t, DONE);
    }
  }

  /** New refund rows and no new statuses: agreement is kept exactly if every total stays in its band. */
  lemma SameStatusesExactly(l: Ledger, rs: seq<Refund>, u: nat)
    requires Agrees(l) && u < |l.transactions|
    ensures AgreesAt(l.(refunds := rs), u)
            <==> (Shows(l.transactions[u]) ==> SameBand(Sum(l.refunds, u, DONE), Sum(rs, u, DONE), l.transactions[u].amount))
  {
    assert AgreesAt(l, u);
  }

  /** With one recalculation, that payment agrees exactly if its total does not exceed it; the others as before. */
  lemma RecalculatedExactly(l: Ledger, rs: seq<Refund>, t: nat, u: nat)
    requires Agrees(l) && t < |l.transactions| && u < |l.transactions| && l.transactions[t].Captured()
    requires Sum(rs, t, DONE) >= 0
    ensures AgreesAt(Recalculated(l.(refunds := rs), t), u)
            <==> (Shows(l.transactions[u]) ==>
                    if u == t then Sum(rs, t, DONE) <= l.transactions[t].amount
                    else SameBand(Sum(l.refunds, u, DONE), Sum(rs, u, DONE), l.transactions[u].amount))
  {
    if u != t {
      SameStatusesExactly(l, rs, u);
    }
  }

  /** A result that is not `completed` keeps the statuses in agreement exactly when it does not disturb them. */
  lemma PendingResultExactly(l: Ledger, e: Event)
    requires Sane(l) && Agrees(l)
    requires e.ProviderResult? && !e.completed
    ensures Agrees(Step(l, e)) <==> !Disturbs(l, e)
  {
    if Recorded(l, e) {
      var (r, rs) := (l.refunds[e.refund], Step(l, e).refunds);
      assert r in l.refunds && Step(l, e) == l.(refunds := rs);
      forall u: nat ensures Sum(rs, u, DONE) == Sum(l.refunds, u, DONE) - Weight(r, u, DONE) {
        SumUpdate(l.refunds, e.refund, rs[e.refund], u, DONE);
      }
      forall u | 0 <= u < |l.transactions|
        ensures AgreesAt(l.(refunds := rs), u)
                <==> (Shows(l.transactions[u]) ==> SameBand(Sum(l.refunds, u, DONE), Sum(rs, u, DONE), l.transactions[u].amount))
      {
        SameStatusesExactly(l, rs, u);
      }
      PendingBands(l, r, rs);
      assert Agrees(l.(refunds := rs)) <==> !Disturbs(l, e);
    }
  }

  lemma PendingBands(l: Ledger, r: Refund, rs: seq<Refund>)
    requires Sane(l) && Agrees(l) && r in l.refunds
    requires forall u: nat :: Sum(rs, u, DONE) == Sum(l.refunds, u, DONE) - Weight(r, u, DONE)
    ensures var (total, amount) := (Sum(l.refunds, r.transaction, DONE), l.transactions[r.transaction].amount);
            (forall u | 0 <= u < |l.transactions| && Shows(l.transactions[u]) ::
               SameBand(Sum(l.refunds, u, DONE), Sum(rs, u, DONE), l.transactions[u].amount))
            <==> !(r.status == Completed && amount > 0 && (total == amount || total == r.amount))
  {
    var t := r.transaction;
    SumBounds(l.refunds, t);
    var i :| 0 <= i < |l.refunds| && l.refunds[i] == r;
    assert AgreesAt(l, t) && l.transactions[t].Captured();
    forall u | 0 <= u < |l.transactions| && u != t ensures Sum(rs, u, DONE) == Sum(l.refunds, u, DONE) {
    }
    assert Shows(l.transactions[t]) ==>
             (SameBand(Sum(l.refunds, t, DONE), Sum(rs, t, DONE), l.transactions[t].amount)
              <==> !(r.status == Completed && (Sum(l.refunds, t, DONE) == l.transactions[t].amount || Sum(l.refunds, t, DONE) == r.amount)));
  }

  lemma CompletedTotals(l: Ledger, e: Event, u: nat)
    requires Sane(l) && Recorded(l, e) && e.completed
    ensures var r := l.refunds[e.refund];
            Sum(Step(l, e).refunds, u, DONE)
            == Sum(l.refunds, u, DONE) + (if u == r.transaction && r.status != Completed then r.amount else 0)
  {
    var rs := Step(l, e).refunds;
    SumUpdate(l.refunds, e.refund, rs[e.refund], u, DONE);
  }

  lemma CompletedAt(l: Ledger, e: Event, u: nat)
    requires Sane(l) && Agrees(l) && Recorded(l, e) && e.completed && u < |l.transactions|
    ensures |Step(l, e).transactions| == |l.transactions|
    ensures AgreesAt(Step(l, e), u) <==> (u == l.refunds[e.refund].transaction ==> !Overshoots(l, e))
  {
    var (r, rs) := (l.refunds[e.refund], Step(l, e).refunds);
    assert r in l.refunds && Step(l, e) == Recalculated(l.(refunds := rs), r.transaction);
    CompletedTotals(l, e, u);
    CompletedTotals(l, e, r.transaction);
    SumBounds(l.refunds, r.transaction);
    assert AgreesAt(l, r.transaction);
    RecalculatedExactly(l, rs, r.transaction, u);
  }

  /** A `completed` result keeps them in agreement exactly when it does not overshoot. */
  lemma CompletedResultExactly(l: Ledger, e: Event)
    requires Sane(l) && Agrees(l) && e.ProviderResult? && e.completed
    ensures Agrees(Step(l, e)) <==> !Overshoots(l, e)
  {
    if Recorded(l, e) {
      var t := l.refunds[e.refund].transaction;
      assert l.refunds[e.refund] in l.refunds;
      forall u | 0 <= u < |l.transactions|
        ensures |Step(l, e).transactions| == |l.transactions| && (AgreesAt(Step(l, e), u) <==> (u == t ==> !Overshoots(l, e)))
      {
        CompletedAt(l, e, u);
      }
      CompletedAt(l, e, t);
    }
  }

  lemma EventTotals(l: Ledger, e: Event, u: nat)
    requires Sane(l) && WellFormed(e) && Applies(l, e)
    ensures var rs := WithStatus(l.refunds, e.id, e.status);
            && Sum(rs, u, DONE) == Sum(l.refunds, u, DONE) + Shift(l.refunds, e.id, e.status, u)
            && Sum(rs, u, DONE) >= 0
  {
    RefundRows(l, e);
    SaneStep(l, e);
    SumBounds(WithStatus(l.refunds, e.id, e.status), u);
    SumShifted(l.refunds, e.id, e.status, u);
  }

  lemma EventRecalculates(l: Ledger, e: Event)
    requires Sane(l) && WellFormed(e) && Applies(l, e)
    ensures l.refunds[e.pick].transaction < |l.transactions| && l.transactions[l.refunds[e.pick].transaction].Captured()
    ensures Step(l, e) == Recalculated(l.(refunds := WithStatus(l.refunds, e.id, e.status)), l.refunds[e.pick].transaction)
  {
    assert l.refunds[e.pick] in l.refunds;
  }

  lemma RecalculatedMisleads(l: Ledger, e: Event, u: nat)
    requires Agrees(l) && Applies(l, e) && u < |l.transactions|
    requires var t := l.refunds[e.pick].transaction;
             t < |l.transactions| && l.transactions[t].Captured()
    requires var rs := WithStatus(l.refunds, e.id, e.status);
             && Sum(rs, l.refunds[e.pick].transaction, DONE) >= 0
             && Sum(rs, u, DONE) == Sum(l.refunds, u, DONE) + Shift(l.refunds, e.id, e.status, u)
    ensures AgreesAt(Recalculated(l.(refunds := WithStatus(l.refunds, e.id, e.status)), l.refunds[e.pick].transaction), u)
            <==> !MisleadsAt(l, e, u)
  {
    RecalculatedExactly(l, WithStatus(l.refunds, e.id, e.status), l.refunds[e.pick].transaction, u);
  }

  lemma EventAt(l: Ledger, e: Event, u: nat)
    requires Sane(l) && Agrees(l) && WellFormed(e) && Applies(l, e) && u < |l.transactions|
    ensures |Step(l, e).transactions| == |l.transactions|
    ensures AgreesAt(Step(l, e), u) <==> !MisleadsAt(l, e, u)
  {
    EventRecalculates(l, e);
    EventTotals(l, e, l.refunds[e.pick].transaction);
    EventTotals(l, e, u);
    RecalculatedMisleads(l, e, u);
  }

  /** An event keeps them in agreement exactly when it does not mislead. */
  lemma EventExactly(l: Ledger, e: Event)
    requires Sane(l) && Agrees(l) && WellFormed(e) && e.ProviderEvent?
    ensures Agrees(Step(l, e)) <==> !Misleads(l, e)
  {
    if Applies(l, e) {
      assert l.refunds[e.pick] in l.refunds;
      forall u | 0 <= u < |l.transactions|
        ensures |Step(l, e).transactions| == |l.transactions| && (AgreesAt(Step(l, e), u) <==> !MisleadsAt(l, e, u))
      {
        EventAt(l, e, u);
      }
    }
  }

  lemma {:induction false} NothingDone(refunds: seq<Refund>, t: nat)
    requires forall r | r in refunds :: r.transaction != t
    ensures Sum(refunds, t, DONE) == 0
  {
    if refunds != [] {
      assert refunds[|refunds| - 1] in refunds;
      assert forall r | r in refunds[..|refunds| - 1] :: r in refunds;
      NothingDone(refunds[..|refunds| - 1], t);
    }
  }

  lemma PaymentAgrees(l: Ledger, e: Event)
    requires Sane(l) && Agrees(l) && (e.PaymentPaid? || e.CreatePayment?)
    ensures Agrees(Step(l, e))
  {
    TransactionsStep(l, e);
    var l' := Step(l, e);
    if e.PaymentPaid? {
      MarkPaidRows(l.transactions, e.provider, e.paymentId, e.orderId, e.amount, e.currency, e.captureId);
    }
    forall t | 0 <= t < |l'.transactions| ensures AgreesAt(l', t) {
      if t < |l.transactions| {
        assert AgreesAt(l, t);
        if !l.transactions[t].Captured() {
          NothingDone(l.refunds, t);
        }
      }
    }
  }

  lemma ClaimAgrees(l: Ledger, e: Event)
    requires Agrees(l) && e.ClaimRefund?
    ensures Agrees(Claim(l, e.input).0)
  {
    var l' := Claim(l, e.input).0;
    forall t | 0 <= t < |l'.transactions| ensures AgreesAt(l', t) {
      assert AgreesAt(l, t);
      if l'.refunds != l.refunds {
        SumAppend(l.refunds, l'.refunds[|l.refunds|], t, DONE);
      }
    }
  }

  lemma AgreementExactly(l: Ledger, e: Event)
    requires Sane(l) && Agrees(l) && WellFormed(e)
    ensures Agrees(Step(l, e)) <==> Benign(l, e)
  {
    match e
    case CreatePayment(_) => PaymentAgrees(l, e);
    case PaymentPaid(_, _, _, _, _, _) => PaymentAgrees(l, e);
    case ClaimRefund(_) => ClaimAgrees(l, e);
    case ProviderResult(_, _, completed) =>
      if completed {
        CompletedResultExactly(l, e);
      } else {
        PendingResultExactly(l, e);
      }
    case ProviderEvent(_, _, _, _, _) => EventExactly(l, e);
  }

  // ----- Runs -----

  ghost predicate AlwaysAgrees(l: Ledger, es: seq<Event>)
    requires Referenced(l) && forall e | e in es :: WellFormed(e)
    decreases |es|
  {
    Agrees(l) && (es == [] || AlwaysAgrees(Step(l, es[0]), es[1..]))
  }

  ghost predicate BenignRun(l: Ledger, es: seq<Event>)
    requires Referenced(l) && forall e | e in es :: WellFormed(e)
    decreases |es|
  {
    es == [] || (Benign(l, es[0]) && BenignRun(Step(l, es[0]), es[1..]))
  }

  /** At every point of a run each captured payment's status says how much of it is refunded exactly when every step is benign. */
  lemma {:induction false} StatusAgreementExactly(l: Ledger, es: seq<Event>)
    requires Sane(l) && Agrees(l) && forall e | e in es :: WellFormed(e)
    ensures AlwaysAgrees(l, es) <==> BenignRun(l, es)
    decreases |es|
  {
    if es != [] {
      AgreementExactly(l, es[0]);
      SaneStep(l, es[0]);
      if Agrees(Step(l, es[0])) {
        StatusAgreementExactly(Step(l, es[0]), es[1..]);
      }
    }
  }

  // ----- With ids that providers do not share -----

  predicate NeverDisturbs(l: Ledger, es: seq<Event>)
    requires Referenced(l) && forall e | e in es :: WellFormed(e)
    decreases |es|
  {
    es == [] || (!Disturbs(l, es[0]) && NeverDisturbs(Step(l, es[0]), es[1..]))
  }

  lemma {:induction false} ShiftElsewhere(refunds: seq<Refund>, id: string, status: RefundStatus, t: nat)
    requires forall r | r in refunds && r.providerRefundId == Some(id) :: r.transaction != t
    ensures Shift(refunds, id, status, t) == 0
  {
    if refunds != [] {
      assert refunds[|refunds| - 1] in refunds && forall r | r in refunds[..|refunds| - 1] :: r in refunds;
      ShiftElsewhere(refunds[..|refunds| - 1], id, status, t);
    }
  }

  lemma CappedTotal(l: Ledger, e: Event, t: nat)
    requires WellFormed(e) && Sane(l) && Capped(Step(l, e)) && t < |l.transactions|
    ensures Sum(Step(l, e).refunds, t, DONE) <= l.transactions[t].amount
  {
    SaneStep(l, e);
    TransactionsStep(l, e);
    SumBounds(Step(l, e).refunds, t);
    assert Sum(Step(l, e).refunds, t, ACTIVE) <= Step(l, e).transactions[t].amount;
  }

  lemma CappedNeverOvershoots(l: Ledger, e: Event)
    requires WellFormed(e) && Sane(l) && Capped(Step(l, e))
    ensures !Overshoots(l, e)
  {
    RefundRows(l, e);
    if Recorded(l, e) && e.completed {
      var (r, rs) := (l.refunds[e.refund], Step(l, e).refunds);
      assert r in l.refunds;
      SumUpdate(l.refunds, e.refund, rs[e.refund], r.transaction, DONE);
      CappedTotal(l, e, r.transaction);
    }
  }

  lemma CarriersTogether(l: Ledger, pick: nat, id: string)
    requires DistinctIds(l) && Carries(l, pick, id)
    ensures forall r | r in l.refunds && r.providerRefundId == Some(id) :: r.transaction == l.refunds[pick].transaction
  {
    SoleByDistinctIds(l, pick, id);
    forall r | r in l.refunds && r.providerRefundId == Some(id) ensures r.transaction == l.refunds[pick].transaction {
      var i :| 0 <= i < |l.refunds| && l.refunds[i] == r;
    }
  }

  lemma SoleCarrierNeverMisleadsAt(l: Ledger, e: Event, u: nat)
    requires WellFormed(e) && Sane(l) && Capped(Step(l, e)) && DistinctIds(l) && Applies(l, e) && u < |l.transactions|
    ensures !MisleadsAt(l, e, u)
  {
    RefundRows(l, e);
    CarriersTogether(l, e.pick, e.id);
    if u == l.refunds[e.pick].transaction {
      SumShifted(l.refunds, e.id, e.status, u);
      CappedTotal(l, e, u);
    } else {
      ShiftElsewhere(l.refunds, e.id, e.status, u);
    }
  }

  lemma {:induction false} FreshIdsBenign(l: Ledger, es: seq<Event>)
    requires Sane(l) && Capped(l) && DistinctIds(l) && (forall e | e in es :: WellFormed(e))
    requires FreshIds(l, es) && NeverDisturbs(l, es)
    ensures BenignRun(l, es)
    decreases |es|
  {
    if es != [] {
      DistinctIdsNeverRevive(l, es[0]);
      WithoutRevivalFits(l, es[0]);
      CapExactly(l, es[0]);
      CappedNeverOvershoots(l, es[0]);
      if Applies(l, es[0]) {
        forall u | 0 <= u < |l.transactions| ensures !MisleadsAt(l, es[0], u) {
          SoleCarrierNeverMisleadsAt(l, es[0], u);
        }
      }
      SaneStep(l, es[0]);
      DistinctIdsStep(l, es[0]);
      FreshIdsBenign(Step(l, es[0]), es[1..]);
    }
  }

  /** From the start: with such ids and no disturbing `pending` result, the statuses agree at every point of every run. */
  lemma StatusFromStart(orders: map<string, OrderRow>, es: seq<Event>)
    requires (forall e | e in es :: WellFormed(e)) && FreshIds(Ledger(orders, [], []), es)
    requires NeverDisturbs(Ledger(orders, [], []), es)
    ensures AlwaysAgrees(Ledger(orders, [], []), es)
  {
    FreshIdsBenign(Ledger(orders, [], []), es);
    StatusAgreementExactly(Ledger(orders, [], []), es);
  }
}
