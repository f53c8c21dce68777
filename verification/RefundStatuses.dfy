/** What becomes of one refund's status: which results and events reach it, and what makes it leave `completed` or `failed`. */
module RefundStatuses {
  import opened Collections
  import opened Refunds
  import opened RefundLaws

  predicate Settled(status: RefundStatus) {
    status == Completed || status == Failed
  }

  /** The event names a refund that carries its id, has its amount and currency, and is still open with another status. */
  predicate Lands(l: Ledger, e: Event) {
    && e.ProviderEvent? && e.pick < |l.refunds|
    && (var r := l.refunds[e.pick];
        && r.providerRefundId == Some(e.id) && r.amount == e.amount && r.currency == e.currency
        && (r.status == Processing || r.status == Pending) && r.status != e.status)
  }

  /** The provider's answer for this refund, under an id that no other refund of the provider has. */
  predicate Answers(l: Ledger, e: Event, i: nat)
    requires i < |l.refunds|
  {
    && e.ProviderResult? && e.refund == i && l.refunds[i].status != Failed
    && forall j | 0 <= j < |l.refunds| && j != i ::
         l.refunds[j].providerRefundId != Some(e.id) || l.refunds[j].provider != l.refunds[i].provider
  }

  /**
   * An event is accepted exactly if it names a refund with its id, amount and currency that is still open or has the reported
   * status already. In the first case every carrier of the id gets the status, in every other nothing changes.
   */
  lemma EventDecided(l: Ledger, pick: nat, id: string, status: RefundStatus, amount: int, currency: string)
    requires Referenced(l) && status != Processing
    ensures var (l', ok) := ApplyProviderEvent(l, pick, id, status, amount, currency);
            var lands := Lands(l, ProviderEvent(pick, id, status, amount, currency));
            && (ok <==> pick < |l.refunds| && l.refunds[pick].providerRefundId == Some(id)
                        && l.refunds[pick].amount == amount && l.refunds[pick].currency == currency
                        && (l.refunds[pick].status == status || l.refunds[pick].status == Processing || l.refunds[pick].status == Pending))
            && (!lands ==> l' == l)
            && (lands ==>
                  && |l'.refunds| == |l.refunds| && l'.orders == l.orders
                  && (forall i | 0 <= i < |l.refunds| ::
                        l'.refunds[i] == if l.refunds[i].providerRefundId == Some(id) then l.refunds[i].(status := status) else l.refunds[i])
                  && |l'.transactions| == |l.transactions|
                  && forall t | 0 <= t < |l.transactions| && t != l.refunds[pick].transaction :: l'.transactions[t] == l.transactions[t])
  {
    WithStatusRows(l.refunds, id, status);
  }

  /** The status of a refund after any step. */
  lemma StatusAfterExactly(l: Ledger, e: Event, i: nat)
    requires Referenced(l) && WellFormed(e) && i < |l.refunds|
    ensures i < |Step(l, e).refunds|
    ensures Step(l, e).refunds[i].status
            == if Answers(l, e, i) then (if e.completed then Completed else Pending)
               else if Lands(l, e) && l.refunds[i].providerRefundId == Some(e.id) then e.status
               else l.refunds[i].status
  {
    if e.ProviderEvent? {
      EventDecided(l, e.pick, e.id, e.status, e.amount, e.currency);
    }
  }

  /** A late `pending` on a completed refund, or another status reported for another, open carrier of its id. */
  predicate Overwrites(l: Ledger, e: Event, i: nat)
    requires i < |l.refunds|
  {
    || (Answers(l, e, i) && !e.completed)
    || (Lands(l, e) && e.pick != i && l.refunds[i].providerRefundId == Some(e.id) && e.status != l.refunds[i].status)
  }

  /** A completed or failed refund is left as it is by a step exactly if the step is neither of these. */
  lemma SettledLeftExactly(l: Ledger, e: Event, i: nat)
    requires Referenced(l) && WellFormed(e) && i < |l.refunds| && Settled(l.refunds[i].status)
    ensures i < |Step(l, e).refunds|
    ensures Step(l, e).refunds[i].status == l.refunds[i].status <==> !Overwrites(l, e, i)
  {
    StatusAfterExactly(l, e, i);
  }

  /** No `pending` result comes in for a completed refund. */
  predicate NoLatePending(l: Ledger, es: seq<Event>)
    requires Referenced(l) && forall e | e in es :: WellFormed(e)
    decreases |es|
  {
    es == []
    || ((es[0].ProviderResult? && !es[0].completed && es[0].refund < |l.refunds| ==> l.refunds[es[0].refund].status != Completed)
        && NoLatePending(Step(l, es[0]), es[1..]))
  }

  /** With ids of their own and no such result, completed and failed are absorbing over every run. */
  lemma {:induction false} SettledForGood(l: Ledger, es: seq<Event>, i: nat)
    requires Sane(l) && DistinctIds(l) && (forall e | e in es :: WellFormed(e)) && FreshIds(l, es) && NoLatePending(l, es)
    requires i < |l.refunds| && Settled(l.refunds[i].status)
    ensures i < |Run(l, es).refunds| && Run(l, es).refunds[i].status == l.refunds[i].status
    decreases |es|
  {
    if es != [] {
      SettledLeftExactly(l, es[0], i);
      SaneStep(l, es[0]);
      DistinctIdsStep(l, es[0]);
      SettledForGood(Step(l, es[0]), es[1..], i);
    }
  }
}
