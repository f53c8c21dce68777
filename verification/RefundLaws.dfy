/** Money laws of the refund ledger, over every order of claims, results, events and payments. */
module RefundLaws {
  import opened Collections
  import opened Refunds

  function Run(l: Ledger, es: seq<Event>): Ledger
    requires Referenced(l) && forall e | e in es :: WellFormed(e)
    decreases |es|
  {
    if es == [] then l else Run(Step(l, es[0]), es[1..])
  }

  // ----- Sums -----

  lemma SumAppend(refunds: seq<Refund>, r: Refund, t: nat, statuses: set<RefundStatus>)
    ensures Sum(refunds + [r], t, statuses) == Sum(refunds, t, statuses) + Weight(r, t, statuses)
  {
  }

  lemma {:induction false} SumUpdate(refunds: seq<Refund>, i: nat, r: Refund, t: nat, statuses: set<RefundStatus>)
    requires i < |refunds|
    ensures Sum(refunds[i := r], t, statuses)
            == Sum(refunds, t, statuses) + Weight(r, t, statuses) - Weight(refunds[i], t, statuses)
  {
    var last := |refunds| - 1;
    if i == last {
      assert refunds[i := r][..last] == refunds[..last];
    } else {
      SumUpdate(refunds[..last], i, r, t, statuses);
      assert refunds[i := r][..last] == refunds[..last][i := r];
    }
  }

  predicate Positive(refunds: seq<Refund>) {
    forall r | r in refunds :: r.amount > 0
  }

  lemma {:induction false} SumBounds(refunds: seq<Refund>, t: nat)
    requires Positive(refunds)
    ensures 0 <= Sum(refunds, t, DONE) <= Sum(refunds, t, ACTIVE)
    ensures forall i | 0 <= i < |refunds| && refunds[i].transaction == t && refunds[i].status == Completed ::
              refunds[i].amount <= Sum(refunds, t, DONE)
    ensures Sum(refunds, t, DONE) > 0 ==> exists r | r in refunds :: r.transaction == t
  {
    if refunds != [] {
      var last := |refunds| - 1;
      assert refunds[last] in refunds;
      assert forall r | r in refunds[..last] :: r in refunds;
      SumBounds(refunds[..last], t);
      forall i | 0 <= i < |refunds| && refunds[i].transaction == t && refunds[i].status == Completed
        ensures refunds[i].amount <= Sum(refunds, t, DONE)
      {
        if i < last {
          assert refunds[..last][i] == refunds[i];
        }
      }
    }
  }

  /** Some failed refund carries the id. */
  predicate CarriedByFailed(refunds: seq<Refund>, id: string) {
    exists r | r in refunds :: r.providerRefundId == Some(id) && r.status == Failed
  }

  /** The failed refunds of a transaction that carry the id. */
  function FailedUnder(refunds: seq<Refund>, id: string, t: nat): int {
    if refunds == [] then 0
    else
      var last := refunds[|refunds| - 1];
      FailedUnder(refunds[..|refunds| - 1], id, t)
      + if last.transaction == t && last.status == Failed && last.providerRefundId == Some(id) then last.amount else 0
  }

  function Marked(r: Refund, id: string, status: RefundStatus): Refund {
    if r.providerRefundId == Some(id) then r.(status := status) else r
  }

  lemma WithStatusLast(refunds: seq<Refund>, id: string, status: RefundStatus, t: nat, statuses: set<RefundStatus>)
    requires refunds != []
    ensures var (before, r) := (refunds[..|refunds| - 1], refunds[|refunds| - 1]);
            Sum(WithStatus(refunds, id, status), t, statuses)
            == Sum(WithStatus(before, id, status), t, statuses) + Weight(Marked(r, id, status), t, statuses)
  {
    var (before, r) := (refunds[..|refunds| - 1], refunds[|refunds| - 1]);
    assert WithStatus(refunds, id, status) == WithStatus(before, id, status) + [Marked(r, id, status)];
    SumAppend(WithStatus(before, id, status), Marked(r, id, status), t, statuses);
  }

  /** An event that is not a failure makes exactly the failed carriers active again. */
  lemma {:induction false} SumRevived(refunds: seq<Refund>, id: string, status: RefundStatus, t: nat)
    requires status != Failed
    ensures Sum(WithStatus(refunds, id, status), t, ACTIVE) == Sum(refunds, t, ACTIVE) + FailedUnder(refunds, id, t)
  {
    if refunds != [] {
      var (before, r) := (refunds[..|refunds| - 1], refunds[|refunds| - 1]);
      SumRevived(before, id, status, t);
      WithStatusLast(refunds, id, status, t, ACTIVE);
      assert Weight(Marked(r, id, status), t, ACTIVE) - Weight(r, t, ACTIVE)
             == if r.transaction == t && r.status == Failed && r.providerRefundId == Some(id) then r.amount else 0;
    }
  }

  lemma {:induction false} SumFailed(refunds: seq<Refund>, id: string, t: nat)
    requires Positive(refunds)
    ensures Sum(WithStatus(refunds, id, Failed), t, ACTIVE) <= Sum(refunds, t, ACTIVE)
  {
    if refunds != [] {
      var (before, r) := (refunds[..|refunds| - 1], refunds[|refunds| - 1]);
      assert r in refunds && forall x | x in before :: x in refunds;
      SumFailed(before, id, t);
      WithStatusLast(refunds, id, Failed, t, ACTIVE);
      assert Weight(Marked(r, id, Failed), t, ACTIVE) <= Weight(r, t, ACTIVE);
    }
  }

  lemma {:induction false} NoFailedCarrier(refunds: seq<Refund>, id: string, t: nat)
    requires !CarriedByFailed(refunds, id)
    ensures FailedUnder(refunds, id, t) == 0
  {
    if refunds != [] {
      assert refunds[|refunds| - 1] in refunds && forall r | r in refunds[..|refunds| - 1] :: r in refunds;
      NoFailedCarrier(refunds[..|refunds| - 1], id, t);
    }
  }

  // ----- Invariants -----

  ghost predicate Sane(l: Ledger) {
    && Referenced(l) && Positive(l.refunds)
    && (forall r | r in l.refunds :: l.transactions[r.transaction].Captured())
    && (forall x | x in l.transactions && x.Captured() ::
          x.orderId in l.orders && x.amount == OrderTotal(l.orders[x.orderId].lines) && x.currency == l.orders[x.orderId].currency)
  }

  ghost predicate Capped(l: Ledger) {
    forall t | 0 <= t < |l.transactions| :: Sum(l.refunds, t, ACTIVE) <= l.transactions[t].amount
  }

  predicate Applies(l: Ledger, e: Event) {
    && e.ProviderEvent? && Carries(l, e.pick, e.id)
    && l.refunds[e.pick].amount == e.amount && l.refunds[e.pick].currency == e.currency
    && DecideProviderRefundTransition(l.refunds[e.pick].status, e.status) == Apply
  }

  /** An applied event that is not a failure reaches a failed refund under the same provider refund id. */
  predicate Revives(l: Ledger, e: Event) {
    Applies(l, e) && e.status != Failed && CarriedByFailed(l.refunds, e.id)
  }

  predicate NeverRevives(l: Ledger, es: seq<Event>)
    requires Referenced(l) && forall e | e in es :: WellFormed(e)
    decreases |es|
  {
    es == [] || (!Revives(l, es[0]) && NeverRevives(Step(l, es[0]), es[1..]))
  }

  /** On every payment the failed refunds that an applied event brings back fit beside the active ones. */
  ghost predicate Fits(l: Ledger, e: Event) {
    Applies(l, e) && e.status != Failed ==>
      forall t | 0 <= t < |l.transactions| ::
        Sum(l.refunds, t, ACTIVE) + FailedUnder(l.refunds, e.id, t) <= l.transactions[t].amount
  }

  ghost predicate EveryEventFits(l: Ledger, es: seq<Event>)
    requires Referenced(l) && forall e | e in es :: WellFormed(e)
    decreases |es|
  {
    es == [] || (Fits(l, es[0]) && EveryEventFits(Step(l, es[0]), es[1..]))
  }

  /** No prefix of the run breaks the cap. */
  ghost predicate NeverExceeds(l: Ledger, es: seq<Event>)
    requires Referenced(l) && forall e | e in es :: WellFormed(e)
    decreases |es|
  {
    Capped(l) && (es == [] || NeverExceeds(Step(l, es[0]), es[1..]))
  }

  /** What a step does to the transactions: it may add one, and it changes nothing but status and capture id. */
  lemma {:induction false} MarkPaidRows(xs: seq<Transaction>, provider: string, paymentId: string, orderId: string,
                                        amount: int, currency: string, captureId: Option<string>)
    ensures var ys := MarkPaid(xs, provider, paymentId, orderId, amount, currency, captureId).0;
            forall i | 0 <= i < |xs| ::
              ys[i] == xs[i]
              || (Pays(xs[i], provider, paymentId, orderId, amount, currency) && ys[i].status == Paid
                  && ys[i] == xs[i].(status := Paid, captureId := ys[i].captureId))
  {
    if xs != [] && !Pays(xs[0], provider, paymentId, orderId, amount, currency) {
      MarkPaidRows(xs[1..], provider, paymentId, orderId, amount, currency, captureId);
    }
  }

  /** `b` is `a` with new statuses and capture ids, and perhaps one more uncaptured row. */
  ghost predicate SamePayments(a: seq<Transaction>, b: seq<Transaction>) {
    && |a| <= |b|
    && (forall i | 0 <= i < |a| :: b[i] == a[i].(status := b[i].status, captureId := b[i].captureId))
    && (forall i | |a| <= i < |b| :: b[i].status == Created)
  }

  /** The transaction becomes captured by this event, which names its order, amount and currency. */
  predicate PaidBy(l: Ledger, x: Transaction, e: Event) {
    && e.PaymentPaid? && x.orderId == e.orderId && x.amount == e.amount && x.currency == e.currency
    && e.orderId in l.orders && OrderTotal(l.orders[e.orderId].lines) == e.amount && l.orders[e.orderId].currency == e.currency
  }

  ghost predicate TransactionsMove(l: Ledger, l': Ledger, e: Event) {
    && SamePayments(l.transactions, l'.transactions) && l'.orders == l.orders
    && (forall i | 0 <= i < |l.transactions| && l.transactions[i].Captured() :: l'.transactions[i].Captured())
    && (forall i | 0 <= i < |l'.transactions| && l'.transactions[i].Captured() ::
          i < |l.transactions| && (l.transactions[i].Captured() || PaidBy(l, l.transactions[i], e)))
  }

  lemma RecalculationMoves(l: Ledger, u: Ledger, t: nat, e: Event)
    requires u.transactions == l.transactions && u.orders == l.orders
    requires t < |l.transactions| && l.transactions[t].Captured()
    ensures TransactionsMove(l, Recalculated(u, t), e)
  {
  }

  lemma PaymentMoves(l: Ledger, e: Event)
    requires Sane(l) && e.PaymentPaid?
    ensures TransactionsMove(l, Step(l, e), e)
  {
    MarkPaidRows(l.transactions, e.provider, e.paymentId, e.orderId, e.amount, e.currency, e.captureId);
  }

  lemma CreationMoves(l: Ledger, e: Event)
    requires Referenced(l) && e.CreatePayment?
    ensures TransactionsMove(l, Step(l, e), e)
  {
    var l' := RecordCreated(l, e.x);
    assert l' == l || l'.transactions == l.transactions + [e.x.(status := Created, captureId := None)];
  }

  lemma ResultMoves(l: Ledger, e: Event)
    requires Sane(l) && e.ProviderResult?
    ensures TransactionsMove(l, Step(l, e), e)
  {
    if e.refund < |l.refunds| {
      var r := l.refunds[e.refund];
      assert r in l.refunds;
      RecalculationMoves(l, l.(refunds := l.refunds[e.refund := r.(providerRefundId := Some(e.id), status := Completed)]),
                         r.transaction, e);
    }
  }

  lemma EventMoves(l: Ledger, e: Event)
    requires Sane(l) && e.ProviderEvent? && WellFormed(e)
    ensures TransactionsMove(l, Step(l, e), e)
  {
    if e.pick < |l.refunds| {
      assert l.refunds[e.pick] in l.refunds;
      RecalculationMoves(l, l.(refunds := WithStatus(l.refunds, e.id, e.status)), l.refunds[e.pick].transaction, e);
    }
  }

  /** What a step does to the transactions. */
  lemma TransactionsStep(l: Ledger, e: Event)
    requires Sane(l) && WellFormed(e)
    ensures TransactionsMove(l, Step(l, e), e)
  {
    match e
    case PaymentPaid(_, _, _, _, _, _) => PaymentMoves(l, e);
    case ProviderResult(_, _, _) => ResultMoves(l, e);
    case ProviderEvent(_, _, _, _, _) => EventMoves(l, e);
    case CreatePayment(_) => CreationMoves(l, e);
    case ClaimRefund(_) =>
  }

  /** `rs` are the ledger's refunds, with new statuses and provider ids, and perhaps one claimed on a captured payment. */
  ghost predicate RowsFollow(l: Ledger, rs: seq<Refund>) {
    && |l.refunds| <= |rs|
    && (forall i | 0 <= i < |l.refunds| ::
          rs[i] == l.refunds[i].(status := rs[i].status, providerRefundId := rs[i].providerRefundId))
    && (forall i | |l.refunds| <= i < |rs| ::
          rs[i].amount > 0 && rs[i].transaction < |l.transactions| && l.transactions[rs[i].transaction].Captured())
  }

  lemma ClaimFollows(l: Ledger, input: ClaimInput)
    ensures RowsFollow(l, Claim(l, input).0.refunds)
  {
  }

  lemma StatusFollows(l: Ledger, id: string, status: RefundStatus)
    ensures RowsFollow(l, WithStatus(l.refunds, id, status))
  {
    WithStatusRows(l.refunds, id, status);
  }

  lemma RefundsStep(l: Ledger, e: Event)
    requires Sane(l) && WellFormed(e)
    ensures RowsFollow(l, Step(l, e).refunds)
  {
    if e.ClaimRefund? {
      ClaimFollows(l, e.input);
    } else {
      RefundRows(l, e);
      if e.ProviderEvent? {
        StatusFollows(l, e.id, e.status);
      }
    }
  }

  lemma SaneStep(l: Ledger, e: Event)
    requires Sane(l) && WellFormed(e)
    ensures Sane(Step(l, e))
  {
    TransactionsStep(l, e);
    RefundsStep(l, e);
    var l' := Step(l, e);
    forall r | r in l'.refunds ensures r.amount > 0 && l'.transactions[r.transaction].Captured() {
      var i :| 0 <= i < |l'.refunds| && l'.refunds[i] == r;
      if i < |l.refunds| {
        assert l.refunds[i] in l.refunds;
      }
    }
    forall x | x in l'.transactions && x.Captured()
      ensures x.orderId in l'.orders && x.amount == OrderTotal(l'.orders[x.orderId].lines) && x.currency == l'.orders[x.orderId].currency
    {
      var i :| 0 <= i < |l'.transactions| && l'.transactions[i] == x;
      if l.transactions[i].Captured() {
        assert l.transactions[i] in l.transactions;
      }
    }
  }

  lemma {:induction false} NoRefundsYet(refunds: seq<Refund>, t: nat)
    requires forall r | r in refunds :: r.transaction < t
    ensures Sum(refunds, t, ACTIVE) == 0
  {
    if refunds != [] {
      assert refunds[|refunds| - 1] in refunds;
      assert forall r | r in refunds[..|refunds| - 1] :: r in refunds;
      NoRefundsYet(refunds[..|refunds| - 1], t);
    }
  }

  /** Only a new claim adds to the active total of a transaction, and only within what is left. */
  lemma ClaimActive(l: Ledger, input: ClaimInput, t: nat)
    ensures var l' := Claim(l, input).0;
            Sum(l'.refunds, t, ACTIVE) <= Sum(l.refunds, t, ACTIVE)
            || (t < |l.transactions| && Sum(l'.refunds, t, ACTIVE) <= l.transactions[t].amount)
  {
  }

  lemma ResultActive(l: Ledger, e: Event, t: nat)
    requires Sane(l) && e.ProviderResult?
    ensures Sum(Step(l, e).refunds, t, ACTIVE) <= Sum(l.refunds, t, ACTIVE)
  {
    RefundRows(l, e);
    if Step(l, e).refunds != l.refunds {
      assert l.refunds[e.refund] in l.refunds;
      SumUpdate(l.refunds, e.refund, Step(l, e).refunds[e.refund], t, ACTIVE);
    }
  }

  lemma TotalKept(l: Ledger, e: Event, t: nat)
    requires Sane(l) && Capped(l) && WellFormed(e) && !(Applies(l, e) && e.status != Failed) && t < |Step(l, e).transactions|
    ensures Sum(Step(l, e).refunds, t, ACTIVE) <= Step(l, e).transactions[t].amount
  {
    TransactionsStep(l, e);
    if t >= |l.transactions| {
      NoRefundsYet(l.refunds, t);
    }
    if e.ClaimRefund? {
      ClaimActive(l, e.input, t);
    } else if e.ProviderResult? {
      ResultActive(l, e, t);
    } else {
      RefundRows(l, e);
      if Applies(l, e) {
        SumFailed(l.refunds, e.id, t);
      }
    }
  }

  lemma RevivalTotals(l: Ledger, e: Event)
    requires Sane(l) && WellFormed(e) && Applies(l, e) && e.status != Failed
    ensures |Step(l, e).transactions| == |l.transactions|
    ensures forall t: nat ::
              Sum(Step(l, e).refunds, t, ACTIVE) == Sum(l.refunds, t, ACTIVE) + FailedUnder(l.refunds, e.id, t)
    ensures forall t | 0 <= t < |l.transactions| :: Step(l, e).transactions[t].amount == l.transactions[t].amount
  {
    RefundRows(l, e);
    TransactionsStep(l, e);
    assert l.refunds[e.pick] in l.refunds;
    forall t: nat
      ensures Sum(Step(l, e).refunds, t, ACTIVE) == Sum(l.refunds, t, ACTIVE) + FailedUnder(l.refunds, e.id, t)
    {
      SumRevived(l.refunds, e.id, e.status, t);
    }
  }

  /** A step keeps the cap exactly when what it revives, if anything, still fits the payments. */
  lemma CapExactly(l: Ledger, e: Event)
    requires Sane(l) && Capped(l) && WellFormed(e)
    ensures Capped(Step(l, e)) <==> Fits(l, e)
  {
    if Applies(l, e) && e.status != Failed {
      RevivalTotals(l, e);
      if Capped(Step(l, e)) {
        forall t | 0 <= t < |l.transactions|
          ensures Sum(l.refunds, t, ACTIVE) + FailedUnder(l.refunds, e.id, t) <= l.transactions[t].amount
        {
          assert Sum(Step(l, e).refunds, t, ACTIVE) <= Step(l, e).transactions[t].amount;
        }
      }
    } else {
      forall t | 0 <= t < |Step(l, e).transactions|
        ensures Sum(Step(l, e).refunds, t, ACTIVE) <= Step(l, e).transactions[t].amount
      {
        TotalKept(l, e, t);
      }
    }
  }

  /** Money cap: active refunds stay within every payment at every point of a run exactly when every applied event fits. */
  lemma {:induction false} CapThroughoutExactly(l: Ledger, es: seq<Event>)
    requires Sane(l) && Capped(l) && forall e | e in es :: WellFormed(e)
    ensures NeverExceeds(l, es) <==> EveryEventFits(l, es)
    decreases |es|
  {
    if es != [] {
      CapExactly(l, es[0]);
      SaneStep(l, es[0]);
      if Capped(Step(l, es[0])) {
        CapThroughoutExactly(Step(l, es[0]), es[1..]);
      }
    }
  }

  /** And then completed refunds never exceed the order's total either. */
  lemma {:induction false} RefundsNeverExceedPayment(l: Ledger, es: seq<Event>)
    requires Sane(l) && Capped(l) && (forall e | e in es :: WellFormed(e)) && EveryEventFits(l, es)
    ensures var e := Run(l, es);
            && Sane(e) && Capped(e)
            && forall t | 0 <= t < |e.transactions| && e.transactions[t].Captured() ::
                 && e.transactions[t].orderId in e.orders
                 && Sum(e.refunds, t, DONE) <= OrderTotal(e.orders[e.transactions[t].orderId].lines)
    decreases |es|
  {
    if es == [] {
      forall t | 0 <= t < |l.transactions| && l.transactions[t].Captured()
        ensures l.transactions[t].orderId in l.orders
        ensures Sum(l.refunds, t, DONE) <= OrderTotal(l.orders[l.transactions[t].orderId].lines)
      {
        SumBounds(l.refunds, t);
        assert l.transactions[t] in l.transactions;
      }
    } else {
      SaneStep(l, es[0]);
      CapExactly(l, es[0]);
      RefundsNeverExceedPayment(Step(l, es[0]), es[1..]);
    }
  }

  lemma WithoutRevivalFits(l: Ledger, e: Event)
    requires Capped(l) && !Revives(l, e)
    ensures Fits(l, e)
  {
    if Applies(l, e) && e.status != Failed {
      forall t: nat ensures FailedUnder(l.refunds, e.id, t) == 0 {
        NoFailedCarrier(l.refunds, e.id, t);
      }
    }
  }

  // ----- Failed refunds -----

  ghost predicate FailedKept(l: Ledger, l': Ledger) {
    |l.refunds| <= |l'.refunds|
    && forall i | 0 <= i < |l.refunds| && l.refunds[i].status == Failed :: l'.refunds[i].status == Failed
  }

  /** What a step does to the refund rows, event by event. */
  lemma RefundRows(l: Ledger, e: Event)
    requires Sane(l) && WellFormed(e)
    ensures var l' := Step(l, e);
            && (Applies(l, e) ==> l'.refunds == WithStatus(l.refunds, e.id, e.status))
            && (e.ProviderEvent? && !Applies(l, e) ==> l'.refunds == l.refunds)
            && (e.ProviderResult? ==>
                  l'.refunds == l.refunds
                  || (e.refund < |l.refunds| && l.refunds[e.refund].status != Failed
                      && l'.refunds == l.refunds[e.refund := l.refunds[e.refund].(providerRefundId := Some(e.id),
                                                             status := if e.completed then Completed else Pending)]))
            && (e.ClaimRefund? ==>
                  l'.refunds == l.refunds
                  || (|l'.refunds| == |l.refunds| + 1 && l'.refunds[..|l.refunds|] == l.refunds
                      && l'.refunds[|l.refunds|].providerRefundId == None))
            && (e.PaymentPaid? || e.CreatePayment? ==> l'.refunds == l.refunds)
  {
  }

  /** A failed refund stays failed exactly when the step does not revive one. */
  lemma FailedIsAbsorbing(l: Ledger, e: Event)
    requires Sane(l) && WellFormed(e)
    ensures FailedKept(l, Step(l, e)) <==> !Revives(l, e)
  {
    RefundRows(l, e);
    if Applies(l, e) {
      EventKeepsFailed(l, Step(l, e), e);
    } else if e.ClaimRefund? {
      var l' := Step(l, e);
      assert forall i | 0 <= i < |l.refunds| :: l'.refunds[..|l.refunds|][i] == l'.refunds[i];
    }
  }

  lemma EventKeepsFailed(l: Ledger, l': Ledger, e: Event)
    requires Applies(l, e) && l'.refunds == WithStatus(l.refunds, e.id, e.status)
    ensures FailedKept(l, l') <==> e.status == Failed || !CarriedByFailed(l.refunds, e.id)
  {
    WithStatusRows(l.refunds, e.id, e.status);
    if CarriedByFailed(l.refunds, e.id) && e.status != Failed {
      var r :| r in l.refunds && r.providerRefundId == Some(e.id) && r.status == Failed;
      var i :| 0 <= i < |l.refunds| && l.refunds[i] == r;
      assert l'.refunds[i].status == e.status;
    } else {
      forall i | 0 <= i < |l.refunds| && l.refunds[i].status == Failed ensures l'.refunds[i].status == Failed {
        assert l.refunds[i] in l.refunds;
      }
    }
  }

  /** No two refunds carry one provider refund id, of whatever provider. */
  ghost predicate DistinctIds(l: Ledger) {
    forall i, j | 0 <= i < j < |l.refunds| && l.refunds[i].providerRefundId.Some? ::
      l.refunds[i].providerRefundId != l.refunds[j].providerRefundId
  }

  /** The provider result brings an id that no other refund carries. */
  predicate FreshId(l: Ledger, e: Event) {
    e.ProviderResult? ==> forall j | 0 <= j < |l.refunds| && j != e.refund :: l.refunds[j].providerRefundId != Some(e.id)
  }

  predicate FreshIds(l: Ledger, es: seq<Event>)
    requires Referenced(l) && forall e | e in es :: WellFormed(e)
    decreases |es|
  {
    es == [] || (FreshId(l, es[0]) && FreshIds(Step(l, es[0]), es[1..]))
  }

  /** Rows whose ids are unchanged, or fresh at one index, or absent at the end, stay distinct. */
  lemma DistinctIdsKept(a: seq<Refund>, b: seq<Refund>)
    requires forall i, j | 0 <= i < j < |a| && a[i].providerRefundId.Some? :: a[i].providerRefundId != a[j].providerRefundId
    requires |a| <= |b| && (forall i | 0 <= i < |a| :: b[i].providerRefundId == a[i].providerRefundId)
    requires forall i | |a| <= i < |b| :: b[i].providerRefundId == None
    ensures forall i, j | 0 <= i < j < |b| && b[i].providerRefundId.Some? :: b[i].providerRefundId != b[j].providerRefundId
  {
  }

  lemma DistinctIdsResult(l: Ledger, e: Event)
    requires Sane(l) && DistinctIds(l) && FreshId(l, e) && e.ProviderResult?
    ensures DistinctIds(Step(l, e))
  {
  }

  lemma DistinctIdsEvent(l: Ledger, id: string, status: RefundStatus)
    requires DistinctIds(l)
    ensures DistinctIds(l.(refunds := WithStatus(l.refunds, id, status)))
  {
    WithStatusRows(l.refunds, id, status);
    DistinctIdsKept(l.refunds, WithStatus(l.refunds, id, status));
  }

  lemma DistinctIdsClaim(l: Ledger, input: ClaimInput)
    requires DistinctIds(l)
    ensures DistinctIds(Claim(l, input).0)
  {
  }

  lemma DistinctIdsStep(l: Ledger, e: Event)
    requires Sane(l) && DistinctIds(l) && WellFormed(e) && FreshId(l, e)
    ensures DistinctIds(Step(l, e))
  {
    if e.ProviderResult? {
      DistinctIdsResult(l, e);
    } else if e.ClaimRefund? {
      DistinctIdsClaim(l, e.input);
    } else {
      RefundRows(l, e);
      if e.ProviderEvent? {
        DistinctIdsEvent(l, e.id, e.status);
      }
    }
  }

  /** With distinct ids an event reaches the refund it was looked up by and no other. */
  lemma SoleByDistinctIds(l: Ledger, pick: nat, id: string)
    requires DistinctIds(l) && Carries(l, pick, id)
    ensures forall j | 0 <= j < |l.refunds| && j != pick :: l.refunds[j].providerRefundId != Some(id)
  {
  }

  lemma DistinctIdsNeverRevive(l: Ledger, e: Event)
    requires DistinctIds(l)
    ensures !Revives(l, e)
  {
    if Applies(l, e) {
      SoleByDistinctIds(l, e.pick, e.id);
      forall r | r in l.refunds && r.providerRefundId == Some(e.id) ensures r.status != Failed {
        var i :| 0 <= i < |l.refunds| && l.refunds[i] == r;
      }
    }
  }

  /** When providers never hand out the id of another refund, no event ever revives a refund, so every event fits. */
  lemma {:induction false} FreshIdsNeverRevive(l: Ledger, es: seq<Event>)
    requires Sane(l) && Capped(l) && DistinctIds(l) && (forall e | e in es :: WellFormed(e)) && FreshIds(l, es)
    ensures NeverRevives(l, es) && EveryEventFits(l, es) && DistinctIds(Run(l, es))
    decreases |es|
  {
    if es != [] {
      SaneStep(l, es[0]);
      DistinctIdsNeverRevive(l, es[0]);
      WithoutRevivalFits(l, es[0]);
      CapExactly(l, es[0]);
      DistinctIdsStep(l, es[0]);
      FreshIdsNeverRevive(Step(l, es[0]), es[1..]);
    }
  }

  /** From the start: with such ids, no run of payments, claims, results and events ever refunds more than an order's total on a payment. */
  lemma CapFromStart(orders: map<string, OrderRow>, es: seq<Event>)
    requires (forall e | e in es :: WellFormed(e)) && FreshIds(Ledger(orders, [], []), es)
    ensures var l := Run(Ledger(orders, [], []), es);
            && Capped(l)
            && forall t | 0 <= t < |l.transactions| && l.transactions[t].Captured() ::
                 && l.transactions[t].orderId in orders
                 && Sum(l.refunds, t, DONE) <= OrderTotal(orders[l.transactions[t].orderId].lines)
  {
    var start := Ledger(orders, [], []);
    FreshIdsNeverRevive(start, es);
    RefundsNeverExceedPayment(start, es);
    OrdersStay(start, es);
  }

  lemma {:induction false} OrdersStay(l: Ledger, es: seq<Event>)
    requires Sane(l) && forall e | e in es :: WellFormed(e)
    ensures Run(l, es).orders == l.orders
    decreases |es|
  {
    if es != [] {
      TransactionsStep(l, es[0]);
      SaneStep(l, es[0]);
      OrdersStay(Step(l, es[0]), es[1..]);
    }
  }
}
