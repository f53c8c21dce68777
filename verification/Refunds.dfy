/**
 * Payment transactions and the refund ledger of the payment service.
 *
 * Both tables are append-only in creation order, so a row's index serves as its id and "the
 * latest transaction of an order" is the last matching one.
 */
module Refunds {
  import opened Collections

  datatype TransactionStatus = Created | Paid | PaymentFailed | PaymentCancelled | PartiallyRefunded | Refunded
  datatype RefundStatus = Processing | Pending | Completed | Failed

  datatype Transaction = Transaction(orderId: string, provider: string, paymentId: string, key: string,
                                     captureId: Option<string>, amount: nat, currency: string, status: TransactionStatus)
  {
    predicate Claimable() { status == Paid || status == PartiallyRefunded }

    predicate Captured() { Claimable() || status == Refunded }
  }

  datatype Refund = Refund(transaction: nat, orderId: string, provider: string, amount: int, currency: string,
                           key: string, providerRefundId: Option<string>, status: RefundStatus)

  /** The statuses a provider reports. */
  type Reported = s: RefundStatus | s != Processing witness Pending

  datatype OrderLine = OrderLine(unitPrice: nat, quantity: nat)

  datatype OrderRow = OrderRow(lines: seq<OrderLine>, currency: string)

  datatype Ledger = Ledger(orders: map<string, OrderRow>, transactions: seq<Transaction>, refunds: seq<Refund>)

  function OrderTotal(lines: seq<OrderLine>): nat {
    if lines == [] then 0
    else OrderTotal(lines[..|lines| - 1]) + lines[|lines| - 1].unitPrice * lines[|lines| - 1].quantity
  }

  datatype ClaimInput = ClaimInput(orderId: string, amount: int, currency: string, key: string)

  datatype ClaimReply =
    | ClaimNew(refund: nat)
    | Resume(refund: nat)
    | AlreadyCompleted(refund: nat)
    | StateError
    | ConflictError
    | CheckViolation
  {
    predicate Ok() { ClaimNew? || Resume? || AlreadyCompleted? }
  }

  datatype Transition = Replay | Apply | Conflict

  function DecideProviderRefundTransition(current: RefundStatus, incoming: RefundStatus): Transition {
    if current == incoming then Replay
    else if current == Completed || current == Failed then Conflict
    else Apply
  }

  const ACTIVE: set<RefundStatus> := {Processing, Pending, Completed}
  const DONE: set<RefundStatus> := {Completed}

  /** The total of a transaction's refunds in the given statuses. */
  function Sum(refunds: seq<Refund>, t: nat, statuses: set<RefundStatus>): int {
    if refunds == [] then 0
    else Sum(refunds[..|refunds| - 1], t, statuses) + Weight(refunds[|refunds| - 1], t, statuses)
  }

  function Weight(r: Refund, t: nat, statuses: set<RefundStatus>): int {
    if r.transaction == t && r.status in statuses then r.amount else 0
  }

  /** The last transaction of the order that is claimable, or with `refundedToo` captured at all. */
  function Latest(transactions: seq<Transaction>, orderId: string, refundedToo: bool): (t: Option<nat>)
    ensures t.Some? ==> t.value < |transactions| && transactions[t.value].orderId == orderId
                        && (if refundedToo then transactions[t.value].Captured() else transactions[t.value].Claimable())
  {
    if transactions == [] then None
    else
      var last := |transactions| - 1;
      var x := transactions[last];
      if x.orderId == orderId && (if refundedToo then x.Captured() else x.Claimable()) then Some(last)
      else Latest(transactions[..last], orderId, refundedToo)
  }

  function ByKey(refunds: seq<Refund>, key: string): (i: Option<nat>)
    ensures i.Some? ==> i.value < |refunds| && refunds[i.value].key == key
  {
    if refunds == [] then None
    else if refunds[|refunds| - 1].key == key then Some(|refunds| - 1)
    else ByKey(refunds[..|refunds| - 1], key)
  }

  function Claim(l: Ledger, c: ClaimInput): (Ledger, ClaimReply) {
    var latest := Latest(l.transactions, c.orderId, false);
    if latest.None? || l.transactions[latest.value].captureId.None? then (l, StateError)
    else
      var t := latest.value;
      var transaction := l.transactions[t];
      if transaction.currency != c.currency then (l, ConflictError)
      else
        match ByKey(l.refunds, c.key)
        case Some(i) =>
          var existing := l.refunds[i];
          if existing.orderId != c.orderId || existing.amount != c.amount || existing.currency != c.currency
          then (l, ConflictError)
          else if existing.status == Failed then (l, StateError)
          else (l, if existing.status == Completed then AlreadyCompleted(i) else Resume(i))
        case None =>
          if c.amount > transaction.amount - Sum(l.refunds, t, ACTIVE) then (l, ConflictError)
          else if c.amount <= 0 then (l, CheckViolation)
          else
            var refund := Refund(t, c.orderId, transaction.provider, c.amount, c.currency, c.key, None, Processing);
            (l.(refunds := l.refunds + [refund]), ClaimNew(|l.refunds|))
  }

  function RecalculatedStatus(total: int, amount: int): TransactionStatus {
    if total >= amount then Refunded else if total > 0 then PartiallyRefunded else Paid
  }

  function Recalculated(l: Ledger, t: nat): Ledger
    requires t < |l.transactions|
  {
    var x := l.transactions[t];
    l.(transactions := l.transactions[t := x.(status := RecalculatedStatus(Sum(l.refunds, t, DONE), x.amount))])
  }

  /** The unique index over provider and provider refund id. */
  predicate IndexAllows(refunds: seq<Refund>, i: nat, id: string)
    requires i < |refunds|
  {
    forall j | 0 <= j < |refunds| && j != i ::
      !(refunds[j].providerRefundId == Some(id) && refunds[j].provider == refunds[i].provider)
  }

  /** No status check beyond "not failed": a late `pending` overwrites a completed refund, and only `completed` recalculates. */
  function RecordProviderResult(l: Ledger, i: nat, id: string, status: RefundStatus): (Ledger, bool)
    requires status == Completed || status == Pending
    requires forall r | r in l.refunds :: r.transaction < |l.transactions|
  {
    if i >= |l.refunds| || l.refunds[i].status == Failed || !IndexAllows(l.refunds, i, id) then (l, false)
    else
      var r := l.refunds[i];
      var updated := l.(refunds := l.refunds[i := r.(providerRefundId := Some(id), status := status)]);
      assert r in l.refunds;
      (if status == Completed then Recalculated(updated, r.transaction) else updated, true)
  }

  /** The update is keyed by the provider refund id alone, so it reaches the rows of every provider. */
  function WithStatus(refunds: seq<Refund>, id: string, status: RefundStatus): (r: seq<Refund>)
    ensures |r| == |refunds|
  {
    if refunds == [] then []
    else
      var last := refunds[|refunds| - 1];
      WithStatus(refunds[..|refunds| - 1], id, status)
      + [if last.providerRefundId == Some(id) then last.(status := status) else last]
  }

  predicate Carries(l: Ledger, i: nat, id: string) {
    i < |l.refunds| && l.refunds[i].providerRefundId == Some(id)
  }

  /** `pick` is the row the select happens to return first. */
  function ApplyProviderEvent(l: Ledger, pick: nat, id: string, status: RefundStatus, amount: int, currency: string): (Ledger, bool)
    requires status != Processing
    requires forall r | r in l.refunds :: r.transaction < |l.transactions|
  {
    if !Carries(l, pick, id) then (l, false)
    else
      var r := l.refunds[pick];
      if r.amount != amount || r.currency != currency then (l, false)
      else
        match DecideProviderRefundTransition(r.status, status)
        case Replay => (l, true)
        case Conflict => (l, false)
        case Apply =>
          assert r in l.refunds;
          (Recalculated(l.(refunds := WithStatus(l.refunds, id, status)), r.transaction), true)
  }

  predicate Pays(x: Transaction, provider: string, paymentId: string, orderId: string, amount: int, currency: string) {
    && x.provider == provider && x.paymentId == paymentId && x.orderId == orderId
    && x.amount == amount && x.currency == currency && (x.status == Created || x.status == Paid)
  }

  /** Marks the first matching transaction paid; the table admits one transaction per provider payment. */
  function MarkPaid(transactions: seq<Transaction>, provider: string, paymentId: string, orderId: string,
                    amount: int, currency: string, captureId: Option<string>): (r: (seq<Transaction>, bool))
    ensures |r.0| == |transactions|
  {
    if transactions == [] then (transactions, false)
    else
      var x := transactions[0];
      if Pays(x, provider, paymentId, orderId, amount, currency) then
        ([x.(status := Paid, captureId := if x.captureId.Some? then x.captureId else captureId)] + transactions[1..], true)
      else
        var (rest, found) := MarkPaid(transactions[1..], provider, paymentId, orderId, amount, currency, captureId);
        ([x] + rest, found)
  }

  /** A paid event counts only if its amount and currency are those of the order. */
  function PaidEvent(l: Ledger, provider: string, paymentId: string, orderId: string, amount: int, currency: string,
                     captureId: Option<string>): (Ledger, bool)
  {
    if orderId !in l.orders || OrderTotal(l.orders[orderId].lines) != amount || l.orders[orderId].currency != currency then (l, false)
    else
      var (transactions, found) := MarkPaid(l.transactions, provider, paymentId, orderId, amount, currency, captureId);
      (l.(transactions := transactions), found)
  }

  /** A repeated key or provider payment inserts nothing. */
  function RecordCreated(l: Ledger, x: Transaction): Ledger {
    if exists i :: 0 <= i < |l.transactions| && l.transactions[i].provider == x.provider
                   && (l.transactions[i].key == x.key || l.transactions[i].paymentId == x.paymentId)
    then l
    else l.(transactions := l.transactions + [x.(status := Created, captureId := None)])
  }

  datatype Event =
    | CreatePayment(x: Transaction)
    | PaymentPaid(provider: string, paymentId: string, orderId: string, amount: int, currency: string, captureId: Option<string>)
    | ClaimRefund(input: ClaimInput)
    | ProviderResult(refund: nat, id: string, completed: bool)
    | ProviderEvent(pick: nat, id: string, status: RefundStatus, amount: int, currency: string)

  ghost predicate Referenced(l: Ledger) {
    forall r | r in l.refunds :: r.transaction < |l.transactions|
  }

  predicate WellFormed(e: Event) {
    e.ProviderEvent? ==> e.status != Processing
  }

  function Step(l: Ledger, e: Event): (l': Ledger)
    requires Referenced(l) && WellFormed(e)
    ensures Referenced(l')
  {
    match e
    case CreatePayment(x) => RecordCreated(l, x)
    case PaymentPaid(p, id, o, a, c, capture) => PaidEvent(l, p, id, o, a, c, capture).0
    case ClaimRefund(input) => Claim(l, input).0
    case ProviderResult(i, id, completed) =>
      var l' := RecordProviderResult(l, i, id, if completed then Completed else Pending).0;
      assert l'.refunds == l.refunds || (|l'.refunds| == |l.refunds| && l'.refunds[i].transaction == l.refunds[i].transaction);
      l'
    case ProviderEvent(pick, id, status, a, c) =>
      WithStatusRows(l.refunds, id, status);
      ApplyProviderEvent(l, pick, id, status, a, c).0
  }

  lemma {:induction false} WithStatusRows(refunds: seq<Refund>, id: string, status: RefundStatus)
    ensures forall i | 0 <= i < |refunds| ::
              WithStatus(refunds, id, status)[i]
              == if refunds[i].providerRefundId == Some(id) then refunds[i].(status := status) else refunds[i]
  {
    if refunds != [] {
      WithStatusRows(refunds[..|refunds| - 1], id, status);
    }
  }
}
