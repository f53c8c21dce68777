/** What each transaction of the payment service does to the rows, told from the rows it finds. */
module PaymentSteps {
  import opened Collections
  import opened Refunds
  import opened RefundLaws
  import opened RefundQuote

  // ----- Amounts -----

  lemma {:induction false} OrderTotalAppend(a: seq<OrderLine>, b: seq<OrderLine>)
    ensures OrderTotal(a + b) == OrderTotal(a) + OrderTotal(b)
  {
    if b == [] {
      assert a + b == a;
    } else {
      assert (a + b)[..|a + b| - 1] == a + b[..|b| - 1];
      OrderTotalAppend(a, b[..|b| - 1]);
    }
  }

  /** An order's total is additive over its lines, and a line counts its price as often as its quantity says. */
  lemma OrderTotalExactly(a: seq<OrderLine>, line: OrderLine, b: seq<OrderLine>)
    ensures OrderTotal(a + [line] + b) == OrderTotal(a) + line.unitPrice * line.quantity + OrderTotal(b)
  {
    OrderTotalAppend(a + [line], b);
    OrderTotalAppend(a, [line]);
    assert [line][..0] == [];
  }

  /** A refund counts towards the total of its own payment while it is in one of the statuses, and towards no other. */
  lemma SumExactly(before: seq<Refund>, r: Refund, after: seq<Refund>, t: nat, statuses: set<RefundStatus>)
    ensures Sum(before + [r] + after, t, statuses)
            == Sum(before + after, t, statuses) + if r.transaction == t && r.status in statuses then r.amount else 0
  {
    SumConcat(before + [r], after, t, statuses);
    SumConcat(before, after, t, statuses);
    SumAppend(before, r, t, statuses);
  }

  lemma {:induction false} SumConcat(a: seq<Refund>, b: seq<Refund>, t: nat, statuses: set<RefundStatus>)
    ensures Sum(a + b, t, statuses) == Sum(a, t, statuses) + Sum(b, t, statuses)
  {
    if b == [] {
      assert a + b == a;
    } else {
      assert (a + b)[..|a + b| - 1] == a + b[..|b| - 1];
      SumConcat(a, b[..|b| - 1], t, statuses);
    }
  }

  // ----- Claims -----

  /** A captured payment of the order; without `refundedToo` one that is not refunded in full. */
  predicate CapturedFor(x: Transaction, orderId: string, refundedToo: bool) {
    x.orderId == orderId && (x.status == Paid || x.status == PartiallyRefunded || (refundedToo && x.status == Refunded))
  }

  lemma {:induction false} LatestExactly(xs: seq<Transaction>, orderId: string, refundedToo: bool)
    ensures var t := Latest(xs, orderId, refundedToo);
            && (t.None? ==> forall x | x in xs :: !CapturedFor(x, orderId, refundedToo))
            && (t.Some? ==> t.value < |xs| && CapturedFor(xs[t.value], orderId, refundedToo)
                            && forall u | t.value < u < |xs| :: !CapturedFor(xs[u], orderId, refundedToo))
  {
    if xs != [] {
      LatestExactly(xs[..|xs| - 1], orderId, refundedToo);
      assert xs == xs[..|xs| - 1] + [xs[|xs| - 1]];
    }
  }

  /** Row `t` is the order's last payment that takes refunds. */
  ghost predicate ClaimedOn(l: Ledger, orderId: string, t: nat) {
    && t < |l.transactions| && CapturedFor(l.transactions[t], orderId, false)
    && forall u | t < u < |l.transactions| :: !CapturedFor(l.transactions[u], orderId, false)
  }

  lemma NothingToRefund(l: Ledger, c: ClaimInput)
    requires forall x | x in l.transactions :: !CapturedFor(x, c.orderId, false)
    ensures Claim(l, c) == (l, StateError)
  {
    LatestExactly(l.transactions, c.orderId, false);
  }

  lemma ClaimRefused(l: Ledger, c: ClaimInput, t: nat)
    requires ClaimedOn(l, c.orderId, t)
    ensures l.transactions[t].captureId.None? ==> Claim(l, c) == (l, StateError)
    ensures l.transactions[t].captureId.Some? && l.transactions[t].currency != c.currency ==> Claim(l, c) == (l, ConflictError)
  {
    LatestExactly(l.transactions, c.orderId, false);
  }

  /** A key that a refund has already is answered from that refund: with a conflict if the request differs, else by its status. */
  lemma ReusedKeyExactly(l: Ledger, c: ClaimInput, t: nat, i: nat)
    requires ClaimedOn(l, c.orderId, t) && l.transactions[t].captureId.Some? && l.transactions[t].currency == c.currency
    requires KeysDistinct(l) && i < |l.refunds| && l.refunds[i].key == c.key
    ensures var r := l.refunds[i];
            Claim(l, c) == (l, if r.orderId != c.orderId || r.amount != c.amount || r.currency != c.currency then ConflictError
                               else match r.status
                                    case Failed => StateError
                                    case Completed => AlreadyCompleted(i)
                                    case _ => Resume(i))
  {
    LatestExactly(l.transactions, c.orderId, false);
    KeyFound(l, i);
  }

  lemma KeyFound(l: Ledger, i: nat)
    requires KeysDistinct(l) && i < |l.refunds|
    ensures ByKey(l.refunds, l.refunds[i].key) == Some(i)
  {
    NoneHasKey(l.refunds, l.refunds[i].key);
  }

  /** A new key is granted exactly a positive amount within what the payment has left, and gets a row under way for it. */
  lemma NewKeyExactly(l: Ledger, c: ClaimInput, t: nat)
    requires ClaimedOn(l, c.orderId, t) && l.transactions[t].captureId.Some? && l.transactions[t].currency == c.currency
    requires forall r | r in l.refunds :: r.key != c.key
    ensures var (x, taken) := (l.transactions[t], Sum(l.refunds, t, {Processing, Pending, Completed}));
            Claim(l, c) == if taken + c.amount > x.amount then (l, ConflictError)
                           else if c.amount <= 0 then (l, CheckViolation)
                           else (Ledger(l.orders, l.transactions, l.refunds
                                        + [Refund(t, c.orderId, x.provider, c.amount, c.currency, c.key, None, Processing)]),
                                 ClaimNew(|l.refunds|))
  {
    LatestExactly(l.transactions, c.orderId, false);
    NoneHasKey(l.refunds, c.key);
  }

  // ----- Results and events -----

  /** The payment's status as its completed refunds say. */
  function StatusFor(refunds: seq<Refund>, t: nat, amount: nat): TransactionStatus {
    var done := Sum(refunds, t, {Completed});
    if 0 < done < amount then PartiallyRefunded else if done < amount then Paid else Refunded
  }

  /** A result is recorded on any refund that has not failed, if the provider has not given its id to another; only `completed` looks at the payment. */
  lemma ResultExactly(l: Ledger, i: nat, id: string, status: RefundStatus)
    requires Referenced(l) && (status == Completed || status == Pending)
    ensures var (l', ok) := RecordProviderResult(l, i, id, status);
            && (ok <==> i < |l.refunds| && l.refunds[i].status != Failed
                        && forall j | 0 <= j < |l.refunds| && j != i ::
                             l.refunds[j].providerRefundId != Some(id) || l.refunds[j].provider != l.refunds[i].provider)
            && (!ok ==> l' == l)
            && (ok ==>
                  var t := l.refunds[i].transaction;
                  && t < |l.transactions| && l'.orders == l.orders
                  && l'.refunds == l.refunds[i := l.refunds[i].(providerRefundId := Some(id), status := status)]
                  && l'.transactions == if status == Pending then l.transactions
                                        else l.transactions[t := l.transactions[t].(status := StatusFor(l'.refunds, t, l.transactions[t].amount))])
  {
    if i < |l.refunds| {
      assert l.refunds[i] in l.refunds;
    }
  }

  // ----- Payments -----

  /** A payment of the order that is created or paid, of this provider, id, amount and currency. */
  predicate PaymentFits(x: Transaction, provider: string, paymentId: string, orderId: string, amount: int, currency: string) {
    && x.provider == provider && x.paymentId == paymentId && x.orderId == orderId && x.amount == amount && x.currency == currency
    && (x.status == Created || x.status == Paid)
  }

  /** `ys` is `xs` with the first payment that fits paid now; it keeps the capture id it has. */
  predicate Marks(xs: seq<Transaction>, ys: seq<Transaction>, t: nat, provider: string, paymentId: string, orderId: string,
                  amount: int, currency: string, captureId: Option<string>)
  {
    && t < |xs| && PaymentFits(xs[t], provider, paymentId, orderId, amount, currency)
    && (forall u | 0 <= u < t :: !PaymentFits(xs[u], provider, paymentId, orderId, amount, currency))
    && ys == xs[t := xs[t].(status := Paid, captureId := if xs[t].captureId.Some? then xs[t].captureId else captureId)]
  }

  lemma {:induction false} MarkedExactly(xs: seq<Transaction>, provider: string, paymentId: string, orderId: string, amount: int,
                                         currency: string, captureId: Option<string>)
    ensures var (ys, found) := MarkPaid(xs, provider, paymentId, orderId, amount, currency, captureId);
            && (found <==> exists x :: x in xs && PaymentFits(x, provider, paymentId, orderId, amount, currency))
            && (!found ==> ys == xs)
            && (found ==> exists t: nat :: Marks(xs, ys, t, provider, paymentId, orderId, amount, currency, captureId))
  {
    if xs != [] {
      var (first, rest) := (xs[0], xs[1..]);
      assert first in xs && (forall x | x in xs :: x == first || x in rest) && forall x | x in rest :: x in xs;
      if PaymentFits(first, provider, paymentId, orderId, amount, currency) {
        MarkedFirst(xs, provider, paymentId, orderId, amount, currency, captureId);
      } else {
        MarkedExactly(rest, provider, paymentId, orderId, amount, currency, captureId);
        var (ys, found) := MarkPaid(rest, provider, paymentId, orderId, amount, currency, captureId);
        assert [first] + rest == xs;
        if found {
          var t: nat :| Marks(rest, ys, t, provider, paymentId, orderId, amount, currency, captureId);
          MarkedBehind(xs, ys, t, provider, paymentId, orderId, amount, currency, captureId);
        }
      }
    }
  }

  lemma MarkedFirst(xs: seq<Transaction>, provider: string, paymentId: string, orderId: string, amount: int, currency: string,
                    captureId: Option<string>)
    requires xs != [] && PaymentFits(xs[0], provider, paymentId, orderId, amount, currency)
    ensures var (ys, found) := MarkPaid(xs, provider, paymentId, orderId, amount, currency, captureId);
            found && Marks(xs, ys, 0, provider, paymentId, orderId, amount, currency, captureId)
  {
    var paid := xs[0].(status := Paid, captureId := if xs[0].captureId.Some? then xs[0].captureId else captureId);
    assert [paid] + xs[1..] == xs[0 := paid];
  }

  lemma MarkedBehind(xs: seq<Transaction>, ys: seq<Transaction>, t: nat, provider: string, paymentId: string, orderId: string,
                     amount: int, currency: string, captureId: Option<string>)
    requires xs != [] && !PaymentFits(xs[0], provider, paymentId, orderId, amount, currency)
    requires Marks(xs[1..], ys, t, provider, paymentId, orderId, amount, currency, captureId)
    ensures Marks(xs, [xs[0]] + ys, t + 1, provider, paymentId, orderId, amount, currency, captureId)
  {
    var rest := xs[1..];
    assert rest[t] == xs[t + 1] && forall u | 0 < u <= t :: xs[u] == rest[u - 1];
    assert [xs[0]] + ys == xs[t + 1 := ys[t]];
  }

  /** The amount and currency are the order's, and a payment that fits is there. */
  predicate PaidFits(l: Ledger, provider: string, paymentId: string, orderId: string, amount: int, currency: string) {
    && orderId in l.orders && amount == OrderTotal(l.orders[orderId].lines) && currency == l.orders[orderId].currency
    && exists x :: x in l.transactions && PaymentFits(x, provider, paymentId, orderId, amount, currency)
  }

  /** A paid event is accepted exactly if it fits, and then marks such a payment paid. */
  lemma PaidExactly(l: Ledger, provider: string, paymentId: string, orderId: string, amount: int, currency: string, captureId: Option<string>)
    ensures var (l', ok) := PaidEvent(l, provider, paymentId, orderId, amount, currency, captureId);
            && (ok <==> PaidFits(l, provider, paymentId, orderId, amount, currency))
            && (!ok ==> l' == l)
            && (ok ==> l'.orders == l.orders && l'.refunds == l.refunds
                       && exists t: nat :: Marks(l.transactions, l'.transactions, t, provider, paymentId, orderId, amount, currency, captureId))
  {
    MarkedExactly(l.transactions, provider, paymentId, orderId, amount, currency, captureId);
  }

  /** A new payment is stored as created, unless the provider's payment or the key is known. */
  lemma CreatedExactly(l: Ledger, x: Transaction)
    ensures var known := exists y :: y in l.transactions && y.provider == x.provider && (y.key == x.key || y.paymentId == x.paymentId);
            RecordCreated(l, x)
            == if known then l
               else Ledger(l.orders, l.transactions + [Transaction(x.orderId, x.provider, x.paymentId, x.key, None, x.amount, x.currency, Created)],
                           l.refunds)
  {
    if y :| y in l.transactions && y.provider == x.provider && (y.key == x.key || y.paymentId == x.paymentId) {
      var i :| 0 <= i < |l.transactions| && l.transactions[i] == y;
    }
  }
}
