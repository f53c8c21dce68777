/** The refund summary shown to an operator, and what a claim made from it is answered. */
module RefundQuote {
  import opened Collections
  import opened Refunds
  import opened RefundLaws
  import opened RefundAgreement

  datatype Summary = Summary(amount: nat, currency: string, status: TransactionStatus,
                             refunded: int, reserved: int, refundable: int)

  /** The refunds of a transaction, newest first. */
  function RefundsOf(refunds: seq<Refund>, t: nat): seq<Refund> {
    if refunds == [] then []
    else
      var last := refunds[|refunds| - 1];
      (if last.transaction == t then [last] else []) + RefundsOf(refunds[..|refunds| - 1], t)
  }

  function Filter(rows: seq<Refund>, statuses: set<RefundStatus>): seq<Refund> {
    if rows == [] then []
    else (if rows[0].status in statuses then [rows[0]] else []) + Filter(rows[1..], statuses)
  }

  function Reduce(rows: seq<Refund>, total: int): int {
    if rows == [] then total else Reduce(rows[1..], total + rows[0].amount)
  }

  function BuildSummary(x: Transaction, rows: seq<Refund>): Summary {
    var reserved := Reduce(Filter(rows, ACTIVE), 0);
    Summary(x.amount, x.currency, x.status, Reduce(Filter(rows, DONE), 0), reserved,
            if x.amount - reserved > 0 then x.amount - reserved else 0)
  }

  /** The summary also looks at fully refunded transactions, which a claim does not. */
  function OrderSummary(l: Ledger, orderId: string): Option<Summary> {
    match Latest(l.transactions, orderId, true)
    case Some(t) => Some(BuildSummary(l.transactions[t], RefundsOf(l.refunds, t)))
    case None => None
  }

  lemma {:induction false} ReduceFrom(rows: seq<Refund>, total: int)
    ensures Reduce(rows, total) == Reduce(rows, 0) + total
  {
    if rows != [] {
      ReduceFrom(rows[1..], total + rows[0].amount);
      ReduceFrom(rows[1..], rows[0].amount);
    }
  }

  lemma FilterFirst(r: Refund, rows: seq<Refund>, statuses: set<RefundStatus>)
    ensures Reduce(Filter([r] + rows, statuses), 0)
            == Reduce(Filter(rows, statuses), 0) + if r.status in statuses then r.amount else 0
  {
    var rest := Filter(rows, statuses);
    assert ([r] + rows)[1..] == rows;
    if r.status in statuses {
      assert Filter([r] + rows, statuses) == [r] + rest && ([r] + rest)[1..] == rest;
      ReduceFrom(rest, r.amount);
    } else {
      assert Filter([r] + rows, statuses) == rest;
    }
  }

  /** The totals built from the selected rows are those the claim and the recalculation query for. */
  lemma {:induction false} SummaryTotals(refunds: seq<Refund>, t: nat, statuses: set<RefundStatus>)
    ensures Reduce(Filter(RefundsOf(refunds, t), statuses), 0) == Sum(refunds, t, statuses)
  {
    if refunds != [] {
      var last := |refunds| - 1;
      SummaryTotals(refunds[..last], t, statuses);
      if refunds[last].transaction == t {
        FilterFirst(refunds[last], RefundsOf(refunds[..last], t), statuses);
      } else {
        assert RefundsOf(refunds, t) == RefundsOf(refunds[..last], t);
      }
    }
  }

  lemma {:induction false} LatestClaimable(xs: seq<Transaction>, orderId: string)
    ensures var t := Latest(xs, orderId, true);
            (t.Some? && xs[t.value].Claimable()) ==> Latest(xs, orderId, false) == t
    ensures Latest(xs, orderId, false).Some? ==> Latest(xs, orderId, true).Some?
  {
    if xs != [] {
      LatestClaimable(xs[..|xs| - 1], orderId);
    }
  }

  /** A claim with a fresh key in the quoted currency is accepted exactly for the positive amounts up to the quote. */
  ghost predicate QuoteExact(l: Ledger, orderId: string, key: string, s: Summary) {
    forall amount: int :: Claim(l, ClaimInput(orderId, amount, s.currency, key)).1.ClaimNew? <==> 0 < amount <= s.refundable
  }

  /** What a fresh claim is admitted up to. */
  function Room(l: Ledger, orderId: string, currency: string): int {
    var latest := Latest(l.transactions, orderId, false);
    if latest.None? || l.transactions[latest.value].captureId.None? || l.transactions[latest.value].currency != currency then 0
    else l.transactions[latest.value].amount - Sum(l.refunds, latest.value, ACTIVE)
  }

  lemma RoomIsClaimed(l: Ledger, orderId: string, key: string, currency: string, amount: int)
    requires ByKey(l.refunds, key) == None
    ensures Claim(l, ClaimInput(orderId, amount, currency, key)).1.ClaimNew? <==> 0 < amount <= Room(l, orderId, currency)
  {
  }

  lemma ExactExactly(l: Ledger, orderId: string, key: string, s: Summary)
    requires ByKey(l.refunds, key) == None && s.refundable >= 0 && Room(l, orderId, s.currency) >= 0
    ensures QuoteExact(l, orderId, key, s) <==> Room(l, orderId, s.currency) == s.refundable
  {
    forall amount: int
      ensures Claim(l, ClaimInput(orderId, amount, s.currency, key)).1.ClaimNew? <==> 0 < amount <= Room(l, orderId, s.currency)
    {
      RoomIsClaimed(l, orderId, key, s.currency, amount);
    }
    var room := Room(l, orderId, s.currency);
    if room != s.refundable {
      var amount := if room > s.refundable then room else s.refundable;
      assert !(Claim(l, ClaimInput(orderId, amount, s.currency, key)).1.ClaimNew? <==> 0 < amount <= s.refundable);
    }
  }

  /** The quote of a claimable payment never needs its floor, and is exact but for payments without capture id, which take no refund. */
  lemma QuoteExactly(l: Ledger, orderId: string, key: string)
    requires Sane(l) && Capped(l) && ByKey(l.refunds, key) == None
    requires var t := Latest(l.transactions, orderId, true); t.Some? && l.transactions[t.value].Claimable()
    ensures var x, s := l.transactions[Latest(l.transactions, orderId, true).value], OrderSummary(l, orderId).value;
            && 0 <= s.refunded <= s.reserved && s.refundable == x.amount - s.reserved
            && (QuoteExact(l, orderId, key, s) <==> x.captureId.Some? || s.refundable == 0)
  {
    var t := Latest(l.transactions, orderId, true).value;
    var s := OrderSummary(l, orderId).value;
    SummaryTotals(l.refunds, t, ACTIVE);
    SummaryTotals(l.refunds, t, DONE);
    SumBounds(l.refunds, t);
    LatestClaimable(l.transactions, orderId);
    assert Sum(l.refunds, t, ACTIVE) <= l.transactions[t].amount;
    ExactExactly(l, orderId, key, s);
  }

  /** Once the latest payment is refunded the quote is zero; that is wrong exactly when an older payment still has room. */
  lemma RefundedQuoteExactly(l: Ledger, orderId: string, key: string)
    requires Sane(l) && Capped(l) && Agrees(l) && ByKey(l.refunds, key) == None
    requires var t := Latest(l.transactions, orderId, true);
             t.Some? && l.transactions[t.value].status == Refunded && l.transactions[t.value].amount > 0
    ensures var s, older := OrderSummary(l, orderId).value, Latest(l.transactions, orderId, false);
            && s.refundable == 0 && s.reserved == s.amount
            && (QuoteExact(l, orderId, key, s) <==>
                older.None? || l.transactions[older.value].captureId.None?
                || l.transactions[older.value].amount == Sum(l.refunds, older.value, ACTIVE))
  {
    var t := Latest(l.transactions, orderId, true).value;
    var s := OrderSummary(l, orderId).value;
    SummaryTotals(l.refunds, t, ACTIVE);
    SumBounds(l.refunds, t);
    assert AgreesAt(l, t) && Sum(l.refunds, t, ACTIVE) <= l.transactions[t].amount;
    var older := Latest(l.transactions, orderId, false);
    if older.Some? {
      assert Sum(l.refunds, older.value, ACTIVE) <= l.transactions[older.value].amount;
      assert l.transactions[older.value] in l.transactions && l.transactions[t] in l.transactions;
    }
    ExactExactly(l, orderId, key, s);
  }

  /**
   * On any ledger the summary is of the order's last captured payment, with what is refunded, what is reserved and what is left,
   * which is never shown negative.
   */
  lemma SummaryExactly(l: Ledger, orderId: string)
    ensures var (t, s) := (Latest(l.transactions, orderId, true), OrderSummary(l, orderId));
            && (s.Some? <==> t.Some?)
            && (t.Some? ==>
                  var (x, reserved) := (l.transactions[t.value], Sum(l.refunds, t.value, {Processing, Pending, Completed}));
                  s == Some(Summary(x.amount, x.currency, x.status, Sum(l.refunds, t.value, {Completed}), reserved,
                                    if reserved < x.amount then x.amount - reserved else 0)))
  {
    if Latest(l.transactions, orderId, true).Some? {
      SummaryTotals(l.refunds, Latest(l.transactions, orderId, true).value, ACTIVE);
      SummaryTotals(l.refunds, Latest(l.transactions, orderId, true).value, DONE);
    }
  }

  // ----- One refund per key -----

  ghost predicate KeysDistinct(l: Ledger) {
    forall i, j | 0 <= i < j < |l.refunds| :: l.refunds[i].key != l.refunds[j].key
  }

  lemma {:induction false} NoneHasKey(refunds: seq<Refund>, key: string)
    ensures ByKey(refunds, key) == None <==> forall r | r in refunds :: r.key != key
  {
    if refunds != [] {
      var last := |refunds| - 1;
      NoneHasKey(refunds[..last], key);
      assert refunds == refunds[..last] + [refunds[last]];
    }
  }

  /** Whatever is retried or replayed, an idempotency key names at most one refund row, and a row keeps its payment, amount and key. */
  lemma {:induction false} OneRefundPerKey(l: Ledger, es: seq<Event>)
    requires Sane(l) && KeysDistinct(l) && forall e | e in es :: WellFormed(e)
    ensures var e := Run(l, es);
            && KeysDistinct(e) && |l.refunds| <= |e.refunds|
            && forall i | 0 <= i < |l.refunds| ::
                 e.refunds[i] == l.refunds[i].(status := e.refunds[i].status, providerRefundId := e.refunds[i].providerRefundId)
    decreases |es|
  {
    if es != [] {
      SaneStep(l, es[0]);
      RefundsStep(l, es[0]);
      KeysStep(l, es[0]);
      OneRefundPerKey(Step(l, es[0]), es[1..]);
    }
  }

  lemma SameKeys(l: Ledger, l': Ledger)
    requires KeysDistinct(l) && |l'.refunds| == |l.refunds| && forall i | 0 <= i < |l.refunds| :: l'.refunds[i].key == l.refunds[i].key
    ensures KeysDistinct(l')
  {
  }

  lemma OneMoreKey(l: Ledger, r: Refund)
    requires KeysDistinct(l) && forall x | x in l.refunds :: x.key != r.key
    ensures KeysDistinct(l.(refunds := l.refunds + [r]))
  {
  }

  lemma ClaimKeys(l: Ledger, input: ClaimInput)
    requires KeysDistinct(l)
    ensures KeysDistinct(Claim(l, input).0)
  {
    NoneHasKey(l.refunds, input.key);
    var l' := Claim(l, input).0;
    if l' != l {
      OneMoreKey(l, l'.refunds[|l.refunds|]);
    }
  }

  lemma KeysStep(l: Ledger, e: Event)
    requires Sane(l) && KeysDistinct(l) && WellFormed(e)
    ensures KeysDistinct(Step(l, e))
  {
    if e.ClaimRefund? {
      ClaimKeys(l, e.input);
    } else {
      RefundsStep(l, e);
      RefundRows(l, e);
      SameKeys(l, Step(l, e));
    }
  }
}
