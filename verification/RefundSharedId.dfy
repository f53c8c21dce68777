/** One provider refund id handed out by two providers: a run in which the unique index is content and the ledger goes wrong. */
module RefundSharedId {
  import opened Collections
  import opened Refunds
  import opened RefundLaws
  import opened RefundAgreement
  import opened RefundStore

  const ORDERS := map["o" := OrderRow([OrderLine(100, 1)], "USD")]

  const MOCK := Transaction("o", "mock", "m", "k", None, 100, "USD", Created)
  const PAYPAL := Transaction("o", "paypal", "p", "k", None, 100, "USD", Created)

  /** The mock payment: a first refund fails under id "X", and a second one is under way. */
  const PAY: seq<Event> := [CreatePayment(MOCK), PaymentPaid("mock", "m", "o", 100, "USD", Some("d"))]
  const ASK: seq<Event> := [ClaimRefund(ClaimInput("o", 100, "USD", "b"))]
  const WAIT: seq<Event> := [ProviderResult(0, "X", false)]
  const FAIL: seq<Event> := [ProviderEvent(0, "X", Failed, 100, "USD")]
  const ASK_AGAIN: seq<Event> := [ClaimRefund(ClaimInput("o", 100, "USD", "c"))]

  /** Then a second payment of the order, whose refund gets the same id from the other provider. */
  const PAY_AGAIN: seq<Event> := [CreatePayment(PAYPAL), PaymentPaid("paypal", "p", "o", 100, "USD", Some("c"))]
  const ASK_OTHER: seq<Event> := [ClaimRefund(ClaimInput("o", 100, "USD", "a"))]
  const WAIT_OTHER: seq<Event> := [ProviderResult(2, "X", false)]

  const START := Ledger(ORDERS, [], [])
  const PAID := START.(transactions := [MOCK.(captureId := Some("d"), status := Paid)])
  const FIRST := Refund(0, "o", "mock", 100, "USD", "b", None, Processing)
  const FAILED := FIRST.(providerRefundId := Some("X"), status := Failed)
  const RETRY := Refund(0, "o", "mock", 100, "USD", "c", None, Processing)
  const OTHER := Refund(1, "o", "paypal", 100, "USD", "a", None, Processing)
  const TWICE_PAID := PAID.(transactions := [MOCK.(captureId := Some("d"), status := Paid),
                                             PAYPAL.(captureId := Some("c"), status := Paid)])

  const SHARED: Ledger := TWICE_PAID.(refunds := [FAILED, RETRY, OTHER.(providerRefundId := Some("X"), status := Pending)])

  lemma OneLineTotal()
    ensures OrderTotal([OrderLine(100, 1)]) == 100
  {
    assert [OrderLine(100, 1)][..0] == [];
  }

  lemma OneRefund(r: Refund, t: nat, statuses: set<RefundStatus>)
    ensures Sum([r], t, statuses) == Weight(r, t, statuses) && Sum([], t, statuses) == 0
  {
    assert [] + [r] == [r];
    SumAppend([], r, t, statuses);
  }

  lemma TwoRefunds(a: Refund, b: Refund, t: nat, statuses: set<RefundStatus>)
    ensures Sum([a, b], t, statuses) == Weight(a, t, statuses) + Weight(b, t, statuses)
  {
    assert [a] + [b] == [a, b];
    SumAppend([a], b, t, statuses);
    OneRefund(a, t, statuses);
  }

  lemma ThreeRefunds(a: Refund, b: Refund, c: Refund, t: nat, statuses: set<RefundStatus>)
    ensures Sum([a, b, c], t, statuses) == Weight(a, t, statuses) + Weight(b, t, statuses) + Weight(c, t, statuses)
  {
    assert [a, b] + [c] == [a, b, c];
    SumAppend([a, b], c, t, statuses);
    TwoRefunds(a, b, t, statuses);
  }

  lemma Paying()
    ensures Run(START, PAY) == PAID
  {
    OneLineTotal();
    RunTwo(START, PAY[0], PAY[1]);
    assert Step(START, PAY[0]) == START.(transactions := [MOCK]);
  }

  lemma Asking()
    ensures Run(PAID, ASK) == PAID.(refunds := [FIRST])
  {
    RunFirst(PAID, ASK[0], []);
    assert ASK == [ASK[0]] + [];
    assert Sum([], 0, ACTIVE) == 0;
  }

  lemma Waiting()
    ensures Run(PAID.(refunds := [FIRST]), WAIT) == PAID.(refunds := [FAILED.(status := Pending)])
  {
    RunFirst(PAID.(refunds := [FIRST]), WAIT[0], []);
    assert WAIT == [WAIT[0]] + [];
  }

  lemma Failing()
    ensures Run(PAID.(refunds := [FAILED.(status := Pending)]), FAIL) == PAID.(refunds := [FAILED])
  {
    var l := PAID.(refunds := [FAILED.(status := Pending)]);
    RunFirst(l, FAIL[0], []);
    assert FAIL == [FAIL[0]] + [];
    WithStatusRows(l.refunds, "X", Failed);
    assert WithStatus(l.refunds, "X", Failed) == [FAILED];
    OneRefund(FAILED, 0, DONE);
    assert l.transactions[0 := l.transactions[0].(status := Paid)] == l.transactions;
    assert Step(l, FAIL[0]) == PAID.(refunds := [FAILED]);
  }

  lemma AskingAgain()
    ensures Run(PAID.(refunds := [FAILED]), ASK_AGAIN) == PAID.(refunds := [FAILED, RETRY])
  {
    RunFirst(PAID.(refunds := [FAILED]), ASK_AGAIN[0], []);
    assert ASK_AGAIN == [ASK_AGAIN[0]] + [];
    OneRefund(FAILED, 0, ACTIVE);
    assert ByKey([FAILED], "c") == None by { assert [FAILED][..0] == []; }
  }

  lemma PayingAgain()
    ensures Run(PAID.(refunds := [FAILED, RETRY]), PAY_AGAIN) == TWICE_PAID.(refunds := [FAILED, RETRY])
  {
    OneLineTotal();
    var l := PAID.(refunds := [FAILED, RETRY]);
    assert forall r | r in l.refunds :: r.transaction == 0;
    RunTwo(l, PAY_AGAIN[0], PAY_AGAIN[1]);
    var created := Step(l, PAY_AGAIN[0]);
    assert created == l.(transactions := l.transactions + [PAYPAL]);
    assert created.transactions[1..] == [PAYPAL];
    assert MarkPaid([PAYPAL], "paypal", "p", "o", 100, "USD", Some("c")).0 == [TWICE_PAID.transactions[1]];
    assert MarkPaid(created.transactions, "paypal", "p", "o", 100, "USD", Some("c")).0 == TWICE_PAID.transactions;
  }

  lemma AskingOther()
    ensures Run(TWICE_PAID.(refunds := [FAILED, RETRY]), ASK_OTHER) == TWICE_PAID.(refunds := [FAILED, RETRY, OTHER])
  {
    var l := TWICE_PAID.(refunds := [FAILED, RETRY]);
    assert forall r | r in l.refunds :: r.transaction == 0;
    RunFirst(l, ASK_OTHER[0], []);
    assert ASK_OTHER == [ASK_OTHER[0]] + [];
    TwoRefunds(FAILED, RETRY, 1, ACTIVE);
    assert ByKey([FAILED, RETRY], "a") == None by {
      assert [FAILED, RETRY][..1] == [FAILED] && [FAILED][..0] == [];
    }
  }

  lemma WaitingOther()
    ensures Run(TWICE_PAID.(refunds := [FAILED, RETRY, OTHER]), WAIT_OTHER) == SHARED
  {
    var l := TWICE_PAID.(refunds := [FAILED, RETRY, OTHER]);
    assert forall r | r in l.refunds :: r.transaction <= 1;
    RunFirst(l, WAIT_OTHER[0], []);
    assert WAIT_OTHER == [WAIT_OTHER[0]] + [];
    assert IndexAllows(l.refunds, 2, "X");
  }

  lemma {:induction false} RunAppend(l: Ledger, es: seq<Event>, fs: seq<Event>)
    requires Referenced(l) && (forall e | e in es :: WellFormed(e)) && forall e | e in fs :: WellFormed(e)
    ensures Referenced(Run(l, es)) && Run(l, es + fs) == Run(Run(l, es), fs)
    decreases |es|
  {
    if es == [] {
      assert es + fs == fs;
    } else {
      assert (es + fs)[1..] == es[1..] + fs;
      RunAppend(Step(l, es[0]), es[1..], fs);
    }
  }

  lemma SharedPrefix()
    ensures Run(START, PAY + ASK + WAIT + FAIL) == PAID.(refunds := [FAILED])
  {
    Paying();
    Asking();
    Waiting();
    Failing();
    RunAppend(START, PAY, ASK);
    RunAppend(START, PAY + ASK, WAIT);
    RunAppend(START, PAY + ASK + WAIT, FAIL);
  }

  lemma SharedLonger()
    ensures Run(START, PAY + ASK + WAIT + FAIL + ASK_AGAIN + PAY_AGAIN) == TWICE_PAID.(refunds := [FAILED, RETRY])
  {
    SharedPrefix();
    AskingAgain();
    PayingAgain();
    RunAppend(START, PAY + ASK + WAIT + FAIL, ASK_AGAIN);
    RunAppend(START, PAY + ASK + WAIT + FAIL + ASK_AGAIN, PAY_AGAIN);
  }

  lemma SharedAsked()
    ensures Run(START, PAY + ASK + WAIT + FAIL + ASK_AGAIN + PAY_AGAIN + ASK_OTHER) == TWICE_PAID.(refunds := [FAILED, RETRY, OTHER])
  {
    SharedLonger();
    AskingOther();
    RunAppend(START, PAY + ASK + WAIT + FAIL + ASK_AGAIN + PAY_AGAIN, ASK_OTHER);
  }

  /** The ledger is reached from an empty one: both providers hand out the id, and the unique index admits it. */
  lemma SharedIsReached()
    ensures Run(START, PAY + ASK + WAIT + FAIL + ASK_AGAIN + PAY_AGAIN + ASK_OTHER + WAIT_OTHER) == SHARED
  {
    SharedAsked();
    WaitingOther();
    RunAppend(START, PAY + ASK + WAIT + FAIL + ASK_AGAIN + PAY_AGAIN + ASK_OTHER, WAIT_OTHER);
  }

  lemma SharedTotals(t: nat, statuses: set<RefundStatus>)
    ensures var rs := SHARED.refunds;
            Sum(rs, t, statuses) == Weight(rs[0], t, statuses) + Weight(rs[1], t, statuses) + Weight(rs[2], t, statuses)
    ensures var ws := WithStatus(SHARED.refunds, "X", Completed);
            |ws| == 3 && Sum(ws, t, statuses) == Weight(ws[0], t, statuses) + Weight(ws[1], t, statuses) + Weight(ws[2], t, statuses)
  {
    var (rs, ws) := (SHARED.refunds, WithStatus(SHARED.refunds, "X", Completed));
    ThreeRefunds(rs[0], rs[1], rs[2], t, statuses);
    assert ws == [ws[0], ws[1], ws[2]];
    ThreeRefunds(ws[0], ws[1], ws[2], t, statuses);
  }

  const EVENT := ProviderEvent(2, "X", Completed, 100, "USD")

  lemma SharedBefore()
    ensures Referenced(SHARED) && Capped(SHARED) && Agrees(SHARED)
            && Sum(SHARED.refunds, 0, DONE) == 0 && Sum(SHARED.refunds, 0, ACTIVE) == 100
  {
    forall t: nat ensures Sum(SHARED.refunds, t, ACTIVE) == Weight(SHARED.refunds[0], t, ACTIVE)
                                                            + Weight(SHARED.refunds[1], t, ACTIVE) + Weight(SHARED.refunds[2], t, ACTIVE)
    {
      SharedTotals(t, ACTIVE);
    }
    forall t | 0 <= t < |SHARED.transactions| ensures AgreesAt(SHARED, t) {
      SharedTotals(t, DONE);
    }
    SharedTotals(0, DONE);
  }

  lemma SharedAfter()
    ensures var ws := WithStatus(SHARED.refunds, "X", Completed);
            Sum(ws, 0, ACTIVE) == 200 && Sum(ws, 0, DONE) == 100
    ensures FailedUnder(SHARED.refunds, "X", 0) == 100 && Shift(SHARED.refunds, "X", Completed, 0) == 100
  {
    WithStatusRows(SHARED.refunds, "X", Completed);
    SharedTotals(0, ACTIVE);
    SharedTotals(0, DONE);
    SumShifted(SHARED.refunds, "X", Completed, 0);
    SumRevived(SHARED.refunds, "X", Completed, 0);
  }

  /**
   * The completion of the one refund brings the failed one of the other provider back: that payment of 100 now has 200
   * refunded or under way, and its status still says that nothing was.
   */
  lemma SharedIdBreaksCap()
    ensures Referenced(SHARED) && WellFormed(EVENT) && Capped(SHARED) && Agrees(SHARED)
    ensures !Fits(SHARED, EVENT) && Misleads(SHARED, EVENT)
    ensures Sum(Step(SHARED, EVENT).refunds, 0, ACTIVE) == 200 && Step(SHARED, EVENT).transactions[0].status == Paid
  {
    SharedBefore();
    SharedAfter();
    assert Applies(SHARED, EVENT) && Step(SHARED, EVENT).refunds == WithStatus(SHARED.refunds, "X", Completed);
    assert MisleadsAt(SHARED, EVENT, 0);
    assert Sum(SHARED.refunds, 0, ACTIVE) + FailedUnder(SHARED.refunds, "X", 0) == 200;
  }
}
