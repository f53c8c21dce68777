/** The repositories of payments and refunds as classes, and a whole refund request against them. */
module RefundStore {
  import opened Collections
  import opened Refunds
  import opened RefundLaws

  /** What the payment provider answers. */
  datatype ProviderOutcome = NoAnswer | Rejected | Answered(id: string, completed: bool)

  datatype RefundReply = Refused(why: ClaimReply) | ProviderNotEnabled | ProviderFailed | NotResumable
                       | Done(refund: nat, completed: bool)

  /** The ledger steps of one refund request. */
  function RequestEvents(l: Ledger, input: ClaimInput, enabled: string, outcome: ProviderOutcome): seq<Event> {
    var (claimed, claim) := Claim(l, input);
    if (claim.ClaimNew? || claim.Resume?) && claim.refund < |claimed.refunds|
       && claimed.refunds[claim.refund].provider == enabled && outcome.Answered?
    then [ClaimRefund(input), ProviderResult(claim.refund, outcome.id, outcome.completed)]
    else [ClaimRefund(input)]
  }

  /** What becomes of a claimed refund: the provider's answer is recorded, if it may be, for a provider that is enabled. */
  function AnswerReply(l: Ledger, i: nat, enabled: string, outcome: ProviderOutcome): RefundReply
    requires Referenced(l) && i < |l.refunds|
  {
    if l.refunds[i].provider != enabled then ProviderNotEnabled
    else
      match outcome
      case NoAnswer => ProviderFailed
      case Rejected => ProviderFailed
      case Answered(id, completed) =>
        if RecordProviderResult(l, i, id, if completed then Completed else Pending).1 then Done(i, completed) else NotResumable
  }

  lemma RunFirst(l: Ledger, e: Event, es: seq<Event>)
    requires Referenced(l) && WellFormed(e) && forall x | x in es :: WellFormed(x)
    ensures Run(l, [e] + es) == Run(Step(l, e), es)
  {
  }

  lemma RunTwo(l: Ledger, e: Event, f: Event)
    requires Referenced(l) && WellFormed(e) && WellFormed(f)
    ensures Run(l, [e]) == Step(l, e) && Run(l, [e, f]) == Step(Step(l, e), f)
  {
    RunFirst(l, e, []);
    RunFirst(l, e, [f]);
    RunFirst(Step(l, e), f, []);
    assert [e] + [f] == [e, f] && [e] + [] == [e] && [f] + [] == [f];
  }

  /** Each method is one transaction; an error leaves the rows as they were. */
  class PaymentRepository {
    const orders: map<string, OrderRow>
    var transactions: seq<Transaction>
    var refunds: seq<Refund>

    ghost function View(): Ledger
      reads this
    {
      Ledger(orders, transactions, refunds)
    }

    method RecordTransaction(x: Transaction) returns (inserted: bool)
      modifies this`transactions
      ensures View() == RecordCreated(old(View()), x)
      ensures inserted <==> transactions != old(transactions)
    {
      if exists i :: 0 <= i < |transactions| && transactions[i].provider == x.provider
                     && (transactions[i].key == x.key || transactions[i].paymentId == x.paymentId) {
        return false;
      }
      transactions := transactions + [x.(status := Created, captureId := None)];
      return true;
    }

    method CompletePayment(provider: string, paymentId: string, orderId: string, amount: int, currency: string,
                           captureId: Option<string>) returns (ok: bool)
      modifies this`transactions
      ensures (View(), ok) == PaidEvent(old(View()), provider, paymentId, orderId, amount, currency, captureId)
    {
      if orderId !in orders || OrderTotal(orders[orderId].lines) != amount || orders[orderId].currency != currency {
        return false;
      }
      var marked := MarkPaid(transactions, provider, paymentId, orderId, amount, currency, captureId);
      transactions := marked.0;
      return marked.1;
    }

    method ClaimRow(input: ClaimInput) returns (reply: ClaimReply)
      modifies this`refunds
      ensures (View(), reply) == Claim(old(View()), input)
    {
      var latest := Latest(transactions, input.orderId, false);
      if latest.None? || transactions[latest.value].captureId.None? {
        return StateError;
      }
      var transaction := transactions[latest.value];
      if transaction.currency != input.currency {
        return ConflictError;
      }
      var existing := ByKey(refunds, input.key);
      if existing.Some? {
        var refund := refunds[existing.value];
        if refund.orderId != input.orderId || refund.amount != input.amount || refund.currency != input.currency {
          return ConflictError;
        }
        if refund.status == Failed {
          return StateError;
        }
        return if refund.status == Completed then AlreadyCompleted(existing.value) else Resume(existing.value);
      }
      var reserved := Sum(refunds, latest.value, ACTIVE);
      if input.amount > transaction.amount - reserved {
        return ConflictError;
      }
      if input.amount <= 0 {
        return CheckViolation;
      }
      refunds := refunds + [Refund(latest.value, input.orderId, transaction.provider, input.amount, input.currency,
                                   input.key, None, Processing)];
      return ClaimNew(|refunds| - 1);
    }

    method RecalculateTransactionRefundStatus(t: nat)
      requires t < |transactions|
      modifies this`transactions
      ensures View() == Recalculated(old(View()), t)
    {
      var total := Sum(refunds, t, DONE);
      var status := if total >= transactions[t].amount then Refunded else if total > 0 then PartiallyRefunded else Paid;
      transactions := transactions[t := transactions[t].(status := status)];
    }

    method RecordResult(i: nat, id: string, status: RefundStatus) returns (ok: bool)
      requires status == Completed || status == Pending
      requires Referenced(View())
      modifies this
      ensures (View(), ok) == RecordProviderResult(old(View()), i, id, status)
    {
      if i >= |refunds| || refunds[i].status == Failed || !IndexAllows(refunds, i, id) {
        return false;
      }
      assert refunds[i] in refunds;
      refunds := refunds[i := refunds[i].(providerRefundId := Some(id), status := status)];
      if status == Completed {
        RecalculateTransactionRefundStatus(refunds[i].transaction);
      }
      return true;
    }

    method ApplyEvent(pick: nat, id: string, status: RefundStatus, amount: int, currency: string) returns (ok: bool)
      requires status != Processing
      requires Referenced(View())
      modifies this
      ensures (View(), ok) == ApplyProviderEvent(old(View()), pick, id, status, amount, currency)
    {
      if pick >= |refunds| || refunds[pick].providerRefundId != Some(id) {
        return false;
      }
      var refund := refunds[pick];
      if refund.amount != amount || refund.currency != currency {
        return false;
      }
      var decision := DecideProviderRefundTransition(refund.status, status);
      if decision == Conflict {
        return false;
      }
      if decision == Apply {
        assert refund in refunds;
        refunds := WithStatus(refunds, id, status);
        RecalculateTransactionRefundStatus(refund.transaction);
      }
      return true;
    }

    /** One refund request: claim, call the provider, record its answer. Whatever happens, it is a run of the ledger. */
    method ProcessPaymentRefund(input: ClaimInput, enabled: string, outcome: ProviderOutcome) returns (reply: RefundReply)
      requires Referenced(View())
      modifies this
      ensures View() == Run(old(View()), RequestEvents(old(View()), input, enabled, outcome))
      ensures Step(old(View()), ClaimRefund(input)) == Claim(old(View()), input).0
      ensures match Claim(old(View()), input).1
              case ClaimNew(i) => i < |Claim(old(View()), input).0.refunds| && reply == AnswerReply(Claim(old(View()), input).0, i, enabled, outcome)
              case Resume(i) => i < |Claim(old(View()), input).0.refunds| && reply == AnswerReply(Claim(old(View()), input).0, i, enabled, outcome)
              case AlreadyCompleted(i) => reply == Done(i, true)
              case refusal => reply == Refused(refusal)
      ensures reply.Done? ==>
                && reply.refund < |refunds| && refunds[reply.refund].key == input.key
                && refunds[reply.refund].amount == input.amount && refunds[reply.refund].orderId == input.orderId
                && refunds[reply.refund].status == if reply.completed then Completed else Pending
    {
      ghost var start := View();
      var claim := ClaimRow(input);
      RunTwo(start, ClaimRefund(input), ProviderResult(if claim.Ok() then claim.refund else 0,
                                                       if outcome.Answered? then outcome.id else "",
                                                       outcome.Answered? && outcome.completed));
      if !claim.Ok() {
        return Refused(claim);
      }
      if claim.AlreadyCompleted? {
        return Done(claim.refund, true);
      }
      assert Referenced(Step(start, ClaimRefund(input)));
      reply := RecordAnswer(claim.refund, enabled, outcome);
    }

    /** The provider call of a claimed refund and the record of its answer. */
    method RecordAnswer(i: nat, enabled: string, outcome: ProviderOutcome) returns (reply: RefundReply)
      requires Referenced(View()) && i < |refunds|
      modifies this
      ensures var e := ProviderResult(i, if outcome.Answered? then outcome.id else "", outcome.Answered? && outcome.completed);
              View() == if old(refunds)[i].provider == enabled && outcome.Answered? then Step(old(View()), e) else old(View())
      ensures |refunds| == |old(refunds)| && reply == AnswerReply(old(View()), i, enabled, outcome)
      ensures reply.Done? ==>
                && reply.refund == i && outcome.Answered? && reply.completed == outcome.completed
                && refunds[i].key == old(refunds)[i].key && refunds[i].amount == old(refunds)[i].amount
                && refunds[i].orderId == old(refunds)[i].orderId
                && refunds[i].status == if reply.completed then Completed else Pending
    {
      if refunds[i].provider != enabled {
        return ProviderNotEnabled;
      }
      if !outcome.Answered? {
        return ProviderFailed;
      }
      var ok := RecordResult(i, outcome.id, if outcome.completed then Completed else Pending);
      return if ok then Done(i, outcome.completed) else NotResumable;
    }
  }
}
