/** The order row's three statuses and the transitions the order service lets through. */
module OrderState {

  datatype OrderStatus = PendingPayment | Paid | OrderCancelled | Compensating
  datatype PaymentStatus = MockCreated | PaymentPaid | PaymentCancelled
  datatype InventoryStatus = StockReserved | StockConfirmed | StockCancelled | CompensationPending

  datatype State = State(status: OrderStatus, payment: PaymentStatus, inventory: InventoryStatus)

  datatype Action = ConfirmPayment | CancelPayment

  const CREATED := State(PendingPayment, MockCreated, StockReserved)

  function Desired(action: Action): State {
    match action
    case ConfirmPayment => State(Paid, PaymentPaid, StockConfirmed)
    case CancelPayment => State(OrderCancelled, PaymentCancelled, StockCancelled)
  }

  /** What a run leaves behind when at least one inventory call was not acknowledged. */
  function AwaitingCompensation(action: Action): State {
    State(Compensating, Desired(action).payment, CompensationPending)
  }

  predicate IsFinal(s: State, action: Action) {
    s == Desired(action)
  }

  predicate IsException(s: State) {
    s.status == Compensating || s.inventory == CompensationPending
  }

  predicate AllowedTransition(current: State, next: State) {
    if current == next then true
    else if current.status == PendingPayment || current.status == Compensating then
      || (next.status == Paid && next.payment == PaymentPaid && next.inventory == StockConfirmed)
      || (next.status == OrderCancelled && next.payment == PaymentCancelled && next.inventory == StockCancelled)
      || (next.status == Compensating && next.inventory == CompensationPending)
    else false
  }

  /** From an open or compensating order only to paid, to cancelled or to compensation, each with all three statuses in step. */
  lemma AllowedExactly(current: State, next: State)
    requires current != next
    ensures AllowedTransition(current, next)
            <==> (current.status == PendingPayment || current.status == Compensating)
                 && (next == State(Paid, PaymentPaid, StockConfirmed)
                     || next == State(OrderCancelled, PaymentCancelled, StockCancelled)
                     || next == State(Compensating, next.payment, CompensationPending))
  {
  }
}
