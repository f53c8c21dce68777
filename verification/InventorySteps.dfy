/** What each request to the inventory is answered and what it writes, told from the quantities it finds. */
module InventorySteps {
  import opened Collections
  import opened Inventory
  import opened InventoryTables

  /** The key has a reservation of the same SKU, warehouse and quantity; without a warehouse the default one is meant. */
  predicate SameRequest(r: Reservation, q: Request) {
    && r.at.sku == q.sku && r.qty == q.qty
    && r.at.warehouse == (if q.warehouse.Some? then q.warehouse.value else "00000000-0000-4000-8000-000000003001")
  }

  /** The stock with the item in place, created in memory if it was missing. */
  function WithItem(s: Stock, k: ItemKey): Stock {
    if k in s.items then s else Stock(s.storage, s.blank, s.items[k := s.blank], s.reservations)
  }

  /** A key that is taken is answered from its reservation, and nothing is reserved again. */
  lemma RepeatedTryExactly(s: Stock, q: Request, at: ItemKey)
    requires q.key in s.reservations
    ensures var r := s.reservations[q.key];
            TryReserve(s, q, at)
            == if !SameRequest(r, q) then Outcome(s, KeyConflict)
               else if r.at !in s.items && s.storage == Postgres then Outcome(s, NotFound)
               else Outcome(WithItem(s, r.at), Accepted(r, s.Lookup(r.at)))
  {
  }

  /** A new key is granted exactly what is left above the reserved and safety quantities, and that much is reserved. */
  lemma NewTryExactly(s: Stock, q: Request, at: ItemKey)
    requires q.key !in s.reservations && (s.storage == Postgres ==> at in s.items)
    ensures var was := s.Lookup(at);
            var left := was.available - was.reserved - was.safety;
            var item := Item(was.available, was.reserved + q.qty, was.safety, was.version + 1);
            var r := Reservation(at, q.orderId, q.qty, Reserved);
            TryReserve(s, q, at)
            == if left < q.qty then Outcome(WithItem(s, at), Shortage(left))
               else if s.storage == Postgres && (was.available < 0 || was.reserved + q.qty < 0) then Outcome(s, StateConflict)
               else Outcome(Stock(s.storage, s.blank, s.items[at := item], s.reservations[q.key := r]), Accepted(r, item))
  {
  }

  lemma TryWithoutItem(s: Stock, q: Request, at: ItemKey)
    requires q.key !in s.reservations && s.storage == Postgres && at !in s.items
    ensures TryReserve(s, q, at) == Outcome(s, NotFound)
  {
  }

  /**
   * Confirm takes an open reservation's quantity off the reserved and the available quantity, cancel off the reserved one only.
   * A settled reservation is answered as it is, or with a conflict if it was settled the other way.
   */
  lemma SettleExactly(s: Stock, key: string, confirm: bool)
    ensures var o := Perform(s, if confirm then Confirm(key) else Cancel(key));
            key !in s.reservations ==> o == Outcome(s, NotFound)
    ensures var (o, target) := (Perform(s, if confirm then Confirm(key) else Cancel(key)), if confirm then Confirmed else Cancelled);
            key in s.reservations ==>
              var (r, was) := (s.reservations[key], s.Lookup(s.reservations[key].at));
              var item := Item(if confirm then was.available - r.qty else was.available, was.reserved - r.qty, was.safety, was.version + 1);
              o == if r.at !in s.items && s.storage == Postgres then Outcome(s, NotFound)
                   else if r.status == Reserved && s.storage == Postgres && (item.available < 0 || item.reserved < 0) then Outcome(s, StateConflict)
                   else if r.status == Reserved then
                     Outcome(Stock(s.storage, s.blank, s.items[r.at := item], s.reservations[key := Reservation(r.at, r.orderId, r.qty, target)]),
                             Accepted(Reservation(r.at, r.orderId, r.qty, target), item))
                   else Outcome(WithItem(s, r.at), if r.status == target then Accepted(r, was) else StateConflict)
  {
  }

  // ----- The rows -----

  /** A row that could take the request: its SKU, in the warehouse asked for if one is asked for. */
  predicate CouldTake(row: ItemRow, q: Request) {
    row.key.sku == q.sku && (q.warehouse == None || q.warehouse == Some(row.key.warehouse))
  }

  function LeftOn(row: ItemRow): int {
    row.item.available - row.item.reserved - row.item.safety
  }

  /** Row `i` has the most left of those that could take the request, and is the oldest of them. */
  predicate Picked(t: Tables, q: Request, i: nat) {
    && i < |t.rows| && CouldTake(t.rows[i], q)
    && forall j | 0 <= j < |t.rows| && CouldTake(t.rows[j], q) ::
         LeftOn(t.rows[j]) <= LeftOn(t.rows[i]) && (j < i ==> LeftOn(t.rows[j]) < LeftOn(t.rows[i]))
  }

  lemma NewRowTryExactly(t: Tables, q: Request, i: nat)
    requires q.key !in t.reservations && Picked(t, q, i)
    ensures var was := t.rows[i].item;
            var item := Item(was.available, was.reserved + q.qty, was.safety, was.version + 1);
            var r := Reservation(t.rows[i].key, q.orderId, q.qty, Reserved);
            TryRowReserve(t, q)
            == if LeftOn(t.rows[i]) < q.qty then RowOutcome(t, Shortage(LeftOn(t.rows[i])))
               else if was.available < 0 || was.reserved + q.qty < 0 then RowOutcome(t, StateConflict)
               else RowOutcome(Tables(t.rows[i := ItemRow(t.rows[i].key, t.rows[i].batch, item)], t.reservations[q.key := r]), Accepted(r, item))
  {
    assert BestRow(t.rows, q) == Some(i);
  }

  lemma NoRowForTry(t: Tables, q: Request)
    requires q.key !in t.reservations && forall i | 0 <= i < |t.rows| :: !CouldTake(t.rows[i], q)
    ensures TryRowReserve(t, q) == RowOutcome(t, NotFound)
  {
  }

  /** The oldest row of the key. */
  predicate Oldest(t: Tables, k: ItemKey, i: nat) {
    i < |t.rows| && t.rows[i].key == k && forall j | 0 <= j < i :: t.rows[j].key != k
  }

  lemma OldestFound(t: Tables, k: ItemKey, i: nat)
    requires Oldest(t, k, i)
    ensures OldestRow(t.rows, k) == Some(i)
  {
    OldestIsOldest(t.rows, k, i);
  }

  lemma RepeatedRowTryExactly(t: Tables, q: Request)
    requires q.key in t.reservations
    ensures var r := t.reservations[q.key];
            && (!SameRequest(r, q) ==> TryRowReserve(t, q) == RowOutcome(t, KeyConflict))
            && forall i: nat | SameRequest(r, q) && Oldest(t, r.at, i) :: TryRowReserve(t, q) == RowOutcome(t, Accepted(r, t.rows[i].item))
  {
    forall i: nat | Oldest(t, t.reservations[q.key].at, i) ensures OldestRow(t.rows, t.reservations[q.key].at) == Some(i) {
      OldestFound(t, t.reservations[q.key].at, i);
    }
  }

  /** The settle calls write the oldest row of the reservation's key, which is answered for. */
  lemma SettleRowExactly(t: Tables, key: string, target: ReservationStatus, i: nat)
    requires target != Reserved && key in t.reservations && Oldest(t, t.reservations[key].at, i)
    ensures var (r, was) := (t.reservations[key], t.rows[i].item);
            var item := Item(if target == Confirmed then was.available - r.qty else was.available, was.reserved - r.qty, was.safety, was.version + 1);
            var settled := Reservation(r.at, r.orderId, r.qty, target);
            SettleRowReservation(t, key, target)
            == if r.status == target then RowOutcome(t, Accepted(r, was))
               else if r.status != Reserved || item.available < 0 || item.reserved < 0 then RowOutcome(t, StateConflict)
               else RowOutcome(Tables(t.rows[i := ItemRow(t.rows[i].key, t.rows[i].batch, item)], t.reservations[key := settled]), Accepted(settled, item))
  {
    OldestFound(t, t.reservations[key].at, i);
  }

  lemma NothingToSettle(t: Tables, key: string, target: ReservationStatus)
    requires target != Reserved
    requires key !in t.reservations || forall row | row in t.rows :: row.key != t.reservations[key].at
    ensures SettleRowReservation(t, key, target) == RowOutcome(t, NotFound)
  {
  }
}
