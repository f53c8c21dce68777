/** The two stores as the service holds them: maps and rows updated in place. */
module InventoryStores {
  import opened Collections
  import opened Inventory
  import opened InventoryTables
  import opened InventoryBackend

  const DEFAULT_SKU := "00000000-0000-4000-8000-000000002001"

  class InventoryMemoryStore {
    const blank: Item
    var items: map<ItemKey, Item>
    var reservationsByIdempotencyKey: map<string, Reservation>

    ghost function View(): Stock
      reads this
    {
      Stock(Memory, blank, items, reservationsByIdempotencyKey)
    }

    constructor (blank: Item)
      ensures View() == Stock(Memory, blank, map[ItemKey(DEFAULT_WAREHOUSE, DEFAULT_SKU) := blank], map[])
    {
      this.blank := blank;
      items := map[ItemKey(DEFAULT_WAREHOUSE, DEFAULT_SKU) := blank];
      reservationsByIdempotencyKey := map[];
    }

    method EnsureItem(k: ItemKey) returns (item: Item)
      modifies this`items
      ensures OpenItem(old(View()), k) == Some(View())
      ensures k in items && item == items[k]
    {
      if k !in items {
        items := items[k := blank];
      }
      item := items[k];
    }

    method TryReserve(input: Request) returns (reply: Reply)
      modifies this
      ensures Outcome(View(), reply)
              == Perform(old(View()), Try(input, ItemKey(input.warehouse.GetOr(DEFAULT_WAREHOUSE), input.sku)))
    {
      if input.key in reservationsByIdempotencyKey {
        var existing := reservationsByIdempotencyKey[input.key];
        if !SameReservation(existing, input) {
          return KeyConflict;
        }
        var item := EnsureItem(existing.at);
        return Accepted(existing, item);
      }
      var k := ItemKey(input.warehouse.GetOr(DEFAULT_WAREHOUSE), input.sku);
      var item := EnsureItem(k);
      if item.Sellable() < input.qty {
        return Shortage(item.Sellable());
      }
      item := item.(reserved := item.reserved + input.qty);
      item := item.(version := item.version + 1);
      items := items[k := item];
      var reservation := Reservation(k, input.orderId, input.qty, Reserved);
      reservationsByIdempotencyKey := reservationsByIdempotencyKey[input.key := reservation];
      return Accepted(reservation, item);
    }

    method ConfirmReservation(key: string) returns (reply: Reply)
      modifies this
      ensures Outcome(View(), reply) == Perform(old(View()), Confirm(key))
    {
      if key !in reservationsByIdempotencyKey {
        return NotFound;
      }
      var reservation := reservationsByIdempotencyKey[key];
      var item := EnsureItem(reservation.at);
      if reservation.status == Confirmed {
        return Accepted(reservation, item);
      }
      if reservation.status == Cancelled {
        return StateConflict;
      }
      item := item.(available := item.available - reservation.qty);
      item := item.(reserved := item.reserved - reservation.qty);
      item := item.(version := item.version + 1);
      items := items[reservation.at := item];
      reservation := reservation.(status := Confirmed);
      reservationsByIdempotencyKey := reservationsByIdempotencyKey[key := reservation];
      return Accepted(reservation, item);
    }

    method CancelReservation(key: string) returns (reply: Reply)
      modifies this
      ensures Outcome(View(), reply) == Perform(old(View()), Cancel(key))
    {
      if key !in reservationsByIdempotencyKey {
        return NotFound;
      }
      var reservation := reservationsByIdempotencyKey[key];
      var item := EnsureItem(reservation.at);
      if reservation.status == Cancelled {
        return Accepted(reservation, item);
      }
      if reservation.status == Confirmed {
        return StateConflict;
      }
      item := item.(reserved := item.reserved - reservation.qty);
      item := item.(version := item.version + 1);
      items := items[reservation.at := item];
      reservation := reservation.(status := Cancelled);
      reservationsByIdempotencyKey := reservationsByIdempotencyKey[key := reservation];
      return Accepted(reservation, item);
    }

    method Adjust(k: ItemKey, change: Adjustment) returns (reply: Reply)
      modifies this
      ensures Outcome(View(), reply) == Perform(old(View()), Call.Adjust(k, change))
    {
      if k !in items {
        return NotFound;
      }
      var item := items[k];
      var nextAvailable := match change.stocktake
                           case Some(counted) => counted
                           case None => item.available + change.delta.GetOr(0);
      if nextAvailable < 0 {
        return StateConflict;
      }
      item := item.(available := nextAvailable);
      item := item.(safety := change.safety.GetOr(item.safety));
      item := item.(version := item.version + 1);
      items := items[k := item];
      return Adjusted(item);
    }
  }

  /** Each method is one transaction: an error restores the rows it started from. */
  class InventoryRepository {
    var rows: seq<ItemRow>
    var reservations: map<string, Reservation>

    ghost function View(): Tables
      reads this
    {
      Tables(rows, reservations)
    }

    /** The update is applied before its result is checked. */
    method UpdateItemQuantities(i: nat, reservedDelta: int, availableDelta: int) returns (holds: bool)
      requires i < |rows|
      modifies this`rows
      ensures holds <==> UpdateRow(old(View()), i, reservedDelta, availableDelta).Some?
      ensures holds ==> UpdateRow(old(View()), i, reservedDelta, availableDelta) == Some(View())
    {
      var item := rows[i].item;
      item := item.(reserved := item.reserved + reservedDelta);
      item := item.(available := item.available + availableDelta);
      item := item.(version := item.version + 1);
      rows := rows[i := rows[i].(item := item)];
      return item.available >= 0 && item.reserved >= 0;
    }

    method TryReserve(input: Request) returns (reply: Reply)
      modifies this
      ensures RowOutcome(View(), reply) == PerformRow(old(View()), TryRow(input))
    {
      if input.key in reservations {
        var existing := reservations[input.key];
        if !SameReservation(existing, input) {
          return KeyConflict;
        }
        var i := OldestRow(rows, existing.at);
        return if i.None? then NotFound else Accepted(existing, rows[i.value].item);
      }
      var best := BestRow(rows, input);
      if best.None? {
        return NotFound;
      }
      var item := rows[best.value];
      if item.item.Sellable() < input.qty {
        return Shortage(item.item.Sellable());
      }
      var begin := rows;
      var holds := UpdateItemQuantities(best.value, input.qty, 0);
      if !holds {
        rows := begin;
        return StateConflict;
      }
      var reservation := Reservation(item.key, input.orderId, input.qty, Reserved);
      reservations := reservations[input.key := reservation];
      return Accepted(reservation, rows[best.value].item);
    }

    method Settle(key: string, target: ReservationStatus) returns (reply: Reply)
      requires target != Reserved
      modifies this
      ensures RowOutcome(View(), reply) == PerformRow(old(View()), SettleRow(key, target))
    {
      if key !in reservations {
        return NotFound;
      }
      var reservation := reservations[key];
      var i := OldestRow(rows, reservation.at);
      if i.None? {
        return NotFound;
      }
      if reservation.status == target {
        return Accepted(reservation, rows[i.value].item);
      }
      if reservation.status != Reserved {
        return StateConflict;
      }
      var begin := rows;
      var qty: int := reservation.qty;
      var holds := UpdateItemQuantities(i.value, -qty, if target == Confirmed then -qty else 0);
      if !holds {
        rows := begin;
        return StateConflict;
      }
      reservation := reservation.(status := target);
      reservations := reservations[key := reservation];
      return Accepted(reservation, rows[i.value].item);
    }

    method AdjustItem(i: nat, change: Adjustment) returns (reply: Reply)
      modifies this`rows
      ensures RowOutcome(View(), reply) == PerformRow(old(View()), AdjustRow(i, change))
    {
      if i >= |rows| {
        return NotFound;
      }
      var item := rows[i].item;
      var nextAvailable := match change.stocktake
                           case Some(counted) => counted
                           case None => item.available + change.delta.GetOr(0);
      if nextAvailable < 0 {
        return StateConflict;
      }
      item := item.(available := nextAvailable);
      item := item.(safety := change.safety.GetOr(item.safety));
      item := item.(version := item.version + 1);
      rows := rows[i := rows[i].(item := item)];
      return Adjusted(item);
    }
  }

  /** The service in front of the stores: one of the two answers every request. */
  class InventoryService {
    const storage: Storage
    const memoryStore: InventoryMemoryStore
    const repository: InventoryRepository

    ghost function View(): Store
      reads memoryStore, repository
    {
      if storage == Memory then Items(memoryStore.View()) else Rows(repository.View())
    }

    constructor (storage: Storage, memoryStore: InventoryMemoryStore, repository: InventoryRepository)
      ensures this.storage == storage && this.memoryStore == memoryStore && this.repository == repository
    {
      this.storage, this.memoryStore, this.repository := storage, memoryStore, repository;
    }

    method Handle(call: ServiceCall) returns (reply: Reply)
      requires call.TryCall? && storage == Memory ==> call.at == MemoryPlace(call.request)
      modifies memoryStore, repository
      ensures StoreOutcome(View(), reply) == InventoryBackend.Handle(old(View()), call)
    {
      match call {
        case TryCall(request, _) =>
          if storage == Memory {
            reply := memoryStore.TryReserve(request);
          } else {
            reply := repository.TryReserve(request);
          }
        case SettleCall(key, confirm) =>
          reply := Settle(key, confirm);
        case AdjustCall(item, row, change) =>
          if storage == Memory {
            reply := memoryStore.Adjust(item, change);
          } else {
            reply := repository.AdjustItem(row, change);
          }
      }
    }

    method Settle(key: string, confirm: bool) returns (reply: Reply)
      modifies memoryStore, repository
      ensures StoreOutcome(View(), reply) == InventoryBackend.Handle(old(View()), SettleCall(key, confirm))
    {
      if storage == Postgres {
        reply := repository.Settle(key, SettledStatus(confirm));
      } else if confirm {
        reply := memoryStore.ConfirmReservation(key);
      } else {
        reply := memoryStore.CancelReservation(key);
      }
    }
  }
}
