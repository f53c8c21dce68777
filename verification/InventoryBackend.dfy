/**
 * The inventory as its callers see it, whichever store is behind it: the items of module Inventory, one per SKU and
 * warehouse, as the memory store keeps them, or the Postgres rows with any number of batches.
 */
module InventoryBackend {
  import opened Collections
  import opened Inventory
  import opened InventoryTables

  datatype Store = Items(stock: Stock) | Rows(tables: Tables) {
    function Reservations(): map<string, Reservation> {
      match this
      case Items(stock) => stock.reservations
      case Rows(tables) => tables.reservations
    }
  }

  /** `at` matters to items, which are told where to place a reservation; rows choose. An adjustment names its item or row. */
  datatype ServiceCall =
    | TryCall(request: Request, at: ItemKey)
    | SettleCall(key: string, confirm: bool)
    | AdjustCall(item: ItemKey, row: nat, change: Adjustment)

  /** Where the memory store places a reservation. */
  function MemoryPlace(request: Request): ItemKey {
    ItemKey(request.warehouse.GetOr(DEFAULT_WAREHOUSE), request.sku)
  }

  /** The warehouse asked for, or else the default one. */
  lemma MemoryPlaceExactly(request: Request)
    ensures MemoryPlace(request)
            == ItemKey(if request.warehouse.Some? then request.warehouse.value else "00000000-0000-4000-8000-000000003001", request.sku)
  {
  }

  function SettledStatus(confirm: bool): ReservationStatus {
    if confirm then Confirmed else Cancelled
  }

  function ItemCall(c: ServiceCall): Call {
    match c
    case TryCall(request, at) => Try(request, at)
    case SettleCall(key, confirm) => if confirm then Confirm(key) else Cancel(key)
    case AdjustCall(k, _, change) => Adjust(k, change)
  }

  function TableCall(c: ServiceCall): (r: RowCall)
    ensures WellFormed(r)
  {
    match c
    case TryCall(request, _) => TryRow(request)
    case SettleCall(key, confirm) => SettleRow(key, SettledStatus(confirm))
    case AdjustCall(_, row, change) => AdjustRow(row, change)
  }

  datatype StoreOutcome = StoreOutcome(store: Store, reply: Reply)

  function Handle(s: Store, c: ServiceCall): StoreOutcome {
    match s
    case Items(stock) => var o := Perform(stock, ItemCall(c)); StoreOutcome(Items(o.stock), o.reply)
    case Rows(tables) => var o := PerformRow(tables, TableCall(c)); StoreOutcome(Rows(o.tables), o.reply)
  }

  predicate InStatus(s: Store, key: string, status: ReservationStatus) {
    key in s.Reservations() && s.Reservations()[key].status == status
  }

  predicate Grows(s: Store, s': Store) {
    Grown(s.Reservations(), s'.Reservations())
  }

  lemma HandleGrows(s: Store, c: ServiceCall)
    ensures Grows(s, Handle(s, c).store)
  {
    if s.Items? {
      StepEvolves(s.stock, ItemCall(c));
    }
  }

  /** Over every run of requests, whichever store is behind them, a settled reservation stays as it is. */
  lemma {:induction false} GrowsAlways(s: Store, calls: seq<ServiceCall>)
    ensures Grows(s, HandleAll(s, calls))
    decreases |calls|
  {
    if calls != [] {
      HandleGrows(s, calls[0]);
      GrowsAlways(Handle(s, calls[0]).store, calls[1..]);
    }
  }

  function HandleAll(s: Store, calls: seq<ServiceCall>): Store
    decreases |calls|
  {
    if calls == [] then s else HandleAll(Handle(s, calls[0]).store, calls[1..])
  }

  /** An acknowledged settle has the reservation in its target status. */
  lemma SettledWhenOk(s: Store, key: string, confirm: bool)
    requires Handle(s, SettleCall(key, confirm)).reply.Ok()
    ensures InStatus(Handle(s, SettleCall(key, confirm)).store, key, SettledStatus(confirm))
  {
    if s.Items? {
      SettleReply(s.stock, key, SettledStatus(confirm));
    }
  }
}
