/**
 * The try/confirm/cancel reservation store of the inventory service.
 *
 * One specification covers both storages.  They differ in three places: only the
 * memory store creates a missing item on first use, only the Postgres store refuses
 * an update that leaves a negative quantity, and a Postgres error rolls the whole
 * transaction back.
 */
module Inventory {
  import opened Collections

  const DEFAULT_WAREHOUSE := "00000000-0000-4000-8000-000000003001"

  datatype Storage = Memory | Postgres

  datatype ItemKey = ItemKey(warehouse: string, sku: string)

  type Quantity = q: int | 1 <= q <= 999 witness 1

  datatype Item = Item(available: int, reserved: int, safety: int, version: int) {
    function Sellable(): int { available - reserved - safety }
  }

  datatype ReservationStatus = Reserved | Confirmed | Cancelled

  datatype Reservation =
    Reservation(at: ItemKey, orderId: Option<string>, qty: Quantity, status: ReservationStatus)

  /** `blank` is the item the memory store creates on first use. */
  datatype Stock = Stock(storage: Storage, blank: Item,
                         items: map<ItemKey, Item>, reservations: map<string, Reservation>)
  {
    /** The item under `k`; a missing item counts as the item that would be created. */
    function Lookup(k: ItemKey): Item {
      if k in items then items[k] else blank
    }
  }

  datatype Request = Request(key: string, sku: string, warehouse: Option<string>,
                             orderId: Option<string>, qty: Quantity)

  datatype Adjustment = Adjustment(delta: Option<int>, stocktake: Option<int>, safety: Option<int>)

  /** `at` is the item a new reservation is placed on; each storage has its own rule for it. */
  datatype Call =
    | Try(request: Request, at: ItemKey)
    | Confirm(key: string)
    | Cancel(key: string)
    | Adjust(item: ItemKey, change: Adjustment)

  datatype Reply =
    | Accepted(reservation: Reservation, item: Item)
    | Adjusted(adjusted: Item)
    | NotFound
    | Shortage(sellable: int)
    | KeyConflict
    | StateConflict
  {
    predicate Ok() { Accepted? || Adjusted? }
  }

  datatype Outcome = Outcome(stock: Stock, reply: Reply)

  /** Finds the item under `k`, creating it where the storage does so. */
  function OpenItem(s: Stock, k: ItemKey): Option<Stock> {
    if k in s.items then Some(s)
    else if s.storage == Memory then Some(s.(items := s.items[k := s.blank]))
    else None
  }

  function UpdateQuantities(s: Stock, k: ItemKey, reservedDelta: int, availableDelta: int): Option<Stock>
    requires k in s.items
  {
    var was := s.items[k];
    var item := Item(was.available + availableDelta, was.reserved + reservedDelta, was.safety, was.version + 1);
    if s.storage == Postgres && (item.available < 0 || item.reserved < 0) then None
    else Some(s.(items := s.items[k := item]))
  }

  predicate SameReservation(r: Reservation, request: Request) {
    r.at == ItemKey(request.warehouse.GetOr(DEFAULT_WAREHOUSE), request.sku) && r.qty == request.qty
  }

  function TryReserve(s: Stock, request: Request, at: ItemKey): Outcome {
    if request.key in s.reservations then
      var existing := s.reservations[request.key];
      if !SameReservation(existing, request) then Outcome(s, KeyConflict)
      else
        match OpenItem(s, existing.at)
        case None => Outcome(s, NotFound)
        case Some(open) => Outcome(open, Accepted(existing, open.items[existing.at]))
    else
      match OpenItem(s, at)
      case None => Outcome(s, NotFound)
      case Some(open) =>
        var sellable := open.items[at].Sellable();
        if sellable < request.qty then Outcome(open, Shortage(sellable))
        else
          match UpdateQuantities(open, at, request.qty, 0)
          case None => Outcome(s, StateConflict)
          case Some(updated) =>
            var reservation := Reservation(at, request.orderId, request.qty, Reserved);
            Outcome(updated.(reservations := updated.reservations[request.key := reservation]),
                    Accepted(reservation, updated.items[at]))
  }

  /** Confirm (`target` Confirmed) and cancel (`target` Cancelled) differ in the available quantity only. */
  function Settle(s: Stock, key: string, target: ReservationStatus): Outcome
    requires target != Reserved
  {
    if key !in s.reservations then Outcome(s, NotFound)
    else
      var r := s.reservations[key];
      match OpenItem(s, r.at)
      case None => Outcome(s, NotFound)
      case Some(open) =>
        if r.status == target then Outcome(open, Accepted(r, open.items[r.at]))
        else if r.status != Reserved then Outcome(open, StateConflict)
        else
          var qty: int := r.qty;
          match UpdateQuantities(open, r.at, -qty, if target == Confirmed then -qty else 0)
          case None => Outcome(s, StateConflict)
          case Some(updated) =>
            var settled := r.(status := target);
            Outcome(updated.(reservations := updated.reservations[key := settled]),
                    Accepted(settled, updated.items[r.at]))
  }

  function NextAvailable(item: Item, change: Adjustment): int {
    change.stocktake.GetOr(item.available + change.delta.GetOr(0))
  }

  function AdjustItem(s: Stock, k: ItemKey, change: Adjustment): Outcome {
    if k !in s.items then Outcome(s, NotFound)
    else
      var was := s.items[k];
      var next := NextAvailable(was, change);
      if next < 0 then Outcome(s, StateConflict)
      else
        var item := Item(next, was.reserved, change.safety.GetOr(was.safety), was.version + 1);
        Outcome(s.(items := s.items[k := item]), Adjusted(item))
  }

  function Perform(s: Stock, c: Call): Outcome {
    match c
    case Try(request, at) => TryReserve(s, request, at)
    case Confirm(key) => Settle(s, key, Confirmed)
    case Cancel(key) => Settle(s, key, Cancelled)
    case Adjust(k, change) => AdjustItem(s, k, change)
  }

  function Run(s: Stock, calls: seq<Call>): Stock
    decreases |calls|
  {
    if calls == [] then s else Run(Perform(s, calls[0]).stock, calls[1..])
  }

  /** Accepted, and answered from an earlier call rather than by doing anything. */
  predicate Replayed(s: Stock, c: Call) {
    match c
    case Try(request, _) => request.key in s.reservations
    case Confirm(key) => key in s.reservations && s.reservations[key].status == Confirmed
    case Cancel(key) => key in s.reservations && s.reservations[key].status == Cancelled
    case Adjust(_, _) => false
  }

  /** Neither rejected nor replayed. */
  predicate Effective(s: Stock, c: Call) {
    Perform(s, c).reply.Ok() && !Replayed(s, c)
  }

  /** The item an effective call works on. */
  function Target(s: Stock, c: Call): ItemKey
    requires Effective(s, c)
  {
    match c
    case Try(_, at) => at
    case Confirm(key) => s.reservations[key].at
    case Cancel(key) => s.reservations[key].at
    case Adjust(k, _) => k
  }

  // ----- What is kept over every run -----

  ghost function HeldQuantities(s: Stock, k: ItemKey, status: ReservationStatus): map<string, int> {
    map key | key in s.reservations ::
      if s.reservations[key].at == k && s.reservations[key].status == status then s.reservations[key].qty else 0
  }

  /** The total quantity of the reservations on `k` in the given status. */
  ghost function Held(s: Stock, k: ItemKey, status: ReservationStatus): int {
    Total(HeldQuantities(s, k, status))
  }

  /** Reserved quantities are backed one to one by the reservations. */
  ghost predicate Balanced(s: Stock) {
    forall k :: s.Lookup(k).reserved == Held(s, k, Reserved)
  }

  ghost predicate NoOversell(s: Stock) {
    forall k :: s.Lookup(k).Sellable() >= 0 && s.Lookup(k).safety >= 0
  }

  /** What an adjustment asks for: the counted quantity in place of the one there is, or a plus or minus. */
  function Asks(available: int, change: Adjustment): int {
    match (change.stocktake, change.delta)
    case (Some(counted), _) => counted - available
    case (None, Some(delta)) => delta
    case (None, None) => 0
  }

  /** The change an accepted adjustment makes to the available quantity of `k`. */
  function AvailableDelta(s: Stock, c: Call, k: ItemKey): int {
    if c.Adjust? && c.item == k && Effective(s, c) then Asks(s.items[k].available, c.change) else 0
  }

  function AdjustedBy(s: Stock, calls: seq<Call>, k: ItemKey): int
    decreases |calls|
  {
    if calls == [] then 0
    else AvailableDelta(s, calls[0], k) + AdjustedBy(Perform(s, calls[0]).stock, calls[1..], k)
  }

  function EffectiveOn(s: Stock, calls: seq<Call>, k: ItemKey): nat
    decreases |calls|
  {
    if calls == [] then 0
    else (if Effective(s, calls[0]) && Target(s, calls[0]) == k then 1 else 0)
         + EffectiveOn(Perform(s, calls[0]).stock, calls[1..], k)
  }

  /** Replacing one reservation moves its quantity from its old total to its new one. */
  lemma HeldUpdate(s: Stock, s': Stock, key: string, r: Reservation, k: ItemKey, status: ReservationStatus)
    requires s'.reservations == s.reservations[key := r]
    ensures Held(s', k, status) == Held(s, k, status)
                                   + (if r.at == k && r.status == status then r.qty else 0)
                                   - (if key in s.reservations && s.reservations[key].at == k
                                         && s.reservations[key].status == status
                                      then s.reservations[key].qty else 0)
  {
    var was := HeldQuantities(s, k, status);
    var weight: int := if r.at == k && r.status == status then r.qty else 0;
    assert HeldQuantities(s', k, status) == was[key := weight];
    TotalUpdate(was, key, weight);
  }

  lemma HeldNonNegative(s: Stock, k: ItemKey, status: ReservationStatus)
    ensures Held(s, k, status) >= 0
    ensures forall key | key in s.reservations && s.reservations[key].at == k && s.reservations[key].status == status ::
              s.reservations[key].qty <= Held(s, k, status)
  {
    var w := HeldQuantities(s, k, status);
    TotalNonNegative(w);
    forall key | key in s.reservations && s.reservations[key].at == k && s.reservations[key].status == status
      ensures s.reservations[key].qty <= Held(s, k, status)
    {
      assert w[key] <= Total(w);
    }
  }

  /**
   * An adjustment of an item there is: accepted exactly if the quantity it asks for is not negative, it gives the item that
   * quantity and the new safety stock, if any, and leaves what is reserved, and every other item and reservation, alone.
   */
  lemma AdjustExactly(s: Stock, k: ItemKey, change: Adjustment)
    ensures var (o, was) := (Perform(s, Adjust(k, change)), s.Lookup(k));
            var next := if change.stocktake.Some? then change.stocktake.value
                        else if change.delta.Some? then was.available + change.delta.value else was.available;
            && (o.reply.Adjusted? <==> k in s.items && next >= 0)
            && (!o.reply.Adjusted? ==> o == Outcome(s, if k in s.items then StateConflict else NotFound))
            && (o.reply.Adjusted? ==>
                  && o.reply.adjusted == Item(next, was.reserved, if change.safety.Some? then change.safety.value else was.safety, was.version + 1)
                  && o.stock.Lookup(k) == o.reply.adjusted && o.stock.items.Keys == s.items.Keys
                  && o.stock.reservations == s.reservations && o.stock.blank == s.blank && o.stock.storage == s.storage
                  && forall j | j in s.items && j != k :: o.stock.items[j] == s.items[j])
  {
  }

  /** One call, at one item: how the quantities move together. */
  ghost predicate StepLaw(s: Stock, c: Call, k: ItemKey) {
    var s' := Perform(s, c).stock;
    && s'.Lookup(k).reserved - Held(s', k, Reserved) == s.Lookup(k).reserved - Held(s, k, Reserved)
    && s'.Lookup(k).available + Held(s', k, Confirmed)
       == s.Lookup(k).available + Held(s, k, Confirmed) + AvailableDelta(s, c, k)
    && s'.Lookup(k).version
       == s.Lookup(k).version + (if Effective(s, c) && Target(s, c) == k then 1 else 0)
    && s'.blank == s.blank && s'.storage == s.storage
  }

  lemma UnchangedHeld(s: Stock, s': Stock, k: ItemKey)
    requires s'.reservations == s.reservations
    ensures forall status :: Held(s', k, status) == Held(s, k, status)
  {
  }

  lemma StepLaws(s: Stock, c: Call, k: ItemKey)
    ensures StepLaw(s, c, k)
  {
    match c
    case Try(q, at) => TryLaws(s, q, at, k);
    case Confirm(key) => SettleLaws(s, c, key, Confirmed, k);
    case Cancel(key) => SettleLaws(s, c, key, Cancelled, k);
    case Adjust(at, change) => UnchangedHeld(s, Perform(s, c).stock, k);
  }

  lemma TryLaws(s: Stock, q: Request, at: ItemKey, k: ItemKey)
    ensures StepLaw(s, Try(q, at), k)
  {
    var s' := TryReserve(s, q, at).stock;
    if Effective(s, Try(q, at)) {
      TryEffect(s, q, at);
      HeldAfter(s, s', q.key, Reservation(at, q.orderId, q.qty, Reserved), k);
    } else {
      IneffectiveLaw(s, Try(q, at), k);
    }
  }

  lemma IneffectiveLaw(s: Stock, c: Call, k: ItemKey)
    requires !Effective(s, c)
    ensures StepLaw(s, c, k)
  {
    Ineffective(s, c);
    UnchangedHeld(s, Perform(s, c).stock, k);
  }

  lemma HeldAfter(s: Stock, s': Stock, key: string, r: Reservation, k: ItemKey)
    requires s'.reservations == s.reservations[key := r]
    requires key in s.reservations ==> s.reservations[key] == r.(status := Reserved) && r.status != Reserved
    requires key !in s.reservations ==> r.status == Reserved
    ensures var moved: int := if key in s.reservations then 0 - r.qty else r.qty;
            Held(s', k, Reserved) == Held(s, k, Reserved) + if r.at == k then moved else 0
    ensures Held(s', k, Confirmed) == Held(s, k, Confirmed) + if r.at == k && r.status == Confirmed then r.qty else 0
  {
    HeldUpdate(s, s', key, r, k, Reserved);
    HeldUpdate(s, s', key, r, k, Confirmed);
  }

  /** A call that is not effective leaves every reservation and every looked-up item alone. */
  lemma Ineffective(s: Stock, c: Call)
    requires !Effective(s, c)
    ensures var s' := Perform(s, c).stock;
            s'.reservations == s.reservations && (forall k :: s'.Lookup(k) == s.Lookup(k))
            && s'.blank == s.blank && s'.storage == s.storage
  {
  }

  /** An effective settle closes an open reservation and takes its quantity off exactly one item. */
  lemma SettleEffect(s: Stock, c: Call, key: string, target: ReservationStatus)
    requires (c == Confirm(key) && target == Confirmed) || (c == Cancel(key) && target == Cancelled)
    requires Effective(s, c)
    ensures Has(s, key, Reserved)
    ensures var r := s.reservations[key];
            var was := s.Lookup(r.at);
            var taken: int := if target == Confirmed then r.qty else 0;
            Perform(s, c).stock
            == s.(items := s.items[r.at := Item(was.available - taken, was.reserved - r.qty, was.safety, was.version + 1)],
                  reservations := s.reservations[key := r.(status := target)])
  {
  }

  /** An effective try opens a new reservation within what the item had left to sell. */
  lemma TryEffect(s: Stock, q: Request, at: ItemKey)
    requires Effective(s, Try(q, at))
    ensures q.key !in s.reservations && s.Lookup(at).Sellable() >= q.qty
    ensures var was := s.Lookup(at);
            TryReserve(s, q, at).stock
            == s.(items := s.items[at := Item(was.available, was.reserved + q.qty, was.safety, was.version + 1)],
                  reservations := s.reservations[q.key := Reservation(at, q.orderId, q.qty, Reserved)])
  {
  }

  /** The only reservation a call can add is the one an effective try asks for. */
  lemma ReservationsAfter(s: Stock, c: Call)
    ensures var s' := Perform(s, c).stock;
            && Evolves(s, s')
            && s'.reservations.Keys == s.reservations.Keys
                                       + (if c.Try? && Effective(s, c) then {c.request.key} else {})
            && (c.Try? && Effective(s, c) ==> s'.reservations[c.request.key].at == c.at)
  {
    StepEvolves(s, c);
    if !Effective(s, c) {
      Ineffective(s, c);
    } else {
      match c
      case Confirm(key) => SettleEffect(s, c, key, Confirmed);
      case Cancel(key) => SettleEffect(s, c, key, Cancelled);
      case Try(q, at) => TryEffect(s, q, at);
      case Adjust(_, _) =>
    }
  }

  lemma SettleLaws(s: Stock, c: Call, key: string, target: ReservationStatus, k: ItemKey)
    requires (c == Confirm(key) && target == Confirmed) || (c == Cancel(key) && target == Cancelled)
    ensures StepLaw(s, c, k)
  {
    if Effective(s, c) {
      SettledLaw(s, c, key, target, k);
    } else {
      IneffectiveLaw(s, c, k);
    }
  }

  lemma SettledLaw(s: Stock, c: Call, key: string, target: ReservationStatus, k: ItemKey)
    requires (c == Confirm(key) && target == Confirmed) || (c == Cancel(key) && target == Cancelled)
    requires Effective(s, c)
    ensures StepLaw(s, c, k)
  {
    SettleEffect(s, c, key, target);
    var (r, s') := (s.reservations[key], Perform(s, c).stock);
    HeldAfter(s, s', key, r.(status := target), k);
    assert Target(s, c) == r.at && AvailableDelta(s, c, k) == 0;
  }

  /**
   * Conservation over every run: what is reserved is exactly what open reservations hold,
   * and what is available plus what was confirmed away changes by the accepted adjustments alone.
   * The version counts the effective calls.
   */
  lemma {:induction false} Conservation(s: Stock, calls: seq<Call>, k: ItemKey)
    ensures var e := Run(s, calls);
            && e.Lookup(k).reserved - Held(e, k, Reserved) == s.Lookup(k).reserved - Held(s, k, Reserved)
            && e.Lookup(k).available + Held(e, k, Confirmed)
               == s.Lookup(k).available + Held(s, k, Confirmed) + AdjustedBy(s, calls, k)
            && e.Lookup(k).version == s.Lookup(k).version + EffectiveOn(s, calls, k)
            && e.blank == s.blank && e.storage == s.storage
    decreases |calls|
  {
    if calls != [] {
      StepLaws(s, calls[0], k);
      Conservation(Perform(s, calls[0]).stock, calls[1..], k);
    }
  }

  lemma BalancedAlways(s: Stock, calls: seq<Call>)
    requires Balanced(s)
    ensures Balanced(Run(s, calls))
  {
    forall k ensures Run(s, calls).Lookup(k).reserved == Held(Run(s, calls), k, Reserved) {
      Conservation(s, calls, k);
    }
  }

  /** An adjustment that leaves at least the reserved and safety quantities on the shelf. */
  predicate Cautious(s: Stock, c: Call) {
    c.Adjust? && Effective(s, c) ==>
      var was := s.items[c.item];
      was.available + Asks(was.available, c.change) - was.reserved - c.change.safety.GetOr(was.safety) >= 0
      && c.change.safety.GetOr(was.safety) >= 0
  }

  predicate CautiousRun(s: Stock, calls: seq<Call>)
    decreases |calls|
  {
    calls == [] || (Cautious(s, calls[0]) && CautiousRun(Perform(s, calls[0]).stock, calls[1..]))
  }

  /** No prefix of the run oversells. */
  ghost predicate NeverOversells(s: Stock, calls: seq<Call>)
    decreases |calls|
  {
    NoOversell(s) && (calls == [] || NeverOversells(Perform(s, calls[0]).stock, calls[1..]))
  }

  lemma BalancedStep(s: Stock, c: Call)
    requires Balanced(s)
    ensures Balanced(Perform(s, c).stock)
  {
    var s' := Perform(s, c).stock;
    forall k ensures s'.Lookup(k).reserved == Held(s', k, Reserved) {
      StepLaws(s, c, k);
      assert s.Lookup(k).reserved == Held(s, k, Reserved);
    }
  }

  lemma CautiousAt(s: Stock, c: Call, k: ItemKey)
    requires NoOversell(s) && Cautious(s, c)
    ensures Perform(s, c).stock.Lookup(k).Sellable() >= 0 && Perform(s, c).stock.Lookup(k).safety >= 0
  {
    assert s.Lookup(k).Sellable() >= 0 && s.Lookup(k).safety >= 0;
    if !Effective(s, c) {
      Ineffective(s, c);
    } else {
      match c
      case Try(q, at) => TryEffect(s, q, at);
      case Confirm(key) => SettleEffect(s, c, key, Confirmed);
      case Cancel(key) => SettleEffect(s, c, key, Cancelled);
      case Adjust(_, _) =>
    }
  }

  lemma CautiousExactly(s: Stock, c: Call)
    requires NoOversell(s)
    ensures Cautious(s, c) <==> NoOversell(Perform(s, c).stock)
  {
    var s' := Perform(s, c).stock;
    if Cautious(s, c) {
      forall k ensures s'.Lookup(k).Sellable() >= 0 && s'.Lookup(k).safety >= 0 {
        CautiousAt(s, c, k);
      }
    } else {
      assert s'.Lookup(c.item) == s'.items[c.item];
    }
  }

  /**
   * Stock is never oversold at any point of a run exactly when every accepted adjustment
   * leaves the reserved and safety quantities covered.
   */
  lemma {:induction false} OversellExactly(s: Stock, calls: seq<Call>)
    requires Balanced(s) && NoOversell(s)
    ensures NeverOversells(s, calls) <==> CautiousRun(s, calls)
    decreases |calls|
  {
    if calls != [] {
      BalancedStep(s, calls[0]);
      CautiousExactly(s, calls[0]);
      var s' := Perform(s, calls[0]).stock;
      if NoOversell(s') {
        OversellExactly(s', calls[1..]);
      }
    }
  }

  /** The floor check of the Postgres update never fires on stock that is not oversold. */
  lemma FloorCheckUnreachable(s: Stock, key: string, target: ReservationStatus)
    requires Balanced(s) && NoOversell(s) && target != Reserved
    requires key in s.reservations && s.reservations[key].status == Reserved
    requires s.storage == Memory || s.reservations[key].at in s.items
    ensures var o := Settle(s, key, target);
            o.reply.Accepted? && o.stock.reservations[key].status == target
            && o.stock.Lookup(s.reservations[key].at).available >= 0
            && o.stock.Lookup(s.reservations[key].at).reserved >= 0
  {
    var k := s.reservations[key].at;
    HeldNonNegative(s, k, Reserved);
    assert s.Lookup(k).reserved == Held(s, k, Reserved);
    assert s.Lookup(k).Sellable() >= 0;
  }

  // ----- The floor check itself -----

  /** The quantities the call wants to change on a found item, once its own checks pass. */
  function Asked(s: Stock, c: Call): Option<(ItemKey, int, int)> {
    match c
    case Try(q, at) =>
      if q.key !in s.reservations && at in s.items && s.items[at].Sellable() >= q.qty then Some((at, q.qty, 0)) else None
    case Confirm(key) =>
      if Has(s, key, Reserved) && s.reservations[key].at in s.items
      then var qty: int := s.reservations[key].qty; Some((s.reservations[key].at, -qty, -qty)) else None
    case Cancel(key) =>
      if Has(s, key, Reserved) && s.reservations[key].at in s.items
      then var qty: int := s.reservations[key].qty; Some((s.reservations[key].at, -qty, 0)) else None
    case Adjust(_, _) => None
  }

  predicate FloorFails(s: Stock, c: Call) {
    Asked(s, c).Some? && var (k, reservedDelta, availableDelta) := Asked(s, c).value;
                         k in s.items && UpdateQuantities(s, k, reservedDelta, availableDelta).None?
  }

  /** More is to be confirmed than is available. */
  predicate Starved(s: Stock, c: Call) {
    c.Confirm? && Has(s, c.key, Reserved) && s.reservations[c.key].at in s.items
    && s.items[s.reservations[c.key].at].available < s.reservations[c.key].qty
  }

  ghost predicate OnShelf(s: Stock) {
    forall k | k in s.items :: s.items[k].available >= 0
  }

  /** Whether the floor check fires: never for a try or a cancel, and for a confirm exactly if it is starved. */
  lemma FloorCheckExactly(s: Stock, c: Call)
    requires s.storage == Postgres && Balanced(s) && OnShelf(s)
    ensures FloorFails(s, c) <==> Starved(s, c)
    ensures Asked(s, c).Some? ==> (FloorFails(s, c) <==> Perform(s, c) == Outcome(s, StateConflict))
    ensures OnShelf(Perform(s, c).stock)
  {
    if Asked(s, c).Some? {
      var k := Asked(s, c).value.0;
      HeldNonNegative(s, k, Reserved);
      assert s.Lookup(k).reserved == Held(s, k, Reserved);
    }
  }

  ghost predicate FloorHolds(s: Stock, calls: seq<Call>)
    decreases |calls|
  {
    calls == [] || (!FloorFails(s, calls[0]) && FloorHolds(Perform(s, calls[0]).stock, calls[1..]))
  }

  predicate NeverStarved(s: Stock, calls: seq<Call>)
    decreases |calls|
  {
    calls == [] || (!Starved(s, calls[0]) && NeverStarved(Perform(s, calls[0]).stock, calls[1..]))
  }

  /** Over a whole run the floor check never fires exactly if no confirm asks for more than is available. */
  lemma {:induction false} FloorHoldsExactly(s: Stock, calls: seq<Call>)
    requires s.storage == Postgres && Balanced(s) && OnShelf(s)
    ensures FloorHolds(s, calls) <==> NeverStarved(s, calls)
    decreases |calls|
  {
    if calls != [] {
      FloorCheckExactly(s, calls[0]);
      StepLaws(s, calls[0], ItemKey("", ""));
      BalancedStep(s, calls[0]);
      FloorHoldsExactly(Perform(s, calls[0]).stock, calls[1..]);
    }
  }

  /** And so never while adjustments leave the reserved and safety quantities covered. */
  lemma {:induction false} CautiousNeverStarved(s: Stock, calls: seq<Call>)
    requires Balanced(s) && NoOversell(s) && CautiousRun(s, calls)
    ensures NeverStarved(s, calls)
    decreases |calls|
  {
    if calls != [] {
      CautiousExactly(s, calls[0]);
      BalancedStep(s, calls[0]);
      CautiousNeverStarved(Perform(s, calls[0]).stock, calls[1..]);
      if calls[0].Confirm? && Has(s, calls[0].key, Reserved) {
        var k := s.reservations[calls[0].key].at;
        HeldNonNegative(s, k, Reserved);
        assert s.Lookup(k).reserved == Held(s, k, Reserved) && s.Lookup(k).Sellable() >= 0;
      }
    }
  }

  /** Without that: one adjustment below the reserved quantity makes a later confirm fail in Postgres and go negative in memory. */
  lemma AdjustmentBelowReserved(storage: Storage)
    ensures var k := ItemKey(DEFAULT_WAREHOUSE, "sku");
            var s := Stock(storage, Item(50, 0, 2, 1), map[k := Item(50, 0, 2, 1)], map[]);
            var t := Run(s, [Try(Request("key", "sku", None, None, 10), k), Adjust(k, Adjustment(None, Some(3), None))]);
            && Balanced(s) && NoOversell(s)
            && Has(t, "key", Reserved) && k in Settle(t, "key", Confirmed).stock.items
            && (storage == Postgres ==> Settle(t, "key", Confirmed).reply == StateConflict)
            && (storage == Memory ==> Settle(t, "key", Confirmed).stock.items[k].available == -7)
  {
    var k := ItemKey(DEFAULT_WAREHOUSE, "sku");
    var s := Stock(storage, Item(50, 0, 2, 1), map[k := Item(50, 0, 2, 1)], map[]);
    var calls := [Try(Request("key", "sku", None, None, 10), k), Adjust(k, Adjustment(None, Some(3), None))];
    forall j ensures Held(s, j, Reserved) == 0 {
      assert HeldQuantities(s, j, Reserved) == map[];
    }
    var s1 := Perform(s, calls[0]).stock;
    assert calls[1..][0] == calls[1] && calls[1..][1..] == [];
    assert Run(s, calls) == Run(s1, calls[1..]) == Perform(s1, calls[1]).stock;
  }

  // ----- What a single reservation goes through -----

  /** A reservation never disappears, never moves, and never leaves a settled status. */
  predicate Grown(a: map<string, Reservation>, b: map<string, Reservation>) {
    forall key | key in a ::
      && key in b && b[key].at == a[key].at && b[key].qty == a[key].qty
      && (a[key].status != Reserved ==> b[key] == a[key])
  }

  predicate Evolves(s: Stock, s': Stock) {
    Grown(s.reservations, s'.reservations)
  }

  lemma StepEvolves(s: Stock, c: Call)
    ensures Evolves(s, Perform(s, c).stock)
  {
    if !Effective(s, c) {
      Ineffective(s, c);
    } else {
      match c
      case Confirm(key) => SettleEffect(s, c, key, Confirmed);
      case Cancel(key) => SettleEffect(s, c, key, Cancelled);
      case Try(_, _) =>
      case Adjust(_, _) =>
    }
  }

  lemma {:induction false} SettledForGood(s: Stock, calls: seq<Call>)
    ensures Evolves(s, Run(s, calls))
    decreases |calls|
  {
    if calls != [] {
      StepEvolves(s, calls[0]);
      SettledForGood(Perform(s, calls[0]).stock, calls[1..]);
    }
  }

  predicate Has(s: Stock, key: string, status: ReservationStatus) {
    key in s.reservations && s.reservations[key].status == status
  }

  /** A settle call is answered positively exactly when its item can be found and it leaves the reservation in its target status. */
  lemma SettleReply(s: Stock, key: string, target: ReservationStatus)
    requires target != Reserved
    ensures var o := Settle(s, key, target);
            o.reply.Ok() <==> Has(o.stock, key, target) && OpenItem(s, s.reservations[key].at).Some?
  {
  }
}
