/**
 * Several batches of one SKU in one warehouse.  The quantities of a key are conserved in sum, but not row by row: a try may
 * take from a younger row, and what it took there is never given back.
 */
module InventoryBatches {
  import opened Collections
  import opened Inventory
  import opened InventoryTables

  function ReservedIn(rows: seq<ItemRow>, k: ItemKey): int {
    if rows == [] then 0 else (if rows[0].key == k then rows[0].item.reserved else 0) + ReservedIn(rows[1..], k)
  }

  function AvailableIn(rows: seq<ItemRow>, k: ItemKey): int {
    if rows == [] then 0 else (if rows[0].key == k then rows[0].item.available else 0) + AvailableIn(rows[1..], k)
  }

  ghost function HeldIn(t: Tables, k: ItemKey, status: ReservationStatus): int {
    Held(AsStock(t, Item(0, 0, 0, 1)), k, status)
  }

  /** What the call newly reserves, and on which row. */
  function Placed(t: Tables, c: RowCall, i: nat): nat {
    if c.TryRow? && c.request.key !in t.reservations && BestRow(t.rows, c.request) == Some(i)
       && TryRowReserve(t, c.request).reply.Accepted?
    then c.request.qty else 0
  }

  function PlacedOn(t: Tables, calls: seq<RowCall>, i: nat): nat
    requires forall c | c in calls :: WellFormed(c)
    decreases |calls|
  {
    if calls == [] then 0 else Placed(t, calls[0], i) + PlacedOn(PerformRow(t, calls[0]).tables, calls[1..], i)
  }

  /** The change an accepted adjustment makes to the available quantity of a key. */
  function RowDelta(t: Tables, c: RowCall, k: ItemKey): int {
    if c.AdjustRow? && c.row < |t.rows| && t.rows[c.row].key == k && AdjustRowItem(t, c.row, c.change).reply.Adjusted?
    then Asks(t.rows[c.row].item.available, c.change) else 0
  }

  function RowsAdjustedBy(t: Tables, calls: seq<RowCall>, k: ItemKey): int
    requires forall c | c in calls :: WellFormed(c)
    decreases |calls|
  {
    if calls == [] then 0 else RowDelta(t, calls[0], k) + RowsAdjustedBy(PerformRow(t, calls[0]).tables, calls[1..], k)
  }

  predicate Younger(rows: seq<ItemRow>, i: nat) {
    i < |rows| && OldestRow(rows, rows[i].key) != Some(i)
  }

  lemma {:induction false} SumsUpdate(rows: seq<ItemRow>, i: nat, item: Item, k: ItemKey)
    requires i < |rows|
    ensures var rows' := rows[i := rows[i].(item := item)];
            && ReservedIn(rows', k)
               == ReservedIn(rows, k) + (if rows[i].key == k then item.reserved - rows[i].item.reserved else 0)
            && AvailableIn(rows', k)
               == AvailableIn(rows, k) + (if rows[i].key == k then item.available - rows[i].item.available else 0)
  {
    if i > 0 {
      assert rows[i := rows[i].(item := item)][1..] == rows[1..][i - 1 := rows[1..][i - 1].(item := item)];
      SumsUpdate(rows[1..], i - 1, item, k);
    }
  }

  /** Rows keep their places, keys and ages. */
  ghost predicate SameRows(a: seq<ItemRow>, b: seq<ItemRow>) {
    && |a| == |b| && (forall i | 0 <= i < |a| :: a[i].key == b[i].key)
    && forall k :: OldestRow(a, k) == OldestRow(b, k)
  }

  lemma WrittenRow(t: Tables, i: nat, item: Item)
    requires i < |t.rows|
    ensures SameRows(t.rows, t.rows[i := t.rows[i].(item := item)])
  {
    forall k ensures OldestRow(t.rows[i := t.rows[i].(item := item)], k) == OldestRow(t.rows, k) {
      OldestRowKept(t.rows, i, item, k);
    }
  }

  /** One call, at one key: the sums over its rows. */
  ghost predicate SumLaw(t: Tables, c: RowCall, k: ItemKey)
    requires WellFormed(c)
  {
    var t' := PerformRow(t, c).tables;
    && SameRows(t.rows, t'.rows)
    && ReservedIn(t'.rows, k) - HeldIn(t', k, Reserved) == ReservedIn(t.rows, k) - HeldIn(t, k, Reserved)
    && AvailableIn(t'.rows, k) + HeldIn(t', k, Confirmed)
       == AvailableIn(t.rows, k) + HeldIn(t, k, Confirmed) + RowDelta(t, c, k)
  }

  /** One call, at the younger rows. */
  ghost predicate YoungerLaw(t: Tables, c: RowCall)
    requires WellFormed(c)
  {
    var t' := PerformRow(t, c).tables;
    |t'.rows| == |t.rows|
    && forall i: nat | Younger(t.rows, i) :: t'.rows[i].item.reserved == t.rows[i].item.reserved + Placed(t, c, i)
  }

  lemma Rewritten(t: Tables, t': Tables, i: nat, item: Item, key: string, r: Reservation, k: ItemKey)
    requires i < |t.rows|
    requires t' == t.(rows := t.rows[i := t.rows[i].(item := item)], reservations := t.reservations[key := r])
    ensures SameRows(t.rows, t'.rows)
    ensures ReservedIn(t'.rows, k) == ReservedIn(t.rows, k) + (if t.rows[i].key == k then item.reserved - t.rows[i].item.reserved else 0)
    ensures AvailableIn(t'.rows, k) == AvailableIn(t.rows, k) + (if t.rows[i].key == k then item.available - t.rows[i].item.available else 0)
    ensures forall status :: HeldIn(t', k, status)
                             == HeldIn(t, k, status) + (if r.at == k && r.status == status then r.qty else 0)
                                - (if key in t.reservations && t.reservations[key].at == k && t.reservations[key].status == status
                                   then t.reservations[key].qty else 0)
  {
    WrittenRow(t, i, item);
    SumsUpdate(t.rows, i, item, k);
    var blank := Item(0, 0, 0, 1);
    forall status ensures HeldIn(t', k, status)
                          == HeldIn(t, k, status) + (if r.at == k && r.status == status then r.qty else 0)
                             - (if key in t.reservations && t.reservations[key].at == k && t.reservations[key].status == status
                                then t.reservations[key].qty else 0)
    {
      HeldUpdate(AsStock(t, blank), AsStock(t', blank), key, r, k, status);
    }
  }

  lemma TryRowLaw(t: Tables, q: Request, k: ItemKey)
    ensures SumLaw(t, TryRow(q), k)
  {
    var o := TryRowReserve(t, q);
    if q.key !in t.reservations && o.reply.Accepted? {
      var i := BestRow(t.rows, q).value;
      Rewritten(t, o.tables, i, o.tables.rows[i].item, q.key, o.tables.reservations[q.key], k);
    } else {
      assert o.tables == t;
    }
  }

  /** An accepted settle of an open reservation writes the oldest row of its key. */
  lemma SettledRow(t: Tables, key: string, target: ReservationStatus)
    requires target != Reserved && key in t.reservations && t.reservations[key].status == Reserved
    requires SettleRowReservation(t, key, target).reply.Accepted?
    ensures var (r, t') := (t.reservations[key], SettleRowReservation(t, key, target).tables);
            var i := OldestRow(t.rows, r.at);
            i.Some? && t.rows[i.value].key == r.at
            && (var was := t.rows[i.value].item;
                var taken: int := if target == Confirmed then r.qty else 0;
                t' == t.(rows := t.rows[i.value := t.rows[i.value].(item := Item(was.available - taken, was.reserved - r.qty, was.safety,
                                                                                 was.version + 1))],
                         reservations := t.reservations[key := r.(status := target)]))
  {
  }

  lemma SettleRowLaw(t: Tables, key: string, target: ReservationStatus, k: ItemKey)
    requires target != Reserved
    ensures SumLaw(t, SettleRow(key, target), k)
  {
    var o := SettleRowReservation(t, key, target);
    if o.reply.Accepted? && t.reservations[key].status == Reserved {
      SettledRow(t, key, target);
      var i := OldestRow(t.rows, t.reservations[key].at).value;
      Rewritten(t, o.tables, i, o.tables.rows[i].item, key, o.tables.reservations[key], k);
    } else {
      assert o.tables == t;
    }
  }

  lemma AdjustRowLaw(t: Tables, i: nat, change: Adjustment, k: ItemKey)
    ensures SumLaw(t, AdjustRow(i, change), k)
  {
    var t' := AdjustRowItem(t, i, change).tables;
    UnchangedHeld(AsStock(t, Item(0, 0, 0, 1)), AsStock(t', Item(0, 0, 0, 1)), k);
    if i < |t.rows| {
      WrittenRow(t, i, t'.rows[i].item);
      SumsUpdate(t.rows, i, t'.rows[i].item, k);
      assert t.rows[i := t.rows[i].(item := t.rows[i].item)] == t.rows;
    }
  }

  lemma RowLaws(t: Tables, c: RowCall, k: ItemKey)
    requires WellFormed(c)
    ensures SumLaw(t, c, k)
  {
    match c
    case TryRow(q) => TryRowLaw(t, q, k);
    case SettleRow(key, target) => SettleRowLaw(t, key, target, k);
    case AdjustRow(i, change) => AdjustRowLaw(t, i, change, k);
  }

  lemma YoungerLaws(t: Tables, c: RowCall)
    requires WellFormed(c)
    ensures YoungerLaw(t, c)
  {
    if c.SettleRow? && c.key in t.reservations && t.reservations[c.key].status == Reserved
       && SettleRowReservation(t, c.key, c.target).reply.Accepted?
    {
      SettledRow(t, c.key, c.target);
    }
  }

  /**
   * Conservation over every run of any tables, several batches included: per key, the rows' reserved quantities together move
   * with what open reservations hold, and their available quantities plus what was confirmed with accepted adjustments alone.
   */
  lemma {:induction false} RowsConserve(t: Tables, calls: seq<RowCall>, k: ItemKey)
    requires forall c | c in calls :: WellFormed(c)
    ensures var e := RunRows(t, calls);
            && SameRows(t.rows, e.rows)
            && ReservedIn(e.rows, k) - HeldIn(e, k, Reserved) == ReservedIn(t.rows, k) - HeldIn(t, k, Reserved)
            && AvailableIn(e.rows, k) + HeldIn(e, k, Confirmed)
               == AvailableIn(t.rows, k) + HeldIn(t, k, Confirmed) + RowsAdjustedBy(t, calls, k)
    decreases |calls|
  {
    if calls != [] {
      RowLaws(t, calls[0], k);
      RowsConserve(PerformRow(t, calls[0]).tables, calls[1..], k);
    }
  }

  /** A younger row gains what tries reserve on it and never gives any of it back, whatever is confirmed or cancelled. */
  lemma {:induction false} YoungerRowsKeep(t: Tables, calls: seq<RowCall>, i: nat)
    requires (forall c | c in calls :: WellFormed(c)) && Younger(t.rows, i)
    ensures var e := RunRows(t, calls);
            |e.rows| == |t.rows| && e.rows[i].item.reserved == t.rows[i].item.reserved + PlacedOn(t, calls, i)
    decreases |calls|
  {
    if calls != [] {
      RowLaws(t, calls[0], t.rows[i].key);
      YoungerLaws(t, calls[0]);
      YoungerRowsKeep(PerformRow(t, calls[0]).tables, calls[1..], i);
    }
  }

  /** An adjustment writes the row it names, to what it asks for, and is refused exactly for a missing row or a negative quantity. */
  lemma AdjustRowExactly(t: Tables, i: nat, change: Adjustment)
    ensures var o := PerformRow(t, AdjustRow(i, change));
            && (o.reply.Adjusted? <==> i < |t.rows| && t.rows[i].item.available + Asks(t.rows[i].item.available, change) >= 0)
            && (!o.reply.Adjusted? ==> o == RowOutcome(t, if i < |t.rows| then StateConflict else NotFound))
            && (o.reply.Adjusted? ==>
                  var was := t.rows[i].item;
                  var item := Item(was.available + Asks(was.available, change), was.reserved,
                                   if change.safety.Some? then change.safety.value else was.safety, was.version + 1);
                  o == RowOutcome(t.(rows := t.rows[i := t.rows[i].(item := item)]), Adjusted(item)))
  {
  }

  // ----- The oldest row pays for the younger ones -----

  /** What the call newly reserves on younger rows of the key. */
  function Stray(t: Tables, c: RowCall, k: ItemKey): nat {
    if c.TryRow? && BestRow(t.rows, c.request).Some?
       && t.rows[BestRow(t.rows, c.request).value].key == k && Younger(t.rows, BestRow(t.rows, c.request).value)
    then Placed(t, c, BestRow(t.rows, c.request).value) else 0
  }

  function Strays(t: Tables, calls: seq<RowCall>, k: ItemKey): nat
    requires forall c | c in calls :: WellFormed(c)
    decreases |calls|
  {
    if calls == [] then 0 else Stray(t, calls[0], k) + Strays(PerformRow(t, calls[0]).tables, calls[1..], k)
  }

  /** One call, at the oldest row of a key. */
  ghost predicate OldestLaw(t: Tables, c: RowCall, k: ItemKey, o: nat)
    requires WellFormed(c) && o < |t.rows|
  {
    var t' := PerformRow(t, c).tables;
    && OldestRow(t'.rows, k) == Some(o)
    && t'.rows[o].item.reserved - HeldIn(t', k, Reserved) + Stray(t, c, k)
       == t.rows[o].item.reserved - HeldIn(t, k, Reserved)
  }

  lemma OldestTry(t: Tables, q: Request, k: ItemKey, o: nat)
    requires OldestRow(t.rows, k) == Some(o)
    ensures OldestLaw(t, TryRow(q), k, o)
  {
    var t' := TryRowReserve(t, q).tables;
    if q.key !in t.reservations && TryRowReserve(t, q).reply.Accepted? {
      var i := BestRow(t.rows, q).value;
      Rewritten(t, t', i, t'.rows[i].item, q.key, t'.reservations[q.key], k);
    } else {
      assert t' == t;
    }
  }

  lemma OldestSettle(t: Tables, key: string, target: ReservationStatus, k: ItemKey, o: nat)
    requires OldestRow(t.rows, k) == Some(o) && target != Reserved
    ensures OldestLaw(t, SettleRow(key, target), k, o)
  {
    var out := SettleRowReservation(t, key, target);
    if out.reply.Accepted? && t.reservations[key].status == Reserved {
      SettledRow(t, key, target);
      var i := OldestRow(t.rows, t.reservations[key].at).value;
      Rewritten(t, out.tables, i, out.tables.rows[i].item, key, out.tables.reservations[key], k);
    } else {
      assert out.tables == t;
    }
  }

  lemma OldestAdjust(t: Tables, i: nat, change: Adjustment, k: ItemKey, o: nat)
    requires OldestRow(t.rows, k) == Some(o)
    ensures OldestLaw(t, AdjustRow(i, change), k, o)
  {
    var t' := AdjustRowItem(t, i, change).tables;
    UnchangedHeld(AsStock(t, Item(0, 0, 0, 1)), AsStock(t', Item(0, 0, 0, 1)), k);
    if t' != t {
      WrittenRow(t, i, t'.rows[i].item);
    }
  }

  lemma OldestStep(t: Tables, c: RowCall, k: ItemKey, o: nat)
    requires WellFormed(c) && OldestRow(t.rows, k) == Some(o)
    ensures OldestLaw(t, c, k, o)
  {
    match c
    case TryRow(q) => OldestTry(t, q, k, o);
    case SettleRow(key, target) => OldestSettle(t, key, target, k, o);
    case AdjustRow(i, change) => OldestAdjust(t, i, change, k, o);
  }

  /** The oldest row of a key falls behind its open reservations by exactly what tries reserved on younger rows. */
  lemma {:induction false} OldestRowPays(t: Tables, calls: seq<RowCall>, k: ItemKey, o: nat)
    requires (forall c | c in calls :: WellFormed(c)) && OldestRow(t.rows, k) == Some(o)
    ensures var e := RunRows(t, calls);
            && OldestRow(e.rows, k) == Some(o)
            && e.rows[o].item.reserved - HeldIn(e, k, Reserved) + Strays(t, calls, k)
               == t.rows[o].item.reserved - HeldIn(t, k, Reserved)
    decreases |calls|
  {
    if calls != [] {
      OldestStep(t, calls[0], k, o);
      OldestRowPays(PerformRow(t, calls[0]).tables, calls[1..], k, o);
    }
  }

  // ----- Rows that can settle whatever is open -----

  /** The oldest row of the key covers the key's open reservations. */
  ghost predicate OldestCovers(t: Tables, k: ItemKey) {
    OldestRow(t.rows, k).Some? ==>
      var item := t.rows[OldestRow(t.rows, k).value].item;
      HeldIn(t, k, Reserved) <= item.reserved && HeldIn(t, k, Reserved) <= item.available
  }

  ghost predicate AllCovered(t: Tables) {
    && (forall key | key in t.reservations :: OldestRow(t.rows, t.reservations[key].at).Some?)
    && forall k :: OldestCovers(t, k)
  }

  lemma CoveredRow(t: Tables, key: string)
    requires AllCovered(t) && key in t.reservations && t.reservations[key].status == Reserved
    ensures var (r, i) := (t.reservations[key], OldestRow(t.rows, t.reservations[key].at));
            i.Some? && r.qty <= t.rows[i.value].item.reserved && r.qty <= t.rows[i.value].item.available
  {
    var r := t.reservations[key];
    HeldNonNegative(AsStock(t, Item(0, 0, 0, 1)), r.at, Reserved);
    assert OldestCovers(t, r.at);
  }

  lemma CoveredAt(t: Tables, key: string, target: ReservationStatus, k: ItemKey)
    requires AllCovered(t) && target != Reserved && key in t.reservations && t.reservations[key].status == Reserved
    requires SettleRowReservation(t, key, target).reply.Accepted?
    ensures OldestCovers(SettleRowReservation(t, key, target).tables, k)
  {
    SettledRow(t, key, target);
    var (r, t') := (t.reservations[key], SettleRowReservation(t, key, target).tables);
    var i := OldestRow(t.rows, r.at).value;
    Rewritten(t, t', i, t'.rows[i].item, key, t'.reservations[key], k);
    assert OldestCovers(t, k);
  }

  /** Then a settle call of an open reservation is accepted, and the rows go on covering the others. */
  lemma CoveredSettle(t: Tables, key: string, target: ReservationStatus)
    requires AllCovered(t) && target != Reserved && key in t.reservations && t.reservations[key].status == Reserved
    ensures var o := SettleRowReservation(t, key, target);
            && o.reply.Accepted? && AllCovered(o.tables)
            && o.tables.reservations == t.reservations[key := t.reservations[key].(status := target)]
  {
    CoveredRow(t, key);
    SettledRow(t, key, target);
    var t' := SettleRowReservation(t, key, target).tables;
    var i := OldestRow(t.rows, t.reservations[key].at).value;
    WrittenRow(t, i, t'.rows[i].item);
    forall k ensures OldestCovers(t', k) {
      CoveredAt(t, key, target, k);
    }
  }

  // ----- Several rows of one sku in one warehouse -----

  ghost predicate NonNegative(t: Tables) {
    forall i | 0 <= i < |t.rows| :: t.rows[i].item.available >= 0 && t.rows[i].item.reserved >= 0
  }

  ghost predicate SameReserved(t: Tables, u: Tables) {
    |t.rows| == |u.rows| && forall i | 0 <= i < |t.rows| :: t.rows[i].item.reserved == u.rows[i].item.reserved
  }

  /** The row a try would take the quantity from is the row a settle call would later update. */
  predicate PicksOldest(t: Tables, q: Request) {
    var best := BestRow(t.rows, q);
    best.Some? && OldestRow(t.rows, t.rows[best.value].key) == best
  }

  /** A granted try reserves on the row it picked. */
  lemma GrantedRow(t: Tables, q: Request)
    requires q.key !in t.reservations && TryRowReserve(t, q).reply.Accepted?
    ensures var (best, t') := (BestRow(t.rows, q), TryRowReserve(t, q).tables);
            best.Some? && best.value < |t.rows|
            && (var (i, was) := (best.value, t.rows[best.value].item);
                t' == t.(rows := t.rows[i := t.rows[i].(item := Item(was.available, was.reserved + q.qty, was.safety, was.version + 1))],
                         reservations := t.reservations[q.key := Reservation(t.rows[i].key, q.orderId, q.qty, Reserved)]))
  {
  }

  /** And the oldest row of that row's key is the same as before. */
  lemma GrantedOldest(t: Tables, q: Request)
    requires q.key !in t.reservations && TryRowReserve(t, q).reply.Accepted?
    ensures var k := t.rows[BestRow(t.rows, q).value].key;
            OldestRow(t.rows, k).Some? && OldestRow(TryRowReserve(t, q).tables.rows, k) == OldestRow(t.rows, k)
  {
    GrantedRow(t, q);
    var i := BestRow(t.rows, q).value;
    OldestIsOldest(t.rows, t.rows[i].key, i);
    OldestRowKept(t.rows, i, TryRowReserve(t, q).tables.rows[i].item, t.rows[i].key);
  }

  /** Cancelling a new reservation gives back what it took, exactly when the row it was taken from is the oldest of its warehouse. */
  lemma CancelUndoesTry(t: Tables, q: Request)
    requires NonNegative(t)
    requires q.key !in t.reservations && TryRowReserve(t, q).reply.Accepted?
    ensures var t' := TryRowReserve(t, q).tables;
            SameReserved(t, SettleRowReservation(t', q.key, Cancelled).tables) <==> PicksOldest(t, q)
  {
    GrantedRow(t, q);
    GrantedOldest(t, q);
    var i := BestRow(t.rows, q).value;
    var u := SettleRowReservation(TryRowReserve(t, q).tables, q.key, Cancelled).tables;
    if OldestRow(t.rows, t.rows[i].key) != Some(i) {
      assert u.rows[i].item.reserved == t.rows[i].item.reserved + q.qty;
    } else {
      assert u.rows[i].item.reserved == t.rows[i].item.reserved;
    }
  }

  /** Confirming one moves its quantity out of the row it was reserved on, exactly when besides that row can spare it. */
  lemma ConfirmMatchesTry(t: Tables, q: Request)
    requires NonNegative(t)
    requires q.key !in t.reservations && TryRowReserve(t, q).reply.Accepted?
    ensures var (i, u) := (BestRow(t.rows, q).value, SettleRowReservation(TryRowReserve(t, q).tables, q.key, Confirmed).tables);
            && (SameReserved(t, u) <==> PicksOldest(t, q) && t.rows[i].item.available >= q.qty)
            && (SameReserved(t, u) ==> u.rows[i].item.available == t.rows[i].item.available - q.qty)
  {
    GrantedRow(t, q);
    GrantedOldest(t, q);
    var i := BestRow(t.rows, q).value;
    var u := SettleRowReservation(TryRowReserve(t, q).tables, q.key, Confirmed).tables;
    if OldestRow(t.rows, t.rows[i].key) != Some(i) || t.rows[i].item.available < q.qty {
      assert u.rows[i].item.reserved == t.rows[i].item.reserved + q.qty;
    } else {
      assert u.rows[i].item.reserved == t.rows[i].item.reserved;
    }
  }

  /** With one batch per SKU and warehouse a cancel always undoes its try. */
  lemma OneBatchCancelUndoes(t: Tables, q: Request)
    requires OneRowEach(t.rows) && NonNegative(t)
    requires q.key !in t.reservations && TryRowReserve(t, q).reply.Accepted?
    ensures SameReserved(t, SettleRowReservation(TryRowReserve(t, q).tables, q.key, Cancelled).tables)
  {
    OneRowIsOldest(t.rows, BestRow(t.rows, q).value);
    CancelUndoesTry(t, q);
  }

  const SKU := ItemKey(DEFAULT_WAREHOUSE, "sku")

  const TWO_BATCHES := Tables([ItemRow(SKU, "A", Item(5, 0, 0, 1)), ItemRow(SKU, "B", Item(9, 0, 0, 1))], map[])

  function FourOf(key: string): RowCall {
    TryRow(Request(key, "sku", None, None, 4))
  }

  const STRANDED := Tables([ItemRow(SKU, "A", Item(5, 0, 0, 1)), ItemRow(SKU, "B", Item(9, 4, 0, 2))],
                           map["key" := Reservation(SKU, None, 4, Reserved)])

  /** Two batches of one SKU: a reservation is granted, and neither its cancel nor its confirm is accepted. */
  lemma TwoBatchesStrandStock()
    ensures NonNegative(TWO_BATCHES) && PerformRow(TWO_BATCHES, FourOf("key")).tables == STRANDED
    ensures SettleRowReservation(STRANDED, "key", Cancelled) == RowOutcome(STRANDED, StateConflict)
    ensures SettleRowReservation(STRANDED, "key", Confirmed) == RowOutcome(STRANDED, StateConflict)
  {
    assert BestRow(TWO_BATCHES.rows, FourOf("key").request) == Some(1);
    assert PerformRow(TWO_BATCHES, FourOf("key")).tables.rows == STRANDED.rows;
    assert OldestRow(STRANDED.rows, SKU) == Some(0);
  }

  /** One more try falls to the older batch. Then the cancel is accepted, at the other's expense; the younger batch stays as it is. */
  lemma OneMoreTryPays()
    ensures var u := SettleRowReservation(PerformRow(STRANDED, FourOf("more")).tables, "key", Cancelled);
            && u.reply.Accepted? && u.tables.rows[0].item.reserved == 0 && u.tables.rows[1] == STRANDED.rows[1]
            && SettleRowReservation(u.tables, "more", Cancelled).reply == StateConflict
  {
    var more := PerformRow(STRANDED, FourOf("more")).tables;
    assert BestRow(STRANDED.rows, FourOf("more").request) == Some(0);
    assert more.rows == [ItemRow(SKU, "A", Item(5, 4, 0, 2)), STRANDED.rows[1]];
    assert OldestRow(more.rows, SKU) == Some(0);
    var u := SettleRowReservation(more, "key", Cancelled).tables;
    assert u.rows == [ItemRow(SKU, "A", Item(5, 0, 0, 3)), STRANDED.rows[1]];
    assert OldestRow(u.rows, SKU) == Some(0);
  }
}
