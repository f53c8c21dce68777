/**
 * The Postgres inventory tables, row by row.  The item table is unique per warehouse, sku and
 * batch, so one warehouse can hold several rows of one sku: a new reservation goes to the row
 * with the most left to sell, a settle call goes to the oldest row of the warehouse.
 */
module InventoryTables {
  import opened Collections
  import opened Inventory

  datatype ItemRow = ItemRow(key: ItemKey, batch: string, item: Item)

  /** `rows` is in creation order. */
  datatype Tables = Tables(rows: seq<ItemRow>, reservations: map<string, Reservation>)

  datatype RowCall =
    | TryRow(request: Request)
    | SettleRow(key: string, target: ReservationStatus)
    | AdjustRow(row: nat, change: Adjustment)

  datatype RowOutcome = RowOutcome(tables: Tables, reply: Reply)

  predicate Offers(row: ItemRow, request: Request) {
    row.key.sku == request.sku && (request.warehouse.Some? ==> row.key.warehouse == request.warehouse.value)
  }

  /** The oldest row of a sku in a warehouse. */
  function OldestRow(rows: seq<ItemRow>, k: ItemKey): (r: Option<nat>)
    ensures r.Some? ==> r.value < |rows| && rows[r.value].key == k
  {
    if rows == [] then None
    else if rows[0].key == k then Some(0)
    else match OldestRow(rows[1..], k)
         case None => None
         case Some(i) => Some(i + 1)
  }

  /** The row offering the request that has the most left to sell, the oldest of several such. */
  function BestRow(rows: seq<ItemRow>, request: Request): (r: Option<nat>)
    ensures r.Some? ==>
              && r.value < |rows| && Offers(rows[r.value], request)
              && (forall i | 0 <= i < |rows| && Offers(rows[i], request) ::
                    && rows[i].item.Sellable() <= rows[r.value].item.Sellable()
                    && (i < r.value ==> rows[i].item.Sellable() < rows[r.value].item.Sellable()))
    ensures r.None? ==> forall i | 0 <= i < |rows| :: !Offers(rows[i], request)
  {
    if rows == [] then None
    else
      var last := |rows| - 1;
      var before := BestRow(rows[..last], request);
      if Offers(rows[last], request)
         && (before.None? || rows[before.value].item.Sellable() < rows[last].item.Sellable())
      then Some(last) else before
  }

  function UpdateRow(t: Tables, i: nat, reservedDelta: int, availableDelta: int): Option<Tables>
    requires i < |t.rows|
  {
    var was := t.rows[i].item;
    var item := Item(was.available + availableDelta, was.reserved + reservedDelta, was.safety, was.version + 1);
    if item.available < 0 || item.reserved < 0 then None
    else Some(t.(rows := t.rows[i := t.rows[i].(item := item)]))
  }

  function TryRowReserve(t: Tables, request: Request): RowOutcome {
    if request.key in t.reservations then
      var existing := t.reservations[request.key];
      if !SameReservation(existing, request) then RowOutcome(t, KeyConflict)
      else match OldestRow(t.rows, existing.at)
           case None => RowOutcome(t, NotFound)
           case Some(i) => RowOutcome(t, Accepted(existing, t.rows[i].item))
    else
      match BestRow(t.rows, request)
      case None => RowOutcome(t, NotFound)
      case Some(i) =>
        var sellable := t.rows[i].item.Sellable();
        if sellable < request.qty then RowOutcome(t, Shortage(sellable))
        else
          match UpdateRow(t, i, request.qty, 0)
          case None => RowOutcome(t, StateConflict)
          case Some(updated) =>
            var reservation := Reservation(t.rows[i].key, request.orderId, request.qty, Reserved);
            RowOutcome(updated.(reservations := updated.reservations[request.key := reservation]),
                       Accepted(reservation, updated.rows[i].item))
  }

  function SettleRowReservation(t: Tables, key: string, target: ReservationStatus): RowOutcome
    requires target != Reserved
  {
    if key !in t.reservations then RowOutcome(t, NotFound)
    else
      var r := t.reservations[key];
      match OldestRow(t.rows, r.at)
      case None => RowOutcome(t, NotFound)
      case Some(i) =>
        if r.status == target then RowOutcome(t, Accepted(r, t.rows[i].item))
        else if r.status != Reserved then RowOutcome(t, StateConflict)
        else
          var qty: int := r.qty;
          match UpdateRow(t, i, -qty, if target == Confirmed then -qty else 0)
          case None => RowOutcome(t, StateConflict)
          case Some(updated) =>
            var settled := r.(status := target);
            RowOutcome(updated.(reservations := updated.reservations[key := settled]),
                       Accepted(settled, updated.rows[i].item))
  }

  function AdjustRowItem(t: Tables, i: nat, change: Adjustment): RowOutcome {
    if i >= |t.rows| then RowOutcome(t, NotFound)
    else
      var was := t.rows[i].item;
      var next := NextAvailable(was, change);
      if next < 0 then RowOutcome(t, StateConflict)
      else
        var item := Item(next, was.reserved, change.safety.GetOr(was.safety), was.version + 1);
        RowOutcome(t.(rows := t.rows[i := t.rows[i].(item := item)]), Adjusted(item))
  }

  predicate WellFormed(c: RowCall) {
    c.SettleRow? ==> c.target != Reserved
  }

  function PerformRow(t: Tables, c: RowCall): RowOutcome
    requires WellFormed(c)
  {
    match c
    case TryRow(request) => TryRowReserve(t, request)
    case SettleRow(key, target) => SettleRowReservation(t, key, target)
    case AdjustRow(i, change) => AdjustRowItem(t, i, change)
  }

  function RunRows(t: Tables, calls: seq<RowCall>): Tables
    requires forall c | c in calls :: WellFormed(c)
    decreases |calls|
  {
    if calls == [] then t else RunRows(PerformRow(t, calls[0]).tables, calls[1..])
  }

  // ----- While only oldest rows are written, the tables behave as the store of module Inventory -----

  predicate OneRowEach(rows: seq<ItemRow>) {
    rows == [] || (OldestRow(rows[1..], rows[0].key).None? && OneRowEach(rows[1..]))
  }

  /** The item of each key is read off its oldest row. */
  function ItemsOf(rows: seq<ItemRow>): map<ItemKey, Item> {
    if rows == [] then map[] else ItemsOf(rows[1..])[rows[0].key := rows[0].item]
  }

  function AsStock(t: Tables, blank: Item): Stock {
    Stock(Postgres, blank, ItemsOf(t.rows), t.reservations)
  }

  predicate InRange(t: Tables, c: RowCall) {
    c.AdjustRow? ==> c.row < |t.rows|
  }

  /** The same call on the store: the row a try picks becomes the item it is placed on. */
  function AsCall(t: Tables, c: RowCall): Call
    requires WellFormed(c) && InRange(t, c)
  {
    match c
    case TryRow(q) =>
      Try(q, match BestRow(t.rows, q)
             case None => ItemKey(q.warehouse.GetOr(DEFAULT_WAREHOUSE), q.sku)
             case Some(i) => t.rows[i].key)
    case SettleRow(key, target) => if target == Confirmed then Confirm(key) else Cancel(key)
    case AdjustRow(i, change) => Adjust(t.rows[i].key, change)
  }

  /** An adjustment of a row that does not exist is answered with "not found" and has no counterpart. */
  function AsCalls(t: Tables, calls: seq<RowCall>): seq<Call>
    requires forall c | c in calls :: WellFormed(c)
    decreases |calls|
  {
    if calls == [] then []
    else (if InRange(t, calls[0]) then [AsCall(t, calls[0])] else [])
         + AsCalls(PerformRow(t, calls[0]).tables, calls[1..])
  }

  /** The oldest row of a key has no older row of that key, and there is one whenever the key occurs. */
  lemma {:induction false} OldestIsOldest(rows: seq<ItemRow>, k: ItemKey, i: nat)
    requires i < |rows| && rows[i].key == k
    ensures OldestRow(rows, k).Some? && OldestRow(rows, k).value <= i
  {
    if rows[0].key != k {
      OldestIsOldest(rows[1..], k, i - 1);
    }
  }

  lemma {:induction false} KeyHasRow(rows: seq<ItemRow>, k: ItemKey)
    ensures k in ItemsOf(rows) <==> OldestRow(rows, k).Some?
    ensures k in ItemsOf(rows) ==> ItemsOf(rows)[k] == rows[OldestRow(rows, k).value].item
  {
    if rows != [] {
      KeyHasRow(rows[1..], k);
    }
  }

  /** Writing a row leaves every key on the row it was on. */
  lemma {:induction false} OldestRowKept(rows: seq<ItemRow>, i: nat, item: Item, k: ItemKey)
    requires i < |rows|
    ensures OldestRow(rows[i := rows[i].(item := item)], k) == OldestRow(rows, k)
  {
    if i > 0 {
      assert rows[i := rows[i].(item := item)][1..] == rows[1..][i - 1 := rows[1..][i - 1].(item := item)];
      OldestRowKept(rows[1..], i - 1, item, k);
    }
  }

  /** Writing the oldest row of a key writes its item. */
  lemma {:induction false} RowIsItem(rows: seq<ItemRow>, i: nat, item: Item)
    requires i < |rows| && OldestRow(rows, rows[i].key) == Some(i)
    ensures rows[i].key in ItemsOf(rows) && ItemsOf(rows)[rows[i].key] == rows[i].item
    ensures ItemsOf(rows[i := rows[i].(item := item)]) == ItemsOf(rows)[rows[i].key := item]
  {
    if i > 0 {
      var rest := rows[1..];
      RowIsItem(rest, i - 1, item);
      assert rows[i := rows[i].(item := item)][1..] == rest[i - 1 := rest[i - 1].(item := item)];
    }
  }

  /** The call writes no row but the oldest of its key, if any. */
  predicate OnOldest(t: Tables, c: RowCall) {
    match c
    case TryRow(q) =>
      var best := BestRow(t.rows, q);
      q.key in t.reservations || best.None? || OldestRow(t.rows, t.rows[best.value].key) == best
    case SettleRow(_, _) => true
    case AdjustRow(i, _) => i < |t.rows| ==> OldestRow(t.rows, t.rows[i].key) == Some(i)
  }

  predicate RunOnOldest(t: Tables, calls: seq<RowCall>)
    requires forall c | c in calls :: WellFormed(c)
    decreases |calls|
  {
    calls == [] || (OnOldest(t, calls[0]) && RunOnOldest(PerformRow(t, calls[0]).tables, calls[1..]))
  }

  lemma {:induction false} OneRowIsOldest(rows: seq<ItemRow>, i: nat)
    requires OneRowEach(rows) && i < |rows|
    ensures OldestRow(rows, rows[i].key) == Some(i)
  {
    if i > 0 {
      OneRowIsOldest(rows[1..], i - 1);
    }
  }

  lemma {:induction false} OneRowEachKept(rows: seq<ItemRow>, i: nat, item: Item)
    requires OneRowEach(rows) && i < |rows|
    ensures OneRowEach(rows[i := rows[i].(item := item)])
  {
    if i > 0 {
      OneRowEachKept(rows[1..], i - 1, item);
      OldestRowKept(rows[1..], i - 1, item, rows[0].key);
      assert rows[i := rows[i].(item := item)][1..] == rows[1..][i - 1 := rows[1..][i - 1].(item := item)];
    }
  }

  lemma OneRowStays(t: Tables, c: RowCall)
    requires OneRowEach(t.rows) && WellFormed(c)
    ensures OnOldest(t, c) && OneRowEach(PerformRow(t, c).tables.rows)
  {
    var i := RowOf(t, c);
    if i.Some? {
      OneRowIsOldest(t.rows, i.value);
      OneRowEachKept(t.rows, i.value, PerformRow(t, c).tables.rows[i.value].item);
      WritesItsRow(t, c);
    }
  }

  /** The row a call may write. */
  function RowOf(t: Tables, c: RowCall): (i: Option<nat>)
    ensures i.Some? ==> i.value < |t.rows|
  {
    match c
    case TryRow(q) => BestRow(t.rows, q)
    case SettleRow(key, _) => if key in t.reservations then OldestRow(t.rows, t.reservations[key].at) else None
    case AdjustRow(row, _) => if row < |t.rows| then Some(row) else None
  }

  lemma WritesItsRow(t: Tables, c: RowCall)
    requires WellFormed(c)
    ensures var (i, rows) := (RowOf(t, c), PerformRow(t, c).tables.rows);
            |rows| == |t.rows| && rows == if i.Some? then t.rows[i.value := t.rows[i.value].(item := rows[i.value].item)] else t.rows
  {
    assert RowOf(t, c).Some? ==> t.rows == t.rows[RowOf(t, c).value := t.rows[RowOf(t, c).value]];
  }

  /** With one row per warehouse and sku no call of a run writes a younger row. */
  lemma {:induction false} OneRowRuns(t: Tables, calls: seq<RowCall>)
    requires OneRowEach(t.rows) && forall c | c in calls :: WellFormed(c)
    ensures RunOnOldest(t, calls)
    decreases |calls|
  {
    if calls != [] {
      OneRowStays(t, calls[0]);
      OneRowRuns(PerformRow(t, calls[0]).tables, calls[1..]);
    }
  }

  lemma UpdateRefines(t: Tables, i: nat, reservedDelta: int, availableDelta: int, blank: Item)
    requires i < |t.rows| && OldestRow(t.rows, t.rows[i].key) == Some(i)
    ensures t.rows[i].key in AsStock(t, blank).items && AsStock(t, blank).items[t.rows[i].key] == t.rows[i].item
    ensures var u := UpdateRow(t, i, reservedDelta, availableDelta);
            var v := UpdateQuantities(AsStock(t, blank), t.rows[i].key, reservedDelta, availableDelta);
            && (u.Some? <==> v.Some?)
            && (u.Some? ==> AsStock(u.value, blank) == v.value && v.value.items[t.rows[i].key] == u.value.rows[i].item)
  {
    var was := t.rows[i].item;
    RowIsItem(t.rows, i, Item(was.available + availableDelta, was.reserved + reservedDelta, was.safety, was.version + 1));
  }

  /** A transaction that writes no younger row does what the store does, reply included. */
  lemma Refines(t: Tables, c: RowCall, blank: Item)
    requires WellFormed(c) && InRange(t, c) && OnOldest(t, c)
    ensures AsStock(PerformRow(t, c).tables, blank) == Perform(AsStock(t, blank), AsCall(t, c)).stock
    ensures PerformRow(t, c).reply == Perform(AsStock(t, blank), AsCall(t, c)).reply
  {
    match c
    case TryRow(q) => TryRefines(t, q, blank);
    case SettleRow(key, target) => SettleRefines(t, key, target, blank);
    case AdjustRow(i, change) =>
      RowIsItem(t.rows, i, match AdjustRowItem(t, i, change).reply case Adjusted(item) => item case _ => blank);
  }

  lemma TryRefines(t: Tables, q: Request, blank: Item)
    requires OnOldest(t, TryRow(q))
    ensures var o, p := TryRowReserve(t, q), Perform(AsStock(t, blank), AsCall(t, TryRow(q)));
            AsStock(o.tables, blank) == p.stock && o.reply == p.reply
  {
    var best := BestRow(t.rows, q);
    if q.key in t.reservations {
      KeyHasRow(t.rows, t.reservations[q.key].at);
    } else if best.Some? {
      UpdateRefines(t, best.value, q.qty, 0, blank);
    } else {
      var k := ItemKey(q.warehouse.GetOr(DEFAULT_WAREHOUSE), q.sku);
      KeyHasRow(t.rows, k);
      assert OldestRow(t.rows, k).Some? ==> Offers(t.rows[OldestRow(t.rows, k).value], q);
    }
  }

  lemma OpenSettleRefines(t: Tables, key: string, target: ReservationStatus, blank: Item)
    requires target != Reserved && key in t.reservations && t.reservations[key].status == Reserved
    ensures var o, p := SettleRowReservation(t, key, target), Settle(AsStock(t, blank), key, target);
            AsStock(o.tables, blank) == p.stock && o.reply == p.reply
  {
    var r := t.reservations[key];
    KeyHasRow(t.rows, r.at);
    if OldestRow(t.rows, r.at).Some? {
      var i, qty: int := OldestRow(t.rows, r.at).value, r.qty;
      var taken := if target == Confirmed then -qty else 0;
      UpdateRefines(t, i, -qty, taken, blank);
      var u := UpdateRow(t, i, -qty, taken);
      if u.Some? {
        assert AsStock(u.value.(reservations := u.value.reservations[key := r.(status := target)]), blank)
               == Settle(AsStock(t, blank), key, target).stock;
      }
    }
  }

  lemma SettleRefines(t: Tables, key: string, target: ReservationStatus, blank: Item)
    requires target != Reserved
    ensures var o, p := SettleRowReservation(t, key, target), Settle(AsStock(t, blank), key, target);
            AsStock(o.tables, blank) == p.stock && o.reply == p.reply
  {
    if key in t.reservations {
      if t.reservations[key].status == Reserved {
        OpenSettleRefines(t, key, target, blank);
      } else {
        KeyHasRow(t.rows, t.reservations[key].at);
        if OldestRow(t.rows, t.reservations[key].at).Some? {
          RowIsItem(t.rows, OldestRow(t.rows, t.reservations[key].at).value, blank);
        }
      }
    }
  }

  /** A younger row cannot be seen from the store. */
  lemma {:induction false} YoungerUnseen(rows: seq<ItemRow>, i: nat, item: Item)
    requires i < |rows| && OldestRow(rows, rows[i].key) != Some(i)
    ensures ItemsOf(rows[i := rows[i].(item := item)]) == ItemsOf(rows)
  {
    var rest := rows[1..];
    assert i > 0;
    assert rows[i := rows[i].(item := item)][1..] == rest[i - 1 := rest[i - 1].(item := item)];
    if OldestRow(rest, rest[i - 1].key) == Some(i - 1) {
      RowIsItem(rest, i - 1, item);
    } else {
      YoungerUnseen(rest, i - 1, item);
    }
  }

  /** An accepted transaction does what the store does exactly when it writes no younger row. */
  lemma RefinesExactly(t: Tables, c: RowCall, blank: Item)
    requires WellFormed(c) && InRange(t, c) && PerformRow(t, c).reply.Ok()
    ensures var (o, p) := (PerformRow(t, c), Perform(AsStock(t, blank), AsCall(t, c)));
            AsStock(o.tables, blank) == p.stock && o.reply == p.reply <==> OnOldest(t, c)
  {
    if OnOldest(t, c) {
      Refines(t, c, blank);
    } else {
      var (i, t') := (RowOf(t, c).value, PerformRow(t, c).tables);
      YoungerUnseen(t.rows, i, t'.rows[i].item);
      assert ItemsOf(t'.rows) == ItemsOf(t.rows);
      if Perform(AsStock(t, blank), AsCall(t, c)).reply.Ok() {
        AcceptedChanges(AsStock(t, blank), AsCall(t, c), t.rows[i].key);
      }
    }
  }

  lemma AcceptedChanges(s: Stock, c: Call, k: ItemKey)
    requires (c.Try? && c.at == k && c.request.key !in s.reservations) || (c.Adjust? && c.item == k)
    requires Perform(s, c).reply.Ok()
    ensures Perform(s, c).stock.items != s.items
  {
    assert k in Perform(s, c).stock.items;
    assert k in s.items ==> Perform(s, c).stock.items[k].version != s.items[k].version;
  }

  /** Whole runs: so conservation, the oversell law and exactly-once effect hold of these tables too. */
  lemma {:induction false} RunRefines(t: Tables, calls: seq<RowCall>, blank: Item)
    requires (forall c | c in calls :: WellFormed(c)) && RunOnOldest(t, calls)
    ensures AsStock(RunRows(t, calls), blank) == Run(AsStock(t, blank), AsCalls(t, calls))
    decreases |calls|
  {
    if calls != [] {
      var t' := PerformRow(t, calls[0]).tables;
      var rest := AsCalls(t', calls[1..]);
      if InRange(t, calls[0]) {
        Refines(t, calls[0], blank);
        assert AsCalls(t, calls)[1..] == rest;
      } else {
        assert AsCalls(t, calls) == rest;
      }
      RunRefines(t', calls[1..], blank);
    }
  }
}
