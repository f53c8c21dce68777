/**
 * A checkout on the Postgres rows, any number of batches per SKU and warehouse.  What it leaves reserved is what its own open
 * reservations hold; a delivered cancel can be refused, when tries took more from younger rows than the oldest can pay for.
 */
module CheckoutBatches {
  import opened Collections
  import opened Inventory
  import opened InventoryTables
  import opened InventoryBatches
  import opened InventoryBackend
  import opened Keys
  import opened Checkout

  function LineKeys(orderKey: string, m: nat): set<string> {
    set i | 0 <= i < m :: LineReservationKey(orderKey, i)
  }

  /** What the first `m` lines still hold on the key. */
  function OpenSum(t: Tables, orderKey: string, m: nat, k: ItemKey): nat {
    if m == 0 then 0
    else
      var key := LineReservationKey(orderKey, m - 1);
      OpenSum(t, orderKey, m - 1, k)
      + if InStatus(Rows(t), key, Reserved) && t.reservations[key].at == k then t.reservations[key].qty else 0
  }

  function Tries(orderKey: string, orderId: string, lines: seq<Line>, n: nat): (calls: seq<RowCall>)
    requires n <= |lines|
    ensures forall c | c in calls :: WellFormed(c)
  {
    if n == 0 then [] else Tries(orderKey, orderId, lines, n - 1) + [TryRow(LineRequest(orderKey, orderId, lines, n - 1))]
  }

  lemma {:induction false} RunAppend(t: Tables, calls: seq<RowCall>, c: RowCall, k: ItemKey)
    requires (forall d | d in calls :: WellFormed(d)) && WellFormed(c)
    ensures RunRows(t, calls + [c]) == PerformRow(RunRows(t, calls), c).tables
    ensures Strays(t, calls + [c], k) == Strays(t, calls, k) + Stray(RunRows(t, calls), c, k)
    decreases |calls|
  {
    if calls == [] {
      assert [c][1..] == [];
    } else {
      assert (calls + [c])[1..] == calls[1..] + [c];
      RunAppend(PerformRow(t, calls[0]).tables, calls[1..], c, k);
    }
  }

  // ----- Rows since the checkout began -----

  /** How the quantities of a key have moved while the tries in `tries` were granted and anything was cancelled. */
  ghost predicate Shifted(t0: Tables, t: Tables, tries: seq<RowCall>, k: ItemKey)
    requires |t.rows| == |t0.rows| && forall c | c in tries :: WellFormed(c)
  {
    && ReservedIn(t.rows, k) - HeldIn(t, k, Reserved) == ReservedIn(t0.rows, k) - HeldIn(t0, k, Reserved)
    && (OldestRow(t0.rows, k).Some? ==>
          var o := OldestRow(t0.rows, k).value;
          t.rows[o].item.reserved - HeldIn(t, k, Reserved) + Strays(t0, tries, k)
          == t0.rows[o].item.reserved - HeldIn(t0, k, Reserved))
  }

  ghost predicate RowsSince(t0: Tables, t: Tables, tries: seq<RowCall>)
    requires forall c | c in tries :: WellFormed(c)
  {
    SameRows(t0.rows, t.rows) && NonNegative(t) && forall k :: Shifted(t0, t, tries, k)
  }

  /** The reservations there were, and one under each of the first `m` line keys. */
  ghost predicate ReservationsSince(t0: Tables, t: Tables, orderKey: string, m: nat) {
    && t.reservations.Keys == t0.reservations.Keys + LineKeys(orderKey, m)
    && forall key | key in t0.reservations :: t.reservations[key] == t0.reservations[key]
  }

  lemma StaysNonNegative(t: Tables, c: RowCall)
    requires NonNegative(t) && WellFormed(c) && !c.AdjustRow?
    ensures NonNegative(PerformRow(t, c).tables)
  {
  }

  lemma StillSameRows(a: seq<ItemRow>, b: seq<ItemRow>, c: seq<ItemRow>)
    requires SameRows(a, b) && SameRows(b, c)
    ensures SameRows(a, c)
  {
  }

  lemma ShiftedByTry(t0: Tables, t: Tables, tries: seq<RowCall>, c: RowCall, k: ItemKey)
    requires (forall d | d in tries :: WellFormed(d)) && c.TryRow? && t == RunRows(t0, tries)
    requires SameRows(t0.rows, t.rows) && Shifted(t0, t, tries, k)
    ensures var t' := PerformRow(t, c).tables;
            SameRows(t0.rows, t'.rows) && Shifted(t0, t', tries + [c], k)
  {
    RowLaws(t, c, k);
    StillSameRows(t0.rows, t.rows, PerformRow(t, c).tables.rows);
    RunAppend(t0, tries, c, k);
    if OldestRow(t0.rows, k).Some? {
      OldestStep(t, c, k, OldestRow(t0.rows, k).value);
    }
  }

  lemma TryShifts(t0: Tables, t: Tables, tries: seq<RowCall>, c: RowCall)
    requires (forall d | d in tries :: WellFormed(d)) && c.TryRow? && t == RunRows(t0, tries) && RowsSince(t0, t, tries)
    ensures var t' := PerformRow(t, c).tables;
            RowsSince(t0, t', tries + [c]) && t' == RunRows(t0, tries + [c])
  {
    StaysNonNegative(t, c);
    ShiftedByTry(t0, t, tries, c, ItemKey("", ""));
    forall k ensures Shifted(t0, PerformRow(t, c).tables, tries + [c], k) {
      ShiftedByTry(t0, t, tries, c, k);
    }
    RunAppend(t0, tries, c, ItemKey("", ""));
  }

  lemma ShiftedByCancel(t0: Tables, t: Tables, tries: seq<RowCall>, key: string, k: ItemKey)
    requires (forall d | d in tries :: WellFormed(d)) && SameRows(t0.rows, t.rows) && Shifted(t0, t, tries, k)
    ensures var t' := SettleRowReservation(t, key, Cancelled).tables;
            SameRows(t0.rows, t'.rows) && Shifted(t0, t', tries, k)
  {
    var c := SettleRow(key, Cancelled);
    RowLaws(t, c, k);
    StillSameRows(t0.rows, t.rows, PerformRow(t, c).tables.rows);
    if OldestRow(t0.rows, k).Some? {
      OldestStep(t, c, k, OldestRow(t0.rows, k).value);
    }
  }

  lemma CancelShifts(t0: Tables, t: Tables, tries: seq<RowCall>, key: string)
    requires (forall d | d in tries :: WellFormed(d)) && RowsSince(t0, t, tries)
    ensures RowsSince(t0, SettleRowReservation(t, key, Cancelled).tables, tries)
  {
    StaysNonNegative(t, SettleRow(key, Cancelled));
    ShiftedByCancel(t0, t, tries, key, ItemKey("", ""));
    forall k ensures Shifted(t0, SettleRowReservation(t, key, Cancelled).tables, tries, k) {
      ShiftedByCancel(t0, t, tries, key, k);
    }
  }

  // ----- What open lines hold -----

  lemma HeldWithout(t: Tables, key: string, k: ItemKey)
    requires key in t.reservations
    ensures HeldIn(t, k, Reserved)
            == HeldIn(t.(reservations := t.reservations - {key}), k, Reserved)
               + if InStatus(Rows(t), key, Reserved) && t.reservations[key].at == k then t.reservations[key].qty else 0
  {
    var all := HeldQuantities(AsStock(t, Item(0, 0, 0, 1)), k, Reserved);
    TotalSplit(all, key);
    assert all - {key} == HeldQuantities(AsStock(t.(reservations := t.reservations - {key}), Item(0, 0, 0, 1)), k, Reserved);
  }

  lemma {:induction false} OpenSumAgrees(t: Tables, u: Tables, orderKey: string, m: nat, k: ItemKey)
    requires forall i | 0 <= i < m :: var key := LineReservationKey(orderKey, i);
               (key in t.reservations <==> key in u.reservations) && (key in t.reservations ==> t.reservations[key] == u.reservations[key])
    ensures OpenSum(t, orderKey, m, k) == OpenSum(u, orderKey, m, k)
  {
    if m > 0 {
      OpenSumAgrees(t, u, orderKey, m - 1, k);
    }
  }

  /** Since the checkout began, what is held has grown by what its lines still hold. */
  lemma {:induction false} HeldByLines(t0: Tables, t: Tables, orderKey: string, m: nat, k: ItemKey)
    requires FreshKeys(Rows(t0), orderKey, m) && ReservationsSince(t0, t, orderKey, m)
    ensures HeldIn(t, k, Reserved) == HeldIn(t0, k, Reserved) + OpenSum(t, orderKey, m, k)
    decreases m
  {
    if m == 0 {
      assert t.reservations == t0.reservations;
      assert HeldQuantities(AsStock(t, Item(0, 0, 0, 1)), k, Reserved) == HeldQuantities(AsStock(t0, Item(0, 0, 0, 1)), k, Reserved);
    } else {
      var key := LineReservationKey(orderKey, m - 1);
      var u := t.(reservations := t.reservations - {key});
      OtherKeys(orderKey, m - 1);
      assert key in LineKeys(orderKey, m);
      assert key !in t0.reservations;
      assert u.reservations.Keys == t0.reservations.Keys + LineKeys(orderKey, m - 1);
      HeldByLines(t0, u, orderKey, m - 1, k);
      HeldWithout(t, key, k);
      OpenSumAgrees(u, t, orderKey, m - 1, k);
    }
  }

  lemma {:induction false} OpenLineCounts(t: Tables, orderKey: string, m: nat, j: nat)
    requires j < m && InStatus(Rows(t), LineReservationKey(orderKey, j), Reserved)
    ensures var r := t.reservations[LineReservationKey(orderKey, j)]; OpenSum(t, orderKey, m, r.at) >= r.qty
  {
    if j < m - 1 {
      OpenLineCounts(t, orderKey, m - 1, j);
    }
  }

  lemma {:induction false} NothingOpen(t: Tables, orderKey: string, m: nat, k: ItemKey)
    requires forall j | 0 <= j < m :: !InStatus(Rows(t), LineReservationKey(orderKey, j), Reserved)
    ensures OpenSum(t, orderKey, m, k) == 0
  {
    if m > 0 {
      NothingOpen(t, orderKey, m - 1, k);
    }
  }

  ghost predicate SameReservedIn(t: Tables, u: Tables) {
    forall k :: ReservedIn(t.rows, k) == ReservedIn(u.rows, k)
  }

  /** Every reserved total is as it was exactly when no line of the order is open. */
  lemma SameExactlyWhenClosed(t0: Tables, t: Tables, tries: seq<RowCall>, orderKey: string, m: nat)
    requires (forall c | c in tries :: WellFormed(c)) && RowsSince(t0, t, tries)
    requires FreshKeys(Rows(t0), orderKey, m) && ReservationsSince(t0, t, orderKey, m)
    ensures forall k :: ReservedIn(t.rows, k) == ReservedIn(t0.rows, k) + OpenSum(t, orderKey, m, k)
    ensures SameReservedIn(t0, t) <==> forall j | 0 <= j < m :: !InStatus(Rows(t), LineReservationKey(orderKey, j), Reserved)
  {
    forall k ensures ReservedIn(t.rows, k) == ReservedIn(t0.rows, k) + OpenSum(t, orderKey, m, k) {
      HeldByLines(t0, t, orderKey, m, k);
      assert Shifted(t0, t, tries, k);
    }
    if j :| 0 <= j < m && InStatus(Rows(t), LineReservationKey(orderKey, j), Reserved) {
      OpenLineCounts(t, orderKey, m, j);
      var k := t.reservations[LineReservationKey(orderKey, j)].at;
      assert ReservedIn(t.rows, k) > ReservedIn(t0.rows, k);
    } else {
      forall k ensures ReservedIn(t.rows, k) == ReservedIn(t0.rows, k) {
        NothingOpen(t, orderKey, m, k);
      }
    }
  }

  // ----- The tries -----

  /** The lines in `made` are reserved, each under its own key and on a row that exists. */
  ghost predicate AfterTries(t0: Tables, t: Tables, orderKey: string, orderId: string, lines: seq<Line>, made: seq<Reservation>) {
    && |made| <= |lines|
    && t == RunRows(t0, Tries(orderKey, orderId, lines, |made|)) && RowsSince(t0, t, Tries(orderKey, orderId, lines, |made|))
    && ReservationsSince(t0, t, orderKey, |made|) && LinesOpen(t0, t, orderKey, made, 0)
  }

  /** The lines from `from` on are open as they were made. */
  ghost predicate LinesOpen(t0: Tables, t: Tables, orderKey: string, made: seq<Reservation>, from: nat) {
    forall j | from <= j < |made| ::
      && LineReservationKey(orderKey, j) in t.reservations && t.reservations[LineReservationKey(orderKey, j)] == made[j]
      && made[j].status == Reserved && OldestRow(t0.rows, made[j].at).Some?
  }

  /** A granted try under a new key adds the reservation it answers with. */
  lemma Granted(t: Tables, q: Request)
    requires q.key !in t.reservations && TryRowReserve(t, q).reply.Accepted?
    ensures var (t', r) := (TryRowReserve(t, q).tables, TryRowReserve(t, q).reply.reservation);
            t'.reservations == t.reservations[q.key := r] && r.status == Reserved && OldestRow(t.rows, r.at).Some?
  {
    var i := BestRow(t.rows, q).value;
    OldestIsOldest(t.rows, t.rows[i].key, i);
  }

  lemma OneMoreReservation(t0: Tables, t: Tables, t': Tables, orderKey: string, m: nat, n: nat, r: Reservation)
    requires m < n && FreshKeys(Rows(t0), orderKey, n) && ReservationsSince(t0, t, orderKey, m)
    requires t'.reservations == t.reservations[LineReservationKey(orderKey, m) := r]
    ensures LineReservationKey(orderKey, m) !in t.reservations && ReservationsSince(t0, t', orderKey, m + 1)
  {
    OtherKeys(orderKey, m);
    assert LineKeys(orderKey, m + 1) == LineKeys(orderKey, m) + {LineReservationKey(orderKey, m)};
  }

  lemma KeyStillFree(t0: Tables, t: Tables, orderKey: string, m: nat, n: nat)
    requires m < n && FreshKeys(Rows(t0), orderKey, n) && ReservationsSince(t0, t, orderKey, m)
    ensures LineReservationKey(orderKey, m) !in t.reservations
  {
    OtherKeys(orderKey, m);
  }

  lemma LineGranted(t0: Tables, t: Tables, orderKey: string, orderId: string, lines: seq<Line>, made: seq<Reservation>)
    requires FreshKeys(Rows(t0), orderKey, |lines|) && AfterTries(t0, t, orderKey, orderId, lines, made) && |made| < |lines|
    requires TryRowReserve(t, LineRequest(orderKey, orderId, lines, |made|)).reply.Accepted?
    ensures var o := TryRowReserve(t, LineRequest(orderKey, orderId, lines, |made|));
            AfterTries(t0, o.tables, orderKey, orderId, lines, made + [o.reply.reservation])
  {
    var m, q := |made|, LineRequest(orderKey, orderId, lines, |made|);
    var (t', r) := (TryRowReserve(t, q).tables, TryRowReserve(t, q).reply.reservation);
    KeyStillFree(t0, t, orderKey, m, |lines|);
    Granted(t, q);
    OneMoreReservation(t0, t, t', orderKey, m, |lines|, r);
    TryShifts(t0, t, Tries(orderKey, orderId, lines, m), TryRow(q));
    OneMoreOpen(t0, t, t', orderKey, made, r);
  }

  lemma OneMoreOpen(t0: Tables, t: Tables, t': Tables, orderKey: string, made: seq<Reservation>, r: Reservation)
    requires LinesOpen(t0, t, orderKey, made, 0) && r.status == Reserved && OldestRow(t0.rows, r.at).Some?
    requires t'.reservations == t.reservations[LineReservationKey(orderKey, |made|) := r]
    ensures LinesOpen(t0, t', orderKey, made + [r], 0)
  {
    OtherKeys(orderKey, |made|);
  }

  lemma LineAnswered(t0: Tables, t: Tables, orderKey: string, orderId: string, lines: seq<Line>, net: seq<Delivery>,
                     made: seq<Reservation>)
    requires FreshKeys(Rows(t0), orderKey, |lines|) && |lines| == |net| && AfterTries(t0, t, orderKey, orderId, lines, made)
    requires |made| < |lines| && Rows(t) == StoreAfterTries(Rows(t0), orderKey, orderId, lines, net, |made|)
    requires TryLine(Rows(t), orderKey, orderId, lines, |made|, net[|made|]).1.Some?
    ensures var (s', reservation) := TryLine(Rows(t), orderKey, orderId, lines, |made|, net[|made|]);
            && s'.Rows? && AfterTries(t0, s'.tables, orderKey, orderId, lines, made + [reservation.value])
            && s' == StoreAfterTries(Rows(t0), orderKey, orderId, lines, net, |made| + 1)
  {
    LineGranted(t0, t, orderKey, orderId, lines, made);
  }

  ghost predicate Stopped(t0: Tables, a: Attempt, orderKey: string, orderId: string, lines: seq<Line>, net: seq<Delivery>)
    requires |lines| == |net|
  {
    && |a.made| <= |lines|
    && var stop := StoreAfterTries(Rows(t0), orderKey, orderId, lines, net, |a.made|);
    && stop.Rows? && AfterTries(t0, stop.tables, orderKey, orderId, lines, a.made)
    && (a.store, None) == if |a.made| == |lines| then (stop, None)
                          else TryLine(stop, orderKey, orderId, lines, |a.made|, net[|a.made|])
  }

  /** How the loop over the lines ends: with all reserved, or just before the line that failed. */
  lemma {:induction false} TriesEnd(t0: Tables, t: Tables, orderKey: string, orderId: string, lines: seq<Line>,
                                    net: seq<Delivery>, made: seq<Reservation>)
    requires FreshKeys(Rows(t0), orderKey, |lines|) && |lines| == |net| && AfterTries(t0, t, orderKey, orderId, lines, made)
    requires Rows(t) == StoreAfterTries(Rows(t0), orderKey, orderId, lines, net, |made|)
    ensures Stopped(t0, ReserveFrom(Rows(t), orderKey, orderId, lines, net, made), orderKey, orderId, lines, net)
    decreases |lines| - |made|
  {
    if Stops(Rows(t), orderKey, orderId, lines, net, made) {
      StopsHere(t0, t, orderKey, orderId, lines, net, made);
    } else {
      var (s', reservation) := TryLine(Rows(t), orderKey, orderId, lines, |made|, net[|made|]);
      LineAnswered(t0, t, orderKey, orderId, lines, net, made);
      TriesEnd(t0, s'.tables, orderKey, orderId, lines, net, made + [reservation.value]);
    }
  }

  predicate Stops(s: Store, orderKey: string, orderId: string, lines: seq<Line>, net: seq<Delivery>, made: seq<Reservation>)
    requires |made| <= |lines| == |net|
  {
    |made| == |lines| || TryLine(s, orderKey, orderId, lines, |made|, net[|made|]).1.None?
  }

  lemma StopsHere(t0: Tables, t: Tables, orderKey: string, orderId: string, lines: seq<Line>, net: seq<Delivery>, made: seq<Reservation>)
    requires |lines| == |net| && AfterTries(t0, t, orderKey, orderId, lines, made)
    requires Rows(t) == StoreAfterTries(Rows(t0), orderKey, orderId, lines, net, |made|)
    requires Stops(Rows(t), orderKey, orderId, lines, net, made)
    ensures Stopped(t0, ReserveFrom(Rows(t), orderKey, orderId, lines, net, made), orderKey, orderId, lines, net)
  {
  }

  // ----- The cancels -----

  /** The tries took no more from younger rows of the key than the oldest row has reserved otherwise. */
  ghost predicate StraysCovered(t0: Tables, tries: seq<RowCall>, k: ItemKey)
    requires forall c | c in tries :: WellFormed(c)
  {
    OldestRow(t0.rows, k).Some? ==> Strays(t0, tries, k) <= t0.rows[OldestRow(t0.rows, k).value].item.reserved
  }

  /** Then a delivered cancel of an open line is accepted. */
  lemma CancelAccepted(t0: Tables, t: Tables, tries: seq<RowCall>, orderKey: string, m: nat, j: nat)
    requires (forall c | c in tries :: WellFormed(c)) && RowsSince(t0, t, tries)
    requires FreshKeys(Rows(t0), orderKey, m) && ReservationsSince(t0, t, orderKey, m)
    requires j < m && InStatus(Rows(t), LineReservationKey(orderKey, j), Reserved)
    requires var k := t.reservations[LineReservationKey(orderKey, j)].at;
             OldestRow(t0.rows, k).Some? && StraysCovered(t0, tries, k)
    ensures var key := LineReservationKey(orderKey, j);
            SettleRowReservation(t, key, Cancelled).tables.reservations
            == t.reservations[key := t.reservations[key].(status := Cancelled)]
  {
    var r := t.reservations[LineReservationKey(orderKey, j)];
    assert r.qty <= t.rows[OldestRow(t0.rows, r.at).value].item.reserved by {
      HeldByLines(t0, t, orderKey, m, r.at);
      OpenLineCounts(t, orderKey, m, j);
      assert Shifted(t0, t, tries, r.at);
    }
    CoveredCancel(t, LineReservationKey(orderKey, j));
  }

  lemma CoveredCancel(t: Tables, key: string)
    requires NonNegative(t) && InStatus(Rows(t), key, Reserved)
    requires var (r, o) := (t.reservations[key], OldestRow(t.rows, t.reservations[key].at));
             o.Some? && r.qty <= t.rows[o.value].item.reserved
    ensures SettleRowReservation(t, key, Cancelled).tables.reservations
            == t.reservations[key := t.reservations[key].(status := Cancelled)]
  {
  }

  /** The reservation is settled or left alone, no other is touched. */
  lemma CancelTouches(t: Tables, key: string)
    requires key in t.reservations
    ensures var t' := SettleRowReservation(t, key, Cancelled).tables;
            t'.reservations == t.reservations || t'.reservations == t.reservations[key := t.reservations[key].(status := Cancelled)]
  {
  }

  /** Once all strays are paid for: the lines up to `from` whose cancel was delivered are closed. */
  ghost predicate Closed(t: Tables, orderKey: string, undo: seq<Delivery>, order: seq<nat>)
    requires forall i | i in order :: i < |undo|
  {
    forall i | i in order && undo[i] != NotDone :: !InStatus(Rows(t), LineReservationKey(orderKey, i), Reserved)
  }

  /** The cancels so far: lines they did not name are open as made, and so are those whose cancel was not delivered. */
  ghost predicate Cancelling(t0: Tables, t: Tables, tries: seq<RowCall>, orderKey: string, m: nat, made: seq<Reservation>,
                             undo: seq<Delivery>, order: seq<nat>)
    requires (forall c | c in tries :: WellFormed(c)) && |made| <= |undo|
  {
    && RowsSince(t0, t, tries) && ReservationsSince(t0, t, orderKey, m) && |made| <= m
    && (forall j | 0 <= j < |made| :: (j !in order || undo[j] == NotDone) ==> LineOpen(t, orderKey, made, j))
    && (forall j | |made| <= j < m :: InStatus(Rows(t), LineReservationKey(orderKey, j), Reserved))
  }

  predicate LineOpen(t: Tables, orderKey: string, made: seq<Reservation>, j: nat)
    requires j < |made|
  {
    && LineReservationKey(orderKey, j) in t.reservations
    && t.reservations[LineReservationKey(orderKey, j)] == made[j] && made[j].status == Reserved
  }

  lemma OneCancel(t0: Tables, t: Tables, tries: seq<RowCall>, orderKey: string, m: nat, made: seq<Reservation>,
                  undo: seq<Delivery>, order: seq<nat>, i: nat)
    requires (forall c | c in tries :: WellFormed(c)) && |made| <= |undo| && i < |made| && i !in order
    requires FreshKeys(Rows(t0), orderKey, m) && Cancelling(t0, t, tries, orderKey, m, made, undo, order)
    ensures var s := Undone(Rows(t), orderKey, made, undo, i);
            s.Rows? && Cancelling(t0, s.tables, tries, orderKey, m, made, undo, order + [i])
  {
    var key := LineReservationKey(orderKey, i);
    assert LineOpen(t, orderKey, made, i);
    if undo[i] != NotDone {
      CancelShifts(t0, t, tries, key);
      CancelLeaves(t0, t, orderKey, m, i);
      var t' := SettleRowReservation(t, key, Cancelled).tables;
      forall j | 0 <= j < |made| && (j !in order + [i] || undo[j] == NotDone) ensures LineOpen(t', orderKey, made, j) {
        assert LineOpen(t, orderKey, made, j);
      }
    }
  }

  /** A cancel leaves the keys and every other reservation as they are. */
  lemma CancelLeaves(t0: Tables, t: Tables, orderKey: string, m: nat, i: nat)
    requires ReservationsSince(t0, t, orderKey, m) && i < m && FreshKeys(Rows(t0), orderKey, m)
    ensures var t' := SettleRowReservation(t, LineReservationKey(orderKey, i), Cancelled).tables;
            && ReservationsSince(t0, t', orderKey, m)
            && forall j: nat | j != i && LineReservationKey(orderKey, j) in t.reservations ::
                 t'.reservations[LineReservationKey(orderKey, j)] == t.reservations[LineReservationKey(orderKey, j)]
  {
    var key := LineReservationKey(orderKey, i);
    assert key in LineKeys(orderKey, m);
    CancelTouches(t, key);
    OtherKeys(orderKey, i);
  }

  lemma {:induction false} CancelsKeep(t0: Tables, t: Tables, tries: seq<RowCall>, orderKey: string, m: nat,
                                       made: seq<Reservation>, undo: seq<Delivery>, order: seq<nat>)
    requires (forall c | c in tries :: WellFormed(c)) && |made| <= |undo| && Apart(order, |made|)
    requires FreshKeys(Rows(t0), orderKey, m) && Cancelling(t0, t, tries, orderKey, m, made, undo, [])
    ensures var s := CancelInOrder(Rows(t), orderKey, made, undo, order);
            s.Rows? && Cancelling(t0, s.tables, tries, orderKey, m, made, undo, order)
  {
    if order != [] {
      var (init, i) := (order[..|order| - 1], order[|order| - 1]);
      CancelsKeep(t0, t, tries, orderKey, m, made, undo, init);
      OneCancel(t0, CancelInOrder(Rows(t), orderKey, made, undo, init).tables, tries, orderKey, m, made, undo, init, i);
      assert order == init + [i];
    } else {
      assert order == [];
    }
  }

  lemma {:induction false} CoveredCancelsClose(t0: Tables, t: Tables, tries: seq<RowCall>, orderKey: string, made: seq<Reservation>,
                                               undo: seq<Delivery>, order: seq<nat>)
    requires (forall c | c in tries :: WellFormed(c)) && |made| <= |undo| && Apart(order, |made|)
    requires FreshKeys(Rows(t0), orderKey, |made|) && LinesOpen(t0, t, orderKey, made, 0)
    requires Cancelling(t0, t, tries, orderKey, |made|, made, undo, [])
    requires AllStraysCovered(t0, tries)
    ensures var s := CancelInOrder(Rows(t), orderKey, made, undo, order);
            s.Rows? && Closed(s.tables, orderKey, undo, order)
  {
    if order != [] {
      var (init, i) := (order[..|order| - 1], order[|order| - 1]);
      CoveredCancelsClose(t0, t, tries, orderKey, made, undo, init);
      CancelsKeep(t0, t, tries, orderKey, |made|, made, undo, init);
      var u := CancelInOrder(Rows(t), orderKey, made, undo, init).tables;
      assert order == init + [i] && i !in init;
      CoveredCancelCloses(t0, u, tries, orderKey, made, undo, init, i);
    }
  }

  lemma CoveredCancelCloses(t0: Tables, t: Tables, tries: seq<RowCall>, orderKey: string, made: seq<Reservation>,
                            undo: seq<Delivery>, order: seq<nat>, i: nat)
    requires (forall c | c in tries :: WellFormed(c)) && |made| <= |undo| && i < |made| && i !in order
    requires FreshKeys(Rows(t0), orderKey, |made|) && Cancelling(t0, t, tries, orderKey, |made|, made, undo, order)
    requires (forall j | j in order :: j < |made|) && Closed(t, orderKey, undo, order)
    requires OldestRow(t0.rows, made[i].at).Some? && StraysCovered(t0, tries, made[i].at)
    ensures var s := Undone(Rows(t), orderKey, made, undo, i);
            s.Rows? && Closed(s.tables, orderKey, undo, order + [i])
  {
    assert LineOpen(t, orderKey, made, i);
    if undo[i] != NotDone {
      CancelAccepted(t0, t, tries, orderKey, |made|, i);
      OtherKeys(orderKey, i);
    }
  }

  // ----- All or nothing -----

  /** The failing try: it changed nothing, or it was carried out behind a lost reply. */
  lemma FailedTry(t0: Tables, t: Tables, orderKey: string, orderId: string, lines: seq<Line>, made: seq<Reservation>, d: Delivery)
    requires FreshKeys(Rows(t0), orderKey, |lines|) && AfterTries(t0, t, orderKey, orderId, lines, made) && |made| < |lines|
    requires TryLine(Rows(t), orderKey, orderId, lines, |made|, d).1.None?
    ensures var (n, s) := (|made|, TryLine(Rows(t), orderKey, orderId, lines, |made|, d).0);
            var leaked := d == ReplyLost && TryRowReserve(t, LineRequest(orderKey, orderId, lines, n)).reply.Accepted?;
            s == Rows(if leaked then TryRowReserve(t, LineRequest(orderKey, orderId, lines, n)).tables else t)
  {
    KeyStillFree(t0, t, orderKey, |made|, |lines|);
  }

  lemma Beginning(t0: Tables, orderKey: string, orderId: string, lines: seq<Line>)
    requires NonNegative(t0)
    ensures AfterTries(t0, t0, orderKey, orderId, lines, [])
  {
    assert LineKeys(orderKey, 0) == {};
  }

  lemma StartCancelling(t0: Tables, t: Tables, orderKey: string, orderId: string, lines: seq<Line>, held: seq<Reservation>,
                        made: seq<Reservation>, undo: seq<Delivery>)
    requires AfterTries(t0, t, orderKey, orderId, lines, held) && made <= held && |made| <= |undo|
    ensures Cancelling(t0, t, Tries(orderKey, orderId, lines, |held|), orderKey, |held|, made, undo, [])
  {
  }

  /** What the failed checkout of the lines in `made` leaves: the cancels have arrived, in the given order. */
  ghost predicate Left(t0: Tables, u: Tables, orderKey: string, n: nat, m: nat, undo: seq<Delivery>, covered: bool)
    requires n <= |undo|
  {
    && (forall k :: ReservedIn(u.rows, k) == ReservedIn(t0.rows, k) + OpenSum(u, orderKey, m, k))
    && (SameReservedIn(t0, u) <==> m == n && AllDelivered(undo, n) && covered)
  }

  ghost predicate AllStraysCovered(t0: Tables, tries: seq<RowCall>)
    requires forall c | c in tries :: WellFormed(c)
  {
    forall k :: StraysCovered(t0, tries, k)
  }

  predicate AllDelivered(undo: seq<Delivery>, n: nat)
    requires n <= |undo|
  {
    forall j | 0 <= j < n :: undo[j] != NotDone
  }

  /** Nothing leaked: every total is back exactly when all cancels were delivered and the strays are paid for. */
  lemma CleanEnd(t0: Tables, t: Tables, orderKey: string, orderId: string, lines: seq<Line>, made: seq<Reservation>,
                 undo: seq<Delivery>, order: seq<nat>)
    requires FreshKeys(Rows(t0), orderKey, |lines|) && AfterTries(t0, t, orderKey, orderId, lines, made)
    requires |made| <= |undo| && Arrangement(order, |made|)
    ensures var (s, n) := (CancelInOrder(Rows(t), orderKey, made, undo, order), |made|);
            s.Rows? && Left(t0, s.tables, orderKey, n, n, undo, AllStraysCovered(t0, Tries(orderKey, orderId, lines, n)))
  {
    var n, tries := |made|, Tries(orderKey, orderId, lines, |made|);
    StartCancelling(t0, t, orderKey, orderId, lines, made, made, undo);
    CancelsKeep(t0, t, tries, orderKey, n, made, undo, order);
    var u := CancelInOrder(Rows(t), orderKey, made, undo, order).tables;
    SameExactlyWhenClosed(t0, u, tries, orderKey, n);
    if SameReservedIn(t0, u) {
      ClosedMeansDelivered(t0, u, tries, orderKey, made, undo, order);
      SameMeansAllCovered(t0, u, tries);
    }
    if AllStraysCovered(t0, tries) && AllDelivered(undo, n) {
      CoveredCancelsClose(t0, t, tries, orderKey, made, undo, order);
      AllClosed(u, orderKey, undo, order, n);
    }
  }

  lemma ClosedMeansDelivered(t0: Tables, u: Tables, tries: seq<RowCall>, orderKey: string, made: seq<Reservation>,
                             undo: seq<Delivery>, order: seq<nat>)
    requires (forall c | c in tries :: WellFormed(c)) && |made| <= |undo|
    requires Cancelling(t0, u, tries, orderKey, |made|, made, undo, order)
    requires forall j | 0 <= j < |made| :: !InStatus(Rows(u), LineReservationKey(orderKey, j), Reserved)
    ensures AllDelivered(undo, |made|)
  {
    forall j | 0 <= j < |made| ensures undo[j] != NotDone {
      if undo[j] == NotDone {
        UndeliveredStaysOpen(t0, u, tries, orderKey, made, undo, order, j);
      }
    }
  }

  lemma UndeliveredStaysOpen(t0: Tables, u: Tables, tries: seq<RowCall>, orderKey: string, made: seq<Reservation>,
                             undo: seq<Delivery>, order: seq<nat>, j: nat)
    requires (forall c | c in tries :: WellFormed(c)) && |made| <= |undo| && j < |made| && undo[j] == NotDone
    requires Cancelling(t0, u, tries, orderKey, |made|, made, undo, order)
    ensures InStatus(Rows(u), LineReservationKey(orderKey, j), Reserved)
  {
    assert LineOpen(u, orderKey, made, j);
  }

  lemma AllClosed(u: Tables, orderKey: string, undo: seq<Delivery>, order: seq<nat>, n: nat)
    requires n <= |undo| && Arrangement(order, n) && Closed(u, orderKey, undo, order) && AllDelivered(undo, n)
    ensures forall j | 0 <= j < n :: !InStatus(Rows(u), LineReservationKey(orderKey, j), Reserved)
  {
    forall j | 0 <= j < n ensures !InStatus(Rows(u), LineReservationKey(orderKey, j), Reserved) {
      assert j in order && undo[j] != NotDone;
    }
  }

  lemma SameMeansAllCovered(t0: Tables, u: Tables, tries: seq<RowCall>)
    requires (forall c | c in tries :: WellFormed(c)) && RowsSince(t0, u, tries) && SameReservedIn(t0, u)
    ensures AllStraysCovered(t0, tries)
  {
    forall k ensures StraysCovered(t0, tries, k) {
      SameMeansCovered(t0, u, tries, k);
    }
  }

  lemma SameMeansCovered(t0: Tables, u: Tables, tries: seq<RowCall>, k: ItemKey)
    requires (forall c | c in tries :: WellFormed(c)) && RowsSince(t0, u, tries) && SameReservedIn(t0, u)
    ensures StraysCovered(t0, tries, k)
  {
    assert Shifted(t0, u, tries, k);
  }

  /** A leaked line stays open. */
  lemma LeakyEnd(t0: Tables, t: Tables, orderKey: string, orderId: string, lines: seq<Line>, held: seq<Reservation>,
                 undo: seq<Delivery>, order: seq<nat>, covered: bool)
    requires FreshKeys(Rows(t0), orderKey, |lines|) && AfterTries(t0, t, orderKey, orderId, lines, held) && held != []
    requires |held| - 1 <= |undo| && Apart(order, |held| - 1)
    ensures var (n, made) := (|held| - 1, held[..|held| - 1]);
            var s := CancelInOrder(Rows(t), orderKey, made, undo, order);
            s.Rows? && Left(t0, s.tables, orderKey, n, n + 1, undo, covered)
  {
    var (n, made, tries) := (|held| - 1, held[..|held| - 1], Tries(orderKey, orderId, lines, |held|));
    StartCancelling(t0, t, orderKey, orderId, lines, held, made, undo);
    CancelsKeep(t0, t, tries, orderKey, n + 1, made, undo, order);
    var u := CancelInOrder(Rows(t), orderKey, made, undo, order).tables;
    SameExactlyWhenClosed(t0, u, tries, orderKey, n + 1);
    assert InStatus(Rows(u), LineReservationKey(orderKey, n), Reserved);
  }

  /**
   * A failed checkout leaves every reserved total as it was, in whatever order its cancels arrive, exactly when the failing try
   * was not carried out behind a lost reply, every cancel was delivered, and the tries took no more from younger rows than the
   * oldest rows had reserved otherwise. Whatever it leaves is held by its own open reservations.
   */
  lemma AllOrNothingInBatches(t0: Tables, orderKey: string, orderId: string, lines: seq<Line>, net: seq<Delivery>,
                              undo: seq<Delivery>, order: seq<nat>)
    requires NonNegative(t0) && FreshKeys(Rows(t0), orderKey, |lines|)
    requires |lines| == |net| == |undo| && ReserveInventory(Rows(t0), orderKey, orderId, lines, net, undo).1.None?
    requires Arrangement(order, |ReserveFrom(Rows(t0), orderKey, orderId, lines, net, []).made|)
    ensures var a := ReserveFrom(Rows(t0), orderKey, orderId, lines, net, []);
            var n := |a.made|;
            && n < |lines|
            && var (s, leaked) := (CancelInOrder(a.store, orderKey, a.made, undo, order), Leaked(Rows(t0), orderKey, orderId, lines, net, n));
               s.Rows? && Left(t0, s.tables, orderKey, n, if leaked then n + 1 else n, undo,
                               AllStraysCovered(t0, Tries(orderKey, orderId, lines, n)))
  {
    Beginning(t0, orderKey, orderId, lines);
    TriesEnd(t0, t0, orderKey, orderId, lines, net, []);
    FailedEnd(t0, ReserveFrom(Rows(t0), orderKey, orderId, lines, net, []), orderKey, orderId, lines, net, undo, order);
  }

  lemma FailedEnd(t0: Tables, a: Attempt, orderKey: string, orderId: string, lines: seq<Line>, net: seq<Delivery>,
                  undo: seq<Delivery>, order: seq<nat>)
    requires NonNegative(t0) && FreshKeys(Rows(t0), orderKey, |lines|) && |lines| == |net| == |undo|
    requires Stopped(t0, a, orderKey, orderId, lines, net) && |a.made| < |lines| && Arrangement(order, |a.made|)
    ensures var n := |a.made|;
            var (s, leaked) := (CancelInOrder(a.store, orderKey, a.made, undo, order), Leaked(Rows(t0), orderKey, orderId, lines, net, n));
            s.Rows? && Left(t0, s.tables, orderKey, n, if leaked then n + 1 else n, undo,
                            AllStraysCovered(t0, Tries(orderKey, orderId, lines, n)))
  {
    var n := |a.made|;
    var t := StoreAfterTries(Rows(t0), orderKey, orderId, lines, net, n).tables;
    assert (a.store, None) == TryLine(Rows(t), orderKey, orderId, lines, n, net[n]);
    FailedTry(t0, t, orderKey, orderId, lines, a.made, net[n]);
    if Leaked(Rows(t0), orderKey, orderId, lines, net, n) {
      LeakyFailure(t0, t, orderKey, orderId, lines, a.made, undo, order, AllStraysCovered(t0, Tries(orderKey, orderId, lines, n)));
    } else {
      CleanEnd(t0, t, orderKey, orderId, lines, a.made, undo, order);
    }
  }

  lemma LeakyFailure(t0: Tables, t: Tables, orderKey: string, orderId: string, lines: seq<Line>, made: seq<Reservation>,
                     undo: seq<Delivery>, order: seq<nat>, covered: bool)
    requires FreshKeys(Rows(t0), orderKey, |lines|) && AfterTries(t0, t, orderKey, orderId, lines, made) && |made| < |lines| == |undo|
    requires TryRowReserve(t, LineRequest(orderKey, orderId, lines, |made|)).reply.Accepted? && Apart(order, |made|)
    ensures var t' := TryRowReserve(t, LineRequest(orderKey, orderId, lines, |made|)).tables;
            var s := CancelInOrder(Rows(t'), orderKey, made, undo, order);
            s.Rows? && Left(t0, s.tables, orderKey, |made|, |made| + 1, undo, covered)
  {
    var o := TryRowReserve(t, LineRequest(orderKey, orderId, lines, |made|));
    var held := made + [o.reply.reservation];
    LineGranted(t0, t, orderKey, orderId, lines, made);
    assert held[..|held| - 1] == made;
    LeakyEnd(t0, o.tables, orderKey, orderId, lines, held, undo, order, covered);
  }

  /** Every reservation of a successful checkout is held, and nothing else is new. */
  lemma SuccessTotals(t0: Tables, orderKey: string, orderId: string, lines: seq<Line>, net: seq<Delivery>, undo: seq<Delivery>)
    requires NonNegative(t0) && FreshKeys(Rows(t0), orderKey, |lines|)
    requires |lines| == |net| == |undo| && ReserveInventory(Rows(t0), orderKey, orderId, lines, net, undo).1.Some?
    ensures var (s, made) := ReserveInventory(Rows(t0), orderKey, orderId, lines, net, undo);
            && s.Rows? && |made.value| == |lines| && LinesOpen(t0, s.tables, orderKey, made.value, 0)
            && forall k :: ReservedIn(s.tables.rows, k) == ReservedIn(t0.rows, k) + OpenSum(s.tables, orderKey, |lines|, k)
  {
    Beginning(t0, orderKey, orderId, lines);
    TriesEnd(t0, t0, orderKey, orderId, lines, net, []);
    var a := ReserveFrom(Rows(t0), orderKey, orderId, lines, net, []);
    SameExactlyWhenClosed(t0, a.store.tables, Tries(orderKey, orderId, lines, |lines|), orderKey, |lines|);
  }

  // ----- A checkout that leaks nothing and keeps stock all the same -----

  const LINES := [Line("sku", 4, SKU), Line("sku", 100, SKU)]

  const HELD := Reservation(SKU, Some("id"), 4, Reserved)

  const AFTER_ONE := Tables([TWO_BATCHES.rows[0], ItemRow(SKU, "B", Item(9, 4, 0, 2))], map[LineReservationKey("o", 0) := HELD])

  lemma FirstLineGranted()
    ensures TryRowReserve(TWO_BATCHES, LineRequest("o", "id", LINES, 0)) == RowOutcome(AFTER_ONE, Accepted(HELD, Item(9, 4, 0, 2)))
  {
    assert BestRow(TWO_BATCHES.rows, LineRequest("o", "id", LINES, 0)) == Some(1);
    assert TryRowReserve(TWO_BATCHES, LineRequest("o", "id", LINES, 0)).tables.rows == AFTER_ONE.rows;
  }

  lemma SecondLineRefused()
    ensures TryRowReserve(AFTER_ONE, LineRequest("o", "id", LINES, 1)) == RowOutcome(AFTER_ONE, Shortage(5))
  {
    OtherKeys("o", 0);
    assert BestRow(AFTER_ONE.rows, LineRequest("o", "id", LINES, 1)) == Some(0);
  }

  lemma CancelRefused()
    ensures SettleRowReservation(AFTER_ONE, LineReservationKey("o", 0), Cancelled) == RowOutcome(AFTER_ONE, StateConflict)
  {
    assert OldestRow(AFTER_ONE.rows, SKU) == Some(0);
  }

  /** The first line falls to the younger batch, the second is refused, and so is the delivered cancel of the first. */
  lemma DeliveredCancelRefused()
    ensures var net := [Acked, Acked];
            && ReserveFrom(Rows(TWO_BATCHES), "o", "id", LINES, net, []) == Attempt(Rows(AFTER_ONE), [HELD])
            && ReserveInventory(Rows(TWO_BATCHES), "o", "id", LINES, net, net) == (Rows(AFTER_ONE), None)
            && AFTER_ONE.rows[1].item.reserved == 4
  {
    FirstLineGranted();
    SecondLineRefused();
    CancelRefused();
    var net := [Acked, Acked];
    assert TryLine(Rows(TWO_BATCHES), "o", "id", LINES, 0, Acked) == (Rows(AFTER_ONE), Some(HELD));
    assert ReserveFrom(Rows(AFTER_ONE), "o", "id", LINES, net, [HELD]) == Attempt(Rows(AFTER_ONE), [HELD]);
    assert [] + [HELD] == [HELD];
    assert CancelFirst(Rows(AFTER_ONE), "o", [HELD], net, 1) == Undone(Rows(AFTER_ONE), "o", [HELD], net, 0);
  }
}
