/** Reserving the lines of a checkout one by one, and undoing them when one fails. */
module Checkout {
  import opened Collections
  import opened Inventory
  import opened InventoryBackend
  import opened InventoryStores
  import opened Keys

  /** `at` is the item the store places the line's reservation on. */
  datatype Line = Line(sku: string, qty: Quantity, at: ItemKey)

  /** `made` are the acknowledged reservations; the line after them failed unless all were made. */
  datatype Attempt = Attempt(store: Store, made: seq<Reservation>)

  function LineRequest(orderKey: string, orderId: string, lines: seq<Line>, i: nat): Request
    requires i < |lines|
  {
    Request(LineReservationKey(orderKey, i), lines[i].sku, None, Some(orderId), lines[i].qty)
  }

  function TryLine(s: Store, orderKey: string, orderId: string, lines: seq<Line>, i: nat, d: Delivery): (Store, Option<Reservation>)
    requires i < |lines|
  {
    if d == NotDone then (s, None)
    else
      var o := Handle(s, TryCall(LineRequest(orderKey, orderId, lines, i), lines[i].at));
      (o.store, if d == Acked && o.reply.Accepted? then Some(o.reply.reservation) else None)
  }

  function ReserveFrom(s: Store, orderKey: string, orderId: string, lines: seq<Line>, net: seq<Delivery>, made: seq<Reservation>): Attempt
    requires |made| <= |lines| == |net|
    decreases |lines| - |made|
  {
    if |made| == |lines| then Attempt(s, made)
    else
      var (s', reservation) := TryLine(s, orderKey, orderId, lines, |made|, net[|made|]);
      if reservation.None? then Attempt(s', made)
      else ReserveFrom(s', orderKey, orderId, lines, net, made + [reservation.value])
  }

  /** Cancels the first `n` reservations that were answered as reserved; failures are swallowed. */
  function CancelFirst(s: Store, orderKey: string, made: seq<Reservation>, undo: seq<Delivery>, n: nat): Store
    requires n <= |made| <= |undo|
  {
    if n == 0 then s
    else
      Undone(CancelFirst(s, orderKey, made, undo, n - 1), orderKey, made, undo, n - 1)
  }

  function Undone(s: Store, orderKey: string, made: seq<Reservation>, undo: seq<Delivery>, i: nat): Store
    requires i < |made| <= |undo|
  {
    if made[i].status != Reserved || undo[i] == NotDone then s
    else Handle(s, SettleCall(LineReservationKey(orderKey, i), false)).store
  }

  /** The store after the attempt, and the reservations handed to the order. */
  function ReserveInventory(s: Store, orderKey: string, orderId: string, lines: seq<Line>, net: seq<Delivery>, undo: seq<Delivery>):
    (Store, Option<seq<Reservation>>)
    requires |lines| == |net| == |undo|
  {
    var attempt := ReserveFrom(s, orderKey, orderId, lines, net, []);
    if |attempt.made| >= |lines| then (attempt.store, Some(attempt.made))
    else (CancelFirst(attempt.store, orderKey, attempt.made, undo, |attempt.made|), None)
  }

  /** The loops as the order service runs them, against the inventory over either store; the memory store has a fixed place for each SKU. */
  method ReserveLines(inventory: InventoryService, orderKey: string, orderId: string, lines: seq<Line>,
                      net: seq<Delivery>, undo: seq<Delivery>)
    returns (result: Option<seq<Reservation>>)
    requires |lines| == |net| == |undo|
    requires inventory.storage == Memory ==> forall line | line in lines :: line.at == ItemKey(DEFAULT_WAREHOUSE, line.sku)
    modifies inventory.memoryStore, inventory.repository
    ensures (inventory.View(), result) == ReserveInventory(old(inventory.View()), orderKey, orderId, lines, net, undo)
  {
    var reservations: seq<Reservation> := [];
    while |reservations| < |lines|
      invariant |reservations| <= |lines|
      invariant ReserveFrom(inventory.View(), orderKey, orderId, lines, net, reservations)
                == ReserveFrom(old(inventory.View()), orderKey, orderId, lines, net, [])
      decreases |lines| - |reservations|
    {
      var i := |reservations|;
      var answer: Option<Reservation> := None;
      if net[i] != NotDone {
        var reply := inventory.Handle(TryCall(LineRequest(orderKey, orderId, lines, i), lines[i].at));
        if net[i] == Acked && reply.Accepted? {
          answer := Some(reply.reservation);
        }
      }
      if answer.None? {
        ghost var failed := inventory.View();
        for j := 0 to i
          invariant inventory.View() == CancelFirst(failed, orderKey, reservations, undo, j)
        {
          if reservations[j].status == Reserved && undo[j] != NotDone {
            var _ := inventory.Settle(LineReservationKey(orderKey, j), false);
          }
        }
        return None;
      }
      reservations := reservations + [answer.value];
    }
    return Some(reservations);
  }

  // ----- Keys, leaks and arrival orders -----

  function StoreAfterTries(s: Store, orderKey: string, orderId: string, lines: seq<Line>, net: seq<Delivery>, n: nat): Store
    requires n <= |lines| == |net|
  {
    if n == 0 then s
    else TryLine(StoreAfterTries(s, orderKey, orderId, lines, net, n - 1), orderKey, orderId, lines, n - 1, net[n - 1]).0
  }

  /** The try of line `n` was carried out but its reply was lost. */
  predicate Leaked(s: Store, orderKey: string, orderId: string, lines: seq<Line>, net: seq<Delivery>, n: nat)
    requires n < |lines| == |net|
  {
    net[n] == ReplyLost
    && Handle(StoreAfterTries(s, orderKey, orderId, lines, net, n), TryCall(LineRequest(orderKey, orderId, lines, n), lines[n].at))
       .reply.Accepted?
  }

  /** The try of line `i` was answered, and with a reservation. */
  predicate Granted(s: Store, orderKey: string, orderId: string, lines: seq<Line>, net: seq<Delivery>, i: nat)
    requires i < |lines| == |net|
  {
    net[i] == Acked && Answer(s, orderKey, orderId, lines, net, i).Accepted?
  }

  function Answer(s: Store, orderKey: string, orderId: string, lines: seq<Line>, net: seq<Delivery>, i: nat): Reply
    requires i < |lines| == |net|
  {
    Handle(StoreAfterTries(s, orderKey, orderId, lines, net, i), TryCall(LineRequest(orderKey, orderId, lines, i), lines[i].at)).reply
  }

  lemma TryAnswered(s: Store, orderKey: string, orderId: string, lines: seq<Line>, net: seq<Delivery>, i: nat)
    requires i < |lines| == |net|
    ensures TryLine(StoreAfterTries(s, orderKey, orderId, lines, net, i), orderKey, orderId, lines, i, net[i])
            == (StoreAfterTries(s, orderKey, orderId, lines, net, i + 1),
                if Granted(s, orderKey, orderId, lines, net, i) then Some(Answer(s, orderKey, orderId, lines, net, i).reservation) else None)
  {
  }

  /** These are the answers to the first tries. */
  predicate MadeAs(s: Store, orderKey: string, orderId: string, lines: seq<Line>, net: seq<Delivery>, made: seq<Reservation>)
    requires |lines| == |net|
  {
    && |made| <= |lines|
    && forall i | 0 <= i < |made| ::
         Granted(s, orderKey, orderId, lines, net, i) && made[i] == Answer(s, orderKey, orderId, lines, net, i).reservation
  }

  lemma OneMoreMade(s: Store, orderKey: string, orderId: string, lines: seq<Line>, net: seq<Delivery>, made: seq<Reservation>)
    requires |lines| == |net| && MadeAs(s, orderKey, orderId, lines, net, made) && |made| < |lines|
    requires Granted(s, orderKey, orderId, lines, net, |made|)
    ensures MadeAs(s, orderKey, orderId, lines, net, made + [Answer(s, orderKey, orderId, lines, net, |made|).reservation])
  {
  }

  lemma ReserveGoesOn(s: Store, orderKey: string, orderId: string, lines: seq<Line>, net: seq<Delivery>, made: seq<Reservation>)
    requires |made| < |lines| == |net|
    ensures var (n, r) := (|made|, Answer(s, orderKey, orderId, lines, net, |made|));
            var a := ReserveFrom(StoreAfterTries(s, orderKey, orderId, lines, net, n), orderKey, orderId, lines, net, made);
            if Granted(s, orderKey, orderId, lines, net, n) then
              a == ReserveFrom(StoreAfterTries(s, orderKey, orderId, lines, net, n + 1), orderKey, orderId, lines, net, made + [r.reservation])
            else a.made == made
  {
    TryAnswered(s, orderKey, orderId, lines, net, |made|);
  }

  lemma {:induction false} MadeExactly(s: Store, t: Store, orderKey: string, orderId: string, lines: seq<Line>, net: seq<Delivery>,
                                       made: seq<Reservation>)
    requires |lines| == |net| && MadeAs(s, orderKey, orderId, lines, net, made)
    requires t == StoreAfterTries(s, orderKey, orderId, lines, net, |made|)
    ensures var all := ReserveFrom(t, orderKey, orderId, lines, net, made).made;
            && MadeAs(s, orderKey, orderId, lines, net, all)
            && (|all| < |lines| ==> !Granted(s, orderKey, orderId, lines, net, |all|))
    decreases |lines| - |made|
  {
    if |made| < |lines| {
      ReserveGoesOn(s, orderKey, orderId, lines, net, made);
      if Granted(s, orderKey, orderId, lines, net, |made|) {
        var more := made + [Answer(s, orderKey, orderId, lines, net, |made|).reservation];
        OneMoreMade(s, orderKey, orderId, lines, net, made);
        MadeExactly(s, StoreAfterTries(s, orderKey, orderId, lines, net, |more|), orderKey, orderId, lines, net, more);
      }
    }
  }

  /** A checkout succeeds, over either store, exactly if every try was answered with a reservation; those are what it hands to the order. */
  lemma SucceedsExactly(s: Store, orderKey: string, orderId: string, lines: seq<Line>, net: seq<Delivery>, undo: seq<Delivery>)
    requires |lines| == |net| == |undo|
    ensures var result := ReserveInventory(s, orderKey, orderId, lines, net, undo).1;
            && (result.Some? <==> forall i | 0 <= i < |lines| :: Granted(s, orderKey, orderId, lines, net, i))
            && (result.Some? ==>
                  |result.value| == |lines|
                  && forall i | 0 <= i < |lines| ::
                       Granted(s, orderKey, orderId, lines, net, i) && result.value[i] == Answer(s, orderKey, orderId, lines, net, i).reservation)
  {
    MadeExactly(s, s, orderKey, orderId, lines, net, []);
  }

  predicate FreshKeys(s: Store, orderKey: string, n: nat) {
    forall i | 0 <= i < n :: LineReservationKey(orderKey, i) !in s.Reservations()
  }

  /** The lines of an order have keys of their own. */
  lemma OtherKeys(orderKey: string, n: nat)
    ensures forall i: nat | i != n :: LineReservationKey(orderKey, i) != LineReservationKey(orderKey, n)
  {
    forall i: nat | i != n ensures LineReservationKey(orderKey, i) != LineReservationKey(orderKey, n) {
      if LineReservationKey(orderKey, i) == LineReservationKey(orderKey, n) {
        ReservationKeysInjective(orderKey, i, orderKey, n);
      }
    }
  }

  /** Different indices below `n`. */
  predicate Apart(order: seq<nat>, n: nat) {
    (forall a | 0 <= a < |order| :: order[a] < n) && forall a, b | 0 <= a < b < |order| :: order[a] != order[b]
  }

  /** Every index below `n`, once. */
  predicate Arrangement(order: seq<nat>, n: nat) {
    Apart(order, n) && forall i | 0 <= i < n :: i in order
  }

  /** The cancels in the order in which they happen to arrive. */
  function CancelInOrder(s: Store, orderKey: string, made: seq<Reservation>, undo: seq<Delivery>, order: seq<nat>): Store
    requires |made| <= |undo| && Apart(order, |made|)
  {
    if order == [] then s
    else
      Undone(CancelInOrder(s, orderKey, made, undo, order[..|order| - 1]), orderKey, made, undo, order[|order| - 1])
  }

  /** In the order in which they were made. */
  function UpTo(n: nat): (order: seq<nat>)
    ensures |order| == n && forall i | 0 <= i < n :: order[i] == i
    ensures Arrangement(order, n)
  {
    if n == 0 then [] else UpTo(n - 1) + [n - 1]
  }

  /** The loop over the cancels is one of the orders of arrival. */
  lemma {:induction false} LoopIsOneOrder(s: Store, orderKey: string, made: seq<Reservation>, undo: seq<Delivery>, n: nat)
    requires n <= |made| <= |undo|
    ensures CancelInOrder(s, orderKey, made, undo, UpTo(n)) == CancelFirst(s, orderKey, made, undo, n)
  {
    if n > 0 {
      LoopIsOneOrder(s, orderKey, made, undo, n - 1);
      assert UpTo(n)[..n - 1] == UpTo(n - 1);
    }
  }

  lemma DroppedApart(order: seq<nat>, n: nat, p: nat)
    requires Apart(order, n) && p < |order|
    ensures Apart(DropAt(order, p), n) && order[p] !in DropAt(order, p)
  {
    var r := DropAt(order, p);
    forall j | 0 <= j < |r| ensures r[j] == order[if j < p then j else j + 1] {
    }
  }

  lemma DroppedLast(order: seq<nat>, p: nat)
    requires p < |order| - 1
    ensures DropAt(order, p)[..|order| - 2] == DropAt(order[..|order| - 1], p)
    ensures DropAt(order, p)[|order| - 2] == order[|order| - 1]
  {
  }

  lemma DroppedArrangement(order: seq<nat>, n: nat, p: nat)
    requires Arrangement(order, n) && p < |order| && order[p] == n - 1
    ensures Arrangement(DropAt(order, p), n - 1)
  {
    DroppedApart(order, n, p);
    var r := DropAt(order, p);
    forall j | 0 <= j < |r| ensures r[j] < n - 1 {
      assert r[j] in r;
    }
    forall i | 0 <= i < n - 1 ensures i in r {
      assert i in order;
      var q :| 0 <= q < |order| && order[q] == i;
      assert r[if q < p then q else q - 1] == i;
    }
  }

  // ----- All or nothing, with one item per SKU and warehouse -----

  /** How much the first lines ask of an item. */
  function Asked(lines: seq<Line>, k: ItemKey): nat {
    if lines == [] then 0
    else Asked(lines[..|lines| - 1], k) + (if lines[|lines| - 1].at == k then lines[|lines| - 1].qty else 0)
  }

  /** The part of that whose cancel call was not delivered. */
  function Stranded(lines: seq<Line>, undo: seq<Delivery>, k: ItemKey): nat
    requires |lines| <= |undo|
  {
    if lines == [] then 0
    else
      var last := |lines| - 1;
      Stranded(lines[..last], undo, k) + (if lines[last].at == k && undo[last] == NotDone then lines[last].qty else 0)
  }

  /** Reserved quantities are backed by reservations; in Postgres their items exist and no quantity is negative. */
  ghost predicate Sound(s: Store) {
    && s.Items? && Balanced(s.stock)
    && (s.stock.storage == Postgres ==>
          && (forall k | k in s.stock.items :: s.stock.items[k].available >= 0)
          && (forall key | key in s.stock.reservations :: s.stock.reservations[key].at in s.stock.items))
  }

  /** The stock `s` after the first `n` lines of the order were reserved from `base`. */
  ghost predicate Holding(base: Store, s: Store, orderKey: string, lines: seq<Line>, n: nat)
    requires n <= |lines|
  {
    && Sound(s) && base.Items? && s.stock.storage == base.stock.storage && s.stock.blank == base.stock.blank
    && LinesHeld(s, orderKey, lines, 0, n) && LinesUnused(s, orderKey, n, |lines|)
    && (forall k :: s.stock.Lookup(k).reserved == base.stock.Lookup(k).reserved + Asked(lines[..n], k))
  }

  ghost predicate LinesUnused(s: Store, orderKey: string, from: nat, to: nat) {
    forall i | from <= i < to :: LineReservationKey(orderKey, i) !in s.Reservations()
  }

  lemma SoundStep(s: Store, call: ServiceCall)
    requires Sound(s)
    ensures Sound(Handle(s, call).store)
  {
    var c := ItemCall(call);
    BalancedStep(s.stock, c);
    if Effective(s.stock, c) {
      match c
      case Try(q, at) => TryEffect(s.stock, q, at);
      case _ =>
    } else {
      Ineffective(s.stock, c);
    }
  }

  lemma HoldOneMore(base: Store, s: Store, orderKey: string, orderId: string, lines: seq<Line>, n: nat)
    requires n < |lines| && Holding(base, s, orderKey, lines, n)
    requires Effective(s.stock, Try(LineRequest(orderKey, orderId, lines, n), lines[n].at))
    ensures Holding(base, Handle(s, TryCall(LineRequest(orderKey, orderId, lines, n), lines[n].at)).store, orderKey, lines, n + 1)
  {
    var q := LineRequest(orderKey, orderId, lines, n);
    SoundStep(s, TryCall(q, lines[n].at));
    TryEffect(s.stock, q, lines[n].at);
    var s' := Handle(s, TryCall(q, lines[n].at)).store;
    LinesAfter(s, s', orderKey, lines, n, s'.stock.reservations[q.key]);
    HeldSum(base, s, s', orderKey, lines, n);
  }

  lemma LinesAfter(s: Store, s': Store, orderKey: string, lines: seq<Line>, n: nat, r: Reservation)
    requires n < |lines| && LinesHeld(s, orderKey, lines, 0, n) && LinesUnused(s, orderKey, n, |lines|)
    requires r.at == lines[n].at && r.qty == lines[n].qty && r.status == Reserved
    requires s'.Reservations() == s.Reservations()[LineReservationKey(orderKey, n) := r]
    ensures LinesHeld(s', orderKey, lines, 0, n + 1) && LinesUnused(s', orderKey, n + 1, |lines|)
  {
    OtherKeys(orderKey, n);
  }

  lemma HeldSum(base: Store, s: Store, s': Store, orderKey: string, lines: seq<Line>, n: nat)
    requires s.Items? && s'.Items? && base.Items?
    requires n < |lines| && forall k :: s.stock.Lookup(k).reserved == base.stock.Lookup(k).reserved + Asked(lines[..n], k)
    requires forall k :: s'.stock.Lookup(k).reserved == s.stock.Lookup(k).reserved + if k == lines[n].at then lines[n].qty else 0
    ensures forall k :: s'.stock.Lookup(k).reserved == base.stock.Lookup(k).reserved + Asked(lines[..n + 1], k)
  {
    assert lines[..n + 1][..n] == lines[..n];
    forall k ensures s'.stock.Lookup(k).reserved == base.stock.Lookup(k).reserved + Asked(lines[..n + 1], k) {
      assert s.stock.Lookup(k).reserved == base.stock.Lookup(k).reserved + Asked(lines[..n], k);
    }
  }

  /** How the loop over the lines ends: with everything held, or just before the line that failed. */
  lemma {:induction false} ReserveEnds(base: Store, s: Store, orderKey: string, orderId: string, lines: seq<Line>,
                                       net: seq<Delivery>, made: seq<Reservation>)
    requires |made| <= |lines| == |net|
    requires s == StoreAfterTries(base, orderKey, orderId, lines, net, |made|)
    requires Holding(base, s, orderKey, lines, |made|)
    requires forall r | r in made :: r.status == Reserved
    ensures var a := ReserveFrom(s, orderKey, orderId, lines, net, made);
            && |a.made| <= |lines|
            && (forall r | r in a.made :: r.status == Reserved)
            && var stop := StoreAfterTries(base, orderKey, orderId, lines, net, |a.made|);
            && Holding(base, stop, orderKey, lines, |a.made|)
            && (|a.made| == |lines| ==> a.store == stop)
            && (|a.made| < |lines| ==>
                  (a.store, None) == TryLine(stop, orderKey, orderId, lines, |a.made|, net[|a.made|]))
    decreases |lines| - |made|
  {
    if |made| < |lines| {
      var i := |made|;
      var (s', reservation) := TryLine(s, orderKey, orderId, lines, i, net[i]);
      if reservation.Some? {
        HoldOneMore(base, s, orderKey, orderId, lines, i);
        ReserveEnds(base, s', orderKey, orderId, lines, net, made + [reservation.value]);
      }
    }
  }

  /** A cancel of a held line is carried out and gives the whole quantity back. */
  lemma CancelHeld(s: Store, key: string)
    requires Sound(s) && InStatus(s, key, Reserved)
    ensures Effective(s.stock, Cancel(key))
  {
    var r := s.stock.reservations[key];
    HeldNonNegative(s.stock, r.at, Reserved);
    assert s.stock.Lookup(r.at).reserved == Held(s.stock, r.at, Reserved);
  }

  /** The lines from `from` up to `to` are held, each under its own key. */
  ghost predicate LinesHeld(s: Store, orderKey: string, lines: seq<Line>, from: nat, to: nat)
    requires to <= |lines|
  {
    forall i | from <= i < to ::
      && InStatus(s, LineReservationKey(orderKey, i), Reserved)
      && s.Reservations()[LineReservationKey(orderKey, i)].at == lines[i].at
      && s.Reservations()[LineReservationKey(orderKey, i)].qty == lines[i].qty
  }

  /** One cancel that is carried out gives its line back and leaves the later ones held. */
  lemma CancelOne(s: Store, orderKey: string, lines: seq<Line>, i: nat, to: nat)
    requires i < to <= |lines| && Sound(s) && LinesHeld(s, orderKey, lines, i, to)
    ensures var t := Handle(s, SettleCall(LineReservationKey(orderKey, i), false)).store;
            && Sound(t) && LinesHeld(t, orderKey, lines, i + 1, to) && t.stock.blank == s.stock.blank
            && forall k :: t.stock.Lookup(k).reserved == s.stock.Lookup(k).reserved - if lines[i].at == k then lines[i].qty else 0
  {
    var key := LineReservationKey(orderKey, i);
    CancelHeld(s, key);
    SettleEffect(s.stock, Cancel(key), key, Cancelled);
    SoundStep(s, SettleCall(key, false));
    OtherKeys(orderKey, i);
  }

  lemma {:induction false} CancelsGiveBack(s: Store, orderKey: string, lines: seq<Line>, made: seq<Reservation>,
                                           undo: seq<Delivery>, n: nat)
    requires n <= |made| <= |lines| == |undo|
    requires Sound(s) && LinesHeld(s, orderKey, lines, 0, |made|)
    requires forall r | r in made :: r.status == Reserved
    ensures var t := CancelFirst(s, orderKey, made, undo, n);
            && Sound(t) && LinesHeld(t, orderKey, lines, n, |made|) && t.stock.blank == s.stock.blank
            && forall k :: t.stock.Lookup(k).reserved
                           == s.stock.Lookup(k).reserved - Asked(lines[..n], k) + Stranded(lines[..n], undo, k)
  {
    if n > 0 {
      CancelsGiveBack(s, orderKey, lines, made, undo, n - 1);
      var before, t := CancelFirst(s, orderKey, made, undo, n - 1), CancelFirst(s, orderKey, made, undo, n);
      assert made[n - 1] in made;
      assert lines[..n][..n - 1] == lines[..n - 1];
      if undo[n - 1] != NotDone {
        CancelOne(before, orderKey, lines, n - 1, |made|);
      }
      forall k ensures t.stock.Lookup(k).reserved == s.stock.Lookup(k).reserved - Asked(lines[..n], k) + Stranded(lines[..n], undo, k) {
        assert before.stock.Lookup(k).reserved
               == s.stock.Lookup(k).reserved - Asked(lines[..n - 1], k) + Stranded(lines[..n - 1], undo, k);
      }
    }
  }

  lemma TryWithoutAnswer(s: Store, orderKey: string, orderId: string, lines: seq<Line>, n: nat, d: Delivery)
    requires n < |lines| && Sound(s) && LinesHeld(s, orderKey, lines, 0, n)
    requires LineReservationKey(orderKey, n) !in s.Reservations()
    requires TryLine(s, orderKey, orderId, lines, n, d).1.None?
    ensures var t := TryLine(s, orderKey, orderId, lines, n, d).0;
            var leaked := d == ReplyLost && Handle(s, TryCall(LineRequest(orderKey, orderId, lines, n), lines[n].at)).reply.Accepted?;
            && Sound(t) && LinesHeld(t, orderKey, lines, 0, n)
            && forall k :: t.stock.Lookup(k).reserved
                           == s.stock.Lookup(k).reserved + (if leaked && lines[n].at == k then lines[n].qty else 0)
  {
    if d != NotDone {
      var q := LineRequest(orderKey, orderId, lines, n);
      SoundStep(s, TryCall(q, lines[n].at));
      ReservationsAfter(s.stock, Try(q, lines[n].at));
      if Effective(s.stock, Try(q, lines[n].at)) {
        TryEffect(s.stock, q, lines[n].at);
      } else {
        Ineffective(s.stock, Try(q, lines[n].at));
      }
    }
  }

  lemma {:induction false} StrandedPositive(lines: seq<Line>, undo: seq<Delivery>, j: nat)
    requires j < |lines| <= |undo| && undo[j] == NotDone
    ensures Stranded(lines, undo, lines[j].at) > 0
  {
    if j < |lines| - 1 {
      StrandedPositive(lines[..|lines| - 1], undo, j);
    }
  }

  lemma {:induction false} NothingStranded(lines: seq<Line>, undo: seq<Delivery>, k: ItemKey)
    requires |lines| <= |undo| && forall j | 0 <= j < |lines| :: undo[j] != NotDone
    ensures Stranded(lines, undo, k) == 0
  {
    if lines != [] {
      NothingStranded(lines[..|lines| - 1], undo, k);
    }
  }

  ghost predicate SameReservedTotals(s: Store, t: Store) {
    s.Items? && t.Items? && forall k :: s.stock.Lookup(k).reserved == t.stock.Lookup(k).reserved
  }

  /** What a checkout with unused keys leaves reserved, line by line, for every pattern of lost and undelivered calls. */
  lemma CheckoutTotals(s: Store, orderKey: string, orderId: string, lines: seq<Line>, net: seq<Delivery>, undo: seq<Delivery>)
    requires Sound(s) && FreshKeys(s, orderKey, |lines|)
    requires |lines| == |net| == |undo|
    ensures var (t, result) := ReserveInventory(s, orderKey, orderId, lines, net, undo);
            var n := |ReserveFrom(s, orderKey, orderId, lines, net, []).made|;
            && t.Items? && n <= |lines| && (result.Some? <==> n == |lines|)
            && (result.Some? ==> forall k :: t.stock.Lookup(k).reserved == s.stock.Lookup(k).reserved + Asked(lines, k))
            && (result.None? ==> forall k ::
                  t.stock.Lookup(k).reserved == s.stock.Lookup(k).reserved + Stranded(lines[..n], undo, k)
                    + (if Leaked(s, orderKey, orderId, lines, net, n) && lines[n].at == k then lines[n].qty else 0))
  {
    assert lines[..0] == [] && lines[..|lines|] == lines;
    ReserveEnds(s, s, orderKey, orderId, lines, net, []);
    var a := ReserveFrom(s, orderKey, orderId, lines, net, []);
    var n := |a.made|;
    if n < |lines| {
      TryWithoutAnswer(StoreAfterTries(s, orderKey, orderId, lines, net, n), orderKey, orderId, lines, n, net[n]);
      CancelsGiveBack(a.store, orderKey, lines, a.made, undo, n);
    }
  }

  /**
   * A failed checkout leaves every reserved total as it was exactly when the failing try was not
   * carried out behind a lost reply and every cancel call was delivered.
   */
  lemma AllOrNothing(s: Store, orderKey: string, orderId: string, lines: seq<Line>, net: seq<Delivery>, undo: seq<Delivery>)
    requires Sound(s) && FreshKeys(s, orderKey, |lines|)
    requires |lines| == |net| == |undo|
    requires ReserveInventory(s, orderKey, orderId, lines, net, undo).1.None?
    ensures var n := |ReserveFrom(s, orderKey, orderId, lines, net, []).made|;
            && n < |lines|
            && (SameReservedTotals(s, ReserveInventory(s, orderKey, orderId, lines, net, undo).0)
                <==> !Leaked(s, orderKey, orderId, lines, net, n) && forall j | 0 <= j < n :: undo[j] != NotDone)
  {
    CheckoutTotals(s, orderKey, orderId, lines, net, undo);
    var n := |ReserveFrom(s, orderKey, orderId, lines, net, []).made|;
    var t := ReserveInventory(s, orderKey, orderId, lines, net, undo).0;
    if j :| 0 <= j < n && undo[j] == NotDone {
      StrandedPositive(lines[..n], undo, j);
      assert t.stock.Lookup(lines[j].at).reserved > s.stock.Lookup(lines[j].at).reserved;
    } else {
      forall k ensures Stranded(lines[..n], undo, k) == 0 {
        NothingStranded(lines[..n], undo, k);
      }
      if Leaked(s, orderKey, orderId, lines, net, n) {
        assert t.stock.Lookup(lines[n].at).reserved > s.stock.Lookup(lines[n].at).reserved;
      }
    }
  }

  // ----- The cancels are sent all at once -----

  /** Line `i` is held under its own key. */
  predicate LineHeld(s: Store, orderKey: string, i: nat) {
    InStatus(s, LineReservationKey(orderKey, i), Reserved)
  }

  function Released(s: Store, key: string): Store
    requires s.Items? && key in s.stock.reservations
  {
    var r := s.stock.reservations[key];
    var was := s.stock.Lookup(r.at);
    Items(s.stock.(items := s.stock.items[r.at := Item(was.available, was.reserved - r.qty, was.safety, was.version + 1)],
                   reservations := s.stock.reservations[key := r.(status := Cancelled)]))
  }

  lemma CancelReleases(s: Store, key: string)
    requires Sound(s) && InStatus(s, key, Reserved)
    ensures Handle(s, SettleCall(key, false)).store == Released(s, key) && Sound(Released(s, key))
  {
    CancelHeld(s, key);
    SettleEffect(s.stock, Cancel(key), key, Cancelled);
    SoundStep(s, SettleCall(key, false));
  }

  lemma ReleasesCommute(s: Store, a: string, b: string)
    requires s.Items? && a in s.stock.reservations && b in s.stock.reservations && a != b
    ensures Released(Released(s, a), b) == Released(Released(s, b), a)
  {
    var (x, y) := (Released(Released(s, a), b), Released(Released(s, b), a));
    assert x.stock.reservations == y.stock.reservations;
    var (i, j) := (s.stock.reservations[a].at, s.stock.reservations[b].at);
    forall k | k in x.stock.items || k in y.stock.items ensures k in x.stock.items && k in y.stock.items && x.stock.items[k] == y.stock.items[k] {
      assert k in s.stock.items || k == i || k == j;
    }
  }

  predicate Undoes(made: seq<Reservation>, undo: seq<Delivery>, i: nat)
    requires i < |made| <= |undo|
  {
    made[i].status == Reserved && undo[i] != NotDone
  }

  lemma UndoneKeeps(s: Store, orderKey: string, made: seq<Reservation>, undo: seq<Delivery>, i: nat, j: nat)
    requires i < |made| <= |undo| && i != j && Sound(s) && LineHeld(s, orderKey, i)
    ensures var t := Undone(s, orderKey, made, undo, i);
            && Sound(t) && (LineHeld(t, orderKey, j) <==> LineHeld(s, orderKey, j))
            && t == if Undoes(made, undo, i) then Released(s, LineReservationKey(orderKey, i)) else s
  {
    CancelReleases(s, LineReservationKey(orderKey, i));
    OtherKeys(orderKey, i);
  }

  lemma UndoneCommute(s: Store, orderKey: string, made: seq<Reservation>, undo: seq<Delivery>, i: nat, j: nat)
    requires i < |made| <= |undo| && j < |made| && i != j
    requires Sound(s) && LineHeld(s, orderKey, i) && LineHeld(s, orderKey, j)
    ensures Undone(Undone(s, orderKey, made, undo, i), orderKey, made, undo, j)
            == Undone(Undone(s, orderKey, made, undo, j), orderKey, made, undo, i)
  {
    UndoneKeeps(s, orderKey, made, undo, i, j);
    UndoneKeeps(s, orderKey, made, undo, j, i);
    UndoneKeeps(Undone(s, orderKey, made, undo, i), orderKey, made, undo, j, i);
    UndoneKeeps(Undone(s, orderKey, made, undo, j), orderKey, made, undo, i, j);
    OtherKeys(orderKey, i);
    ReleasesCommute(s, LineReservationKey(orderKey, i), LineReservationKey(orderKey, j));
  }

  ghost predicate AllHeld(s: Store, orderKey: string, n: nat) {
    Sound(s) && forall i | 0 <= i < n :: LineHeld(s, orderKey, i)
  }

  lemma {:induction false} OthersStayHeld(s: Store, orderKey: string, made: seq<Reservation>, undo: seq<Delivery>, order: seq<nat>)
    requires |made| <= |undo| && Apart(order, |made|) && AllHeld(s, orderKey, |made|)
    ensures var t := CancelInOrder(s, orderKey, made, undo, order);
            Sound(t) && forall j | 0 <= j < |made| && j !in order :: LineHeld(t, orderKey, j)
  {
    if order != [] {
      var (init, i) := (order[..|order| - 1], order[|order| - 1]);
      var before := CancelInOrder(s, orderKey, made, undo, init);
      OthersStayHeld(s, orderKey, made, undo, init);
      assert i !in init && order == init + [i];
      UndoneKeeps(before, orderKey, made, undo, i, |made|);
      forall j | 0 <= j < |made| && j !in order ensures LineHeld(Undone(before, orderKey, made, undo, i), orderKey, j) {
        UndoneKeeps(before, orderKey, made, undo, i, j);
      }
    }
  }

  /** Any of the cancels might as well have been the last. */
  lemma {:induction false} MightBeLast(s: Store, orderKey: string, made: seq<Reservation>, undo: seq<Delivery>, order: seq<nat>, p: nat)
    requires |made| <= |undo| && Apart(order, |made|) && AllHeld(s, orderKey, |made|) && p < |order|
    ensures Apart(DropAt(order, p), |made|)
    ensures CancelInOrder(s, orderKey, made, undo, order)
            == Undone(CancelInOrder(s, orderKey, made, undo, DropAt(order, p)), orderKey, made, undo, order[p])
    decreases |order|
  {
    DroppedApart(order, |made|, p);
    if p == |order| - 1 {
      assert DropAt(order, p) == order[..p];
    } else {
      var (init, i) := (order[..|order| - 1], order[|order| - 1]);
      MightBeLast(s, orderKey, made, undo, init, p);
      DroppedLast(order, p);
      LastTwo(s, orderKey, made, undo, DropAt(init, p), order[p], i);
    }
  }

  lemma LastTwo(s: Store, orderKey: string, made: seq<Reservation>, undo: seq<Delivery>, rest: seq<nat>, i: nat, j: nat)
    requires |made| <= |undo| && Apart(rest, |made|) && AllHeld(s, orderKey, |made|)
    requires i < |made| && j < |made| && i != j && i !in rest && j !in rest
    ensures var t := CancelInOrder(s, orderKey, made, undo, rest);
            Undone(Undone(t, orderKey, made, undo, i), orderKey, made, undo, j)
            == Undone(Undone(t, orderKey, made, undo, j), orderKey, made, undo, i)
  {
    OthersStayHeld(s, orderKey, made, undo, rest);
    UndoneCommute(CancelInOrder(s, orderKey, made, undo, rest), orderKey, made, undo, i, j);
  }

  /** Sent all at once, the cancels leave the same stock in whatever order they arrive. */
  lemma {:induction false} CancelOrderIrrelevant(s: Store, orderKey: string, made: seq<Reservation>, undo: seq<Delivery>,
                                                 order: seq<nat>, n: nat)
    requires n <= |made| <= |undo| && Arrangement(order, n) && AllHeld(s, orderKey, |made|)
    ensures Apart(order, |made|)
    ensures CancelInOrder(s, orderKey, made, undo, order) == CancelFirst(s, orderKey, made, undo, n)
  {
    if n == 0 {
      assert order == [];
    } else {
      assert n - 1 in order;
      var p :| 0 <= p < |order| && order[p] == n - 1;
      MightBeLast(s, orderKey, made, undo, order, p);
      DroppedArrangement(order, n, p);
      CancelOrderIrrelevant(s, orderKey, made, undo, DropAt(order, p), n - 1);
    }
  }

  /** So a failed checkout ends in the stock described above for every arrival order of its cancels. */
  lemma UndoInAnyOrder(s: Store, orderKey: string, orderId: string, lines: seq<Line>, net: seq<Delivery>, undo: seq<Delivery>, order: seq<nat>)
    requires Sound(s) && FreshKeys(s, orderKey, |lines|)
    requires |lines| == |net| == |undo|
    requires ReserveInventory(s, orderKey, orderId, lines, net, undo).1.None?
    requires Arrangement(order, |ReserveFrom(s, orderKey, orderId, lines, net, []).made|)
    ensures var a := ReserveFrom(s, orderKey, orderId, lines, net, []);
            && |a.made| <= |undo|
            && CancelInOrder(a.store, orderKey, a.made, undo, order) == ReserveInventory(s, orderKey, orderId, lines, net, undo).0
  {
    assert lines[..0] == [];
    ReserveEnds(s, s, orderKey, orderId, lines, net, []);
    var a := ReserveFrom(s, orderKey, orderId, lines, net, []);
    var n := |a.made|;
    TryWithoutAnswer(StoreAfterTries(s, orderKey, orderId, lines, net, n), orderKey, orderId, lines, n, net[n]);
    CancelOrderIrrelevant(a.store, orderKey, a.made, undo, order, n);
  }
}
