/**
 * Exactly-once effect: a trace of inventory calls compared with the same trace after every
 * rejected and every replayed call has been deleted.
 */
module InventoryReplay {
  import opened Collections
  import opened Inventory

  /** The calls of the trace that were neither rejected nor replayed when they ran. */
  function EffectiveCalls(s: Stock, calls: seq<Call>): seq<Call>
    decreases |calls|
  {
    if calls == [] then []
    else (if Effective(s, calls[0]) then [calls[0]] else [])
         + EffectiveCalls(Perform(s, calls[0]).stock, calls[1..])
  }

  /** Same reservations and same quantities, where a missing item counts as a blank one. */
  ghost predicate SameView(s: Stock, e: Stock) {
    s.reservations == e.reservations && forall k :: s.Lookup(k) == e.Lookup(k)
  }

  /** Every accepted adjustment is for an item that was there at the start or was put there by an effective call. */
  predicate AdjustsKnown(s: Stock, known: set<ItemKey>, calls: seq<Call>)
    decreases |calls|
  {
    calls == []
    || ((calls[0].Adjust? && Effective(s, calls[0]) ==> calls[0].item in known)
        && AdjustsKnown(Perform(s, calls[0]).stock,
                        if Effective(s, calls[0]) then known + {Target(s, calls[0])} else known, calls[1..]))
  }

  /** `e` is `s` without some of the blank items that rejected calls created. */
  ghost predicate Coupled(s: Stock, e: Stock) {
    && s.storage == e.storage && s.blank == e.blank
    && SameView(s, e)
    && e.items.Keys <= s.items.Keys
    && (s.storage == Postgres ==> e.items.Keys == s.items.Keys)
  }

  /** The stock with a new item under `k` and these reservations. */
  function Changed(s: Stock, k: ItemKey, item: Item, reservations: map<string, Reservation>): Stock {
    s.(items := s.items[k := item], reservations := reservations)
  }

  lemma CoupledChange(s: Stock, e: Stock, k: ItemKey, item: Item, reservations: map<string, Reservation>)
    requires Coupled(s, e)
    ensures Coupled(Changed(s, k, item, reservations), Changed(e, k, item, reservations))
  {
    var (s', e') := (Changed(s, k, item, reservations), Changed(e, k, item, reservations));
    forall j ensures s'.Lookup(j) == e'.Lookup(j) {
      assert s.Lookup(j) == e.Lookup(j);
    }
  }

  lemma CoupledEffect(s: Stock, e: Stock, c: Call)
    requires Coupled(s, e) && Effective(s, c)
    requires c.Adjust? ==> c.item in e.items
    ensures Effective(e, c)
  {
    assert s.Lookup(Target(s, c)) == e.Lookup(Target(s, c));
  }

  /** An effective call does the same to every stock that shows the same item and reservations. */
  lemma CoupledStep(s: Stock, e: Stock, c: Call)
    requires Coupled(s, e) && Effective(s, c)
    requires c.Adjust? ==> c.item in e.items
    ensures Effective(e, c) && Coupled(Perform(s, c).stock, Perform(e, c).stock)
    ensures Perform(e, c).stock.items.Keys == e.items.Keys + {Target(s, c)}
  {
    CoupledEffect(s, e, c);
    var (k, s') := (Target(s, c), Perform(s, c).stock);
    assert s.Lookup(k) == e.Lookup(k);
    EffectIsChange(s, c);
    EffectIsChange(e, c);
    SameEffect(s, e, c);
    CoupledChange(s, e, k, s'.items[k], s'.reservations);
  }

  lemma EffectIsChange(s: Stock, c: Call)
    requires Effective(s, c)
    ensures var (k, s') := (Target(s, c), Perform(s, c).stock);
            k in s'.items && s' == Changed(s, k, s'.items[k], s'.reservations)
  {
    match c
    case Confirm(key) => SettleEffect(s, c, key, Confirmed);
    case Cancel(key) => SettleEffect(s, c, key, Cancelled);
    case Try(q, at) => TryEffect(s, q, at);
    case Adjust(_, _) =>
  }

  lemma SameEffect(s: Stock, e: Stock, c: Call)
    requires Effective(s, c) && Effective(e, c)
    requires s.reservations == e.reservations && s.Lookup(Target(s, c)) == e.Lookup(Target(s, c))
    ensures var (k, s', e') := (Target(s, c), Perform(s, c).stock, Perform(e, c).stock);
            && Target(e, c) == k && k in s'.items && k in e'.items
            && e'.items[k] == s'.items[k] && e'.reservations == s'.reservations
  {
    match c
    case Confirm(key) => SettleEffect(s, c, key, Confirmed); SettleEffect(e, c, key, Confirmed);
    case Cancel(key) => SettleEffect(s, c, key, Cancelled); SettleEffect(e, c, key, Cancelled);
    case Try(q, at) => TryEffect(s, q, at); TryEffect(e, q, at);
    case Adjust(_, _) =>
  }

  /** Every reservation of `e` is one of `s`, on the same item. */
  ghost predicate Within(s: Stock, e: Stock) {
    forall key | key in e.reservations :: key in s.reservations && e.reservations[key].at == s.reservations[key].at
  }

  /** `e` has fallen behind `s` on item `k`, with no reservation that `s` does not have. */
  ghost predicate Behind(s: Stock, e: Stock, k: ItemKey) {
    Within(s, e) && e.Lookup(k).version < s.Lookup(k).version
  }

  lemma BehindStep(s: Stock, e: Stock, c: Call, k: ItemKey)
    requires Behind(s, e, k)
    ensures Effective(s, c) ==> Behind(Perform(s, c).stock, Perform(e, c).stock, k)
    ensures !Effective(s, c) ==> Behind(Perform(s, c).stock, e, k)
  {
    var s' := Perform(s, c).stock;
    if Effective(s, c) {
      WithinStep(s, e, c);
      BehindVersion(s, e, c, k);
    } else {
      Ineffective(s, c);
      assert Within(s', e) && s'.Lookup(k) == s.Lookup(k);
    }
  }

  lemma BehindVersion(s: Stock, e: Stock, c: Call, k: ItemKey)
    requires Behind(s, e, k) && Effective(s, c)
    ensures Perform(e, c).stock.Lookup(k).version < Perform(s, c).stock.Lookup(k).version
  {
    StepLaws(s, c, k);
    StepLaws(e, c, k);
    if Effective(e, c) {
      SameTarget(s, e, c);
    }
  }

  lemma SameTarget(s: Stock, e: Stock, c: Call)
    requires Within(s, e) && Effective(s, c) && Effective(e, c)
    ensures Target(e, c) == Target(s, c)
  {
  }

  lemma WithinStep(s: Stock, e: Stock, c: Call)
    requires Within(s, e) && Effective(s, c)
    ensures Within(Perform(s, c).stock, Perform(e, c).stock)
  {
    ReservationsAfter(s, c);
    ReservationsAfter(e, c);
  }

  lemma {:induction false} BehindForGood(s: Stock, e: Stock, calls: seq<Call>, k: ItemKey)
    requires Behind(s, e, k)
    ensures Run(e, EffectiveCalls(s, calls)).Lookup(k).version < Run(s, calls).Lookup(k).version
    decreases |calls|
  {
    if calls != [] {
      var c, s' := calls[0], Perform(s, calls[0]).stock;
      BehindStep(s, e, c, k);
      var rest := EffectiveCalls(s', calls[1..]);
      if Effective(s, c) {
        assert EffectiveCalls(s, calls)[1..] == rest;
        BehindForGood(s', Perform(e, c).stock, calls[1..], k);
      } else {
        assert EffectiveCalls(s, calls) == rest;
        BehindForGood(s', e, calls[1..], k);
      }
    }
  }

  lemma {:induction false} CoupledRuns(s: Stock, e: Stock, calls: seq<Call>)
    requires Coupled(s, e)
    ensures AdjustsKnown(s, e.items.Keys, calls) ==> Coupled(Run(s, calls), Run(e, EffectiveCalls(s, calls)))
    ensures !AdjustsKnown(s, e.items.Keys, calls) ==> !SameView(Run(s, calls), Run(e, EffectiveCalls(s, calls)))
    decreases |calls|
  {
    if calls != [] {
      var c, s' := calls[0], Perform(s, calls[0]).stock;
      var rest := EffectiveCalls(s', calls[1..]);
      if !Effective(s, c) {
        Ineffective(s, c);
        assert EffectiveCalls(s, calls) == rest;
        CoupledRuns(s', e, calls[1..]);
      } else {
        assert EffectiveCalls(s, calls)[1..] == rest;
        if c.Adjust? && c.item !in e.items {
          assert e.Lookup(c.item) == s.Lookup(c.item);
          StepLaws(s, c, c.item);
          BehindForGood(s', e, calls[1..], c.item);
          assert Perform(e, c).stock == e;
        } else {
          CoupledStep(s, e, c);
          CoupledRuns(s', Perform(e, c).stock, calls[1..]);
        }
      }
    }
  }

  /**
   * Deleting every rejected and replayed call leaves the same reservations and quantities,
   * exactly when no accepted adjustment is for an item that only a rejected call had created.
   */
  lemma ExactlyOnceEffect(s: Stock, calls: seq<Call>)
    ensures SameView(Run(s, calls), Run(s, EffectiveCalls(s, calls))) <==> AdjustsKnown(s, s.items.Keys, calls)
  {
    CoupledRuns(s, s, calls);
  }

  /** The Postgres store never creates items, so there the law holds for every trace. */
  lemma {:induction false} PostgresAdjustsKnown(s: Stock, calls: seq<Call>)
    requires s.storage == Postgres
    ensures AdjustsKnown(s, s.items.Keys, calls)
    decreases |calls|
  {
    if calls != [] {
      var s' := Perform(s, calls[0]).stock;
      assert s'.items.Keys == s.items.Keys;
      if Effective(s, calls[0]) {
        assert s.items.Keys + {Target(s, calls[0])} == s.items.Keys;
      }
      PostgresAdjustsKnown(s', calls[1..]);
    }
  }

  lemma PostgresExactlyOnce(s: Stock, calls: seq<Call>)
    requires s.storage == Postgres
    ensures SameView(Run(s, calls), Run(s, EffectiveCalls(s, calls)))
  {
    PostgresAdjustsKnown(s, calls);
    ExactlyOnceEffect(s, calls);
  }

  /** In memory it can fail: a reservation that is refused for shortage still creates the item that is then adjusted. */
  lemma MemoryAdjustAfterShortage()
    ensures var k := ItemKey(DEFAULT_WAREHOUSE, "sku");
            var s := Stock(Memory, Item(50, 0, 2, 1), map[], map[]);
            var calls := [Try(Request("key", "sku", None, None, 60), k), Adjust(k, Adjustment(Some(10), None, None))];
            && Perform(s, calls[0]).reply.Shortage?
            && !SameView(Run(s, calls), Run(s, EffectiveCalls(s, calls)))
  {
    var k := ItemKey(DEFAULT_WAREHOUSE, "sku");
    var s := Stock(Memory, Item(50, 0, 2, 1), map[], map[]);
    var calls := [Try(Request("key", "sku", None, None, 60), k), Adjust(k, Adjustment(Some(10), None, None))];
    assert calls[1..][0] == calls[1];
    assert !AdjustsKnown(Perform(s, calls[0]).stock, {}, calls[1..]);
    ExactlyOnceEffect(s, calls);
  }
}
