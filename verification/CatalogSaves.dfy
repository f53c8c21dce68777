/**
 * What a save of products changes in the two product listings, told from its inputs: a product ends up as the last input for
 * any of its SKUs says, with the assets of the last one that mentions any, and each SKU as the last input for it says.
 */
module CatalogSaves {
  import opened Collections
  import opened CatalogTables
  import opened CatalogGrouping
  import opened CatalogOffers
  import opened CatalogCards
  import Skus = CatalogSkus

  /** Pairwise different ids that are new to the tables. */
  ghost predicate New(db: Database, ids: seq<string>) {
    && (forall id | id in ids :: Unused(db, id))
    && forall i, j | 0 <= i < j < |ids| :: ids[i] != ids[j]
  }

  function OffersAfter(offers: seq<Offer>, inputs: seq<ProductInput>, ids: seq<string>): seq<Offer>
    requires |inputs| == |ids|
  {
    if inputs == [] then offers
    else
      var last := |inputs| - 1;
      OfferUpsert(OffersAfter(offers, inputs[..last], ids[..last]), inputs[last], ids[last])
  }

  /** The one product that is written refers to facets there are; its id is a product's already, or the new one. */
  lemma WrittenProduct(db: Database, x: ProductInput, id: string)
    requires UpsertProduct(db, x, id).Some?
    requires forall s | s in db.skus :: FindProduct(db.products, s.productId).Some?
    ensures var (db', c, r) := (UpsertProduct(db, x, id).value, FindBySlug(db.categories, x.category), FindBySlug(db.regions, x.region));
            && db'.categories == db.categories && db'.regions == db.regions && c.Some? && r.Some?
            && forall p | p in db'.products ::
                 p in db.products
                 || ((p.id == id || exists q :: q in db.products && q.id == p.id)
                     && p.categoryId == db.categories[c.value].id && p.regionId == db.regions[r.value].id)
  {
    var sku := FindSku(db.skus, x.sku);
    assert sku.Some? ==> db.skus[sku.value] in db.skus;
  }

  lemma UpsertUnused(db: Database, x: ProductInput, id: string, other: string)
    requires Unused(db, other) && other != id && UpsertProduct(db, x, id).Some?
    requires forall s | s in db.skus :: FindProduct(db.products, s.productId).Some?
    ensures Unused(UpsertProduct(db, x, id).value, other)
  {
    WrittenProduct(db, x, id);
    assert db.categories[FindBySlug(db.categories, x.category).value] in db.categories;
    assert db.regions[FindBySlug(db.regions, x.region).value] in db.regions;
  }

  lemma NewInit(db: Database, ids: seq<string>)
    requires ids != [] && New(db, ids)
    ensures New(db, ids[..|ids| - 1]) && Unused(db, ids[|ids| - 1]) && ids[|ids| - 1] !in ids[..|ids| - 1]
  {
    assert ids[|ids| - 1] in ids;
  }

  /** A committed save of products is a save of offers. */
  lemma {:induction false} SavedOffers(db: Database, inputs: seq<ProductInput>, ids: seq<string>)
    requires |ids| == |inputs| && Keyed(db) && New(db, ids) && SaveProducts(db, inputs, ids).Some?
    ensures var db' := SaveProducts(db, inputs, ids).value;
            Keyed(db') && Offers(db') == OffersAfter(Offers(db), inputs, ids)
    decreases |inputs|
  {
    if inputs != [] {
      var last := |inputs| - 1;
      NewInit(db, ids);
      SavedOffers(db, inputs[..last], ids[..last]);
      SavedUnused(db, inputs[..last], ids[..last], ids[last]);
      UpsertedOffer(SaveProducts(db, inputs[..last], ids[..last]).value, inputs[last], ids[last]);
    }
  }

  lemma {:induction false} SavedUnused(db: Database, inputs: seq<ProductInput>, ids: seq<string>, other: string)
    requires |ids| == |inputs| && Keyed(db) && New(db, ids) && SaveProducts(db, inputs, ids).Some?
    requires Unused(db, other) && other !in ids
    ensures Unused(SaveProducts(db, inputs, ids).value, other)
    decreases |inputs|
  {
    if inputs != [] {
      var last := |inputs| - 1;
      NewInit(db, ids);
      SavedOffers(db, inputs[..last], ids[..last]);
      SavedUnused(db, inputs[..last], ids[..last], other);
      assert ids[last] in ids;
      UpsertUnused(SaveProducts(db, inputs[..last], ids[..last]).value, inputs[last], ids[last], other);
    }
  }

  lemma UpsertedOffer(db: Database, x: ProductInput, id: string)
    requires Keyed(db) && Unused(db, id) && UpsertProduct(db, x, id).Some?
    ensures var db' := UpsertProduct(db, x, id).value;
            Keyed(db') && Offers(db') == OfferUpsert(Offers(db), x, id)
  {
    if FindSku(db.skus, x.sku).Some? {
      UpdatedOffer(db, x, id);
    } else {
      AddedOffer(db, x, id);
    }
  }

  // ----- The last input for a code -----

  /** The last input for one of the codes, with the assets of the last such input that mentions any. */
  function LastFor(inputs: seq<ProductInput>, codes: set<string>): Option<ProductInput> {
    if inputs == [] then None
    else
      var (last, before) := (inputs[|inputs| - 1], LastFor(inputs[..|inputs| - 1], codes));
      if last.sku !in codes then before
      else if last.assets.Some? || before.None? then Some(last)
      else Some(last.(assets := before.value.assets))
  }

  lemma {:induction false} LastForAny(inputs: seq<ProductInput>, codes: set<string>)
    ensures LastFor(inputs, codes).Some? <==> exists n :: 0 <= n < |inputs| && inputs[n].sku in codes
  {
    if inputs != [] {
      LastForAny(inputs[..|inputs| - 1], codes);
    }
  }

  function SkuAfter(s: Sku, inputs: seq<ProductInput>): Sku {
    match LastFor(inputs, {s.code})
    case Some(x) => Sku(s.productId, s.code, x.terms, x.parcel, x.details)
    case None => s
  }

  function SkusAfter(skus: seq<Sku>, inputs: seq<ProductInput>): seq<Sku> {
    seq(|skus|, i requires 0 <= i < |skus| => SkuAfter(skus[i], inputs))
  }

  /** The product as the last input for any of its SKUs says, each SKU as the last input for it says. */
  function OfferAfter(o: Offer, inputs: seq<ProductInput>): Offer {
    match LastFor(inputs, Codes(o.skus))
    case Some(x) => Described(o, x).(skus := SkusAfter(o.skus, inputs))
    case None => o
  }

  lemma CodesAfter(skus: seq<Sku>, inputs: seq<ProductInput>)
    ensures Codes(SkusAfter(skus, inputs)) == Codes(skus)
  {
    var after := SkusAfter(skus, inputs);
    forall s | s in skus ensures s.code in Codes(after) {
      var i :| 0 <= i < |skus| && s == skus[i];
      assert after[i] in after;
    }
  }

  lemma SkusAfterLast(skus: seq<Sku>, inputs: seq<ProductInput>)
    requires inputs != []
    ensures SkusAfter(skus, inputs) == WithFields(SkusAfter(skus, inputs[..|inputs| - 1]), inputs[|inputs| - 1])
  {
  }

  lemma UnmentionedSkus(skus: seq<Sku>, inputs: seq<ProductInput>)
    requires LastFor(inputs, Codes(skus)).None?
    ensures SkusAfter(skus, inputs) == skus
  {
    forall i | 0 <= i < |skus| ensures SkuAfter(skus[i], inputs) == skus[i] {
      assert skus[i] in skus;
      LastForAny(inputs, Codes(skus));
      LastForAny(inputs, {skus[i].code});
    }
  }

  lemma DescribedTwice(o: Offer, x: ProductInput, y: ProductInput)
    ensures Described(Described(o, x), y) == Described(o, if y.assets.Some? then y else y.(assets := x.assets))
  {
    assert o.texts["zh" := x.zh]["en" := x.en]["zh" := y.zh]["en" := y.en] == o.texts["zh" := y.zh]["en" := y.en];
  }

  lemma OfferAfterLast(o: Offer, inputs: seq<ProductInput>)
    requires inputs != []
    ensures var (before, x) := (OfferAfter(o, inputs[..|inputs| - 1]), inputs[|inputs| - 1]);
            OfferAfter(o, inputs) == if x.sku in Codes(o.skus) then Overwritten(before, x) else before
  {
    var (init, x) := (inputs[..|inputs| - 1], inputs[|inputs| - 1]);
    SkusAfterLast(o.skus, inputs);
    if LastFor(init, Codes(o.skus)).None? {
      UnmentionedSkus(o.skus, init);
    } else if x.sku in Codes(o.skus) {
      DescribedTwice(o, LastFor(init, Codes(o.skus)).value, x);
    } else {
      CodesAfter(o.skus, init);
      NotWritten(SkusAfter(o.skus, init), x);
    }
  }

  ghost predicate CodesApart(offers: seq<Offer>) {
    forall i, j | 0 <= i < j < |offers| :: Codes(offers[i].skus) !! Codes(offers[j].skus)
  }

  /** An offer added by the inputs has one SKU, and is shown exactly if the last input for it is active. */
  predicate AddedBy(o: Offer, inputs: seq<ProductInput>) {
    && o.skus != [] && LastFor(inputs, {o.skus[0].code}).Some? && Codes(o.skus) == {o.skus[0].code}
    && o.active == LastFor(inputs, {o.skus[0].code}).value.active
    && o.category.Some? && o.region.Some? && o.texts != map[]
  }

  lemma CodesWritten(skus: seq<Sku>, x: ProductInput)
    ensures Codes(WithFields(skus, x)) == Codes(skus)
  {
    var after := WithFields(skus, x);
    forall s | s in skus ensures s.code in Codes(after) {
      var i :| 0 <= i < |skus| && s == skus[i];
      assert after[i] in after;
    }
  }

  lemma OfferUpsertedExactly(offers: seq<Offer>, x: ProductInput, id: string)
    requires CodesApart(offers)
    ensures var saved := OfferUpsert(offers, x, id);
            && |offers| <= |saved| <= |offers| + 1
            && (forall k | 0 <= k < |offers| ::
                  saved[k] == if x.sku in Codes(offers[k].skus) then Overwritten(offers[k], x) else offers[k])
            && (forall k | |offers| <= k < |saved| :: saved[k] == NewOffer(x, id))
            && Held(saved, x.sku)
            && (|saved| > |offers| ==> forall k | 0 <= k < |offers| :: x.sku !in Codes(offers[k].skus))
  {
    var saved := OfferUpsert(offers, x, id);
    assert forall k | 0 <= k < |offers| :: offers[k] in offers;
    match FindCode(offers, x.sku)
    case Some(i) =>
      CodesWritten(offers[i].skus, x);
      assert x.sku in Codes(saved[i].skus);
    case None =>
      assert saved[|offers|].skus[0] in saved[|offers|].skus;
      assert x.sku in Codes(saved[|offers|].skus);
  }

  lemma StillApart(offers: seq<Offer>, x: ProductInput, id: string)
    requires CodesApart(offers)
    ensures CodesApart(OfferUpsert(offers, x, id))
  {
    var saved := OfferUpsert(offers, x, id);
    OfferUpsertedExactly(offers, x, id);
    forall k | 0 <= k < |saved| ensures Codes(saved[k].skus) == if k < |offers| then Codes(offers[k].skus) else {x.sku} {
      if k < |offers| {
        CodesWritten(offers[k].skus, x);
      } else {
        assert saved[k].skus == [NewSku(id, x)];
      }
    }
  }

  ghost predicate SavedAs(offers: seq<Offer>, inputs: seq<ProductInput>, saved: seq<Offer>) {
    && CodesApart(saved) && |saved| >= |offers|
    && (forall k | 0 <= k < |offers| :: saved[k] == OfferAfter(offers[k], inputs))
    && (forall k | |offers| <= k < |saved| :: AddedBy(saved[k], inputs))
    && (forall n | 0 <= n < |inputs| :: Held(saved, inputs[n].sku))
  }

  predicate Held(offers: seq<Offer>, code: string) {
    exists k :: 0 <= k < |offers| && code in Codes(offers[k].skus)
  }

  lemma {:induction false} SavedOffersExactly(offers: seq<Offer>, inputs: seq<ProductInput>, ids: seq<string>)
    requires |ids| == |inputs| && CodesApart(offers)
    ensures SavedAs(offers, inputs, OffersAfter(offers, inputs, ids))
  {
    if inputs != [] {
      var last := |inputs| - 1;
      SavedOffersExactly(offers, inputs[..last], ids[..last]);
      SavedStep(offers, inputs, OffersAfter(offers, inputs[..last], ids[..last]), ids[last]);
    }
  }

  lemma AddedStays(o: Offer, inputs: seq<ProductInput>)
    requires inputs != [] && AddedBy(o, inputs[..|inputs| - 1])
    ensures AddedBy(if inputs[|inputs| - 1].sku in Codes(o.skus) then Overwritten(o, inputs[|inputs| - 1]) else o, inputs)
  {
    assert "en" in Overwritten(o, inputs[|inputs| - 1]).texts;
    CodesWritten(o.skus, inputs[|inputs| - 1]);
  }

  lemma AddedNow(inputs: seq<ProductInput>, id: string)
    requires inputs != []
    ensures AddedBy(NewOffer(inputs[|inputs| - 1], id), inputs)
  {
    assert "en" in NewOffer(inputs[|inputs| - 1], id).texts;
  }

  lemma CodesStay(o: Offer, inputs: seq<ProductInput>)
    ensures Codes(OfferAfter(o, inputs).skus) == Codes(o.skus)
  {
    CodesAfter(o.skus, inputs);
  }

  lemma SavedOld(offers: seq<Offer>, inputs: seq<ProductInput>, before: seq<Offer>, id: string)
    requires inputs != [] && CodesApart(before) && |before| >= |offers|
    requires forall k | 0 <= k < |offers| :: before[k] == OfferAfter(offers[k], inputs[..|inputs| - 1])
    ensures var saved := OfferUpsert(before, inputs[|inputs| - 1], id);
            |saved| >= |offers| && forall k | 0 <= k < |offers| :: saved[k] == OfferAfter(offers[k], inputs)
  {
    OfferUpsertedExactly(before, inputs[|inputs| - 1], id);
    forall k | 0 <= k < |offers| ensures OfferUpsert(before, inputs[|inputs| - 1], id)[k] == OfferAfter(offers[k], inputs) {
      OfferAfterLast(offers[k], inputs);
      CodesStay(offers[k], inputs[..|inputs| - 1]);
    }
  }

  lemma SavedNew(offers: seq<Offer>, inputs: seq<ProductInput>, before: seq<Offer>, id: string)
    requires inputs != [] && CodesApart(before) && |before| >= |offers|
    requires forall k | |offers| <= k < |before| :: AddedBy(before[k], inputs[..|inputs| - 1])
    ensures var saved := OfferUpsert(before, inputs[|inputs| - 1], id);
            forall k | |offers| <= k < |saved| :: AddedBy(saved[k], inputs)
  {
    var saved := OfferUpsert(before, inputs[|inputs| - 1], id);
    OfferUpsertedExactly(before, inputs[|inputs| - 1], id);
    forall k | |offers| <= k < |saved| ensures AddedBy(saved[k], inputs) {
      if k < |before| {
        AddedStays(before[k], inputs);
      } else {
        AddedNow(inputs, id);
      }
    }
  }

  lemma SavedHeld(init: seq<ProductInput>, x: ProductInput, before: seq<Offer>, id: string)
    requires CodesApart(before) && forall n | 0 <= n < |init| :: Held(before, init[n].sku)
    ensures forall n | 0 <= n < |init + [x]| :: Held(OfferUpsert(before, x, id), (init + [x])[n].sku)
  {
    OfferUpsertedExactly(before, x, id);
    forall n | 0 <= n < |init| ensures Held(OfferUpsert(before, x, id), init[n].sku) {
      StillHeld(before, x, id, init[n].sku);
    }
  }

  lemma SavedStep(offers: seq<Offer>, inputs: seq<ProductInput>, before: seq<Offer>, id: string)
    requires inputs != [] && SavedAs(offers, inputs[..|inputs| - 1], before)
    ensures SavedAs(offers, inputs, OfferUpsert(before, inputs[|inputs| - 1], id))
  {
    StillApart(before, inputs[|inputs| - 1], id);
    SavedOld(offers, inputs, before, id);
    SavedNew(offers, inputs, before, id);
    SavedHeld(inputs[..|inputs| - 1], inputs[|inputs| - 1], before, id);
    assert inputs == inputs[..|inputs| - 1] + [inputs[|inputs| - 1]];
  }

  lemma StillHeld(offers: seq<Offer>, x: ProductInput, id: string, code: string)
    requires CodesApart(offers) && Held(offers, code)
    ensures Held(OfferUpsert(offers, x, id), code)
  {
    OfferUpsertedExactly(offers, x, id);
    var k :| 0 <= k < |offers| && code in Codes(offers[k].skus);
    CodesWritten(offers[k].skus, x);
    assert code in Codes(OfferUpsert(offers, x, id)[k].skus);
  }

  // ----- Listings before and after -----

  predicate SameCard(o: Offer, o': Offer, blocks: seq<StoryBlock>) {
    (Displayed(o) <==> Displayed(o')) && (Displayed(o) ==> CardOf(o, blocks) == CardOf(o', blocks))
  }

  predicate SameSummary(o: Offer, o': Offer) {
    (Offered(o) <==> Offered(o')) && (Offered(o) ==> SummaryOf(o) == SummaryOf(o'))
  }

  ghost predicate OffersApart(offers: seq<Offer>) {
    forall i, j | 0 <= i < j < |offers| :: offers[i].id != offers[j].id
  }

  /** The offers keep their places and ids; new ones come behind. */
  ghost predicate Grown(a: seq<Offer>, b: seq<Offer>) {
    |a| <= |b| && OffersApart(b) && forall k | 0 <= k < |a| :: a[k].id == b[k].id
  }

  lemma {:induction false} CardIds(offers: seq<Offer>, blocks: seq<StoryBlock>)
    ensures forall c | c in Cards(offers, blocks) :: exists k :: 0 <= k < |offers| && offers[k].id == c.id
  {
    if offers != [] {
      CardIds(offers[..|offers| - 1], blocks);
      assert forall k | 0 <= k < |offers| - 1 :: offers[..|offers| - 1][k] == offers[k];
    }
  }

  lemma NotYet(offers: seq<Offer>, blocks: seq<StoryBlock>, id: string)
    requires forall k | 0 <= k < |offers| :: offers[k].id != id
    ensures Cards(offers, blocks) != [] ==> Cards(offers, blocks)[0].id != id
  {
    CardIds(offers, blocks);
    assert Cards(offers, blocks) != [] ==> Cards(offers, blocks)[0] in Cards(offers, blocks);
  }

  /** Every card is as it was, and no new offer has one. */
  predicate CardsKept(a: seq<Offer>, b: seq<Offer>, blocks: seq<StoryBlock>)
    requires |a| <= |b|
  {
    (forall k | 0 <= k < |a| :: SameCard(a[k], b[k], blocks)) && (forall k | |a| <= k < |b| :: !Displayed(b[k]))
  }

  lemma CardsKeptLast(a: seq<Offer>, b: seq<Offer>, blocks: seq<StoryBlock>)
    requires |a| <= |b| && b != []
    ensures var last := |b| - 1;
            CardsKept(a, b, blocks)
            <==> if |a| < |b| then CardsKept(a, b[..last], blocks) && !Displayed(b[last])
                 else CardsKept(a[..last], b[..last], blocks) && SameCard(a[last], b[last], blocks)
  {
    var last := |b| - 1;
    assert forall k | 0 <= k < last :: b[..last][k] == b[k];
    if |a| == |b| {
      assert forall k | 0 <= k < last :: a[..last][k] == a[k];
    }
  }

  /** Two storefront listings are equal exactly if every card is. */
  lemma {:induction false} SameCardsExactly(a: seq<Offer>, b: seq<Offer>, blocks: seq<StoryBlock>)
    requires Grown(a, b)
    ensures Cards(a, blocks) == Cards(b, blocks) <==> CardsKept(a, b, blocks)
    decreases |b|
  {
    if b != [] {
      var last := |b| - 1;
      CardsKeptLast(a, b, blocks);
      if |a| < |b| {
        NotYet(a, blocks, b[last].id);
        SameCardsExactly(a, b[..last], blocks);
        NewCard(a, b, blocks);
      } else {
        NotYet(b[..last], blocks, b[last].id);
        NotYet(a[..last], blocks, b[last].id);
        SameCardsExactly(a[..last], b[..last], blocks);
        FirstCard(a, b, blocks);
      }
    }
  }

  lemma NewCard(a: seq<Offer>, b: seq<Offer>, blocks: seq<StoryBlock>)
    requires b != [] && (Cards(a, blocks) != [] ==> Cards(a, blocks)[0].id != b[|b| - 1].id)
    ensures Cards(a, blocks) == Cards(b, blocks)
            <==> !Displayed(b[|b| - 1]) && Cards(a, blocks) == Cards(b[..|b| - 1], blocks)
  {
    assert [] + Cards(b[..|b| - 1], blocks) == Cards(b[..|b| - 1], blocks);
    if Displayed(b[|b| - 1]) {
      assert Cards(b, blocks)[0].id == b[|b| - 1].id;
    }
  }

  lemma FirstCard(a: seq<Offer>, b: seq<Offer>, blocks: seq<StoryBlock>)
    requires |a| == |b| > 0 && a[|a| - 1].id == b[|a| - 1].id
    requires var x := Cards(a[..|a| - 1], blocks); x != [] ==> x[0].id != a[|a| - 1].id
    requires var y := Cards(b[..|a| - 1], blocks); y != [] ==> y[0].id != a[|a| - 1].id
    ensures Cards(a, blocks) == Cards(b, blocks)
            <==> SameCard(a[|a| - 1], b[|a| - 1], blocks) && Cards(a[..|a| - 1], blocks) == Cards(b[..|a| - 1], blocks)
  {
    var (f, g, x, y) := (a[|a| - 1], b[|a| - 1], Cards(a[..|a| - 1], blocks), Cards(b[..|a| - 1], blocks));
    assert [] + x == x && [] + y == y;
    if Displayed(f) {
      assert Cards(a, blocks)[0].id == f.id && Cards(a, blocks)[1..] == x;
    }
    if Displayed(g) {
      assert Cards(b, blocks)[0].id == f.id && Cards(b, blocks)[1..] == y;
    }
  }

  /** How many offers behind this one are offered: the listing shows them first. */
  function Newer(offers: seq<Offer>, k: nat): nat
    requires k < |offers|
  {
    if k == |offers| - 1 then 0
    else Newer(offers[..|offers| - 1], k) + if Offered(offers[|offers| - 1]) then 1 else 0
  }

  /** Whatever differs is too old to be listed, and no new offer is listed. */
  predicate SummariesKept(a: seq<Offer>, b: seq<Offer>, limit: nat)
    requires |a| <= |b|
  {
    && (forall k | 0 <= k < |a| :: SameSummary(a[k], b[k]) || Newer(a, k) >= limit)
    && (limit > 0 ==> forall k | |a| <= k < |b| :: !Offered(b[k]))
  }

  lemma SummariesKeptLast(a: seq<Offer>, b: seq<Offer>, limit: nat)
    requires |a| <= |b| && b != [] && limit > 0
    ensures var last := |b| - 1;
            SummariesKept(a, b, limit)
            <==> if |a| < |b| then SummariesKept(a, b[..last], limit) && !Offered(b[last])
                 else SummariesKept(a[..last], b[..last], if Offered(a[last]) then limit - 1 else limit) && SameSummary(a[last], b[last])
  {
    var last := |b| - 1;
    assert forall k | 0 <= k < last :: b[..last][k] == b[k];
    if |a| == |b| {
      assert forall k | 0 <= k < last :: a[..last][k] == a[k];
      assert forall k | 0 <= k < last :: Newer(a, k) == Newer(a[..last], k) + if Offered(a[last]) then 1 else 0;
      assert Newer(a, last) == 0;
    }
  }

  /** Two summary listings are equal exactly if whatever differs is too old to be listed. */
  lemma {:induction false} SameSummariesExactly(a: seq<Offer>, b: seq<Offer>, limit: nat)
    requires Grown(a, b)
    ensures Summarized(a, limit) == Summarized(b, limit) <==> SummariesKept(a, b, limit)
    decreases |b|
  {
    if limit > 0 && b != [] {
      var last := |b| - 1;
      SummariesKeptLast(a, b, limit);
      if |a| < |b| {
        SameSummariesExactly(a, b[..last], limit);
        NotListed(a, limit, b[last].id);
      } else {
        SameSummariesExactly(a[..last], b[..last], if Offered(a[last]) then limit - 1 else limit);
        NotListed(a[..last], limit, b[last].id);
        NotListed(b[..last], limit, b[last].id);
        FirstSummary(a, b, limit);
      }
    }
  }

  lemma {:induction false} NotListed(offers: seq<Offer>, limit: nat, id: string)
    requires forall k | 0 <= k < |offers| :: offers[k].id != id
    ensures Summarized(offers, limit) != [] ==> Summarized(offers, limit)[0].id != id
    decreases |offers|
  {
    if offers != [] && limit > 0 && !Offered(offers[|offers| - 1]) {
      NotListed(offers[..|offers| - 1], limit, id);
    }
  }

  lemma FirstSummary(a: seq<Offer>, b: seq<Offer>, limit: nat)
    requires |a| == |b| > 0 && limit > 0 && a[|a| - 1].id == b[|a| - 1].id
    requires var x := Summarized(a[..|a| - 1], limit); x != [] ==> x[0].id != a[|a| - 1].id
    requires var y := Summarized(b[..|a| - 1], limit); y != [] ==> y[0].id != a[|a| - 1].id
    ensures Summarized(a, limit) == Summarized(b, limit)
            <==> SameSummary(a[|a| - 1], b[|a| - 1])
                 && var rest := if Offered(a[|a| - 1]) then limit - 1 else limit;
                    Summarized(a[..|a| - 1], rest) == Summarized(b[..|a| - 1], rest)
  {
    var (f, g) := (a[|a| - 1], b[|a| - 1]);
    if Offered(f) {
      assert Summarized(a, limit)[0].id == f.id && Summarized(a, limit)[1..] == Summarized(a[..|a| - 1], limit - 1);
    }
    if Offered(g) {
      assert Summarized(b, limit)[0].id == f.id && Summarized(b, limit)[1..] == Summarized(b[..|a| - 1], limit - 1);
    }
  }

  // ----- Which saves keep the listings -----

  /** The card stays: a displayed product, its first SKU's terms and its last's parcel are as they were; any other stays a draft. */
  predicate KeepsCard(o: Offer, inputs: seq<ProductInput>) {
    match LastFor(inputs, Codes(o.skus))
    case None => true
    case Some(x) =>
      if !Displayed(o) then !x.active
      else
        && x.active && o.category == Some(x.category) && o.region == Some(x.region) && o.card == x.card
        && o.texts == o.texts["zh" := x.zh]["en" := x.en]
        && (x.assets.Some? ==> ActiveAssets(x.assets.value) == ActiveAssets(o.assets))
        && SkuAfter(o.skus[0], inputs).terms == o.skus[0].terms && SkuAfter(LastSku(o), inputs).parcel == LastSku(o).parcel
  }

  /** The summary stays: of a listed product the title and what is said of its first SKU. */
  predicate KeepsSummary(o: Offer, inputs: seq<ProductInput>) {
    match LastFor(inputs, Codes(o.skus))
    case None => true
    case Some(x) =>
      if !Offered(o) then !x.active
      else x.active && o.title == x.title && SkuAfter(o.skus[0], inputs) == o.skus[0]
  }

  /** For every SKU code among the inputs: its offer's card stays, and a new offer is a draft. */
  predicate RestatesCards(offers: seq<Offer>, inputs: seq<ProductInput>) {
    forall n | 0 <= n < |inputs| ::
      var (offer, last) := (FindCode(offers, inputs[n].sku), LastFor(inputs, {inputs[n].sku}));
      last.Some? && if offer.Some? then KeepsCard(offers[offer.value], inputs) else !last.value.active
  }

  /** The same for summaries, but for offers behind `limit` newer ones. */
  predicate RestatesSummaries(offers: seq<Offer>, inputs: seq<ProductInput>, limit: nat) {
    forall n | 0 <= n < |inputs| ::
      var (offer, last) := (FindCode(offers, inputs[n].sku), LastFor(inputs, {inputs[n].sku}));
      && last.Some?
      && if offer.Some? then KeepsSummary(offers[offer.value], inputs) || Newer(offers, offer.value) >= limit
         else !last.value.active
  }

  lemma SkuAt(skus: seq<Sku>, inputs: seq<ProductInput>, i: nat)
    requires i < |skus|
    ensures SkusAfter(skus, inputs)[i] == SkuAfter(skus[i], inputs) && SkuAfter(skus[i], inputs).code == skus[i].code
  {
  }

  lemma KeepsCardExactly(o: Offer, inputs: seq<ProductInput>, blocks: seq<StoryBlock>)
    ensures SameCard(o, OfferAfter(o, inputs), blocks) <==> KeepsCard(o, inputs)
  {
    var o' := OfferAfter(o, inputs);
    if LastFor(inputs, Codes(o.skus)).Some? {
      LastForAny(inputs, Codes(o.skus));
      assert "en" in o'.texts && o.skus != [];
      SkuAt(o.skus, inputs, 0);
      SkuAt(o.skus, inputs, |o.skus| - 1);
      if Displayed(o) {
        CopiesExactly(o.id, o.texts, o'.texts, LastSku(o), LastSku(o'), blocks);
      }
    }
  }

  lemma CopiesExactly(id: string, texts: map<string, string>, texts': map<string, string>, s: Sku, s': Sku, blocks: seq<StoryBlock>)
    requires texts != map[] && s.code == s'.code
    ensures Copies(id, texts, s, blocks) == Copies(id, texts', s', blocks) <==> texts == texts' && s.parcel == s'.parcel
  {
    var a, b := Copies(id, texts, s, blocks), Copies(id, texts', s', blocks);
    if a == b {
      assert texts.Keys == a.Keys && texts'.Keys == b.Keys;
      forall l | l in texts ensures texts'[l] == texts[l] && s'.parcel == s.parcel {
        assert a[l] == b[l];
      }
      var l :| l in texts;
    }
  }

  lemma KeepsSummaryExactly(o: Offer, inputs: seq<ProductInput>)
    ensures SameSummary(o, OfferAfter(o, inputs)) <==> KeepsSummary(o, inputs)
  {
    if LastFor(inputs, Codes(o.skus)).Some? {
      LastForAny(inputs, Codes(o.skus));
      assert o.skus != [];
      SkuAt(o.skus, inputs, 0);
    }
  }

  /** Every input is for an offer there was, or for one that was added for it. */
  lemma InputOf(offers: seq<Offer>, inputs: seq<ProductInput>, saved: seq<Offer>, n: nat)
    requires SavedAs(offers, inputs, saved) && n < |inputs|
    ensures LastFor(inputs, {inputs[n].sku}).Some?
    ensures FindCode(offers, inputs[n].sku).None? ==>
              exists k :: |offers| <= k < |saved| && saved[k].skus != [] && saved[k].skus[0].code == inputs[n].sku
  {
    var code := inputs[n].sku;
    LastForAny(inputs, {code});
    var k :| 0 <= k < |saved| && code in Codes(saved[k].skus);
    if k < |offers| {
      CodesStay(offers[k], inputs);
      assert offers[k] in offers;
    } else {
      assert AddedBy(saved[k], inputs);
    }
  }

  /** The offer of a mentioned code; a mention of the offer. */
  lemma Mention(offers: seq<Offer>, inputs: seq<ProductInput>, k: nat) returns (n: nat)
    requires CodesApart(offers) && k < |offers| && LastFor(inputs, Codes(offers[k].skus)).Some?
    ensures n < |inputs| && FindCode(offers, inputs[n].sku) == Some(k)
  {
    LastForAny(inputs, Codes(offers[k].skus));
    n :| 0 <= n < |inputs| && inputs[n].sku in Codes(offers[k].skus);
    assert offers[k] in offers;
    OneHolder(offers, FindCode(offers, inputs[n].sku).value, k, inputs[n].sku);
  }

  lemma OneHolder(offers: seq<Offer>, i: nat, k: nat, code: string)
    requires CodesApart(offers) && i < |offers| && k < |offers|
    requires code in Codes(offers[i].skus) && code in Codes(offers[k].skus)
    ensures i == k
  {
  }

  lemma MentionOfNew(offers: seq<Offer>, inputs: seq<ProductInput>, saved: seq<Offer>, k: nat) returns (n: nat)
    requires SavedAs(offers, inputs, saved) && |offers| <= k < |saved|
    ensures n < |inputs| && saved[k].skus != [] && inputs[n].sku == saved[k].skus[0].code
    ensures FindCode(offers, inputs[n].sku) == None
  {
    assert AddedBy(saved[k], inputs);
    var code := saved[k].skus[0].code;
    LastForAny(inputs, {code});
    n :| 0 <= n < |inputs| && inputs[n].sku in {code};
    assert saved[k].skus[0] in saved[k].skus;
    NotBefore(offers, inputs, saved, k, code);
  }

  lemma NotBefore(offers: seq<Offer>, inputs: seq<ProductInput>, saved: seq<Offer>, k: nat, code: string)
    requires SavedAs(offers, inputs, saved) && |offers| <= k < |saved| && code in Codes(saved[k].skus)
    ensures FindCode(offers, code) == None
  {
    forall o | o in offers ensures code !in Codes(o.skus) {
      var i :| 0 <= i < |offers| && o == offers[i];
      CodesStay(offers[i], inputs);
      assert Codes(saved[i].skus) !! Codes(saved[k].skus);
    }
  }

  lemma CardsKeptExactly(offers: seq<Offer>, inputs: seq<ProductInput>, saved: seq<Offer>, blocks: seq<StoryBlock>)
    requires CodesApart(offers) && SavedAs(offers, inputs, saved)
    ensures CardsKept(offers, saved, blocks) <==> RestatesCards(offers, inputs)
  {
    forall k | 0 <= k < |offers| ensures SameCard(offers[k], saved[k], blocks) <==> KeepsCard(offers[k], inputs) {
      KeepsCardExactly(offers[k], inputs, blocks);
    }
    if CardsKept(offers, saved, blocks) {
      forall n | 0 <= n < |inputs|
        ensures var (offer, last) := (FindCode(offers, inputs[n].sku), LastFor(inputs, {inputs[n].sku}));
                last.Some? && if offer.Some? then KeepsCard(offers[offer.value], inputs) else !last.value.active
      {
        InputOf(offers, inputs, saved, n);
      }
    }
    if RestatesCards(offers, inputs) {
      forall k | 0 <= k < |offers| ensures KeepsCard(offers[k], inputs) {
        if LastFor(inputs, Codes(offers[k].skus)).Some? {
          var n := Mention(offers, inputs, k);
        }
      }
      forall k | |offers| <= k < |saved| ensures !Displayed(saved[k]) {
        var n := MentionOfNew(offers, inputs, saved, k);
      }
    }
  }

  lemma SummariesKeptExactly(offers: seq<Offer>, inputs: seq<ProductInput>, saved: seq<Offer>, limit: nat)
    requires CodesApart(offers) && SavedAs(offers, inputs, saved) && limit > 0
    ensures SummariesKept(offers, saved, limit) <==> RestatesSummaries(offers, inputs, limit)
  {
    forall k | 0 <= k < |offers| ensures SameSummary(offers[k], saved[k]) <==> KeepsSummary(offers[k], inputs) {
      KeepsSummaryExactly(offers[k], inputs);
    }
    if SummariesKept(offers, saved, limit) {
      forall n | 0 <= n < |inputs|
        ensures var (offer, last) := (FindCode(offers, inputs[n].sku), LastFor(inputs, {inputs[n].sku}));
                && last.Some?
                && if offer.Some? then KeepsSummary(offers[offer.value], inputs) || Newer(offers, offer.value) >= limit
                   else !last.value.active
      {
        InputOf(offers, inputs, saved, n);
      }
    }
    if RestatesSummaries(offers, inputs, limit) {
      forall k | 0 <= k < |offers| ensures KeepsSummary(offers[k], inputs) || Newer(offers, k) >= limit {
        if LastFor(inputs, Codes(offers[k].skus)).Some? {
          var n := Mention(offers, inputs, k);
        }
      }
      forall k | |offers| <= k < |saved| ensures !Offered(saved[k]) {
        var n := MentionOfNew(offers, inputs, saved, k);
      }
    }
  }

  lemma OffersKeyed(db: Database)
    requires Keyed(db)
    ensures CodesApart(Offers(db)) && OffersApart(Offers(db))
  {
    var offers := Offers(db);
    forall i, j | 0 <= i < j < |offers| ensures Codes(offers[i].skus) !! Codes(offers[j].skus) {
      forall code ensures !(code in Codes(offers[i].skus) && code in Codes(offers[j].skus)) {
        if code in Codes(offers[i].skus) && code in Codes(offers[j].skus) {
          OneProduct(db.skus, code, db.products[i].id, db.products[j].id);
        }
      }
    }
  }

  lemma OneProduct(skus: seq<Sku>, code: string, id: string, id': string)
    requires Skus.CodesDistinct(skus) && code in Codes(SkusOf(skus, id)) && code in Codes(SkusOf(skus, id'))
    ensures id == id'
  {
    OwnSkus(skus, id);
    OwnSkus(skus, id');
    var s :| s in SkusOf(skus, id) && s.code == code;
    var s' :| s' in SkusOf(skus, id') && s'.code == code;
    assert s == s';
  }
}
