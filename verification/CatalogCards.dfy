/** The two product listings show the offers, newest first: what the joins, the grouping and the limit come down to. */
module CatalogCards {
  import opened Collections
  import opened CatalogTables
  import opened CatalogGrouping
  import opened CatalogOffers
  import Skus = CatalogSkus

  predicate Displayed(o: Offer) {
    o.active && o.category.Some? && o.region.Some? && o.skus != [] && o.texts != map[]
  }

  function LastSku(o: Offer): Sku
    requires o.skus != []
  {
    o.skus[|o.skus| - 1]
  }

  /** Sold under the first SKU on its terms, in the parcel of the last. */
  function CardOf(o: Offer, blocks: seq<StoryBlock>): StoreProduct
    requires Displayed(o)
  {
    StoreProduct(o.id, Header(o.slug, o.card, ActiveAssets(o.assets), o.category.value, o.region.value,
                                   o.skus[0].code, o.skus[0].terms),
                 Copies(o.id, o.texts, LastSku(o), blocks))
  }

  function Copies(id: string, texts: map<string, string>, s: Sku, blocks: seq<StoryBlock>): map<string, Copy> {
    map l | l in texts :: Copy(texts[l], s.code, s.parcel, BlocksOf(blocks, id, l))
  }

  function Cards(offers: seq<Offer>, blocks: seq<StoryBlock>): seq<StoreProduct> {
    if offers == [] then []
    else
      var last := offers[|offers| - 1];
      (if Displayed(last) then [CardOf(last, blocks)] else []) + Cards(offers[..|offers| - 1], blocks)
  }

  predicate Offered(o: Offer) {
    o.active && o.skus != []
  }

  function SummaryOf(o: Offer): Summary
    requires Offered(o)
  {
    Summary(o.id, o.slug, o.title, o.skus[0])
  }

  function Summarized(offers: seq<Offer>, limit: nat): seq<Summary>
    decreases |offers|
  {
    if offers == [] || limit == 0 then []
    else
      var (last, rest) := (offers[|offers| - 1], offers[..|offers| - 1]);
      if Offered(last) then [SummaryOf(last)] + Summarized(rest, limit - 1) else Summarized(rest, limit)
  }

  // ----- The storefront listing -----

  lemma GroupedConcat(a: seq<Row>, b: seq<Row>, blocks: seq<StoryBlock>)
    requires forall r, q | r in a && q in b :: r.productId != q.productId
    ensures Grouped(a + b, blocks) == Grouped(a, blocks) + Grouped(b, blocks)
  {
    IdsConcat(a, b);
    forall i | 0 <= i < |IdsOf(a)| ensures Grouped(a + b, blocks)[i] == Grouped(a, blocks)[i] {
      IdApart(a, b, IdsOf(a)[i]);
      GroupedLeft(a, b, blocks, i);
    }
    forall i | 0 <= i < |IdsOf(b)| ensures Grouped(a + b, blocks)[|IdsOf(a)| + i] == Grouped(b, blocks)[i] {
      IdApart(a, b, IdsOf(b)[i]);
      GroupedRight(a, b, blocks, i);
    }
    TwoHalves(Grouped(a, blocks), Grouped(b, blocks), Grouped(a + b, blocks));
  }

  lemma TwoHalves<T>(x: seq<T>, y: seq<T>, z: seq<T>)
    requires |z| == |x| + |y|
    requires (forall i | 0 <= i < |x| :: z[i] == x[i]) && forall i | 0 <= i < |y| :: z[|x| + i] == y[i]
    ensures z == x + y
  {
  }

  lemma GroupedLeft(a: seq<Row>, b: seq<Row>, blocks: seq<StoryBlock>, i: nat)
    requires i < |IdsOf(a)| && IdsOf(a + b) == IdsOf(a) + IdsOf(b) && IdsOf(a)[i] !in IdsOf(b)
    ensures Grouped(a + b, blocks)[i] == Grouped(a, blocks)[i]
  {
    PartsConcat(a, b, blocks, IdsOf(a)[i]);
    assert IdsOf(a + b)[i] == IdsOf(a)[i] && IdsOf(a)[i] in IdsOf(a);
  }

  lemma GroupedRight(a: seq<Row>, b: seq<Row>, blocks: seq<StoryBlock>, i: nat)
    requires i < |IdsOf(b)| && IdsOf(a + b) == IdsOf(a) + IdsOf(b) && IdsOf(b)[i] !in IdsOf(a)
    ensures Grouped(a + b, blocks)[|IdsOf(a)| + i] == Grouped(b, blocks)[i]
  {
    PartsConcat(a, b, blocks, IdsOf(b)[i]);
    assert IdsOf(a + b)[|IdsOf(a)| + i] == IdsOf(b)[i] && IdsOf(b)[i] in IdsOf(b);
  }

  lemma IdApart(a: seq<Row>, b: seq<Row>, id: string)
    requires forall r, q | r in a && q in b :: r.productId != q.productId
    ensures !(id in IdsOf(a) && id in IdsOf(b))
  {
    IdsExactly(a);
    IdsExactly(b);
  }

  lemma {:induction false} IdsConcat(a: seq<Row>, b: seq<Row>)
    requires forall r, q | r in a && q in b :: r.productId != q.productId
    ensures IdsOf(a + b) == IdsOf(a) + IdsOf(b)
  {
    if b == [] {
      assert a + b == a;
    } else {
      assert (a + b)[..|a + b| - 1] == a + b[..|b| - 1];
      IdsConcat(a, b[..|b| - 1]);
      IdsExactly(a);
      assert b[|b| - 1] in b;
    }
  }

  lemma {:induction false} PartsConcat(a: seq<Row>, b: seq<Row>, blocks: seq<StoryBlock>, id: string)
    ensures id in IdsOf(a) ==> HeaderOf(a + b, id) == HeaderOf(a, id)
    ensures id !in IdsOf(a) ==> HeaderOf(a + b, id) == HeaderOf(b, id) && CopyOf(a + b, blocks, id) == CopyOf(b, blocks, id)
    ensures id !in IdsOf(b) ==> CopyOf(a + b, blocks, id) == CopyOf(a, blocks, id)
  {
    if b == [] {
      assert a + b == a;
      NoCopyYet(a, blocks, id);
    } else {
      assert (a + b)[..|a + b| - 1] == a + b[..|b| - 1];
      PartsConcat(a, b[..|b| - 1], blocks, id);
    }
  }

  /** The rows of one translation leave what its last SKU says. */
  lemma {:induction false} LastSkuStays(rows: seq<Row>, blocks: seq<StoryBlock>, p: Product, c: string, r: string,
                                        t: Translation, skus: seq<Sku>)
    requires skus != []
    ensures var s := skus[|skus| - 1];
            CopyOf(rows + SkuRows(p, c, r, t, skus), blocks, p.id)
            == CopyOf(rows, blocks, p.id)[t.locale := Copy(t.text, s.code, s.parcel, BlocksOf(blocks, p.id, t.locale))]
  {
    var last := |skus| - 1;
    var before, added := SkuRows(p, c, r, t, skus[..last]), SkuRows(p, c, r, t, skus);
    assert added == before + [RowOf(p, c, r, t, skus[last])];
    assert (rows + added)[..|rows + added| - 1] == rows + before;
    if last == 0 {
      assert rows + before == rows;
    } else {
      LastSkuStays(rows, blocks, p, c, r, t, skus[..last]);
    }
  }

  lemma {:induction false} CopiedTexts(p: Product, c: string, r: string, ts: seq<Translation>, skus: seq<Sku>, blocks: seq<StoryBlock>)
    requires skus != []
    ensures CopyOf(TranslationRows(p, c, r, ts, skus), blocks, p.id) == Copies(p.id, Texts(ts), skus[|skus| - 1], blocks)
  {
    if ts != [] {
      var before := TranslationRows(p, c, r, ts[..|ts| - 1], skus);
      CopiedTexts(p, c, r, ts[..|ts| - 1], skus, blocks);
      LastSkuStays(before, blocks, p, c, r, ts[|ts| - 1], skus);
    }
  }

  lemma {:induction false} FirstSkuFirst(p: Product, c: string, r: string, ts: seq<Translation>, skus: seq<Sku>)
    requires ts != [] && skus != []
    ensures var rows := TranslationRows(p, c, r, ts, skus);
            rows != [] && rows[0] == RowOf(p, c, r, ts[0], skus[0])
  {
    Skus.SkuRowsAre(p, c, r, ts[|ts| - 1], skus);
    if |ts| > 1 {
      FirstSkuFirst(p, c, r, ts[..|ts| - 1], skus);
    } else {
      assert TranslationRows(p, c, r, ts[..0], skus) == [];
    }
  }

  lemma TextsOfSome(ts: seq<Translation>)
    ensures ts == [] <==> Texts(ts) == map[]
  {
    assert ts != [] ==> ts[|ts| - 1].locale in Texts(ts);
  }

  lemma GroupedRows(p: Product, c: string, r: string, skus: seq<Sku>, blocks: seq<StoryBlock>)
    requires p.translations != [] && skus != []
    ensures Grouped(TranslationRows(p, c, r, p.translations, skus), blocks)
            == [StoreProduct(p.id, Header(p.slug, p.card, ActiveAssets(p.assets), c, r, skus[0].code, skus[0].terms),
                             Copies(p.id, Texts(p.translations), skus[|skus| - 1], blocks))]
  {
    var rows := TranslationRows(p, c, r, p.translations, skus);
    FirstSkuFirst(p, c, r, p.translations, skus);
    CopiedTexts(p, c, r, p.translations, skus, blocks);
    Skus.RowsExactly(p, c, r, p.translations, skus);
    assert forall i | 0 <= i < |rows| :: rows[i] in rows;
    Skus.ListedAlone(rows, p.id);
  }

  /** A product's rows group to its card. */
  lemma GroupedCard(db: Database, p: Product)
    ensures var o := OfferOf(db, p);
            Grouped(ProductRows(db, p), db.blocks) == if Displayed(o) then [CardOf(o, db.blocks)] else []
  {
    var o := OfferOf(db, p);
    TextsOfSome(p.translations);
    if p.active && o.category.Some? && o.region.Some? {
      if o.skus == [] {
        NoRows(p, o.category.value, o.region.value, p.translations);
      } else if p.translations != [] {
        GroupedRows(p, o.category.value, o.region.value, o.skus, db.blocks);
      }
    }
  }

  lemma {:induction false} NoRows(p: Product, c: string, r: string, ts: seq<Translation>)
    ensures TranslationRows(p, c, r, ts, []) == []
  {
    if ts != [] {
      NoRows(p, c, r, ts[..|ts| - 1]);
    }
  }

  lemma OwnRows(db: Database, p: Product)
    ensures forall row | row in ProductRows(db, p) :: row.productId == p.id
  {
    var (c, r) := (FindById(db.categories, p.categoryId), FindById(db.regions, p.regionId));
    if c.Some? && r.Some? {
      Skus.RowsExactly(p, db.categories[c.value].slug, db.regions[r.value].slug, p.translations, SkusOf(db.skus, p.id));
    }
  }

  lemma {:induction false} RowIds(db: Database, products: seq<Product>)
    ensures forall row | row in StorefrontRows(db, products) :: exists p :: p in products && p.id == row.productId
  {
    if products != [] {
      var last := |products| - 1;
      RowIds(db, products[..last]);
      OwnRows(db, products[last]);
      assert products == products[..last] + [products[last]];
    }
  }

  lemma {:induction false} ListedCards(db: Database, products: seq<Product>)
    requires ProductsDistinct(products)
    ensures Grouped(StorefrontRows(db, products), db.blocks) == Cards(OffersIn(db, products), db.blocks)
  {
    if products != [] {
      var p, before := products[|products| - 1], products[..|products| - 1];
      assert OffersIn(db, products)[..|products| - 1] == OffersIn(db, before);
      ListedCards(db, before);
      GroupedCard(db, p);
      OtherIds(db, p, before);
      GroupedConcat(ProductRows(db, p), StorefrontRows(db, before), db.blocks);
    }
  }

  lemma OtherIds(db: Database, p: Product, before: seq<Product>)
    requires forall q | q in before :: q.id != p.id
    ensures forall row, q | row in ProductRows(db, p) && q in StorefrontRows(db, before) :: row.productId != q.productId
  {
    OwnRows(db, p);
    RowIds(db, before);
  }

  /** The storefront listing shows a card for every displayed offer, newest first. */
  lemma StorefrontShowsOffers(db: Database)
    requires ProductsDistinct(db.products)
    ensures Grouped(StorefrontRows(db, db.products), db.blocks) == Cards(Offers(db), db.blocks)
  {
    ListedCards(db, db.products);
  }

  // ----- The summaries -----

  lemma {:induction false} ListedSummaries(db: Database, products: seq<Product>, limit: nat)
    ensures Summaries(products, db.skus, limit) == Summarized(OffersIn(db, products), limit)
    decreases |products|
  {
    if products != [] && limit > 0 {
      var p, before := products[|products| - 1], products[..|products| - 1];
      assert OffersIn(db, products)[..|products| - 1] == OffersIn(db, before);
      if Offered(OfferOf(db, p)) {
        ListedSummaries(db, before, limit - 1);
      } else {
        ListedSummaries(db, before, limit);
      }
    }
  }

  /** The summaries are those of the newest active offers with a SKU, at most 24. */
  lemma SummariesShowOffers(db: Database)
    ensures Summaries(db.products, db.skus, 24) == Summarized(Offers(db), 24)
  {
    ListedSummaries(db, db.products, 24);
  }
}
