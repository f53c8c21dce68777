/**
 * The product listings told without rows: each product with its SKUs is an offer, the listings show the offers newest first,
 * and a product save overwrites offers by SKU code.
 */
module CatalogOffers {
  import opened Collections
  import opened CatalogTables
  import opened CatalogGrouping
  import Skus = CatalogSkus

  /** Category and region are slugs; SKUs are in creation order. */
  datatype Offer = Offer(id: string, slug: string, title: string, active: bool, category: Option<string>, region: Option<string>,
                         card: string, assets: seq<Asset>, texts: map<string, string>, skus: seq<Sku>)

  function SlugOf(facets: seq<Facet>, id: string): Option<string> {
    match FindById(facets, id)
    case Some(i) => Some(facets[i].slug)
    case None => None
  }

  function Texts(ts: seq<Translation>): map<string, string> {
    if ts == [] then map[] else Texts(ts[..|ts| - 1])[ts[|ts| - 1].locale := ts[|ts| - 1].text]
  }

  function OfferOf(db: Database, p: Product): Offer {
    Offer(p.id, p.slug, p.title, p.active, SlugOf(db.categories, p.categoryId), SlugOf(db.regions, p.regionId), p.card, p.assets,
          Texts(p.translations), SkusOf(db.skus, p.id))
  }

  function OffersIn(db: Database, products: seq<Product>): seq<Offer> {
    seq(|products|, i requires 0 <= i < |products| => OfferOf(db, products[i]))
  }

  function Offers(db: Database): seq<Offer> {
    OffersIn(db, db.products)
  }

  // ----- The keys of the tables -----

  ghost predicate IdsDistinct(facets: seq<Facet>) {
    forall i, j | 0 <= i < j < |facets| :: facets[i].id != facets[j].id
  }

  ghost predicate ProductsDistinct(products: seq<Product>) {
    forall i, j | 0 <= i < j < |products| :: products[i].id != products[j].id
  }

  /** Primary and unique keys, and the reference of a SKU to its product. */
  ghost predicate Keyed(db: Database) {
    && IdsDistinct(db.categories) && IdsDistinct(db.regions) && ProductsDistinct(db.products)
    && Skus.CodesDistinct(db.skus)
    && (forall s | s in db.skus :: FindProduct(db.products, s.productId).Some?)
    && (forall p | p in db.products :: Skus.LocalesDistinct(p.translations))
  }

  /** The id is no row's, and no product refers to it. */
  ghost predicate Unused(db: Database, id: string) {
    && (forall f | f in db.categories || f in db.regions :: f.id != id)
    && (forall p | p in db.products :: p.id != id && p.categoryId != id && p.regionId != id)
  }

  // ----- What a facet save leaves -----

  lemma FoundAt(facets: seq<Facet>, i: nat)
    requires IdsDistinct(facets) && i < |facets|
    ensures FindById(facets, facets[i].id) == Some(i)
  {
    assert facets[i] in facets;
  }

  lemma NotFound(facets: seq<Facet>, id: string)
    requires forall f | f in facets :: f.id != id
    ensures FindById(facets, id) == None
  {
  }

  lemma SlugAt(facets: seq<Facet>, i: nat)
    requires IdsDistinct(facets) && i < |facets|
    ensures SlugOf(facets, facets[i].id) == Some(facets[i].slug)
  {
    FoundAt(facets, i);
  }

  lemma SlugsAgree(a: seq<Facet>, b: seq<Facet>, id: string)
    requires IdsDistinct(a) && IdsDistinct(b) && |a| <= |b|
    requires forall k | 0 <= k < |a| :: b[k].id == a[k].id && b[k].slug == a[k].slug
    requires forall k | |a| <= k < |b| :: b[k].id != id
    ensures SlugOf(b, id) == SlugOf(a, id)
  {
    match FindById(a, id)
    case Some(i) => SlugAt(b, i);
    case None =>
      forall f | f in b ensures f.id != id {
        var i :| 0 <= i < |b| && f == b[i];
        assert i < |a| ==> a[i] in a;
      }
      NotFound(b, id);
  }

  /** No product sees a facet change its slug. */
  lemma UpsertKeepsSlugs(facets: seq<Facet>, input: FacetInput, id: string)
    requires IdsDistinct(facets) && forall f | f in facets :: f.id != id
    ensures IdsDistinct(UpsertFacet(facets, input, id))
    ensures forall other | other != id :: SlugOf(UpsertFacet(facets, input, id), other) == SlugOf(facets, other)
  {
    var saved := UpsertFacet(facets, input, id);
    assert forall k | 0 <= k < |facets| :: saved[k].id == facets[k].id && saved[k].slug == facets[k].slug && facets[k] in facets;
    forall other | other != id ensures SlugOf(saved, other) == SlugOf(facets, other) {
      SlugsAgree(facets, saved, other);
    }
  }

  // ----- What a product write leaves -----

  function Codes(skus: seq<Sku>): set<string> {
    set s | s in skus :: s.code
  }

  function FindCode(offers: seq<Offer>, code: string): Option<nat> {
    FindFirst(offers, (o: Offer) => code in Codes(o.skus))
  }

  function WithFields(skus: seq<Sku>, x: ProductInput): seq<Sku> {
    seq(|skus|, i requires 0 <= i < |skus| =>
      if skus[i].code == x.sku then Sku(skus[i].productId, x.sku, x.terms, x.parcel, x.details) else skus[i])
  }

  /** What an input says of the product itself. */
  function Described(o: Offer, x: ProductInput): Offer {
    o.(title := x.title, active := x.active, category := Some(x.category), region := Some(x.region), card := x.card,
       assets := x.assets.GetOr(o.assets), texts := o.texts["zh" := x.zh]["en" := x.en])
  }

  function Overwritten(o: Offer, x: ProductInput): Offer {
    Described(o, x).(skus := WithFields(o.skus, x))
  }

  function OfferUpsert(offers: seq<Offer>, x: ProductInput, id: string): seq<Offer> {
    match FindCode(offers, x.sku)
    case Some(i) => offers[i := Overwritten(offers[i], x)]
    case None => offers + [NewOffer(x, id)]
  }

  function NewOffer(x: ProductInput, id: string): Offer {
    Described(Offer(id, x.slug, "", false, None, None, "", [], map[],
                    [Sku(id, x.sku, x.terms, x.parcel, x.details)]), x)
  }

  lemma TranslatedTexts(ts: seq<Translation>, locale: string, text: string)
    requires Skus.LocalesDistinct(ts)
    ensures Skus.LocalesDistinct(Translate(ts, locale, text))
    ensures Texts(Translate(ts, locale, text)) == Texts(ts)[locale := text]
  {
    TextsAre(ts);
    TranslatedAt(ts, locale, text);
    TextsAre(Translate(ts, locale, text));
  }

  lemma {:induction false} TextsAre(ts: seq<Translation>)
    requires Skus.LocalesDistinct(ts)
    ensures forall t | t in ts :: t.locale in Texts(ts) && Texts(ts)[t.locale] == t.text
    ensures forall l | l in Texts(ts) :: exists t :: t in ts && t.locale == l
  {
    if ts != [] {
      TextsAre(ts[..|ts| - 1]);
      assert ts == ts[..|ts| - 1] + [ts[|ts| - 1]];
    }
  }

  lemma {:induction false} TranslatedAt(ts: seq<Translation>, locale: string, text: string)
    requires Skus.LocalesDistinct(ts)
    ensures Skus.LocalesDistinct(Translate(ts, locale, text))
    ensures Translation(locale, text) in Translate(ts, locale, text)
    ensures forall t | t in ts && t.locale != locale :: t in Translate(ts, locale, text)
    ensures forall t | t in Translate(ts, locale, text) :: t == Translation(locale, text) || (t in ts && t.locale != locale)
  {
    if ts != [] {
      var (t, rest) := (ts[0], ts[1..]);
      assert ts == [t] + rest;
      LocaleApart(t, rest);
      if t.locale == locale {
        TogetherDistinct(Translation(locale, text), rest);
        assert Translate(ts, locale, text) == [Translation(locale, text)] + rest;
      } else {
        TranslatedAt(rest, locale, text);
        TogetherDistinct(t, Translate(rest, locale, text));
        assert Translate(ts, locale, text) == [t] + Translate(rest, locale, text);
      }
    }
  }

  lemma LocaleApart(t: Translation, rest: seq<Translation>)
    requires Skus.LocalesDistinct([t] + rest)
    ensures Skus.LocalesDistinct(rest) && forall u | u in rest :: u.locale != t.locale
  {
    assert forall i | 0 <= i < |rest| :: ([t] + rest)[i + 1] == rest[i];
    assert ([t] + rest)[0] == t;
    forall u | u in rest ensures u.locale != t.locale {
      var i :| 0 <= i < |rest| && rest[i] == u;
      assert ([t] + rest)[i + 1] == u;
    }
  }

  lemma TogetherDistinct(t: Translation, rest: seq<Translation>)
    requires Skus.LocalesDistinct(rest) && forall u | u in rest :: u.locale != t.locale
    ensures Skus.LocalesDistinct([t] + rest)
  {
  }

  lemma ProductAt(products: seq<Product>, k: nat)
    requires ProductsDistinct(products) && k < |products|
    ensures FindProduct(products, products[k].id) == Some(k)
  {
    assert products[k] in products;
  }

  lemma {:induction false} OwnSkus(skus: seq<Sku>, id: string)
    ensures forall s :: s in SkusOf(skus, id) <==> s in skus && s.productId == id
  {
    if skus != [] {
      OwnSkus(skus[..|skus| - 1], id);
      assert skus == skus[..|skus| - 1] + [skus[|skus| - 1]];
    }
  }

  /** Writing a SKU's columns writes them in its offer. */
  lemma {:induction false} SkusWritten(skus: seq<Sku>, skus': seq<Sku>, x: ProductInput, id: string)
    requires |skus'| == |skus| && forall i | 0 <= i < |skus| ::
               skus'[i] == if skus[i].code == x.sku then Rewritten(skus[i], x) else skus[i]
    ensures SkusOf(skus', id) == WithFields(SkusOf(skus, id), x)
  {
    if skus != [] {
      SkusWritten(skus[..|skus| - 1], skus'[..|skus| - 1], x, id);
    }
  }

  lemma NotWritten(skus: seq<Sku>, x: ProductInput)
    requires x.sku !in Codes(skus)
    ensures WithFields(skus, x) == skus
  {
    assert forall i | 0 <= i < |skus| :: skus[i] in skus;
  }

  /** The offer with a SKU's code is the one of the SKU's product, and no other has it. */
  lemma OfferWithCode(db: Database, j: nat)
    requires Keyed(db) && j < |db.skus|
    ensures var k := FindProduct(db.products, db.skus[j].productId);
            && k.Some? && FindCode(Offers(db), db.skus[j].code) == k
            && forall i | 0 <= i < |db.products| && i != k.value :: db.skus[j].code !in Codes(Offers(db)[i].skus)
  {
    var code := db.skus[j].code;
    assert db.skus[j] in db.skus;
    var k := FindProduct(db.products, db.skus[j].productId).value;
    forall i | 0 <= i < |db.products| ensures code in Codes(Offers(db)[i].skus) <==> i == k {
      assert Offers(db)[i] == OfferOf(db, db.products[i]);
      OwnSkus(db.skus, db.products[i].id);
      if code in Codes(Offers(db)[i].skus) {
        var s :| s in Offers(db)[i].skus && s.code == code;
        assert s == db.skus[j];
      }
    }
    assert Offers(db)[k] in Offers(db);
  }

  lemma NoOfferWithCode(db: Database, code: string)
    requires FindSku(db.skus, code) == None
    ensures FindCode(Offers(db), code) == None
  {
    forall o | o in Offers(db) ensures code !in Codes(o.skus) {
      var k :| 0 <= k < |Offers(db)| && o == Offers(db)[k];
      OwnSkus(db.skus, db.products[k].id);
    }
  }

  lemma WrittenOffer(db: Database, db': Database, base: Product, x: ProductInput, c: nat, r: nat)
    requires Keyed(db) && c < |db.categories| && r < |db.regions| && db.categories[c].slug == x.category && db.regions[r].slug == x.region
    requires db'.categories == db.categories && db'.regions == db.regions && Skus.LocalesDistinct(base.translations)
    ensures var p := Written(base, x, db.categories[c].id, db.regions[r].id);
            && Skus.LocalesDistinct(p.translations)
            && OfferOf(db', p)
               == Described(Offer(base.id, base.slug, "", false, None, None, "", base.assets, Texts(base.translations),
                                  SkusOf(db'.skus, base.id)), x)
  {
    FoundAt(db.categories, c);
    FoundAt(db.regions, r);
    TranslatedTexts(base.translations, "zh", x.zh);
    TranslatedTexts(Translate(base.translations, "zh", x.zh), "en", x.en);
  }

  /** The database with a product and one of its SKUs written. */
  function Updated(db: Database, x: ProductInput, j: nat, k: nat, c: nat, r: nat): Database
    requires j < |db.skus| && k < |db.products| && c < |db.categories| && r < |db.regions|
  {
    db.(products := db.products[k := Written(db.products[k], x, db.categories[c].id, db.regions[r].id)],
        skus := db.skus[j := Rewritten(db.skus[j], x)])
  }

  /** Writing a product overwrites the offer with the SKU's code, or adds one. */
  lemma UpdatedOffer(db: Database, x: ProductInput, id: string)
    requires Keyed(db) && FindSku(db.skus, x.sku).Some? && UpsertProduct(db, x, id).Some?
    ensures var db' := UpsertProduct(db, x, id).value;
            Keyed(db') && Offers(db') == OfferUpsert(Offers(db), x, id)
  {
    var j := FindSku(db.skus, x.sku).value;
    assert db.skus[j] in db.skus;
    var k := FindProduct(db.products, db.skus[j].productId).value;
    var (c, r) := (FindBySlug(db.categories, x.category).value, FindBySlug(db.regions, x.region).value);
    assert UpsertProduct(db, x, id) == Some(Updated(db, x, j, k, c, r));
    OfferWithCode(db, j);
    UpdatedOffers(db, x, j, k, c, r);
  }

  lemma UpdatedOffers(db: Database, x: ProductInput, j: nat, k: nat, c: nat, r: nat)
    requires Keyed(db) && j < |db.skus| && k < |db.products| && c < |db.categories| && r < |db.regions|
    requires db.skus[j].code == x.sku && db.categories[c].slug == x.category && db.regions[r].slug == x.region
    requires forall i | 0 <= i < |db.products| && i != k :: x.sku !in Codes(Offers(db)[i].skus)
    ensures Keyed(Updated(db, x, j, k, c, r))
    ensures Offers(Updated(db, x, j, k, c, r)) == Offers(db)[k := Overwritten(Offers(db)[k], x)]
  {
    var db' := Updated(db, x, j, k, c, r);
    assert db.products[k] in db.products;
    WrittenOffer(db, db', db.products[k], x, c, r);
    UpdatedKeys(db, db', k, j);
    SkusWritten(db.skus, db'.skus, x, db.products[k].id);
    OtherOffers(db, db', x, k);
    assert Offers(db')[k] == Overwritten(Offers(db)[k], x);
  }

  lemma OtherOffers(db: Database, db': Database, x: ProductInput, k: nat)
    requires k < |db.products| == |db'.products| && |db'.skus| == |db.skus|
    requires db' == db.(products := db.products[k := db'.products[k]], skus := db'.skus)
    requires forall i | 0 <= i < |db.skus| ::
               db'.skus[i] == if db.skus[i].code == x.sku then Rewritten(db.skus[i], x) else db.skus[i]
    requires forall i | 0 <= i < |db.products| && i != k :: x.sku !in Codes(Offers(db)[i].skus)
    ensures forall i | 0 <= i < |db.products| && i != k :: Offers(db')[i] == Offers(db)[i]
  {
    forall i | 0 <= i < |db.products| && i != k ensures Offers(db')[i] == Offers(db)[i] {
      SkusWritten(db.skus, db'.skus, x, db.products[i].id);
      NotWritten(Offers(db)[i].skus, x);
    }
  }

  lemma UpdatedKeys(db: Database, db': Database, k: nat, j: nat)
    requires Keyed(db) && k < |db.products| && j < |db.skus|
    requires |db'.products| == |db.products| && |db'.skus| == |db.skus|
    requires db' == db.(products := db.products[k := db'.products[k]], skus := db.skus[j := db'.skus[j]])
    requires db'.products[k].id == db.products[k].id && Skus.LocalesDistinct(db'.products[k].translations)
    requires db'.skus[j].productId == db.skus[j].productId && db'.skus[j].code == db.skus[j].code
    ensures Keyed(db')
  {
    forall s | s in db'.skus ensures FindProduct(db'.products, s.productId).Some? {
      var i :| 0 <= i < |db'.skus| && s == db'.skus[i];
      assert db.skus[i] in db.skus;
      var n := FindProduct(db.products, s.productId).value;
      ProductAt(db'.products, n);
    }
    assert forall p | p in db'.products :: p == db'.products[k] || p in db.products;
  }

  lemma SkusAppended(skus: seq<Sku>, s: Sku, id: string)
    ensures SkusOf(skus + [s], id) == SkusOf(skus, id) + if s.productId == id then [s] else []
  {
    assert (skus + [s])[..|skus|] == skus;
  }

  lemma NewSkuApart(db: Database, s: Sku)
    requires Keyed(db) && Unused(db, s.productId) && FindSku(db.skus, s.code).None?
    ensures Skus.CodesDistinct(db.skus + [s]) && SkusOf(db.skus + [s], s.productId) == [s]
  {
    forall j | 0 <= j < |db.skus| ensures db.skus[j].productId != s.productId && db.skus[j].code != s.code {
      assert db.skus[j] in db.skus;
      assert db.products[FindProduct(db.products, db.skus[j].productId).value] in db.products;
    }
    SkusAppended(db.skus, s, s.productId);
    NoneOwned(db.skus, s.productId);
  }

  lemma {:induction false} NoneOwned(skus: seq<Sku>, id: string)
    requires forall s | s in skus :: s.productId != id
    ensures SkusOf(skus, id) == []
  {
    if skus != [] {
      NoneOwned(skus[..|skus| - 1], id);
    }
  }

  lemma AddedRows(db: Database, x: ProductInput, id: string)
    requires Keyed(db) && Unused(db, id) && FindSku(db.skus, x.sku).None? && UpsertProduct(db, x, id).Some?
    ensures var db' := UpsertProduct(db, x, id).value;
            && |db'.products| == |db.products| + 1
            && db' == db.(products := db.products + [db'.products[|db.products|]],
                          skus := db.skus + [NewSku(id, x)])
            && db'.products[|db.products|].id == id && Skus.LocalesDistinct(db'.products[|db.products|].translations)
            && OfferOf(db', db'.products[|db.products|]) == NewOffer(x, id)
  {
    var db' := UpsertProduct(db, x, id).value;
    assert FindProduct(db.products, id) == None;
    NewSkuApart(db, NewSku(id, x));
    WrittenOffer(db, db', Product(id, x.slug, "", false, "", "", "", [], []), x,
                 FindBySlug(db.categories, x.category).value, FindBySlug(db.regions, x.region).value);
  }

  lemma AppendedOffer(db: Database, db': Database, p: Product, s: Sku)
    requires db' == db.(products := db.products + [p], skus := db.skus + [s])
    requires forall q | q in db.products :: q.id != s.productId
    ensures Offers(db') == Offers(db) + [OfferOf(db', p)]
  {
    forall i | 0 <= i < |db.products| ensures Offers(db')[i] == Offers(db)[i] {
      assert db.products[i] in db.products;
      SkusAppended(db.skus, s, db.products[i].id);
    }
  }

  lemma AddedOffer(db: Database, x: ProductInput, id: string)
    requires Keyed(db) && Unused(db, id) && FindSku(db.skus, x.sku).None? && UpsertProduct(db, x, id).Some?
    ensures var db' := UpsertProduct(db, x, id).value;
            Keyed(db') && Offers(db') == OfferUpsert(Offers(db), x, id)
  {
    var (db', s) := (UpsertProduct(db, x, id).value, NewSku(id, x));
    AddedRows(db, x, id);
    NewSkuApart(db, s);
    AddedKeys(db, db', id);
    NoOfferWithCode(db, x.sku);
    AppendedOffer(db, db', db'.products[|db.products|], s);
  }

  lemma AddedKeys(db: Database, db': Database, id: string)
    requires Keyed(db) && Unused(db, id) && |db'.products| == |db.products| + 1 && |db'.skus| == |db.skus| + 1
    requires db' == db.(products := db.products + [db'.products[|db.products|]], skus := db.skus + [db'.skus[|db.skus|]])
    requires db'.products[|db.products|].id == id == db'.skus[|db.skus|].productId
    requires Skus.LocalesDistinct(db'.products[|db.products|].translations) && Skus.CodesDistinct(db'.skus)
    ensures Keyed(db')
  {
    assert forall k | 0 <= k < |db.products| :: db.products[k] in db.products;
    assert ProductsDistinct(db'.products);
    ProductAt(db'.products, |db.products|);
    forall s | s in db.skus ensures FindProduct(db'.products, s.productId).Some? {
      ProductAt(db'.products, FindProduct(db.products, s.productId).value);
    }
  }
}
