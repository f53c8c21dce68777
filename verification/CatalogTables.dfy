/**
 * The catalog tables of one store, the five queries that are cached, and the three writes.
 *
 * Columns that no query looks into are lumped together as text. Categories and regions have the same shape.
 */
module CatalogTables {
  import opened Collections

  datatype Facet = Facet(id: string, slug: string, card: string, copy: map<string, string>)

  datatype Translation = Translation(locale: string, text: string)

  datatype Asset = Asset(url: string, active: bool)

  /** The summaries show the title, the storefront the card. */
  datatype Product = Product(id: string, slug: string, title: string, active: bool, categoryId: string, regionId: string,
                             card: string, translations: seq<Translation>, assets: seq<Asset>)

  /** Terms are price, currency and country of origin, the parcel its size and weight; only the summaries show the details. */
  datatype Sku = Sku(productId: string, code: string, terms: string, parcel: string, details: string)

  datatype StoryBlock = StoryBlock(productId: string, locale: string, body: string)

  /** Products and SKUs in creation order, the order in which a product's SKUs are joined; story blocks as their query orders them. */
  datatype Database = Database(categories: seq<Facet>, regions: seq<Facet>, products: seq<Product>, skus: seq<Sku>,
                               blocks: seq<StoryBlock>)

  // ----- Queries -----

  /** The join with the translations drops a facet that has none. */
  function Listed(facets: seq<Facet>): seq<Facet> {
    if facets == [] then []
    else Listed(facets[..|facets| - 1]) + if facets[|facets| - 1].copy != map[] then [facets[|facets| - 1]] else []
  }

  function FindById(facets: seq<Facet>, id: string): Option<nat> {
    FindFirst(facets, (f: Facet) => f.id == id)
  }

  function FindBySlug(facets: seq<Facet>, slug: string): Option<nat> {
    FindFirst(facets, (f: Facet) => f.slug == slug)
  }

  function SkusOf(skus: seq<Sku>, productId: string): seq<Sku> {
    if skus == [] then []
    else SkusOf(skus[..|skus| - 1], productId) + if skus[|skus| - 1].productId == productId then [skus[|skus| - 1]] else []
  }

  datatype Summary = Summary(id: string, slug: string, title: string, primary: Sku)

  /** Active products with a SKU, newest first, at most `limit`. */
  function Summaries(products: seq<Product>, skus: seq<Sku>, limit: nat): seq<Summary>
    decreases |products|
  {
    if products == [] || limit == 0 then []
    else
      var (p, rest) := (products[|products| - 1], products[..|products| - 1]);
      var own := SkusOf(skus, p.id);
      if p.active && own != [] then [Summary(p.id, p.slug, p.title, own[0])] + Summaries(rest, skus, limit - 1)
      else Summaries(rest, skus, limit)
  }

  datatype Header = Header(slug: string, card: string, media: seq<Asset>, categorySlug: string, regionSlug: string,
                           sku: string, terms: string)

  /** A row of the storefront query: a product, one of its SKUs and one of its translations. */
  datatype Row = Row(productId: string, header: Header, locale: string, text: string, sku: string, parcel: string)

  function ActiveAssets(assets: seq<Asset>): seq<Asset> {
    if assets == [] then []
    else (if assets[0].active then [assets[0]] else []) + ActiveAssets(assets[1..])
  }

  function RowOf(p: Product, categorySlug: string, regionSlug: string, t: Translation, s: Sku): Row {
    Row(p.id, Header(p.slug, p.card, ActiveAssets(p.assets), categorySlug, regionSlug, s.code, s.terms),
        t.locale, t.text, s.code, s.parcel)
  }

  function SkuRows(p: Product, categorySlug: string, regionSlug: string, t: Translation, skus: seq<Sku>): seq<Row> {
    if skus == [] then []
    else SkuRows(p, categorySlug, regionSlug, t, skus[..|skus| - 1]) + [RowOf(p, categorySlug, regionSlug, t, skus[|skus| - 1])]
  }

  function TranslationRows(p: Product, categorySlug: string, regionSlug: string, ts: seq<Translation>, skus: seq<Sku>): seq<Row> {
    if ts == [] then []
    else TranslationRows(p, categorySlug, regionSlug, ts[..|ts| - 1], skus)
         + SkuRows(p, categorySlug, regionSlug, ts[|ts| - 1], skus)
  }

  function ProductRows(db: Database, p: Product): seq<Row> {
    var (c, r) := (FindById(db.categories, p.categoryId), FindById(db.regions, p.regionId));
    if !p.active || c.None? || r.None? then []
    else TranslationRows(p, db.categories[c.value].slug, db.regions[r.value].slug, p.translations, SkusOf(db.skus, p.id))
  }

  /** Newest products first. */
  function StorefrontRows(db: Database, products: seq<Product>): seq<Row> {
    if products == [] then []
    else ProductRows(db, products[|products| - 1]) + StorefrontRows(db, products[..|products| - 1])
  }

  // ----- Writes -----

  datatype FacetInput = FacetInput(slug: string, card: string, zh: string, en: string)

  /** The id is only used when the slug is new. */
  function UpsertFacet(facets: seq<Facet>, input: FacetInput, id: string): seq<Facet> {
    match FindBySlug(facets, input.slug)
    case Some(i) =>
      facets[i := facets[i].(card := input.card, copy := facets[i].copy["zh" := input.zh]["en" := input.en])]
    case None => facets + [Facet(id, input.slug, input.card, map["zh" := input.zh, "en" := input.en])]
  }

  function SaveFacets(facets: seq<Facet>, inputs: seq<FacetInput>, ids: seq<string>): seq<Facet>
    requires |inputs| == |ids|
  {
    if inputs == [] then facets
    else
      var last := |inputs| - 1;
      UpsertFacet(SaveFacets(facets, inputs[..last], ids[..last]), inputs[last], ids[last])
  }

  /** The slug is made from the English name; it is only used when the product is new. */
  datatype ProductInput = ProductInput(sku: string, slug: string, title: string, category: string, region: string, active: bool,
                                       card: string, terms: string, parcel: string, details: string,
                                       zh: string, en: string, assets: Option<seq<Asset>>)

  function FindSku(skus: seq<Sku>, code: string): Option<nat> {
    FindFirst(skus, (s: Sku) => s.code == code)
  }

  predicate SlugTaken(products: seq<Product>, slug: string) {
    exists p :: p in products && p.slug == slug
  }

  function FindProduct(products: seq<Product>, id: string): Option<nat> {
    FindFirst(products, (p: Product) => p.id == id)
  }

  function Translate(ts: seq<Translation>, locale: string, text: string): seq<Translation> {
    if ts == [] then [Translation(locale, text)]
    else if ts[0].locale == locale then [Translation(locale, text)] + ts[1..]
    else [ts[0]] + Translate(ts[1..], locale, text)
  }

  /** Assets that an input does not mention are kept. */
  function Written(base: Product, input: ProductInput, categoryId: string, regionId: string): Product {
    base.(title := input.title, active := input.active, categoryId := categoryId, regionId := regionId, card := input.card,
          assets := input.assets.GetOr(base.assets),
          translations := Translate(Translate(base.translations, "zh", input.zh), "en", input.en))
  }

  function Rewritten(s: Sku, input: ProductInput): Sku {
    s.(terms := input.terms, parcel := input.parcel, details := input.details)
  }

  function NewSku(productId: string, input: ProductInput): Sku {
    Sku(productId, input.sku, input.terms, input.parcel, input.details)
  }

  /**
   * The SKU code decides which product is written. An unknown category or region fails the whole transaction, and so does
   * a new product whose slug is taken: slugs are unique.
   */
  function UpsertProduct(db: Database, input: ProductInput, id: string): Option<Database> {
    var (c, r) := (FindBySlug(db.categories, input.category), FindBySlug(db.regions, input.region));
    var sku := FindSku(db.skus, input.sku);
    var productId := if sku.Some? then db.skus[sku.value].productId else id;
    var existing := FindProduct(db.products, productId);
    if c.None? || r.None? || (existing.None? && SlugTaken(db.products, input.slug)) then None
    else
      var base :=
        if existing.Some? then db.products[existing.value] else Product(productId, input.slug, "", false, "", "", "", [], []);
      var p := Written(base, input, db.categories[c.value].id, db.regions[r.value].id);
      Some(db.(products := if existing.Some? then db.products[existing.value := p] else db.products + [p],
               skus := if sku.Some? then db.skus[sku.value := Rewritten(db.skus[sku.value], input)]
                       else db.skus + [NewSku(productId, input)]))
  }

  function SaveProducts(db: Database, inputs: seq<ProductInput>, ids: seq<string>): Option<Database>
    requires |inputs| == |ids|
  {
    if inputs == [] then Some(db)
    else
      var last := |inputs| - 1;
      match SaveProducts(db, inputs[..last], ids[..last])
      case Some(before) => UpsertProduct(before, inputs[last], ids[last])
      case None => None
  }
}
