/** Which saves are carried out, and the selections that the queries are made of. */
module CatalogCommits {
  import opened Collections
  import opened CatalogTables
  import opened CatalogGrouping
  import opened CatalogOffers
  import opened CatalogSaves
  import opened CatalogCache

  // ----- Saves of products -----

  predicate HasFacet(facets: seq<Facet>, slug: string) {
    exists f :: f in facets && f.slug == slug
  }

  predicate HasCode(skus: seq<Sku>, code: string) {
    exists s :: s in skus && s.code == code
  }

  predicate HasSlug(products: seq<Product>, slug: string) {
    exists p :: p in products && p.slug == slug
  }

  /** There is a SKU with the code of input `n`, or an earlier input adds one. */
  predicate KnownCode(db: Database, inputs: seq<ProductInput>, n: nat)
    requires n < |inputs|
  {
    HasCode(db.skus, inputs[n].sku) || Mentioned(inputs, n, inputs[n].sku)
  }

  /** One of the first `n` inputs is for the code. */
  predicate Mentioned(inputs: seq<ProductInput>, n: nat, code: string)
    requires n <= |inputs|
  {
    exists m :: 0 <= m < n && inputs[m].sku == code
  }

  /** One of the first `n` inputs adds a product with the slug. */
  predicate Adds(db: Database, inputs: seq<ProductInput>, n: nat, slug: string)
    requires n <= |inputs|
  {
    exists m :: 0 <= m < n && inputs[m].slug == slug && !KnownCode(db, inputs, m)
  }

  predicate Acceptable(db: Database, inputs: seq<ProductInput>, n: nat)
    requires n < |inputs|
  {
    && HasFacet(db.categories, inputs[n].category) && HasFacet(db.regions, inputs[n].region)
    && (KnownCode(db, inputs, n) || (!HasSlug(db.products, inputs[n].slug) && !Adds(db, inputs, n, inputs[n].slug)))
  }

  lemma CodeFound(skus: seq<Sku>, code: string)
    ensures FindSku(skus, code).Some? <==> HasCode(skus, code)
  {
  }

  lemma FacetFound(facets: seq<Facet>, slug: string)
    ensures FindBySlug(facets, slug).Some? <==> HasFacet(facets, slug)
  {
  }

  lemma SlugFound(products: seq<Product>, slug: string)
    ensures SlugTaken(products, slug) <==> HasSlug(products, slug)
  {
  }

  lemma CodeWritten(skus: seq<Sku>, j: nat, s: Sku, code: string)
    requires j < |skus| && s.code == skus[j].code
    ensures HasCode(skus[j := s], code) <==> HasCode(skus, code)
  {
    if t :| t in skus && t.code == code {
      var i :| 0 <= i < |skus| && skus[i] == t;
      assert skus[j := s][i] in skus[j := s];
    }
    if t :| t in skus[j := s] && t.code == code {
      var i :| 0 <= i < |skus| && skus[j := s][i] == t;
      assert skus[i] in skus;
    }
  }

  lemma SlugWritten(products: seq<Product>, k: nat, p: Product, slug: string)
    requires k < |products| && p.slug == products[k].slug
    ensures HasSlug(products[k := p], slug) <==> HasSlug(products, slug)
  {
    if q :| q in products && q.slug == slug {
      var i :| 0 <= i < |products| && products[i] == q;
      assert products[k := p][i] in products[k := p];
    }
    if q :| q in products[k := p] && q.slug == slug {
      var i :| 0 <= i < |products| && products[k := p][i] == q;
      assert products[i] in products;
    }
  }

  lemma CodeAdded(skus: seq<Sku>, s: Sku, code: string)
    ensures HasCode(skus + [s], code) <==> HasCode(skus, code) || code == s.code
  {
    assert s in skus + [s] && forall t | t in skus :: t in skus + [s];
  }

  lemma SlugAdded(products: seq<Product>, p: Product, slug: string)
    ensures HasSlug(products + [p], slug) <==> HasSlug(products, slug) || slug == p.slug
  {
    assert p in products + [p] && forall q | q in products :: q in products + [p];
  }

  /** An input is carried out if its facets are there, and its code is known or its slug is free. */
  lemma UpsertCommits(db: Database, x: ProductInput, id: string)
    requires Keyed(db) && Unused(db, id)
    ensures UpsertProduct(db, x, id).Some?
            <==> HasFacet(db.categories, x.category) && HasFacet(db.regions, x.region)
                 && (HasCode(db.skus, x.sku) || !HasSlug(db.products, x.slug))
  {
    FacetFound(db.categories, x.category);
    FacetFound(db.regions, x.region);
    CodeFound(db.skus, x.sku);
    SlugFound(db.products, x.slug);
    if FindSku(db.skus, x.sku).Some? {
      assert db.skus[FindSku(db.skus, x.sku).value] in db.skus;
    } else {
      assert FindProduct(db.products, id) == None;
    }
  }

  /** It then adds its code, and its slug if the code was new. */
  lemma UpsertAdds(db: Database, x: ProductInput, id: string, code: string, slug: string)
    requires Keyed(db) && Unused(db, id) && UpsertProduct(db, x, id).Some?
    ensures var db' := UpsertProduct(db, x, id).value;
            && (HasCode(db'.skus, code) <==> HasCode(db.skus, code) || code == x.sku)
            && (HasSlug(db'.products, slug) <==> HasSlug(db.products, slug) || (slug == x.slug && !HasCode(db.skus, x.sku)))
  {
    CodeFound(db.skus, x.sku);
    if FindSku(db.skus, x.sku).Some? {
      KnownUpsert(db, x, id, code, slug);
    } else {
      NewUpsert(db, x, id, code, slug);
    }
  }

  lemma KnownUpsert(db: Database, x: ProductInput, id: string, code: string, slug: string)
    requires Keyed(db) && FindSku(db.skus, x.sku).Some? && UpsertProduct(db, x, id).Some?
    ensures var db' := UpsertProduct(db, x, id).value;
            && (HasCode(db'.skus, code) <==> HasCode(db.skus, code)) && (HasSlug(db'.products, slug) <==> HasSlug(db.products, slug))
            && HasCode(db.skus, x.sku)
  {
    var j := FindSku(db.skus, x.sku).value;
    assert db.skus[j] in db.skus;
    var k := FindProduct(db.products, db.skus[j].productId).value;
    var (c, r) := (FindBySlug(db.categories, x.category).value, FindBySlug(db.regions, x.region).value);
    assert UpsertProduct(db, x, id) == Some(Updated(db, x, j, k, c, r));
    CodeWritten(db.skus, j, Rewritten(db.skus[j], x), code);
    SlugWritten(db.products, k, Written(db.products[k], x, db.categories[c].id, db.regions[r].id), slug);
  }

  lemma NewUpsert(db: Database, x: ProductInput, id: string, code: string, slug: string)
    requires Keyed(db) && Unused(db, id) && FindSku(db.skus, x.sku).None? && UpsertProduct(db, x, id).Some?
    ensures var db' := UpsertProduct(db, x, id).value;
            && (HasCode(db'.skus, code) <==> HasCode(db.skus, code) || code == x.sku)
            && (HasSlug(db'.products, slug) <==> HasSlug(db.products, slug) || slug == x.slug)
  {
    assert FindProduct(db.products, id) == None;
    var db' := UpsertProduct(db, x, id).value;
    var p := db'.products[|db.products|];
    assert db'.products == db.products + [p] && p.slug == x.slug && db'.skus == db.skus + [NewSku(id, x)];
    CodeAdded(db.skus, NewSku(id, x), code);
    SlugAdded(db.products, p, slug);
  }

  /** The codes and slugs after the first `n` inputs. */
  ghost predicate AfterFirst(db: Database, inputs: seq<ProductInput>, n: nat, before: Database)
    requires n <= |inputs|
  {
    && Keyed(before) && before.categories == db.categories && before.regions == db.regions
    && (forall code :: HasCode(before.skus, code) <==> HasCode(db.skus, code) || Mentioned(inputs, n, code))
    && (forall slug :: HasSlug(before.products, slug) <==> HasSlug(db.products, slug) || Adds(db, inputs, n, slug))
  }

  lemma NextInput(db: Database, inputs: seq<ProductInput>, n: nat, before: Database, id: string)
    requires n < |inputs| && AfterFirst(db, inputs, n, before) && Unused(before, id)
    ensures UpsertProduct(before, inputs[n], id).Some? <==> Acceptable(db, inputs, n)
    ensures UpsertProduct(before, inputs[n], id).Some? ==> AfterFirst(db, inputs, n + 1, UpsertProduct(before, inputs[n], id).value)
  {
    NextAcceptable(db, inputs, n, before, id);
    if UpsertProduct(before, inputs[n], id).Some? {
      UpsertKeeps(before, inputs[n], id);
      NextState(db, inputs, n, before, id);
    }
  }

  lemma NextAcceptable(db: Database, inputs: seq<ProductInput>, n: nat, before: Database, id: string)
    requires n < |inputs| && AfterFirst(db, inputs, n, before) && Unused(before, id)
    ensures UpsertProduct(before, inputs[n], id).Some? <==> Acceptable(db, inputs, n)
    ensures HasCode(before.skus, inputs[n].sku) <==> KnownCode(db, inputs, n)
  {
    UpsertCommits(before, inputs[n], id);
  }

  lemma UpsertKeeps(db: Database, x: ProductInput, id: string)
    requires Keyed(db) && Unused(db, id) && UpsertProduct(db, x, id).Some?
    ensures var db' := UpsertProduct(db, x, id).value;
            Keyed(db') && db'.categories == db.categories && db'.regions == db.regions
  {
    UpsertedOffer(db, x, id);
  }

  lemma NextState(db: Database, inputs: seq<ProductInput>, n: nat, before: Database, id: string)
    requires n < |inputs| && AfterFirst(db, inputs, n, before) && Unused(before, id) && UpsertProduct(before, inputs[n], id).Some?
    requires HasCode(before.skus, inputs[n].sku) <==> KnownCode(db, inputs, n)
    ensures var after := UpsertProduct(before, inputs[n], id).value;
            && (forall code :: HasCode(after.skus, code) <==> HasCode(db.skus, code) || Mentioned(inputs, n + 1, code))
            && (forall slug :: HasSlug(after.products, slug) <==> HasSlug(db.products, slug) || Adds(db, inputs, n + 1, slug))
  {
    var after := UpsertProduct(before, inputs[n], id).value;
    forall code ensures HasCode(after.skus, code) <==> HasCode(db.skus, code) || Mentioned(inputs, n + 1, code) {
      UpsertAdds(before, inputs[n], id, code, "");
    }
    forall slug ensures HasSlug(after.products, slug) <==> HasSlug(db.products, slug) || Adds(db, inputs, n + 1, slug) {
      UpsertAdds(before, inputs[n], id, "", slug);
    }
  }

  function SavedFirst(db: Database, inputs: seq<ProductInput>, ids: seq<string>, n: nat): Option<Database>
    requires |ids| == |inputs| && n <= |inputs|
  {
    CatalogTables.SaveProducts(db, inputs[..n], ids[..n])
  }

  lemma SavedNext(db: Database, inputs: seq<ProductInput>, ids: seq<string>, n: nat)
    requires |ids| == |inputs| && n < |inputs|
    ensures SavedFirst(db, inputs, ids, n + 1)
            == match SavedFirst(db, inputs, ids, n) case Some(before) => UpsertProduct(before, inputs[n], ids[n]) case None => None
  {
    assert inputs[..n + 1][..n] == inputs[..n] && ids[..n + 1][..n] == ids[..n];
  }

  lemma StillUnused(db: Database, inputs: seq<ProductInput>, ids: seq<string>, n: nat)
    requires |ids| == |inputs| && n < |inputs| && Keyed(db) && New(db, ids) && SavedFirst(db, inputs, ids, n).Some?
    ensures Unused(SavedFirst(db, inputs, ids, n).value, ids[n])
  {
    assert ids[n] in ids && ids[n] !in ids[..n];
    assert forall id | id in ids[..n] :: id in ids;
    SavedUnused(db, inputs[..n], ids[..n], ids[n]);
  }

  predicate AllAcceptable(db: Database, inputs: seq<ProductInput>, n: nat)
    requires n <= |inputs|
  {
    n == 0 || (AllAcceptable(db, inputs, n - 1) && Acceptable(db, inputs, n - 1))
  }

  lemma {:induction false} EachAcceptable(db: Database, inputs: seq<ProductInput>, n: nat)
    requires n <= |inputs|
    ensures AllAcceptable(db, inputs, n) <==> forall m | 0 <= m < n :: Acceptable(db, inputs, m)
  {
    if n > 0 {
      EachAcceptable(db, inputs, n - 1);
    }
  }

  lemma NoneSaved(db: Database, inputs: seq<ProductInput>, ids: seq<string>)
    requires |ids| == |inputs| && Keyed(db)
    ensures SavedFirst(db, inputs, ids, 0) == Some(db) && AfterFirst(db, inputs, 0, db)
  {
  }

  lemma OneMoreSaved(db: Database, inputs: seq<ProductInput>, ids: seq<string>, n: nat)
    requires |ids| == |inputs| && n < |inputs| && Keyed(db) && New(db, ids)
    requires SavedFirst(db, inputs, ids, n).Some? ==> AfterFirst(db, inputs, n, SavedFirst(db, inputs, ids, n).value)
    ensures SavedFirst(db, inputs, ids, n + 1).Some? <==> SavedFirst(db, inputs, ids, n).Some? && Acceptable(db, inputs, n)
    ensures SavedFirst(db, inputs, ids, n + 1).Some? ==> AfterFirst(db, inputs, n + 1, SavedFirst(db, inputs, ids, n + 1).value)
  {
    SavedNext(db, inputs, ids, n);
    var before := SavedFirst(db, inputs, ids, n);
    if before.Some? {
      StillUnused(db, inputs, ids, n);
      NextInput(db, inputs, n, before.value, ids[n]);
    }
  }

  lemma {:induction false} FirstCommit(db: Database, inputs: seq<ProductInput>, ids: seq<string>, n: nat)
    requires |ids| == |inputs| && n <= |inputs| && Keyed(db) && New(db, ids)
    ensures SavedFirst(db, inputs, ids, n).Some? <==> AllAcceptable(db, inputs, n)
    ensures SavedFirst(db, inputs, ids, n).Some? ==> AfterFirst(db, inputs, n, SavedFirst(db, inputs, ids, n).value)
    decreases n
  {
    if n == 0 {
      NoneSaved(db, inputs, ids);
    } else {
      FirstCommit(db, inputs, ids, n - 1);
      OneMoreSaved(db, inputs, ids, n - 1);
    }
  }

  /**
   * A save of products is carried out exactly if every input names a category and a region there are, and every input for a new
   * SKU code brings a slug that neither a product nor an earlier such input has.
   */
  lemma CommitsExactly(db: Database, inputs: seq<ProductInput>, ids: seq<string>)
    requires |ids| == |inputs| && Keyed(db) && New(db, ids)
    ensures CatalogTables.SaveProducts(db, inputs, ids).Some? <==> forall n | 0 <= n < |inputs| :: Acceptable(db, inputs, n)
  {
    FirstCommit(db, inputs, ids, |inputs|);
    EachAcceptable(db, inputs, |inputs|);
    assert inputs[..|inputs|] == inputs && ids[..|ids|] == ids;
  }

  // ----- Selections -----

  /** The storefront shows the active ones of a product's assets, in their order. */
  lemma ActiveAssetsExactly(a: seq<Asset>, x: Asset, b: seq<Asset>)
    ensures ActiveAssets(a + [x] + b) == ActiveAssets(a) + (if x.active then [x] else []) + ActiveAssets(b)
  {
    ActiveConcat(a + [x], b);
    ActiveConcat(a, [x]);
    assert [x][1..] == [];
  }

  lemma {:induction false} ActiveConcat(a: seq<Asset>, b: seq<Asset>)
    ensures ActiveAssets(a + b) == ActiveAssets(a) + ActiveAssets(b)
  {
    if a == [] {
      assert a + b == b;
    } else {
      assert (a + b)[1..] == a[1..] + b;
      ActiveConcat(a[1..], b);
      var head := if a[0].active then [a[0]] else [];
      assert head + (ActiveAssets(a[1..]) + ActiveAssets(b)) == head + ActiveAssets(a[1..]) + ActiveAssets(b);
    }
  }

  /** The lists of categories and regions show those with a translation, in their order. */
  lemma ListedExactly(a: seq<Facet>, f: Facet, b: seq<Facet>)
    ensures Listed(a + [f] + b) == Listed(a) + (if f.copy != map[] then [f] else []) + Listed(b)
  {
    ListedConcat(a + [f], b);
    assert (a + [f])[..|a|] == a;
  }

  lemma {:induction false} ListedConcat(a: seq<Facet>, b: seq<Facet>)
    ensures Listed(a + b) == Listed(a) + Listed(b)
  {
    if b == [] {
      assert a + b == a;
    } else {
      assert (a + b)[..|a + b| - 1] == a + b[..|b| - 1];
      ListedConcat(a, b[..|b| - 1]);
    }
  }

  /** A product's SKUs are those that refer to it, in creation order. */
  lemma SkusExactly(a: seq<Sku>, s: Sku, b: seq<Sku>, productId: string)
    ensures SkusOf(a + [s] + b, productId) == SkusOf(a, productId) + (if s.productId == productId then [s] else []) + SkusOf(b, productId)
  {
    SkusConcat(a + [s], b, productId);
    assert (a + [s])[..|a|] == a;
  }

  lemma {:induction false} SkusConcat(a: seq<Sku>, b: seq<Sku>, productId: string)
    ensures SkusOf(a + b, productId) == SkusOf(a, productId) + SkusOf(b, productId)
  {
    if b == [] {
      assert a + b == a;
    } else {
      assert (a + b)[..|a + b| - 1] == a + b[..|b| - 1];
      SkusConcat(a, b[..|b| - 1], productId);
    }
  }

  /** A product shows its own story blocks in each language, in their order. */
  lemma BlocksExactly(a: seq<StoryBlock>, x: StoryBlock, b: seq<StoryBlock>, productId: string, locale: string)
    ensures BlocksOf(a + [x] + b, productId, locale)
            == BlocksOf(a, productId, locale) + (if x.productId == productId && x.locale == locale then [x.body] else [])
               + BlocksOf(b, productId, locale)
  {
    BlocksConcat(a + [x], b, productId, locale);
    assert (a + [x])[..|a|] == a;
  }

  lemma {:induction false} BlocksConcat(a: seq<StoryBlock>, b: seq<StoryBlock>, productId: string, locale: string)
    ensures BlocksOf(a + b, productId, locale) == BlocksOf(a, productId, locale) + BlocksOf(b, productId, locale)
  {
    if b == [] {
      assert a + b == a;
    } else {
      assert (a + b)[..|a + b| - 1] == a + b[..|b| - 1];
      BlocksConcat(a, b[..|b| - 1], productId, locale);
    }
  }

  // ----- Invalidation -----

  /** The entries a committed save leaves when its deletions succeed: those it cannot have changed, and no others. */
  lemma InvalidatedExactly(s: Catalog, w: Write, ids: seq<string>, key: Key)
    requires |ids| == w.Size() && Commit(s.db, w, ids).Some?
    ensures Entry(Step(s, Save(w, ids, true)).cache, key) == if LeftBy(w, key) then Entry(s.cache, key) else None
  {
    SavedCache(s, w, ids);
    DroppedEntry(s.cache, InvalidationKeys(w), key);
    LeftExactly(w, key);
  }

  lemma SavedCache(s: Catalog, w: Write, ids: seq<string>)
    requires |ids| == w.Size() && Commit(s.db, w, ids).Some?
    ensures Step(s, Save(w, ids, true)).cache == Dropped(s.cache, InvalidationKeys(w)) && Step(s, Save(w, ids, false)).cache == s.cache
  {
  }

  lemma LeftExactly(w: Write, key: Key)
    ensures LeftBy(w, key) <==> key !in InvalidationKeys(w)
  {
  }

  predicate LeftBy(w: Write, key: Key) {
    match w
    case SaveCategories(_) => key == Regions
    case SaveRegions(_) => key == Categories
    case SaveProducts(_) => key == Categories || key == Regions
  }
}
