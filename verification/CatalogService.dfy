/** The catalog repository: reads go through the shared cache, writes commit and then delete cache keys. */
module CatalogService {
  import opened Collections
  import T = CatalogTables
  import G = CatalogGrouping
  import C = CatalogCache
  import Cards = CatalogCards

  /** Product ids are UUIDs: without a colon. */
  predicate PlainIds(db: T.Database) {
    && (forall b | b in db.blocks :: ':' !in b.productId)
    && (forall p | p in db.products :: ':' !in p.id)
    && (forall s | s in db.skus :: ':' !in s.productId)
  }

  lemma PlainRows(db: T.Database)
    requires PlainIds(db)
    ensures forall r | r in T.StorefrontRows(db, db.products) :: ':' !in r.productId
  {
    Cards.RowIds(db, db.products);
  }

  lemma PlainUpsert(db: T.Database, x: T.ProductInput, id: string)
    requires PlainIds(db) && ':' !in id && T.UpsertProduct(db, x, id).Some?
    ensures PlainIds(T.UpsertProduct(db, x, id).value)
  {
    PlainSkus(db, x, id);
    PlainProducts(db, x, id);
  }

  lemma PlainSkus(db: T.Database, x: T.ProductInput, id: string)
    requires PlainIds(db) && ':' !in id && T.UpsertProduct(db, x, id).Some?
    ensures forall s | s in T.UpsertProduct(db, x, id).value.skus :: ':' !in s.productId
  {
    var sku := T.FindSku(db.skus, x.sku);
    assert sku.Some? ==> db.skus[sku.value] in db.skus;
  }

  lemma PlainProducts(db: T.Database, x: T.ProductInput, id: string)
    requires PlainIds(db) && ':' !in id && T.UpsertProduct(db, x, id).Some?
    ensures T.UpsertProduct(db, x, id).value.blocks == db.blocks
    ensures forall p | p in T.UpsertProduct(db, x, id).value.products :: ':' !in p.id
  {
    var sku := T.FindSku(db.skus, x.sku);
    assert sku.Some? ==> db.skus[sku.value] in db.skus;
    assert forall i | 0 <= i < |db.products| :: db.products[i] in db.products;
  }

  /** What a committed save leaves in the cache. */
  function Left(cache: C.Cache, w: C.Write, delivered: bool): C.Cache {
    if delivered then C.Dropped(cache, C.InvalidationKeys(w)) else cache
  }

  class CatalogRepository {
    var db: T.Database
    var cache: C.Cache

    predicate Valid()
      reads this
    {
      PlainIds(db)
    }

    method ListActiveProducts(at: nat) returns (products: seq<T.Summary>)
      modifies this`cache
      ensures (cache, C.SummaryList(products)) == C.ReadThrough(db, old(cache), C.ProductSummaries, at)
    {
      if cache.summaries.Some? {
        return cache.summaries.value;
      }
      products := T.Summaries(db.products, db.skus, 24);
      cache := cache.(summaries := Some(products));
    }

    method ListCategories(at: nat) returns (categories: seq<T.Facet>)
      modifies this`cache
      ensures (cache, C.FacetList(categories)) == C.ReadThrough(db, old(cache), C.Categories, at)
    {
      if cache.categories.Some? {
        return cache.categories.value;
      }
      categories := T.Listed(db.categories);
      cache := cache.(categories := Some(categories));
    }

    method ListRegions(at: nat) returns (regions: seq<T.Facet>)
      modifies this`cache
      ensures (cache, C.FacetList(regions)) == C.ReadThrough(db, old(cache), C.Regions, at)
    {
      if cache.regions.Some? {
        return cache.regions.value;
      }
      regions := T.Listed(db.regions);
      cache := cache.(regions := Some(regions));
    }

    method ListStorefrontProducts(at: nat) returns (products: seq<G.StoreProduct>)
      requires Valid()
      modifies this`cache
      ensures (cache, C.ProductList(products)) == C.ReadThrough(db, old(cache), C.StorefrontProducts, at)
    {
      if cache.products.Some? {
        return cache.products.value;
      }
      PlainRows(db);
      products := G.GroupRows(T.StorefrontRows(db, db.products), db.blocks);
      cache := cache.(products := Some(products));
    }

    /** The snapshot is exact whenever the cache is coherent, and leaves it coherent. */
    method GetStorefrontSnapshot(at: nat) returns (snapshot: C.Snapshot)
      requires Valid()
      modifies this`cache
      ensures (cache, C.SnapshotValue(snapshot)) == C.ReadThrough(db, old(cache), C.Storefront, at)
      ensures C.Coherent(db, old(cache)) ==>
                C.Coherent(db, cache) && snapshot.(generatedAt := at) == C.StorefrontNow(db, at)
    {
      C.SnapshotIfCoherent(db, cache, at);
      ghost var through := C.ReadThrough(db, cache, C.Storefront, at);
      if cache.storefront.Some? {
        return cache.storefront.value;
      }
      var categories := ListCategories(at);
      var regions := ListRegions(at);
      var products := ListStorefrontProducts(at);
      snapshot := C.Snapshot(at, categories, regions, products);
      cache := cache.(storefront := Some(snapshot));
      assert (cache, C.SnapshotValue(snapshot)) == through;
    }

    method Invalidate(keys: seq<C.Key>, delivered: bool)
      modifies this`cache
      ensures cache == if delivered then C.Dropped(old(cache), keys) else old(cache)
    {
      if delivered {
        cache := C.Dropped(cache, keys);
      }
    }

    method SaveCategories(inputs: seq<T.FacetInput>, ids: seq<string>, delivered: bool, at: nat) returns (listed: seq<T.Facet>)
      requires |ids| == |inputs|
      modifies this
      ensures old(Valid()) ==> Valid()
      ensures db == C.Commit(old(db), C.SaveCategories(inputs), ids).value
      ensures (cache, C.FacetList(listed)) == C.ReadThrough(db, Left(old(cache), C.SaveCategories(inputs), delivered), C.Categories, at)
      ensures C.Coherent(old(db), old(cache)) && delivered ==> C.Coherent(db, cache) && listed == C.CategoriesNow(db)
    {
      var w := C.SaveCategories(inputs);
      C.SavedAndListed(db, cache, w, ids, C.Categories, at);
      for n := 0 to |inputs|
        invariant db == old(db).(categories := T.SaveFacets(old(db).categories, inputs[..n], ids[..n])) && cache == old(cache)
      {
        assert inputs[..n + 1][..n] == inputs[..n] && ids[..n + 1][..n] == ids[..n];
        db := db.(categories := T.UpsertFacet(db.categories, inputs[n], ids[n]));
      }
      assert inputs[..|inputs|] == inputs && ids[..|ids|] == ids;
      Invalidate(C.InvalidationKeys(w), delivered);
      listed := ListCategories(at);
    }

    method SaveRegions(inputs: seq<T.FacetInput>, ids: seq<string>, delivered: bool, at: nat) returns (listed: seq<T.Facet>)
      requires |ids| == |inputs|
      modifies this
      ensures old(Valid()) ==> Valid()
      ensures db == C.Commit(old(db), C.SaveRegions(inputs), ids).value
      ensures (cache, C.FacetList(listed)) == C.ReadThrough(db, Left(old(cache), C.SaveRegions(inputs), delivered), C.Regions, at)
      ensures C.Coherent(old(db), old(cache)) && delivered ==> C.Coherent(db, cache) && listed == C.RegionsNow(db)
    {
      var w := C.SaveRegions(inputs);
      C.SavedAndListed(db, cache, w, ids, C.Regions, at);
      for n := 0 to |inputs|
        invariant db == old(db).(regions := T.SaveFacets(old(db).regions, inputs[..n], ids[..n])) && cache == old(cache)
      {
        assert inputs[..n + 1][..n] == inputs[..n] && ids[..n + 1][..n] == ids[..n];
        db := db.(regions := T.UpsertFacet(db.regions, inputs[n], ids[n]));
      }
      assert inputs[..|inputs|] == inputs && ids[..|ids|] == ids;
      Invalidate(C.InvalidationKeys(w), delivered);
      listed := ListRegions(at);
    }

    /** The transaction: one failing product rolls all of it back. */
    method CommitProducts(inputs: seq<T.ProductInput>, ids: seq<string>) returns (saved: bool)
      requires Valid() && |ids| == |inputs| && forall id | id in ids :: ':' !in id
      modifies this`db
      ensures Valid()
      ensures saved <==> C.Commit(old(db), C.SaveProducts(inputs), ids).Some?
      ensures db == C.Commit(old(db), C.SaveProducts(inputs), ids).GetOr(old(db))
    {
      var begin := db;
      for n := 0 to |inputs|
        invariant T.SaveProducts(old(db), inputs[..n], ids[..n]) == Some(db) && PlainIds(db)
      {
        assert inputs[..n + 1][..n] == inputs[..n] && ids[..n + 1][..n] == ids[..n];
        var next := T.UpsertProduct(db, inputs[n], ids[n]);
        if next.None? {
          C.FailedSave(begin, inputs, ids, n + 1);
          db := begin;
          return false;
        }
        PlainUpsert(db, inputs[n], ids[n]);
        db := next.value;
      }
      assert inputs[..|inputs|] == inputs && ids[..|ids|] == ids;
      return true;
    }

    /** A rolled back save changes nothing, the cache included; after a committed one the products are listed again. */
    method SaveProducts(inputs: seq<T.ProductInput>, ids: seq<string>, delivered: bool, at: nat)
      returns (listed: Option<seq<G.StoreProduct>>)
      requires Valid() && |ids| == |inputs| && forall id | id in ids :: ':' !in id
      modifies this
      ensures Valid()
      ensures listed.Some? <==> C.Commit(old(db), C.SaveProducts(inputs), ids).Some?
      ensures db == C.Commit(old(db), C.SaveProducts(inputs), ids).GetOr(old(db))
      ensures listed.None? ==> cache == old(cache)
      ensures listed.Some? ==>
                (cache, C.ProductList(listed.value))
                == C.ReadThrough(db, Left(old(cache), C.SaveProducts(inputs), delivered), C.StorefrontProducts, at)
      ensures C.Coherent(old(db), old(cache)) && delivered ==>
                C.Coherent(db, cache) && (listed.Some? ==> listed.value == C.ProductsNow(db))
    {
      C.SavedAndListed(db, cache, C.SaveProducts(inputs), ids, C.StorefrontProducts, at);
      var saved := CommitProducts(inputs, ids);
      if !saved {
        return None;
      }
      Invalidate(C.InvalidationKeys(C.SaveProducts(inputs)), delivered);
      ghost var through := C.ReadThrough(db, cache, C.StorefrontProducts, at);
      assert C.Coherent(old(db), old(cache)) && delivered ==>
               C.Coherent(db, through.0) && through.1 == C.ProductList(C.ProductsNow(db));
      var products := ListStorefrontProducts(at);
      assert cache == through.0;
      return Some(products);
    }
  }
}
