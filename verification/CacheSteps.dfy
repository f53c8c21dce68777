/** What each step of the catalog's read-through cache leaves in the cache and in the reads under way. */
module CacheSteps {
  import opened Collections
  import opened CatalogTables
  import opened CatalogGrouping
  import opened CatalogCache
  import opened CatalogCommits

  /** What the cache has for a part, or else the database. */
  function FacetsFor(db: Database, c: Cache, key: Key): seq<Facet>
    requires key == Categories || key == Regions
  {
    var table := if key == Categories then db.categories else db.regions;
    if Entry(c, key).Some? then Entry(c, key).value.facets else Listed(table)
  }

  function ProductsFor(db: Database, c: Cache): seq<StoreProduct> {
    if Entry(c, StorefrontProducts).Some? then Entry(c, StorefrontProducts).value.products else ProductsNow(db)
  }

  /** A hit changes nothing. */
  lemma HitExactly(db: Database, c: Cache, key: Key, at: nat)
    requires Entry(c, key).Some?
    ensures ReadThrough(db, c, key, at) == (c, Entry(c, key).value)
  {
  }

  /** A miss asks the database and stores the answer, and touches no other entry. */
  lemma MissExactly(db: Database, c: Cache, key: Key, at: nat, other: Key)
    requires Entry(c, key).None? && key != Storefront
    ensures var (c', v) := ReadThrough(db, c, key, at);
            && v == Query(db, key, at) && Entry(c', key) == Some(v) && (other != key ==> Entry(c', other) == Entry(c, other))
  {
  }

  /** A missing snapshot is put together from its parts, which are then stored as well, as it is itself. */
  lemma SnapshotMissExactly(db: Database, c: Cache, at: nat)
    requires Entry(c, Storefront).None?
    ensures var (c', v) := ReadThrough(db, c, Storefront, at);
            && v == SnapshotValue(Snapshot(at, FacetsFor(db, c, Categories), FacetsFor(db, c, Regions), ProductsFor(db, c)))
            && Entry(c', Storefront) == Some(v)
            && Entry(c', Categories) == Some(FacetList(v.snapshot.categories)) && Entry(c', Regions) == Some(FacetList(v.snapshot.regions))
            && Entry(c', StorefrontProducts) == Some(ProductList(v.snapshot.products))
            && Entry(c', ProductSummaries) == Entry(c, ProductSummaries)
  {
  }

  /** Only a miss begins a read; a snapshot begins without any part. */
  lemma StartExactly(s: Catalog, reader: nat, key: Key)
    ensures Step(s, StartRead(reader, key))
            == if Entry(s.cache, key).Some? then s
               else Catalog(s.db, s.cache, s.readers[reader := if key == Storefront then Gathering(None, None, None, false)
                                                               else Pending(key, Query(s.db, key, 0), false)])
  {
  }

  /** A part of a snapshot is what a read of it returns at that moment. */
  lemma CollectExactly(s: Catalog, reader: nat, part: Key)
    requires reader in s.readers && s.readers[reader].Gathering?
    ensures var (s', r) := (Step(s, Collect(reader, part)), s.readers[reader]);
            && s'.db == s.db && s'.cache == s.cache && s'.readers.Keys == s.readers.Keys
            && (forall x | x in s.readers && x != reader :: s'.readers[x] == s.readers[x])
            && s'.readers[reader] == match part
                                     case Categories => Gathering(Some(FacetsFor(s.db, s.cache, part)), r.regions, r.products, r.touched)
                                     case Regions => Gathering(r.categories, Some(FacetsFor(s.db, s.cache, part)), r.products, r.touched)
                                     case StorefrontProducts => Gathering(r.categories, r.regions, Some(ProductsFor(s.db, s.cache)), r.touched)
                                     case _ => r
  {
  }

  lemma NothingToCollect(s: Catalog, reader: nat, part: Key)
    requires reader !in s.readers || s.readers[reader].Pending?
    ensures Step(s, Collect(reader, part)).readers == s.readers && Step(s, Collect(reader, part)).cache == s.cache
  {
    if reader in s.readers {
      assert s.readers[reader := s.readers[reader]] == s.readers;
    }
  }

  /** What a read that ends puts into the cache; a snapshot that lacks a part does not end. */
  function Gathers(r: Reader, at: nat): Option<Value> {
    match r
    case Pending(_, value, _) => Some(value)
    case Gathering(Some(c), Some(g), Some(p), _) => Some(SnapshotValue(Snapshot(at, c, g, p)))
    case _ => None
  }

  /** The value is of the kind that is stored under the key. */
  predicate OfKind(key: Key, v: Value) {
    match key
    case Categories => v.FacetList?
    case Regions => v.FacetList?
    case ProductSummaries => v.SummaryList?
    case StorefrontProducts => v.ProductList?
    case Storefront => v.SnapshotValue?
  }

  lemma FinishExactly(s: Catalog, reader: nat, at: nat, other: Key)
    requires reader in s.readers && Gathers(s.readers[reader], at).Some?
    ensures var (s', r, v) := (Step(s, FinishRead(reader, at)), s.readers[reader], Gathers(s.readers[reader], at).value);
            var key := if r.Pending? then r.key else Storefront;
            && s'.db == s.db && s'.readers == s.readers - {reader}
            && (OfKind(key, v) ==> Entry(s'.cache, key) == Some(v)) && (other != key ==> Entry(s'.cache, other) == Entry(s.cache, other))
  {
  }

  lemma NothingToFinish(s: Catalog, reader: nat, at: nat)
    requires reader !in s.readers || Gathers(s.readers[reader], at).None?
    ensures Step(s, FinishRead(reader, at)) == s
  {
  }

  lemma EvictExactly(s: Catalog, key: Key, other: Key)
    ensures var s' := Step(s, Evict(key));
            && s'.db == s.db && s'.readers == s.readers && Entry(s'.cache, other) == if other == key then None else Entry(s.cache, other)
  {
  }

  /** A committed save changes the tables, and every read under way of a key that it does not leave alone is now behind. */
  lemma SaveExactly(s: Catalog, w: Write, ids: seq<string>, deleted: bool)
    requires |ids| == w.Size()
    ensures var s' := Step(s, Save(w, ids, deleted));
            match Commit(s.db, w, ids)
            case None => s' == s
            case Some(db) =>
              && s'.db == db && s'.readers.Keys == s.readers.Keys
              && forall r | r in s.readers ::
                   var key := if s.readers[r].Pending? then s.readers[r].key else Storefront;
                   s'.readers[r] == s.readers[r].(touched := s.readers[r].touched || !LeftBy(w, key))
  {
    if Commit(s.db, w, ids).Some? {
      forall r | r in s.readers
        ensures var key := if s.readers[r].Pending? then s.readers[r].key else Storefront;
                Step(s, Save(w, ids, deleted)).readers[r] == s.readers[r].(touched := s.readers[r].touched || !LeftBy(w, key))
      {
        LeftExactly(w, if s.readers[r].Pending? then s.readers[r].key else Storefront);
      }
    }
  }

  /** A save of facets writes its own table; a save of products none of the two. */
  lemma CommitExactly(db: Database, w: Write, ids: seq<string>)
    requires |ids| == w.Size()
    ensures w.SaveCategories? ==> Commit(db, w, ids) == Some(db.(categories := SaveFacets(db.categories, w.facets, ids)))
    ensures w.SaveRegions? ==> Commit(db, w, ids) == Some(db.(regions := SaveFacets(db.regions, w.facets, ids)))
    ensures w.SaveProducts? ==>
              && Commit(db, w, ids) == CatalogTables.SaveProducts(db, w.products, ids)
              && (Commit(db, w, ids).Some? ==>
                    Commit(db, w, ids).value.categories == db.categories && Commit(db, w, ids).value.regions == db.regions)
  {
    if w.SaveProducts? {
      ProductsKeepFacets(db, w.products, ids);
    }
  }

  /** Each key stands for its query. */
  lemma QueryExactly(db: Database, key: Key, at: nat)
    ensures Query(db, key, at)
            == match key
               case Categories => FacetList(Listed(db.categories))
               case Regions => FacetList(Listed(db.regions))
               case ProductSummaries => SummaryList(Summaries(db.products, db.skus, 24))
               case StorefrontProducts => ProductList(Grouped(StorefrontRows(db, db.products), db.blocks))
               case Storefront => SnapshotValue(Snapshot(at, Listed(db.categories), Listed(db.regions),
                                                         Grouped(StorefrontRows(db, db.products), db.blocks)))
  {
  }
}
