/** The read-through cache in front of the catalog queries and the key lists that the writes invalidate. */
module CatalogCache {
  import opened Collections
  import opened CatalogTables
  import opened CatalogGrouping

  datatype Key = Storefront | Categories | Regions | ProductSummaries | StorefrontProducts

  datatype Snapshot = Snapshot(generatedAt: nat, categories: seq<Facet>, regions: seq<Facet>, products: seq<StoreProduct>)

  datatype Value =
    | FacetList(facets: seq<Facet>)
    | SummaryList(summaries: seq<Summary>)
    | ProductList(products: seq<StoreProduct>)
    | SnapshotValue(snapshot: Snapshot)

  /** One entry per key; evicted and expired entries are None. */
  datatype Cache = Cache(categories: Option<seq<Facet>>, regions: Option<seq<Facet>>, summaries: Option<seq<Summary>>,
                         products: Option<seq<StoreProduct>>, storefront: Option<Snapshot>)

  const EMPTY := Cache(None, None, None, None, None)

  // ----- The uncached reads -----

  function CategoriesNow(db: Database): seq<Facet> { Listed(db.categories) }

  function RegionsNow(db: Database): seq<Facet> { Listed(db.regions) }

  function SummariesNow(db: Database): seq<Summary> { Summaries(db.products, db.skus, 24) }

  function ProductsNow(db: Database): seq<StoreProduct> { Grouped(StorefrontRows(db, db.products), db.blocks) }

  function StorefrontNow(db: Database, at: nat): Snapshot {
    Snapshot(at, CategoriesNow(db), RegionsNow(db), ProductsNow(db))
  }

  function Query(db: Database, key: Key, at: nat): Value {
    match key
    case Categories => FacetList(CategoriesNow(db))
    case Regions => FacetList(RegionsNow(db))
    case ProductSummaries => SummaryList(SummariesNow(db))
    case StorefrontProducts => ProductList(ProductsNow(db))
    case Storefront => SnapshotValue(StorefrontNow(db, at))
  }

  /** Equal but for the time of generation. */
  predicate Same(v: Value, w: Value) {
    v == w || (v.SnapshotValue? && w.SnapshotValue? && v.snapshot.(generatedAt := 0) == w.snapshot.(generatedAt := 0))
  }

  // ----- Cached reads -----

  function Entry(c: Cache, key: Key): Option<Value> {
    match key
    case Categories => if c.categories.Some? then Some(FacetList(c.categories.value)) else None
    case Regions => if c.regions.Some? then Some(FacetList(c.regions.value)) else None
    case ProductSummaries => if c.summaries.Some? then Some(SummaryList(c.summaries.value)) else None
    case StorefrontProducts => if c.products.Some? then Some(ProductList(c.products.value)) else None
    case Storefront => if c.storefront.Some? then Some(SnapshotValue(c.storefront.value)) else None
  }

  function Put(c: Cache, key: Key, v: Value): Cache {
    match (key, v)
    case (Categories, FacetList(x)) => c.(categories := Some(x))
    case (Regions, FacetList(x)) => c.(regions := Some(x))
    case (ProductSummaries, SummaryList(x)) => c.(summaries := Some(x))
    case (StorefrontProducts, ProductList(x)) => c.(products := Some(x))
    case (Storefront, SnapshotValue(x)) => c.(storefront := Some(x))
    case _ => c
  }

  function Dropped(c: Cache, keys: seq<Key>): Cache {
    Cache(if Categories in keys then None else c.categories, if Regions in keys then None else c.regions,
          if ProductSummaries in keys then None else c.summaries, if StorefrontProducts in keys then None else c.products,
          if Storefront in keys then None else c.storefront)
  }

  /** The snapshot is put together from three reads that go through the cache themselves. */
  function ReadThrough(db: Database, c: Cache, key: Key, at: nat): (Cache, Value) {
    if Entry(c, key).Some? then (c, Entry(c, key).value)
    else if key != Storefront then (Put(c, key, Query(db, key, at)), Query(db, key, at))
    else
      var snapshot := Snapshot(at, c.categories.GetOr(CategoriesNow(db)), c.regions.GetOr(RegionsNow(db)),
                               c.products.GetOr(ProductsNow(db)));
      (Cache(Some(snapshot.categories), Some(snapshot.regions), c.summaries, Some(snapshot.products), Some(snapshot)),
       SnapshotValue(snapshot))
  }

  // ----- Writes -----

  datatype Write =
    | SaveCategories(facets: seq<FacetInput>)
    | SaveRegions(facets: seq<FacetInput>)
    | SaveProducts(products: seq<ProductInput>)
  {
    function Size(): nat {
      match this
      case SaveProducts(products) => |products|
      case _ => |facets|
    }
  }

  /** None when the transaction is rolled back. */
  function Commit(db: Database, w: Write, ids: seq<string>): Option<Database>
    requires |ids| == w.Size()
  {
    match w
    case SaveCategories(inputs) => Some(db.(categories := SaveFacets(db.categories, inputs, ids)))
    case SaveRegions(inputs) => Some(db.(regions := SaveFacets(db.regions, inputs, ids)))
    case SaveProducts(inputs) => CatalogTables.SaveProducts(db, inputs, ids)
  }

  function InvalidationKeys(w: Write): seq<Key> {
    match w
    case SaveCategories(_) => [Categories, ProductSummaries, StorefrontProducts, Storefront]
    case SaveRegions(_) => [Regions, ProductSummaries, StorefrontProducts, Storefront]
    case SaveProducts(_) => [ProductSummaries, StorefrontProducts, Storefront]
  }

  // ----- Coherence -----

  /** Every entry is what its query returns now. */
  predicate Coherent(db: Database, c: Cache) {
    forall key :: Fresh(db, c, key)
  }

  predicate Fresh(db: Database, c: Cache, key: Key) {
    Entry(c, key).Some? ==> Same(Entry(c, key).value, Query(db, key, 0))
  }

  lemma ReadIsExact(db: Database, c: Cache, key: Key, at: nat)
    requires Coherent(db, c)
    ensures Same(ReadThrough(db, c, key, at).1, Query(db, key, at))
    ensures Coherent(db, ReadThrough(db, c, key, at).0)
  {
    assert Fresh(db, c, key);
    if Entry(c, key).None? {
      if key == Storefront {
        SnapshotIsExact(db, c, at);
      } else {
        PutFresh(db, c, key, Query(db, key, at));
      }
    }
  }

  lemma SnapshotIsExact(db: Database, c: Cache, at: nat)
    requires Coherent(db, c) && c.storefront.None?
    ensures var (c', v) := ReadThrough(db, c, Storefront, at);
            v == Query(db, Storefront, at) && Coherent(db, c')
  {
    assert Fresh(db, c, Categories) && Fresh(db, c, Regions) && Fresh(db, c, StorefrontProducts) && Fresh(db, c, ProductSummaries);
    forall k ensures Fresh(db, ReadThrough(db, c, Storefront, at).0, k) {
      assert Fresh(db, c, k);
    }
  }

  lemma {:induction false} ProductsKeepFacets(db: Database, inputs: seq<ProductInput>, ids: seq<string>)
    requires |ids| == |inputs|
    ensures var saved := CatalogTables.SaveProducts(db, inputs, ids);
            saved.Some? ==> saved.value.categories == db.categories && saved.value.regions == db.regions
                            && saved.value.blocks == db.blocks
  {
    if inputs != [] {
      ProductsKeepFacets(db, inputs[..|inputs| - 1], ids[..|inputs| - 1]);
    }
  }

  /** A write changes no query whose key it leaves in the cache. */
  lemma UntouchedQueries(db: Database, w: Write, ids: seq<string>, key: Key, at: nat)
    requires |ids| == w.Size() && Commit(db, w, ids).Some? && key !in InvalidationKeys(w)
    ensures Query(Commit(db, w, ids).value, key, at) == Query(db, key, at)
  {
    if w.SaveProducts? {
      ProductsKeepFacets(db, w.products, ids);
    }
  }

  // ----- Runs -----

  /**
   * A value read from the database but not yet stored, or a snapshot whose parts are being read one by one, and whether a
   * write has dropped its key since it was begun.
   */
  datatype Reader =
    | Pending(key: Key, value: Value, touched: bool)
    | Gathering(categories: Option<seq<Facet>>, regions: Option<seq<Facet>>, products: Option<seq<StoreProduct>>, touched: bool)
  {
    function Target(): Key {
      if Pending? then key else Storefront
    }

    /** What is to be stored; a snapshot that lacks a part is not ready. */
    function Ready(at: nat): Option<Value> {
      match this
      case Pending(_, value, _) => Some(value)
      case Gathering(c, r, p, _) =>
        if c.Some? && r.Some? && p.Some? then Some(SnapshotValue(Snapshot(at, c.value, r.value, p.value))) else None
    }

    /** With the part, if it is one of a snapshot's. */
    function With(part: Value, of: Key): Reader {
      if Pending? then this
      else
        match (of, part)
        case (Categories, FacetList(x)) => this.(categories := Some(x))
        case (Regions, FacetList(x)) => this.(regions := Some(x))
        case (StorefrontProducts, ProductList(x)) => this.(products := Some(x))
        case _ => this
    }
  }

  datatype Catalog = Catalog(db: Database, cache: Cache, readers: map<nat, Reader>)

  /** `Collect` reads a part of a snapshot through the cache; other readers store it. */
  datatype Event =
    | Read(key: Key, at: nat)
    | StartRead(reader: nat, key: Key)
    | Collect(reader: nat, part: Key)
    | FinishRead(reader: nat, at: nat)
    | Evict(key: Key)
    | Save(write: Write, ids: seq<string>, deleted: bool)

  function Touched(readers: map<nat, Reader>, keys: seq<Key>): map<nat, Reader> {
    map r | r in readers :: readers[r].(touched := readers[r].touched || readers[r].Target() in keys)
  }

  predicate Possible(e: Event) {
    e.Save? ==> |e.ids| == e.write.Size()
  }

  function Step(s: Catalog, e: Event): Catalog
    requires Possible(e)
  {
    match e
    case Read(key, at) => s.(cache := ReadThrough(s.db, s.cache, key, at).0)
    case StartRead(reader, key) =>
      if Entry(s.cache, key).Some? then s
      else
        s.(readers := s.readers[reader := if key == Storefront then Gathering(None, None, None, false)
                                          else Pending(key, Query(s.db, key, 0), false)])
    case Collect(reader, part) =>
      if reader !in s.readers then s
      else s.(readers := s.readers[reader := s.readers[reader].With(ReadThrough(s.db, s.cache, part, 0).1, part)])
    case FinishRead(reader, at) =>
      if reader !in s.readers || s.readers[reader].Ready(at).None? then s
      else s.(cache := Put(s.cache, s.readers[reader].Target(), s.readers[reader].Ready(at).value), readers := s.readers - {reader})
    case Evict(key) => s.(cache := Dropped(s.cache, [key]))
    case Save(w, ids, deleted) =>
      (match Commit(s.db, w, ids)
       case None => s
       case Some(db) =>
         s.(db := db, cache := if deleted then Dropped(s.cache, InvalidationKeys(w)) else s.cache,
            readers := Touched(s.readers, InvalidationKeys(w))))
  }

  /** The delete after a commit goes through, and a started read is stored before its key is dropped. */
  predicate Orderly(s: Catalog, e: Event) {
    && Possible(e)
    && (e.Save? ==> e.deleted)
    && (e.FinishRead? && e.reader in s.readers ==> !s.readers[e.reader].touched)
  }

  predicate PossibleRun(es: seq<Event>) {
    forall e | e in es :: Possible(e)
  }

  function Run(s: Catalog, es: seq<Event>): Catalog
    requires PossibleRun(es)
    decreases |es|
  {
    if es == [] then s else Run(Step(s, es[0]), es[1..])
  }

  predicate OrderlyRun(s: Catalog, es: seq<Event>)
    requires PossibleRun(es)
    decreases |es|
  {
    es == [] || (Orderly(s, es[0]) && OrderlyRun(Step(s, es[0]), es[1..]))
  }

  /** Every value and part is what its query returns now. */
  predicate Current(db: Database, r: Reader) {
    match r
    case Pending(key, value, _) => Same(value, Query(db, key, 0))
    case Gathering(c, r, p, _) =>
      && (c.Some? ==> c.value == CategoriesNow(db)) && (r.Some? ==> r.value == RegionsNow(db))
      && (p.Some? ==> p.value == ProductsNow(db))
  }

  /** Readers whose key no write has dropped since are still current. */
  ghost predicate ReadersOk(s: Catalog) {
    forall r | r in s.readers && !s.readers[r].touched :: Current(s.db, s.readers[r])
  }

  lemma CollectedIsCurrent(db: Database, c: Cache, r: Reader, part: Key)
    requires Coherent(db, c) && Current(db, r)
    ensures Current(db, r.With(ReadThrough(db, c, part, 0).1, part))
  {
    ReadIsExact(db, c, part, 0);
  }

  lemma ReadyIsCurrent(db: Database, r: Reader, at: nat)
    requires Current(db, r) && r.Ready(at).Some?
    ensures Same(r.Ready(at).value, Query(db, r.Target(), 0))
  {
  }

  lemma PutEntry(c: Cache, key: Key, v: Value, k: Key)
    ensures Entry(Put(c, key, v), k) == Entry(c, k) || (k == key && Entry(Put(c, key, v), k) == Some(v))
  {
  }

  lemma PutFresh(db: Database, c: Cache, key: Key, v: Value)
    requires Coherent(db, c) && Same(v, Query(db, key, 0))
    ensures Coherent(db, Put(c, key, v))
  {
    forall k ensures Fresh(db, Put(c, key, v), k) {
      assert Fresh(db, c, k);
      PutEntry(c, key, v, k);
    }
  }

  lemma DropKeeps(db: Database, c: Cache, keys: seq<Key>)
    requires Coherent(db, c)
    ensures Coherent(db, Dropped(c, keys))
  {
    forall k ensures Fresh(db, Dropped(c, keys), k) {
      assert Fresh(db, c, k);
    }
  }

  lemma DroppedEntry(c: Cache, keys: seq<Key>, k: Key)
    ensures Entry(Dropped(c, keys), k) == if k in keys then None else Entry(c, k)
  {
  }

  lemma KeptEntry(db: Database, c: Cache, w: Write, ids: seq<string>, k: Key)
    requires Fresh(db, c, k) && |ids| == w.Size() && Commit(db, w, ids).Some?
    ensures var db' := Commit(db, w, ids).value;
            Fresh(db', c, k) <==> k !in InvalidationKeys(w) || Entry(c, k).None? || Query(db', k, 0) == Query(db, k, 0)
  {
    if k !in InvalidationKeys(w) {
      UntouchedQueries(db, w, ids, k, 0);
    }
  }

  lemma SaveKeeps(db: Database, c: Cache, w: Write, ids: seq<string>)
    requires Coherent(db, c) && |ids| == w.Size() && Commit(db, w, ids).Some?
    ensures Coherent(Commit(db, w, ids).value, Dropped(c, InvalidationKeys(w)))
  {
    var db', keys := Commit(db, w, ids).value, InvalidationKeys(w);
    forall k ensures Fresh(db', Dropped(c, keys), k) {
      assert Fresh(db, c, k);
      DroppedEntry(c, keys, k);
      if k !in keys {
        KeptEntry(db, c, w, ids, k);
      }
    }
  }

  lemma SnapshotIfCoherent(db: Database, c: Cache, at: nat)
    ensures var (c', v) := ReadThrough(db, c, Storefront, at);
            Coherent(db, c) ==> v.SnapshotValue? && v.snapshot.(generatedAt := at) == StorefrontNow(db, at) && Coherent(db, c')
  {
    if Coherent(db, c) {
      ReadIsExact(db, c, Storefront, at);
    }
  }

  /** Commit, delete the keys, list again. */
  lemma SavedAndListed(db: Database, c: Cache, w: Write, ids: seq<string>, key: Key, at: nat)
    requires |ids| == w.Size() && key != Storefront
    ensures Coherent(db, c) && Commit(db, w, ids).Some? ==>
              var (db', c') := (Commit(db, w, ids).value, Dropped(c, InvalidationKeys(w)));
              ReadThrough(db', c', key, at).1 == Query(db', key, at) && Coherent(db', ReadThrough(db', c', key, at).0)
  {
    if Coherent(db, c) && Commit(db, w, ids).Some? {
      SaveKeeps(db, c, w, ids);
      ReadIsExact(Commit(db, w, ids).value, Dropped(c, InvalidationKeys(w)), key, at);
    }
  }

  lemma FailedPrefix(db: Database, inputs: seq<ProductInput>, ids: seq<string>)
    requires |ids| == |inputs| > 0 && CatalogTables.SaveProducts(db, inputs[..|inputs| - 1], ids[..|inputs| - 1]) == None
    ensures CatalogTables.SaveProducts(db, inputs, ids) == None
  {
  }

  /** One failing input fails the transaction. */
  lemma {:induction false} FailedSave(db: Database, inputs: seq<ProductInput>, ids: seq<string>, n: nat)
    requires |ids| == |inputs| && 0 < n <= |inputs| && CatalogTables.SaveProducts(db, inputs[..n], ids[..n]) == None
    ensures CatalogTables.SaveProducts(db, inputs, ids) == None
    decreases |inputs|
  {
    if n == |inputs| {
      assert inputs[..n] == inputs && ids[..n] == ids;
    } else {
      var before, idsBefore := inputs[..|inputs| - 1], ids[..|inputs| - 1];
      assert before[..n] == inputs[..n] && idsBefore[..n] == ids[..n];
      FailedSave(db, before, idsBefore, n);
      FailedPrefix(db, inputs, ids);
    }
  }

  lemma StepKeeps(s: Catalog, e: Event)
    requires Coherent(s.db, s.cache) && ReadersOk(s) && Orderly(s, e)
    ensures Coherent(Step(s, e).db, Step(s, e).cache) && ReadersOk(Step(s, e))
  {
    match e
    case Read(key, at) => ReadIsExact(s.db, s.cache, key, at);
    case StartRead(reader, key) =>
    case Collect(reader, part) =>
      if reader in s.readers && !s.readers[reader].touched {
        CollectedIsCurrent(s.db, s.cache, s.readers[reader], part);
      }
    case FinishRead(reader, at) =>
      if reader in s.readers && s.readers[reader].Ready(at).Some? {
        ReadyIsCurrent(s.db, s.readers[reader], at);
        PutFresh(s.db, s.cache, s.readers[reader].Target(), s.readers[reader].Ready(at).value);
      }
    case Evict(key) => DropKeeps(s.db, s.cache, [key]);
    case Save(w, ids, _) =>
      if Commit(s.db, w, ids).Some? {
        SaveKeeps(s.db, s.cache, w, ids);
        ReadersStay(s, w, ids);
      }
  }

  lemma ReadersStay(s: Catalog, w: Write, ids: seq<string>)
    requires ReadersOk(s) && |ids| == w.Size() && Commit(s.db, w, ids).Some?
    ensures ReadersOk(s.(db := Commit(s.db, w, ids).value, readers := Touched(s.readers, InvalidationKeys(w))))
  {
    var s' := s.(db := Commit(s.db, w, ids).value, readers := Touched(s.readers, InvalidationKeys(w)));
    forall r | r in s'.readers && !s'.readers[r].touched ensures Current(s'.db, s'.readers[r]) {
      UntouchedQueries(s.db, w, ids, s.readers[r].Target(), 0);
    }
  }

  /** Cached reads refine uncached ones: after any orderly run, evictions included, every read returns what the database holds. */
  lemma {:induction false} EveryReadIsExact(s: Catalog, es: seq<Event>, key: Key, at: nat)
    requires Coherent(s.db, s.cache) && ReadersOk(s) && PossibleRun(es) && OrderlyRun(s, es)
    ensures var e := Run(s, es);
            Coherent(e.db, e.cache) && Same(ReadThrough(e.db, e.cache, key, at).1, Query(e.db, key, at))
    decreases |es|
  {
    if es == [] {
      ReadIsExact(s.db, s.cache, key, at);
    } else {
      StepKeeps(s, es[0]);
      EveryReadIsExact(Step(s, es[0]), es[1..], key, at);
    }
  }
}
