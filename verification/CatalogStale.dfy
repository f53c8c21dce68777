/**
 * Exactly when a failed key deletion or a late read leaves a stale entry in the cache: the queries are told from the inputs
 * of the saves, so each condition can be checked before the fact.
 */
module CatalogStale {
  import opened Collections
  import opened CatalogTables
  import opened CatalogCache
  import opened CatalogListings
  import opened CatalogOffers
  import opened CatalogCards
  import opened CatalogSaves

  /** Inputs of committed saves, with the ids they bring along. */
  datatype Inputs = Inputs(categories: seq<FacetInput>, categoryIds: seq<string>, regions: seq<FacetInput>, regionIds: seq<string>,
                           products: seq<ProductInput>, productIds: seq<string>)
  {
    predicate Paired() {
      |categories| == |categoryIds| && |regions| == |regionIds| && |products| == |productIds|
    }

    function Then(more: Inputs): Inputs {
      Inputs(categories + more.categories, categoryIds + more.categoryIds, regions + more.regions, regionIds + more.regionIds,
             products + more.products, productIds + more.productIds)
    }
  }

  const NOTHING := Inputs([], [], [], [], [], [])

  function InputsOf(w: Write, ids: seq<string>): Inputs {
    match w
    case SaveCategories(facets) => NOTHING.(categories := facets, categoryIds := ids)
    case SaveRegions(facets) => NOTHING.(regions := facets, regionIds := ids)
    case SaveProducts(products) => NOTHING.(products := products, productIds := ids)
  }

  /** The saves leave the query behind the key as it is. */
  predicate Keeps(db: Database, key: Key, inputs: Inputs) {
    match key
    case Categories => Restates(db.categories, inputs.categories)
    case Regions => Restates(db.regions, inputs.regions)
    case ProductSummaries => RestatesSummaries(Offers(db), inputs.products, 24)
    case StorefrontProducts => RestatesCards(Offers(db), inputs.products)
    case Storefront =>
      && Restates(db.categories, inputs.categories) && Restates(db.regions, inputs.regions)
      && RestatesCards(Offers(db), inputs.products)
  }

  /** The tables satisfy their keys. */
  ghost predicate Tidy(db: Database) {
    Keyed(db) && SlugsDistinct(db.categories) && SlugsDistinct(db.regions)
  }

  /** The database after the saves, as far as the queries can see. */
  ghost predicate Done(db: Database, inputs: Inputs, db': Database) {
    && inputs.Paired() && Tidy(db') && db'.blocks == db.blocks
    && db'.categories == SaveFacets(db.categories, inputs.categories, inputs.categoryIds)
    && db'.regions == SaveFacets(db.regions, inputs.regions, inputs.regionIds)
    && Offers(db') == OffersAfter(Offers(db), inputs.products, inputs.productIds)
  }

  // ----- Saves of facets -----

  lemma {:induction false} SavedSlugs(facets: seq<Facet>, inputs: seq<FacetInput>, ids: seq<string>)
    requires |ids| == |inputs| && IdsDistinct(facets) && forall i, j | 0 <= i < j < |ids| :: ids[i] != ids[j]
    requires forall f | f in facets :: f.id !in ids
    ensures var saved := SaveFacets(facets, inputs, ids);
            && IdsDistinct(saved)
            && (forall other | other !in ids :: SlugOf(saved, other) == SlugOf(facets, other))
            && (forall f | f in saved :: f.id in ids || exists g :: g in facets && g.id == f.id)
  {
    if inputs != [] {
      var last := |inputs| - 1;
      assert ids == ids[..last] + [ids[last]];
      SavedSlugs(facets, inputs[..last], ids[..last]);
      var before := SaveFacets(facets, inputs[..last], ids[..last]);
      UpsertKeepsSlugs(before, inputs[last], ids[last]);
      UpsertedIds(before, inputs[last], ids[last]);
    }
  }

  lemma UpsertedIds(facets: seq<Facet>, input: FacetInput, id: string)
    ensures forall f | f in UpsertFacet(facets, input, id) :: f.id == id || exists g :: g in facets && g.id == f.id
  {
    var saved := UpsertFacet(facets, input, id);
    forall f | f in saved ensures f.id == id || exists g :: g in facets && g.id == f.id {
      var i :| 0 <= i < |saved| && f == saved[i];
      assert i < |facets| ==> facets[i] in facets && facets[i].id == f.id;
    }
  }

  /** Offers show a facet's slug only, and no save changes the slug behind an id. */
  lemma SameOffers(db: Database, db': Database, ids: seq<string>)
    requires Keyed(db) && New(db, ids) && db' == db.(categories := db'.categories, regions := db'.regions)
    requires IdsDistinct(db'.categories) && IdsDistinct(db'.regions)
    requires forall other | other !in ids :: SlugOf(db'.categories, other) == SlugOf(db.categories, other)
    requires forall other | other !in ids :: SlugOf(db'.regions, other) == SlugOf(db.regions, other)
    ensures Keyed(db') && Offers(db') == Offers(db)
  {
    forall i | 0 <= i < |db.products| ensures Offers(db')[i] == Offers(db)[i] {
      var p := db.products[i];
      assert p in db.products;
      assert p.categoryId !in ids && p.regionId !in ids;
    }
  }

  lemma FacetsDone(db: Database, w: Write, ids: seq<string>)
    requires Tidy(db) && !w.SaveProducts? && |ids| == w.Size() && New(db, ids)
    ensures Done(db, InputsOf(w, ids), Commit(db, w, ids).value)
  {
    var facets := if w.SaveCategories? then db.categories else db.regions;
    forall f | f in facets ensures f.id !in ids {
      assert forall id | id in ids :: Unused(db, id);
    }
    SavedSlugs(facets, w.facets, ids);
    SavedExactly(facets, w.facets, ids);
    SameOffers(db, Commit(db, w, ids).value, ids);
  }

  lemma FacetsUnused(db: Database, w: Write, ids: seq<string>, other: string)
    requires Tidy(db) && !w.SaveProducts? && |ids| == w.Size() && New(db, ids) && Unused(db, other) && other !in ids
    ensures Unused(Commit(db, w, ids).value, other)
  {
    var facets := if w.SaveCategories? then db.categories else db.regions;
    forall f | f in facets ensures f.id !in ids {
      assert forall id | id in ids :: Unused(db, id);
    }
    SavedSlugs(facets, w.facets, ids);
  }

  lemma ProductsDone(db: Database, inputs: seq<ProductInput>, ids: seq<string>)
    requires Tidy(db) && |ids| == |inputs| && New(db, ids) && Commit(db, SaveProducts(inputs), ids).Some?
    ensures Done(db, InputsOf(SaveProducts(inputs), ids), Commit(db, SaveProducts(inputs), ids).value)
    ensures forall other | Unused(db, other) && other !in ids :: Unused(Commit(db, SaveProducts(inputs), ids).value, other)
  {
    SavedOffers(db, inputs, ids);
    ProductsKeepFacets(db, inputs, ids);
    forall other | Unused(db, other) && other !in ids ensures Unused(Commit(db, SaveProducts(inputs), ids).value, other) {
      SavedUnused(db, inputs, ids, other);
    }
  }

  lemma CommitDone(db: Database, w: Write, ids: seq<string>)
    requires Tidy(db) && |ids| == w.Size() && New(db, ids) && Commit(db, w, ids).Some?
    ensures Done(db, InputsOf(w, ids), Commit(db, w, ids).value)
    ensures forall other | Unused(db, other) && other !in ids :: Unused(Commit(db, w, ids).value, other)
  {
    match w
    case SaveProducts(inputs) => ProductsDone(db, inputs, ids);
    case _ =>
      FacetsDone(db, w, ids);
      forall other | Unused(db, other) && other !in ids ensures Unused(Commit(db, w, ids).value, other) {
        FacetsUnused(db, w, ids, other);
      }
  }

  // ----- Queries after saves -----

  lemma OffersGrown(db: Database, inputs: Inputs, db': Database)
    requires Tidy(db) && Done(db, inputs, db')
    ensures CodesApart(Offers(db)) && SavedAs(Offers(db), inputs.products, Offers(db')) && Grown(Offers(db), Offers(db'))
  {
    OffersKeyed(db);
    OffersKeyed(db');
    SavedOffersExactly(Offers(db), inputs.products, inputs.productIds);
  }

  /** Saves leave a query as it is exactly if their inputs restate what it shows. */
  lemma QueryExactly(db: Database, inputs: Inputs, db': Database, key: Key)
    requires Tidy(db) && Done(db, inputs, db')
    ensures Query(db', key, 0) == Query(db, key, 0) <==> Keeps(db, key, inputs)
  {
    ListedExactly(db.categories, inputs.categories, inputs.categoryIds);
    ListedExactly(db.regions, inputs.regions, inputs.regionIds);
    ProductQueriesExactly(db, inputs, db');
  }

  lemma ProductQueriesExactly(db: Database, inputs: Inputs, db': Database)
    requires Tidy(db) && Done(db, inputs, db')
    ensures ProductsNow(db') == ProductsNow(db) <==> RestatesCards(Offers(db), inputs.products)
    ensures SummariesNow(db') == SummariesNow(db) <==> RestatesSummaries(Offers(db), inputs.products, 24)
  {
    OffersGrown(db, inputs, db');
    StorefrontShowsOffers(db);
    StorefrontShowsOffers(db');
    SameCardsExactly(Offers(db), Offers(db'), db.blocks);
    CardsKeptExactly(Offers(db), inputs.products, Offers(db'), db.blocks);
    SummariesShowOffers(db);
    SummariesShowOffers(db');
    SameSummariesExactly(Offers(db), Offers(db'), 24);
    SummariesKeptExactly(Offers(db), inputs.products, Offers(db'), 24);
  }

  /** Two of the four keys that a save of categories or regions drops are dropped in vain: no product query can change. */
  lemma FacetSavesKeepProducts(db: Database, w: Write, ids: seq<string>)
    requires Tidy(db) && !w.SaveProducts? && |ids| == w.Size() && New(db, ids)
    ensures var db' := Commit(db, w, ids).value;
            ProductsNow(db') == ProductsNow(db) && SummariesNow(db') == SummariesNow(db)
  {
    FacetsDone(db, w, ids);
    ProductQueriesExactly(db, InputsOf(w, ids), Commit(db, w, ids).value);
  }

  // ----- A failed deletion -----

  /**
   * When the delete after a commit fails, the cache stays coherent exactly if the save restates what every cached listing
   * among the dropped ones shows.
   */
  lemma FailedDeleteExactly(s: Catalog, w: Write, ids: seq<string>)
    requires Coherent(s.db, s.cache) && Tidy(s.db) && |ids| == w.Size() && New(s.db, ids) && Commit(s.db, w, ids).Some?
    ensures var s' := Step(s, Save(w, ids, false));
            Coherent(s'.db, s'.cache)
            <==> forall key | key in InvalidationKeys(w) && Entry(s.cache, key).Some? :: Keeps(s.db, key, InputsOf(w, ids))
  {
    var db' := Commit(s.db, w, ids).value;
    FailedDelete(s, w, ids);
    forall key ensures Fresh(db', s.cache, key)
                       <==> key !in InvalidationKeys(w) || Entry(s.cache, key).None? || Keeps(s.db, key, InputsOf(w, ids))
    {
      FailedDeleteOf(s, w, ids, key);
    }
  }

  lemma FailedDelete(s: Catalog, w: Write, ids: seq<string>)
    requires |ids| == w.Size() && Commit(s.db, w, ids).Some?
    ensures var s' := Step(s, Save(w, ids, false));
            s'.db == Commit(s.db, w, ids).value && s'.cache == s.cache
  {
  }

  lemma FailedDeleteOf(s: Catalog, w: Write, ids: seq<string>, key: Key)
    requires Fresh(s.db, s.cache, key) && Tidy(s.db) && |ids| == w.Size() && New(s.db, ids) && Commit(s.db, w, ids).Some?
    ensures Fresh(Commit(s.db, w, ids).value, s.cache, key)
            <==> key !in InvalidationKeys(w) || Entry(s.cache, key).None? || Keeps(s.db, key, InputsOf(w, ids))
  {
    CommitDone(s.db, w, ids);
    KeptEntry(s.db, s.cache, w, ids, key);
    QueryExactly(s.db, InputsOf(w, ids), Commit(s.db, w, ids).value, key);
  }

  // ----- A late read -----

  lemma {:induction false} SaveFacetsAppend(facets: seq<Facet>, xs: seq<FacetInput>, xIds: seq<string>, ys: seq<FacetInput>, yIds: seq<string>)
    requires |xs| == |xIds| && |ys| == |yIds|
    ensures SaveFacets(facets, xs + ys, xIds + yIds) == SaveFacets(SaveFacets(facets, xs, xIds), ys, yIds)
  {
    if ys == [] {
      assert xs + ys == xs && xIds + yIds == xIds;
    } else {
      var last := |ys| - 1;
      assert (xs + ys)[..|xs + ys| - 1] == xs + ys[..last] && (xIds + yIds)[..|xs + ys| - 1] == xIds + yIds[..last];
      SaveFacetsAppend(facets, xs, xIds, ys[..last], yIds[..last]);
    }
  }

  lemma {:induction false} OffersAfterAppend(offers: seq<Offer>, xs: seq<ProductInput>, xIds: seq<string>, ys: seq<ProductInput>, yIds: seq<string>)
    requires |xs| == |xIds| && |ys| == |yIds|
    ensures OffersAfter(offers, xs + ys, xIds + yIds) == OffersAfter(OffersAfter(offers, xs, xIds), ys, yIds)
  {
    if ys == [] {
      assert xs + ys == xs && xIds + yIds == xIds;
    } else {
      var last := |ys| - 1;
      assert (xs + ys)[..|xs + ys| - 1] == xs + ys[..last] && (xIds + yIds)[..|xs + ys| - 1] == xIds + yIds[..last];
      OffersAfterAppend(offers, xs, xIds, ys[..last], yIds[..last]);
    }
  }

  lemma DoneThen(a: Database, xs: Inputs, b: Database, ys: Inputs, c: Database)
    requires Done(a, xs, b) && Done(b, ys, c)
    ensures Done(a, xs.Then(ys), c)
  {
    SaveFacetsAppend(a.categories, xs.categories, xs.categoryIds, ys.categories, ys.categoryIds);
    SaveFacetsAppend(a.regions, xs.regions, xs.regionIds, ys.regions, ys.regionIds);
    OffersAfterAppend(Offers(a), xs.products, xs.productIds, ys.products, ys.productIds);
  }

  function IdsIn(es: seq<Event>): seq<string> {
    if es == [] then [] else (if es[0].Save? then es[0].ids else []) + IdsIn(es[1..])
  }

  /** The inputs of a step: none but of a committed save. */
  function StepInputs(s: Catalog, e: Event): Inputs
    requires Possible(e)
  {
    match e
    case Save(w, ids, _) => if Commit(s.db, w, ids).Some? then InputsOf(w, ids) else NOTHING
    case _ => NOTHING
  }

  function InputsIn(s: Catalog, es: seq<Event>): Inputs
    requires PossibleRun(es)
    decreases |es|
  {
    if es == [] then NOTHING
    else
      assert es[0] in es;
      StepInputs(s, es[0]).Then(InputsIn(Step(s, es[0]), es[1..]))
  }

  lemma NewTail(db: Database, xs: seq<string>, ys: seq<string>)
    requires New(db, xs + ys)
    ensures New(db, xs) && New(db, ys) && forall y | y in ys :: y !in xs
  {
    assert forall i | 0 <= i < |xs| :: (xs + ys)[i] == xs[i];
    assert forall i | 0 <= i < |ys| :: (xs + ys)[|xs| + i] == ys[i];
  }

  lemma StepDone(s: Catalog, e: Event, rest: seq<string>)
    requires Tidy(s.db) && Possible(e) && New(s.db, (if e.Save? then e.ids else []) + rest)
    ensures Done(s.db, StepInputs(s, e), Step(s, e).db) && New(Step(s, e).db, rest)
  {
    NewTail(s.db, if e.Save? then e.ids else [], rest);
    if e.Save? && Commit(s.db, e.write, e.ids).Some? {
      CommitDone(s.db, e.write, e.ids);
    }
  }

  /** Along any run the database moves by the inputs of its committed saves alone. */
  lemma {:induction false} RunDone(s: Catalog, es: seq<Event>)
    requires Tidy(s.db) && PossibleRun(es) && New(s.db, IdsIn(es))
    ensures Done(s.db, InputsIn(s, es), Run(s, es).db)
    decreases |es|
  {
    if es != [] {
      assert es[0] in es;
      var s' := Step(s, es[0]);
      StepDone(s, es[0], IdsIn(es[1..]));
      RunDone(s', es[1..]);
      DoneThen(s.db, StepInputs(s, es[0]), s'.db, InputsIn(s', es[1..]), Run(s', es[1..]).db);
    }
  }

  predicate Leaves(e: Event, reader: nat) {
    (e.StartRead? || e.Collect? || e.FinishRead?) ==> e.reader != reader
  }

  lemma {:induction false} ReaderWaits(s: Catalog, es: seq<Event>, reader: nat)
    requires PossibleRun(es) && reader in s.readers && forall e | e in es :: Leaves(e, reader)
    ensures var s' := Run(s, es);
            reader in s'.readers && s'.readers[reader] == s.readers[reader].(touched := s'.readers[reader].touched)
    decreases |es|
  {
    if es != [] {
      assert es[0] in es;
      ReaderWaits(Step(s, es[0]), es[1..], reader);
    }
  }

  lemma QueryFits(db: Database, c: Cache, key: Key)
    ensures var v := Query(db, key, 0);
            Entry(Put(c, key, v), key) == Some(v) && (v.SnapshotValue? ==> v.snapshot.generatedAt == 0)
  {
  }

  lemma StoredExactly(db: Database, c: Cache, key: Key, v: Value, was: Value)
    requires Coherent(db, c) && Same(v, was)
    requires Entry(Put(c, key, was), key) == Some(was) && (was.SnapshotValue? ==> was.snapshot.generatedAt == 0)
    ensures Coherent(db, Put(c, key, v)) <==> Query(db, key, 0) == was
  {
    if Query(db, key, 0) == was {
      PutFresh(db, c, key, v);
    } else {
      assert !Fresh(db, Put(c, key, v), key);
    }
  }

  lemma StoredReader(s: Catalog, reader: nat, at: nat, was: Value)
    requires Coherent(s.db, s.cache) && reader in s.readers && s.readers[reader].Ready(at).Some?
    requires var key := s.readers[reader].Target();
             && Same(s.readers[reader].Ready(at).value, was) && Entry(Put(s.cache, key, was), key) == Some(was)
             && (was.SnapshotValue? ==> was.snapshot.generatedAt == 0)
    ensures Coherent(s.db, Step(s, FinishRead(reader, at)).cache) <==> Query(s.db, s.readers[reader].Target(), 0) == was
  {
    StoredExactly(s.db, s.cache, s.readers[reader].Target(), s.readers[reader].Ready(at).value, was);
    FinishStores(s, reader, at);
  }

  lemma FinishStores(s: Catalog, reader: nat, at: nat)
    requires reader in s.readers && s.readers[reader].Ready(at).Some?
    ensures Step(s, FinishRead(reader, at)).cache == Put(s.cache, s.readers[reader].Target(), s.readers[reader].Ready(at).value)
  {
  }

  /**
   * A current read that is stored after any run leaves a coherent cache coherent exactly if the saves committed since restate
   * what it shows.
   */
  lemma LateReadExactly(s: Catalog, es: seq<Event>, reader: nat, at: nat)
    requires Tidy(s.db) && PossibleRun(es) && New(s.db, IdsIn(es))
    requires reader in s.readers && s.readers[reader].Pending? && Same(s.readers[reader].value, Query(s.db, s.readers[reader].key, 0))
    requires (forall e | e in es :: Leaves(e, reader)) && Coherent(Run(s, es).db, Run(s, es).cache)
    ensures Coherent(Run(s, es).db, Step(Run(s, es), FinishRead(reader, at)).cache)
            <==> Keeps(s.db, s.readers[reader].key, InputsIn(s, es))
  {
    var s', key := Run(s, es), s.readers[reader].key;
    ReaderWaits(s, es, reader);
    PartStillCurrent(s, es, key);
    QueryFits(s.db, s'.cache, key);
    StoredReader(s', reader, at, Query(s.db, key, 0));
  }

  /** The part that was collected in an earlier state is still current exactly if the saves since then restate it. */
  lemma PartStillCurrent(s: Catalog, es: seq<Event>, key: Key)
    requires Tidy(s.db) && PossibleRun(es) && New(s.db, IdsIn(es))
    ensures Query(Run(s, es).db, key, 0) == Query(s.db, key, 0) <==> Keeps(s.db, key, InputsIn(s, es))
  {
    RunDone(s, es);
    QueryExactly(s.db, InputsIn(s, es), Run(s, es).db, key);
  }

  /**
   * A snapshot whose parts were collected in three states of a run, and which is stored at its end, leaves a coherent cache
   * coherent exactly if the saves committed since each part was collected restate that part.
   */
  lemma LateSnapshotExactly(c: Catalog, afterC: seq<Event>, r: Catalog, afterR: seq<Event>, p: Catalog, afterP: seq<Event>,
                            s: Catalog, reader: nat, at: nat)
    requires Tidy(c.db) && PossibleRun(afterC) && New(c.db, IdsIn(afterC)) && Run(c, afterC) == s
    requires Tidy(r.db) && PossibleRun(afterR) && New(r.db, IdsIn(afterR)) && Run(r, afterR) == s
    requires Tidy(p.db) && PossibleRun(afterP) && New(p.db, IdsIn(afterP)) && Run(p, afterP) == s
    requires Coherent(s.db, s.cache) && reader in s.readers && Gathered(s.readers[reader], c.db, r.db, p.db)
    ensures Coherent(s.db, Step(s, FinishRead(reader, at)).cache)
            <==> Keeps(c.db, Categories, InputsIn(c, afterC)) && Keeps(r.db, Regions, InputsIn(r, afterR))
                 && Keeps(p.db, StorefrontProducts, InputsIn(p, afterP))
  {
    PartStillCurrent(c, afterC, Categories);
    PartStillCurrent(r, afterR, Regions);
    PartStillCurrent(p, afterP, StorefrontProducts);
    StoredSnapshot(s, reader, at, c.db, r.db, p.db);
  }

  lemma StoredSnapshot(s: Catalog, reader: nat, at: nat, c: Database, r: Database, p: Database)
    requires Coherent(s.db, s.cache) && reader in s.readers && Gathered(s.readers[reader], c, r, p)
    ensures Coherent(s.db, Step(s, FinishRead(reader, at)).cache)
            <==> Query(s.db, Categories, 0) == Query(c, Categories, 0) && Query(s.db, Regions, 0) == Query(r, Regions, 0)
                 && Query(s.db, StorefrontProducts, 0) == Query(p, StorefrontProducts, 0)
  {
    StoredReader(s, reader, at, SnapshotValue(Snapshot(0, CategoriesNow(c), RegionsNow(r), ProductsNow(p))));
  }

  /** A snapshot with the categories of one database, the regions of another and the products of a third. */
  predicate Gathered(reader: Reader, c: Database, r: Database, p: Database) {
    && reader.Gathering? && reader.categories == Some(CategoriesNow(c)) && reader.regions == Some(RegionsNow(r))
    && reader.products == Some(ProductsNow(p))
  }

  const TEA := FacetInput("tea", "card", "cha", "tea")

  /** A read that straddles a commit leaves a stale list behind: an empty category list, with a category in the table. */
  lemma StraddlingReadGoesStale()
    ensures var s := Catalog(Database([], [], [], [], []), EMPTY, map[]);
            var racing := Step(Step(Step(s, StartRead(0, Categories)), Save(SaveCategories([TEA]), ["id"], true)), FinishRead(0, 0));
            && Coherent(s.db, s.cache) && racing.cache.categories == Some([]) && |CategoriesNow(racing.db)| == 1
  {
    var s := Catalog(Database([], [], [], [], []), EMPTY, map[]);
    var started := Step(s, StartRead(0, Categories));
    assert started.readers == map[0 := Pending(Categories, FacetList([]), false)];
    var facet := Facet("id", "tea", "card", map["zh" := "cha", "en" := "tea"]);
    assert SaveFacets([], [TEA], ["id"]) == [facet] by {
      assert [TEA][..0] == [] && ["id"][..0] == [];
      assert SaveFacets([], [], []) == [];
    }
    assert [facet][..0] == [] && facet.copy != map[] by { assert "zh" in facet.copy; }
    assert Listed([facet]) == [facet];
  }
}
