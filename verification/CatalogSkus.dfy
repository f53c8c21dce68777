/** A listed product takes its SKU code and terms from its first SKU and its parcel from its last: harmless while there is one. */
module CatalogSkus {
  import opened Collections
  import opened CatalogTables
  import opened CatalogGrouping

  lemma {:induction false} SkuRowsAre(p: Product, c: string, r: string, t: Translation, skus: seq<Sku>)
    ensures |SkuRows(p, c, r, t, skus)| == |skus|
    ensures forall i | 0 <= i < |skus| :: SkuRows(p, c, r, t, skus)[i] == RowOf(p, c, r, t, skus[i])
  {
    if skus != [] {
      SkuRowsAre(p, c, r, t, skus[..|skus| - 1]);
    }
  }

  /** The join has one row per translation and SKU. */
  lemma {:induction false} RowsExactly(p: Product, c: string, r: string, ts: seq<Translation>, skus: seq<Sku>)
    ensures forall row | row in TranslationRows(p, c, r, ts, skus) ::
              exists t, s :: t in ts && s in skus && row == RowOf(p, c, r, t, s)
    ensures forall t, s | t in ts && s in skus :: RowOf(p, c, r, t, s) in TranslationRows(p, c, r, ts, skus)
  {
    if ts != [] {
      var (before, t) := (ts[..|ts| - 1], ts[|ts| - 1]);
      RowsExactly(p, c, r, before, skus);
      SkuRowsAre(p, c, r, t, skus);
      var added := SkuRows(p, c, r, t, skus);
      assert ts == before + [t];
      forall row | row in added ensures exists s :: s in skus && row == RowOf(p, c, r, t, s) {
        var i :| 0 <= i < |added| && row == added[i];
        assert skus[i] in skus;
      }
      forall s | s in skus ensures RowOf(p, c, r, t, s) in added {
        var i :| 0 <= i < |skus| && s == skus[i];
        assert added[i] in added;
      }
    }
  }

  predicate LocalesDistinct(ts: seq<Translation>) {
    forall i, j | 0 <= i < j < |ts| :: ts[i].locale != ts[j].locale
  }

  predicate CodesDistinct(skus: seq<Sku>) {
    forall i, j | 0 <= i < j < |skus| :: skus[i].code != skus[j].code
  }

  ghost predicate RowsDistinct(rows: seq<Row>) {
    forall row :: multiset(rows)[row] <= 1
  }

  lemma {:induction false} SkuRowsDistinct(p: Product, c: string, r: string, t: Translation, skus: seq<Sku>)
    requires CodesDistinct(skus)
    ensures RowsDistinct(SkuRows(p, c, r, t, skus))
  {
    if skus != [] {
      var before := skus[..|skus| - 1];
      SkuRowsDistinct(p, c, r, t, before);
      SkuRowsAre(p, c, r, t, before);
      var row := RowOf(p, c, r, t, skus[|skus| - 1]);
      assert forall i | 0 <= i < |before| :: SkuRows(p, c, r, t, before)[i].sku != row.sku;
      assert row !in SkuRows(p, c, r, t, before);
    }
  }

  lemma {:induction false} NoRowTwice(p: Product, c: string, r: string, ts: seq<Translation>, skus: seq<Sku>)
    requires LocalesDistinct(ts) && CodesDistinct(skus)
    ensures RowsDistinct(TranslationRows(p, c, r, ts, skus))
  {
    if ts != [] {
      var (before, t) := (ts[..|ts| - 1], ts[|ts| - 1]);
      NoRowTwice(p, c, r, before, skus);
      SkuRowsDistinct(p, c, r, t, skus);
      RowsExactly(p, c, r, before, skus);
      SkuRowsAre(p, c, r, t, skus);
      var rows, added := TranslationRows(p, c, r, before, skus), SkuRows(p, c, r, t, skus);
      forall row ensures multiset(rows + added)[row] <= 1 {
        assert forall x | x in before :: x.locale != t.locale;
        assert !(row in rows && row in added);
        assert row !in rows ==> multiset(rows)[row] == 0;
        assert row !in added ==> multiset(added)[row] == 0;
        assert multiset(rows + added)[row] == multiset(rows)[row] + multiset(added)[row];
      }
    }
  }

  /** Every copy of the listed product describes the SKU it is sold under. */
  predicate Consistent(p: StoreProduct) {
    forall l | l in p.copy :: p.copy[l].sku == p.header.sku
  }

  lemma {:induction false} ListedAlone(rows: seq<Row>, id: string)
    requires rows != [] && forall i | 0 <= i < |rows| :: rows[i].productId == id
    ensures IdsOf(rows) == [id] && HeaderOf(rows, id) == Some(rows[0].header)
  {
    if |rows| > 1 {
      ListedAlone(rows[..|rows| - 1], id);
    } else {
      assert IdsOf(rows[..0]) == [];
    }
  }

  /**
   * An active product is listed with the data of one SKU exactly when it has one, in whatever order the query returns its
   * rows.
   */
  lemma OneSkuExactly(db: Database, p: Product, rows: seq<Row>, blocks: seq<StoryBlock>)
    requires p.active && p.translations != [] && LocalesDistinct(p.translations)
    requires SkusOf(db.skus, p.id) != [] && CodesDistinct(SkusOf(db.skus, p.id))
    requires FindById(db.categories, p.categoryId).Some? && FindById(db.regions, p.regionId).Some?
    requires multiset(rows) == multiset(ProductRows(db, p))
    ensures var listed := Grouped(rows, blocks);
            && |listed| == 1 && listed[0].id == p.id
            && (Consistent(listed[0]) <==> |SkusOf(db.skus, p.id)| == 1)
  {
    var (ts, skus) := (p.translations, SkusOf(db.skus, p.id));
    var c := db.categories[FindById(db.categories, p.categoryId).value].slug;
    var r := db.regions[FindById(db.regions, p.regionId).value].slug;
    JoinInAnyOrder(db, p, c, r, rows);
    assert RowOf(p, c, r, ts[0], skus[0]) in rows;
    OwnJoin(rows, p, c, r, ts, skus);
    ListedAlone(rows, p.id);
    if |skus| == 1 {
      assert skus == [skus[0]];
      OneSkuConsistent(p, c, r, ts, skus[0], rows, blocks);
    } else {
      TwoSkusMixed(p, c, r, ts, skus, rows, blocks);
    }
  }

  lemma JoinInAnyOrder(db: Database, p: Product, c: string, r: string, rows: seq<Row>)
    requires LocalesDistinct(p.translations) && CodesDistinct(SkusOf(db.skus, p.id))
    requires ProductRows(db, p) == TranslationRows(p, c, r, p.translations, SkusOf(db.skus, p.id))
    requires multiset(rows) == multiset(ProductRows(db, p))
    ensures JoinRows(rows, p, c, r, p.translations, SkusOf(db.skus, p.id)) && RowsDistinct(rows)
  {
    RowsExactly(p, c, r, p.translations, SkusOf(db.skus, p.id));
    NoRowTwice(p, c, r, p.translations, SkusOf(db.skus, p.id));
    SameMembers(rows, ProductRows(db, p));
  }

  lemma SameMembers(a: seq<Row>, b: seq<Row>)
    requires multiset(a) == multiset(b)
    ensures forall row :: row in a <==> row in b
  {
    assert forall row :: row in a <==> row in multiset(a);
    assert forall row :: row in b <==> row in multiset(b);
  }

  lemma OwnJoin(rows: seq<Row>, p: Product, c: string, r: string, ts: seq<Translation>, skus: seq<Sku>)
    requires JoinRows(rows, p, c, r, ts, skus)
    ensures forall i | 0 <= i < |rows| :: rows[i].productId == p.id
  {
    assert forall i | 0 <= i < |rows| :: rows[i] in rows;
  }

  lemma OneSkuConsistent(p: Product, c: string, r: string, ts: seq<Translation>, s: Sku, rows: seq<Row>, blocks: seq<StoryBlock>)
    requires rows != [] && JoinRows(rows, p, c, r, ts, [s])
    ensures Consistent(StoreProduct(p.id, rows[0].header, CopyOf(rows, blocks, p.id)))
  {
    var copy := CopyOf(rows, blocks, p.id);
    assert forall i | 0 <= i < |rows| :: rows[i] in rows;
    forall l | l in copy ensures copy[l].sku == rows[0].header.sku {
      CopyIsLast(rows, blocks, p.id, l);
    }
  }

  ghost predicate JoinRows(rows: seq<Row>, p: Product, c: string, r: string, ts: seq<Translation>, skus: seq<Sku>) {
    && (forall row | row in rows :: exists t, s :: t in ts && s in skus && row == RowOf(p, c, r, t, s))
    && forall t, s | t in ts && s in skus :: RowOf(p, c, r, t, s) in rows
  }

  lemma OtherSku(p: Product, c: string, r: string, ts: seq<Translation>, skus: seq<Sku>, rows: seq<Row>, i: nat)
    requires CodesDistinct(skus) && LocalesDistinct(ts) && RowsDistinct(rows) && JoinRows(rows, p, c, r, ts, skus)
    requires 0 < i < |rows| && rows[i].locale == rows[0].locale
    ensures rows[i].sku != rows[0].sku
  {
    NotAgain(rows, i);
    assert rows[0] in rows && rows[i] in rows;
    var t, s :| t in ts && s in skus && rows[0] == RowOf(p, c, r, t, s);
    var t', s' :| t' in ts && s' in skus && rows[i] == RowOf(p, c, r, t', s');
    assert t' == t;
  }

  lemma AnotherRow(p: Product, c: string, r: string, ts: seq<Translation>, skus: seq<Sku>, rows: seq<Row>) returns (k: nat)
    requires rows != [] && |skus| > 1 && CodesDistinct(skus) && JoinRows(rows, p, c, r, ts, skus)
    ensures 0 < k < |rows| && rows[k].locale == rows[0].locale && rows[k].productId == p.id
  {
    assert rows[0] in rows;
    var t, s :| t in ts && s in skus && rows[0] == RowOf(p, c, r, t, s);
    var other := if skus[0].code == s.code then skus[1] else skus[0];
    assert other in skus && RowOf(p, c, r, t, other) in rows;
    k :| 0 <= k < |rows| && rows[k] == RowOf(p, c, r, t, other);
    assert rows[k].sku != rows[0].sku;
  }

  /** The last row in the first row's locale is of another SKU. */
  lemma TwoSkusMixed(p: Product, c: string, r: string, ts: seq<Translation>, skus: seq<Sku>, rows: seq<Row>, blocks: seq<StoryBlock>)
    requires rows != [] && |skus| > 1 && CodesDistinct(skus) && LocalesDistinct(ts) && RowsDistinct(rows)
    requires JoinRows(rows, p, c, r, ts, skus)
    ensures !Consistent(StoreProduct(p.id, rows[0].header, CopyOf(rows, blocks, p.id)))
  {
    assert rows[0] in rows;
    var k := AnotherRow(p, c, r, ts, skus, rows);
    var last := LastIn(rows, p.id, rows[0].locale, k);
    OtherSku(p, c, r, ts, skus, rows, last);
    CopyIsLast(rows, blocks, p.id, rows[0].locale);
  }

  lemma NotAgain(rows: seq<Row>, i: nat)
    requires RowsDistinct(rows) && 0 < i < |rows|
    ensures rows[i] != rows[0]
  {
    assert rows == [rows[0]] + rows[1..] && rows[i] in rows[1..];
    assert multiset(rows)[rows[0]] == 1 + multiset(rows[1..])[rows[0]];
  }

  ghost function LastIn(rows: seq<Row>, id: string, locale: string, k: nat): (i: nat)
    requires k < |rows| && rows[k].productId == id && rows[k].locale == locale
    ensures k <= i && LastRow(rows, id, locale, i)
    decreases |rows| - k
  {
    if i: nat :| k < i < |rows| && rows[i].productId == id && rows[i].locale == locale then LastIn(rows, id, locale, i) else k
  }

  const POT := Product("p", "pot", "Pot", true, "c", "r", "", [Translation("en", "Pot")], [])

  const POTS := Database([Facet("c", "pots", "", map[])], [Facet("r", "home", "", map[])], [POT],
                         [Sku("p", "small", "10 USD", "100 g", ""), Sku("p", "large", "50 USD", "900 g", "")], [])

  predicate ListedAs(rows: seq<Row>, code: string, terms: string, parcel: string) {
    var listed := Grouped(rows, []);
    && |listed| == 1 && listed[0].header.sku == code && listed[0].header.terms == terms
    && "en" in listed[0].copy && listed[0].copy["en"].parcel == parcel
  }

  function PotRow(s: Sku): Row {
    RowOf(POT, "pots", "home", Translation("en", "Pot"), s)
  }

  /** A product with two SKUs: listed as the small one for its price with the weight of the large one, or the other way round. */
  lemma TwoSkusListed()
    ensures ProductRows(POTS, POT) == [PotRow(POTS.skus[0]), PotRow(POTS.skus[1])]
    ensures ListedAs([PotRow(POTS.skus[0]), PotRow(POTS.skus[1])], "small", "10 USD", "900 g")
    ensures ListedAs([PotRow(POTS.skus[1]), PotRow(POTS.skus[0])], "large", "50 USD", "100 g")
  {
    TwoRows(POT, "pots", "home", POT.translations[0], POTS.skus[0], POTS.skus[1]);
    LastOfTwo(PotRow(POTS.skus[0]), PotRow(POTS.skus[1]));
    LastOfTwo(PotRow(POTS.skus[1]), PotRow(POTS.skus[0]));
  }

  lemma TwoRows(p: Product, c: string, r: string, t: Translation, s: Sku, s': Sku)
    requires s.productId == s'.productId == p.id
    ensures SkusOf([s, s'], p.id) == [s, s']
    ensures TranslationRows(p, c, r, [t], [s, s']) == [RowOf(p, c, r, t, s), RowOf(p, c, r, t, s')]
  {
    assert [s, s'][..1] == [s] && [s][..0] == [] && [t][..0] == [];
    assert SkusOf([s], p.id) == [s];
    SkuRowsAre(p, c, r, t, [s, s']);
    assert TranslationRows(p, c, r, [], [s, s']) == [];
  }

  lemma LastOfTwo(a: Row, b: Row)
    requires a.productId == b.productId && a.locale == b.locale
    ensures var listed := Grouped([a, b], []);
            && |listed| == 1 && listed[0].header == a.header
            && b.locale in listed[0].copy && listed[0].copy[b.locale].parcel == b.parcel
  {
    ListedAlone([a, b], a.productId);
    assert LastRow([a, b], a.productId, a.locale, 1);
    CopyIsLast([a, b], [], a.productId, a.locale);
  }

  // ----- The product write keeps it at one -----

  predicate OneSkuEach(skus: seq<Sku>) {
    forall i, j | 0 <= i < j < |skus| :: skus[i].productId != skus[j].productId
  }

  function ProductIds(skus: seq<Sku>): set<string> {
    set s | s in skus :: s.productId
  }

  /** New ids are new: random UUIDs, one per input. */
  predicate Fresh(skus: seq<Sku>, ids: seq<string>) {
    && (forall id | id in ids :: id !in ProductIds(skus))
    && forall i, j | 0 <= i < j < |ids| :: ids[i] != ids[j]
  }

  /** From tables with one SKU per product, no sequence of saves ever gives a product a second one. */
  lemma {:induction false} SaveKeepsOneSku(db: Database, inputs: seq<ProductInput>, ids: seq<string>)
    requires |inputs| == |ids| && OneSkuEach(db.skus) && CodesDistinct(db.skus) && Fresh(db.skus, ids)
    ensures var saved := SaveProducts(db, inputs, ids);
            saved.Some? ==>
              && OneSkuEach(saved.value.skus) && CodesDistinct(saved.value.skus)
              && forall id | id in ProductIds(saved.value.skus) :: id in ids || id in ProductIds(db.skus)
  {
    if inputs != [] {
      var last := |inputs| - 1;
      assert ids == ids[..last] + [ids[last]];
      SaveKeepsOneSku(db, inputs[..last], ids[..last]);
      var before := SaveProducts(db, inputs[..last], ids[..last]);
      if before.Some? {
        assert ids[last] !in ids[..last] && ids[last] in ids;
        UpsertedSkus(before.value, inputs[last], ids[last]);
        var saved := UpsertProduct(before.value, inputs[last], ids[last]);
        if saved.Some? {
          SkusStayApart(before.value.skus, saved.value.skus, ids[last]);
        }
      }
    }
  }

  /** A product write leaves every SKU its product and code, and may add one SKU with a new code for the new id. */
  lemma UpsertedSkus(db: Database, input: ProductInput, id: string)
    ensures var saved := UpsertProduct(db, input, id);
            saved.Some? ==> SkusExtend(db.skus, saved.value.skus, id)
  {
    assert forall i | 0 <= i < |db.skus| :: db.skus[i] in db.skus;
  }

  ghost predicate SkusExtend(a: seq<Sku>, b: seq<Sku>, id: string) {
    && |a| <= |b| <= |a| + 1
    && (forall i | 0 <= i < |a| :: b[i].productId == a[i].productId && b[i].code == a[i].code)
    && (|b| == |a| + 1 ==> b[|a|].productId == id && forall i | 0 <= i < |a| :: a[i].code != b[|a|].code)
  }

  lemma SkusStayApart(a: seq<Sku>, b: seq<Sku>, id: string)
    requires OneSkuEach(a) && CodesDistinct(a) && SkusExtend(a, b, id) && id !in ProductIds(a)
    ensures OneSkuEach(b) && CodesDistinct(b)
    ensures ProductIds(b) <= ProductIds(a) + {id}
  {
  }
}
