/** From storefront rows to products: the grouping loop, what it computes, and what happens to a product with two SKUs. */
module CatalogGrouping {
  import opened Collections
  import opened CatalogTables

  datatype Copy = Copy(text: string, sku: string, parcel: string, blocks: seq<string>)

  datatype StoreProduct = StoreProduct(id: string, header: Header, copy: map<string, Copy>)

  function BlocksOf(blocks: seq<StoryBlock>, productId: string, locale: string): seq<string> {
    if blocks == [] then []
    else
      var last := blocks[|blocks| - 1];
      BlocksOf(blocks[..|blocks| - 1], productId, locale)
      + if last.productId == productId && last.locale == locale then [last.body] else []
  }

  /** The product ids of the rows, in order of first appearance. */
  function IdsOf(rows: seq<Row>): seq<string> {
    if rows == [] then []
    else
      var (before, id) := (IdsOf(rows[..|rows| - 1]), rows[|rows| - 1].productId);
      if id in before then before else before + [id]
  }

  function CopyOf(rows: seq<Row>, blocks: seq<StoryBlock>, id: string): map<string, Copy> {
    if rows == [] then map[]
    else
      var (before, r) := (CopyOf(rows[..|rows| - 1], blocks, id), rows[|rows| - 1]);
      if r.productId == id then before[r.locale := Copy(r.text, r.sku, r.parcel, BlocksOf(blocks, id, r.locale))] else before
  }

  predicate FirstRow(rows: seq<Row>, id: string, i: nat) {
    i < |rows| && rows[i].productId == id && forall j | 0 <= j < i :: rows[j].productId != id
  }

  predicate LastRow(rows: seq<Row>, id: string, locale: string, i: nat) {
    && i < |rows| && rows[i].productId == id && rows[i].locale == locale
    && forall j | i < j < |rows| :: !(rows[j].productId == id && rows[j].locale == locale)
  }

  function HeaderOf(rows: seq<Row>, id: string): (h: Option<Header>)
    ensures h.None? <==> id !in IdsOf(rows)
  {
    if rows == [] then None
    else
      var before := HeaderOf(rows[..|rows| - 1], id);
      if before.Some? then before
      else if rows[|rows| - 1].productId == id then Some(rows[|rows| - 1].header)
      else None
  }

  function GroupedProduct(rows: seq<Row>, blocks: seq<StoryBlock>, id: string): StoreProduct
    requires id in IdsOf(rows)
  {
    StoreProduct(id, HeaderOf(rows, id).value, CopyOf(rows, blocks, id))
  }

  function Grouped(rows: seq<Row>, blocks: seq<StoryBlock>): (products: seq<StoreProduct>)
    ensures |products| == |IdsOf(rows)|
    ensures forall i | 0 <= i < |products| :: products[i] == GroupedProduct(rows, blocks, IdsOf(rows)[i])
  {
    var ids := IdsOf(rows);
    seq(|ids|, i requires 0 <= i < |ids| => GroupedProduct(rows, blocks, ids[i]))
  }

  lemma {:induction false} IdsExactly(rows: seq<Row>)
    ensures forall id :: id in IdsOf(rows) <==> exists r :: r in rows && r.productId == id
    ensures forall i, j | 0 <= i < j < |IdsOf(rows)| :: IdsOf(rows)[i] != IdsOf(rows)[j]
  {
    if rows != [] {
      var last := |rows| - 1;
      IdsExactly(rows[..last]);
      assert rows == rows[..last] + [rows[last]];
      assert rows[last] in rows;
    }
  }

  /** A product's header is that of its first row. */
  lemma {:induction false} HeaderIsFirst(rows: seq<Row>, id: string)
    requires id in IdsOf(rows)
    ensures exists i: nat :: FirstRow(rows, id, i) && HeaderOf(rows, id) == Some(rows[i].header)
  {
    var last := |rows| - 1;
    if id in IdsOf(rows[..last]) {
      HeaderIsFirst(rows[..last], id);
      var i: nat :| FirstRow(rows[..last], id, i) && HeaderOf(rows[..last], id) == Some(rows[..last][i].header);
      assert FirstRow(rows, id, i);
    } else {
      IdsExactly(rows[..last]);
      assert forall j | 0 <= j < last :: rows[j] == rows[..last][j] && rows[..last][j] in rows[..last];
      assert FirstRow(rows, id, last);
    }
  }

  /** Its copy has the locales of its rows, each from the last row in that locale. */
  lemma {:induction false} CopyIsLast(rows: seq<Row>, blocks: seq<StoryBlock>, id: string, locale: string)
    ensures locale in CopyOf(rows, blocks, id) <==> exists i: nat :: LastRow(rows, id, locale, i)
    ensures forall i: nat | LastRow(rows, id, locale, i) ::
              locale in CopyOf(rows, blocks, id)
              && CopyOf(rows, blocks, id)[locale]
                 == Copy(rows[i].text, rows[i].sku, rows[i].parcel, BlocksOf(blocks, id, locale))
  {
    if rows != [] {
      var last := |rows| - 1;
      CopyIsLast(rows[..last], blocks, id, locale);
      if rows[last].productId == id && rows[last].locale == locale {
        assert LastRow(rows, id, locale, last);
      } else {
        forall i: nat ensures LastRow(rows, id, locale, i) <==> LastRow(rows[..last], id, locale, i) {
          LastBefore(rows, id, locale, i);
        }
      }
    }
  }

  lemma LastBefore(rows: seq<Row>, id: string, locale: string, i: nat)
    requires rows != [] && !(rows[|rows| - 1].productId == id && rows[|rows| - 1].locale == locale)
    ensures LastRow(rows, id, locale, i) <==> LastRow(rows[..|rows| - 1], id, locale, i)
  {
    assert forall j | i < j < |rows| - 1 :: rows[..|rows| - 1][j] == rows[j];
  }

  lemma {:induction false} OrderOfAppearance(rows: seq<Row>, i: nat, j: nat, a: nat, b: nat)
    requires i < j < |IdsOf(rows)| && FirstRow(rows, IdsOf(rows)[i], a) && FirstRow(rows, IdsOf(rows)[j], b)
    ensures a < b
  {
    var last := |rows| - 1;
    var before := IdsOf(rows[..last]);
    FirstBefore(rows, before[i], a);
    if j < |before| {
      FirstBefore(rows, before[j], b);
      OrderOfAppearance(rows[..last], i, j, a, b);
    } else {
      IdsExactly(rows[..last]);
      assert forall k | 0 <= k < last :: rows[k] == rows[..last][k] && rows[..last][k] in rows[..last];
      assert b == last;
    }
  }

  lemma FirstBefore(rows: seq<Row>, id: string, a: nat)
    requires rows != [] && id in IdsOf(rows[..|rows| - 1]) && FirstRow(rows, id, a)
    ensures a < |rows| - 1 && FirstRow(rows[..|rows| - 1], id, a)
  {
    var before := rows[..|rows| - 1];
    HeaderIsFirst(before, id);
    var x: nat :| FirstRow(before, id, x);
    assert rows[x] == before[x];
  }

  // ----- The loops -----

  /** The key under which the loop files the story blocks. */
  function BlockKey(productId: string, locale: string): string {
    productId + ":" + locale
  }

  /** Product ids are UUIDs: without a colon in them the key does not mix up two products. */
  lemma BlockKeyInjective(a: string, x: string, b: string, y: string)
    requires ':' !in a && ':' !in b && BlockKey(a, x) == BlockKey(b, y)
    ensures a == b && x == y
  {
    var k := BlockKey(a, x);
    assert k[|a|] == ':' && k[|b|] == ':';
    assert |a| == |b|;
    assert k[..|a|] == a && k[..|b|] == b && k[|a| + 1..] == x && k[|b| + 1..] == y;
  }

  method GroupBlocks(blocks: seq<StoryBlock>) returns (byKey: map<string, seq<string>>)
    requires forall b | b in blocks :: ':' !in b.productId
    ensures forall id, locale | ':' !in id ::
              (if BlockKey(id, locale) in byKey then byKey[BlockKey(id, locale)] else []) == BlocksOf(blocks, id, locale)
  {
    byKey := map[];
    for n := 0 to |blocks|
      invariant forall id, locale | ':' !in id ::
                  (if BlockKey(id, locale) in byKey then byKey[BlockKey(id, locale)] else []) == BlocksOf(blocks[..n], id, locale)
    {
      var row := blocks[n];
      assert row in blocks;
      var key := BlockKey(row.productId, row.locale);
      var current := if key in byKey then byKey[key] else [];
      ghost var before := byKey;
      byKey := byKey[key := current + [row.body]];
      forall id, locale | ':' !in id
        ensures (if BlockKey(id, locale) in byKey then byKey[BlockKey(id, locale)] else []) == BlocksOf(blocks[..n + 1], id, locale)
      {
        assert blocks[..n + 1][..n] == blocks[..n];
        if BlockKey(id, locale) == key {
          BlockKeyInjective(id, locale, row.productId, row.locale);
        } else {
          assert !(id == row.productId && locale == row.locale);
        }
      }
    }
    assert blocks[..|blocks|] == blocks;
  }

  method GroupRows(rows: seq<Row>, blocks: seq<StoryBlock>) returns (products: seq<StoreProduct>)
    requires forall b | b in blocks :: ':' !in b.productId
    requires forall r | r in rows :: ':' !in r.productId
    ensures products == Grouped(rows, blocks)
  {
    var byKey := GroupBlocks(blocks);
    var order: seq<string>, byId: map<string, StoreProduct> := [], map[];
    for n := 0 to |rows|
      invariant order == IdsOf(rows[..n]) && (forall id :: id in byId <==> id in order)
      invariant forall id | id in byId :: byId[id] == GroupedProduct(rows[..n], blocks, id)
    {
      var row := rows[n];
      assert row in rows && rows[..n + 1][..n] == rows[..n];
      var product := if row.productId in byId then byId[row.productId] else StoreProduct(row.productId, row.header, map[]);
      NoCopyYet(rows[..n], blocks, row.productId);
      var key := BlockKey(row.productId, row.locale);
      var copy := Copy(row.text, row.sku, row.parcel, if key in byKey then byKey[key] else []);
      if row.productId !in byId {
        order := order + [row.productId];
      }
      byId := byId[row.productId := product.(copy := product.copy[row.locale := copy])];
    }
    assert rows[..|rows|] == rows;
    products := seq(|order|, i requires 0 <= i < |order| => assert order[i] in order; byId[order[i]]);
    assert forall i | 0 <= i < |order| :: order[i] in order;
  }

  lemma {:induction false} NoCopyYet(rows: seq<Row>, blocks: seq<StoryBlock>, id: string)
    ensures id !in IdsOf(rows) ==> CopyOf(rows, blocks, id) == map[]
  {
    if rows != [] {
      NoCopyYet(rows[..|rows| - 1], blocks, id);
    }
  }
}
