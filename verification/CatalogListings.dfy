/** What a save of categories or regions changes in their listings, told from its inputs alone. */
module CatalogListings {
  import opened Collections
  import opened CatalogTables

  ghost predicate SlugsDistinct(facets: seq<Facet>) {
    forall i, j | 0 <= i < j < |facets| :: facets[i].slug != facets[j].slug
  }

  /** The last input for a slug. */
  function LastFor(inputs: seq<FacetInput>, slug: string): Option<FacetInput> {
    if inputs == [] then None
    else if inputs[|inputs| - 1].slug == slug then Some(inputs[|inputs| - 1])
    else LastFor(inputs[..|inputs| - 1], slug)
  }

  predicate Says(f: Facet, input: FacetInput) {
    f.card == input.card && f.copy == f.copy["zh" := input.zh]["en" := input.en]
  }

  /** Of every slug among the inputs there is a row, and it says what the last input for the slug says. */
  predicate Restates(facets: seq<Facet>, inputs: seq<FacetInput>) {
    forall n | 0 <= n < |inputs| ::
      var (row, last) := (FindBySlug(facets, inputs[n].slug), LastFor(inputs, inputs[n].slug));
      row.Some? && last.Some? && Says(facets[row.value], last.value)
  }

  function After(f: Facet, inputs: seq<FacetInput>): Facet {
    match LastFor(inputs, f.slug)
    case Some(x) => f.(card := x.card, copy := f.copy["zh" := x.zh]["en" := x.en])
    case None => f
  }

  lemma {:induction false} LastForAny(inputs: seq<FacetInput>, slug: string)
    ensures LastFor(inputs, slug).Some? <==> exists n :: 0 <= n < |inputs| && inputs[n].slug == slug
  {
    if inputs != [] {
      LastForAny(inputs[..|inputs| - 1], slug);
    }
  }

  lemma StoredAt(facets: seq<Facet>, k: nat)
    requires SlugsDistinct(facets) && k < |facets|
    ensures FindBySlug(facets, facets[k].slug) == Some(k)
  {
    assert facets[k] in facets;
  }

  /** Every stored row says what the last input for its slug says; rows are added for the other slugs. */
  lemma {:induction false} SavedExactly(facets: seq<Facet>, inputs: seq<FacetInput>, ids: seq<string>)
    requires |ids| == |inputs| && SlugsDistinct(facets)
    ensures var saved := SaveFacets(facets, inputs, ids);
            && SlugsDistinct(saved) && |saved| >= |facets|
            && (forall k | 0 <= k < |facets| :: saved[k] == After(facets[k], inputs))
            && (forall k | |facets| <= k < |saved| :: saved[k].copy != map[])
            && (|saved| == |facets| <==> AllStored(facets, inputs))
  {
    if inputs != [] {
      var last := |inputs| - 1;
      SavedExactly(facets, inputs[..last], ids[..last]);
      var before := SaveFacets(facets, inputs[..last], ids[..last]);
      var input := inputs[last];
      UpsertedExactly(before, input, ids[last]);
      forall k | 0 <= k < |facets| ensures UpsertFacet(before, input, ids[last])[k] == After(facets[k], inputs) {
        WrittenTwice(facets[k], inputs);
      }
      if |before| == |facets| {
        SameSlugs(facets, before, input.slug);
      }
      AllStoredLast(facets, inputs);
    }
  }

  predicate AllStored(facets: seq<Facet>, inputs: seq<FacetInput>) {
    forall n | 0 <= n < |inputs| :: FindBySlug(facets, inputs[n].slug).Some?
  }

  lemma AllStoredLast(facets: seq<Facet>, inputs: seq<FacetInput>)
    requires inputs != []
    ensures AllStored(facets, inputs)
            <==> AllStored(facets, inputs[..|inputs| - 1]) && FindBySlug(facets, inputs[|inputs| - 1].slug).Some?
  {
    assert forall n | 0 <= n < |inputs| - 1 :: inputs[..|inputs| - 1][n] == inputs[n];
  }

  /** What an input writes does not depend on what the inputs before it wrote. */
  lemma WrittenTwice(f: Facet, inputs: seq<FacetInput>)
    requires inputs != []
    ensures var (before, x) := (After(f, inputs[..|inputs| - 1]), inputs[|inputs| - 1]);
            After(f, inputs)
            == if f.slug == x.slug then before.(card := x.card, copy := before.copy["zh" := x.zh]["en" := x.en]) else before
  {
    var (before, x) := (After(f, inputs[..|inputs| - 1]), inputs[|inputs| - 1]);
    assert f.copy["zh" := x.zh]["en" := x.en] == before.copy["zh" := x.zh]["en" := x.en];
  }

  lemma UpsertedExactly(facets: seq<Facet>, input: FacetInput, id: string)
    requires SlugsDistinct(facets)
    ensures var saved := UpsertFacet(facets, input, id);
            && SlugsDistinct(saved) && |saved| == |facets| + (if FindBySlug(facets, input.slug).Some? then 0 else 1)
            && (forall k | 0 <= k < |facets| ::
                  saved[k] == if facets[k].slug == input.slug
                              then facets[k].(card := input.card, copy := facets[k].copy["zh" := input.zh]["en" := input.en])
                              else facets[k])
            && (forall k | 0 <= k < |saved| :: saved[k].copy != map[] || (k < |facets| && saved[k] == facets[k]))
  {
    var saved := UpsertFacet(facets, input, id);
    assert forall k | 0 <= k < |facets| :: facets[k] in facets;
    forall k | 0 <= k < |saved| && !(k < |facets| && saved[k] == facets[k]) ensures saved[k].copy != map[] {
      assert "en" in saved[k].copy;
    }
  }

  /** An added row has one of the new ids and says what the last input for its slug says, in both languages and no others. */
  predicate AddedFrom(f: Facet, inputs: seq<FacetInput>, ids: seq<string>) {
    && f.id in ids
    && match LastFor(inputs, f.slug)
       case None => false
       case Some(x) => f.card == x.card && f.copy == map["zh" := x.zh, "en" := x.en]
  }

  /** And so does every row that a save adds. */
  lemma {:induction false} AddedExactly(facets: seq<Facet>, inputs: seq<FacetInput>, ids: seq<string>)
    requires |ids| == |inputs| && SlugsDistinct(facets)
    ensures var saved := SaveFacets(facets, inputs, ids);
            |saved| >= |facets| && forall k | |facets| <= k < |saved| :: AddedFrom(saved[k], inputs, ids)
  {
    if inputs != [] {
      var last := |inputs| - 1;
      var before := SaveFacets(facets, inputs[..last], ids[..last]);
      SavedExactly(facets, inputs[..last], ids[..last]);
      AddedExactly(facets, inputs[..last], ids[..last]);
      UpsertedExactly(before, inputs[last], ids[last]);
      forall k | |facets| <= k < |UpsertFacet(before, inputs[last], ids[last])|
        ensures AddedFrom(UpsertFacet(before, inputs[last], ids[last])[k], inputs, ids)
      {
        if k < |before| {
          AddedStays(before[k], inputs, ids);
        } else {
          assert ids[last] in ids;
        }
      }
    }
  }

  lemma AddedStays(f: Facet, inputs: seq<FacetInput>, ids: seq<string>)
    requires |ids| == |inputs| > 0 && AddedFrom(f, inputs[..|inputs| - 1], ids[..|ids| - 1])
    ensures var x := inputs[|inputs| - 1];
            AddedFrom(if f.slug == x.slug then f.(card := x.card, copy := f.copy["zh" := x.zh]["en" := x.en]) else f, inputs, ids)
  {
    assert forall id | id in ids[..|ids| - 1] :: id in ids;
  }

  lemma {:induction false} SameSlugs(a: seq<Facet>, b: seq<Facet>, slug: string)
    requires |a| == |b| && forall k | 0 <= k < |a| :: a[k].slug == b[k].slug
    ensures FindBySlug(a, slug) == FindBySlug(b, slug)
  {
    if a != [] && a[0].slug != slug {
      SameSlugs(a[1..], b[1..], slug);
    }
  }

  /** Listings only grow when copies are filled in, and are equal only if nothing was. */
  lemma {:induction false} ListedSame(a: seq<Facet>, b: seq<Facet>)
    requires |a| <= |b|
    requires forall k | 0 <= k < |b| :: b[k].copy != map[] || (k < |a| && a[k] == b[k])
    ensures |Listed(a)| <= |Listed(b)|
    ensures Listed(a) == Listed(b) <==> a == b
    decreases |b|
  {
    if b != [] {
      var last := |b| - 1;
      if |a| < |b| {
        ListedSame(a, b[..last]);
      } else {
        ListedSame(a[..last], b[..last]);
        LastSame(Listed(a[..last]), Listed(b[..last]), a[last], b[last]);
        assert a == a[..last] + [a[last]] && b == b[..last] + [b[last]];
      }
    }
  }

  lemma LastSame(x: seq<Facet>, y: seq<Facet>, f: Facet, g: Facet)
    requires |x| <= |y| && (g.copy != map[] || f == g)
    ensures var (x', y') := (x + if f.copy != map[] then [f] else [], y + if g.copy != map[] then [g] else []);
            |x'| <= |y'| && (x' == y' <==> x == y && f == g)
  {
    var x', y' := x + (if f.copy != map[] then [f] else []), y + (if g.copy != map[] then [g] else []);
    assert x + [] == x && y + [] == y;
    if x' == y' && g.copy != map[] {
      assert f.copy != map[] && |x| == |y|;
      assert x'[..|x|] == x && y'[..|y|] == y;
      assert x'[|x|] == f && y'[|y|] == g;
    }
  }

  /** A save leaves the listing as it is exactly if it restates the table. */
  lemma ListedExactly(facets: seq<Facet>, inputs: seq<FacetInput>, ids: seq<string>)
    requires |ids| == |inputs| && SlugsDistinct(facets)
    ensures Listed(SaveFacets(facets, inputs, ids)) == Listed(facets) <==> Restates(facets, inputs)
    ensures SaveFacets(facets, inputs, ids) == facets <==> Restates(facets, inputs)
  {
    var saved := SaveFacets(facets, inputs, ids);
    SavedExactly(facets, inputs, ids);
    forall k | 0 <= k < |saved| ensures saved[k].copy != map[] || (k < |facets| && facets[k] == saved[k]) {
      if k < |facets| && LastFor(inputs, facets[k].slug).Some? {
        assert "en" in saved[k].copy;
      }
    }
    ListedSame(facets, saved);
    forall n | 0 <= n < |inputs| ensures LastFor(inputs, inputs[n].slug).Some? {
      LastForAny(inputs, inputs[n].slug);
    }
    if Restates(facets, inputs) {
      forall k | 0 <= k < |facets| ensures saved[k] == facets[k] {
        LastForAny(inputs, facets[k].slug);
        StoredAt(facets, k);
      }
      assert saved == facets;
    }
    if saved == facets {
      forall n | 0 <= n < |inputs|
        ensures var (row, last) := (FindBySlug(facets, inputs[n].slug), LastFor(inputs, inputs[n].slug));
                row.Some? && last.Some? && Says(facets[row.value], last.value)
      {
        var k := FindBySlug(facets, inputs[n].slug).value;
        assert saved[k] == After(facets[k], inputs);
      }
    }
  }
}
