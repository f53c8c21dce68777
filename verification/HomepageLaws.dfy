/** What normalization and the edits of a homepage layout promise, one by one and over every sequence of edits. */
module HomepageLaws {
  import opened Collections
  import opened HomepageText
  import opened HomepageLayout

  // ----- The stable sort -----

  predicate Sorted(ms: seq<Module>) {
    forall i, j | 0 <= i < j < |ms| :: ms[i].sortOrder <= ms[j].sortOrder
  }

  /** The modules of one sort order, in their order. */
  function AtOrder(ms: seq<Module>, k: real): seq<Module> {
    if ms == [] then []
    else AtOrder(ms[..|ms| - 1], k) + if ms[|ms| - 1].sortOrder == k then [ms[|ms| - 1]] else []
  }

  lemma AtOrderMore(ms: seq<Module>, m: Module, k: real)
    ensures AtOrder(ms + [m], k) == AtOrder(ms, k) + if m.sortOrder == k then [m] else []
  {
  }

  lemma {:induction false} NoneAbove(ms: seq<Module>, k: real)
    ensures AtOrder(ms, k) == [] <==> forall i | 0 <= i < |ms| :: ms[i].sortOrder != k
  {
    if ms != [] {
      NoneAbove(ms[..|ms| - 1], k);
      assert |AtOrder(ms, k)| == |AtOrder(ms[..|ms| - 1], k)| + if ms[|ms| - 1].sortOrder == k then 1 else 0;
    }
  }

  lemma {:induction false} InsertSorts(ms: seq<Module>, m: Module)
    requires Sorted(ms)
    ensures Sorted(InsertStable(ms, m))
    ensures forall i | 0 <= i <= |ms| :: InsertStable(ms, m)[i] == m || exists j :: 0 <= j < |ms| && InsertStable(ms, m)[i] == ms[j]
  {
    if ms != [] && ms[|ms| - 1].sortOrder > m.sortOrder {
      InsertSorts(ms[..|ms| - 1], m);
    }
  }

  lemma {:induction false} InsertKeepsOrders(ms: seq<Module>, m: Module, k: real)
    ensures AtOrder(InsertStable(ms, m), k) == AtOrder(ms + [m], k)
  {
    AtOrderMore(ms, m, k);
    if ms != [] && ms[|ms| - 1].sortOrder > m.sortOrder {
      var last := |ms| - 1;
      InsertKeepsOrders(ms[..last], m, k);
      AtOrderMore(ms[..last], m, k);
      AtOrderMore(InsertStable(ms[..last], m), ms[last], k);
    }
  }

  /** The sort is sorted and keeps the modules of every sort order, in their order: it is a stable permutation. */
  lemma {:induction false} StableSortSorts(ms: seq<Module>)
    ensures Sorted(StableSort(ms))
    ensures SameOrders(StableSort(ms), ms)
  {
    if ms != [] {
      var last := |ms| - 1;
      StableSortSorts(ms[..last]);
      InsertSorts(StableSort(ms[..last]), ms[last]);
      forall k: real ensures AtOrder(StableSort(ms), k) == AtOrder(ms, k) {
        InsertKeepsOrders(StableSort(ms[..last]), ms[last], k);
        AtOrderMore(StableSort(ms[..last]), ms[last], k);
      }
    }
  }

  ghost predicate SameOrders(a: seq<Module>, b: seq<Module>) {
    forall k: real :: AtOrder(a, k) == AtOrder(b, k)
  }

  lemma HighestOrder(a: seq<Module>, b: seq<Module>)
    requires Sorted(a) && Sorted(b) && SameOrders(a, b) && a != []
    ensures b != [] && a[|a| - 1].sortOrder <= b[|b| - 1].sortOrder
  {
    var k := a[|a| - 1].sortOrder;
    NoneAbove(a, k);
    NoneAbove(b, k);
    assert AtOrder(a, k) == AtOrder(b, k);
  }

  lemma SameInits(a: seq<Module>, b: seq<Module>)
    requires SameOrders(a, b) && a != [] && b != [] && a[|a| - 1].sortOrder == b[|b| - 1].sortOrder
    ensures a[|a| - 1] == b[|b| - 1] && SameOrders(a[..|a| - 1], b[..|b| - 1])
  {
    var (c, d) := (a[..|a| - 1], b[..|b| - 1]);
    var (x, y) := (a[|a| - 1], b[|b| - 1]);
    assert AtOrder(a, x.sortOrder) == AtOrder(c, x.sortOrder) + [x];
    assert AtOrder(b, x.sortOrder) == AtOrder(d, x.sortOrder) + [y];
    assert AtOrder(a, x.sortOrder) == AtOrder(b, x.sortOrder);
    assert (AtOrder(c, x.sortOrder) + [x])[..|AtOrder(a, x.sortOrder)| - 1] == AtOrder(c, x.sortOrder);
    assert (AtOrder(d, x.sortOrder) + [y])[..|AtOrder(a, x.sortOrder)| - 1] == AtOrder(d, x.sortOrder);
    assert AtOrder(c, x.sortOrder) == AtOrder(d, x.sortOrder);
    forall k: real ensures AtOrder(c, k) == AtOrder(d, k) {
      assert AtOrder(a, k) == AtOrder(b, k);
      if k != x.sortOrder {
        assert AtOrder(c, k) == AtOrder(c, k) + [] == AtOrder(a, k);
        assert AtOrder(d, k) == AtOrder(d, k) + [] == AtOrder(b, k);
      }
    }
  }

  /** And it is the only such arrangement. */
  lemma {:induction false} StableSortUnique(a: seq<Module>, b: seq<Module>)
    requires Sorted(a) && Sorted(b) && SameOrders(a, b)
    ensures a == b
  {
    if a != [] {
      HighestOrder(a, b);
      HighestOrder(b, a);
      SameInits(a, b);
      StableSortUnique(a[..|a| - 1], b[..|b| - 1]);
      assert a == a[..|a| - 1] + [a[|a| - 1]] && b == b[..|b| - 1] + [b[|b| - 1]];
    } else if b != [] {
      HighestOrder(b, a);
    }
  }

  lemma SortedStays(ms: seq<Module>)
    requires Sorted(ms)
    ensures StableSort(ms) == ms
  {
  }

  // ----- When normalization fails -----

  predicate IdsDistinct(ms: seq<Module>) {
    forall i, j | 0 <= i < j < |ms| :: ms[i].id != ms[j].id
  }

  predicate Acceptable(ms: seq<Module>) {
    forall i | 0 <= i < |ms| :: CleanContent(ms[i].content).Some?
  }

  lemma {:induction false} InsertedIds(ms: seq<Module>, m: Module)
    ensures forall id :: HasId(InsertStable(ms, m), id) <==> HasId(ms, id) || m.id == id
    ensures IdsDistinct(InsertStable(ms, m)) <==> IdsDistinct(ms) && !HasId(ms, m.id)
    ensures Acceptable(InsertStable(ms, m)) <==> Acceptable(ms) && CleanContent(m.content).Some?
  {
    if ms != [] && ms[|ms| - 1].sortOrder > m.sortOrder {
      var last := |ms| - 1;
      InsertedIds(ms[..last], m);
      LastId(ms);
      assert ms == ms[..last] + [ms[last]];
      var r := InsertStable(ms, m);
      assert r[..last + 1] == InsertStable(ms[..last], m);
      LastId(r);
    } else {
      var r := ms + [m];
      assert r[..|ms|] == ms;
      LastId(r);
    }
  }

  lemma LastId(ms: seq<Module>)
    requires ms != []
    ensures var last := |ms| - 1;
            && (forall id :: HasId(ms, id) <==> HasId(ms[..last], id) || ms[last].id == id)
            && (IdsDistinct(ms) <==> IdsDistinct(ms[..last]) && !HasId(ms[..last], ms[last].id))
            && (Acceptable(ms) <==> Acceptable(ms[..last]) && CleanContent(ms[last].content).Some?)
  {
  }

  lemma {:induction false} SortedIds(ms: seq<Module>)
    ensures forall id :: HasId(StableSort(ms), id) <==> HasId(ms, id)
    ensures IdsDistinct(StableSort(ms)) <==> IdsDistinct(ms)
    ensures Acceptable(StableSort(ms)) <==> Acceptable(ms)
  {
    if ms != [] {
      SortedIds(ms[..|ms| - 1]);
      LastId(ms);
      InsertedIds(StableSort(ms[..|ms| - 1]), ms[|ms| - 1]);
    }
  }

  lemma {:induction false} NormalizeAllExactly(ms: seq<Module>)
    ensures NormalizeAll(ms).1.None? <==> IdsDistinct(ms) && Acceptable(ms)
    ensures NormalizeAll(ms).1.None? ==>
              forall i | 0 <= i < |ms| ::
                CleanContent(ms[i].content).Some?
                && NormalizeAll(ms).0[i] == ms[i].(sortOrder := Position(i), content := CleanContent(ms[i].content).value)
    ensures NormalizeAll(ms).1.Some? ==> NormalizeAll(ms).1.value == DuplicateId || NormalizeAll(ms).1.value == RejectedReference
  {
    if ms != [] {
      NormalizeAllExactly(ms[..|ms| - 1]);
      LastId(ms);
    }
  }

  /**
   * Normalization fails exactly on a repeated id or a rejected resource reference. Otherwise it is the stable sort,
   * numbered in tens, each module with its content cleaned.
   */
  lemma NormalizeExactly(l: Layout)
    ensures NormalizeHomepageLayout(l).Ok? <==> IdsDistinct(l.modules) && Acceptable(l.modules)
    ensures NormalizeHomepageLayout(l).Ok? ==>
              var r, sorted := NormalizeHomepageLayout(l).layout, StableSort(l.modules);
              && |r.modules| == |l.modules| && r == l.(version := 1, modules := r.modules)
              && forall i | 0 <= i < |sorted| ::
                   CleanContent(sorted[i].content).Some?
                   && r.modules[i] == sorted[i].(sortOrder := Position(i), content := CleanContent(sorted[i].content).value)
  {
    SortedIds(l.modules);
    NormalizeAllExactly(StableSort(l.modules));
  }

  // ----- Idempotence -----

  lemma {:induction false} CleanLinksTwice(links: seq<Link>)
    ensures CleanLinks(CleanLinks(links)) == CleanLinks(links)
  {
    if links != [] {
      CleanLinksTwice(links[1..]);
      CleanTextTwice(links[0].caption.en);
      CleanTextTwice(links[0].caption.zh);
      assert CleanLinks(links)[1..] == CleanLinks(links[1..]);
    }
  }

  lemma CleanItemTwice(item: Item)
    ensures CleanItem(item).Some? ==> CleanItem(CleanItem(item).value) == CleanItem(item)
  {
    NormalizeUrlTwice(item.imageUrl);
    CleanTextTwice(item.title.en);
    CleanTextTwice(item.title.zh);
    CleanTextTwice(item.body.en);
    CleanTextTwice(item.body.zh);
    if item.author.Some? {
      CleanTextTwice(item.author.value);
    }
  }

  lemma {:induction false} CleanItemsTwice(items: seq<Item>)
    ensures CleanItems(items).Some? ==> CleanItems(CleanItems(items).value) == CleanItems(items)
  {
    if items != [] && CleanItems(items).Some? {
      CleanItemTwice(items[0]);
      CleanItemsTwice(items[1..]);
      assert CleanItems(items).value[1..] == CleanItems(items[1..]).value;
    }
  }

  lemma CleanOptionalTwice(t: Option<Text>)
    ensures CleanOptional(CleanOptional(t)) == CleanOptional(t)
  {
    if t.Some? {
      CleanTextTwice(t.value.en);
      CleanTextTwice(t.value.zh);
    }
  }

  lemma CleanContentTwice(c: Content)
    ensures CleanContent(c).Some? ==> CleanContent(CleanContent(c).value) == CleanContent(c)
  {
    if CleanContent(c).Some? {
      CleanOptionalTwice(c.eyebrow);
      CleanOptionalTwice(c.title);
      CleanOptionalTwice(c.body);
      CleanOptionalTwice(c.secondaryBody);
      CleanOptionalTwice(c.ctaLabel);
      NormalizeUrlTwice(c.imageUrl);
      NormalizeUrlTwice(c.mobileImageUrl);
      if c.links.Some? {
        CleanLinksTwice(c.links.value);
      }
      if c.items.Some? {
        CleanItemsTwice(c.items.value);
      }
    }
  }

  predicate Clean(ms: seq<Module>) {
    forall i | 0 <= i < |ms| :: CleanContent(ms[i].content) == Some(ms[i].content)
  }

  predicate Numbered(ms: seq<Module>) {
    forall i | 0 <= i < |ms| :: ms[i].sortOrder == Position(i)
  }

  /** A layout as normalization leaves it. */
  predicate Normal(l: Layout) {
    l.version == 1 && Numbered(l.modules) && IdsDistinct(l.modules) && Clean(l.modules)
  }

  /** Clean modules in order are only numbered anew. */
  lemma NormalizeRenumbers(l: Layout)
    requires IdsDistinct(l.modules) && Clean(l.modules) && Sorted(l.modules)
    ensures NormalizeHomepageLayout(l) == Ok(l.(version := 1, modules := Renumbered(l.modules)))
    ensures Normal(l.(version := 1, modules := Renumbered(l.modules)))
  {
    SortedStays(l.modules);
    NormalizeExactly(l);
    assert NormalizeHomepageLayout(l).layout.modules == Renumbered(l.modules);
  }

  /** The normal layouts are the fixed points, and normalization reaches one in a single step. */
  lemma NormalizeIsIdempotent(l: Layout)
    ensures Normal(l) <==> NormalizeHomepageLayout(l) == Ok(l)
    ensures NormalizeHomepageLayout(l).Ok? ==>
              var r := NormalizeHomepageLayout(l).layout;
              Normal(r) && NormalizeHomepageLayout(r) == Ok(r)
  {
    NormalizeExactly(l);
    if NormalizeHomepageLayout(l).Ok? {
      var r, sorted := NormalizeHomepageLayout(l).layout, StableSort(l.modules);
      SortedIds(l.modules);
      forall i | 0 <= i < |r.modules| ensures CleanContent(r.modules[i].content) == Some(r.modules[i].content) {
        CleanContentTwice(sorted[i].content);
      }
      NormalIsFixed(r);
    }
    if Normal(l) {
      NormalIsFixed(l);
    }
  }

  lemma NormalIsFixed(l: Layout)
    requires Normal(l)
    ensures NormalizeHomepageLayout(l) == Ok(l)
  {
    NormalizeRenumbers(l);
    assert Renumbered(l.modules) == l.modules;
  }

  // ----- The edits -----

  lemma {:induction false} FindExactly(ms: seq<Module>, id: string)
    ensures FindIndex(ms, id).Some? <==> HasId(ms, id)
  {
  }

  lemma FoundAt(ms: seq<Module>, id: string, i: nat)
    requires IdsDistinct(ms) && i < |ms| && ms[i].id == id
    ensures FindIndex(ms, id) == Some(i)
  {
  }

  lemma CopySorted(ms: seq<Module>, s: nat, copy: Module)
    requires Numbered(ms) && s < |ms| && copy.sortOrder == ms[s].sortOrder
    ensures Sorted(Inserted(ms, s + 1, copy))
  {
  }

  lemma CopyClean(ms: seq<Module>, s: nat, copy: Module)
    requires Clean(ms) && s < |ms| && copy.content == ms[s].content
    ensures Clean(Inserted(ms, s + 1, copy))
  {
  }

  lemma DuplicateAt(l: Layout, s: nat, copy: Module)
    requires Normal(l) && s < |l.modules| && copy == l.modules[s].(id := copy.id) && !HasId(l.modules, copy.id)
    ensures var ms := Inserted(l.modules, s + 1, copy);
            && NormalizeHomepageLayout(l.(modules := ms)) == Ok(l.(modules := Renumbered(ms)))
            && Normal(l.(modules := Renumbered(ms)))
            && Renumbered(ms)[s] == l.modules[s] && Renumbered(ms)[s + 1] == copy.(sortOrder := Position(s + 1))
  {
    CopySorted(l.modules, s, copy);
    CopyClean(l.modules, s, copy);
    NewIdDistinct(l.modules, s + 1, copy);
    NormalizeRenumbers(l.(modules := Inserted(l.modules, s + 1, copy)));
    InsertedAt(l.modules, s + 1, copy, s);
  }

  /** A duplicate is accepted exactly for a present id and a new one, and lands right behind its source. */
  lemma DuplicateExactly(l: Layout, id: string, nextId: string)
    requires Normal(l)
    ensures var r := DuplicateHomepageModule(l, id, nextId);
            && (r.Ok? <==> HasId(l.modules, id) && !HasId(l.modules, nextId))
            && (r.Ok? ==>
                  var s := FindIndex(l.modules, id).value;
                  && Normal(r.layout)
                  && r == Ok(l.(modules := Renumbered(Inserted(l.modules, s + 1, l.modules[s].(id := nextId)))))
                  && r.layout.modules[s] == l.modules[s]
                  && r.layout.modules[s + 1] == l.modules[s].(id := nextId, sortOrder := Position(s + 1)))
  {
    FindExactly(l.modules, id);
    if HasId(l.modules, id) && !HasId(l.modules, nextId) {
      var s := FindIndex(l.modules, id).value;
      DuplicateAt(l, s, l.modules[s].(id := nextId));
    }
  }

  lemma NewIdDistinct(ms: seq<Module>, i: nat, m: Module)
    requires IdsDistinct(ms) && i <= |ms| && !HasId(ms, m.id)
    ensures IdsDistinct(Inserted(ms, i, m))
  {
  }

  lemma WithoutDistinct(ms: seq<Module>, i: nat)
    requires IdsDistinct(ms) && i < |ms|
    ensures IdsDistinct(DropAt(ms, i)) && !HasId(DropAt(ms, i), ms[i].id)
    ensures forall id :: HasId(DropAt(ms, i), id) <==> HasId(ms, id) && id != ms[i].id
  {
    var r := DropAt(ms, i);
    forall j | 0 <= j < |r| ensures r[j] == ms[if j < i then j else j + 1] {
    }
    forall id ensures HasId(r, id) <==> HasId(ms, id) && id != ms[i].id {
      if HasId(ms, id) && id != ms[i].id {
        var j :| 0 <= j < |ms| && ms[j].id == id;
        assert r[if j < i then j else j - 1].id == id;
      }
      if HasId(r, id) {
        var j :| 0 <= j < |r| && r[j].id == id;
        assert ms[if j < i then j else j + 1].id == id;
      }
    }
  }

  lemma RenumberedIsSorted(ms: seq<Module>)
    ensures Sorted(Renumbered(ms)) && Renumbered(Renumbered(ms)) == Renumbered(ms)
    ensures IdsDistinct(Renumbered(ms)) <==> IdsDistinct(ms)
    ensures Clean(Renumbered(ms)) <==> Clean(ms)
  {
  }

  /** A move is accepted exactly for two different present ids. */
  lemma MoveAccepted(l: Layout, id: string, beforeId: string)
    requires Normal(l)
    ensures var s := FindIndex(l.modules, id);
            (s.Some? && FindIndex(DropAt(l.modules, s.value), beforeId).Some?)
            <==> HasId(l.modules, id) && HasId(l.modules, beforeId) && id != beforeId
  {
    FindExactly(l.modules, id);
    if HasId(l.modules, id) {
      var s := FindIndex(l.modules, id).value;
      WithoutDistinct(l.modules, s);
      FindExactly(DropAt(l.modules, s), beforeId);
    }
  }

  lemma MoveRenumbers(l: Layout, s: nat, t: nat)
    requires Normal(l) && s < |l.modules| && t < |l.modules|
    ensures var ms := Inserted(DropAt(l.modules, s), t, l.modules[s]);
            && NormalizeHomepageLayout(l.(modules := Renumbered(ms))) == Ok(l.(modules := Renumbered(ms)))
            && Normal(l.(modules := Renumbered(ms)))
  {
    var ms := Inserted(DropAt(l.modules, s), t, l.modules[s]);
    WithoutDistinct(l.modules, s);
    NewIdDistinct(DropAt(l.modules, s), t, l.modules[s]);
    assert Clean(ms);
    RenumberedIsSorted(ms);
    NormalizeRenumbers(l.(modules := Renumbered(ms)));
  }

  lemma InsertedAt(rest: seq<Module>, t: nat, m: Module, i: nat)
    requires t <= |rest| && i <= |rest|
    ensures Inserted(rest, t, m)[i] == if i < t then rest[i] else if i == t then m else rest[i - 1]
  {
  }

  lemma WithoutAt(ms: seq<Module>, t: nat, i: nat)
    requires t < |ms| && i < |ms| - 1
    ensures DropAt(ms, t)[i] == ms[if i < t then i else i + 1]
  {
  }

  lemma WithoutInsertedAt(rest: seq<Module>, t: nat, m: Module, i: nat)
    requires t <= |rest| && i < |rest|
    ensures Renumbered(DropAt(Renumbered(Inserted(rest, t, m)), t))[i] == rest[i].(sortOrder := Position(i))
  {
    WithoutAt(Renumbered(Inserted(rest, t, m)), t, i);
    InsertedAt(rest, t, m, if i < t then i else i + 1);
  }

  lemma WithoutInserted(rest: seq<Module>, t: nat, m: Module)
    requires t <= |rest|
    ensures Renumbered(DropAt(Renumbered(Inserted(rest, t, m)), t)) == Renumbered(rest)
    ensures t < |rest| ==> Inserted(rest, t, m)[t + 1] == rest[t]
  {
    var w := Renumbered(DropAt(Renumbered(Inserted(rest, t, m)), t));
    forall i | 0 <= i < |rest| ensures w[i] == Renumbered(rest)[i] {
      WithoutInsertedAt(rest, t, m, i);
    }
    SameModules(w, Renumbered(rest));
  }

  lemma SameModules(a: seq<Module>, b: seq<Module>)
    requires |a| == |b| && forall i | 0 <= i < |a| :: a[i] == b[i]
    ensures a == b
  {
  }

  /**
   * The moved module then stands right before the target, and the other modules are as they were without it before.
   */
  lemma MoveExactly(l: Layout, id: string, beforeId: string)
    requires Normal(l)
    ensures var r := MoveHomepageModule(l, id, beforeId);
            && (r.Ok? <==> HasId(l.modules, id) && HasId(l.modules, beforeId) && id != beforeId)
            && (r.Ok? ==> Normal(r.layout) && MovedBefore(l, r.layout, id, beforeId))
  {
    MoveAccepted(l, id, beforeId);
    var s := FindIndex(l.modules, id);
    if s.Some? {
      var rest := DropAt(l.modules, s.value);
      var t := FindIndex(rest, beforeId);
      if t.Some? {
        MoveRenumbers(l, s.value, t.value);
        WithoutInserted(rest, t.value, l.modules[s.value]);
      }
    }
  }

  ghost predicate MovedBefore(l: Layout, r: Layout, id: string, beforeId: string) {
    exists s: nat, t: nat ::
      && s < |l.modules| && l.modules[s].id == id && t + 1 < |r.modules| == |l.modules|
      && r == l.(modules := Renumbered(Inserted(DropAt(l.modules, s), t, l.modules[s])))
      && r.modules[t] == l.modules[s].(sortOrder := Position(t)) && r.modules[t + 1].id == beforeId
      && Renumbered(DropAt(r.modules, t)) == Renumbered(DropAt(l.modules, s))
  }

  lemma {:induction false} DroppingAbsent(ms: seq<Module>, id: string)
    requires forall i | 0 <= i < |ms| :: ms[i].id != id
    ensures Dropping(ms, id) == ms
  {
    if ms != [] {
      DroppingAbsent(ms[..|ms| - 1], id);
      assert ms == ms[..|ms| - 1] + [ms[|ms| - 1]];
    }
  }

  lemma WithoutInit(ms: seq<Module>, i: nat)
    requires i < |ms| - 1
    ensures DropAt(ms, i) == DropAt(ms[..|ms| - 1], i) + [ms[|ms| - 1]]
  {
  }

  /** With distinct ids, dropping an id takes out one module. */
  lemma {:induction false} DroppingIsWithout(ms: seq<Module>, i: nat)
    requires IdsDistinct(ms) && i < |ms|
    ensures Dropping(ms, ms[i].id) == DropAt(ms, i)
  {
    var last := |ms| - 1;
    if i < last {
      assert ms[..last][i] == ms[i];
      DroppingIsWithout(ms[..last], i);
      WithoutInit(ms, i);
    } else {
      DroppingAbsent(ms[..last], ms[last].id);
      assert ms[last + 1..] == [] && ms[..last] + [] == ms[..last];
    }
  }

  /** A removal is accepted exactly for a present module that is neither header nor footer. */
  lemma RemoveExactly(l: Layout, id: string)
    requires Normal(l)
    ensures var r, s := RemoveHomepageModule(l, id), FindIndex(l.modules, id);
            && (r.Ok? <==> s.Some? && l.modules[s.value].kind != Header && l.modules[s.value].kind != Footer)
            && (r.Ok? ==> Normal(r.layout) && r == Ok(l.(modules := Renumbered(DropAt(l.modules, s.value)))))
  {
    var s := FindIndex(l.modules, id);
    if s.Some? {
      DroppingIsWithout(l.modules, s.value);
      WithoutReady(l, s.value);
      NormalizeRenumbers(l.(modules := DropAt(l.modules, s.value)));
    }
  }

  lemma WithoutReady(l: Layout, s: nat)
    requires Normal(l) && s < |l.modules|
    ensures var ms := DropAt(l.modules, s); IdsDistinct(ms) && Clean(ms) && Sorted(ms)
  {
    var ms := DropAt(l.modules, s);
    WithoutDistinct(l.modules, s);
    forall i | 0 <= i < |ms| ensures ms[i] == l.modules[if i < s then i else i + 1] {
      WithoutAt(l.modules, s, i);
    }
  }

  lemma WithoutCopy(ms: seq<Module>, s: nat, m: Module)
    requires Numbered(ms) && s < |ms|
    ensures Renumbered(DropAt(Renumbered(Inserted(ms, s + 1, m)), s + 1)) == ms
  {
    WithoutInserted(ms, s + 1, m);
    assert Renumbered(ms) == ms;
  }

  /** Removing the duplicate gives back the layout. */
  lemma RemoveUndoesDuplicate(l: Layout, id: string, nextId: string)
    requires Normal(l) && DuplicateHomepageModule(l, id, nextId).Ok?
    ensures FindIndex(l.modules, id).Some?
    ensures var m := l.modules[FindIndex(l.modules, id).value];
            m.kind != Header && m.kind != Footer ==>
              RemoveHomepageModule(DuplicateHomepageModule(l, id, nextId).layout, nextId) == Ok(l)
  {
    DuplicateExactly(l, id, nextId);
    var s := FindIndex(l.modules, id).value;
    if l.modules[s].kind != Header && l.modules[s].kind != Footer {
      var copy := l.modules[s].(id := nextId);
      RemoveAt(DuplicateHomepageModule(l, id, nextId).layout, nextId, s + 1);
      WithoutCopy(l.modules, s, copy);
    }
  }

  lemma RemoveAt(l: Layout, id: string, i: nat)
    requires Normal(l) && i < |l.modules| && l.modules[i].id == id && l.modules[i].kind != Header && l.modules[i].kind != Footer
    ensures RemoveHomepageModule(l, id) == Ok(l.(modules := Renumbered(DropAt(l.modules, i))))
  {
    FoundAt(l.modules, id, i);
    RemoveExactly(l, id);
  }

  // ----- Sequences of edits -----

  datatype Edit =
    | DuplicateModule(id: string, nextId: string)
    | MoveModule(id: string, beforeId: string)
    | RemoveModule(id: string)
    | ToggleModule(id: string, enabled: bool)

  function Edited(l: Layout, e: Edit): Result {
    match e
    case DuplicateModule(id, nextId) => DuplicateHomepageModule(l, id, nextId)
    case MoveModule(id, beforeId) => MoveHomepageModule(l, id, beforeId)
    case RemoveModule(id) => RemoveHomepageModule(l, id)
    case ToggleModule(id, enabled) => ToggleHomepageModule(l, id, enabled)
  }

  /** A refused edit leaves the layout as it is. */
  function EditAll(l: Layout, es: seq<Edit>): Layout
    decreases |es|
  {
    if es == [] then l
    else
      var r := Edited(l, es[0]);
      EditAll(if r.Ok? then r.layout else l, es[1..])
  }

  function Count(ms: seq<Module>, kind: ModuleType): nat {
    if ms == [] then 0 else Count(ms[..|ms| - 1], kind) + if ms[|ms| - 1].kind == kind then 1 else 0
  }

  lemma {:induction false} CountAppend(a: seq<Module>, b: seq<Module>, kind: ModuleType)
    ensures Count(a + b, kind) == Count(a, kind) + Count(b, kind)
  {
    if b == [] {
      assert a + b == a;
    } else {
      assert (a + b)[..|a + b| - 1] == a + b[..|b| - 1];
      CountAppend(a, b[..|b| - 1], kind);
    }
  }

  lemma {:induction false} CountByKind(a: seq<Module>, b: seq<Module>, kind: ModuleType)
    requires |a| == |b| && forall i | 0 <= i < |a| :: a[i].kind == b[i].kind
    ensures Count(a, kind) == Count(b, kind)
  {
    if a != [] {
      CountByKind(a[..|a| - 1], b[..|b| - 1], kind);
    }
  }

  lemma CountOne(m: Module, kind: ModuleType)
    ensures Count([m], kind) == if m.kind == kind then 1 else 0
  {
  }

  lemma CountInserted(ms: seq<Module>, i: nat, m: Module, kind: ModuleType)
    requires i <= |ms|
    ensures Count(Renumbered(Inserted(ms, i, m)), kind) == Count(ms, kind) + if m.kind == kind then 1 else 0
  {
    CountByKind(Renumbered(Inserted(ms, i, m)), Inserted(ms, i, m), kind);
    CountAppend(ms[..i] + [m], ms[i..], kind);
    CountAppend(ms[..i], [m], kind);
    CountAppend(ms[..i], ms[i..], kind);
    CountOne(m, kind);
    assert ms[..i] + ms[i..] == ms;
  }

  lemma CountWithout(ms: seq<Module>, i: nat, kind: ModuleType)
    requires i < |ms|
    ensures Count(ms, kind) == Count(DropAt(ms, i), kind) + if ms[i].kind == kind then 1 else 0
  {
    CountInserted(DropAt(ms, i), i, ms[i], kind);
    assert Inserted(DropAt(ms, i), i, ms[i]) == ms;
    CountByKind(Renumbered(ms), ms, kind);
  }

  lemma DuplicateCounts(l: Layout, id: string, nextId: string, kind: ModuleType)
    requires Normal(l) && DuplicateHomepageModule(l, id, nextId).Ok?
    ensures Count(DuplicateHomepageModule(l, id, nextId).layout.modules, kind) >= Count(l.modules, kind)
  {
    DuplicateExactly(l, id, nextId);
    var s := FindIndex(l.modules, id).value;
    CountInserted(l.modules, s + 1, l.modules[s].(id := nextId), kind);
  }

  lemma MoveCounts(l: Layout, id: string, beforeId: string, kind: ModuleType)
    requires Normal(l) && MoveHomepageModule(l, id, beforeId).Ok?
    ensures Count(MoveHomepageModule(l, id, beforeId).layout.modules, kind) == Count(l.modules, kind)
  {
    MoveExactly(l, id, beforeId);
    var r := MoveHomepageModule(l, id, beforeId).layout;
    var s: nat, t: nat :| s < |l.modules| && t + 1 < |r.modules| == |l.modules|
                          && r == l.(modules := Renumbered(Inserted(DropAt(l.modules, s), t, l.modules[s])));
    CountInserted(DropAt(l.modules, s), t, l.modules[s], kind);
    CountWithout(l.modules, s, kind);
  }

  lemma RemoveCounts(l: Layout, id: string, kind: ModuleType)
    requires Normal(l) && RemoveHomepageModule(l, id).Ok? && (kind == Header || kind == Footer)
    ensures Count(RemoveHomepageModule(l, id).layout.modules, kind) == Count(l.modules, kind)
  {
    RemoveExactly(l, id);
    var s := FindIndex(l.modules, id).value;
    CountWithout(l.modules, s, kind);
    CountByKind(Renumbered(DropAt(l.modules, s)), DropAt(l.modules, s), kind);
  }

  lemma ToggleExactly(l: Layout, id: string, enabled: bool, kind: ModuleType)
    requires Normal(l) && HasId(l.modules, id)
    ensures var r := ToggleHomepageModule(l, id, enabled).layout;
            && Normal(r) && Count(r.modules, kind) == Count(l.modules, kind) && |r.modules| == |l.modules|
            && forall i | 0 <= i < |l.modules| ::
                 r.modules[i] == if l.modules[i].id == id then l.modules[i].(enabled := enabled) else l.modules[i]
  {
    ToggleRows(l, id, enabled);
    CountByKind(ToggleHomepageModule(l, id, enabled).layout.modules, l.modules, kind);
    ToggledNormal(l, ToggleHomepageModule(l, id, enabled).layout);
  }

  lemma ToggleRows(l: Layout, id: string, enabled: bool)
    requires HasId(l.modules, id)
    ensures var r := ToggleHomepageModule(l, id, enabled);
            && r.Ok? && r.layout == l.(modules := r.layout.modules) && |r.layout.modules| == |l.modules|
            && forall i | 0 <= i < |l.modules| ::
                 r.layout.modules[i] == if l.modules[i].id == id then l.modules[i].(enabled := enabled) else l.modules[i]
  {
  }

  lemma ToggledNormal(l: Layout, r: Layout)
    requires Normal(l) && r == l.(modules := r.modules) && |r.modules| == |l.modules|
    requires forall i | 0 <= i < |l.modules| :: r.modules[i] == l.modules[i].(enabled := r.modules[i].enabled)
    ensures Normal(r)
  {
  }

  /** One successful edit keeps the layout normal and every header and footer. */
  lemma EditKeeps(l: Layout, e: Edit, kind: ModuleType)
    requires Normal(l) && Edited(l, e).Ok? && (kind == Header || kind == Footer)
    ensures Normal(Edited(l, e).layout)
    ensures Count(Edited(l, e).layout.modules, kind) >= Count(l.modules, kind)
  {
    match e
    case DuplicateModule(id, nextId) =>
      DuplicateExactly(l, id, nextId);
      DuplicateCounts(l, id, nextId, kind);
    case MoveModule(id, beforeId) =>
      MoveExactly(l, id, beforeId);
      MoveCounts(l, id, beforeId, kind);
    case RemoveModule(id) =>
      RemoveExactly(l, id);
      RemoveCounts(l, id, kind);
    case ToggleModule(id, enabled) =>
      ToggleExactly(l, id, enabled, kind);
  }

  /** After any sequence of edits ids are distinct, positions are numbered in tens, and no header or footer was lost. */
  lemma {:induction false} EditsKeep(l: Layout, es: seq<Edit>, kind: ModuleType)
    requires Normal(l) && (kind == Header || kind == Footer)
    ensures Normal(EditAll(l, es)) && Count(EditAll(l, es).modules, kind) >= Count(l.modules, kind)
    decreases |es|
  {
    if es != [] {
      var r := Edited(l, es[0]);
      if r.Ok? {
        EditKeeps(l, es[0], kind);
        EditsKeep(r.layout, es[1..], kind);
      } else {
        EditsKeep(l, es[1..], kind);
      }
    }
  }
}
