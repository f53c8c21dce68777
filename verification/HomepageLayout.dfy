/** The homepage layout: normalization, and the four edits an operator makes. */
module HomepageLayout {
  import opened Collections
  import opened HomepageText

  datatype ModuleType = Announcement | Header | Hero | ArtisanStory | CategoryGrid | LimitedCollection
                      | MaterialDetails | Testimonials | Newsletter | Footer

  datatype Text = Text(en: string, zh: string)

  datatype Link = Link(caption: Text, href: string)

  datatype Item = Item(title: Text, body: Text, imageUrl: Option<string>, author: Option<string>)

  /** `rest` lumps the fields that are only carried along. */
  datatype Content = Content(eyebrow: Option<Text>, title: Option<Text>, body: Option<Text>, secondaryBody: Option<Text>,
                             ctaLabel: Option<Text>, imageUrl: Option<string>, mobileImageUrl: Option<string>,
                             links: Option<seq<Link>>, items: Option<seq<Item>>, rest: string)

  datatype Module = Module(id: string, kind: ModuleType, enabled: bool, sortOrder: real, content: Content)

  datatype Layout = Layout(version: int, updatedAt: string, publishedAt: Option<string>, modules: seq<Module>)

  datatype Error = DuplicateId | RejectedReference | ModuleNotFound | TargetNotFound | RequiredModule

  datatype Result = Ok(layout: Layout) | Err(error: Error)

  // ----- Cleaning -----

  function CleanLocalized(t: Text): Text {
    Text(CleanText(t.en), CleanText(t.zh))
  }

  function CleanOptional(t: Option<Text>): Option<Text> {
    if t.Some? then Some(CleanLocalized(t.value)) else None
  }

  function CleanLinks(links: seq<Link>): (r: seq<Link>)
    ensures |r| == |links|
  {
    if links == [] then [] else [links[0].(caption := CleanLocalized(links[0].caption))] + CleanLinks(links[1..])
  }

  function CleanItem(item: Item): Option<Item> {
    match NormalizeUrl(item.imageUrl)
    case None => None
    case Some(url) =>
      Some(Item(CleanLocalized(item.title), CleanLocalized(item.body), url,
                if item.author.Some? && item.author.value != "" then Some(CleanText(item.author.value)) else item.author))
  }

  function CleanItems(items: seq<Item>): Option<seq<Item>> {
    if items == [] then Some([])
    else
      var (first, rest) := (CleanItem(items[0]), CleanItems(items[1..]));
      if first.None? || rest.None? then None else Some([first.value] + rest.value)
  }

  /** None when a resource reference is rejected. */
  function CleanContent(c: Content): Option<Content> {
    var (image, mobile) := (NormalizeUrl(c.imageUrl), NormalizeUrl(c.mobileImageUrl));
    var items := if c.items.Some? then CleanItems(c.items.value) else Some([]);
    if image.None? || mobile.None? || items.None? then None
    else Some(Content(CleanOptional(c.eyebrow), CleanOptional(c.title), CleanOptional(c.body), CleanOptional(c.secondaryBody),
                      CleanOptional(c.ctaLabel), image.value, mobile.value,
                      if c.links.Some? then Some(CleanLinks(c.links.value)) else None,
                      if c.items.Some? then Some(items.value) else None, c.rest))
  }

  // ----- Normalization -----

  /** Insertion behind all modules that do not come later. */
  function InsertStable(ms: seq<Module>, m: Module): (r: seq<Module>)
    ensures |r| == |ms| + 1
  {
    if ms != [] && ms[|ms| - 1].sortOrder > m.sortOrder
    then InsertStable(ms[..|ms| - 1], m) + [ms[|ms| - 1]]
    else ms + [m]
  }

  function StableSort(ms: seq<Module>): (r: seq<Module>)
    ensures |r| == |ms|
  {
    if ms == [] then [] else InsertStable(StableSort(ms[..|ms| - 1]), ms[|ms| - 1])
  }

  predicate HasId(ms: seq<Module>, id: string) {
    exists i :: 0 <= i < |ms| && ms[i].id == id
  }

  function Position(index: nat): real {
    (10 * index) as real
  }

  /** One module after the other; the id check comes before the content of the same module. */
  function NormalizeAll(ms: seq<Module>): (r: (seq<Module>, Option<Error>))
    ensures r.1.None? ==> |r.0| == |ms|
  {
    if ms == [] then ([], None)
    else
      var last := |ms| - 1;
      var before := NormalizeAll(ms[..last]);
      if before.1.Some? then before
      else if HasId(ms[..last], ms[last].id) then ([], Some(DuplicateId))
      else
        match CleanContent(ms[last].content)
        case None => ([], Some(RejectedReference))
        case Some(content) => (before.0 + [ms[last].(sortOrder := Position(last), content := content)], None)
  }

  function NormalizeHomepageLayout(l: Layout): Result {
    var r := NormalizeAll(StableSort(l.modules));
    if r.1.Some? then Err(r.1.value) else Ok(l.(version := 1, modules := r.0))
  }

  // ----- Edits -----

  function FindIndex(ms: seq<Module>, id: string): (i: Option<nat>)
    ensures i.Some? ==> i.value < |ms| && ms[i.value].id == id && !HasId(ms[..i.value], id)
    ensures i.None? ==> !HasId(ms, id)
  {
    if ms == [] then None
    else
      var last := |ms| - 1;
      match FindIndex(ms[..last], id)
      case Some(i) => assert ms[..last][..i] == ms[..i]; Some(i)
      case None => if ms[last].id == id then Some(last) else None
  }

  function Inserted(ms: seq<Module>, i: nat, m: Module): (r: seq<Module>)
    requires i <= |ms|
    ensures |r| == |ms| + 1 && r[i] == m
  {
    ms[..i] + [m] + ms[i..]
  }

  function Renumbered(ms: seq<Module>): (r: seq<Module>)
    ensures |r| == |ms| && forall i | 0 <= i < |ms| :: r[i] == ms[i].(sortOrder := Position(i))
  {
    seq(|ms|, i requires 0 <= i < |ms| => ms[i].(sortOrder := Position(i)))
  }

  function DuplicateHomepageModule(l: Layout, id: string, nextId: string): Result {
    match FindIndex(l.modules, id)
    case None => Err(ModuleNotFound)
    case Some(source) =>
      if HasId(l.modules, nextId) then Err(DuplicateId)
      else NormalizeHomepageLayout(l.(modules := Inserted(l.modules, source + 1, l.modules[source].(id := nextId))))
  }

  /** The target is looked up once the source is out, so a module cannot be moved before itself. */
  function MoveHomepageModule(l: Layout, id: string, beforeId: string): Result {
    match FindIndex(l.modules, id)
    case None => Err(ModuleNotFound)
    case Some(source) =>
      var rest := DropAt(l.modules, source);
      (match FindIndex(rest, beforeId)
       case None => Err(TargetNotFound)
       case Some(target) => NormalizeHomepageLayout(l.(modules := Renumbered(Inserted(rest, target, l.modules[source])))))
  }

  function Dropping(ms: seq<Module>, id: string): seq<Module> {
    if ms == [] then []
    else Dropping(ms[..|ms| - 1], id) + if ms[|ms| - 1].id == id then [] else [ms[|ms| - 1]]
  }

  function RemoveHomepageModule(l: Layout, id: string): Result {
    match FindIndex(l.modules, id)
    case None => Err(ModuleNotFound)
    case Some(i) =>
      if l.modules[i].kind == Header || l.modules[i].kind == Footer then Err(RequiredModule)
      else NormalizeHomepageLayout(l.(modules := Dropping(l.modules, id)))
  }

  /** Not normalized again. */
  function ToggleHomepageModule(l: Layout, id: string, enabled: bool): Result {
    if !HasId(l.modules, id) then Err(ModuleNotFound)
    else Ok(l.(modules := seq(|l.modules|, i requires 0 <= i < |l.modules| =>
                              if l.modules[i].id == id then l.modules[i].(enabled := enabled) else l.modules[i])))
  }

  // ----- The splices as the code performs them -----

  method Duplicate(l: Layout, id: string, nextId: string) returns (r: Result)
    ensures r == DuplicateHomepageModule(l, id, nextId)
  {
    var source := FindIndex(l.modules, id);
    if source.None? {
      return Err(ModuleNotFound);
    }
    if HasId(l.modules, nextId) {
      return Err(DuplicateId);
    }
    var modules := l.modules;
    var i := source.value + 1;
    modules := modules[..i] + [modules[source.value].(id := nextId)] + modules[i..];
    return NormalizeHomepageLayout(l.(modules := modules));
  }

  method Move(l: Layout, id: string, beforeId: string) returns (r: Result)
    ensures r == MoveHomepageModule(l, id, beforeId)
  {
    var modules := l.modules;
    var source := FindIndex(modules, id);
    if source.None? {
      return Err(ModuleNotFound);
    }
    var moved := modules[source.value];
    modules := modules[..source.value] + modules[source.value + 1..];
    var target := FindIndex(modules, beforeId);
    if target.None? {
      return Err(TargetNotFound);
    }
    modules := modules[..target.value] + [moved] + modules[target.value..];
    modules := Renumbered(modules);
    return NormalizeHomepageLayout(l.(modules := modules));
  }
}
