/** What cleaning makes of the texts and references of a homepage module, character by character and field by field. */
module HomepageCleaning {
  import opened Collections
  import opened HomepageText
  import opened HomepageLayout

  // ----- Texts -----

  /** Tab, line feed and carriage return are kept; of the other control characters none is. */
  lemma UnprintableExactly(c: char)
    ensures Unprintable(c) <==> ((c as int < 32 || c as int == 127) && c != '\t' && c != '\n' && c != '\r')
                                || c as int in {0x200B, 0x200C, 0x200D, 0x2060, 0xFEFF, 0xFFFD}
  {
  }

  lemma BlankExactly(c: char)
    ensures Blank(c) <==> c as int in {9, 10, 11, 12, 13, 32, 0xA0, 0x1680, 0x2028, 0x2029, 0x202F, 0x205F, 0x3000, 0xFEFF}
                          || 0x2000 <= c as int <= 0x200A
  {
  }

  lemma {:induction false} PrintableConcat(a: string, b: string)
    ensures Printable(a + b) == Printable(a) + Printable(b)
  {
    if a == "" {
      assert a + b == b;
    } else {
      assert (a + b)[1..] == a[1..] + b;
      PrintableConcat(a[1..], b);
    }
  }

  /** Exactly the unprintable characters are dropped. */
  lemma PrintableExactly(a: string, c: char, b: string)
    ensures Printable(a + [c] + b) == Printable(a) + (if Unprintable(c) then "" else [c]) + Printable(b)
  {
    PrintableConcat(a + [c], b);
    PrintableConcat(a, [c]);
    assert [c][1..] == "";
  }

  predicate AllBlank(s: string) {
    forall c | c in s :: Blank(c)
  }

  /** `r` is `s` without some blanks at its ends, and has none left there. */
  ghost predicate TrimmedFrom(s: string, r: string) {
    Trimmed(r) && exists i: nat, j: nat :: i <= j <= |s| && r == s[i..j] && AllBlank(s[..i]) && AllBlank(s[j..])
  }

  lemma {:induction false} TrimStartExactly(s: string) returns (i: nat)
    ensures i <= |s| && TrimStart(s) == s[i..] && AllBlank(s[..i])
  {
    i := 0;
    if s != "" && Blank(s[0]) {
      i := TrimStartExactly(s[1..]);
      i := i + 1;
      assert s[..i] == [s[0]] + s[1..][..i - 1];
    }
  }

  lemma {:induction false} TrimEndExactly(s: string) returns (j: nat)
    ensures j <= |s| && TrimEnd(s) == s[..j] && AllBlank(s[j..])
  {
    j := |s|;
    if s != "" && Blank(s[|s| - 1]) {
      j := TrimEndExactly(s[..|s| - 1]);
      assert s[j..] == s[..|s| - 1][j..] + [s[|s| - 1]];
    }
  }

  lemma TrimExactly(s: string)
    ensures TrimmedFrom(s, Trim(s))
  {
    TrimTrims(s);
    var i := TrimStartExactly(s);
    var j := TrimEndExactly(s[i..]);
    assert Trim(s) == s[i..i + j] && s[i + j..] == s[i..][j..];
  }

  /** A text loses its unprintable characters, then the blanks at its ends, and nothing else. */
  lemma CleanTextExactly(s: string)
    ensures TrimmedFrom(Printable(s), CleanText(s))
  {
    TrimExactly(Printable(s));
  }

  // ----- References -----

  /** A path or an HTTPS address, once the blanks around it are gone. */
  predicate Accepted(value: string) {
    "/" <= Trim(value) || "https://" <= Trim(value)
  }

  /** An accepted reference is kept without the blanks; one without a scheme gets HTTPS. */
  lemma ReferenceExactly(value: string)
    ensures NormalizeResourceReference(value)
            == if !Accepted(value) then None else Some((if "//" <= Trim(value) then "https:" else "") + Trim(value))
  {
    var t := Trim(value);
    if "http://" <= t {
      assert t[0] == 'h' && t[4] == ':';
      assert "https://"[4] == 's' && "/"[0] == '/';
      assert !("/" <= t) && !("https://" <= t);
    }
    assert "" + t == t;
  }

  /** Nothing to accept, or acceptable. */
  predicate UrlFits(url: Option<string>) {
    url == None || url == Some("") || Accepted(url.value)
  }

  function UrlAfter(url: Option<string>): Option<string> {
    match url
    case None => None
    case Some(value) => if value == "" || !Accepted(value) then url else Some((if "//" <= Trim(value) then "https:" else "") + Trim(value))
  }

  lemma UrlExactly(url: Option<string>)
    ensures NormalizeUrl(url) == if UrlFits(url) then Some(UrlAfter(url)) else None
  {
    if url.Some? {
      ReferenceExactly(url.value);
    }
  }

  // ----- Contents -----

  predicate TextCleaned(t: Text, r: Text) {
    r.en == CleanText(t.en) && r.zh == CleanText(t.zh)
  }

  predicate OptionalCleaned(t: Option<Text>, r: Option<Text>) {
    t.Some? == r.Some? && (t.Some? ==> TextCleaned(t.value, r.value))
  }

  predicate ItemCleaned(x: Item, r: Item) {
    && TextCleaned(x.title, r.title) && TextCleaned(x.body, r.body) && r.imageUrl == UrlAfter(x.imageUrl)
    && r.author == match x.author
                   case None => None
                   case Some(author) => if author == "" then Some("") else Some(CleanText(author))
  }

  predicate LinksCleaned(links: seq<Link>, r: seq<Link>) {
    |r| == |links| && forall i | 0 <= i < |links| :: r[i].href == links[i].href && TextCleaned(links[i].caption, r[i].caption)
  }

  predicate ItemsCleaned(items: seq<Item>, r: seq<Item>) {
    |r| == |items| && forall i | 0 <= i < |items| :: ItemCleaned(items[i], r[i])
  }

  lemma {:induction false} LinksExactly(links: seq<Link>)
    ensures LinksCleaned(links, CleanLinks(links))
  {
    if links != [] {
      LinksExactly(links[1..]);
    }
  }

  lemma ItemExactly(x: Item)
    ensures CleanItem(x).Some? <==> UrlFits(x.imageUrl)
    ensures CleanItem(x).Some? ==> ItemCleaned(x, CleanItem(x).value)
  {
    UrlExactly(x.imageUrl);
  }

  lemma {:induction false} ItemsExactly(items: seq<Item>)
    ensures CleanItems(items).Some? <==> forall i | 0 <= i < |items| :: UrlFits(items[i].imageUrl)
    ensures CleanItems(items).Some? ==> ItemsCleaned(items, CleanItems(items).value)
  {
    if items != [] {
      ItemExactly(items[0]);
      ItemsExactly(items[1..]);
      assert items == [items[0]] + items[1..];
    }
  }

  /** Every text of the result is cleaned, every reference accepted, and everything else as it was. */
  predicate ContentCleaned(c: Content, r: Content) {
    && OptionalCleaned(c.eyebrow, r.eyebrow) && OptionalCleaned(c.title, r.title) && OptionalCleaned(c.body, r.body)
    && OptionalCleaned(c.secondaryBody, r.secondaryBody) && OptionalCleaned(c.ctaLabel, r.ctaLabel)
    && r.imageUrl == UrlAfter(c.imageUrl) && r.mobileImageUrl == UrlAfter(c.mobileImageUrl) && r.rest == c.rest
    && c.links.Some? == r.links.Some? && (c.links.Some? ==> LinksCleaned(c.links.value, r.links.value))
    && c.items.Some? == r.items.Some? && (c.items.Some? ==> ItemsCleaned(c.items.value, r.items.value))
  }

  /** A module's content is accepted exactly if all its references are. */
  lemma ContentExactly(c: Content)
    ensures CleanContent(c).Some?
            <==> UrlFits(c.imageUrl) && UrlFits(c.mobileImageUrl)
                 && (c.items.Some? ==> forall i | 0 <= i < |c.items.value| :: UrlFits(c.items.value[i].imageUrl))
    ensures CleanContent(c).Some? ==> ContentCleaned(c, CleanContent(c).value)
  {
    UrlExactly(c.imageUrl);
    UrlExactly(c.mobileImageUrl);
    if c.links.Some? {
      LinksExactly(c.links.value);
    }
    if c.items.Some? {
      ItemsExactly(c.items.value);
    }
  }
}
