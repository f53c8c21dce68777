/** Cleaning of homepage texts and resource references, and why doing it twice changes nothing. */
module HomepageText {
  import opened Collections

  /** Control characters, zero-width characters and the replacement character. */
  predicate Unprintable(c: char) {
    || c <= '\U{0008}' || c == '\U{000B}' || c == '\U{000C}' || '\U{000E}' <= c <= '\U{001F}' || c == '\U{007F}'
    || '\U{200B}' <= c <= '\U{200D}' || c == '\U{2060}' || c == '\U{FEFF}' || c == '\U{FFFD}'
  }

  /** What JavaScript's trim removes. */
  predicate Blank(c: char) {
    || '\U{0009}' <= c <= '\U{000D}' || c == ' ' || c == '\U{00A0}' || c == '\U{1680}' || '\U{2000}' <= c <= '\U{200A}'
    || c == '\U{2028}' || c == '\U{2029}' || c == '\U{202F}' || c == '\U{205F}' || c == '\U{3000}' || c == '\U{FEFF}'
  }

  function Printable(s: string): string {
    if s == "" then ""
    else (if Unprintable(s[0]) then "" else [s[0]]) + Printable(s[1..])
  }

  function TrimStart(s: string): string {
    if s != "" && Blank(s[0]) then TrimStart(s[1..]) else s
  }

  function TrimEnd(s: string): string {
    if s != "" && Blank(s[|s| - 1]) then TrimEnd(s[..|s| - 1]) else s
  }

  function Trim(s: string): string {
    TrimEnd(TrimStart(s))
  }

  function CleanText(s: string): string {
    Trim(Printable(s))
  }

  /** None when the reference is rejected. */
  function NormalizeResourceReference(value: string): Option<string> {
    var reference := Trim(value);
    if "http://" <= reference then None
    else if "//" <= reference then Some("https:" + reference)
    else if "https://" <= reference || "/" <= reference then Some(reference)
    else None
  }

  /** Absent and empty references pass as they are. */
  function NormalizeUrl(value: Option<string>): Option<Option<string>> {
    if value.None? || value.value == "" then Some(value)
    else
      match NormalizeResourceReference(value.value)
      case Some(r) => Some(Some(r))
      case None => None
  }

  // ----- Idempotence -----

  predicate Trimmed(s: string) {
    s == "" || (!Blank(s[0]) && !Blank(s[|s| - 1]))
  }

  lemma {:induction false} TrimEndKeepsStart(s: string)
    requires s == "" || !Blank(s[0])
    ensures Trimmed(TrimEnd(s))
  {
    if s != "" && Blank(s[|s| - 1]) {
      TrimEndKeepsStart(s[..|s| - 1]);
    }
  }

  lemma {:induction false} TrimStartStarts(s: string)
    ensures TrimStart(s) == "" || !Blank(TrimStart(s)[0])
  {
    if s != "" && Blank(s[0]) {
      TrimStartStarts(s[1..]);
    }
  }

  lemma TrimTrims(s: string)
    ensures Trimmed(Trim(s))
  {
    TrimStartStarts(s);
    TrimEndKeepsStart(TrimStart(s));
  }

  predicate AllPrintable(s: string) {
    forall c | c in s :: !Unprintable(c)
  }

  lemma {:induction false} PrintableIsPrintable(s: string)
    ensures AllPrintable(Printable(s))
    ensures AllPrintable(s) ==> Printable(s) == s
  {
    if s != "" {
      PrintableIsPrintable(s[1..]);
      assert s == [s[0]] + s[1..];
    }
  }

  lemma {:induction false} TrimStartKeeps(s: string)
    ensures forall c | c in TrimStart(s) :: c in s
  {
    if s != "" && Blank(s[0]) {
      TrimStartKeeps(s[1..]);
    }
  }

  lemma {:induction false} TrimEndKeeps(s: string)
    ensures forall c | c in TrimEnd(s) :: c in s
  {
    if s != "" && Blank(s[|s| - 1]) {
      TrimEndKeeps(s[..|s| - 1]);
    }
  }

  /** The cleaned text is printable and trimmed, which is all that cleaning looks at. */
  lemma CleanTextTwice(s: string)
    ensures AllPrintable(CleanText(s)) && Trimmed(CleanText(s))
    ensures CleanText(CleanText(s)) == CleanText(s)
  {
    PrintableIsPrintable(s);
    TrimStartKeeps(Printable(s));
    TrimEndKeeps(TrimStart(Printable(s)));
    TrimTrims(Printable(s));
    PrintableIsPrintable(CleanText(s));
  }

  /** An accepted reference is a path or an HTTPS address and is accepted again unchanged. */
  lemma NormalizeReferenceTwice(value: string)
    ensures var r := NormalizeResourceReference(value);
            r.Some? ==> ("https://" <= r.value || ("/" <= r.value && !("//" <= r.value)))
                        && NormalizeResourceReference(r.value) == r
  {
    TrimTrims(value);
    var r := NormalizeResourceReference(value);
    if r.Some? {
      var t := Trim(value);
      if "//" <= t {
        assert r.value[0] == 'h' && r.value[1] == 't' && r.value[4] == 's' && r.value[|r.value| - 1] == t[|t| - 1];
        assert r.value[..8] == "https://";
      }
      assert Trim(r.value) == r.value;
    }
  }

  lemma NormalizeUrlTwice(value: Option<string>)
    ensures var r := NormalizeUrl(value); r.Some? ==> NormalizeUrl(r.value) == r
  {
    if value.Some? {
      NormalizeReferenceTwice(value.value);
    }
  }
}
