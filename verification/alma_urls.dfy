/** The request URLs of the Alma REST API that `getHolding` composes. */
module AlmaUrls {
  import opened Wrappers
  import opened AlmaDocs

  const BibsPath := "/almaws/v1/bibs/"
  const HoldingsSeparator := "/holdings/"

  /** The common prefix of every request: the configured base URL and the bibs path. */
  function BibsUrl(cfg: Config): string {
    cfg.baseurl + BibsPath
  }

  /** The loans of a record. */
  function LoansUrl(cfg: Config, urlencode: string -> string, id: string): (url: string)
    ensures BibsUrl(cfg) + urlencode(id) <= url
    ensures url[|BibsUrl(cfg) + urlencode(id)|..] == "/loans?apikey=" + cfg.apikey
  {
    BibsUrl(cfg) + urlencode(id) + "/loans" + ("?apikey=" + cfg.apikey)
  }

  /** The holdings of a record. */
  function HoldingsUrl(cfg: Config, urlencode: string -> string, id: string): (url: string)
    ensures BibsUrl(cfg) + urlencode(id) <= url
    ensures url[|BibsUrl(cfg) + urlencode(id)|..] == "/holdings?apikey=" + cfg.apikey
  {
    BibsUrl(cfg) + urlencode(id) + ("/holdings?apikey=" + cfg.apikey)
  }

  /** The query string of an items request: the key and a first page of at most 90 items. */
  function ItemsParams(cfg: Config): string {
    "/items?apikey=" + cfg.apikey + "&limit=90"
  }

  /** The items of one holding of a record. As long as the encoded record id
      holds no slash, the URL names its record and holding unambiguously:
      splitting it gives back both encoded identifiers. */
  function ItemsUrl(cfg: Config, urlencode: string -> string, id: string, hid: string): (url: string)
    ensures '/' !in urlencode(id) ==> SplitItemsUrl(cfg, url) == Some((urlencode(id), urlencode(hid)))
  {
    SplitItemsUrlRoundTrip(cfg, urlencode(id), urlencode(hid));
    BibsUrl(cfg) + urlencode(id) + (HoldingsSeparator + urlencode(hid)) + ItemsParams(cfg)
  }

  /** The position of the first `c` in `s`, if any. */
  function FirstIndexOf(s: string, c: char): (r: Option<nat>)
    ensures r.Some? ==> r.value < |s| && s[r.value] == c && c !in s[..r.value]
    ensures r.None? ==> c !in s
  {
    if s == [] then None
    else if s[0] == c then Some(0)
    else
      match FirstIndexOf(s[1..], c)
      case None => None
      case Some(i) =>
        assert s[..i + 1] == [s[0]] + s[1..][..i];
        Some(i + 1)
  }

  /** Splits the path between the bibs prefix and the items query of an items
      URL at its first slash into the encoded record id and the encoded holding id. */
  function SplitHoldingSegment(mid: string): Option<(string, string)> {
    match FirstIndexOf(mid, '/')
    case None => None
    case Some(i) =>
      if HoldingsSeparator <= mid[i..] then Some((mid[..i], mid[i + |HoldingsSeparator|..]))
      else None
  }

  /** Recovers the encoded record id and holding id from an items URL. */
  function SplitItemsUrl(cfg: Config, url: string): Option<(string, string)> {
    var prefix := BibsUrl(cfg);
    var suffix := ItemsParams(cfg);
    if |prefix| + |suffix| <= |url| && prefix <= url && url[|url| - |suffix|..] == suffix then
      SplitHoldingSegment(url[|prefix|..|url| - |suffix|])
    else
      None
  }

  /** PHP's `urlencode` writes a slash as %2F, so no encoding contains one. */
  ghost predicate NeverEmitsSlash(urlencode: string -> string) {
    forall s :: '/' !in urlencode(s)
  }

  /** Distinct strings have distinct encodings. */
  ghost predicate Injective(urlencode: string -> string) {
    forall s, t :: urlencode(s) == urlencode(t) ==> s == t
  }

  /** What PHP's `urlencode` guarantees and the URL scheme relies on. */
  ghost predicate IsUrlEncoder(urlencode: string -> string) {
    NeverEmitsSlash(urlencode) && Injective(urlencode)
  }

  /** Splitting the items URL built from a slash-free encoded record id `a` and
      an encoded holding id `b` gives back `a` and `b`. */
  lemma SplitItemsUrlRoundTrip(cfg: Config, a: string, b: string)
    ensures '/' !in a ==>
      SplitItemsUrl(cfg, BibsUrl(cfg) + a + (HoldingsSeparator + b) + ItemsParams(cfg)) == Some((a, b))
  {
    if '/' !in a {
      var prefix, suffix := BibsUrl(cfg), ItemsParams(cfg);
      var mid := a + (HoldingsSeparator + b);
      var url := prefix + a + (HoldingsSeparator + b) + suffix;
      assert url == prefix + mid + suffix;
      assert url[|url| - |suffix|..] == suffix;
      assert url[|prefix|..|url| - |suffix|] == mid;
      assert mid[|a|] == '/';
      assert mid[..|a|] == a;
      var first := FirstIndexOf(mid, '/');
      assert first == Some(|a|);
      assert mid[|a|..] == HoldingsSeparator + b;
      assert mid[|a| + |HoldingsSeparator|..] == b;
    }
  }

  /** Conversely, whatever splits is an items URL built from the two parts,
      and the record part holds no slash. */
  lemma SplitItemsUrlSound(cfg: Config, url: string)
    requires SplitItemsUrl(cfg, url).Some?
    ensures var (a, b) := SplitItemsUrl(cfg, url).value;
      && '/' !in a
      && url == BibsUrl(cfg) + a + (HoldingsSeparator + b) + ItemsParams(cfg)
  {
  }

  /** Distinct (record, holding) pairs are requested at distinct URLs. */
  lemma ItemsUrlInjective(cfg: Config, urlencode: string -> string, id1: string, hid1: string, id2: string, hid2: string)
    requires IsUrlEncoder(urlencode)
    requires ItemsUrl(cfg, urlencode, id1, hid1) == ItemsUrl(cfg, urlencode, id2, hid2)
    ensures id1 == id2 && hid1 == hid2
  {
  }

  /** Distinct records have distinct loans URLs. */
  lemma LoansUrlInjective(cfg: Config, urlencode: string -> string, id1: string, id2: string)
    requires Injective(urlencode)
    requires LoansUrl(cfg, urlencode, id1) == LoansUrl(cfg, urlencode, id2)
    ensures id1 == id2
  {
    var url := LoansUrl(cfg, urlencode, id1);
    var p, q := |BibsUrl(cfg)|, |"/loans?apikey=" + cfg.apikey|;
    assert urlencode(id1) == url[p..|url| - q] == urlencode(id2);
  }

  /** Distinct records have distinct holdings URLs. */
  lemma HoldingsUrlInjective(cfg: Config, urlencode: string -> string, id1: string, id2: string)
    requires Injective(urlencode)
    requires HoldingsUrl(cfg, urlencode, id1) == HoldingsUrl(cfg, urlencode, id2)
    ensures id1 == id2
  {
    var url := HoldingsUrl(cfg, urlencode, id1);
    var p, q := |BibsUrl(cfg)|, |"/holdings?apikey=" + cfg.apikey|;
    assert urlencode(id1) == url[p..|url| - q] == urlencode(id2);
  }

  /** Behind a common prefix `p`, a slash-free segment followed by a slash
      and a rest is told apart from another exactly by the segment or the rest. */
  lemma SlashSeparated(p: string, a: string, x: string, b: string, y: string)
    requires '/' !in a && '/' !in b
    ensures p + a + ("/" + x) == p + b + ("/" + y) <==> a == b && x == y
  {
    var u := p + a + ("/" + x);
    if u == p + b + ("/" + y) {
      var m := u[|p|..];
      assert m == a + ("/" + x) && m == b + ("/" + y);
      assert m[|a|] == '/' && m[..|a|] == a;
      assert m[|b|] == '/' && m[..|b|] == b;
      assert FirstIndexOf(m, '/') == Some(|a|);
      assert FirstIndexOf(m, '/') == Some(|b|);
      assert a == m[..|a|] == b;
      assert x == m[|a| + 1..] == y;
    }
  }

  /** The loans request never shares a URL with a holdings request, whichever
      records (with slash-free encodings) they are for. */
  lemma LoansNotHoldingsUrl(cfg: Config, urlencode: string -> string, id1: string, id2: string)
    requires '/' !in urlencode(id1) && '/' !in urlencode(id2)
    ensures LoansUrl(cfg, urlencode, id1) != HoldingsUrl(cfg, urlencode, id2)
  {
    var p, a, b := BibsUrl(cfg), urlencode(id1), urlencode(id2);
    var loansRest, holdingsRest := "loans?apikey=" + cfg.apikey, "holdings?apikey=" + cfg.apikey;
    assert LoansUrl(cfg, urlencode, id1) == p + a + ("/" + loansRest);
    assert HoldingsUrl(cfg, urlencode, id2) == p + b + ("/" + holdingsRest);
    assert loansRest[0] != holdingsRest[0];
    SlashSeparated(p, a, loansRest, b, holdingsRest);
  }

  /** Nor with an items request. */
  lemma LoansNotItemsUrl(cfg: Config, urlencode: string -> string, id1: string, id2: string, hid: string)
    requires '/' !in urlencode(id1) && '/' !in urlencode(id2)
    ensures LoansUrl(cfg, urlencode, id1) != ItemsUrl(cfg, urlencode, id2, hid)
  {
    var p, a, b := BibsUrl(cfg), urlencode(id1), urlencode(id2);
    var loansRest := "loans?apikey=" + cfg.apikey;
    var h, q := urlencode(hid), ItemsParams(cfg);
    var itemsRest := "holdings/" + h + q;
    assert HoldingsSeparator == "/" + "holdings/";
    assert HoldingsSeparator + h + q == "/" + itemsRest;
    assert ItemsUrl(cfg, urlencode, id2, hid) == p + b + (HoldingsSeparator + h) + q;
    assert LoansUrl(cfg, urlencode, id1) == p + a + ("/" + loansRest);
    assert ItemsUrl(cfg, urlencode, id2, hid) == p + b + ("/" + itemsRest);
    assert loansRest[0] != itemsRest[0];
    SlashSeparated(p, a, loansRest, b, itemsRest);
  }

  /** And a holdings request never shares a URL with an items request. */
  lemma HoldingsNotItemsUrl(cfg: Config, urlencode: string -> string, id1: string, id2: string, hid: string)
    requires '/' !in urlencode(id1) && '/' !in urlencode(id2)
    ensures HoldingsUrl(cfg, urlencode, id1) != ItemsUrl(cfg, urlencode, id2, hid)
  {
    var p, a, b := BibsUrl(cfg), urlencode(id1), urlencode(id2);
    var holdingsRest := "holdings?apikey=" + cfg.apikey;
    var h, q := urlencode(hid), ItemsParams(cfg);
    var itemsRest := "holdings/" + h + q;
    assert HoldingsSeparator == "/" + "holdings/";
    assert HoldingsSeparator + h + q == "/" + itemsRest;
    assert ItemsUrl(cfg, urlencode, id2, hid) == p + b + (HoldingsSeparator + h) + q;
    assert HoldingsUrl(cfg, urlencode, id1) == p + a + ("/" + holdingsRest);
    assert ItemsUrl(cfg, urlencode, id2, hid) == p + b + ("/" + itemsRest);
    assert holdingsRest[8] != itemsRest[8];
    SlashSeparated(p, a, holdingsRest, b, itemsRest);
  }
}
