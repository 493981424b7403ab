/** The search side of the scraper: the URL of each results page, the
    listing summaries read from the cards of a results page, and the choice
    of the card selector (data-pipeline/scrapers/portal_inmobiliario.py:78-84,
    214-389). */
module Cards {
  import opened Wrappers
  import opened Text
  import opened Pages

  // ---------------------------------------------------------------------------
  // Page URLs

  /** How many listings a results page shows. */
  const PageSize := 48

  /** The URL of results page `n`: the search URL itself for the first page,
      and `{url}/_Desde_{(n-1)*48 + 1}` for the others. */
  function PageUrl(url: string, n: nat): (r: string)
    requires n >= 1
    ensures n == 1 ==> r == url
    ensures n > 1 ==> url <= r && |r| > |url|
  {
    if n == 1 then url else url + "/_Desde_" + NatToString((n - 1) * PageSize + 1)
  }

  /** The offset after `_Desde_` is the 1-based position of the page's first
      listing in the whole search, so it tells the page number back. */
  lemma PageUrlOffset(url: string, n: nat)
    requires n > 1
    ensures var tail := PageUrl(url, n)[|url| + 8..];
      AllDigits(tail) && (DigitsValue(tail) - 1) / PageSize + 1 == n
  {
    var tail := NatToString((n - 1) * PageSize + 1);
    assert PageUrl(url, n)[|url| + 8..] == tail;
    NatToStringRoundTrip((n - 1) * PageSize + 1);
  }

  /** Different pages of one search have different URLs. */
  lemma PageUrlInjective(url: string, n: nat, m: nat)
    requires n >= 1 && m >= 1 && n != m
    ensures PageUrl(url, n) != PageUrl(url, m)
  {
    if n > 1 && m > 1 {
      PageUrlOffset(url, n);
      PageUrlOffset(url, m);
    }
  }

  // ---------------------------------------------------------------------------
  // Reading one card

  /** The summary of one card. Absent keys of the source's dictionary are
      `None`; `selectorUsed` is the position of the card selector in its list
      and `elementIndex` the position of the card among its matches. */
  datatype Listing = Listing(
    title: Option<string>,
    price: Option<string>,
    currency: Option<string>,
    location: Option<string>,
    detailUrl: Option<string>,
    selectorUsed: nat,
    elementIndex: nat)

  /** The position of the first answer that is present and satisfies `ok`. */
  function FirstWhere(texts: seq<Option<string>>, ok: string -> bool): (r: Option<nat>)
    ensures r.Some? ==> r.value < |texts| && texts[r.value].Some? && ok(texts[r.value].value)
    ensures r.Some? ==> forall i | 0 <= i < r.value :: texts[i].None? || !ok(texts[i].value)
    ensures r.None? ==> forall i | 0 <= i < |texts| :: texts[i].None? || !ok(texts[i].value)
    decreases |texts|
  {
    if texts == [] then None
    else if texts[0].Some? && ok(texts[0].value) then Some(0)
    else
      var rest := FirstWhere(texts[1..], ok);
      if rest.Some? then Some(rest.value + 1) else None
  }

  /** The stripped answer at the first position satisfying `ok`. */
  function FirstStripped(texts: seq<Option<string>>, ok: string -> bool): Option<string> {
    var k := FirstWhere(texts, ok);
    if k.Some? then Some(Strip(texts[k.value].value)) else None
  }

  /** A title must have more than ten characters once stripped. */
  predicate TitleAccepted(t: string) {
    |Strip(t)| > 10
  }

  /** A price is a non-empty stripped text holding `$`, `UF`, `CLP` or a
      digit. */
  predicate PriceAccepted(t: string) {
    var s := Strip(t);
    s != "" && ('$' in s || Contains(s, "UF") || Contains(s, "CLP") || exists i | 0 <= i < |s| :: IsDigit(s[i]))
  }

  /** Any match: the currency and location selectors take the first one. */
  predicate AnyText(t: string) {
    true
  }

  /** A link selector's `href` is used when it is non-empty and mentions
      `MLC` or `departamento`. */
  predicate LinkAccepted(h: string) {
    h != "" && (Contains(h, "MLC") || Contains(h, "departamento"))
  }

  /** The card's own `href` is used when it is non-empty and mentions `MLC`. */
  predicate OwnLinkAccepted(h: string) {
    h != "" && Contains(h, "MLC")
  }

  /** The title: the first accepted title selector, otherwise the card's own
      text when it is long enough; either way stripped and longer than ten
      characters. */
  function CardTitle(c: Card): (r: Option<string>)
    ensures r.Some? ==> Stripped(r.value) && |r.value| > 10
    ensures FirstWhere(c.titleTexts, TitleAccepted).Some? ==> r.Some?
  {
    var t := FirstStripped(c.titleTexts, TitleAccepted);
    if t.Some? then t
    else if TitleAccepted(c.text) then Some(Strip(c.text))
    else None
  }

  /** The price: the first price selector whose stripped text is
      price-like, stripped. */
  function CardPrice(c: Card): (r: Option<string>)
    ensures r.Some? <==> FirstWhere(c.priceTexts, PriceAccepted).Some?
    ensures r.Some? ==> Stripped(r.value) && PriceAccepted(r.value)
  {
    var t := FirstStripped(c.priceTexts, PriceAccepted);
    if t.Some? then
      StripIdempotent(c.priceTexts[FirstWhere(c.priceTexts, PriceAccepted).value].value);
      t
    else None
  }

  /** The detail URL: the first accepted link selector, otherwise the card's
      own `href`; it always mentions `MLC` or `departamento`. */
  function CardUrl(c: Card): (r: Option<string>)
    ensures r.Some? ==> LinkAccepted(r.value)
    ensures c.ownHref.Some? && OwnLinkAccepted(c.ownHref.value) ==> r.Some?
  {
    var k := FirstWhere(c.linkHrefs, LinkAccepted);
    if k.Some? then c.linkHrefs[k.value]
    else if c.ownHref.Some? && OwnLinkAccepted(c.ownHref.value) then c.ownHref
    else None
  }

  /** The summary of the card at position `i` of the matches of selector
      `sel`; `None` when reading the card raised or it yields neither a
      title, a price nor a detail URL. */
  function CardListing(c: Card, sel: nat, i: nat): (r: Option<Listing>)
    ensures r.Some? ==> r.value.selectorUsed == sel && r.value.elementIndex == i
  {
    if !c.readable then None
    else
      var title := CardTitle(c);
      var price := CardPrice(c);
      var url := CardUrl(c);
      if title.None? && price.None? && url.None? then None
      else Some(Listing(title, price, FirstStripped(c.currencyTexts, AnyText),
                        FirstStripped(c.locationTexts, AnyText), url, sel, i))
  }

  // ---------------------------------------------------------------------------
  // Properties of one card

  /** A card is kept exactly when it was read and yields a title, a price or
      a detail URL, and its summary holds those three. */
  lemma CardKeptIff(c: Card, sel: nat, i: nat)
    ensures CardListing(c, sel, i).Some? <==> c.readable && (CardTitle(c).Some? || CardPrice(c).Some? || CardUrl(c).Some?)
    ensures var r := CardListing(c, sel, i);
      r.Some? ==> r.value.title == CardTitle(c) && r.value.price == CardPrice(c) && r.value.detailUrl == CardUrl(c)
  {
  }

  /** A title comes from the first title selector whose text is long enough,
      and the card's own text is used only when none is. */
  lemma TitleFirstSelector(c: Card, k: nat)
    requires k < |c.titleTexts| && c.titleTexts[k].Some? && TitleAccepted(c.titleTexts[k].value)
    requires forall j | 0 <= j < k :: c.titleTexts[j].None? || !TitleAccepted(c.titleTexts[j].value)
    ensures CardTitle(c) == Some(Strip(c.titleTexts[k].value))
  {
    var f := FirstWhere(c.titleTexts, TitleAccepted);
  }

  // ---------------------------------------------------------------------------
  // Reading a results page

  /** The first card selector that matched something. */
  function ChooseSelector(lists: seq<seq<Card>>): (r: Option<nat>)
    ensures r.Some? ==> r.value < |lists| && lists[r.value] != []
    ensures r.Some? ==> forall s | 0 <= s < r.value :: lists[s] == []
    ensures r.None? ==> forall s | 0 <= s < |lists| :: lists[s] == []
    decreases |lists|
  {
    if lists == [] then None
    else if lists[0] != [] then Some(0)
    else
      var rest := ChooseSelector(lists[1..]);
      if rest.Some? then Some(rest.value + 1) else None
  }

  /** What each card of selector `sel` yields, by position. */
  function Summaries(cards: seq<Card>, sel: nat): (r: seq<Option<Listing>>)
    ensures |r| == |cards|
    ensures forall i | 0 <= i < |cards| :: r[i] == CardListing(cards[i], sel, i)
    ensures Indexed(r)
  {
    seq(|cards|, i requires 0 <= i < |cards| => CardListing(cards[i], sel, i))
  }

  /** Each summary names the position it was read at. */
  predicate Indexed(opts: seq<Option<Listing>>) {
    forall i | 0 <= i < |opts| && opts[i].Some? :: opts[i].value.elementIndex == i
  }

  /** The summaries present in `opts[from..]`, in order. */
  function Kept(opts: seq<Option<Listing>>, from: nat): seq<Listing>
    requires from <= |opts|
    decreases |opts| - from
  {
    if from == |opts| then []
    else (if opts[from].Some? then [opts[from].value] else []) + Kept(opts, from + 1)
  }

  /** The listings of a results page. */
  function PageListings(page: SearchPage): seq<Listing> {
    var sel := ChooseSelector(page.cardLists);
    if sel.None? then [] else Kept(Summaries(page.cardLists[sel.value], sel.value), 0)
  }

  /** Each element of `r` is the summary present at the position it names,
      a position from `from` on. */
  predicate Sound(r: seq<Listing>, opts: seq<Option<Listing>>, from: nat) {
    forall k | 0 <= k < |r| :: from <= r[k].elementIndex < |opts| && opts[r[k].elementIndex] == Some(r[k])
  }

  /** The elements of `r` name strictly increasing positions. */
  predicate Ordered(r: seq<Listing>) {
    forall k, m | 0 <= k < m < |r| :: r[k].elementIndex < r[m].elementIndex
  }

  /** Every summary present in `opts[from..]` names a position some element
      of `r` names. */
  predicate Covers(r: seq<Listing>, opts: seq<Option<Listing>>, from: nat) {
    forall i | from <= i < |opts| && opts[i].Some? :: exists k | 0 <= k < |r| :: r[k].elementIndex == i
  }

  /** Each kept summary is the one at the position it names, from `from` on. */
  lemma {:induction false} KeptSound(opts: seq<Option<Listing>>, from: nat)
    requires from <= |opts| && Indexed(opts)
    ensures Sound(Kept(opts, from), opts, from)
    decreases |opts| - from
  {
    if from < |opts| {
      KeptSound(opts, from + 1);
      var rest := Kept(opts, from + 1);
      assert Sound(rest, opts, from + 1);
      var head := if opts[from].Some? then [opts[from].value] else [];
      var r := Kept(opts, from);
      assert r == head + rest;
      forall k | |head| <= k < |r|
        ensures from <= r[k].elementIndex < |opts| && opts[r[k].elementIndex] == Some(r[k])
      {
        var j := k - |head|;
        assert r[k] == rest[j];
      }
    }
  }

  /** The kept summaries come in position order, each at most once. */
  lemma {:induction false} KeptOrdered(opts: seq<Option<Listing>>, from: nat)
    requires from <= |opts| && Indexed(opts)
    ensures Ordered(Kept(opts, from))
    decreases |opts| - from
  {
    if from < |opts| {
      KeptOrdered(opts, from + 1);
      KeptSound(opts, from + 1);
      var rest := Kept(opts, from + 1);
      assert Ordered(rest) && Sound(rest, opts, from + 1);
      var head := if opts[from].Some? then [opts[from].value] else [];
      var r := Kept(opts, from);
      assert r == head + rest;
      forall k, m | 0 <= k < m < |r| ensures r[k].elementIndex < r[m].elementIndex {
        var jm := m - |head|;
        assert r[m] == rest[jm];
        if k >= |head| {
          var jk := k - |head|;
          assert r[k] == rest[jk];
        }
      }
    }
  }

  /** Every summary present from `from` on is kept. */
  lemma {:induction false} KeptComplete(opts: seq<Option<Listing>>, from: nat)
    requires from <= |opts| && Indexed(opts)
    ensures Covers(Kept(opts, from), opts, from)
    decreases |opts| - from
  {
    if from < |opts| {
      KeptComplete(opts, from + 1);
      var rest := Kept(opts, from + 1);
      assert Covers(rest, opts, from + 1);
      var head := if opts[from].Some? then [opts[from].value] else [];
      var r := Kept(opts, from);
      assert r == head + rest;
      forall i | from <= i < |opts| && opts[i].Some?
        ensures exists k | 0 <= k < |r| :: r[k].elementIndex == i
      {
        if i == from {
          assert r[0].elementIndex == i;
        } else {
          var j :| 0 <= j < |rest| && rest[j].elementIndex == i;
          assert r[j + |head|] == rest[j];
        }
      }
    }
  }

  /** A results page yields the summaries of exactly the kept cards of the
      first card selector that matched anything, in card order and each card
      once; nothing when no selector matched. */
  lemma PageListingsFacts(page: SearchPage)
    ensures ChooseSelector(page.cardLists).None? ==> PageListings(page) == []
    ensures var sel := ChooseSelector(page.cardLists);
      sel.Some? ==>
        var opts := Summaries(page.cardLists[sel.value], sel.value);
        Sound(PageListings(page), opts, 0) && Ordered(PageListings(page)) && Covers(PageListings(page), opts, 0)
  {
    var sel := ChooseSelector(page.cardLists);
    if sel.Some? {
      var opts := Summaries(page.cardLists[sel.value], sel.value);
      KeptSound(opts, 0);
      KeptOrdered(opts, 0);
      KeptComplete(opts, 0);
    }
  }

  // ---------------------------------------------------------------------------
  // The method

  /** The selector loop of `extract_listings_from_page`: the first card
      selector that matched something. */
  method FindSelector(lists: seq<seq<Card>>) returns (sel: Option<nat>)
    ensures sel == ChooseSelector(lists)
  {
    var s := 0;
    while s < |lists| && lists[s] == []
      invariant 0 <= s <= |lists|
      invariant forall t | 0 <= t < s :: lists[t] == []
    {
      s := s + 1;
    }
    if s == |lists| {
      return None;
    }
    ChooseSelectorFirst(lists, s);
    return Some(s);
  }

  /** The card loop of `extract_listings_from_page`. */
  method CollectListings(cards: seq<Card>, sel: nat) returns (listings: seq<Listing>)
    ensures listings == Kept(Summaries(cards, sel), 0)
  {
    ghost var opts := Summaries(cards, sel);
    listings := [];
    var i := 0;
    while i < |cards|
      invariant 0 <= i <= |cards|
      invariant listings + Kept(opts, i) == Kept(opts, 0)
    {
      var l := CardListing(cards[i], sel, i);
      assert l == opts[i];
      var head := if l.Some? then [l.value] else [];
      assert Kept(opts, i) == head + Kept(opts, i + 1);
      assert listings + Kept(opts, i) == (listings + head) + Kept(opts, i + 1);
      listings := listings + head;
      i := i + 1;
    }
  }

  /** `extract_listings_from_page`. */
  method ExtractListings(page: SearchPage) returns (listings: seq<Listing>)
    ensures listings == PageListings(page)
  {
    var sel := FindSelector(page.cardLists);
    if sel.None? {
      return [];
    }
    listings := CollectListings(page.cardLists[sel.value], sel.value);
  }

  /** The first non-empty list is the one chosen. */
  lemma {:induction false} ChooseSelectorFirst(lists: seq<seq<Card>>, s: nat)
    requires s < |lists| && lists[s] != []
    requires forall t | 0 <= t < s :: lists[t] == []
    ensures ChooseSelector(lists) == Some(s)
    decreases s
  {
    if s > 0 {
      assert lists[1..][s - 1] == lists[s];
      ChooseSelectorFirst(lists[1..], s - 1);
    }
  }
}
