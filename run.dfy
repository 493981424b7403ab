/** The two driving loops of the scraper, as functions of what the outside
    world answers: walking the results pages of a search, and visiting each
    listing found, with pacing, storage, batch files and the failure breaker
    (data-pipeline/scrapers/portal_inmobiliario.py:30-212, 406-500, 914-925). */
module Run {
  import opened Wrappers
  import opened Models
  import opened Pages
  import opened Pacing
  import Cards
  import opened Listing
  import opened Database

  // ---------------------------------------------------------------------------
  // Python's `%` and slices

  /** Python's `a % b` for a non-zero `b`: the remainder has the sign of the
      divisor (Dafny's is never negative). */
  function PyMod(a: int, b: int): (r: int)
    requires b != 0
    ensures b > 0 ==> 0 <= r < b
    ensures b < 0 ==> b < r <= 0
    ensures r == 0 <==> a % b == 0
    ensures b > 0 ==> r == a % b
  {
    var m := a % b;
    if b > 0 || m == 0 then m else m + b
  }

  /** Python's `s[k:]`: a negative `k` counts from the end, and an index
      beyond either end is clamped. */
  function PySliceFrom<T>(s: seq<T>, k: int): (r: seq<T>)
    ensures |r| <= |s| && r == s[|s| - |r|..]
    ensures k < 0 ==> |r| == if -k < |s| then -k else |s|
    ensures k >= 0 ==> |r| == if k < |s| then |s| - k else 0
  {
    if k >= 0 then (if k < |s| then s[k..] else [])
    else if -k < |s| then s[|s| + k..]
    else s
  }

  /** Python's `s[:k]`. */
  function PyPrefix<T>(s: seq<T>, k: int): (r: seq<T>)
    ensures r <= s
    ensures k >= 0 ==> |r| == if k < |s| then k else |s|
    ensures k < 0 ==> |r| == if -k < |s| then |s| + k else 0
  {
    if k >= 0 then (if k < |s| then s[..k] else s)
    else if -k < |s| then s[..|s| + k]
    else []
  }

  /** The batches written, one after the other. */
  function Flatten<T>(bs: seq<seq<T>>): seq<T> {
    if bs == [] then [] else Flatten(bs[..|bs| - 1]) + bs[|bs| - 1]
  }

  lemma FlattenAppend<T>(bs: seq<seq<T>>, x: seq<T>)
    ensures Flatten(bs + [x]) == Flatten(bs) + x
  {
    assert (bs + [x])[..|bs|] == bs;
  }

  // ---------------------------------------------------------------------------
  // Walking the results pages (`scrape_listings`)

  /** Some probe selector matched more than five elements. */
  predicate ProbeFound(page: SearchPage) {
    exists i | 0 <= i < |page.probeCounts| :: page.probeCounts[i] > 5
  }

  /** The listings gathered from page `n` on, `pages[n-1]` being what page `n`
      shows: a page that could not be reached, has no probe match or no
      listing ends the walk; a page's listings are kept when the page limit
      (when truthy) is reached or there is no next page, and the walk stops
      there. A page past the end of `pages` counts as one not reached. */
  function Crawl(pages: seq<SearchPage>, n: nat, maxPages: Option<int>): seq<Cards.Listing>
    requires n >= 1
    decreases |pages| + 1 - n
  {
    if n > |pages| then []
    else
      var page := pages[n - 1];
      if !page.reached || !ProbeFound(page) then []
      else
        var found := Cards.PageListings(page);
        if found == [] then []
        else if (IntTruthy(maxPages) && n >= maxPages.value) || !page.hasNext then found
        else found + Crawl(pages, n + 1, maxPages)
  }

  /** Page `j` (0-based) offers listing `x`. */
  predicate FromPage(pages: seq<SearchPage>, j: int, x: Cards.Listing) {
    0 <= j < |pages| && pages[j].reached && x in Cards.PageListings(pages[j])
  }

  /** Every listing gathered was offered by a reached page at or after `n`. */
  lemma {:induction false} CrawlFromPages(pages: seq<SearchPage>, n: nat, maxPages: Option<int>)
    requires n >= 1
    ensures forall x | x in Crawl(pages, n, maxPages) :: exists j :: n - 1 <= j && FromPage(pages, j, x)
    decreases |pages| + 1 - n
  {
    if n <= |pages| && pages[n - 1].reached && ProbeFound(pages[n - 1]) {
      var found := Cards.PageListings(pages[n - 1]);
      forall x | x in found ensures FromPage(pages, n - 1, x) {
      }
      if found != [] && !((IntTruthy(maxPages) && n >= maxPages.value) || !pages[n - 1].hasNext) {
        var rest := Crawl(pages, n + 1, maxPages);
        assert Crawl(pages, n, maxPages) == found + rest;
        CrawlFromPages(pages, n + 1, maxPages);
        forall x | x in found + rest
          ensures exists j :: n - 1 <= j && FromPage(pages, j, x)
        {
          if x in found {
            assert FromPage(pages, n - 1, x);
          } else {
            assert x in rest;
          }
        }
      } else {
        assert Crawl(pages, n, maxPages) == found;
      }
    }
  }

  /** With a truthy page limit `m`, no page after `max(n, m)` is ever looked
      at: cutting the pages there changes nothing. */
  lemma {:induction false} CrawlStopsAtMaxPages(pages: seq<SearchPage>, n: nat, maxPages: Option<int>, k: nat)
    requires n >= 1 && IntTruthy(maxPages)
    requires n <= k <= |pages| && maxPages.value <= k
    ensures Crawl(pages, n, maxPages) == Crawl(pages[..k], n, maxPages)
    decreases |pages| + 1 - n
  {
    assert pages[..k][n - 1] == pages[n - 1];
    if n < maxPages.value {
      CrawlStopsAtMaxPages(pages, n + 1, maxPages, k);
    }
  }

  /** The first page decides whether anything is gathered at all. */
  lemma CrawlFirstPage(pages: seq<SearchPage>, maxPages: Option<int>)
    ensures Crawl(pages, 1, maxPages) != [] <==>
      |pages| >= 1 && pages[0].reached && ProbeFound(pages[0]) && Cards.PageListings(pages[0]) != []
    ensures Crawl(pages, 1, maxPages) != [] ==> Cards.PageListings(pages[0]) <= Crawl(pages, 1, maxPages)
  {
  }

  /** Page `j + 1` (`pages[j]`) yields listings: it was reached, passed the
      probe and shows at least one card that is kept. */
  predicate Yields(pages: seq<SearchPage>, j: nat)
    requires j < |pages|
  {
    pages[j].reached && ProbeFound(pages[j]) && Cards.PageListings(pages[j]) != []
  }

  /** After page `j + 1` the walk goes on to the next page: it yields
      listings, is below a truthy page limit and has a "next" button. */
  predicate Continues(pages: seq<SearchPage>, j: nat, maxPages: Option<int>)
    requires j < |pages|
  {
    Yields(pages, j) && !(IntTruthy(maxPages) && j + 1 >= maxPages.value) && pages[j].hasNext
  }

  /** The index of the first page from `pages[j]` on after which the walk
      does not go on, or `|pages|` when every page goes on. */
  function FirstStop(pages: seq<SearchPage>, j: nat, maxPages: Option<int>): (k: nat)
    requires j <= |pages|
    ensures j <= k <= |pages|
    ensures forall i | j <= i < k :: Continues(pages, i, maxPages)
    ensures k == |pages| || !Continues(pages, k, maxPages)
    decreases |pages| - j
  {
    if j == |pages| || !Continues(pages, j, maxPages) then j else FirstStop(pages, j + 1, maxPages)
  }

  /** The listings of `pages[lo..hi]`, page after page. */
  function ListingsOf(pages: seq<SearchPage>, lo: nat, hi: nat): seq<Cards.Listing>
    requires lo <= hi <= |pages|
    decreases hi - lo
  {
    if lo == hi then [] else Cards.PageListings(pages[lo]) + ListingsOf(pages, lo + 1, hi)
  }

  /** Concatenation is associative. */
  lemma ConcatAssoc<T>(a: seq<T>, b: seq<T>, c: seq<T>)
    ensures a + (b + c) == (a + b) + c
  {
  }

  /** At a page after which the walk goes on, the crawl is that page's
      listings followed by the crawl from the next page. */
  lemma CrawlGoesOn(pages: seq<SearchPage>, n: nat, maxPages: Option<int>)
    requires 1 <= n <= |pages| && Continues(pages, n - 1, maxPages)
    ensures Crawl(pages, n, maxPages) == Cards.PageListings(pages[n - 1]) + Crawl(pages, n + 1, maxPages)
  {
  }

  /** At a page after which the walk does not go on, the crawl is that page's
      listings when it yields any, and nothing otherwise. */
  lemma CrawlStopsAt(pages: seq<SearchPage>, n: nat, maxPages: Option<int>)
    requires 1 <= n <= |pages| && !Continues(pages, n - 1, maxPages)
    ensures Crawl(pages, n, maxPages) == if Yields(pages, n - 1) then Cards.PageListings(pages[n - 1]) else []
  {
  }

  /** The crawl from page `n`, when `pages[k]` is the first page from
      `pages[n - 1]` on after which the walk does not go on: the listings of
      every page before it, in page order, then the listings of that page
      when it yields any. */
  lemma {:induction false} CrawlClosedForm(pages: seq<SearchPage>, n: nat, maxPages: Option<int>, k: nat)
    requires 1 <= n && n - 1 <= k <= |pages|
    requires forall i | n - 1 <= i < k :: Continues(pages, i, maxPages)
    requires k == |pages| || !Continues(pages, k, maxPages)
    ensures Crawl(pages, n, maxPages) ==
      ListingsOf(pages, n - 1, k) + (if k < |pages| && Yields(pages, k) then Cards.PageListings(pages[k]) else [])
    decreases |pages| + 1 - n
  {
    var tail := if k < |pages| && Yields(pages, k) then Cards.PageListings(pages[k]) else [];
    if n - 1 < k {
      var found := Cards.PageListings(pages[n - 1]);
      CrawlGoesOn(pages, n, maxPages);
      CrawlClosedForm(pages, n + 1, maxPages, k);
      assert ListingsOf(pages, n - 1, k) == found + ListingsOf(pages, n, k);
      ConcatAssoc(found, ListingsOf(pages, n, k), tail);
    } else if k < |pages| {
      CrawlStopsAt(pages, n, maxPages);
      assert ListingsOf(pages, n - 1, k) == [];
    } else {
      assert Crawl(pages, n, maxPages) == [];
      assert ListingsOf(pages, n - 1, k) == [];
    }
  }

  /** The whole crawl: every listing of the pages before the first stop, in
      page order, then those of the page that stops it. A listing is gathered
      only from such a page, and every listing of such a page is gathered. */
  lemma CrawlIsListingsBeforeStop(pages: seq<SearchPage>, maxPages: Option<int>)
    ensures var k := FirstStop(pages, 0, maxPages);
      Crawl(pages, 1, maxPages) ==
        ListingsOf(pages, 0, k) + (if k < |pages| && Yields(pages, k) then Cards.PageListings(pages[k]) else [])
  {
    CrawlClosedForm(pages, 1, maxPages, FirstStop(pages, 0, maxPages));
  }

  // ---------------------------------------------------------------------------
  // Visiting the listings (`scrape_detailed_listings`)

  /** What the visits change outside the loop's own variables: the object's
      accumulated records, the batch files written, the pacer and the
      database table. */
  datatype World = World(
    detailedAll: seq<PropertyRecord>,
    batches: seq<seq<PropertyRecord>>,
    pacer: PacerState,
    table: Table)

  /** The loop's own variables: the records of this run and the failures. */
  datatype RunState = RunState(detailed: seq<PropertyRecord>, failed: nat)

  /** How the loop goes on after one listing: with the next one, out of the
      loop (the breaker), or out of the method (an exception nobody catches). */
  datatype Control = Next | Stop | Raise

  /** What the method returns. */
  datatype Outcome = Returned(properties: seq<PropertyRecord>) | Raised

  /** The handler of an exception inside a visit: one more failure, and the
      loop stops once more than 30% of the `n` listings failed. */
  function Breaker(rs: RunState, n: nat): (RunState, Control) {
    var failed := rs.failed + 1;
    (rs.(failed := failed), if 10 * failed > 3 * n then Stop else Next)
  }

  /** The breaker counts one more failure and stops exactly when the new
      count exceeds 30% of the `n` listings, read as exact reals; it never
      raises. */
  lemma BreakerThreshold(rs: RunState, n: nat)
    ensures Breaker(rs, n).0.failed == rs.failed + 1
    ensures Breaker(rs, n).0.(failed := rs.failed) == rs
    ensures Breaker(rs, n).1 == Stop <==> (rs.failed + 1) as real > (n as real) * 0.3
    ensures Breaker(rs, n).1 != Raise
  {
  }

  /** `save_detailed_results_batch(batch)`: nothing for an empty batch, else
      one file, or the exception of writing it. */
  function WriteBatch(batches: seq<seq<PropertyRecord>>, batch: seq<PropertyRecord>, writeFails: bool): (seq<seq<PropertyRecord>>, bool) {
    if batch == [] then (batches, false)
    else if writeFails then (batches, true)
    else (batches + [batch], false)
  }

  /** After a record is added: when the count of this run's records is a
      multiple of the batch size, the last batch-size records are written. A
      batch size of zero raises `ZeroDivisionError`. */
  function BatchOutcome(c: ScrapingConfig, batches: seq<seq<PropertyRecord>>, detailed: seq<PropertyRecord>, writeFails: bool)
    : (seq<seq<PropertyRecord>>, bool)
  {
    if c.batchSaveSize == 0 then (batches, true)
    else if PyMod(|detailed|, c.batchSaveSize) != 0 then (batches, false)
    else WriteBatch(batches, PySliceFrom(detailed, -c.batchSaveSize), writeFails)
  }

  /** A record was obtained: it joins both lists, is saved when the database
      is on, and may complete a batch; the save's connection error and the
      batch's errors go to the breaker. */
  function Keep(c: ScrapingConfig, w: World, rs: RunState, p: PropertyRecord, v: Visit, n: nat): (World, RunState, Control) {
    var rs1 := rs.(detailed := rs.detailed + [p]);
    var (table, dbRaised) := SaveOutcome(c.useDatabase, w.table, p, v.dbConnectFails, v.dbWriteFails);
    var w1 := w.(detailedAll := w.detailedAll + [p], table := table);
    if dbRaised then
      var (rs2, ctl) := Breaker(rs1, n); (w1, rs2, ctl)
    else
      var (batches, batchRaised) := BatchOutcome(c, w1.batches, rs1.detailed, v.batchWriteFails);
      var w2 := w1.(batches := batches);
      if batchRaised then
        var (rs2, ctl) := Breaker(rs1, n); (w2, rs2, ctl)
      else (w2, rs1, Next)
  }

  /** How a listing page is turned into a record: from the cleaned URL, the
      listing's title and what the visit meets. */
  type Fetcher = (string, string, Visit) -> Option<PropertyRecord>

  /** `scrape_individual_listing` under configuration `c`. */
  function DetailFetch(c: ScrapingConfig): Fetcher {
    (url, title, v) => DetailRecord(c, url, title, v)
  }

  /** One listing out of `n`: no detail URL is a failure; otherwise the pacer
      runs (its error leaves the method) and the cleaned URL is visited; no
      record is a failure. */
  function Step(c: ScrapingConfig, fetch: Fetcher, w: World, rs: RunState, listing: Cards.Listing, v: Visit, n: nat): (World, RunState, Control) {
    var url := listing.detailUrl.GetOr("");
    if url == "" then (w, rs.(failed := rs.failed + 1), Next)
    else
      var (pacer, pacing) := Pace(c, w.pacer, v.now, v.hour, v.minDelay);
      var w1 := w.(pacer := pacer);
      if pacing.WindowIndexError? then (w1, rs, Raise)
      else
        match fetch(CleanDetailUrl(url), listing.title.GetOr(""), v)
        case None => (w1, rs.(failed := rs.failed + 1), Next)
        case Some(p) => Keep(c, w1, rs, p, v, n)
  }

  /** One listing out of `n` as the loop sees it: the world and run state it
      leaves, and how the loop goes on. */
  type Stepper = (World, RunState, Cards.Listing, Visit, nat) -> (World, RunState, Control)

  /** The scraper's own step under configuration `c`. */
  function StepOf(c: ScrapingConfig, fetch: Fetcher): Stepper {
    (w: World, rs: RunState, listing: Cards.Listing, v: Visit, n: nat) => Step(c, fetch, w, rs, listing, v, n)
  }

  /** The loop from listing `i` on, each listing taken by `step`, `visit(i)`
      being what visiting listing `i` meets; the flag tells whether an
      exception left the method. */
  function Loop(step: Stepper, w: World, rs: RunState, basic: seq<Cards.Listing>, i: nat, visit: nat -> Visit)
    : (World, RunState, bool)
    requires i <= |basic|
    decreases |basic| - i
  {
    if i == |basic| then (w, rs, false)
    else
      var (w1, rs1, ctl) := step(w, rs, basic[i], visit(i), |basic|);
      if ctl == Raise then (w1, rs1, true)
      else if ctl == Stop then (w1, rs1, false)
      else Loop(step, w1, rs1, basic, i + 1, visit)
  }

  /** After the loop: the records not yet in a batch file (the count modulo
      the batch size) are written as one last batch. */
  function Flush(c: ScrapingConfig, w: World, detailed: seq<PropertyRecord>, writeFails: bool): (World, bool) {
    if detailed == [] then (w, false)
    else if c.batchSaveSize == 0 then (w, true)
    else
      var remaining := PyMod(|detailed|, c.batchSaveSize);
      if remaining <= 0 then (w, false)
      else
        var (batches, raised) := WriteBatch(w.batches, PySliceFrom(detailed, -remaining), writeFails);
        (w.(batches := batches), raised)
  }

  /** `basic_listings[:max_listings]` when the limit is truthy. */
  function Truncate(basic: seq<Cards.Listing>, maxListings: Option<int>): seq<Cards.Listing> {
    if IntTruthy(maxListings) then PyPrefix(basic, maxListings.value) else basic
  }

  /** The visits of `basic` and the final flush. */
  function Visits(c: ScrapingConfig, fetch: Fetcher, w: World, basic: seq<Cards.Listing>, visit: nat -> Visit, flushFails: bool): (World, Outcome) {
    var (w1, rs, raised) := Loop(StepOf(c, fetch), w, RunState([], 0), basic, 0, visit);
    if raised then (w1, Raised)
    else
      var (w2, flushRaised) := Flush(c, w1, rs.detailed, flushFails);
      (w2, if flushRaised then Raised else Returned(rs.detailed))
  }

  /** A truthy limit keeps at most that many listings, from the front; a
      negative one, as Python's slice does, drops that many from the end. */
  lemma TruncateLimit(basic: seq<Cards.Listing>, maxListings: Option<int>)
    ensures Truncate(basic, maxListings) <= basic
    ensures IntTruthy(maxListings) && maxListings.value > 0 ==>
      |Truncate(basic, maxListings)| == if maxListings.value < |basic| then maxListings.value else |basic|
    ensures IntTruthy(maxListings) && maxListings.value < 0 ==>
      |Truncate(basic, maxListings)| == if -maxListings.value < |basic| then |basic| + maxListings.value else 0
    ensures !IntTruthy(maxListings) ==> Truncate(basic, maxListings) == basic
  {
  }

  /** `scrape_detailed_listings` once the search gave `basic`. */
  function Detailed(c: ScrapingConfig, w: World, basic: seq<Cards.Listing>, maxListings: Option<int>, visit: nat -> Visit, flushFails: bool)
    : (World, Outcome)
  {
    if basic == [] then (w, Returned([]))
    else Visits(c, DetailFetch(c), w, Truncate(basic, maxListings), visit, flushFails)
  }

  // ---------------------------------------------------------------------------
  // What a run keeps and counts

  /** What visiting one listing yields, independently of pacing, storage and
      batches: the record of its page, when it has a URL and a page. */
  function Fetched(fetch: Fetcher, listing: Cards.Listing, v: Visit): seq<PropertyRecord> {
    var url := listing.detailUrl.GetOr("");
    if url == "" then []
    else match fetch(CleanDetailUrl(url), listing.title.GetOr(""), v)
      case None => []
      case Some(p) => [p]
  }

  /** The records of listings `i` onwards, in order. */
  function AllFetched(fetch: Fetcher, basic: seq<Cards.Listing>, visit: nat -> Visit, i: nat): (r: seq<PropertyRecord>)
    requires i <= |basic|
    ensures |r| <= |basic| - i
    decreases |basic| - i
  {
    if i == |basic| then [] else Fetched(fetch, basic[i], visit(i)) + AllFetched(fetch, basic, visit, i + 1)
  }

  /** Appending the records of listings `i` onwards is appending those of
      listing `i`, then those after it. */
  lemma AppendRest<T>(a: seq<T>, here: seq<T>, rest: seq<T>, all: seq<T>)
    requires all == here + rest
    ensures a + all == (a + here) + rest
  {
  }

  /** What a list gained past `a` is what it gained up to `b`, then past `b`. */
  lemma SliceThrough<T>(a: seq<T>, b: seq<T>, c: seq<T>)
    requires a <= b && b <= c
    ensures a <= c && c[|a|..] == b[|a|..] + c[|b|..]
  {
  }

  /** A record obtained always joins both lists and the run goes on unless
      the breaker fires; it is counted as a failure as well exactly when its
      save could not connect or its batch raised. */
  lemma KeepFacts(c: ScrapingConfig, w: World, rs: RunState, p: PropertyRecord, v: Visit, n: nat)
    ensures var (w', rs', ctl) := Keep(c, w, rs, p, v, n);
      && ctl != Raise
      && rs'.detailed == rs.detailed + [p]
      && w'.detailedAll == w.detailedAll + [p]
      && w'.pacer == w.pacer
      && (rs'.failed == rs.failed || rs'.failed == rs.failed + 1)
      && (rs'.failed == rs.failed + 1 <==>
            (c.useDatabase && v.dbConnectFails) || BatchOutcome(c, w.batches, rs.detailed + [p], v.batchWriteFails).1)
      && (ctl == Stop ==> rs'.failed == rs.failed + 1 && 10 * rs'.failed > 3 * n)
  {
  }

  /** Keeping a record never raises: every error on that path is caught. */
  lemma KeepNeverRaises(c: ScrapingConfig, w: World, rs: RunState, p: PropertyRecord, v: Visit, n: nat)
    ensures Keep(c, w, rs, p, v, n).2 != Raise
  {
  }

  /** One listing raises exactly when it has a URL and the pacer finds the
      limit below one with an empty window. */
  lemma StepRaise(c: ScrapingConfig, fetch: Fetcher, w: World, rs: RunState, listing: Cards.Listing, v: Visit, n: nat)
    ensures Step(c, fetch, w, rs, listing, v, n).2 == Raise <==>
      listing.detailUrl.GetOr("") != "" && c.maxRequestsPerMinute <= 0 && KeepAfter(w.pacer.requestTimes, v.now - Minute) == []
  {
    var url := listing.detailUrl.GetOr("");
    if url != "" {
      var paced := Pace(c, w.pacer, v.now, v.hour, v.minDelay);
      PaceFailsOnlyWithoutLimit(c, w.pacer, v.now, v.hour, v.minDelay);
      if paced.1.WindowIndexError? {
        assert Step(c, fetch, w, rs, listing, v, n) == (w.(pacer := paced.0), rs, Raise);
      } else {
        match fetch(CleanDetailUrl(url), listing.title.GetOr(""), v)
        case None =>
        case Some(p) =>
          KeepNeverRaises(c, w.(pacer := paced.0), rs, p, v, n);
          assert Step(c, fetch, w, rs, listing, v, n) == Keep(c, w.(pacer := paced.0), rs, p, v, n);
      }
    }
  }

  /** Unless it raises, one listing adds the record fetched (if any) to the
      run and to the object's list, and nothing else. */
  lemma StepRecords(c: ScrapingConfig, fetch: Fetcher, w: World, rs: RunState, listing: Cards.Listing, v: Visit, n: nat)
    ensures var st := Step(c, fetch, w, rs, listing, v, n);
      && st.1.detailed == rs.detailed + (if st.2 == Raise then [] else Fetched(fetch, listing, v))
      && st.0.detailedAll == w.detailedAll + st.1.detailed[|rs.detailed|..]
  {
    var url := listing.detailUrl.GetOr("");
    if url != "" {
      var pacer := Pace(c, w.pacer, v.now, v.hour, v.minDelay).0;
      var rec := fetch(CleanDetailUrl(url), listing.title.GetOr(""), v);
      if Pace(c, w.pacer, v.now, v.hour, v.minDelay).1.Paced? && rec.Some? {
        KeepFacts(c, w.(pacer := pacer), rs, rec.value, v, n);
        assert (rs.detailed + [rec.value])[|rs.detailed|..] == [rec.value];
      }
    }
  }

  /** One listing adds at most one failure; a listing that does not raise
      and yields no record is one; the breaker only fires on a record kept
      and also counted as a failure; a listing without URL changes nothing
      but the failure count. */
  lemma StepFailures(c: ScrapingConfig, fetch: Fetcher, w: World, rs: RunState, listing: Cards.Listing, v: Visit, n: nat)
    ensures var st := Step(c, fetch, w, rs, listing, v, n);
      && (st.1.failed == rs.failed || st.1.failed == rs.failed + 1)
      && (st.2 != Raise && Fetched(fetch, listing, v) == [] ==> st.1.failed == rs.failed + 1)
      && (st.2 == Stop ==> 10 * st.1.failed > 3 * n && |Fetched(fetch, listing, v)| == 1 && st.1.failed == rs.failed + 1)
      && (listing.detailUrl.GetOr("") == "" ==> st.0 == w && st.2 == Next)
  {
    var url := listing.detailUrl.GetOr("");
    if url != "" {
      var pacer := Pace(c, w.pacer, v.now, v.hour, v.minDelay).0;
      var rec := fetch(CleanDetailUrl(url), listing.title.GetOr(""), v);
      if Pace(c, w.pacer, v.now, v.hour, v.minDelay).1.Paced? && rec.Some? {
        KeepFacts(c, w.(pacer := pacer), rs, rec.value, v, n);
      }
    }
  }

  /** One listing: an exception leaves only through the pacer, exactly when
      the limit is below one and the window is empty; otherwise the record
      fetched (if any) joins the run and the object's list, a listing without
      record is a failure, the breaker only fires on a kept record that is
      also counted as a failure, and a listing without URL touches nothing. */
  lemma StepAccounting(c: ScrapingConfig, fetch: Fetcher, w: World, rs: RunState, listing: Cards.Listing, v: Visit, n: nat)
    ensures var st := Step(c, fetch, w, rs, listing, v, n);
      && (st.2 == Raise <==> (listing.detailUrl.GetOr("") != "" && c.maxRequestsPerMinute <= 0
                              && KeepAfter(w.pacer.requestTimes, v.now - Minute) == []))
      && st.1.detailed == rs.detailed + (if st.2 == Raise then [] else Fetched(fetch, listing, v))
      && st.0.detailedAll == w.detailedAll + st.1.detailed[|rs.detailed|..]
      && (st.1.failed == rs.failed || st.1.failed == rs.failed + 1)
      && (st.2 != Raise && Fetched(fetch, listing, v) == [] ==> st.1.failed == rs.failed + 1)
      && (st.2 == Stop ==> 10 * st.1.failed > 3 * n && |Fetched(fetch, listing, v)| == 1 && st.1.failed == rs.failed + 1)
      && (listing.detailUrl.GetOr("") == "" ==> st.0 == w && st.2 == Next)
  {
    StepRaise(c, fetch, w, rs, listing, v, n);
    StepRecords(c, fetch, w, rs, listing, v, n);
    StepFailures(c, fetch, w, rs, listing, v, n);
  }

  /** What `StepAccounting` says of the result `st` of one listing, leaving
      aside when it raises: the record fetched (if any) joins the run unless
      it raised, the object's list grows by the same records, at most one
      failure is added, and the breaker fires only past 30%. */
  predicate Accounted(fetch: Fetcher, w: World, rs: RunState, listing: Cards.Listing, v: Visit, n: nat,
                      st: (World, RunState, Control)) {
    && st.1.detailed == rs.detailed + (if st.2 == Raise then [] else Fetched(fetch, listing, v))
    && st.0.detailedAll == w.detailedAll + st.1.detailed[|rs.detailed|..]
    && (st.1.failed == rs.failed || st.1.failed == rs.failed + 1)
    && (st.2 == Stop ==> 10 * st.1.failed > 3 * n)
  }

  /** `step` applied to one listing, named so that the laws below apply
      only where a proof names a step. */
  function StepAt(step: Stepper, w: World, rs: RunState, listing: Cards.Listing, v: Visit, n: nat): (World, RunState, Control) {
    step(w, rs, listing, v, n)
  }

  /** The scraper's step, named, is `Step`. */
  lemma StepOfIs(c: ScrapingConfig, fetch: Fetcher, w: World, rs: RunState, listing: Cards.Listing, v: Visit, n: nat)
    ensures StepAt(StepOf(c, fetch), w, rs, listing, v, n) == Step(c, fetch, w, rs, listing, v, n)
  {
  }

  /** Every result of `step` is accounted for. */
  ghost predicate Accounts(step: Stepper, fetch: Fetcher) {
    forall w, rs, listing, v, n {:trigger StepAt(step, w, rs, listing, v, n)} ::
      Accounted(fetch, w, rs, listing, v, n, StepAt(step, w, rs, listing, v, n))
  }

  /** The scraper's step accounts for its results. */
  lemma StepOfAccounts(c: ScrapingConfig, fetch: Fetcher)
    ensures Accounts(StepOf(c, fetch), fetch)
  {
    forall w, rs, listing, v, n
      ensures Accounted(fetch, w, rs, listing, v, n, StepAt(StepOf(c, fetch), w, rs, listing, v, n))
    {
      StepAccounting(c, fetch, w, rs, listing, v, n);
    }
  }

  /** The loop goes on from the next listing after a step that says so, and
      otherwise ends with that step's state. */
  lemma LoopNext(step: Stepper, w: World, rs: RunState, basic: seq<Cards.Listing>, i: nat, visit: nat -> Visit)
    requires i < |basic|
    ensures var st := StepAt(step, w, rs, basic[i], visit(i), |basic|);
      && (st.2 == Next ==> Loop(step, w, rs, basic, i, visit) == Loop(step, st.0, st.1, basic, i + 1, visit))
      && (st.2 != Next ==> Loop(step, w, rs, basic, i, visit) == (st.0, st.1, st.2 == Raise))
  {
  }

  /** From listing `i` on: the run's records only grow, the object's list
      grows by the same records, and failures only grow. */
  lemma {:induction false} LoopAccounting(step: Stepper, fetch: Fetcher, w: World, rs: RunState, basic: seq<Cards.Listing>, i: nat, visit: nat -> Visit)
    requires i <= |basic| && Accounts(step, fetch)
    ensures var r := Loop(step, w, rs, basic, i, visit);
      && rs.detailed <= r.1.detailed
      && r.0.detailedAll == w.detailedAll + r.1.detailed[|rs.detailed|..]
      && rs.failed <= r.1.failed
    decreases |basic| - i
  {
    if i < |basic| {
      var st := StepAt(step, w, rs, basic[i], visit(i), |basic|);
      assert Accounted(fetch, w, rs, basic[i], visit(i), |basic|, st);
      LoopNext(step, w, rs, basic, i, visit);
      if st.2 == Next {
        LoopAccounting(step, fetch, st.0, st.1, basic, i + 1, visit);
        SliceThrough(rs.detailed, st.1.detailed, Loop(step, st.0, st.1, basic, i + 1, visit).1.detailed);
      }
    }
  }

  /** Unless an exception left the method or the breaker fired (more than
      30% of the listings failed), every listing from `i` on was visited, so
      the run holds the records of all of them, in order. */
  lemma {:induction false} LoopVisitsAll(step: Stepper, fetch: Fetcher, w: World, rs: RunState, basic: seq<Cards.Listing>, i: nat, visit: nat -> Visit)
    requires i <= |basic| && Accounts(step, fetch)
    ensures var r := Loop(step, w, rs, basic, i, visit);
      !r.2 && 10 * r.1.failed <= 3 * |basic| ==> r.1.detailed == rs.detailed + AllFetched(fetch, basic, visit, i)
    decreases |basic| - i
  {
    if i < |basic| {
      var st := StepAt(step, w, rs, basic[i], visit(i), |basic|);
      assert Accounted(fetch, w, rs, basic[i], visit(i), |basic|, st);
      LoopNext(step, w, rs, basic, i, visit);
      if st.2 == Next {
        LoopVisitsAll(step, fetch, st.0, st.1, basic, i + 1, visit);
        var here, rest := Fetched(fetch, basic[i], visit(i)), AllFetched(fetch, basic, visit, i + 1);
        AppendRest(rs.detailed, here, rest, AllFetched(fetch, basic, visit, i));
      }
    }
  }

  // ---------------------------------------------------------------------------
  // A run without faults

  /** Nothing in the visit raises: no connection error when the database is
      on, no batch file error. */
  predicate NoFault(c: ScrapingConfig, v: Visit) {
    !(c.useDatabase && v.dbConnectFails) && !v.batchWriteFails
  }

  /** A configuration allowing requests and batches, and visits from `i` to
      `n` without faults. */
  predicate CleanFrom(c: ScrapingConfig, visit: nat -> Visit, i: nat, n: nat) {
    && c.batchSaveSize >= 1
    && c.maxRequestsPerMinute >= 1
    && forall j | i <= j < n :: NoFault(c, visit(j))
  }

  /** The batches `bs` written so far hold, in order, a prefix of the run's
      records `d` that is a whole number of full batches and lacks fewer than
      a batch. */
  predicate BatchInv(b: int, bs: seq<seq<PropertyRecord>>, d: seq<PropertyRecord>)
    requires b >= 1
  {
    && Flatten(bs) <= d
    && |Flatten(bs)| % b == 0
    && |d| - |Flatten(bs)| < b
    && forall k | 0 <= k < |bs| :: |bs[k]| == b
  }

  lemma MulAtLeast(b: int, k: int)
    requires b >= 1 && k >= 1
    ensures b * k >= b
  {
    if k > 1 {
      MulAtLeast(b, k - 1);
      assert b * k == b * (k - 1) + b;
    }
  }

  lemma MulAtMost(b: int, k: int)
    requires b >= 1 && k <= -1
    ensures b * k <= -b
    decreases -k
  {
    if k < -1 {
      MulAtMost(b, k + 1);
      assert b * k == b * (k + 1) - b;
    }
  }

  /** The remainder is the only `r` in `[0, b)` with `m == b * q + r`. */
  lemma RemainderUnique(m: int, b: int, q: int, r: int)
    requires b >= 1 && 0 <= r < b && m == b * q + r
    ensures m % b == r
  {
    var k := q - m / b;
    assert m == b * (m / b) + m % b;
    assert b * k == m % b - r by {
      assert b * k == b * q - b * (m / b);
    }
    if k >= 1 {
      MulAtLeast(b, k);
    } else if k <= -1 {
      MulAtMost(b, k);
    }
  }

  /** One batch after a multiple of `b` is again a multiple of `b`. */
  lemma NextMultiple(f: int, b: int)
    requires b >= 1 && f % b == 0
    ensures (f + b) % b == 0
  {
    assert f == b * (f / b) + f % b;
    assert f + b == b * (f / b + 1) + 0;
    RemainderUnique(f + b, b, f / b + 1, 0);
  }

  /** Past a multiple `f` of `b`, the remainder is the distance to `f`. */
  lemma RemainderPastMultiple(f: int, m: int, b: int)
    requires b >= 1 && f % b == 0 && f <= m < f + b
    ensures m % b == m - f
  {
    assert f == b * (f / b) + f % b;
    RemainderUnique(m, b, f / b, m - f);
  }

  /** Two multiples of `b` at most a batch apart, and distinct, are exactly a
      batch apart. */
  lemma MultiplesApart(f: int, m: int, b: int)
    requires b >= 1 && f % b == 0 && m % b == 0 && f < m <= f + b
    ensures m == f + b
  {
    if m < f + b {
      RemainderPastMultiple(f, m, b);
    }
  }

  /** A record that completes a batch: the last batch-size records are
      exactly those not yet written. */
  lemma {:induction false} FillBatch(b: int, bs: seq<seq<PropertyRecord>>, d: seq<PropertyRecord>, p: PropertyRecord)
    requires b >= 1 && BatchInv(b, bs, d) && (|d| + 1) % b == 0
    ensures |d| + 1 >= b
    ensures BatchInv(b, bs + [PySliceFrom(d + [p], -b)], d + [p])
  {
    var d' := d + [p];
    var F := Flatten(bs);
    MultiplesApart(|F|, |d'|, b);
    var batch := PySliceFrom(d', -b);
    assert batch == d'[|F|..];
    FlattenAppend(bs, batch);
    assert F + batch == d';
  }

  /** A record that does not complete a batch leaves the batches as they are. */
  lemma {:induction false} GrowBatch(b: int, bs: seq<seq<PropertyRecord>>, d: seq<PropertyRecord>, p: PropertyRecord)
    requires b >= 1 && BatchInv(b, bs, d) && (|d| + 1) % b != 0
    ensures BatchInv(b, bs, d + [p])
  {
    if |d| + 1 - |Flatten(bs)| == b {
      NextMultiple(|Flatten(bs)|, b);
    }
  }

  /** Adding a record keeps the batch invariant when no batch error is met. */
  lemma AddKeepsBatches(c: ScrapingConfig, B0: seq<seq<PropertyRecord>>, bs: seq<seq<PropertyRecord>>, d: seq<PropertyRecord>, p: PropertyRecord)
    requires c.batchSaveSize >= 1 && BatchInv(c.batchSaveSize, bs, d)
    ensures var r := BatchOutcome(c, B0 + bs, d + [p], false);
      !r.1 && B0 <= r.0 && BatchInv(c.batchSaveSize, r.0[|B0|..], d + [p])
  {
    var b := c.batchSaveSize;
    var r := BatchOutcome(c, B0 + bs, d + [p], false);
    if (|d| + 1) % b == 0 {
      FillBatch(b, bs, d, p);
      assert r.0 == B0 + (bs + [PySliceFrom(d + [p], -b)]);
    } else {
      GrowBatch(b, bs, d, p);
      assert r.0 == B0 + bs;
    }
    assert r.0[|B0|..] == r.0[|B0|..];
  }

  /** A record kept without faults: the loop goes on, the record joins both
      lists, and the batches are those the record completes. */
  lemma KeepClean(c: ScrapingConfig, w: World, rs: RunState, p: PropertyRecord, v: Visit, n: nat)
    requires c.batchSaveSize >= 1 && NoFault(c, v)
    ensures var k := Keep(c, w, rs, p, v, n);
      && k.2 == Next
      && k.1 == rs.(detailed := rs.detailed + [p])
      && k.0.detailedAll == w.detailedAll + [p]
      && k.0.batches == BatchOutcome(c, w.batches, rs.detailed + [p], false).0
  {
    assert !SaveOutcome(c.useDatabase, w.table, p, v.dbConnectFails, v.dbWriteFails).1;
    assert !BatchOutcome(c, w.batches, rs.detailed + [p], v.batchWriteFails).1;
  }

  /** What a listing without faults leaves, `f` being the records fetched for
      it: the loop goes on, the records join the run and the object's list, a
      listing without record is a failure, and the batches are those the
      records complete. */
  predicate CleanStepped(c: ScrapingConfig, w: World, rs: RunState, f: seq<PropertyRecord>, st: (World, RunState, Control)) {
    && st.2 == Next
    && st.1.detailed == rs.detailed + f
    && st.1.failed == rs.failed + 1 - |f|
    && st.0.detailedAll == w.detailedAll + f
    && st.0.batches == (if f == [] then w.batches else BatchOutcome(c, w.batches, rs.detailed + f, false).0)
  }

  /** One listing of a run without faults: no exception, and the record
      fetched (if any) joins the run and completes the batches it completes,
      else the listing is a failure. */
  lemma StepClean(c: ScrapingConfig, fetch: Fetcher, w: World, rs: RunState, listing: Cards.Listing, v: Visit, n: nat)
    requires c.batchSaveSize >= 1 && c.maxRequestsPerMinute >= 1 && NoFault(c, v)
    ensures CleanStepped(c, w, rs, Fetched(fetch, listing, v), Step(c, fetch, w, rs, listing, v, n))
  {
    var url := listing.detailUrl.GetOr("");
    if url != "" {
      var paced := Pace(c, w.pacer, v.now, v.hour, v.minDelay);
      PaceFailsOnlyWithoutLimit(c, w.pacer, v.now, v.hour, v.minDelay);
      match fetch(CleanDetailUrl(url), listing.title.GetOr(""), v)
      case None =>
        assert Step(c, fetch, w, rs, listing, v, n) == (w.(pacer := paced.0), rs.(failed := rs.failed + 1), Next);
      case Some(p) =>
        KeepClean(c, w.(pacer := paced.0), rs, p, v, n);
        assert Step(c, fetch, w, rs, listing, v, n) == Keep(c, w.(pacer := paced.0), rs, p, v, n);
    }
  }

  /** Every listing that `step` takes without faults is taken as
      `CleanStepped` says. */
  ghost predicate CleanSteps(step: Stepper, c: ScrapingConfig, fetch: Fetcher) {
    forall w, rs, listing, v, n {:trigger StepAt(step, w, rs, listing, v, n)} | NoFault(c, v) ::
      CleanStepped(c, w, rs, Fetched(fetch, listing, v), StepAt(step, w, rs, listing, v, n))
  }

  /** With requests and batches allowed, the scraper's step is clean on
      listings without faults. */
  lemma StepOfClean(c: ScrapingConfig, fetch: Fetcher)
    requires c.batchSaveSize >= 1 && c.maxRequestsPerMinute >= 1
    ensures CleanSteps(StepOf(c, fetch), c, fetch)
  {
    forall w, rs, listing, v, n | NoFault(c, v)
      ensures CleanStepped(c, w, rs, Fetched(fetch, listing, v), StepAt(StepOf(c, fetch), w, rs, listing, v, n))
    {
      StepClean(c, fetch, w, rs, listing, v, n);
    }
  }

  /** From listing `i` on, without faults, the run's records are exactly
      those fetched, in order. */
  lemma {:induction false} LoopClean(step: Stepper, c: ScrapingConfig, fetch: Fetcher, w: World, rs: RunState,
                                     basic: seq<Cards.Listing>, i: nat, visit: nat -> Visit)
    requires i <= |basic| && CleanFrom(c, visit, i, |basic|) && CleanSteps(step, c, fetch)
    ensures Loop(step, w, rs, basic, i, visit).1.detailed == rs.detailed + AllFetched(fetch, basic, visit, i)
    decreases |basic| - i
  {
    if i < |basic| {
      var st := StepAt(step, w, rs, basic[i], visit(i), |basic|);
      var here, rest := Fetched(fetch, basic[i], visit(i)), AllFetched(fetch, basic, visit, i + 1);
      assert CleanStepped(c, w, rs, here, st);
      LoopNext(step, w, rs, basic, i, visit);
      LoopClean(step, c, fetch, st.0, st.1, basic, i + 1, visit);
      AppendRest(rs.detailed, here, rest, AllFetched(fetch, basic, visit, i));
    }
  }

  /** From listing `i` on, without faults, the loop runs to the end without
      exception, and every listing without a record is counted as a
      failure, and no other. */
  lemma {:induction false} LoopCleanFailures(step: Stepper, c: ScrapingConfig, fetch: Fetcher, w: World, rs: RunState,
                                             basic: seq<Cards.Listing>, i: nat, visit: nat -> Visit)
    requires i <= |basic| && CleanFrom(c, visit, i, |basic|) && CleanSteps(step, c, fetch)
    ensures var r := Loop(step, w, rs, basic, i, visit);
      !r.2 && r.1.failed == rs.failed + (|basic| - i) - |AllFetched(fetch, basic, visit, i)|
    decreases |basic| - i
  {
    if i < |basic| {
      var st := StepAt(step, w, rs, basic[i], visit(i), |basic|);
      assert CleanStepped(c, w, rs, Fetched(fetch, basic[i], visit(i)), st);
      LoopNext(step, w, rs, basic, i, visit);
      LoopCleanFailures(step, c, fetch, st.0, st.1, basic, i + 1, visit);
      assert AllFetched(fetch, basic, visit, i) == Fetched(fetch, basic[i], visit(i)) + AllFetched(fetch, basic, visit, i + 1);
    }
  }

  /** From listing `i` on, without faults, the batch invariant holds at the end. */
  lemma {:induction false} LoopCleanBatches(step: Stepper, c: ScrapingConfig, fetch: Fetcher, w: World, rs: RunState,
                                            basic: seq<Cards.Listing>, i: nat, visit: nat -> Visit, B0: seq<seq<PropertyRecord>>)
    requires i <= |basic| && CleanFrom(c, visit, i, |basic|) && CleanSteps(step, c, fetch)
    requires B0 <= w.batches && BatchInv(c.batchSaveSize, w.batches[|B0|..], rs.detailed)
    ensures var r := Loop(step, w, rs, basic, i, visit);
      B0 <= r.0.batches && BatchInv(c.batchSaveSize, r.0.batches[|B0|..], r.1.detailed)
    decreases |basic| - i
  {
    if i < |basic| {
      var st := StepAt(step, w, rs, basic[i], visit(i), |basic|);
      var f := Fetched(fetch, basic[i], visit(i));
      assert CleanStepped(c, w, rs, f, st);
      if f != [] {
        assert w.batches == B0 + w.batches[|B0|..];
        AddKeepsBatches(c, B0, w.batches[|B0|..], rs.detailed, f[0]);
        assert f == [f[0]];
      }
      LoopNext(step, w, rs, basic, i, visit);
      LoopCleanBatches(step, c, fetch, st.0, st.1, basic, i + 1, visit, B0);
    }
  }

  /** Before the first record, no batch is due. */
  lemma NothingDue(b: int)
    requires b >= 1
    ensures BatchInv(b, [], [])
  {
    assert 0 == b * 0 + 0;
    RemainderUnique(0, b, 0, 0);
  }

  /** Every batch holds between one and `b` records. */
  predicate BatchSizes(b: int, bs: seq<seq<PropertyRecord>>) {
    forall k | 0 <= k < |bs| :: 0 < |bs[k]| <= b
  }

  /** Without a remainder, the batches already hold every record. */
  lemma {:induction false} NoRemainder(b: int, bs: seq<seq<PropertyRecord>>, d: seq<PropertyRecord>)
    requires b >= 1 && BatchInv(b, bs, d) && |d| % b == 0
    ensures Flatten(bs) == d
  {
    RemainderPastMultiple(|Flatten(bs)|, |d|, b);
  }

  /** The remainder is exactly what the batches lack, and writing it as one
      more batch completes them. */
  lemma {:induction false} LastBatch(b: int, bs: seq<seq<PropertyRecord>>, d: seq<PropertyRecord>)
    requires b >= 1 && BatchInv(b, bs, d) && |d| % b != 0
    ensures Flatten(bs + [PySliceFrom(d, -(|d| % b))]) == d
    ensures 0 < |PySliceFrom(d, -(|d| % b))| < b
  {
    var F := Flatten(bs);
    RemainderPastMultiple(|F|, |d|, b);
    var batch := PySliceFrom(d, -(|d| % b));
    assert batch == d[|F|..];
    FlattenAppend(bs, batch);
    assert F + batch == d;
  }

  /** The final flush, without a write error, completes the batches: they
      hold exactly this run's records, each batch between one and the batch
      size long. */
  lemma FlushCompletes(c: ScrapingConfig, w: World, d: seq<PropertyRecord>, B0: seq<seq<PropertyRecord>>)
    requires c.batchSaveSize >= 1 && B0 <= w.batches && BatchInv(c.batchSaveSize, w.batches[|B0|..], d)
    ensures var r := Flush(c, w, d, false);
      && !r.1
      && B0 <= r.0.batches
      && Flatten(r.0.batches[|B0|..]) == d
      && BatchSizes(c.batchSaveSize, r.0.batches[|B0|..])
      && r.0 == w.(batches := r.0.batches)
  {
    var b := c.batchSaveSize;
    var bs := w.batches[|B0|..];
    var r := Flush(c, w, d, false);
    if d == [] {
      assert r.0 == w;
      assert Flatten(bs) == [];
    } else if |d| % b == 0 {
      assert r.0 == w;
      NoRemainder(b, bs, d);
    } else {
      var batch := PySliceFrom(d, -(|d| % b));
      LastBatch(b, bs, d);
      assert r.0.batches == w.batches + [batch];
      assert r.0.batches[|B0|..] == bs + [batch];
    }
  }

  /** A run without faults returns the records of every listing that has a
      URL and a page, in order, and the object's list grows by exactly those. */
  lemma VisitsClean(c: ScrapingConfig, fetch: Fetcher, w: World, basic: seq<Cards.Listing>, visit: nat -> Visit)
    requires CleanFrom(c, visit, 0, |basic|)
    ensures var r := Visits(c, fetch, w, basic, visit, false);
      && r.1 == Returned(AllFetched(fetch, basic, visit, 0))
      && r.0.detailedAll == w.detailedAll + r.1.properties
  {
    assert w.batches[|w.batches|..] == [];
    NothingDue(c.batchSaveSize);
    var step := StepOf(c, fetch);
    StepOfClean(c, fetch);
    StepOfAccounts(c, fetch);
    LoopClean(step, c, fetch, w, RunState([], 0), basic, 0, visit);
    LoopCleanFailures(step, c, fetch, w, RunState([], 0), basic, 0, visit);
    LoopAccounting(step, fetch, w, RunState([], 0), basic, 0, visit);
    LoopCleanBatches(step, c, fetch, w, RunState([], 0), basic, 0, visit, w.batches);
    var l := Loop(step, w, RunState([], 0), basic, 0, visit);
    assert l.1.detailed[0..] == l.1.detailed;
    FlushCompletes(c, l.0, l.1.detailed, w.batches);
  }

  /** In a run without faults, the batch files written during the run hold
      all the records it returns, in order, in batches of one to the batch
      size records. */
  lemma VisitsCleanBatches(c: ScrapingConfig, fetch: Fetcher, w: World, basic: seq<Cards.Listing>, visit: nat -> Visit)
    requires CleanFrom(c, visit, 0, |basic|)
    ensures var r := Visits(c, fetch, w, basic, visit, false);
      && r.1.Returned?
      && w.batches <= r.0.batches
      && Flatten(r.0.batches[|w.batches|..]) == r.1.properties
      && BatchSizes(c.batchSaveSize, r.0.batches[|w.batches|..])
  {
    assert w.batches[|w.batches|..] == [];
    NothingDue(c.batchSaveSize);
    var step := StepOf(c, fetch);
    StepOfClean(c, fetch);
    LoopClean(step, c, fetch, w, RunState([], 0), basic, 0, visit);
    LoopCleanFailures(step, c, fetch, w, RunState([], 0), basic, 0, visit);
    LoopCleanBatches(step, c, fetch, w, RunState([], 0), basic, 0, visit, w.batches);
    var l := Loop(step, w, RunState([], 0), basic, 0, visit);
    FlushCompletes(c, l.0, l.1.detailed, w.batches);
  }

  /** `scrape_detailed_listings` without faults: nothing found gives an empty
      result; otherwise the records of the kept listings that have a URL and
      a page, all of them written to batch files. */
  lemma DetailedClean(c: ScrapingConfig, w: World, basic: seq<Cards.Listing>, maxListings: Option<int>, visit: nat -> Visit)
    requires CleanFrom(c, visit, 0, |basic|)
    ensures var r := Detailed(c, w, basic, maxListings, visit, false);
      && r.1 == Returned(if basic == [] then [] else AllFetched(DetailFetch(c), Truncate(basic, maxListings), visit, 0))
      && r.0.detailedAll == w.detailedAll + r.1.properties
      && w.batches <= r.0.batches
      && Flatten(r.0.batches[|w.batches|..]) == r.1.properties
  {
    if basic == [] {
      assert w.batches[|w.batches|..] == [];
    } else {
      var kept := Truncate(basic, maxListings);
      TruncateLimit(basic, maxListings);
      VisitsClean(c, DetailFetch(c), w, kept, visit);
      VisitsCleanBatches(c, DetailFetch(c), w, kept, visit);
    }
  }
}
