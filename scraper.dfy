/** The scraper object: the listings it has gathered, the records it has
    built, the batch files it has written, and its pacer and database
    (data-pipeline/scrapers/portal_inmobiliario.py:15-212, 406-500, 914-925). */
module Scraper {
  import opened Wrappers
  import opened Models
  import opened Pages
  import opened Pacing
  import Cards
  import opened Listing
  import opened Database
  import opened Run

  /** The probe loop: whether some probe selector matched more than five
      elements. */
  method FindProbeMatch(page: SearchPage) returns (found: bool)
    ensures found == ProbeFound(page)
  {
    found := false;
    var i := 0;
    while i < |page.probeCounts|
      invariant 0 <= i <= |page.probeCounts|
      invariant forall k | 0 <= k < i :: page.probeCounts[k] <= 5
    {
      if page.probeCounts[i] > 5 {
        found := true;
        return;
      }
      i := i + 1;
    }
  }

  /** The handler of an exception inside a visit: one more failure, and the
      breaker's test `failed_count > len(basic_listings) * 0.3`. */
  method CountFailure(rs: RunState, n: nat) returns (rs': RunState, ctl: Control)
    ensures (rs', ctl) == Breaker(rs, n)
    ensures rs'.failed == rs.failed + 1 && rs'.detailed == rs.detailed
    ensures ctl == Stop <==> 10 * rs'.failed > 3 * n
  {
    rs' := rs.(failed := rs.failed + 1);
    ctl := Next;
    if 10 * rs'.failed > 3 * n {
      ctl := Stop;
    }
  }

  /** `PortalInmobiliarioScraper`. */
  class PortalScraper {
    const config: ScrapingConfig
    const limiter: RateLimiter
    const db: DatabaseManager
    // `self.results`
    var results: seq<Cards.Listing>
    // `self.detailed_properties`
    var detailedProperties: seq<PropertyRecord>
    // the batch files written, in order
    var batches: seq<seq<PropertyRecord>>

    /** The pacer and the database follow the scraper's own configuration. */
    predicate Valid() {
      limiter.config == config && db.useDatabase == config.useDatabase
    }

    /** What the visits may change. */
    function WorldOf(): World
      reads this, limiter, db
    {
      World(detailedProperties, batches, limiter.State(), db.table)
    }

    /** `PortalInmobiliarioScraper(config=config)` over a database file
        holding `file`. */
    constructor (config: ScrapingConfig, file: Table)
      ensures Valid() && this.config == config
      ensures fresh(limiter) && fresh(db)
      ensures results == [] && detailedProperties == [] && batches == []
      ensures limiter.State() == PacerState([], 0.0) && db.table == file
    {
      this.config := config;
      limiter := new RateLimiter(config);
      db := new DatabaseManager(config, file);
      results := [];
      detailedProperties := [];
      batches := [];
    }

    /** `scrape_listings(url, max_pages)`, `pages[n-1]` being what results
        page `n` shows; a browser that fails to launch gives `[]`. */
    method ScrapeListings(pages: seq<SearchPage>, maxPages: Option<int>, launchFails: bool) returns (r: seq<Cards.Listing>)
      modifies this
      ensures launchFails ==> r == [] && results == old(results)
      ensures !launchFails ==> results == old(results) + Crawl(pages, 1, maxPages) && r == results
      ensures detailedProperties == old(detailedProperties) && batches == old(batches)
    {
      if launchFails {
        return [];
      }
      var n := 1;
      while n <= |pages|
        invariant 1 <= n
        invariant old(results) + Crawl(pages, 1, maxPages) == results + Crawl(pages, n, maxPages)
        invariant detailedProperties == old(detailedProperties) && batches == old(batches)
        decreases |pages| + 1 - n
      {
        var page := pages[n - 1];
        if !page.reached {
          assert Crawl(pages, n, maxPages) == [];
          break;
        }
        var found := FindProbeMatch(page);
        if !found {
          assert Crawl(pages, n, maxPages) == [];
          break;
        }
        var listings := Cards.ExtractListings(page);
        if listings == [] {
          assert Crawl(pages, n, maxPages) == [];
          break;
        }
        ghost var before := results;
        results := results + listings;
        if (IntTruthy(maxPages) && n >= maxPages.value) || !page.hasNext {
          assert Crawl(pages, n, maxPages) == listings;
          break;
        }
        assert Crawl(pages, n, maxPages) == listings + Crawl(pages, n + 1, maxPages);
        AppendRest(before, listings, Crawl(pages, n + 1, maxPages), Crawl(pages, n, maxPages));
        n := n + 1;
      }
      r := results;
    }

    /** `save_detailed_results_batch(batch)`. */
    method SaveBatch(batch: seq<PropertyRecord>, writeFails: bool) returns (raised: bool)
      modifies this
      ensures (batches, raised) == WriteBatch(old(batches), batch, writeFails)
      ensures results == old(results) && detailedProperties == old(detailedProperties)
    {
      raised := false;
      if batch == [] {
        return;
      }
      if writeFails {
        raised := true;
        return;
      }
      batches := batches + [batch];
    }

    /** The part of a visit after a record was obtained. */
    method KeepProperty(p: PropertyRecord, v: Visit, n: nat, rs: RunState) returns (rs': RunState, ctl: Control)
      requires Valid()
      modifies this, db
      ensures (WorldOf(), rs', ctl) == Keep(config, old(WorldOf()), rs, p, v, n)
      ensures results == old(results)
    {
      var detailed := rs.detailed + [p];
      rs' := rs.(detailed := detailed);
      detailedProperties := detailedProperties + [p];
      ctl := Next;
      if config.useDatabase {
        var raised := db.SaveProperty(p, v.dbConnectFails, v.dbWriteFails);
        if raised {
          rs', ctl := CountFailure(rs', n);
          return;
        }
      }
      if config.batchSaveSize == 0 {
        rs', ctl := CountFailure(rs', n);
        return;
      }
      if PyMod(|detailed|, config.batchSaveSize) == 0 {
        var raised := SaveBatch(PySliceFrom(detailed, -config.batchSaveSize), v.batchWriteFails);
        if raised {
          rs', ctl := CountFailure(rs', n);
        }
      }
    }

    /** One iteration of the listing loop, for listing `listing` out of `n`. */
    method ProcessListing(listing: Cards.Listing, v: Visit, n: nat, rs: RunState) returns (rs': RunState, ctl: Control)
      requires Valid()
      modifies this, limiter, db
      ensures (WorldOf(), rs', ctl) == Step(config, DetailFetch(config), old(WorldOf()), rs, listing, v, n)
      ensures results == old(results)
    {
      var url := listing.detailUrl.GetOr("");
      if url == "" {
        return rs.(failed := rs.failed + 1), Next;
      }
      var cleanUrl := CleanDetailUrl(url);
      var pacing := limiter.WaitIfNeeded(v.now, v.hour, v.minDelay);
      if pacing.WindowIndexError? {
        return rs, Raise;
      }
      var title := listing.title.GetOr("");
      var r := ScrapeIndividualListing(config, cleanUrl, title, v);
      assert DetailFetch(config)(cleanUrl, title, v) == DetailRecord(config, cleanUrl, title, v);
      if r.None? {
        return rs.(failed := rs.failed + 1), Next;
      }
      rs', ctl := KeepProperty(r.value.fields, v, n, rs);
    }

    /** The records not yet in a batch file, written after the loop. */
    method FlushRemaining(detailed: seq<PropertyRecord>, writeFails: bool) returns (raised: bool)
      modifies this
      ensures (WorldOf(), raised) == Flush(config, old(WorldOf()), detailed, writeFails)
      ensures results == old(results)
    {
      raised := false;
      if detailed == [] {
        return;
      }
      if config.batchSaveSize == 0 {
        raised := true;
        return;
      }
      var remaining := PyMod(|detailed|, config.batchSaveSize);
      if remaining > 0 {
        raised := SaveBatch(PySliceFrom(detailed, -remaining), writeFails);
      }
    }

    /** The listing loop over `basic` and the final flush. */
    method VisitAll(basic: seq<Cards.Listing>, visit: nat -> Visit, flushFails: bool) returns (out: Outcome)
      requires Valid()
      modifies this, limiter, db
      ensures (WorldOf(), out) == Visits(config, DetailFetch(config), old(WorldOf()), basic, visit, flushFails)
      ensures results == old(results)
    {
      var rs := RunState([], 0);
      var i := 0;
      ghost var step := StepOf(config, DetailFetch(config));
      while i < |basic|
        invariant i <= |basic|
        invariant Loop(step, old(WorldOf()), RunState([], 0), basic, 0, visit) == Loop(step, WorldOf(), rs, basic, i, visit)
        invariant results == old(results)
      {
        ghost var w := WorldOf();
        ghost var before := rs;
        var ctl;
        rs, ctl := ProcessListing(basic[i], visit(i), |basic|, rs);
        StepOfIs(config, DetailFetch(config), w, before, basic[i], visit(i), |basic|);
        LoopNext(step, w, before, basic, i, visit);
        if ctl == Raise {
          return Raised;
        }
        if ctl == Stop {
          break;
        }
        i := i + 1;
      }
      var raised := FlushRemaining(rs.detailed, flushFails);
      out := if raised then Raised else Returned(rs.detailed);
    }

    /** `scrape_detailed_listings(url, max_pages, max_listings)`: the search,
        then the visits of the listings it gathered (all of `self.results`),
        cut to `maxListings` when that is truthy; `visit(i)` is what visiting
        the `i`-th of them meets. */
    method ScrapeDetailedListings(pages: seq<SearchPage>, maxPages: Option<int>, maxListings: Option<int>,
                                  launchFails: bool, visit: nat -> Visit, flushFails: bool)
      returns (out: Outcome)
      requires Valid()
      modifies this, limiter, db
      ensures results == if launchFails then old(results) else old(results) + Crawl(pages, 1, maxPages)
      ensures (WorldOf(), out) == Detailed(config, old(WorldOf()), if launchFails then [] else results, maxListings, visit, flushFails)
    {
      var basic := ScrapeListings(pages, maxPages, launchFails);
      if basic == [] {
        return Returned([]);
      }
      if IntTruthy(maxListings) {
        basic := PyPrefix(basic, maxListings.value);
      }
      out := VisitAll(basic, visit, flushFails);
    }
  }
}
