/** `scrape_individual_listing` and the URL handling around it: the cleaned
    detail URL, the listing id and the order of the extraction passes
    (data-pipeline/scrapers/portal_inmobiliario.py:442-443, 502-556). */
module Listing {
  import opened Wrappers
  import opened Text
  import opened Patterns
  import opened Models
  import opened Pages
  import Financial
  import Details
  import Location
  import Building
  import Amenities
  import Media
  import Metadata
  import Quality

  // ---------------------------------------------------------------------------
  // URL and id

  /** `detail_url.split('#')[0].split('?')[0]`: the URL without its fragment
      and query. */
  function CleanDetailUrl(u: string): (r: string)
    ensures r <= u
    ensures '#' !in r && '?' !in r
    ensures '#' !in u && '?' !in u ==> r == u
  {
    var noFragment := BeforeFirst(u, '#');
    if '#' !in u && '?' !in u then
      BeforeFirstAbsent(u, '#');
      BeforeFirstAbsent(u, '?');
      BeforeFirst(noFragment, '?')
    else
      BeforeFirst(noFragment, '?')
  }

  /** Cleaning a cleaned URL changes nothing. */
  lemma CleanDetailUrlIdempotent(u: string)
    ensures CleanDetailUrl(CleanDetailUrl(u)) == CleanDetailUrl(u)
  {
  }

  /** The group of the leftmost `MLC-(\d+)` in `url`, or `""`. */
  function ListingId(url: string): (r: string)
    ensures r == "" || AllDigits(r)
    ensures r == "" <==> forall k | 0 <= k <= |url| :: ListingIdAt(url, k).None?
  {
    var m := Search(url, 0, ListingIdAt);
    if m.Some? then
      assert exists k | 0 <= k <= |url| :: ListingIdAt(url, k) == m;
      m.value
    else ""
  }

  /** The id is the leftmost match: when no `MLC-<digits>` starts inside `a`
      and no digit follows the run `d`, it is exactly that run. */
  lemma ListingIdOf(a: string, d: string, b: string)
    requires forall k | 0 <= k < |a| :: ListingIdAt(a + "MLC-" + d + b, k).None?
    requires d != [] && AllDigits(d)
    requires b == [] || !IsDigit(b[0])
    ensures ListingId(a + "MLC-" + d + b) == d
  {
    var u := a + "MLC-" + d + b;
    IdAtMarker(a, d, b);
    SearchIsLeftmost(u, 0, ListingIdAt, |a|);
    var j :| 0 <= j <= |a| && Search(u, 0, ListingIdAt) == ListingIdAt(u, j) &&
      forall i | 0 <= i < j :: ListingIdAt(u, i).None?;
    assert j == |a|;
  }

  /** In particular, a prefix without any `M` never holds an earlier match. */
  lemma ListingIdAfterPlainPrefix(a: string, d: string, b: string)
    requires 'M' !in a && d != [] && AllDigits(d)
    requires b == [] || !IsDigit(b[0])
    ensures ListingId(a + "MLC-" + d + b) == d
  {
    NoIdBeforeMarker(a, d + b);
    assert a + "MLC-" + d + b == a + "MLC-" + (d + b);
    ListingIdOf(a, d, b);
  }

  /** Right at the marker the pattern matches the digit run `d`. */
  lemma IdAtMarker(a: string, d: string, b: string)
    requires d != [] && AllDigits(d)
    requires b == [] || !IsDigit(b[0])
    ensures ListingIdAt(a + "MLC-" + d + b, |a|) == Some(d)
  {
    var u := a + "MLC-" + d + b;
    var k := |a|;
    assert u[k..][..4] == "MLC-";
    SpanEndIs(u, k + 4, k + 4 + |d|, IsDigit);
    assert u[k + 4..k + 4 + |d|] == d;
  }

  /** Before the marker, with no `M` there, the pattern matches nowhere. */
  lemma NoIdBeforeMarker(a: string, rest: string)
    requires 'M' !in a
    ensures forall j | 0 <= j < |a| :: ListingIdAt(a + "MLC-" + rest, j).None?
  {
    var u := a + "MLC-" + rest;
    forall j | 0 <= j < |a| ensures ListingIdAt(u, j).None? {
      assert u[j] == a[j];
    }
  }

  // ---------------------------------------------------------------------------
  // One listing

  /** The passes in the order the scraper runs them, from the new record
      `p`: the media pass only when images are saved, the cleaning only when
      data is validated. */
  function Passes(c: ScrapingConfig, p: PropertyRecord, page: DetailPage, currentYear: int): PropertyRecord {
    var p1 := Financial.FinancialData(p, page);
    var p2 := Details.PropertyDetails(p1, page);
    var p3 := Location.LocationData(p2, page);
    var p4 := Building.BuildingFeatures(p3, page, currentYear);
    var p5 := Amenities.AmenitiesData(p4, page);
    var p6 := if c.saveImages then Media.MediaData(p5, page) else p5;
    var p7 := Metadata.MetadataData(p6, page);
    if c.validateData then Quality.Clean(p7) else p7
  }

  /** The record of one listing page: the new record with the id found in
      the URL, then the passes; `None` when navigating to the page raised. */
  function DetailRecord(c: ScrapingConfig, url: string, title: string, v: Visit): Option<PropertyRecord> {
    if v.page.None? then None
    else Some(Passes(c, NewPropertyRecord(ListingId(url), title, url, v.capturedAt), v.page.value, v.currentYear))
  }

  /** What every pass keeps: the fields no pass writes, and the presence of
      both lists. */
  predicate Kept(a: PropertyRecord, b: PropertyRecord) {
    && a.listingId == b.listingId && a.title == b.title && a.url == b.url && a.scrapedAt == b.scrapedAt
    && (a.amenities.Some? ==> b.amenities.Some?) && (a.imageUrls.Some? ==> b.imageUrls.Some?)
  }

  /** The financial, detail, location and building passes each keep what
      `Kept` names. */
  lemma EarlyPassesKeep(p: PropertyRecord, page: DetailPage, year: int)
    ensures Kept(p, Financial.FinancialData(p, page))
    ensures Kept(p, Details.PropertyDetails(p, page))
    ensures Kept(p, Location.LocationData(p, page))
    ensures Kept(p, Building.BuildingFeatures(p, page, year))
  {
    Financial.PricePassFrame(p, page.priceTexts);
    Financial.MaintenancePassFee(Financial.PricePass(p, page.priceTexts), page.maintenanceTexts);
    Details.PropertyDetailsKeeps(p, page);
    Location.AddressLoopFrame(p, page.addressTexts);
    Building.BuildingFeaturesFacts(p, page, year);
  }

  /** The amenity, media, metadata and cleaning passes each keep what `Kept`
      names. */
  lemma LatePassesKeep(p: PropertyRecord, page: DetailPage)
    ensures Kept(p, Amenities.AmenitiesData(p, page))
    ensures Kept(p, Media.MediaData(p, page))
    ensures Kept(p, Metadata.MetadataData(p, page))
    ensures Kept(p, Quality.Clean(p))
  {
    if page.bodyText.Some? {
      Amenities.AmenityListDistinct(p, page);
      Metadata.MetadataFacts(p, page);
    }
    Media.MediaDataFacts(p, page);
    Quality.CleanFrame(p);
  }

  /** The passes together keep what `Kept` names. */
  lemma PassesKeep(c: ScrapingConfig, p: PropertyRecord, page: DetailPage, year: int)
    ensures Kept(p, Passes(c, p, page, year))
  {
    var p1 := Financial.FinancialData(p, page);
    var p2 := Details.PropertyDetails(p1, page);
    var p3 := Location.LocationData(p2, page);
    var p4 := Building.BuildingFeatures(p3, page, year);
    var p5 := Amenities.AmenitiesData(p4, page);
    var p6 := if c.saveImages then Media.MediaData(p5, page) else p5;
    var p7 := Metadata.MetadataData(p6, page);
    EarlyPassesKeep(p, page, year);
    EarlyPassesKeep(p1, page, year);
    EarlyPassesKeep(p2, page, year);
    EarlyPassesKeep(p3, page, year);
    LatePassesKeep(p4, page);
    LatePassesKeep(p5, page);
    LatePassesKeep(p6, page);
    LatePassesKeep(p7, page);
  }

  /** A listing page yields a record exactly when it was reached; the record
      carries the id found in the URL, the title of the search result, the
      URL and the capture time, and both of its lists exist. */
  lemma DetailRecordIdentity(c: ScrapingConfig, url: string, title: string, v: Visit)
    ensures DetailRecord(c, url, title, v).Some? <==> v.page.Some?
    ensures var r := DetailRecord(c, url, title, v);
      r.Some? ==> && r.value.listingId == ListingId(url) && r.value.title == title && r.value.url == url
                  && r.value.amenities.Some? && r.value.imageUrls.Some?
                  && (v.capturedAt != "" ==> Constructed(r.value))
  {
    if v.page.Some? {
      PassesKeep(c, NewPropertyRecord(ListingId(url), title, url, v.capturedAt), v.page.value, v.currentYear);
    }
  }

  /** With validation on, the record is clean: cleaning it again changes
      nothing. */
  lemma DetailRecordClean(c: ScrapingConfig, url: string, title: string, v: Visit)
    requires c.validateData && v.page.Some?
    ensures var r := DetailRecord(c, url, title, v).value; Quality.Clean(r) == r
  {
    var page := v.page.value;
    var p0 := NewPropertyRecord(ListingId(url), title, url, v.capturedAt);
    var p5 := Amenities.AmenitiesData(Building.BuildingFeatures(Location.LocationData(Details.PropertyDetails(
                Financial.FinancialData(p0, page), page), page), page, v.currentYear), page);
    var p6 := if c.saveImages then Media.MediaData(p5, page) else p5;
    Quality.CleanIdempotent(Metadata.MetadataData(p6, page));
  }

  // ---------------------------------------------------------------------------
  // The method

  /** `scrape_individual_listing(page, url, basic_listing)` for the listing
      page `v.page`: a new record object filled by the passes in order, or
      `None` when navigating to the page raised. The validation that follows
      cleaning only prints. */
  method ScrapeIndividualListing(c: ScrapingConfig, url: string, title: string, v: Visit)
    returns (r: Option<PropertyData>)
    ensures r.Some? <==> v.page.Some?
    ensures r.Some? ==> fresh(r.value) && r.value.fields == DetailRecord(c, url, title, v).value
  {
    if v.page.None? {
      return None;
    }
    var page := v.page.value;
    var p := new PropertyData(Defaults.(listingId := ListingId(url), title := title, url := url), v.capturedAt);
    Financial.ExtractFinancialData(page, p);
    Details.ExtractPropertyDetails(page, p);
    Location.ExtractLocationData(page, p);
    Building.ExtractBuildingFeatures(page, v.currentYear, p);
    Amenities.ExtractAmenitiesData(page, p);
    if c.saveImages {
      Media.ExtractMediaData(page, p);
    }
    Metadata.ExtractMetadata(page, p);
    if c.validateData {
      p := Quality.CleanPropertyData(p);
    }
    return Some(p);
  }
}
