/** The scraper's configuration and the property record it fills
    (data-pipeline/scrapers/models.py, copied at the top of main.py). */
module Models {
  import opened Wrappers

  /** Every option of a scraping session. Delays are seconds. */
  datatype ScrapingConfig = ScrapingConfig(
    minDelayBetweenRequests: real,
    maxDelayBetweenRequests: real,
    maxRequestsPerMinute: int,
    maxConcurrentRequests: int,
    maxListingsPerSession: int,
    maxPagesPerSession: int,
    maxRetriesPerListing: int,
    avoidPeakHours: bool,
    peakStartHour: int,
    peakEndHour: int,
    saveImages: bool,
    extractCoordinates: bool,
    validateData: bool,
    batchSaveSize: int,
    useDatabase: bool,
    databasePath: string)

  /** `ScrapingConfig()` with no arguments. */
  const DefaultConfig := ScrapingConfig(
    3.0, 8.0, 10, 1,
    100, 10, 3,
    true, 9, 18,
    false, true, true,
    50, true, "properties.db")

  /** The assumptions under which the pacing and batching guarantees hold: the
      delay bounds are ordered, the peak window is a range of hours, at least
      one request per minute is allowed and batches are non-empty. */
  predicate WellFormedConfig(c: ScrapingConfig) {
    && 0.0 <= c.minDelayBetweenRequests <= c.maxDelayBetweenRequests
    && c.peakStartHour <= c.peakEndHour
    && c.maxRequestsPerMinute >= 1
    && c.batchSaveSize >= 1
  }

  lemma DefaultConfigWellFormed()
    ensures WellFormedConfig(DefaultConfig)
    ensures DefaultConfig.batchSaveSize == 50
    ensures DefaultConfig.maxRequestsPerMinute == 10
  {
  }

  /** One property listing. Every optional field is `None` until a page
      yields it, so a missing value is distinguishable from zero. */
  datatype PropertyRecord = PropertyRecord(
    // basic info
    listingId: string,
    title: string,
    url: string,
    // financial
    price: string,
    priceUf: Option<real>,
    priceClp: Option<real>,
    currency: string,
    maintenanceFee: string,
    // property details
    bedrooms: Option<int>,
    bathrooms: Option<int>,
    totalArea: Option<real>,
    builtArea: Option<real>,
    parkingSpots: Option<int>,
    // location
    address: string,
    neighborhood: string,
    comuna: string,
    latitude: Option<real>,
    longitude: Option<real>,
    floorNumber: Option<int>,
    // building features
    buildingAge: Option<int>,
    totalFloors: Option<int>,
    hasElevator: Option<bool>,
    orientation: string,
    // amenities
    amenities: Option<seq<string>>,
    hasPool: Option<bool>,
    hasGym: Option<bool>,
    hasSecurity: Option<bool>,
    // media
    imageUrls: Option<seq<string>>,
    videoUrl: string,
    // metadata
    listingDate: string,
    daysOnMarket: Option<int>,
    agentInfo: string,
    scrapedAt: string)

  /** The record as the field defaults leave it, before `__post_init__` runs. */
  const Defaults := PropertyRecord(
    "", "", "",
    "", None, None, "", "",
    None, None, None, None, None,
    "", "", "", None, None, None,
    None, None, None, "",
    None, None, None, None,
    None, "",
    "", None, "", "")

  /** Every optional number or flag of the defaults is `None` and every text
      field is empty. */
  lemma DefaultsAreAbsent()
    ensures Defaults.priceUf.None? && Defaults.priceClp.None? && Defaults.bedrooms.None?
    ensures Defaults.bathrooms.None? && Defaults.totalArea.None? && Defaults.builtArea.None?
    ensures Defaults.parkingSpots.None? && Defaults.latitude.None? && Defaults.longitude.None?
    ensures Defaults.floorNumber.None? && Defaults.buildingAge.None? && Defaults.totalFloors.None?
    ensures Defaults.hasElevator.None? && Defaults.hasPool.None? && Defaults.hasGym.None?
    ensures Defaults.hasSecurity.None? && Defaults.daysOnMarket.None?
    ensures Defaults.listingId == Defaults.title == Defaults.url == Defaults.price == ""
    ensures Defaults.currency == Defaults.maintenanceFee == Defaults.address == ""
    ensures Defaults.neighborhood == Defaults.comuna == Defaults.orientation == ""
    ensures Defaults.videoUrl == Defaults.listingDate == Defaults.agentInfo == Defaults.scrapedAt == ""
  {
  }

  /** A record that went through construction: its lists exist and it carries
      a capture time. */
  predicate Constructed(p: PropertyRecord) {
    p.amenities.Some? && p.imageUrls.Some? && p.scrapedAt != ""
  }

  /** `__post_init__`: absent lists become empty lists and an empty
      `scraped_at` becomes the capture time `now` (`datetime.now().isoformat()`). */
  function PostInit(p: PropertyRecord, now: string): (r: PropertyRecord)
    ensures r.amenities.Some? && r.imageUrls.Some?
    ensures p.amenities.Some? ==> r.amenities == p.amenities
    ensures p.amenities.None? ==> r.amenities == Some([])
    ensures p.imageUrls.Some? ==> r.imageUrls == p.imageUrls
    ensures p.imageUrls.None? ==> r.imageUrls == Some([])
    ensures p.scrapedAt != "" ==> r.scrapedAt == p.scrapedAt
    ensures p.scrapedAt == "" ==> r.scrapedAt == now
    ensures now != "" ==> Constructed(r)
    ensures r.(amenities := p.amenities, imageUrls := p.imageUrls, scrapedAt := p.scrapedAt) == p
  {
    var withAmenities := if p.amenities.None? then p.(amenities := Some([])) else p;
    var withImages := if withAmenities.imageUrls.None? then withAmenities.(imageUrls := Some([])) else withAmenities;
    if withImages.scrapedAt == "" then withImages.(scrapedAt := now) else withImages
  }

  /** Construction stamps the record once: running it again, at any later
      time, changes nothing. */
  lemma PostInitStampsOnce(p: PropertyRecord, now: string, later: string)
    requires now != ""
    ensures PostInit(PostInit(p, now), later) == PostInit(p, now)
  {
  }

  /** The record `PropertyData(listing_id=..., title=..., url=...)` builds, as
      the detail scraper calls it. */
  function NewPropertyRecord(listingId: string, title: string, url: string, now: string): (r: PropertyRecord)
    ensures r.listingId == listingId && r.title == title && r.url == url
    ensures r.amenities == Some([]) && r.imageUrls == Some([])
    ensures now != "" ==> Constructed(r)
  {
    PostInit(Defaults.(listingId := listingId, title := title, url := url), now)
  }

  // Python truthiness of optional fields: `None`, `0`, `0.0` and `[]` are false.

  predicate IntTruthy(o: Option<int>) {
    o.Some? && o.value != 0
  }

  predicate RealTruthy(o: Option<real>) {
    o.Some? && o.value != 0.0
  }

  predicate ListTruthy(o: Option<seq<string>>) {
    o.Some? && o.value != []
  }

  /** `PropertyData`: the record object the extraction passes fill in place.
      Its attributes are held together as one record value; a pass that sets
      an attribute replaces that attribute of `fields` and nothing else. */
  class PropertyData {
    var fields: PropertyRecord

    /** The dataclass constructor with the field values `init`, followed by
        `__post_init__` at capture time `now`. */
    constructor (init: PropertyRecord, now: string)
      ensures fields == PostInit(init, now)
    {
      fields := init;
      new;
      PostInitInPlace(now);
    }

    /** `__post_init__`, run on the object at capture time `now`. */
    method PostInitInPlace(now: string)
      modifies this
      ensures fields == PostInit(old(fields), now)
    {
      if fields.amenities.None? {
        fields := fields.(amenities := Some([]));
      }
      if fields.imageUrls.None? {
        fields := fields.(imageUrls := Some([]));
      }
      if fields.scrapedAt == "" {
        fields := fields.(scrapedAt := now);
      }
    }
  }
}
