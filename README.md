# Portal Inmobiliario scraper, modelled in Dafny

This project models the deterministic core of a scraper for the Chilean
property site Portal Inmobiliario:

- the request pacer, `RateLimiter.wait_if_needed` (module `Pacing`);
- the property record, `PropertyData`, and the scraper's configuration,
  `ScrapingConfig` (module `Models`);
- the search crawl of `scrape_listings`, and the card rules of
  `extract_listings_from_page` (modules `Cards` and `Run`, class
  `Scraper.PortalScraper`);
- the listing loop of `scrape_detailed_listings`. It covers truncation to
  `max_listings`, failure counting, the 30 % breaker, the batch files written
  every `batch_save_size` records and the final remainder flush (modules `Run`
  and `Scraper`).
- `scrape_individual_listing`, with the URL cleaning and the listing id
  (module `Listing`);
- the `extract_*` passes that fill a record from a listing page (modules
  `Financial`, `Details`, `Location`, `Building`, `Amenities`, `Media`,
  `Metadata`);
- `validate_property_data` and `clean_property_data` (module `Quality`);
- the SQLite store of `DatabaseManager`: `save_property` is an upsert keyed by
  `listing_id`, and `get_stats` computes counts and rates over the stored rows
  (module `Database`).

The browser is replaced by values (module `Pages`):

- A search page is whether it was reached, the number of elements each probe
  selector matched, the cards each card selector matched, and whether a
  "next" button exists.
- A listing page is, per selector, the text of its first match (or of every
  match), plus the text of `body`.
- A visit of one listing adds the clock reading, the hour, the drawn minimum
  delay, the capture time, the year, and whether the database connect, the
  database write or the batch file write raises.

The regular expressions of the source are written out as matchers over
strings (module `Patterns`), and Python's string methods as functions
(module `Text`).

State that the source changes in place is kept in classes:

- `Models.PropertyData` holds the record that the `extract_*` passes and
  `clean_property_data` update.
- `Pacing.RateLimiter` holds `request_times` and `last_request_time`.
- `Database.DatabaseManager` holds the table.
- `Scraper.PortalScraper` holds `results`, `detailed_properties` and the batch
  files written.

Each method is proved equal to a function of the old state and its inputs,
and the properties are lemmas about those functions.

`main.py` repeats the same classes: lines 102-145 repeat `rate_limiter.py`,
and lines 258-1311 repeat `portal_inmobiliario.py`, 228 lines further down.
Its `save_property_to_db` and `get_database_stats` are the bodies of
`save_property` and `get_stats`. One model serves both copies, and some rows
below cite `main.py`.

Behaviour of the code worth knowing, modelled as written:

- The breaker (`portal_inmobiliario.py:474`, commented "More than 30%
  failure rate") compares the failure count with 30 % of *all* listings, not
  of the attempts so far. It sits in the loop's `except` handler
  (`portal_inmobiliario.py:469-478`), so it is reached only when an exception
  reaches that handler: a page that cannot be reached makes
  `scrape_individual_listing` return `None` (`portal_inmobiliario.py:554-556`),
  counts as a failure at line 467 and never trips it.
- A record with an empty `listing_id` is not inserted apart from the others.
  `listing_id` is a `UNIQUE` column (`db_manager.py:25`) written with
  `INSERT OR REPLACE`, so every such record replaces the previous one.
- A failure to connect to the database is not caught in `save_property`
  (`db_manager.py:74`). It raises into the listing loop's handler, which
  counts the listing as failed although its record was already appended
  (`portal_inmobiliario.py:455-471`).
- The amenity flags are only ever set to `True`
  (`portal_inmobiliario.py:809-813`). `has_elevator` is never set to `False`:
  every text matching `sin ascensor|no elevator` also matches
  `ascensor|elevator`, which is checked first (`portal_inmobiliario.py:772-775`).

## Model

| member | source | states |
|---|---|---|
| Models.DefaultConfigWellFormed | data-pipeline/scrapers/models.py:10-33 | The default configuration has min delay ≤ max delay, peak start ≤ peak end, a batch size of 50 (at least one) and a limit of 10 requests per minute. |
| Models.DefaultsAreAbsent | data-pipeline/scrapers/models.py:40-86 | In the default record, every optional number or flag is `None` and every text field is `""`. |
| Models.PostInit | data-pipeline/scrapers/models.py:88-94 | Absent lists become `[]` and present ones are kept. `scraped_at` becomes the capture time exactly when it was empty. No other field changes. |
| Models.PostInitStampsOnce | data-pipeline/scrapers/models.py:93-94 | Running `__post_init__` again, at any later time, changes nothing. |
| Models.NewPropertyRecord | data-pipeline/scrapers/portal_inmobiliario.py:514-518 | The new record carries the given id, title and URL, and both of its lists are `[]`. |
| Models.PropertyData.constructor | data-pipeline/scrapers/models.py:88-94 | The object holds the given fields after `__post_init__`. |
| Models.PropertyData.PostInitInPlace | main.py:94-100 | `__post_init__` on the object: its record becomes `PostInit` of the old record. |
| Pacing.KeepAfter | data-pipeline/scrapers/rate_limiter.py:27-28 | Pruning keeps exactly the times after the cutoff, and no others. |
| Pacing.KeepAfterSorted | data-pipeline/scrapers/rate_limiter.py:28 | Pruning keeps a history sorted. |
| Pacing.KeepAfterBelowLast | data-pipeline/scrapers/rate_limiter.py:28 | No entry kept by pruning a sorted history is later than its last recorded time. |
| Pacing.PeakWaitRule | data-pipeline/scrapers/rate_limiter.py:20-24 | The 60 s cooldown is taken exactly when peak avoidance is on and start ≤ hour ≤ end, both ends included; otherwise there is none. |
| Pacing.FullWindowWaitRule | data-pipeline/scrapers/rate_limiter.py:31-35 | When the window holds the limit or more, the wait lasts until its oldest entry is a minute old; otherwise there is none. It is never negative. |
| Pacing.GapWaitRule | data-pipeline/scrapers/rate_limiter.py:38-47 | When less than `min_delay` has passed since the last request, the wait makes up the difference; otherwise it is 0. |
| Pacing.WindowWaitPositive | data-pipeline/scrapers/rate_limiter.py:32 | Because of the prune, the window-full wait `60 - (now - request_times[0])` is always positive. |
| Pacing.PaceRecordsOneRequest | data-pipeline/scrapers/rate_limiter.py:26-51 | A successful call keeps the pruned window, appends exactly one time (the clock after all waits) and sets `last_request_time` to it. The wait includes the peak cooldown. |
| Pacing.PaceFailsOnlyWithoutLimit | data-pipeline/scrapers/rate_limiter.py:31-32 | The `IndexError` happens exactly when the limit is below one and the pruned window is empty. |
| Pacing.AlwaysFailsWithoutLimit | data-pipeline/scrapers/rate_limiter.py:31-32 | A limiter that starts empty with a limit below one raises on every call and stays empty. |
| Pacing.WindowWithinCap | data-pipeline/scrapers/rate_limiter.py:27-31 | The pruned window of a history within the cap holds at most the limit. |
| Pacing.AppendKeepsCap | data-pipeline/scrapers/rate_limiter.py:31-35 | Appending a time at least a minute after the window's oldest entry keeps the cap. |
| Pacing.PacedResult | data-pipeline/scrapers/rate_limiter.py:26-51 | With a limit of at least one, a call succeeds. It records one time, no earlier than the clock reading, and at least a minute after the oldest entry when the window was full. |
| Pacing.WindowStep | data-pipeline/scrapers/rate_limiter.py:27-50 | Pruning a sorted, capped history and recording such a time gives a sorted, capped history. |
| Pacing.PaceKeepsCap | data-pipeline/scrapers/rate_limiter.py:26-51 | With a limit of at least one and a clock that never goes back, a call that starts within the rate cap succeeds. Afterwards the times are sorted and the minute ending at the newly recorded time holds at most the limit. |
| Pacing.FirstCallTakesNoGap | main.py:106-107 | `last_request_time` starts at 0, so against a real clock the first call takes no gap wait: its wait is the peak cooldown alone. |
| Pacing.RateLimiter.constructor | data-pipeline/scrapers/rate_limiter.py:10-13 | A new limiter has no request times and a last request time of 0. |
| Pacing.RateLimiter.WaitIfNeeded | data-pipeline/scrapers/rate_limiter.py:15-51 | The new times and the result are `Pace` of the old state: the wait, or the `IndexError`. |
| Text.Lower | data-pipeline/scrapers/portal_inmobiliario.py:635 | `str.lower()` maps each character on its own and leaves no upper-case letter. |
| Text.LowerIdempotent | data-pipeline/scrapers/portal_inmobiliario.py:1025 | Lower-casing twice is lower-casing once. |
| Text.Title | data-pipeline/scrapers/portal_inmobiliario.py:1004 | `str.title()` keeps the length, and which characters are spaces and which are letters. |
| Text.TitleIdempotent | data-pipeline/scrapers/portal_inmobiliario.py:1008 | Title-casing twice is title-casing once. |
| Text.Strip | data-pipeline/scrapers/portal_inmobiliario.py:288 | `str.strip()` returns a piece of the text with no whitespace at either end. |
| Text.StripIdempotent | data-pipeline/scrapers/portal_inmobiliario.py:1004 | Stripping twice is stripping once. |
| Text.CollapseSpaces | data-pipeline/scrapers/portal_inmobiliario.py:994 | `re.sub(r'\s+', ' ', s)` leaves no two spaces in a row, is empty only for empty text, and keeps whitespace at either end exactly when the text had it. |
| Text.CollapseSpacesFixed | data-pipeline/scrapers/portal_inmobiliario.py:994 | Text already collapsed is unchanged. |
| Text.BeforeFirst | data-pipeline/scrapers/portal_inmobiliario.py:445 | `s.split(c)[0]` is the longest prefix without `c`, and `c` follows it if it is shorter than `s`. |
| Text.Remove | data-pipeline/scrapers/portal_inmobiliario.py:581 | `s.replace(c, '')` contains no `c` and keeps every other character. |
| Text.ReplaceCounts | data-pipeline/scrapers/portal_inmobiliario.py:650 | After `s.replace(a, b)` with `a != b`, no `a` is left, the count of `b` is the old count of `a` plus that of `b`, and every other character keeps its count. |
| Text.NatToStringRoundTrip | data-pipeline/scrapers/portal_inmobiliario.py:84 | `int(str(n)) == n`. |
| Text.ParseDecimal | data-pipeline/scrapers/portal_inmobiliario.py:586 | `float` of a text of digits and dots succeeds exactly when it has a digit and at most one dot. It then reads the integer and fractional digits. |
| Text.DecimalParts | data-pipeline/scrapers/portal_inmobiliario.py:650 | `float("a.b")` is `a + b / 10^len(b)`. |
| Patterns.Search | data-pipeline/scrapers/portal_inmobiliario.py:579 | `re.search` finds a match exactly when some start position matches, and returns a match at such a position. |
| Patterns.SearchIsLeftmost | data-pipeline/scrapers/portal_inmobiliario.py:510 | The match `re.search` returns is the one at the leftmost matching position. |
| Patterns.UfAt | data-pipeline/scrapers/portal_inmobiliario.py:579 | A `([\d,\.]+)\s*UF` group is a non-empty run of digits, commas and dots, and the text contains `UF`. |
| Patterns.DollarAt | data-pipeline/scrapers/portal_inmobiliario.py:584 | A `\$\s*([\d,\.]+)` match starts at a `$` and its group is a non-empty number run. |
| Patterns.CountAt | data-pipeline/scrapers/portal_inmobiliario.py:638 | A count group of `(\d+)\s*(?:words)` is a non-empty run of digits. |
| Patterns.DigitsAt | data-pipeline/scrapers/portal_inmobiliario.py:671 | A `(\d+)` group is a non-empty run of digits. |
| Patterns.AreaAt | data-pipeline/scrapers/portal_inmobiliario.py:648 | An area group is digits, optionally followed by one `,` or `.` and more digits. |
| Patterns.AreaNumberSlice | data-pipeline/scrapers/portal_inmobiliario.py:648 | A digit run, with an optional separator and a second digit run, forms an area number. |
| Patterns.YearAt | data-pipeline/scrapers/portal_inmobiliario.py:759 | A `(\d{4})\s*(?:año\|year)` group is exactly four digits. |
| Patterns.FloorAt | data-pipeline/scrapers/portal_inmobiliario.py:767-769 | The group that took part in `piso\s*(\d+)\|floor\s*(\d+)` is a non-empty run of digits. |
| Patterns.ListingIdAt | data-pipeline/scrapers/portal_inmobiliario.py:510 | An `MLC-(\d+)` group is a non-empty run of digits. |
| Patterns.PublishedAt | data-pipeline/scrapers/portal_inmobiliario.py:874-876 | A `publicado hace (\d+) unit` group is a non-empty run of digits. |
| Cards.PageUrl | data-pipeline/scrapers/portal_inmobiliario.py:79-86 | Page 1 uses the search URL itself; a later page extends it. |
| Cards.PageUrlOffset | data-pipeline/scrapers/portal_inmobiliario.py:84 | The number after `/_Desde_` is `(n-1)*48 + 1` written in digits, and it gives the page number back. |
| Cards.PageUrlInjective | data-pipeline/scrapers/portal_inmobiliario.py:84 | Different pages of one search get different URLs. |
| Cards.FirstWhere | data-pipeline/scrapers/portal_inmobiliario.py:285-291 | The first-match chain takes the first selector whose text is present and accepted; none before it qualifies, and `None` means none qualifies. |
| Cards.CardTitle | data-pipeline/scrapers/portal_inmobiliario.py:285-296 | An accepted title is stripped and longer than ten characters. An accepted title selector always yields one. |
| Cards.TitleFirstSelector | data-pipeline/scrapers/portal_inmobiliario.py:285-296 | The title comes from the first selector whose stripped text is long enough, before the card's own text is looked at. |
| Cards.CardPrice | data-pipeline/scrapers/portal_inmobiliario.py:311-323 | A price exists exactly when some price selector's stripped text is non-empty and holds `$`, `UF`, `CLP` or a digit; it is that text. |
| Cards.CardUrl | data-pipeline/scrapers/portal_inmobiliario.py:360-372 | A detail URL mentions `MLC` or `departamento`. The card's own `href` is the fallback, and it counts when it mentions `MLC`. |
| Cards.CardListing | data-pipeline/scrapers/portal_inmobiliario.py:374-376 | A kept summary records the selector used and the card's index. |
| Cards.CardKeptIff | data-pipeline/scrapers/portal_inmobiliario.py:378-387 | A card is kept exactly when reading it did not raise and it has a title, a price or a detail URL. Its summary holds those three. |
| Cards.ChooseSelector | data-pipeline/scrapers/portal_inmobiliario.py:237-248 | The card selector used is the first that matched anything; `None` means none did. |
| Cards.ChooseSelectorFirst | main.py:465-485 | The first non-empty list is the one chosen. |
| Cards.Summaries | data-pipeline/scrapers/portal_inmobiliario.py:261-376 | One summary per card, in card order, each at its own index. |
| Cards.KeptSound | data-pipeline/scrapers/portal_inmobiliario.py:378-380 | Each kept summary is the one for the card it names. |
| Cards.KeptOrdered | data-pipeline/scrapers/portal_inmobiliario.py:261-389 | Kept summaries come in card order, each card at most once. |
| Cards.KeptComplete | data-pipeline/scrapers/portal_inmobiliario.py:378-380 | Every card that yields a summary is kept. |
| Cards.PageListingsFacts | data-pipeline/scrapers/portal_inmobiliario.py:214-389 | A page with no matching card selector yields `[]`. Otherwise it yields exactly the kept cards of the chosen selector, in order, each once. |
| Cards.FindSelector | data-pipeline/scrapers/portal_inmobiliario.py:237-246 | The selector loop returns the chosen selector. |
| Cards.CollectListings | data-pipeline/scrapers/portal_inmobiliario.py:261-389 | The card loop returns the kept summaries. |
| Cards.ExtractListings | data-pipeline/scrapers/portal_inmobiliario.py:214-389 | `extract_listings_from_page` returns the page's listings as `PageListingsFacts` describes them. |
| Listing.CleanDetailUrl | data-pipeline/scrapers/portal_inmobiliario.py:445 | The clean URL is a prefix of the URL with no `#` and no `?`. A URL without either is unchanged. |
| Listing.CleanDetailUrlIdempotent | data-pipeline/scrapers/portal_inmobiliario.py:445 | Cleaning a clean URL changes nothing. |
| Listing.ListingId | data-pipeline/scrapers/portal_inmobiliario.py:510-511 | The id is all digits, and it is `""` exactly when no `MLC-<digits>` occurs in the URL. |
| Listing.ListingIdOf | data-pipeline/scrapers/portal_inmobiliario.py:510-511 | In a URL `a + "MLC-" + d + b` where no `MLC-<digits>` starts inside `a` and no digit follows `d`, the id is exactly the digit run `d` (the leftmost match). |
| Listing.ListingIdAfterPlainPrefix | data-pipeline/scrapers/portal_inmobiliario.py:510-511 | In particular, when `a` holds no `M`, the id is exactly `d`. |
| Listing.EarlyPassesKeep | data-pipeline/scrapers/portal_inmobiliario.py:520-531 | The financial, detail, location and building passes do not change the id, title, URL or capture time, and remove no list. |
| Listing.LatePassesKeep | data-pipeline/scrapers/portal_inmobiliario.py:532-544 | Neither do the amenity, media and metadata passes, nor the cleaning. |
| Listing.PassesKeep | data-pipeline/scrapers/portal_inmobiliario.py:520-544 | The passes run together keep the same fields. |
| Listing.DetailRecordIdentity | data-pipeline/scrapers/portal_inmobiliario.py:502-556 | A listing page gives a record exactly when navigating to it succeeded. The record carries the URL's id, the search title, the URL and the capture time, and both lists. |
| Listing.DetailRecordClean | data-pipeline/scrapers/portal_inmobiliario.py:542-544 | With validation on, the returned record is already clean: cleaning it again changes nothing. |
| Listing.ScrapeIndividualListing | data-pipeline/scrapers/portal_inmobiliario.py:502-556 | A new record object is filled by the passes in order, or `None` when navigation raised. |
| Financial.UfValue | data-pipeline/scrapers/portal_inmobiliario.py:581 | With commas and dots removed, the UF figure parses exactly when it holds a digit. |
| Financial.ClpValue | data-pipeline/scrapers/portal_inmobiliario.py:586 | With only commas removed, the CLP figure parses exactly when it holds a digit and at most one dot. |
| Financial.UfFigure | data-pipeline/scrapers/portal_inmobiliario.py:579 | The UF group is a non-empty number run, and the text contains `UF`. |
| Financial.DollarFigure | data-pipeline/scrapers/portal_inmobiliario.py:584 | The `$` match starts with `$`, and its group is a non-empty number run. |
| Financial.CurrencyRule | data-pipeline/scrapers/portal_inmobiliario.py:576-588 | A UF figure sets the currency to `UF`. Otherwise a `$` figure sets `CLP` only when the currency is still empty. The price becomes the stripped text. |
| Financial.UpdateCurrency | data-pipeline/scrapers/portal_inmobiliario.py:576-588 | For any pair of readings, the same currency and price rule holds on the loop body's update. |
| Financial.UfDotIsThousands | data-pipeline/scrapers/portal_inmobiliario.py:581 | `"8.500 UF"` reads as 8500: a dot between digit runs joins them. |
| Financial.DottedClpRejected | data-pipeline/scrapers/portal_inmobiliario.py:584-591 | A `$` figure with two or more dots and no UF figure raises in `float`. Only the price text is kept and the loop goes on to the next selector. |
| Financial.DottedClpApply | data-pipeline/scrapers/portal_inmobiliario.py:584-591 | Such a text is accepted by the loop, and its body sets only the price text and does not break. |
| Financial.PricePassGoesOn | data-pipeline/scrapers/portal_inmobiliario.py:570-591 | A text whose body does not break hands its record to the rest of the selector loop. |
| Financial.DottedClpExample | data-pipeline/scrapers/portal_inmobiliario.py:584 | `"$ 1.234.567"` has no UF figure, and its `$` figure holds two dots. |
| Financial.NoUfWithoutU | data-pipeline/scrapers/portal_inmobiliario.py:579 | A text without `U` has no UF figure. |
| Financial.PricePassFrame | data-pipeline/scrapers/portal_inmobiliario.py:570-591 | The price loop changes only the price, the two figures and the currency. |
| Financial.PricePassNoCandidate | data-pipeline/scrapers/portal_inmobiliario.py:570-575 | Without an accepted text, the record is left as it was. |
| Financial.MaintenancePassFee | data-pipeline/scrapers/portal_inmobiliario.py:600-613 | The maintenance loop changes only the fee, and a fee it sets starts with `$`. |
| Financial.WritePrice | data-pipeline/scrapers/portal_inmobiliario.py:576-589 | The loop body's field writes on the object equal `PriceUpdate` of the old record. |
| Financial.ReadPriceText | data-pipeline/scrapers/portal_inmobiliario.py:572-589 | The loop body for an accepted text equals `ApplyPrice` of the old record. |
| Financial.ExtractFinancialData | data-pipeline/scrapers/portal_inmobiliario.py:558-616 | `extract_financial_data` leaves the object holding `FinancialData` of its old record. |
| Details.AreaValue | data-pipeline/scrapers/portal_inmobiliario.py:650 | An area group always converts: the comma becomes a decimal point. |
| Details.AreaDecimalComma | main.py:878-883 | `85,5` and `85.5` are the same area, `85 + 5/10`. |
| Details.GroupPassKeeps | data-pipeline/scrapers/portal_inmobiliario.py:633-660 | Within one selector, only the five attribute fields change, and a truthy field is never overwritten. |
| Details.AttributePassKeeps | main.py:866-888 | Across the selectors, only the five attribute fields change and a truthy field is never overwritten. |
| Details.GroupPassTexts | data-pipeline/scrapers/portal_inmobiliario.py:631-660 | Within one selector, the elements are read in order up to the first whose `inner_text` raises, and each read text updates the record in turn. |
| Details.AttributePassTexts | data-pipeline/scrapers/portal_inmobiliario.py:630-660 | Across the selectors, the pass is the per-text update applied to every text read, selector by selector and element by element. |
| Details.AttributePassCount | data-pipeline/scrapers/portal_inmobiliario.py:637-657 | The bedroom, bathroom or parking count after the pass is the running rule applied to the readings of the texts in order: a reading replaces the value only while the value is falsy. |
| Details.AttributePassArea | data-pipeline/scrapers/portal_inmobiliario.py:647-652 | The same for the total and the built area, over real numbers. |
| Details.CountFirstWins | data-pipeline/scrapers/portal_inmobiliario.py:630-660 | From a falsy count, the first non-zero count read, in selector-then-element order, is the count after the pass, whatever follows. |
| Details.CountNoneWins | data-pipeline/scrapers/portal_inmobiliario.py:630-660 | When no text yields a non-zero count, the count after the pass is `0` if some text matched (an earlier `0` does not block a later one) and is unchanged otherwise. |
| Details.AreaFirstWins | data-pipeline/scrapers/portal_inmobiliario.py:647-652 | From a falsy area, the first non-zero area read is the area after the pass. |
| Details.AreaNoneWins | data-pipeline/scrapers/portal_inmobiliario.py:647-652 | When no text yields a non-zero area, the area after the pass is `0.0` if some text matched and is unchanged otherwise. |
| Details.DormLoopFirst | data-pipeline/scrapers/portal_inmobiliario.py:663-671 | The fallback sets the bedroom count to the first digit run of the first `dorm` text that holds one, and changes nothing else. |
| Details.DormLoopNone | data-pipeline/scrapers/portal_inmobiliario.py:663-671 | When no `dorm` text holds a digit, the fallback leaves the record as it was. |
| Details.PropertyDetailsKeeps | data-pipeline/scrapers/portal_inmobiliario.py:618-677 | The pass changes only the attribute fields and never overwrites a truthy one. The `dorm` fallback runs only when no bedroom count was found. |
| Details.DormLoopFrame | data-pipeline/scrapers/portal_inmobiliario.py:666-674 | The fallback changes only the bedroom count, and sets it to a natural number. |
| Details.WriteCounts | data-pipeline/scrapers/portal_inmobiliario.py:638-660 | The count writes on the object equal `CountUpdate` of the old record. |
| Details.WriteAreas | data-pipeline/scrapers/portal_inmobiliario.py:647-655 | The area writes on the object equal `AreaUpdate` of the old record. |
| Details.ReadAttributes | data-pipeline/scrapers/portal_inmobiliario.py:634-660 | One element's body equals `ElementUpdate` of the old record. |
| Details.ExtractPropertyDetails | data-pipeline/scrapers/portal_inmobiliario.py:618-677 | `extract_property_details` leaves the object holding `PropertyDetails` of its old record. |
| Location.AddressLoopFirst | data-pipeline/scrapers/portal_inmobiliario.py:690-706 | The first address longer than five characters is used, and only that one. |
| Location.AddressLoopNone | data-pipeline/scrapers/portal_inmobiliario.py:690-695 | Without an accepted address, the record is left as it was. |
| Location.AddressLoopFrame | data-pipeline/scrapers/portal_inmobiliario.py:690-708 | The loop changes only the address, the comuna and the neighborhood. |
| Location.NeighborhoodFacts | data-pipeline/scrapers/portal_inmobiliario.py:703-705 | The neighborhood is a stripped, comma-free piece of the address. |
| Location.LocationUpdateFacts | data-pipeline/scrapers/portal_inmobiliario.py:694-705 | Only the address, comuna and neighborhood change. The address is `a.strip()`, a stripped piece of the raw text. The comuna becomes `Las Condes` exactly when the raw text contains it, and is kept otherwise. With a comma, the neighborhood is the stripped text before the first comma, a comma-free piece of the raw text; without one it is kept. |
| Location.WriteLocation | data-pipeline/scrapers/portal_inmobiliario.py:696-705 | The writes on the object equal `LocationUpdate` of the old record. |
| Location.ExtractLocationData | data-pipeline/scrapers/portal_inmobiliario.py:679-708 | `extract_location_data` leaves the object holding `LocationData` of its old record. |
| Building.YearIn | data-pipeline/scrapers/portal_inmobiliario.py:759-761 | The year read is below 10000. |
| Building.DenialMentions | data-pipeline/scrapers/portal_inmobiliario.py:772-775 | Every text matching `sin ascensor\|no elevator` also matches `ascensor\|elevator`. |
| Building.ElevatorNeverFalse | data-pipeline/scrapers/portal_inmobiliario.py:771-775 | `has_elevator` becomes `True` or stays as it was; it never becomes `False`. |
| Building.BuildingFeaturesFacts | main.py:987-997 | Only the age, the floor and the elevator change, and nothing when the page text cannot be read. The age becomes `current_year - year` exactly when the year read satisfies 1900 < year ≤ the current year, so it lies in `[0, current_year - 1901]`, and is kept otherwise. The floor becomes the number read when there is one, and is kept otherwise. |
| Building.WriteBuilding | data-pipeline/scrapers/portal_inmobiliario.py:760-775 | The writes on the object equal `BuildingUpdate` of the old record. |
| Building.ExtractBuildingFeatures | data-pipeline/scrapers/portal_inmobiliario.py:752-778 | `extract_building_features` leaves the object holding `BuildingFeatures` of its old record. |
| Amenities.TagsFoundMember | data-pipeline/scrapers/portal_inmobiliario.py:803-805 | A tag is listed exactly when a keyword row with that tag occurs in the lower-cased text. |
| Amenities.TagsFoundDistinct | data-pipeline/scrapers/portal_inmobiliario.py:803-805 | No tag is listed twice, and there are at most as many tags as rows. |
| Amenities.TagsFoundOrder | data-pipeline/scrapers/portal_inmobiliario.py:803-805 | The tags are listed in table order: of two listed tags, the earlier comes from an earlier row whose keyword occurs. |
| Amenities.TableTagsDistinct | data-pipeline/scrapers/portal_inmobiliario.py:789-801 | Each tag of the keyword table belongs to one row. |
| Amenities.UniqueTagFound | data-pipeline/scrapers/portal_inmobiliario.py:803-805 | A tag carried by a single row is listed exactly when that row's keyword occurs. |
| Amenities.TableTagFound | data-pipeline/scrapers/portal_inmobiliario.py:789-805 | Each tag of the table is listed exactly when its keyword occurs. |
| Amenities.PoolFlag | data-pipeline/scrapers/portal_inmobiliario.py:808-809 | `has_pool` becomes `True` exactly when `piscina` occurs, and is otherwise left as it was. |
| Amenities.GymFlag | data-pipeline/scrapers/portal_inmobiliario.py:810-811 | `has_gym` becomes `True` exactly when `gimnasio` occurs, and is otherwise left as it was. |
| Amenities.SecurityFlag | data-pipeline/scrapers/portal_inmobiliario.py:812-813 | `has_security` becomes `True` exactly when `seguridad` or `portero` occurs, and is otherwise left as it was. |
| Amenities.AmenityListDistinct | data-pipeline/scrapers/portal_inmobiliario.py:815 | The amenity list is replaced by exactly the tags found in the lower-cased page text (`TagsFound`), distinct and at most eleven. Nothing else but the three flags changes. |
| Amenities.ExtractAmenitiesData | data-pipeline/scrapers/portal_inmobiliario.py:780-818 | `extract_amenities_data` leaves the object holding `AmenitiesData` of its old record. |
| Media.FirstImages | data-pipeline/scrapers/portal_inmobiliario.py:835 | `images[:10]` is a prefix of at most ten images. |
| Media.GroupReadsGood | data-pipeline/scrapers/portal_inmobiliario.py:835-838 | A selector's reads only append URLs that start with `http` and are new, at most one per read. |
| Media.GroupReadsComplete | data-pipeline/scrapers/portal_inmobiliario.py:834-842 | Reads that do not raise report no exception, keep the URLs collected so far, and leave every `http` source read in the list. |
| Media.ImagePassGood | data-pipeline/scrapers/portal_inmobiliario.py:832-842 | The image list stays duplicate-free and every entry starts with `http`. |
| Media.ImagePassAtMostTen | data-pipeline/scrapers/portal_inmobiliario.py:832-842 | When no read raises, the list holds at most ten URLs. |
| Media.RaisedSelectorKeeps | data-pipeline/scrapers/portal_inmobiliario.py:836-842 | A selector whose read raises keeps what it appended and the loop goes on, so two selectors can contribute. |
| Media.VideoLoopFirst | data-pipeline/scrapers/portal_inmobiliario.py:853-862 | The first truthy video source is used, and only that one. |
| Media.VideoLoopNone | data-pipeline/scrapers/portal_inmobiliario.py:853-862 | Without a truthy source, the record is left as it was. |
| Media.VideoLoopFrame | data-pipeline/scrapers/portal_inmobiliario.py:853-862 | The video loop changes only the video URL. |
| Media.MediaDataFacts | data-pipeline/scrapers/portal_inmobiliario.py:820-865 | Only the image list and the video URL change. The stored list is the loop's list, with each entry starting with `http` and none repeated. |
| Media.CollectImages | data-pipeline/scrapers/portal_inmobiliario.py:831-842 | The image loop returns `ImagePass` of the selectors' reads. |
| Media.ExtractMediaData | data-pipeline/scrapers/portal_inmobiliario.py:820-865 | `extract_media_data` leaves the object holding `MediaData` of its old record. |
| Metadata.PublishedCount | data-pipeline/scrapers/portal_inmobiliario.py:874-880 | A date pattern's count is a non-empty run of digits. |
| Metadata.DateHits | data-pipeline/scrapers/portal_inmobiliario.py:879-880 | Each pattern's search result is paired with its days per unit. |
| Metadata.DateUnitDays | data-pipeline/scrapers/portal_inmobiliario.py:885-890 | Days, months and years count 1, 30 and 365 days, tried in that order. |
| Metadata.DateLoopFirst | main.py:1101-1119 | The first pattern that matches decides, even when a later one matches further left. It sets the listing date and `n` times that pattern's days. |
| Metadata.DateLoopOutcome | data-pipeline/scrapers/portal_inmobiliario.py:879-891 | Either nothing changes, or some matching pattern's count gives the date text and the days on market. |
| Metadata.AgentLoopFirst | data-pipeline/scrapers/portal_inmobiliario.py:900-907 | The first agent text shorter than 200 characters is used, stripped. |
| Metadata.AgentLoopFacts | data-pipeline/scrapers/portal_inmobiliario.py:900-909 | Only the agent changes, and an agent it sets is stripped and shorter than 200 characters. |
| Metadata.LoopsFacts | data-pipeline/scrapers/portal_inmobiliario.py:879-909 | Only the date, the days and the agent change. A date set is `hace n \d+`, with `n`, `30 n` or `365 n` days. |
| Metadata.MetadataFacts | data-pipeline/scrapers/portal_inmobiliario.py:867-912 | The whole pass changes only the date, the days and the agent, as `LoopsFacts` describes. |
| Metadata.ExtractListingDate | data-pipeline/scrapers/portal_inmobiliario.py:879-891 | The date loop on the object equals `DateLoop` of the old record. |
| Metadata.ExtractAgent | data-pipeline/scrapers/portal_inmobiliario.py:894-909 | The agent loop on the object equals `AgentLoop` of the old record. |
| Metadata.ExtractMetadata | data-pipeline/scrapers/portal_inmobiliario.py:867-912 | `extract_metadata` leaves the object holding `MetadataData` of its old record. |
| Quality.CoreChecksPassed | data-pipeline/scrapers/portal_inmobiliario.py:947-965 | At most four core checks pass. |
| Quality.Bonus | data-pipeline/scrapers/portal_inmobiliario.py:968-977 | At most five bonus points are given. |
| Quality.Failed | data-pipeline/scrapers/portal_inmobiliario.py:947-965 | An issue is reported exactly when its check fails. |
| Quality.FailedDistinct | data-pipeline/scrapers/portal_inmobiliario.py:947-965 | No issue is reported twice. |
| Quality.CoreIssues | data-pipeline/scrapers/portal_inmobiliario.py:946-965 | There is one issue per failed core check: `4 - passed`. |
| Quality.Validate | data-pipeline/scrapers/portal_inmobiliario.py:940-987 | The score is 5 per core check plus the bonus, in `[0, 25]`. Issues are exactly the failed checks, each once. `is_valid` holds iff `2*score ≥ 20`. The percentage is `score*100/20`. |
| Quality.ValidityByIssues | data-pipeline/scrapers/portal_inmobiliario.py:979-986 | With at most one issue the record is valid. With four it is not. With three it is valid iff all five bonuses are given. |
| Quality.ScoreExceedsMax | data-pipeline/scrapers/portal_inmobiliario.py:943-979 | A complete record scores 25, above `max_score` = 20, a completeness of 125 %. |
| Quality.CleanPriceFacts | data-pipeline/scrapers/portal_inmobiliario.py:992-994 | The cleaned price is stripped and has no two spaces in a row. |
| Quality.CleanAmenitiesFacts | data-pipeline/scrapers/portal_inmobiliario.py:1024-1025 | The cleaned amenities are stripped, lower-cased, non-empty and distinct. They are exactly the normal forms of the non-blank entries. |
| Quality.DedupFacts | data-pipeline/scrapers/portal_inmobiliario.py:1025 | `list(set(...))` keeps exactly the elements, each once. |
| Quality.NormalizeMember | data-pipeline/scrapers/portal_inmobiliario.py:1025 | A tag is among the normalised entries exactly when it is the normal form of a non-blank entry. |
| Quality.NormalizeClean | data-pipeline/scrapers/portal_inmobiliario.py:1025 | Entries that are already clean tags come out of the comprehension unchanged. |
| Quality.CleanFrame | data-pipeline/scrapers/portal_inmobiliario.py:996-1021 | Cleaning changes only the price, the address, the neighborhood and the amenities. The range checks leave the area, bedrooms, bathrooms and coordinates unchanged. |
| Quality.CleanIdempotent | data-pipeline/scrapers/portal_inmobiliario.py:989-1027 | Cleaning twice is cleaning once. |
| Quality.CleanPropertyData | data-pipeline/scrapers/portal_inmobiliario.py:989-1027 | `clean_property_data` returns the same object, which now holds `Clean` of its old record. |
| Database.StoredList | data-pipeline/database/db_manager.py:78-79 | A list column holds the list when it is truthy and `[]` otherwise. |
| Database.Stored | data-pipeline/database/db_manager.py:78-104 | A stored row has both lists and otherwise the record's fields. |
| Database.UpsertValid | data-pipeline/database/db_manager.py:82-104 | `INSERT OR REPLACE` keeps `listing_id` unique, and the row ids increasing. |
| Database.UpsertLookup | data-pipeline/database/db_manager.py:82-104 | Afterwards the record's `listing_id` finds exactly the new row, and every other key finds what it found before. |
| Database.UpsertSize | data-pipeline/database/db_manager.py:82-104 | A save adds a row exactly when the `listing_id` was new. |
| Database.SecondSaveReplaces | data-pipeline/database/db_manager.py:82-104 | Two saves with one `listing_id` leave one row, holding the second record. |
| Database.CountRows | data-pipeline/database/db_manager.py:121-131 | A filtered count is at most the number of rows. |
| Database.CountAll | data-pipeline/database/db_manager.py:121-122 | The unfiltered count is the number of rows. |
| Database.RateBounds | data-pipeline/database/db_manager.py:152-156 | A completeness rate lies in `[0, 100]`, and is 0 for an empty table. |
| Database.StatsCounts | data-pipeline/database/db_manager.py:119-157 | The total is the number of rows, every coverage and recent count is at most the total, and every rate lies in `[0, 100]`. |
| Database.AveragePositive | data-pipeline/database/db_manager.py:133-138 | An `AVG` is absent exactly when no row has a positive value, and is positive otherwise. |
| Database.StatsAverages | data-pipeline/database/db_manager.py:133-150 | Each average in the statistics is `None` exactly when no row has a positive value, and positive otherwise. |
| Database.EmptyTableStats | data-pipeline/database/db_manager.py:119-157 | An empty table gives zero counts, zero rates and no averages. |
| Database.StatsResultFacts | data-pipeline/database/db_manager.py:111-165 | `get_stats` raises only when connecting to an existing database fails, returns statistics only when the database is on, the file exists and no query fails, and then they count every row and every rate lies between 0 and 100. |
| Database.SameDayCountsAsRecent | data-pipeline/database/db_manager.py:141-142 | Text order puts an ISO `scraped_at` (with `T`) on the cutoff's day after the cutoff (with a space), so it always counts as recent. |
| Database.SaveOutcomeFacts | data-pipeline/database/db_manager.py:69-109 | A save keeps the table valid. It raises exactly when the database is on and the connect fails. It changes the table only on a completed write, which stores the record. |
| Database.DatabaseManager.constructor | data-pipeline/database/db_manager.py:11-14 | The manager follows `use_database` and keeps the rows already in the file. |
| Database.DatabaseManager.SaveProperty | main.py:216-251 | The new table and the exception equal `SaveOutcome` of the old table. |
| Database.DatabaseManager.GetStats | data-pipeline/database/db_manager.py:111-165 | The result is `{}` when the database is off or its file is missing, or when a query raises, and otherwise the statistics of the table. |
| Run.PyMod | data-pipeline/scrapers/portal_inmobiliario.py:463 | Python's `%` takes the divisor's sign, and is zero exactly when Dafny's remainder is. |
| Run.PySliceFrom | data-pipeline/scrapers/portal_inmobiliario.py:464 | `s[-k:]` is the suffix of length `min(k, len(s))`. |
| Run.PyPrefix | data-pipeline/scrapers/portal_inmobiliario.py:420 | `s[:k]` is a prefix of length `min(k, len(s))`. A negative `k` drops entries from the end. |
| Run.CrawlFromPages | data-pipeline/scrapers/portal_inmobiliario.py:183-189 | Every listing gathered was offered by a page that was reached. |
| Run.CrawlStopsAtMaxPages | data-pipeline/scrapers/portal_inmobiliario.py:192-194 | With a truthy `max_pages`, no page after it is looked at: removing those pages changes nothing. |
| Run.CrawlFirstPage | data-pipeline/scrapers/portal_inmobiliario.py:74-189 | Something is gathered exactly when page 1 is reached, passes the probe and yields listings. Its listings come first. |
| Run.FirstStop | data-pipeline/scrapers/portal_inmobiliario.py:74-200 | The first page from a given one after which the walk does not go on: every page before it yields listings, is below a truthy `max_pages` and has a next page, and it does not (or it is past the last page). |
| Run.CrawlGoesOn | data-pipeline/scrapers/portal_inmobiliario.py:189-200 | After a page that yields listings, is below the cap and has a next page, the crawl is that page's listings followed by the crawl from the next page. |
| Run.CrawlStopsAt | data-pipeline/scrapers/portal_inmobiliario.py:94-200 | At a page after which the walk does not go on, the crawl is that page's listings when it was reached, passed the probe and had listings, and nothing otherwise. |
| Run.CrawlClosedForm | data-pipeline/scrapers/portal_inmobiliario.py:74-200 | From any page, the crawl is the concatenation of the listings of every page before the first stop, in page order, followed by the stopping page's listings when it yields any. |
| Run.CrawlIsListingsBeforeStop | data-pipeline/scrapers/portal_inmobiliario.py:74-200 | The crawl from page 1 (by which `self.results` grows) is exactly the listings of pages 1 up to the first stop, in page order: a listing is gathered only from such a page, and every listing of such a page is gathered. |
| Run.TruncateLimit | data-pipeline/scrapers/portal_inmobiliario.py:419-420 | A truthy `max_listings` keeps a prefix of at most that many, or drops that many from the end when negative. A falsy one keeps everything. |
| Run.AllFetched | data-pipeline/scrapers/portal_inmobiliario.py:437-467 | The listings from position `i` yield at most one record each. |
| Run.KeepFacts | data-pipeline/scrapers/portal_inmobiliario.py:454-478 | A record obtained joins both lists, and the pacer is untouched. The listing is also counted as failed exactly when the connect failed or the batch write raised. Only then can the breaker fire. |
| Run.KeepNeverRaises | data-pipeline/scrapers/portal_inmobiliario.py:454-478 | Once a record was obtained, no exception leaves the loop: every error is caught and counted. |
| Run.StepRaise | data-pipeline/scrapers/portal_inmobiliario.py:437-478 | An exception leaves the loop only from the pacer, exactly under a limit below one and an empty window. |
| Run.StepRecords | data-pipeline/scrapers/portal_inmobiliario.py:437-478 | Unless the step raised, the record fetched (if any) joins the run, and `self.detailed_properties` grows by the same records. |
| Run.StepFailures | data-pipeline/scrapers/portal_inmobiliario.py:437-478 | A step adds at most one failure, and one whenever no record was obtained. The breaker fires only past 30 % and only on a kept record counted as failed. A listing without URL touches nothing else. |
| Run.BreakerThreshold | data-pipeline/scrapers/portal_inmobiliario.py:469-476 | The handler counts one more failure, changes nothing else, and stops the loop exactly when the new count exceeds 30 % of all listings; it never raises. |
| Run.StepAccounting | data-pipeline/scrapers/portal_inmobiliario.py:437-478 | An exception leaves the loop only from the pacer, exactly under a limit below one and an empty window. A listing without record is a failure. A listing without URL changes nothing but the failure count. |
| Run.StepOfAccounts | data-pipeline/scrapers/portal_inmobiliario.py:437-478 | The scraper's step, as the loop applies it, accounts for every listing as `Run.StepAccounting` says. |
| Run.LoopNext | data-pipeline/scrapers/portal_inmobiliario.py:437-478 | The loop goes on with the next listing exactly when the step says so. |
| Run.LoopAccounting | data-pipeline/scrapers/portal_inmobiliario.py:437-478 | The run's records only grow, `self.detailed_properties` grows by the same records, and failures only grow. |
| Run.LoopVisitsAll | data-pipeline/scrapers/portal_inmobiliario.py:469-478 | If nothing raised out and at most 30 % of the listings failed, every listing was visited. The run then holds all their records, in order. |
| Run.FillBatch | data-pipeline/scrapers/portal_inmobiliario.py:463-464 | When a record completes a batch, the last `batch_save_size` records are exactly the ones not yet written. |
| Run.GrowBatch | data-pipeline/scrapers/portal_inmobiliario.py:463 | A record that completes no batch leaves the invariant in place. |
| Run.AddKeepsBatches | data-pipeline/scrapers/portal_inmobiliario.py:462-464 | Adding a record keeps the batch invariant when no write raises. |
| Run.KeepClean | data-pipeline/scrapers/portal_inmobiliario.py:454-464 | Without faults, a record obtained joins both lists, the loop goes on and the batches are those the record completes. |
| Run.StepClean | data-pipeline/scrapers/portal_inmobiliario.py:437-478 | Without faults, a listing's record (if any) joins the run and completes the batches it completes. Otherwise the listing counts as a failure. |
| Run.StepOfClean | data-pipeline/scrapers/portal_inmobiliario.py:437-478 | With requests and batches allowed, the scraper's step, as the loop applies it, takes every fault-free listing that way. |
| Run.LoopClean | data-pipeline/scrapers/portal_inmobiliario.py:437-478 | Without faults, the run's records are exactly those of the listings, in input order. |
| Run.LoopCleanFailures | data-pipeline/scrapers/portal_inmobiliario.py:437-478 | Without faults the loop completes. Failures are exactly the listings without a record. |
| Run.LoopCleanBatches | data-pipeline/scrapers/portal_inmobiliario.py:455-464 | Without faults, the batches written all have the batch size. Together they hold the run's records up to the last multiple, and fewer than a batch remain. |
| Run.NothingDue | data-pipeline/scrapers/portal_inmobiliario.py:426 | Before the first record, no batch is due. |
| Run.NoRemainder | data-pipeline/scrapers/portal_inmobiliario.py:490-491 | With no remainder, the batches already hold every record. |
| Run.LastBatch | data-pipeline/scrapers/portal_inmobiliario.py:490-492 | The remainder is exactly what the batches lack, and writing it completes them. |
| Run.FlushCompletes | data-pipeline/scrapers/portal_inmobiliario.py:488-492 | Without a write error, the final flush leaves the run's batches holding exactly its records, each batch one to `batch_save_size` long. |
| Run.VisitsClean | data-pipeline/scrapers/portal_inmobiliario.py:426-500 | Without faults, the result is the records of every listing that has a URL and a page, in order, and `self.detailed_properties` grows by exactly those. |
| Run.VisitsCleanBatches | data-pipeline/scrapers/portal_inmobiliario.py:455-492 | Without faults, the batch files of the run concatenate to exactly the records returned, in batches of one to the batch size. |
| Run.DetailedClean | data-pipeline/scrapers/portal_inmobiliario.py:406-500 | Without faults: no listings gives `[]`. Otherwise the result is the records of the truncated listings, all of them in batch files and in `self.detailed_properties`. |
| Scraper.FindProbeMatch | data-pipeline/scrapers/portal_inmobiliario.py:149-158 | The probe loop finds a match exactly when some probe selector matched more than five elements. |
| Scraper.CountFailure | data-pipeline/scrapers/portal_inmobiliario.py:469-476 | The handler adds one failure, and the breaker fires exactly when `failed_count > 0.3 * len(basic_listings)`. |
| Scraper.PortalScraper.constructor | data-pipeline/scrapers/portal_inmobiliario.py:16-28 | A new scraper has no results, records or batch files. Its pacer and database manager are new and follow its configuration: the pacer holds no request times, and the table holds the file's rows. |
| Scraper.PortalScraper.ScrapeListings | data-pipeline/scrapers/portal_inmobiliario.py:30-212 | `self.results` grows by the crawl's listings, page after page, and is returned. A browser that fails to launch gives `[]`. |
| Scraper.PortalScraper.SaveBatch | data-pipeline/scrapers/portal_inmobiliario.py:914-925 | An empty batch writes nothing. Otherwise the batch becomes one more file, unless the write raises. |
| Scraper.PortalScraper.KeepProperty | data-pipeline/scrapers/portal_inmobiliario.py:454-464 | The object's state after keeping a record equals `Keep` of the old state. |
| Scraper.PortalScraper.ProcessListing | data-pipeline/scrapers/portal_inmobiliario.py:437-478 | One iteration of the loop equals `Step` of the old state. |
| Scraper.PortalScraper.FlushRemaining | data-pipeline/scrapers/portal_inmobiliario.py:488-492 | The flush equals `Flush` of the old state. |
| Scraper.PortalScraper.VisitAll | data-pipeline/scrapers/portal_inmobiliario.py:426-500 | The loop and the flush equal `Visits` of the old state. |
| Scraper.PortalScraper.ScrapeDetailedListings | data-pipeline/scrapers/portal_inmobiliario.py:406-500 | The crawl extends `self.results`, and the visits of those listings equal `Detailed` of the old state. |

## Defining functions

The functions below define the model; each is a case analysis or a fold that
follows the cited lines, and the rows named after it state its properties.

- `Models.DefaultConfig` (models.py:10-33): `DefaultConfigWellFormed`.
- `Pacing.Pace` (rate_limiter.py:15-51): `PacedResult`, `PaceRecordsOneRequest`, `PaceFailsOnlyWithoutLimit`, `PaceKeepsCap`, and `RateLimiter.WaitIfNeeded`.
- `Cards.PageListings` (portal_inmobiliario.py:214-389): `PageListingsFacts`, `KeptSound`, `KeptComplete`, `KeptOrdered`.
- `Run.Crawl` (portal_inmobiliario.py:74-194): `CrawlIsListingsBeforeStop`, `CrawlClosedForm`, `CrawlFromPages`, `CrawlStopsAtMaxPages`, `CrawlFirstPage`, and `PortalScraper.ScrapeListings`.
- `Run.Truncate` (portal_inmobiliario.py:419-420): `TruncateLimit`.
- `Run.Breaker` (portal_inmobiliario.py:469-476): `BreakerThreshold`, `Scraper.CountFailure`.
- `Run.BatchOutcome` (portal_inmobiliario.py:462-464): `FillBatch`, `GrowBatch`, `AddKeepsBatches`.
- `Run.Keep` (portal_inmobiliario.py:454-478): `KeepFacts`, `KeepNeverRaises`, `KeepClean`.
- `Run.Step` (portal_inmobiliario.py:437-478): `StepRaise`, `StepRecords`, `StepFailures`, `StepAccounting`, `StepClean`.
- `Run.Loop` (portal_inmobiliario.py:437-478): `LoopNext`, `LoopAccounting`, `LoopVisitsAll`, `LoopClean`, `LoopCleanFailures`, `LoopCleanBatches`.
- `Run.Flush` (portal_inmobiliario.py:488-492): `NoRemainder`, `LastBatch`, `FlushCompletes`.
- `Run.Visits`, `Run.Detailed` (portal_inmobiliario.py:406-500): `VisitsClean`, `VisitsCleanBatches`, `DetailedClean`, and `PortalScraper.VisitAll`, `PortalScraper.ScrapeDetailedListings`.
- `Listing.DetailRecord` (portal_inmobiliario.py:502-556): `DetailRecordIdentity`, `DetailRecordClean`, `PassesKeep`.
- `Financial.PriceUpdate`, `Financial.PricePass`, `Financial.MaintenancePass`, `Financial.FinancialData` (portal_inmobiliario.py:558-616): `CurrencyRule`, `PricePassGoesOn`, `PricePassFrame`, `PricePassNoCandidate`, `MaintenancePassFee`, `ExtractFinancialData`.
- `Details.ElementUpdate`, `Details.GroupPass`, `Details.AttributePass`, `Details.DormLoop`, `Details.PropertyDetails` (portal_inmobiliario.py:618-677): `GroupPassTexts`, `AttributePassTexts`, `AttributePassCount`, `AttributePassArea`, `CountFirstWins`, `CountNoneWins`, `AreaFirstWins`, `AreaNoneWins`, `DormLoopFirst`, `DormLoopNone`, `PropertyDetailsKeeps`.
- `Location.LocationUpdate`, `Location.AddressLoop`, `Location.LocationData` (portal_inmobiliario.py:679-708): `LocationUpdateFacts`, `AddressLoopFirst`, `AddressLoopNone`, `AddressLoopFrame`, `ExtractLocationData`.
- `Building.BuildingUpdate`, `Building.BuildingFeatures` (portal_inmobiliario.py:752-778): `BuildingFeaturesFacts`, `ElevatorNeverFalse`, `ExtractBuildingFeatures`.
- `Amenities.TagsFound`, `Amenities.FlagUpdate`, `Amenities.AmenitiesData` (portal_inmobiliario.py:780-818): `TagsFoundMember`, `TagsFoundDistinct`, `TagsFoundOrder`, `PoolFlag`, `GymFlag`, `SecurityFlag`, `AmenityListDistinct`.
- `Media.GroupReads`, `Media.ImagePass`, `Media.VideoLoop`, `Media.MediaData` (portal_inmobiliario.py:820-865): `GroupReadsGood`, `GroupReadsComplete`, `ImagePassGood`, `ImagePassAtMostTen`, `VideoLoopFirst`, `VideoLoopNone`, `MediaDataFacts`.
- `Metadata.DateLoop`, `Metadata.AgentLoop`, `Metadata.MetadataData` (portal_inmobiliario.py:867-912): `DateLoopFirst`, `DateLoopOutcome`, `AgentLoopFirst`, `AgentLoopFacts`, `MetadataFacts`.
- `Quality.Dedup`, `Quality.Normalize`, `Quality.Clean` (portal_inmobiliario.py:989-1027): `DedupFacts`, `NormalizeMember`, `NormalizeClean`, `CleanFrame`, `CleanIdempotent`, `CleanAmenitiesFacts`.
- `Database.Upsert`, `Database.SaveOutcome` (db_manager.py:69-109): `UpsertValid`, `UpsertLookup`, `UpsertSize`, `SecondSaveReplaces`, `SaveOutcomeFacts`.
- `Database.StatsOf`, `Database.StatsResultOf` (db_manager.py:111-165): `StatsCounts`, `StatsAverages`, `StatsResultFacts`, `EmptyTableStats`.

## Left out

- Browser plumbing: launch, contexts, `goto`, the waits for load indicators,
  `query_selector*`, `inner_text` and `get_attribute`. Each becomes the values
  in module `Pages`. The two navigation attempts of a results page become one
  flag, and the two browser launches in `scrape_detailed_listings` are
  assumed to succeed.
- The outer `except` of `scrape_listings`, which ends the crawl on an
  unexpected exception: the model has no such exception source.
- Sleeps, randomness and the wall clock. The pacer returns the wait instead of
  sleeping. The clock, the hour, the drawn delay, the capture time and the
  year are parameters. Proxies and user agents are left out, and so are the
  fixed delays between pages.
- Pacing.RateLimiter.WaitIfNeeded: the clock is read once, and the time
  recorded is that reading plus the waits. It is not a second reading of the
  clock.
- Printing, the debug HTML files, the blocking-keyword scan (it only prints),
  the progress and success-rate line, `print_summary` and
  `print_detailed_summary`.
- `save_results` and `save_all_detailed_results`, and the JSON encoding of
  batch files. A batch file is the sequence of records it holds, and its
  timestamped name is not modelled.
- The JSON text of the `amenities` and `image_urls` columns: a row holds the
  lists, `[]` when falsy.
- `init_database` (schema and indexes), and the row id sequence beyond
  increasing. A `sqlite3.connect` failure in `DatabaseManager(config)` is not
  modelled; `save_property` and `get_stats` do model it.
- Coordinates. `extract_location_data` reads latitude and longitude with
  `float()` on attributes or script text; that part is not modelled, and the
  coordinates stay as they were.
- Floating point. Delays, prices, areas and averages are exact reals, and
  `round(…, 2)` is not applied. The breaker's test `failed > n * 0.3` is
  `10 * failed > 3 * n`. The two agree for every integer below 2^53. When
  `3n/10` is an integer, the rounding error of `0.3` is too small to move the
  product off it. When it is not, the product is at least 0.1 away from every
  integer.
- Text: case mapping covers the letters `A`-`Z`, `a`-`z` and the Latin-1
  letters from `À` to `ÿ`, `\d` and `isdigit` mean ASCII digits, and
  whitespace is Python's `str.isspace` set over those characters. Python
  does more: `ÿ` upper-cases to `Ÿ` (U+0178), `µ` is a lower-case letter
  whose upper case is `Μ`, `ª` and `º` are cased letters for `title()` (so
  `"1ºa".title()` is `"1ºa"`, where the model gives `"1ºA"`), and `ß` at the
  start of a word title-cases to `"Ss"`, which lengthens the string.
- Quality.Clean: `list(set(...))` orders its elements by hash. The model keeps
  first-occurrence order, so cleaning is idempotent exactly, not only up to
  order. `CleanAmenitiesFacts` proves the set-level facts.
- `detailed_properties` holds record values, not references to objects.
  `clean_property_data` mutates and returns the same object, so no aliasing
  remains once a record is built.
- Run.Step takes the page visit as a function parameter (`DetailFetch` for
  the real passes). Run.Loop takes the step itself as a function value
  (`StepOf` for the scraper's own step). The loop lemmas therefore hold for
  any way of obtaining a record, and for any step that obeys the laws
  `Accounts` and `CleanSteps`.
- The configuration fields `max_concurrent_requests`,
  `max_listings_per_session`, `max_pages_per_session`,
  `max_retries_per_listing` and `database_path` are never read by the code
  modelled here.
- Behaviour modelled as written, not corrected:
  - `listing_date` is the literal text `hace N \d+`, because the unit is cut
    from the pattern's first group.
  - The `sin ascensor` branch is dead code.
  - A record scraped on the cutoff's day always counts as recent.
  - A record whose database connect or batch write raises is both kept and
    counted as a failure.
- The API, the interactive CLI drivers (`main()`, `demo_detailed_scraping`,
  `jobs/scrape_job.py`) and the package re-exports are outside this model.
