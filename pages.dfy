/** What the browser hands the scraper. Each DOM query becomes the sequence
    of answers its selectors give, in the order the code tries them, and each
    navigation becomes a success flag. The scraper's logic runs on these
    values. */
module Pages {
  import opened Wrappers

  /** One element matched by the card selector of a search page. */
  datatype Card = Card(
    // false when reading the element raised; the element is then skipped
    readable: bool,
    // the element's own inner text
    text: string,
    // per title selector: the inner text of its first match, `None` if nothing matched
    titleTexts: seq<Option<string>>,
    // per price selector: the inner text of its first match
    priceTexts: seq<Option<string>>,
    // per currency selector: the inner text of its first match
    currencyTexts: seq<Option<string>>,
    // per location selector: the inner text of its first match
    locationTexts: seq<Option<string>>,
    // per link selector: the `href` of its first match, `None` if nothing
    // matched or the match has no `href`
    linkHrefs: seq<Option<string>>,
    // the element's own `href`
    ownHref: Option<string>)

  /** One results page of the search. */
  datatype SearchPage = SearchPage(
    // one of the two navigation attempts succeeded
    reached: bool,
    // per probe selector: how many elements it matched (0 if the query raised)
    probeCounts: seq<int>,
    // per card selector: the elements it matched
    cardLists: seq<seq<Card>>,
    // an enabled "next" pagination button exists
    hasNext: bool)

  /** `await element.get_attribute('src')`: the attribute, `None` when the
      element has none, or an exception. */
  datatype SrcRead = Src(src: Option<string>) | SrcRaised

  /** One property page, as the extraction passes query it. */
  datatype DetailPage = DetailPage(
    // per price selector: the inner text of its first match
    priceTexts: seq<Option<string>>,
    // per maintenance selector: the inner text of its first match's parent
    maintenanceTexts: seq<Option<string>>,
    // per attribute selector: the inner text of each of its matches, `None`
    // where reading it raised, which abandons the rest of that selector
    attributeGroups: seq<seq<Option<string>>>,
    // inner texts of the elements matching the text query `/\d+ dorm/`; a
    // read that raises ends the list
    dormTexts: seq<string>,
    // per address selector: the inner text of its first match
    addressTexts: seq<Option<string>>,
    // the inner text of `body`; `None` when reading it raised, which ends the
    // pass that read it
    bodyText: Option<string>,
    // per image selector: what reading the `src` of each match gave
    imageGroups: seq<seq<SrcRead>>,
    // per video selector: the `src` of its first match
    videoSrcs: seq<Option<string>>,
    // per agent selector: the inner text of its first match
    agentTexts: seq<Option<string>>)

  /** Everything outside the program that one visit of a listing depends on. */
  datatype Visit = Visit(
    // the clock, the hour and the drawn minimum delay the pacer sees
    now: real,
    hour: int,
    minDelay: real,
    // the property page; `None` when navigating to it raised
    page: Option<DetailPage>,
    // `datetime.now().isoformat()` and `datetime.now().year` during the visit
    capturedAt: string,
    currentYear: int,
    // `sqlite3.connect` raises; this happens outside the write's error handling
    dbConnectFails: bool,
    // the `INSERT OR REPLACE` raises `sqlite3.Error`, which is logged and dropped
    dbWriteFails: bool,
    // writing a JSON batch file raises
    batchWriteFails: bool)
}
