/** `extract_metadata`: how long ago the listing was published and who
    publishes it (data-pipeline/scrapers/portal_inmobiliario.py:867-912). */
module Metadata {
  import opened Wrappers
  import opened Text
  import opened Patterns
  import opened Models
  import opened Pages

  /** One date pattern: the unit words it accepts and the days in a unit. */
  datatype DateUnit = DateUnit(words: seq<string>, days: nat)

  /** The three patterns, in the order they are tried: days, months counted
      as 30 days, years counted as 365 days. */
  const DateUnits: seq<DateUnit> := [
    DateUnit(["día", "day"], 1),
    DateUnit(["mes", "month"], 30),
    DateUnit(["año", "year"], 365)
  ]

  /** What the listing date gets in place of the unit: the text between the
      pattern's first `(` and the next `)`, which is the group `\d+` itself. */
  const GroupText := "\\d+"

  /** The listing date stored for the count `n`. */
  function DateText(n: string): string {
    "hace " + n + " " + GroupText
  }

  /** The count of the leftmost `publicado hace N <unit>` in `l` for the
      unit words `words`. */
  function PublishedCount(l: string, words: seq<string>): (r: Option<string>)
    ensures r.Some? ==> r.value != [] && AllDigits(r.value)
  {
    var m := Search(l, 0, (s, k) => PublishedAt(s, k, words));
    if m.Some? then
      assert exists k | 0 <= k <= |l| :: PublishedAt(l, k, words) == m;
      m
    else None
  }

  /** What one date pattern found: the count of its leftmost match, if it
      matched, and the days in its unit. */
  datatype DateHit = DateHit(count: Option<string>, days: nat)

  /** Every count found is a non-empty run of digits. */
  predicate WellFormedHits(hits: seq<DateHit>) {
    forall i | 0 <= i < |hits| :: hits[i].count.Some? ==> hits[i].count.value != [] && AllDigits(hits[i].count.value)
  }

  /** What each of the patterns `units` finds in the lower-cased text `l`. */
  function DateHits(l: string, units: seq<DateUnit>): (r: seq<DateHit>)
    ensures |r| == |units| && WellFormedHits(r)
    ensures forall i | 0 <= i < |units| :: r[i] == DateHit(PublishedCount(l, units[i].words), units[i].days)
    decreases |units|
  {
    if units == [] then []
    else [DateHit(PublishedCount(l, units[0].words), units[0].days)] + DateHits(l, units[1..])
  }

  /** The date loop over what the patterns found, in the order they are
      tried: the first pattern that matched sets the listing date and the days
      on market. */
  function DateLoop(p: PropertyRecord, hits: seq<DateHit>): PropertyRecord
    requires WellFormedHits(hits)
    decreases |hits|
  {
    if hits == [] then p
    else if hits[0].count.Some? then
      var n := hits[0].count.value;
      p.(listingDate := DateText(n), daysOnMarket := Some(DigitsValue(n) * hits[0].days))
    else DateLoop(p, hits[1..])
  }

  /** `agent_text and len(agent_text) < 200`. */
  predicate AgentAccepted(t: string) {
    t != "" && |t| < 200
  }

  /** The agent loop: the first accepted text, stripped. */
  function AgentLoop(p: PropertyRecord, texts: seq<Option<string>>): PropertyRecord
    decreases |texts|
  {
    if texts == [] then p
    else if texts[0].Some? && AgentAccepted(texts[0].value) then p.(agentInfo := Strip(texts[0].value))
    else AgentLoop(p, texts[1..])
  }

  /** The whole pass; it is abandoned as a whole when reading the page text
      raised. */
  function MetadataData(p: PropertyRecord, page: DetailPage): PropertyRecord {
    if page.bodyText.None? then p
    else AgentLoop(DateLoop(p, DateHits(Lower(page.bodyText.value), DateUnits)), page.agentTexts)
  }

  // ---------------------------------------------------------------------------
  // Properties

  /** The first pattern that matches anywhere in the text decides, even when
      a later pattern matches further left. */
  lemma {:induction false} DateLoopFirst(p: PropertyRecord, hits: seq<DateHit>, k: nat)
    requires WellFormedHits(hits)
    requires k < |hits| && hits[k].count.Some?
    requires forall i | 0 <= i < k :: hits[i].count.None?
    ensures var n := hits[k].count.value;
      DateLoop(p, hits) == p.(listingDate := DateText(n), daysOnMarket := Some(DigitsValue(n) * hits[k].days))
    decreases k
  {
    if k > 0 {
      assert hits[1..][k - 1] == hits[k];
      DateLoopFirst(p, hits[1..], k - 1);
    }
  }

  /** Either no pattern matched and nothing changes, or some pattern's count
      `n` gives the listing date `hace n \d+`, which names no unit, and `n`
      times that pattern's days; nothing else changes. */
  lemma {:induction false} DateLoopOutcome(p: PropertyRecord, hits: seq<DateHit>)
    requires WellFormedHits(hits)
    ensures var r := DateLoop(p, hits);
      || r == p
      || exists k | 0 <= k < |hits| && hits[k].count.Some? ::
           r == p.(listingDate := DateText(hits[k].count.value),
                   daysOnMarket := Some(DigitsValue(hits[k].count.value) * hits[k].days))
    decreases |hits|
  {
    if hits != [] && hits[0].count.None? {
      DateLoopOutcome(p, hits[1..]);
      var r := DateLoop(p, hits);
      if r != p {
        var k :| 0 <= k < |hits[1..]| && hits[1..][k].count.Some? &&
          r == p.(listingDate := DateText(hits[1..][k].count.value),
                  daysOnMarket := Some(DigitsValue(hits[1..][k].count.value) * hits[1..][k].days));
        assert hits[1..][k] == hits[k + 1];
      }
    }
  }

  /** The agent loop uses the first accepted text and only that one. */
  lemma {:induction false} AgentLoopFirst(p: PropertyRecord, texts: seq<Option<string>>, k: nat)
    requires k < |texts| && texts[k].Some? && AgentAccepted(texts[k].value)
    requires forall i | 0 <= i < k :: texts[i].None? || !AgentAccepted(texts[i].value)
    ensures AgentLoop(p, texts) == p.(agentInfo := Strip(texts[k].value))
    decreases k
  {
    if k > 0 {
      assert texts[1..][k - 1] == texts[k];
      AgentLoopFirst(p, texts[1..], k - 1);
    }
  }

  /** The agent loop changes the agent only, and an agent it sets is
      stripped and shorter than 200 characters. */
  lemma {:induction false} AgentLoopFacts(p: PropertyRecord, texts: seq<Option<string>>)
    ensures var r := AgentLoop(p, texts);
      && r.(agentInfo := p.agentInfo) == p
      && (r.agentInfo == p.agentInfo || (Stripped(r.agentInfo) && |r.agentInfo| < 200))
    decreases |texts|
  {
    if texts != [] {
      if texts[0].Some? && AgentAccepted(texts[0].value) {
        var t := texts[0].value;
        var i :| 0 <= i <= |t| && Strip(t) <= t[i..];
      } else {
        AgentLoopFacts(p, texts[1..]);
      }
    }
  }

  /** The days a pattern counts per unit are 1, 30 and 365. */
  lemma DateUnitDays()
    ensures |DateUnits| == 3
    ensures DateUnits[0].days == 1 && DateUnits[1].days == 30 && DateUnits[2].days == 365
  {
  }

  /** The date and agent loops change only the listing date, the days on
      market and the agent; a date they set is `hace n \d+` for a count `n`
      with `n`, `30 n` or `365 n` days on market when every pattern counts
      days, months or years. */
  lemma LoopsFacts(p: PropertyRecord, hits: seq<DateHit>, texts: seq<Option<string>>)
    requires WellFormedHits(hits)
    requires forall i | 0 <= i < |hits| :: hits[i].days in {1, 30, 365}
    ensures var r := AgentLoop(DateLoop(p, hits), texts);
      r.(listingDate := p.listingDate, daysOnMarket := p.daysOnMarket, agentInfo := p.agentInfo) == p
    ensures var r := AgentLoop(DateLoop(p, hits), texts);
      || (r.listingDate == p.listingDate && r.daysOnMarket == p.daysOnMarket)
      || exists n: string, f: nat | f in {1, 30, 365} && n != [] && AllDigits(n) ::
           r.listingDate == DateText(n) && r.daysOnMarket == Some(DigitsValue(n) * f)
  {
    var d := DateLoop(p, hits);
    DateLoopOutcome(p, hits);
    AgentLoopFacts(d, texts);
    if d != p {
      var k :| 0 <= k < |hits| && hits[k].count.Some? &&
        d == p.(listingDate := DateText(hits[k].count.value),
                daysOnMarket := Some(DigitsValue(hits[k].count.value) * hits[k].days));
      assert hits[k].days in {1, 30, 365};
    }
  }

  /** The pass changes only the listing date, the days on market and the
      agent; a date it sets is `hace n \d+` for a count `n` of the text, with
      `n`, `30 n` or `365 n` days on market. */
  lemma MetadataFacts(p: PropertyRecord, page: DetailPage)
    requires page.bodyText.Some?
    ensures var r := MetadataData(p, page);
      r.(listingDate := p.listingDate, daysOnMarket := p.daysOnMarket, agentInfo := p.agentInfo) == p
    ensures var r := MetadataData(p, page);
      || (r.listingDate == p.listingDate && r.daysOnMarket == p.daysOnMarket)
      || exists n: string, f: nat | f in {1, 30, 365} && n != [] && AllDigits(n) ::
           r.listingDate == DateText(n) && r.daysOnMarket == Some(DigitsValue(n) * f)
  {
    var hits := DateHits(Lower(page.bodyText.value), DateUnits);
    DateUnitDays();
    LoopsFacts(p, hits, page.agentTexts);
  }

  // ---------------------------------------------------------------------------
  // The pass on the record object

  /** The date loop on the record object, over the lower-cased text `l`. */
  method ExtractListingDate(l: string, p: PropertyData)
    modifies p
    ensures p.fields == DateLoop(old(p.fields), DateHits(l, DateUnits))
  {
    ghost var hits := DateHits(l, DateUnits);
    var i := 0;
    while i < |DateUnits|
      invariant 0 <= i <= |DateUnits|
      invariant DateLoop(old(p.fields), hits) == DateLoop(p.fields, hits[i..])
    {
      assert hits[i..][1..] == hits[i + 1..];
      var n := PublishedCount(l, DateUnits[i].words);
      if n.Some? {
        p.fields := p.fields.(listingDate := DateText(n.value));
        p.fields := p.fields.(daysOnMarket := Some(DigitsValue(n.value) * DateUnits[i].days));
        break;
      }
      i := i + 1;
    }
  }

  /** The agent loop on the record object. */
  method ExtractAgent(texts: seq<Option<string>>, p: PropertyData)
    modifies p
    ensures p.fields == AgentLoop(old(p.fields), texts)
  {
    var j := 0;
    while j < |texts|
      invariant 0 <= j <= |texts|
      invariant AgentLoop(old(p.fields), texts) == AgentLoop(p.fields, texts[j..])
    {
      assert texts[j..][1..] == texts[j + 1..];
      if texts[j].Some? && AgentAccepted(texts[j].value) {
        p.fields := p.fields.(agentInfo := Strip(texts[j].value));
        break;
      }
      j := j + 1;
    }
  }

  /** `extract_metadata` on the record object. */
  method ExtractMetadata(page: DetailPage, p: PropertyData)
    modifies p
    ensures p.fields == MetadataData(old(p.fields), page)
  {
    if page.bodyText.Some? {
      ExtractListingDate(Lower(page.bodyText.value), p);
      ExtractAgent(page.agentTexts, p);
    }
  }
}
