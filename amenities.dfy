/** `extract_amenities_data`: the amenity tags whose Spanish keyword occurs
    in the text of a property page, and the pool, gym and security flags
    (data-pipeline/scrapers/portal_inmobiliario.py:780-818). */
module Amenities {
  import opened Wrappers
  import opened Text
  import opened Models
  import opened Pages

  /** A row of the keyword table: the Spanish keyword and its tag. */
  datatype Amenity = Amenity(keyword: string, tag: string)

  /** The keyword table, in the order the dictionary iterates it. */
  const AmenityTable: seq<Amenity> := [
    Amenity("piscina", "pool"),
    Amenity("gimnasio", "gym"),
    Amenity("seguridad", "security"),
    Amenity("portero", "doorman"),
    Amenity("jardin", "garden"),
    Amenity("terraza", "terrace"),
    Amenity("balcon", "balcony"),
    Amenity("bodega", "storage"),
    Amenity("quincho", "bbq area"),
    Amenity("sala multiuso", "multipurpose room"),
    Amenity("salon de eventos", "event room")
  ]

  /** The tags of the rows of `table` whose keyword occurs in `l`, in table
      order. */
  function TagsFound(l: string, table: seq<Amenity>): seq<string>
    decreases |table|
  {
    if table == [] then []
    else
      var last := table[|table| - 1];
      TagsFound(l, table[..|table| - 1]) + (if Contains(l, last.keyword) then [last.tag] else [])
  }

  /** The flags the loop sets for the tags `tags`: each is set to `True` when
      its tag is among them and is otherwise left untouched. */
  function FlagUpdate(p: PropertyRecord, tags: seq<string>): PropertyRecord {
    p.(hasPool := if "pool" in tags then Some(true) else p.hasPool,
       hasGym := if "gym" in tags then Some(true) else p.hasGym,
       hasSecurity := if "security" in tags || "doorman" in tags then Some(true) else p.hasSecurity)
  }

  /** The whole pass: the flags, then the list of tags replaces `amenities`.
      Nothing changes when reading the page text raised. */
  function AmenitiesData(p: PropertyRecord, page: DetailPage): PropertyRecord {
    if page.bodyText.None? then p
    else
      var tags := TagsFound(Lower(page.bodyText.value), AmenityTable);
      FlagUpdate(p, tags).(amenities := Some(tags))
  }

  // ---------------------------------------------------------------------------
  // Properties

  /** A tag is found exactly when some row with that tag has its keyword in
      the text. */
  lemma {:induction false} TagsFoundMember(l: string, table: seq<Amenity>, tag: string)
    ensures tag in TagsFound(l, table) <==>
      exists i | 0 <= i < |table| :: table[i].tag == tag && Contains(l, table[i].keyword)
    decreases |table|
  {
    if table != [] {
      var init := table[..|table| - 1];
      TagsFoundMember(l, init, tag);
      if tag in TagsFound(l, table) && tag !in TagsFound(l, init) {
        assert table[|table| - 1].tag == tag && Contains(l, table[|table| - 1].keyword);
      }
      if i :| 0 <= i < |table| && table[i].tag == tag && Contains(l, table[i].keyword) {
        if i < |table| - 1 {
          assert init[i] == table[i];
        }
      }
    }
  }

  /** The tags found are the tags of some rows, each at most once when the
      table's tags are distinct. */
  lemma {:induction false} TagsFoundDistinct(l: string, table: seq<Amenity>)
    requires forall i, j | 0 <= i < j < |table| :: table[i].tag != table[j].tag
    ensures forall i, j | 0 <= i < j < |TagsFound(l, table)| :: TagsFound(l, table)[i] != TagsFound(l, table)[j]
    ensures |TagsFound(l, table)| <= |table|
    decreases |table|
  {
    if table != [] {
      var init := table[..|table| - 1];
      var last := table[|table| - 1];
      TagsFoundDistinct(l, init);
      TagsFoundMember(l, init, last.tag);
    }
  }

  /** The tags are found in table order: of two entries, the earlier comes
      from an earlier row whose keyword occurs. */
  lemma {:induction false} TagsFoundOrder(l: string, table: seq<Amenity>, i: nat, j: nat)
    requires i < j < |TagsFound(l, table)|
    ensures exists a, b | 0 <= a < b < |table| ::
      && table[a].tag == TagsFound(l, table)[i] && Contains(l, table[a].keyword)
      && table[b].tag == TagsFound(l, table)[j] && Contains(l, table[b].keyword)
    decreases |table|
  {
    var init := table[..|table| - 1];
    var last := table[|table| - 1];
    var found := TagsFound(l, init);
    assert TagsFound(l, table) == found + (if Contains(l, last.keyword) then [last.tag] else []);
    if j < |found| {
      TagsFoundOrder(l, init, i, j);
      var a, b :| 0 <= a < b < |init| &&
        init[a].tag == found[i] && Contains(l, init[a].keyword) &&
        init[b].tag == found[j] && Contains(l, init[b].keyword);
      assert table[a] == init[a] && table[b] == init[b];
    } else {
      assert TagsFound(l, table)[j] == last.tag && Contains(l, last.keyword);
      TagsFoundMember(l, init, found[i]);
      var a :| 0 <= a < |init| && init[a].tag == found[i] && Contains(l, init[a].keyword);
      assert table[a] == init[a];
      assert TagsFound(l, table)[i] == found[i];
    }
  }

  /** Each tag of the table belongs to exactly one row. */
  lemma TableTagsDistinct()
    ensures forall i, j | 0 <= i < j < |AmenityTable| :: AmenityTable[i].tag != AmenityTable[j].tag
  {
  }

  /** A tag that only row `k` carries is found exactly when that row's
      keyword occurs. */
  lemma UniqueTagFound(l: string, table: seq<Amenity>, k: nat)
    requires k < |table|
    requires forall i | 0 <= i < |table| && i != k :: table[i].tag != table[k].tag
    ensures table[k].tag in TagsFound(l, table) <==> Contains(l, table[k].keyword)
  {
    TagsFoundMember(l, table, table[k].tag);
  }

  /** Whether a tag that only row `k` of the keyword table carries is among
      the tags found in `l`. */
  lemma TableTagFound(l: string, k: nat)
    requires k < |AmenityTable|
    ensures AmenityTable[k].tag in TagsFound(l, AmenityTable) <==> Contains(l, AmenityTable[k].keyword)
  {
    TableTagsDistinct();
    UniqueTagFound(l, AmenityTable, k);
  }

  /** The pool flag is set exactly when `piscina` occurs, and is otherwise
      left as it was. */
  lemma PoolFlag(p: PropertyRecord, page: DetailPage)
    requires page.bodyText.Some?
    ensures var l := Lower(page.bodyText.value);
      AmenitiesData(p, page).hasPool == if Contains(l, "piscina") then Some(true) else p.hasPool
  {
    TableTagFound(Lower(page.bodyText.value), 0);
  }

  /** The gym flag is set exactly when `gimnasio` occurs, and is otherwise
      left as it was. */
  lemma GymFlag(p: PropertyRecord, page: DetailPage)
    requires page.bodyText.Some?
    ensures var l := Lower(page.bodyText.value);
      AmenitiesData(p, page).hasGym == if Contains(l, "gimnasio") then Some(true) else p.hasGym
  {
    TableTagFound(Lower(page.bodyText.value), 1);
  }

  /** The security flag is set exactly when `seguridad` or `portero` occurs,
      and is otherwise left as it was. */
  lemma SecurityFlag(p: PropertyRecord, page: DetailPage)
    requires page.bodyText.Some?
    ensures var l := Lower(page.bodyText.value);
      AmenitiesData(p, page).hasSecurity ==
        if Contains(l, "seguridad") || Contains(l, "portero") then Some(true) else p.hasSecurity
  {
    var l := Lower(page.bodyText.value);
    var tags := TagsFound(l, AmenityTable);
    TableTagFound(l, 2);
    TableTagFound(l, 3);
    assert AmenityTable[2] == Amenity("seguridad", "security") && AmenityTable[3] == Amenity("portero", "doorman");
    assert AmenitiesData(p, page).hasSecurity == if "security" in tags || "doorman" in tags then Some(true) else p.hasSecurity;
  }

  /** The list of amenities is replaced by the tags found in the lower-cased
      text, each at most once and in table order (`TagsFoundOrder`), and
      nothing else but the flags changes. */
  lemma AmenityListDistinct(p: PropertyRecord, page: DetailPage)
    requires page.bodyText.Some?
    ensures var r := AmenitiesData(p, page);
      && r.amenities == Some(TagsFound(Lower(page.bodyText.value), AmenityTable))
      && |r.amenities.value| <= |AmenityTable|
      && (forall i, j | 0 <= i < j < |r.amenities.value| :: r.amenities.value[i] != r.amenities.value[j])
      && r.(amenities := p.amenities, hasPool := p.hasPool, hasGym := p.hasGym, hasSecurity := p.hasSecurity) == p
  {
    TableTagsDistinct();
    TagsFoundDistinct(Lower(page.bodyText.value), AmenityTable);
  }

  // ---------------------------------------------------------------------------
  // The pass on the record object

  /** `extract_amenities_data` on the record object. */
  method ExtractAmenitiesData(page: DetailPage, p: PropertyData)
    modifies p
    ensures p.fields == AmenitiesData(old(p.fields), page)
  {
    if page.bodyText.Some? {
      var l := Lower(page.bodyText.value);
      var amenities: seq<string> := [];
      var i := 0;
      while i < |AmenityTable|
        invariant 0 <= i <= |AmenityTable|
        invariant amenities == TagsFound(l, AmenityTable[..i])
        invariant p.fields == FlagUpdate(old(p.fields), amenities)
      {
        assert AmenityTable[..i + 1][..i] == AmenityTable[..i];
        var row := AmenityTable[i];
        if Contains(l, row.keyword) {
          amenities := amenities + [row.tag];
          if row.tag == "pool" {
            p.fields := p.fields.(hasPool := Some(true));
          } else if row.tag == "gym" {
            p.fields := p.fields.(hasGym := Some(true));
          } else if row.tag == "security" || row.tag == "doorman" {
            p.fields := p.fields.(hasSecurity := Some(true));
          }
        }
        i := i + 1;
      }
      assert AmenityTable[..i] == AmenityTable;
      p.fields := p.fields.(amenities := Some(amenities));
    }
  }
}
