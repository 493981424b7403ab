/** `extract_building_features`: the building age, the floor and the elevator
    flag read from the text of a property page
    (data-pipeline/scrapers/portal_inmobiliario.py:752-778). */
module Building {
  import opened Wrappers
  import opened Text
  import opened Patterns
  import opened Models
  import opened Pages

  /** `int` of the first `(\d{4})\s*(?:año|year)` group of the lower-cased
      text `l`. */
  function YearIn(l: string): (r: Option<nat>)
    ensures r.Some? ==> r.value < 10000
  {
    var g := Search(l, 0, YearAt);
    if g.Some? then
      FourDigitsBelow(g.value);
      Some(DigitsValue(g.value))
    else None
  }

  /** A four-digit number is below 10000. */
  lemma FourDigitsBelow(g: string)
    requires |g| == 4 && AllDigits(g)
    ensures DigitsValue(g) < 10000
  {
    var g3 := g[..3];
    var g2 := g3[..2];
    var g1 := g2[..1];
    assert g1[..0] == [];
    assert DigitsValue(g1) < 10;
    assert DigitsValue(g2) < 100;
    assert DigitsValue(g3) < 1000;
  }

  /** `int` of the group of the first `piso\s*(\d+)|floor\s*(\d+)` match. */
  function FloorIn(l: string): Option<nat> {
    var g := Search(l, 0, FloorAt);
    if g.Some? then Some(DigitsValue(g.value)) else None
  }

  /** `re.search(r'ascensor|elevator', l)`. */
  predicate MentionsElevator(l: string) {
    Contains(l, "ascensor") || Contains(l, "elevator")
  }

  /** `re.search(r'sin ascensor|no elevator', l)`. */
  predicate DeniesElevator(l: string) {
    Contains(l, "sin ascensor") || Contains(l, "no elevator")
  }

  /** The assignments of the pass, given what each pattern yielded and the
      current year. */
  function BuildingUpdate(p: PropertyRecord, year: Option<nat>, floor: Option<nat>,
                          mentions: bool, denies: bool, currentYear: int): PropertyRecord
  {
    p.(buildingAge := if year.Some? && 1900 < year.value <= currentYear then Some(currentYear - year.value) else p.buildingAge,
       floorNumber := if floor.Some? then Some(floor.value as int) else p.floorNumber,
       hasElevator := if mentions then Some(true) else if denies then Some(false) else p.hasElevator)
  }

  /** The whole pass; nothing changes when reading the page text raised. */
  function BuildingFeatures(p: PropertyRecord, page: DetailPage, currentYear: int): PropertyRecord {
    if page.bodyText.None? then p
    else
      var l := Lower(page.bodyText.value);
      BuildingUpdate(p, YearIn(l), FloorIn(l), MentionsElevator(l), DeniesElevator(l), currentYear)
  }

  // ---------------------------------------------------------------------------
  // Properties

  /** Every text that denies an elevator also mentions one. */
  lemma DenialMentions(l: string)
    requires DeniesElevator(l)
    ensures MentionsElevator(l)
  {
    if Contains(l, "sin ascensor") {
      assert "sin ascensor" == "sin " + "ascensor";
      ContainsTail(l, "sin ", "ascensor");
    } else {
      assert "no elevator" == "no " + "elevator";
      ContainsTail(l, "no ", "elevator");
    }
  }

  /** The pass never sets the elevator flag to `False`: the denial branch is
      unreachable, so the flag is `True` or left as it was. */
  lemma ElevatorNeverFalse(p: PropertyRecord, page: DetailPage, currentYear: int)
    ensures var r := BuildingFeatures(p, page, currentYear);
      r.hasElevator == p.hasElevator || r.hasElevator == Some(true)
  {
    if page.bodyText.Some? {
      var l := Lower(page.bodyText.value);
      if DeniesElevator(l) {
        DenialMentions(l);
      }
    }
  }

  /** The pass changes nothing but the age, the floor and the elevator flag,
      and nothing at all when reading the page text raised. The age is the
      current year minus the year read, set exactly when that year is after
      1900 and not after the current one, so it lies between 0 and
      `currentYear - 1901`; the floor is the number read, when there is one. */
  lemma BuildingFeaturesFacts(p: PropertyRecord, page: DetailPage, currentYear: int)
    ensures var r := BuildingFeatures(p, page, currentYear);
      r.(buildingAge := p.buildingAge, floorNumber := p.floorNumber, hasElevator := p.hasElevator) == p
    ensures page.bodyText.None? ==> BuildingFeatures(p, page, currentYear) == p
    ensures page.bodyText.Some? ==>
      var y := YearIn(Lower(page.bodyText.value));
      BuildingFeatures(p, page, currentYear).buildingAge ==
        if y.Some? && 1900 < y.value <= currentYear then Some(currentYear - y.value) else p.buildingAge
    ensures page.bodyText.Some? ==>
      var f := FloorIn(Lower(page.bodyText.value));
      BuildingFeatures(p, page, currentYear).floorNumber ==
        if f.Some? then Some(f.value as int) else p.floorNumber
    ensures var r := BuildingFeatures(p, page, currentYear);
      r.buildingAge == p.buildingAge || (r.buildingAge.Some? && 0 <= r.buildingAge.value <= currentYear - 1901)
    ensures var r := BuildingFeatures(p, page, currentYear);
      r.floorNumber == p.floorNumber || (r.floorNumber.Some? && r.floorNumber.value >= 0)
  {
  }

  // ---------------------------------------------------------------------------
  // The pass on the record object

  /** The assignments of the pass on the object. */
  method WriteBuilding(year: Option<nat>, floor: Option<nat>, mentions: bool, denies: bool,
                       currentYear: int, p: PropertyData)
    modifies p
    ensures p.fields == BuildingUpdate(old(p.fields), year, floor, mentions, denies, currentYear)
  {
    if year.Some? {
      if 1900 < year.value <= currentYear {
        p.fields := p.fields.(buildingAge := Some(currentYear - year.value));
      }
    }
    if floor.Some? {
      p.fields := p.fields.(floorNumber := Some(floor.value as int));
    }
    if mentions {
      p.fields := p.fields.(hasElevator := Some(true));
    } else if denies {
      p.fields := p.fields.(hasElevator := Some(false));
    }
  }

  /** `extract_building_features` on the record object, in the year
      `currentYear`. */
  method ExtractBuildingFeatures(page: DetailPage, currentYear: int, p: PropertyData)
    modifies p
    ensures p.fields == BuildingFeatures(old(p.fields), page, currentYear)
  {
    if page.bodyText.Some? {
      var l := Lower(page.bodyText.value);
      var year := YearIn(l);
      var floor := FloorIn(l);
      var mentions := MentionsElevator(l);
      var denies := DeniesElevator(l);
      WriteBuilding(year, floor, mentions, denies, currentYear, p);
    }
  }
}
