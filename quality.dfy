/** `validate_property_data` and `clean_property_data`: the completeness
    score of a record and its normalisation
    (data-pipeline/scrapers/portal_inmobiliario.py:940-1027). */
module Quality {
  import opened Wrappers
  import opened Text
  import opened Models

  // ---------------------------------------------------------------------------
  // Validation

  /** The dictionary `validate_property_data` returns. */
  datatype Validation = Validation(
    score: int,
    maxScore: int,
    completenessPercentage: real,
    issues: seq<Issue>,
    isValid: bool)

  /** A failed core check, reported by its message. */
  datatype Issue = MissingPrice | MissingBedrooms | MissingArea | MissingLocation {
    function Message(): string {
      match this
      case MissingPrice => "Missing price information"
      case MissingBedrooms => "Missing bedroom count"
      case MissingArea => "Missing area information"
      case MissingLocation => "Missing location information"
    }
  }

  /** The score the validation divides by. */
  const MaxScore := 20

  // The four core checks, five points each.

  predicate HasPrice(p: PropertyRecord) {
    p.price != "" && p.currency != ""
  }

  predicate HasBedrooms(p: PropertyRecord) {
    IntTruthy(p.bedrooms) && p.bedrooms.value > 0
  }

  predicate HasArea(p: PropertyRecord) {
    RealTruthy(p.totalArea) && p.totalArea.value > 0.0
  }

  predicate HasLocation(p: PropertyRecord) {
    p.address != "" || p.neighborhood != ""
  }

  /** Whether `p` passes the core check whose failure `i` reports. */
  predicate Passes(p: PropertyRecord, i: Issue) {
    match i
    case MissingPrice => HasPrice(p)
    case MissingBedrooms => HasBedrooms(p)
    case MissingArea => HasArea(p)
    case MissingLocation => HasLocation(p)
  }

  /** The core checks in the order they run. */
  const CoreChecks: seq<Issue> := [MissingPrice, MissingBedrooms, MissingArea, MissingLocation]

  /** How many of the four core checks `p` passes. */
  function CoreChecksPassed(p: PropertyRecord): (n: nat)
    ensures n <= 4
  {
    (if HasPrice(p) then 1 else 0) + (if HasBedrooms(p) then 1 else 0)
    + (if HasArea(p) then 1 else 0) + (if HasLocation(p) then 1 else 0)
  }

  /** The bonus points: one each for bathrooms, parking, both coordinates,
      amenities and the agent. */
  function Bonus(p: PropertyRecord): (n: nat)
    ensures n <= 5
  {
    (if IntTruthy(p.bathrooms) then 1 else 0) + (if IntTruthy(p.parkingSpots) then 1 else 0)
    + (if RealTruthy(p.latitude) && RealTruthy(p.longitude) then 1 else 0)
    + (if ListTruthy(p.amenities) then 1 else 0) + (if p.agentInfo != "" then 1 else 0)
  }

  /** The issues of the checks `checks` that `p` fails, in order. */
  function Failed(p: PropertyRecord, checks: seq<Issue>): (r: seq<Issue>)
    ensures |r| <= |checks|
    ensures forall i :: i in r <==> i in checks && !Passes(p, i)
    decreases |checks|
  {
    if checks == [] then []
    else (if Passes(p, checks[0]) then [] else [checks[0]]) + Failed(p, checks[1..])
  }

  /** Distinct checks report distinct issues. */
  lemma {:induction false} FailedDistinct(p: PropertyRecord, checks: seq<Issue>)
    requires forall i, j | 0 <= i < j < |checks| :: checks[i] != checks[j]
    ensures forall i, j | 0 <= i < j < |Failed(p, checks)| :: Failed(p, checks)[i] != Failed(p, checks)[j]
    decreases |checks|
  {
    if checks != [] {
      FailedDistinct(p, checks[1..]);
      assert checks[0] !in checks[1..];
    }
  }

  /** Every kind of issue has its core check. */
  lemma EveryCheckIsCore(i: Issue)
    ensures i in CoreChecks
  {
    match i
    case MissingPrice => assert CoreChecks[0] == i;
    case MissingBedrooms => assert CoreChecks[1] == i;
    case MissingArea => assert CoreChecks[2] == i;
    case MissingLocation => assert CoreChecks[3] == i;
  }

  /** Every core check that fails is reported once. */
  lemma CoreIssues(p: PropertyRecord)
    ensures |Failed(p, CoreChecks)| == 4 - CoreChecksPassed(p)
    ensures forall i, j | 0 <= i < j < |Failed(p, CoreChecks)| :: Failed(p, CoreChecks)[i] != Failed(p, CoreChecks)[j]
  {
    FailedDistinct(p, CoreChecks);
    var c := CoreChecks;
    assert c[1..][1..][1..][1..] == [];
  }

  /** `validate_property_data`. */
  function Validate(p: PropertyRecord): (v: Validation)
    ensures v.maxScore == MaxScore
    ensures v.score == 5 * CoreChecksPassed(p) + Bonus(p)
    ensures 0 <= v.score <= 25
    ensures |v.issues| == 4 - CoreChecksPassed(p)
    ensures forall i :: i in v.issues <==> !Passes(p, i)
    ensures forall i, j | 0 <= i < j < |v.issues| :: v.issues[i] != v.issues[j]
    ensures v.isValid <==> 2 * v.score >= MaxScore
    ensures v.completenessPercentage == v.score as real * 100.0 / MaxScore as real
  {
    CoreIssues(p);
    forall i: Issue ensures i in CoreChecks {
      EveryCheckIsCore(i);
    }
    var score := 5 * CoreChecksPassed(p) + Bonus(p);
    Validation(score, MaxScore, (score as real / MaxScore as real) * 100.0, Failed(p, CoreChecks), score >= 10)
  }

  /** With at most one core check failing the record is valid, whatever its
      bonus; with all four failing it is not. */
  lemma ValidityByIssues(p: PropertyRecord)
    ensures |Validate(p).issues| <= 1 ==> Validate(p).isValid
    ensures |Validate(p).issues| == 4 ==> !Validate(p).isValid
    ensures |Validate(p).issues| == 3 ==> (Validate(p).isValid <==> Bonus(p) == 5)
  {
  }

  /** The score is not bounded by `max_score`: a complete record scores 25,
      a completeness of 125 percent. */
  lemma ScoreExceedsMax(p: PropertyRecord)
    requires HasPrice(p) && HasBedrooms(p) && HasArea(p) && HasLocation(p)
    requires IntTruthy(p.bathrooms) && IntTruthy(p.parkingSpots)
    requires RealTruthy(p.latitude) && RealTruthy(p.longitude)
    requires ListTruthy(p.amenities) && p.agentInfo != ""
    ensures Validate(p).score == 25 > Validate(p).maxScore
    ensures Validate(p).completenessPercentage == 125.0
    ensures Validate(p).issues == []
  {
  }

  // ---------------------------------------------------------------------------
  // Cleaning

  /** `list(set(xs))`, in the order of first occurrence. */
  function Dedup(xs: seq<string>): (r: seq<string>)
    decreases |xs|
  {
    if xs == [] then []
    else
      var d := Dedup(xs[..|xs| - 1]);
      if xs[|xs| - 1] in d then d else d + [xs[|xs| - 1]]
  }

  /** `a.strip().lower()`. */
  function NormalForm(a: string): string {
    Lower(Strip(a))
  }

  /** `[a.strip().lower() for a in xs if a.strip()]`. */
  function Normalize(xs: seq<string>): (r: seq<string>)
    decreases |xs|
  {
    if xs == [] then []
    else Normalize(xs[..|xs| - 1]) + (if Strip(xs[|xs| - 1]) != "" then [NormalForm(xs[|xs| - 1])] else [])
  }

  /** An amenity tag as cleaning leaves it: not empty, stripped and its own
      lower-case form. */
  predicate CleanTag(t: string) {
    t != "" && Stripped(t) && Lower(t) == t
  }

  /** The cleaned amenity list. */
  function CleanAmenities(xs: seq<string>): seq<string> {
    Dedup(Normalize(xs))
  }

  /** `clean_property_data` on the record value: the price is stripped with
      its whitespace runs collapsed, the address and neighborhood are
      stripped and title-cased, and the amenities are cleaned; each only when
      it is truthy. The range checks only print. */
  function Clean(p: PropertyRecord): PropertyRecord {
    p.(price := if p.price != "" then CollapseSpaces(Strip(p.price)) else p.price,
       address := if p.address != "" then Title(Strip(p.address)) else p.address,
       neighborhood := if p.neighborhood != "" then Title(Strip(p.neighborhood)) else p.neighborhood,
       amenities := if ListTruthy(p.amenities) then Some(CleanAmenities(p.amenities.value)) else p.amenities)
  }

  // ---------------------------------------------------------------------------
  // Properties of cleaning

  /** Deduplication keeps exactly the elements, each once. */
  lemma {:induction false} DedupFacts(xs: seq<string>)
    ensures forall x :: x in Dedup(xs) <==> x in xs
    ensures forall i, j | 0 <= i < j < |Dedup(xs)| :: Dedup(xs)[i] != Dedup(xs)[j]
    decreases |xs|
  {
    if xs != [] {
      var init := xs[..|xs| - 1];
      DedupFacts(init);
      assert xs == init + [xs[|xs| - 1]];
    }
  }

  /** A list without repetitions is its own deduplication. */
  lemma {:induction false} DedupDistinct(xs: seq<string>)
    requires forall i, j | 0 <= i < j < |xs| :: xs[i] != xs[j]
    ensures Dedup(xs) == xs
    decreases |xs|
  {
    if xs != [] {
      var init := xs[..|xs| - 1];
      DedupDistinct(init);
      assert xs[|xs| - 1] !in init by {
        forall i | 0 <= i < |init| ensures init[i] != xs[|xs| - 1] {
          assert init[i] == xs[i];
        }
      }
      assert xs == init + [xs[|xs| - 1]];
    }
  }

  /** Lower-casing keeps a string stripped. */
  lemma LowerKeepsStripped(s: string)
    requires Stripped(s)
    ensures Stripped(Lower(s))
  {
  }

  /** Title-casing keeps a string stripped. */
  lemma TitleKeepsStripped(s: string)
    requires Stripped(s)
    ensures Stripped(Title(s))
  {
  }

  /** The normal form of a non-blank entry is a clean tag, and a clean tag is
      its own normal form. */
  lemma NormalFormClean(a: string)
    ensures Strip(a) != "" ==> CleanTag(NormalForm(a))
    ensures CleanTag(a) ==> NormalForm(a) == a
  {
    LowerKeepsStripped(Strip(a));
    LowerIdempotent(Strip(a));
    if CleanTag(a) {
      StripStripped(a);
    }
  }

  /** The normalised entries are clean tags. */
  lemma {:induction false} NormalizeTags(xs: seq<string>)
    ensures forall i | 0 <= i < |Normalize(xs)| :: CleanTag(Normalize(xs)[i])
    decreases |xs|
  {
    if xs != [] {
      NormalizeTags(xs[..|xs| - 1]);
      NormalFormClean(xs[|xs| - 1]);
    }
  }

  /** Entry `x` is not blank and normalises to `t`. */
  predicate NormalisesTo(x: string, t: string) {
    Strip(x) != "" && t == NormalForm(x)
  }

  /** A tag is among the normalised entries exactly when it is the normal
      form of a non-blank entry. */
  lemma {:induction false} NormalizeMember(xs: seq<string>, t: string)
    ensures t in Normalize(xs) <==> exists i | 0 <= i < |xs| :: NormalisesTo(xs[i], t)
    decreases |xs|
  {
    if xs != [] {
      var init, last := xs[..|xs| - 1], xs[|xs| - 1];
      NormalizeMember(init, t);
      assert t in Normalize(xs) <==> t in Normalize(init) || NormalisesTo(last, t);
      if i :| 0 <= i < |xs| && NormalisesTo(xs[i], t) {
        if i < |xs| - 1 {
          assert init[i] == xs[i];
        }
      }
      if i :| 0 <= i < |init| && NormalisesTo(init[i], t) {
        assert xs[i] == init[i];
      }
      if NormalisesTo(last, t) {
        assert NormalisesTo(xs[|xs| - 1], t);
      }
    }
  }

  /** A clean tag is not blank and is its own normal form. */
  lemma CleanTagKept(a: string)
    requires CleanTag(a)
    ensures Strip(a) != "" && NormalForm(a) == a
  {
    NormalFormClean(a);
    StripStripped(a);
  }

  /** A non-empty sequence is its front followed by its last element. */
  lemma SplitLast<T>(xs: seq<T>)
    requires xs != []
    ensures xs == xs[..|xs| - 1] + [xs[|xs| - 1]]
  {
  }

  /** A clean tag added to entries that normalise to themselves keeps
      them so. */
  lemma NormalizeCleanLast(init: seq<string>, last: string)
    requires Normalize(init) == init && CleanTag(last)
    ensures Normalize(init + [last]) == init + [last]
  {
    CleanTagKept(last);
    var xs := init + [last];
    assert xs[..|xs| - 1] == init && xs[|xs| - 1] == last;
  }

  /** Clean tags normalise to themselves. */
  lemma {:induction false} NormalizeClean(xs: seq<string>)
    requires forall i | 0 <= i < |xs| :: CleanTag(xs[i])
    ensures Normalize(xs) == xs
    decreases |xs|
  {
    if xs != [] {
      var init, last := xs[..|xs| - 1], xs[|xs| - 1];
      forall i | 0 <= i < |init| ensures CleanTag(init[i]) {
        assert init[i] == xs[i];
      }
      NormalizeClean(init);
      SplitLast(xs);
      NormalizeCleanLast(init, last);
    }
  }

  /** The cleaned amenities are clean tags, each once, and they are exactly
      the stripped, lower-cased forms of the non-blank entries. */
  lemma CleanAmenitiesFacts(xs: seq<string>)
    ensures forall i | 0 <= i < |CleanAmenities(xs)| :: CleanTag(CleanAmenities(xs)[i])
    ensures forall i, j | 0 <= i < j < |CleanAmenities(xs)| :: CleanAmenities(xs)[i] != CleanAmenities(xs)[j]
    ensures forall t :: t in CleanAmenities(xs) <==>
      exists i | 0 <= i < |xs| :: Strip(xs[i]) != "" && t == NormalForm(xs[i])
  {
    NormalizeTags(xs);
    var n := Normalize(xs);
    DedupFacts(n);
    forall i | 0 <= i < |Dedup(n)| ensures CleanTag(Dedup(n)[i]) {
      assert Dedup(n)[i] in n;
      var k :| 0 <= k < |n| && n[k] == Dedup(n)[i];
    }
    forall t ensures t in CleanAmenities(xs) <==>
      exists i | 0 <= i < |xs| :: Strip(xs[i]) != "" && t == NormalForm(xs[i])
    {
      NormalizeMember(xs, t);
    }
  }

  /** The cleaned price is stripped and has only single spaces. */
  lemma CleanPriceFacts(s: string)
    ensures Stripped(CollapseSpaces(Strip(s))) && Collapsed(CollapseSpaces(Strip(s)))
  {
  }

  /** Cleaning changes only the price, the address, the neighborhood and the
      amenities; the numbers it range-checks are left as they were. */
  lemma CleanFrame(p: PropertyRecord)
    ensures Clean(p).(price := p.price, address := p.address, neighborhood := p.neighborhood,
                      amenities := p.amenities) == p
    ensures Clean(p).totalArea == p.totalArea && Clean(p).bedrooms == p.bedrooms
    ensures Clean(p).bathrooms == p.bathrooms && Clean(p).latitude == p.latitude
    ensures Clean(p).longitude == p.longitude
  {
  }

  /** Cleaning a cleaned record changes nothing. */
  lemma CleanIdempotent(p: PropertyRecord)
    ensures Clean(Clean(p)) == p.(price := Clean(p).price, address := Clean(p).address,
                                  neighborhood := Clean(p).neighborhood, amenities := Clean(p).amenities)
    ensures Clean(Clean(p)) == Clean(p)
  {
    var c := Clean(p);
    if p.price != "" {
      var s := Strip(p.price);
      var r := CollapseSpaces(s);
      StripStripped(r);
      CollapseSpacesFixed(r);
    }
    if p.address != "" {
      var s := Strip(p.address);
      TitleKeepsStripped(s);
      StripStripped(Title(s));
      TitleIdempotent(s);
    }
    if p.neighborhood != "" {
      var s := Strip(p.neighborhood);
      TitleKeepsStripped(s);
      StripStripped(Title(s));
      TitleIdempotent(s);
    }
    if ListTruthy(p.amenities) {
      var a := CleanAmenities(p.amenities.value);
      CleanAmenitiesFacts(p.amenities.value);
      if a != [] {
        NormalizeClean(a);
        DedupDistinct(a);
      }
    }
  }

  // ---------------------------------------------------------------------------
  // Cleaning on the record object

  /** `clean_property_data`, which updates the object and returns it. */
  method CleanPropertyData(p: PropertyData) returns (q: PropertyData)
    modifies p
    ensures q == p
    ensures p.fields == Clean(old(p.fields))
  {
    var f := p.fields;
    if f.price != "" {
      p.fields := p.fields.(price := CollapseSpaces(Strip(f.price)));
    }
    if f.address != "" {
      p.fields := p.fields.(address := Title(Strip(f.address)));
    }
    if f.neighborhood != "" {
      p.fields := p.fields.(neighborhood := Title(Strip(f.neighborhood)));
    }
    if ListTruthy(f.amenities) {
      p.fields := p.fields.(amenities := Some(CleanAmenities(f.amenities.value)));
    }
    q := p;
  }
}
