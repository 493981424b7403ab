/** `extract_property_details`: bedrooms, bathrooms, total and built area and
    parking spots read from the attribute elements of a property page, with a
    fallback for the bedroom count
    (data-pipeline/scrapers/portal_inmobiliario.py:618-677). */
module Details {
  import opened Wrappers
  import opened Text
  import opened Patterns
  import opened Models
  import opened Pages

  const BedroomWords: seq<string> := ["dormitorio", "bedroom", "dorm"]
  const BathroomWords: seq<string> := ["ba\U{F1}o", "bathroom", "bath"]
  const TotalAreaWords: seq<string> := ["total", "const"]
  const BuiltAreaWords: seq<string> := ["\U{FA}til", "built"]
  const ParkingWords: seq<string> := ["estacionamiento", "parking", "garage"]

  /** `int` of the first `(\d+)\s*(?:w1|w2|...)` group of `t`. */
  function CountIn(t: string, words: seq<string>): Option<nat> {
    var g := Search(t, 0, (s, k) => CountAt(s, k, words));
    if g.Some? then Some(DigitsValue(g.value)) else None
  }

  /** `float(g.replace(',', '.'))` for an area group: a comma is a decimal
      point, and the conversion never raises. */
  function AreaValue(g: string): (r: real)
    requires IsAreaNumber(g)
    ensures DigitsAndDots(Replace(g, ',', '.'))
    ensures ParseDecimal(Replace(g, ',', '.')) == Some(r)
  {
    var d := Replace(g, ',', '.');
    assert DigitsAndDots(d);
    forall i, j | 0 <= i < j < |d| ensures d[i] == '.' ==> d[j] != '.' {
      if d[i] == '.' && d[j] == '.' {
        assert false;
      }
    }
    CountAtMostOne(d, '.');
    assert IsDigit(d[0]);
    ParseDecimal(d).value
  }

  /** The first area group of `t` for the given unit words, converted. */
  function AreaIn(t: string, words: seq<string>): Option<real> {
    var g := Search(t, 0, (s, k) => AreaAt(s, k, words));
    if g.Some? then Some(AreaValue(g.value)) else None
  }

  /** The three count assignments of the element body, given what each
      pattern yielded: each field is set only while it is falsy. */
  function CountUpdate(p: PropertyRecord, beds: Option<nat>, baths: Option<nat>, parking: Option<nat>): PropertyRecord {
    p.(bedrooms := if beds.Some? && !IntTruthy(p.bedrooms) then Some(beds.value as int) else p.bedrooms,
       bathrooms := if baths.Some? && !IntTruthy(p.bathrooms) then Some(baths.value as int) else p.bathrooms,
       parkingSpots := if parking.Some? && !IntTruthy(p.parkingSpots) then Some(parking.value as int) else p.parkingSpots)
  }

  /** The two area assignments of the element body, in the same way. */
  function AreaUpdate(p: PropertyRecord, total: Option<real>, built: Option<real>): PropertyRecord {
    p.(totalArea := if total.Some? && !RealTruthy(p.totalArea) then total else p.totalArea,
       builtArea := if built.Some? && !RealTruthy(p.builtArea) then built else p.builtArea)
  }

  /** The body of the element loop for the inner text `text`. */
  function ElementUpdate(p: PropertyRecord, text: string): PropertyRecord {
    var t := Lower(text);
    AreaUpdate(CountUpdate(p, CountIn(t, BedroomWords), CountIn(t, BathroomWords), CountIn(t, ParkingWords)),
               AreaIn(t, TotalAreaWords), AreaIn(t, BuiltAreaWords))
  }

  /** The element loop of one selector; a read that raised ends it. */
  function GroupPass(p: PropertyRecord, elems: seq<Option<string>>): PropertyRecord
    decreases |elems|
  {
    if elems == [] || elems[0].None? then p
    else GroupPass(ElementUpdate(p, elems[0].value), elems[1..])
  }

  /** The selector loop. */
  function AttributePass(p: PropertyRecord, groups: seq<seq<Option<string>>>): PropertyRecord
    decreases |groups|
  {
    if groups == [] then p else AttributePass(GroupPass(p, groups[0]), groups[1..])
  }

  /** The fallback loop: the first `(\d+)` of the first text that has one. */
  function DormLoop(p: PropertyRecord, texts: seq<string>): PropertyRecord
    decreases |texts|
  {
    if texts == [] then p
    else
      var g := Search(texts[0], 0, DigitsAt);
      if g.Some? then p.(bedrooms := Some(DigitsValue(g.value))) else DormLoop(p, texts[1..])
  }

  /** The fallback runs only while the bedroom count is falsy. */
  function DormFallback(p: PropertyRecord, texts: seq<string>): PropertyRecord {
    if IntTruthy(p.bedrooms) then p else DormLoop(p, texts)
  }

  /** The whole pass. */
  function PropertyDetails(p: PropertyRecord, page: DetailPage): PropertyRecord {
    DormFallback(AttributePass(p, page.attributeGroups), page.dormTexts)
  }

  // ---------------------------------------------------------------------------
  // Properties

  /** The record with the five attribute fields of `q`: what the pass may
      change. */
  function WithAttributes(p: PropertyRecord, q: PropertyRecord): PropertyRecord {
    p.(bedrooms := q.bedrooms, bathrooms := q.bathrooms, totalArea := q.totalArea,
       builtArea := q.builtArea, parkingSpots := q.parkingSpots)
  }

  /** A field that is truthy keeps its value. */
  predicate KeepsTruthy(p: PropertyRecord, r: PropertyRecord) {
    && (IntTruthy(p.bedrooms) ==> r.bedrooms == p.bedrooms)
    && (IntTruthy(p.bathrooms) ==> r.bathrooms == p.bathrooms)
    && (RealTruthy(p.totalArea) ==> r.totalArea == p.totalArea)
    && (RealTruthy(p.builtArea) ==> r.builtArea == p.builtArea)
    && (IntTruthy(p.parkingSpots) ==> r.parkingSpots == p.parkingSpots)
  }

  /** Only the five attribute fields change, and once truthy a field is never
      overwritten: the first element that yields a non-zero value wins. */
  lemma {:induction false} GroupPassKeeps(p: PropertyRecord, elems: seq<Option<string>>)
    ensures WithAttributes(p, GroupPass(p, elems)) == GroupPass(p, elems)
    ensures KeepsTruthy(p, GroupPass(p, elems))
    decreases |elems|
  {
    if elems != [] && elems[0].Some? {
      GroupPassKeeps(ElementUpdate(p, elems[0].value), elems[1..]);
    }
  }

  lemma {:induction false} AttributePassKeeps(p: PropertyRecord, groups: seq<seq<Option<string>>>)
    ensures WithAttributes(p, AttributePass(p, groups)) == AttributePass(p, groups)
    ensures KeepsTruthy(p, AttributePass(p, groups))
    decreases |groups|
  {
    if groups != [] {
      GroupPassKeeps(p, groups[0]);
      AttributePassKeeps(GroupPass(p, groups[0]), groups[1..]);
    }
  }

  /** The whole pass changes only the five attribute fields, never overwrites
      a truthy one, and the fallback sets a bedroom count only where the
      attribute elements left it falsy. */
  lemma PropertyDetailsKeeps(p: PropertyRecord, page: DetailPage)
    ensures WithAttributes(p, PropertyDetails(p, page)) == PropertyDetails(p, page)
    ensures KeepsTruthy(p, PropertyDetails(p, page))
    ensures IntTruthy(AttributePass(p, page.attributeGroups).bedrooms) ==>
      PropertyDetails(p, page).bedrooms == AttributePass(p, page.attributeGroups).bedrooms
  {
    AttributePassKeeps(p, page.attributeGroups);
    DormLoopFrame(AttributePass(p, page.attributeGroups), page.dormTexts);
  }

  /** The fallback changes nothing but the bedroom count, and sets it to a
      natural number. */
  lemma {:induction false} DormLoopFrame(p: PropertyRecord, texts: seq<string>)
    ensures DormLoop(p, texts).(bedrooms := p.bedrooms) == p
    ensures DormLoop(p, texts).bedrooms == p.bedrooms ||
      (DormLoop(p, texts).bedrooms.Some? && DormLoop(p, texts).bedrooms.value >= 0)
    decreases |texts|
  {
    if texts != [] && Search(texts[0], 0, DigitsAt).None? {
      DormLoopFrame(p, texts[1..]);
    }
  }

  // ---------------------------------------------------------------------------
  // The value each field ends with

  /** The texts one selector's element loop reads, in order: its elements up
      to the first read that raised. */
  function GroupTexts(elems: seq<Option<string>>): seq<string>
    decreases |elems|
  {
    if elems == [] || elems[0].None? then [] else [elems[0].value] + GroupTexts(elems[1..])
  }

  /** The texts the selector loop reads, selector after selector. */
  function ReadTexts(groups: seq<seq<Option<string>>>): seq<string>
    decreases |groups|
  {
    if groups == [] then [] else GroupTexts(groups[0]) + ReadTexts(groups[1..])
  }

  /** The element body applied to `texts` in order. */
  function TextPass(p: PropertyRecord, texts: seq<string>): PropertyRecord
    decreases |texts|
  {
    if texts == [] then p else TextPass(ElementUpdate(p, texts[0]), texts[1..])
  }

  /** Reading `a` then `b` is reading `a + b`. */
  lemma {:induction false} TextPassAppend(p: PropertyRecord, a: seq<string>, b: seq<string>)
    ensures TextPass(p, a + b) == TextPass(TextPass(p, a), b)
    decreases |a|
  {
    if a == [] {
      assert a + b == b;
    } else {
      assert (a + b)[0] == a[0] && (a + b)[1..] == a[1..] + b;
      TextPassAppend(ElementUpdate(p, a[0]), a[1..], b);
    }
  }

  /** One selector's loop is the element body over the texts it reads. */
  lemma {:induction false} GroupPassTexts(p: PropertyRecord, elems: seq<Option<string>>)
    ensures GroupPass(p, elems) == TextPass(p, GroupTexts(elems))
    decreases |elems|
  {
    if elems != [] && elems[0].Some? {
      GroupPassTexts(ElementUpdate(p, elems[0].value), elems[1..]);
      var rest := GroupTexts(elems[1..]);
      assert ([elems[0].value] + rest)[0] == elems[0].value && ([elems[0].value] + rest)[1..] == rest;
    }
  }

  /** The selector loop is the element body over every text read, in order:
      a read that raised only ends its own selector's loop. */
  lemma {:induction false} AttributePassTexts(p: PropertyRecord, groups: seq<seq<Option<string>>>)
    ensures AttributePass(p, groups) == TextPass(p, ReadTexts(groups))
    decreases |groups|
  {
    if groups != [] {
      GroupPassTexts(p, groups[0]);
      AttributePassTexts(GroupPass(p, groups[0]), groups[1..]);
      TextPassAppend(p, GroupTexts(groups[0]), ReadTexts(groups[1..]));
    }
  }

  /** Python's truth value of a number field whose zero is `zero`. */
  predicate Truthy<T(==)>(o: Option<T>, zero: T) {
    o.Some? && o.value != zero
  }

  /** A field assigned each of `readings` in turn, but only while it is
      falsy; `None` is no match. */
  function Settle<T(==)>(cur: Option<T>, zero: T, readings: seq<Option<T>>): Option<T>
    decreases |readings|
  {
    if readings == [] then cur
    else Settle(if readings[0].Some? && !Truthy(cur, zero) then readings[0] else cur, zero, readings[1..])
  }

  /** A truthy field is never overwritten. */
  lemma {:induction false} SettleKeepsTruthy<T>(cur: Option<T>, zero: T, readings: seq<Option<T>>)
    requires Truthy(cur, zero)
    ensures Settle(cur, zero, readings) == cur
    decreases |readings|
  {
    if readings != [] {
      SettleKeepsTruthy(cur, zero, readings[1..]);
    }
  }

  /** From a falsy field, the first non-zero reading wins, whatever zeros
      were written before it. */
  lemma {:induction false} SettleFirstWins<T>(cur: Option<T>, zero: T, readings: seq<Option<T>>, k: nat)
    requires !Truthy(cur, zero) && k < |readings| && Truthy(readings[k], zero)
    requires forall j | 0 <= j < k :: !Truthy(readings[j], zero)
    ensures Settle(cur, zero, readings) == readings[k]
    decreases k
  {
    var next := if readings[0].Some? then readings[0] else cur;
    if k == 0 {
      SettleKeepsTruthy(readings[0], zero, readings[1..]);
    } else {
      assert !Truthy(readings[0], zero);
      forall j | 0 <= j < k - 1 ensures !Truthy(readings[1..][j], zero) {
        assert readings[1..][j] == readings[j + 1];
      }
      SettleFirstWins(next, zero, readings[1..], k - 1);
    }
  }

  /** Without a non-zero reading, a falsy field ends as zero when something
      matched, and is otherwise left as it was. */
  lemma {:induction false} SettleNoTruthy<T>(cur: Option<T>, zero: T, readings: seq<Option<T>>)
    requires !Truthy(cur, zero)
    requires forall j | 0 <= j < |readings| :: !Truthy(readings[j], zero)
    ensures Settle(cur, zero, readings) ==
      if exists j | 0 <= j < |readings| :: readings[j].Some? then Some(zero) else cur
    decreases |readings|
  {
    if readings != [] {
      var rest := readings[1..];
      var next := if readings[0].Some? then readings[0] else cur;
      forall j | 0 <= j < |rest| ensures !Truthy(rest[j], zero) {
        assert rest[j] == readings[j + 1];
      }
      SettleNoTruthy(next, zero, rest);
      if j :| 0 <= j < |rest| && rest[j].Some? {
        assert readings[j + 1].Some?;
      }
      if j :| 0 <= j < |readings| && readings[j].Some? {
        if j > 0 {
          assert rest[j - 1].Some?;
        }
      }
    }
  }

  /** The three count fields. */
  datatype Count = Bedrooms | Bathrooms | Parking

  /** The value of count field `c`. */
  function CountField(p: PropertyRecord, c: Count): Option<int> {
    match c
    case Bedrooms => p.bedrooms
    case Bathrooms => p.bathrooms
    case Parking => p.parkingSpots
  }

  /** The unit words of count field `c`. */
  function CountWords(c: Count): seq<string> {
    match c
    case Bedrooms => BedroomWords
    case Bathrooms => BathroomWords
    case Parking => ParkingWords
  }

  /** What the count pattern of `c` yields on `text`, as an `int`. */
  function CountReading(text: string, c: Count): Option<int> {
    var g := CountIn(Lower(text), CountWords(c));
    if g.Some? then Some(g.value as int) else None
  }

  /** The two area fields. */
  datatype Area = TotalArea | BuiltArea

  /** The value of area field `a`. */
  function AreaField(p: PropertyRecord, a: Area): Option<real> {
    match a
    case TotalArea => p.totalArea
    case BuiltArea => p.builtArea
  }

  /** The unit words of area field `a`. */
  function AreaWords(a: Area): seq<string> {
    match a
    case TotalArea => TotalAreaWords
    case BuiltArea => BuiltAreaWords
  }

  /** What the area pattern of `a` yields on `text`. */
  function AreaReading(text: string, a: Area): Option<real> {
    AreaIn(Lower(text), AreaWords(a))
  }

  /** The readings of count field `c` over `texts`. */
  function CountReadings(texts: seq<string>, c: Count): (r: seq<Option<int>>)
    ensures |r| == |texts| && forall j | 0 <= j < |texts| :: r[j] == CountReading(texts[j], c)
  {
    seq(|texts|, j requires 0 <= j < |texts| => CountReading(texts[j], c))
  }

  /** The readings of area field `a` over `texts`. */
  function AreaReadings(texts: seq<string>, a: Area): (r: seq<Option<real>>)
    ensures |r| == |texts| && forall j | 0 <= j < |texts| :: r[j] == AreaReading(texts[j], a)
  {
    seq(|texts|, j requires 0 <= j < |texts| => AreaReading(texts[j], a))
  }

  /** The element body assigns a count field its reading while it is falsy. */
  lemma ElementCount(p: PropertyRecord, text: string, c: Count)
    ensures CountField(ElementUpdate(p, text), c) ==
      if CountReading(text, c).Some? && !Truthy(CountField(p, c), 0) then CountReading(text, c) else CountField(p, c)
  {
  }

  /** The element body assigns an area field its reading while it is falsy. */
  lemma ElementArea(p: PropertyRecord, text: string, a: Area)
    ensures AreaField(ElementUpdate(p, text), a) ==
      if AreaReading(text, a).Some? && !Truthy(AreaField(p, a), 0.0) then AreaReading(text, a) else AreaField(p, a)
  {
  }

  /** Over the texts read, a count field settles on its readings. */
  lemma {:induction false} TextPassCount(p: PropertyRecord, texts: seq<string>, c: Count)
    ensures CountField(TextPass(p, texts), c) == Settle(CountField(p, c), 0, CountReadings(texts, c))
    decreases |texts|
  {
    if texts != [] {
      ElementCount(p, texts[0], c);
      TextPassCount(ElementUpdate(p, texts[0]), texts[1..], c);
      assert CountReadings(texts, c)[1..] == CountReadings(texts[1..], c);
    }
  }

  /** Over the texts read, an area field settles on its readings. */
  lemma {:induction false} TextPassArea(p: PropertyRecord, texts: seq<string>, a: Area)
    ensures AreaField(TextPass(p, texts), a) == Settle(AreaField(p, a), 0.0, AreaReadings(texts, a))
    decreases |texts|
  {
    if texts != [] {
      ElementArea(p, texts[0], a);
      TextPassArea(ElementUpdate(p, texts[0]), texts[1..], a);
      assert AreaReadings(texts, a)[1..] == AreaReadings(texts[1..], a);
    }
  }

  /** Over the selector loop, a count field settles on the readings of the
      texts read. */
  lemma AttributePassCount(p: PropertyRecord, groups: seq<seq<Option<string>>>, c: Count)
    ensures CountField(AttributePass(p, groups), c) == Settle(CountField(p, c), 0, CountReadings(ReadTexts(groups), c))
  {
    AttributePassTexts(p, groups);
    TextPassCount(p, ReadTexts(groups), c);
  }

  /** Over the selector loop, an area field settles on the readings of the
      texts read. */
  lemma AttributePassArea(p: PropertyRecord, groups: seq<seq<Option<string>>>, a: Area)
    ensures AreaField(AttributePass(p, groups), a) == Settle(AreaField(p, a), 0.0, AreaReadings(ReadTexts(groups), a))
  {
    AttributePassTexts(p, groups);
    TextPassArea(p, ReadTexts(groups), a);
  }

  /** A count field that starts falsy ends as the first non-zero count read,
      in selector then element order (`CountReading` of a text being `int`
      of the first `(\d+)\s*(?:w1|w2|...)` group of the lower-cased text);
      earlier zero counts are overwritten. */
  lemma CountFirstWins(p: PropertyRecord, groups: seq<seq<Option<string>>>, c: Count, k: nat)
    requires !IntTruthy(CountField(p, c))
    requires var rs := CountReadings(ReadTexts(groups), c);
      k < |rs| && IntTruthy(rs[k]) && forall j | 0 <= j < k :: !IntTruthy(rs[j])
    ensures CountField(AttributePass(p, groups), c) == CountReadings(ReadTexts(groups), c)[k]
  {
    AttributePassCount(p, groups, c);
    SettleFirstWins(CountField(p, c), 0, CountReadings(ReadTexts(groups), c), k);
  }

  /** Without a non-zero count read, a falsy count field ends as `0` when
      some text matched, and is otherwise left as it was. */
  lemma CountNoneWins(p: PropertyRecord, groups: seq<seq<Option<string>>>, c: Count)
    requires !IntTruthy(CountField(p, c))
    requires var rs := CountReadings(ReadTexts(groups), c); forall j | 0 <= j < |rs| :: !IntTruthy(rs[j])
    ensures var rs := CountReadings(ReadTexts(groups), c);
      CountField(AttributePass(p, groups), c) == if exists j | 0 <= j < |rs| :: rs[j].Some? then Some(0) else CountField(p, c)
  {
    AttributePassCount(p, groups, c);
    SettleNoTruthy(CountField(p, c), 0, CountReadings(ReadTexts(groups), c));
  }

  /** An area field that starts falsy ends as the first non-zero area read,
      in selector then element order (`AreaReading` of a text being the
      first area group of the lower-cased text for the field's unit words);
      earlier zero areas are overwritten. */
  lemma AreaFirstWins(p: PropertyRecord, groups: seq<seq<Option<string>>>, a: Area, k: nat)
    requires !RealTruthy(AreaField(p, a))
    requires var rs := AreaReadings(ReadTexts(groups), a);
      k < |rs| && RealTruthy(rs[k]) && forall j | 0 <= j < k :: !RealTruthy(rs[j])
    ensures AreaField(AttributePass(p, groups), a) == AreaReadings(ReadTexts(groups), a)[k]
  {
    AttributePassArea(p, groups, a);
    SettleFirstWins(AreaField(p, a), 0.0, AreaReadings(ReadTexts(groups), a), k);
  }

  /** Without a non-zero area read, a falsy area field ends as `0.0` when
      some text matched, and is otherwise left as it was. */
  lemma AreaNoneWins(p: PropertyRecord, groups: seq<seq<Option<string>>>, a: Area)
    requires !RealTruthy(AreaField(p, a))
    requires var rs := AreaReadings(ReadTexts(groups), a); forall j | 0 <= j < |rs| :: !RealTruthy(rs[j])
    ensures var rs := AreaReadings(ReadTexts(groups), a);
      AreaField(AttributePass(p, groups), a) == if exists j | 0 <= j < |rs| :: rs[j].Some? then Some(0.0) else AreaField(p, a)
  {
    AttributePassArea(p, groups, a);
    SettleNoTruthy(AreaField(p, a), 0.0, AreaReadings(ReadTexts(groups), a));
  }

  /** The fallback sets the bedroom count to the first `(\d+)` of the first
      text that has one. */
  lemma {:induction false} DormLoopFirst(p: PropertyRecord, texts: seq<string>, k: nat)
    requires k < |texts| && Search(texts[k], 0, DigitsAt).Some?
    requires forall j | 0 <= j < k :: Search(texts[j], 0, DigitsAt).None?
    ensures DormLoop(p, texts) == p.(bedrooms := Some(DigitsValue(Search(texts[k], 0, DigitsAt).value)))
    decreases k
  {
    if k > 0 {
      var rest := texts[1..];
      assert Search(texts[0], 0, DigitsAt).None?;
      assert DormLoop(p, texts) == DormLoop(p, rest);
      forall j | 0 <= j < k - 1 ensures Search(rest[j], 0, DigitsAt).None? {
        assert rest[j] == texts[j + 1];
      }
      assert rest[k - 1] == texts[k];
      DormLoopFirst(p, rest, k - 1);
    }
  }

  /** With no digits in any text, the fallback changes nothing. */
  lemma {:induction false} DormLoopNone(p: PropertyRecord, texts: seq<string>)
    requires forall j | 0 <= j < |texts| :: Search(texts[j], 0, DigitsAt).None?
    ensures DormLoop(p, texts) == p
    decreases |texts|
  {
    if texts != [] {
      assert Search(texts[0], 0, DigitsAt).None?;
      forall j | 0 <= j < |texts| - 1 ensures Search(texts[1..][j], 0, DigitsAt).None? {
        assert texts[1..][j] == texts[j + 1];
      }
      DormLoopNone(p, texts[1..]);
    }
  }

  /** Replacing the comma of `a,b` gives `a.b`. */
  lemma CommaReplaced(a: string, b: string)
    requires AllDigits(a) && AllDigits(b)
    ensures Replace(a + "," + b, ',', '.') == a + "." + b
    ensures Replace(a + "." + b, ',', '.') == a + "." + b
  {
  }

  /** Two digit runs joined by one separator form an area number. */
  lemma AreaNumberJoined(a: string, sep: char, b: string)
    requires a != [] && b != [] && AllDigits(a) && AllDigits(b)
    requires sep == ',' || sep == '.'
    ensures IsAreaNumber(a + [sep] + b)
  {
    var g := a + [sep] + b;
    AreaNumberSlice(g, 0, |a|, |g|);
    assert g[0..|g|] == g;
  }

  /** Areas read `,` as a decimal point, so `85,5` and `85.5` are the same
      area, `85 + 5/10`. */
  lemma AreaDecimalComma(a: string, b: string)
    requires a != [] && b != [] && AllDigits(a) && AllDigits(b)
    ensures IsAreaNumber(a + "," + b) && IsAreaNumber(a + "." + b)
    ensures AreaValue(a + "," + b) == AreaValue(a + "." + b)
    ensures AreaValue(a + "." + b) == DecimalValue(a, b)
  {
    AreaNumberJoined(a, ',', b);
    AreaNumberJoined(a, '.', b);
    CommaReplaced(a, b);
    DecimalParts(a, b);
  }

  // ---------------------------------------------------------------------------
  // The pass on the record object

  /** The count assignments of the element body on the object. */
  method WriteCounts(beds: Option<nat>, baths: Option<nat>, parking: Option<nat>, p: PropertyData)
    modifies p
    ensures p.fields == CountUpdate(old(p.fields), beds, baths, parking)
  {
    if beds.Some? && !IntTruthy(p.fields.bedrooms) {
      p.fields := p.fields.(bedrooms := Some(beds.value as int));
    }
    if baths.Some? && !IntTruthy(p.fields.bathrooms) {
      p.fields := p.fields.(bathrooms := Some(baths.value as int));
    }
    if parking.Some? && !IntTruthy(p.fields.parkingSpots) {
      p.fields := p.fields.(parkingSpots := Some(parking.value as int));
    }
  }

  /** The area assignments of the element body on the object. */
  method WriteAreas(total: Option<real>, built: Option<real>, p: PropertyData)
    modifies p
    ensures p.fields == AreaUpdate(old(p.fields), total, built)
  {
    if total.Some? && !RealTruthy(p.fields.totalArea) {
      p.fields := p.fields.(totalArea := total);
    }
    if built.Some? && !RealTruthy(p.fields.builtArea) {
      p.fields := p.fields.(builtArea := built);
    }
  }

  /** The element body for the inner text `text`. */
  method ReadAttributes(text: string, p: PropertyData)
    modifies p
    ensures p.fields == ElementUpdate(old(p.fields), text)
  {
    var t := Lower(text);
    var beds := CountIn(t, BedroomWords);
    var baths := CountIn(t, BathroomWords);
    var parking := CountIn(t, ParkingWords);
    WriteCounts(beds, baths, parking, p);
    var total := AreaIn(t, TotalAreaWords);
    var built := AreaIn(t, BuiltAreaWords);
    WriteAreas(total, built, p);
  }

  /** `extract_property_details` on the record object. */
  method ExtractPropertyDetails(page: DetailPage, p: PropertyData)
    modifies p
    ensures p.fields == PropertyDetails(old(p.fields), page)
  {
    var groups := page.attributeGroups;
    var i := 0;
    while i < |groups|
      invariant 0 <= i <= |groups|
      invariant AttributePass(old(p.fields), groups) == AttributePass(p.fields, groups[i..])
    {
      assert groups[i..][1..] == groups[i + 1..];
      ghost var start := p.fields;
      var elems := groups[i];
      var j := 0;
      while j < |elems|
        invariant 0 <= j <= |elems|
        invariant GroupPass(start, elems) == GroupPass(p.fields, elems[j..])
      {
        assert elems[j..][1..] == elems[j + 1..];
        if elems[j].None? {
          break;
        }
        ReadAttributes(elems[j].value, p);
        j := j + 1;
      }
      i := i + 1;
    }
    if !IntTruthy(p.fields.bedrooms) {
      var texts := page.dormTexts;
      var k := 0;
      while k < |texts|
        invariant 0 <= k <= |texts|
        invariant DormLoop(AttributePass(old(p.fields), groups), texts) == DormLoop(p.fields, texts[k..])
      {
        assert texts[k..][1..] == texts[k + 1..];
        var g := Search(texts[k], 0, DigitsAt);
        if g.Some? {
          p.fields := p.fields.(bedrooms := Some(DigitsValue(g.value)));
          break;
        }
        k := k + 1;
      }
    }
  }
}
