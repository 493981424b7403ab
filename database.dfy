/** `DatabaseManager`: the SQLite table of properties, keyed by listing id,
    and the statistics read from it (data-pipeline/database/db_manager.py). */
module Database {
  import opened Wrappers
  import opened Models

  // ---------------------------------------------------------------------------
  // The table

  /** One row: the `AUTOINCREMENT` id and the record as stored. */
  datatype Row = Row(id: nat, record: PropertyRecord)

  /** The `properties` table: its rows in id order, and the id the next
      insertion receives. */
  datatype Table = Table(rows: seq<Row>, nextId: nat)

  /** A list column: the list when it is truthy, `[]` otherwise. The JSON
      text it is written as is not modelled. */
  function StoredList(l: Option<seq<string>>): (r: seq<string>)
    ensures ListTruthy(l) ==> r == l.value
    ensures !ListTruthy(l) ==> r == []
  {
    if ListTruthy(l) then l.value else []
  }

  /** The record as a row holds it: both lists present. */
  function Stored(p: PropertyRecord): (r: PropertyRecord)
    ensures r.amenities.Some? && r.imageUrls.Some?
    ensures r.(amenities := p.amenities, imageUrls := p.imageUrls) == p
  {
    p.(amenities := Some(StoredList(p.amenities)), imageUrls := Some(StoredList(p.imageUrls)))
  }

  /** `P` holds of every pair of rows in table order. */
  predicate Pairwise(rows: seq<Row>, P: (Row, Row) -> bool) {
    forall i, j | 0 <= i < j < |rows| :: P(rows[i], rows[j])
  }

  /** A row before another has a smaller id and another listing id. */
  predicate Before(a: Row, b: Row) {
    a.id < b.id && a.record.listingId != b.record.listingId
  }

  /** What every table the manager writes satisfies: ids increase along the
      rows and stay below the next id, and no listing id occurs twice
      (`listing_id TEXT UNIQUE`). */
  predicate ValidTable(t: Table) {
    && Pairwise(t.rows, Before)
    && (forall i | 0 <= i < |t.rows| :: t.rows[i].id < t.nextId)
  }

  /** The rows whose listing id is not `key`, in order. */
  function Without(rows: seq<Row>, key: string): seq<Row>
    decreases |rows|
  {
    if rows == [] then []
    else (if rows[0].record.listingId == key then [] else [rows[0]]) + Without(rows[1..], key)
  }

  /** The row with listing id `key`, if any. */
  function Lookup(rows: seq<Row>, key: string): Option<Row>
    decreases |rows|
  {
    if rows == [] then None
    else if rows[0].record.listingId == key then Some(rows[0])
    else Lookup(rows[1..], key)
  }

  /** `INSERT OR REPLACE`: the row holding the same listing id is deleted and
      the record is inserted under a fresh id. */
  function Upsert(t: Table, p: PropertyRecord): Table {
    Table(Without(t.rows, p.listingId) + [Row(t.nextId, Stored(p))], t.nextId + 1)
  }

  // ---------------------------------------------------------------------------
  // Properties of the table

  /** `Without` keeps exactly the rows with another key, in order. */
  lemma {:induction false} WithoutFacts(rows: seq<Row>, key: string)
    ensures forall r | r in Without(rows, key) :: r in rows && r.record.listingId != key
    ensures forall r | r in rows && r.record.listingId != key :: r in Without(rows, key)
    ensures |Without(rows, key)| <= |rows|
    ensures Lookup(rows, key).None? ==> Without(rows, key) == rows
    decreases |rows|
  {
    if rows != [] {
      WithoutFacts(rows[1..], key);
      assert rows == [rows[0]] + rows[1..];
    }
  }

  /** A row found by `Lookup` is in the table and has the key; `None` means
      no row has it. */
  lemma {:induction false} LookupFacts(rows: seq<Row>, key: string)
    ensures Lookup(rows, key).Some? ==> Lookup(rows, key).value in rows && Lookup(rows, key).value.record.listingId == key
    ensures Lookup(rows, key).None? <==> forall r | r in rows :: r.record.listingId != key
    decreases |rows|
  {
    if rows != [] {
      LookupFacts(rows[1..], key);
      assert rows == [rows[0]] + rows[1..];
    }
  }

  /** With unique keys, deleting a key that is present removes one row. */
  lemma {:induction false} WithoutPresent(rows: seq<Row>, key: string)
    requires Pairwise(rows, Before)
    ensures Lookup(rows, key).Some? ==> |Without(rows, key)| == |rows| - 1
    decreases |rows|
  {
    if rows != [] {
      var tail := rows[1..];
      PairwiseTail(rows, Before);
      WithoutPresent(tail, key);
      if rows[0].record.listingId == key {
        forall r | r in tail ensures r.record.listingId != key {
          var j :| 0 <= j < |tail| && tail[j] == r;
          assert Before(rows[0], rows[j + 1]);
        }
        LookupFacts(tail, key);
        WithoutFacts(tail, key);
      }
    }
  }

  /** A pairwise property holds of the tail. */
  lemma PairwiseTail(rows: seq<Row>, P: (Row, Row) -> bool)
    requires rows != [] && Pairwise(rows, P)
    ensures Pairwise(rows[1..], P)
    ensures forall r | r in rows[1..] :: P(rows[0], r)
  {
    var tail := rows[1..];
    forall i, j | 0 <= i < j < |tail| ensures P(tail[i], tail[j]) {
      assert tail[i] == rows[i + 1] && tail[j] == rows[j + 1];
    }
    forall r | r in tail ensures P(rows[0], r) {
      var j :| 0 <= j < |tail| && tail[j] == r;
      assert rows[j + 1] == r;
    }
  }

  /** Deleting rows keeps a pairwise property. */
  lemma {:induction false} PairwiseWithout(rows: seq<Row>, key: string, P: (Row, Row) -> bool)
    requires Pairwise(rows, P)
    ensures Pairwise(Without(rows, key), P)
    decreases |rows|
  {
    if rows != [] {
      PairwiseTail(rows, P);
      PairwiseWithout(rows[1..], key, P);
      WithoutFacts(rows[1..], key);
      var wt := Without(rows[1..], key);
      if rows[0].record.listingId != key {
        assert Without(rows, key) == [rows[0]] + wt;
        PairwiseCons(rows[0], wt, P);
      } else {
        assert Without(rows, key) == wt;
      }
    }
  }

  /** Putting in front a row that relates to every row keeps a pairwise
      property. */
  lemma PairwiseCons(row: Row, rows: seq<Row>, P: (Row, Row) -> bool)
    requires Pairwise(rows, P) && forall r | r in rows :: P(row, r)
    ensures Pairwise([row] + rows, P)
  {
    var w := [row] + rows;
    forall i, j | 0 <= i < j < |w| ensures P(w[i], w[j]) {
      assert w[j] == rows[j - 1] && rows[j - 1] in rows;
      if i > 0 {
        assert w[i] == rows[i - 1];
      }
    }
  }

  /** Appending a row that every row relates to keeps a pairwise property. */
  lemma PairwiseAppend(rows: seq<Row>, row: Row, P: (Row, Row) -> bool)
    requires Pairwise(rows, P)
    requires forall r | r in rows :: P(r, row)
    ensures Pairwise(rows + [row], P)
  {
    var w := rows + [row];
    forall i, j | 0 <= i < j < |w| ensures P(w[i], w[j]) {
      assert w[i] == rows[i];
      if j < |rows| {
        assert w[j] == rows[j];
      }
    }
  }

  /** Saving keeps the table valid. */
  lemma UpsertValid(t: Table, p: PropertyRecord)
    requires ValidTable(t)
    ensures ValidTable(Upsert(t, p)) && Upsert(t, p).nextId == t.nextId + 1
  {
    var key := p.listingId;
    var w := Without(t.rows, key);
    var row := Row(t.nextId, Stored(p));
    PairwiseWithout(t.rows, key, Before);
    WithoutFacts(t.rows, key);
    forall r | r in w ensures Before(r, row) {
      var i :| 0 <= i < |t.rows| && t.rows[i] == r;
    }
    PairwiseAppend(w, row, Before);
    var u := Upsert(t, p);
    forall i | 0 <= i < |u.rows| ensures u.rows[i].id < u.nextId {
      if i < |w| {
        assert u.rows[i] == w[i] && w[i] in w;
        var m :| 0 <= m < |t.rows| && t.rows[m] == w[i];
      }
    }
  }

  /** After a save the record's listing id finds the new row, which stores
      the record under the fresh id, and every other key finds what it found
      before. */
  lemma UpsertLookup(t: Table, p: PropertyRecord)
    ensures Lookup(Upsert(t, p).rows, p.listingId) == Some(Row(t.nextId, Stored(p)))
    ensures forall key | key != p.listingId :: Lookup(Upsert(t, p).rows, key) == Lookup(t.rows, key)
  {
    var key := p.listingId;
    var w := Without(t.rows, key);
    var row := Row(t.nextId, Stored(p));
    WithoutFacts(t.rows, key);
    forall i | 0 <= i < |w| ensures w[i].record.listingId != key {
      assert w[i] in w;
    }
    WithoutThenLookup(w, key, row);
    forall other | other != key ensures Lookup(Upsert(t, p).rows, other) == Lookup(t.rows, other) {
      LookupWithout(t.rows, key, other);
      LookupAppend(w, other, row);
    }
  }

  /** A save adds a row exactly when the listing id was new. */
  lemma UpsertSize(t: Table, p: PropertyRecord)
    requires ValidTable(t)
    ensures |Upsert(t, p).rows| == |t.rows| + (if Lookup(t.rows, p.listingId).None? then 1 else 0)
  {
    WithoutFacts(t.rows, p.listingId);
    WithoutPresent(t.rows, p.listingId);
  }

  /** Appending a row after rows lacking its key makes it the one found. */
  lemma {:induction false} WithoutThenLookup(w: seq<Row>, key: string, row: Row)
    requires forall i | 0 <= i < |w| :: w[i].record.listingId != key
    requires row.record.listingId == key
    ensures Lookup(w + [row], key) == Some(row)
    decreases |w|
  {
    if w != [] {
      assert (w + [row])[1..] == w[1..] + [row];
      WithoutThenLookup(w[1..], key, row);
    }
  }

  /** Deleting one key does not change what another key finds. */
  lemma {:induction false} LookupWithout(rows: seq<Row>, key: string, other: string)
    requires other != key
    ensures Lookup(Without(rows, key), other) == Lookup(rows, other)
    decreases |rows|
  {
    if rows != [] {
      LookupWithout(rows[1..], key, other);
      var wt := Without(rows[1..], key);
      if rows[0].record.listingId == key {
        assert Without(rows, key) == wt;
      } else {
        assert Without(rows, key) == [rows[0]] + wt;
        assert ([rows[0]] + wt)[1..] == wt;
      }
    }
  }

  /** Appending a row with another key does not change what a key finds
      among rows that hold it. */
  lemma {:induction false} LookupAppend(w: seq<Row>, key: string, row: Row)
    requires row.record.listingId != key
    ensures Lookup(w + [row], key) == Lookup(w, key)
    decreases |w|
  {
    if w != [] {
      assert (w + [row])[1..] == w[1..] + [row];
      LookupAppend(w[1..], key, row);
    } else {
      assert [row][1..] == [];
    }
  }

  /** A second save of the same listing id replaces the first: only the
      second record remains, under a newer id. */
  lemma SecondSaveReplaces(t: Table, a: PropertyRecord, b: PropertyRecord)
    requires ValidTable(t) && a.listingId == b.listingId
    ensures var u := Upsert(Upsert(t, a), b);
      && Lookup(u.rows, b.listingId) == Some(Row(t.nextId + 1, Stored(b)))
      && |u.rows| == |Upsert(t, a).rows|
  {
    UpsertValid(t, a);
    UpsertLookup(Upsert(t, a), b);
    UpsertLookup(t, a);
    UpsertSize(Upsert(t, a), b);
  }

  // ---------------------------------------------------------------------------
  // Statistics

  /** How many rows satisfy `f`. */
  function CountRows(rows: seq<Row>, f: Row -> bool): (n: nat)
    ensures n <= |rows|
    decreases |rows|
  {
    if rows == [] then 0 else (if f(rows[0]) then 1 else 0) + CountRows(rows[1..], f)
  }

  /** The sum of `v` over the rows that satisfy `f`. */
  function SumRows(rows: seq<Row>, f: Row -> bool, v: Row -> real): real
    decreases |rows|
  {
    if rows == [] then 0.0 else (if f(rows[0]) then v(rows[0]) else 0.0) + SumRows(rows[1..], f, v)
  }

  /** `AVG(v)` over the rows satisfying `f`: SQL `NULL` when there are none. */
  function Average(rows: seq<Row>, f: Row -> bool, v: Row -> real): Option<real> {
    var n := CountRows(rows, f);
    if n == 0 then None else Some(SumRows(rows, f, v) / n as real)
  }

  /** `part / total * 100` when `total` is non-zero, `0` otherwise. */
  function Rate(part: nat, total: nat): real {
    if total == 0 then 0.0 else part as real / total as real * 100.0
  }

  /** SQLite's ordering of text: code point by code point, a proper prefix
      first. */
  predicate TextLess(a: string, b: string)
    decreases |a|
  {
    if a == [] then b != []
    else if b == [] then false
    else if a[0] != b[0] then a[0] < b[0]
    else TextLess(a[1..], b[1..])
  }

  predicate HasPriceUf(r: Row) { r.record.priceUf.Some? }
  predicate HasBedrooms(r: Row) { r.record.bedrooms.Some? }
  predicate HasArea(r: Row) { r.record.totalArea.Some? }
  predicate PositivePriceUf(r: Row) { r.record.priceUf.Some? && r.record.priceUf.value > 0.0 }
  predicate PositiveArea(r: Row) { r.record.totalArea.Some? && r.record.totalArea.value > 0.0 }
  function PriceUfOf(r: Row): real { if r.record.priceUf.Some? then r.record.priceUf.value else 0.0 }
  function AreaOf(r: Row): real { if r.record.totalArea.Some? then r.record.totalArea.value else 0.0 }
  predicate AnyRow(r: Row) { true }

  /** The statistics dictionary. */
  datatype Stats = Stats(
    totalProperties: nat,
    propertiesWithPrice: nat,
    propertiesWithBedrooms: nat,
    propertiesWithArea: nat,
    averagePriceUf: Option<real>,
    averageAreaM2: Option<real>,
    scrapedLast24h: nat,
    priceRate: real,
    bedroomsRate: real,
    areaRate: real)

  /** The statistics of `rows`, where `cutoff` is the text of
      `datetime('now', '-1 day')`. */
  function StatsOf(rows: seq<Row>, cutoff: string): Stats {
    var total := CountRows(rows, AnyRow);
    var withPrice := CountRows(rows, HasPriceUf);
    var withBedrooms := CountRows(rows, HasBedrooms);
    var withArea := CountRows(rows, HasArea);
    Stats(total, withPrice, withBedrooms, withArea,
          Average(rows, PositivePriceUf, PriceUfOf),
          Average(rows, PositiveArea, AreaOf),
          CountRows(rows, (r: Row) => !TextLess(r.record.scrapedAt, cutoff)),
          Rate(withPrice, total), Rate(withBedrooms, total), Rate(withArea, total))
  }

  /** What `get_stats` returns: the statistics, the empty dictionary, or the
      exception of `sqlite3.connect`. */
  datatype StatsResult = Computed(stats: Stats) | NoStats | StatsRaised

  /** `get_stats`: empty when the database is off or its file is missing,
      or when a query raises `sqlite3.Error`. */
  function StatsResultOf(useDatabase: bool, t: Table, fileExists: bool, connectFails: bool,
                         queryFails: bool, cutoff: string): StatsResult
  {
    if !useDatabase || !fileExists then NoStats
    else if connectFails then StatsRaised
    else if queryFails then NoStats
    else Computed(StatsOf(t.rows, cutoff))
  }

  /** `get_stats` raises only when connecting to an existing database fails,
      computes statistics only when every query succeeds, and what it computes
      covers every row, with rates between 0 and 100. */
  lemma StatsResultFacts(useDatabase: bool, t: Table, fileExists: bool, connectFails: bool,
                         queryFails: bool, cutoff: string)
    ensures var r := StatsResultOf(useDatabase, t, fileExists, connectFails, queryFails, cutoff);
      && (r.StatsRaised? <==> useDatabase && fileExists && connectFails)
      && (r.Computed? <==> useDatabase && fileExists && !connectFails && !queryFails)
      && (r.Computed? ==>
            && r.stats.totalProperties == |t.rows|
            && 0.0 <= r.stats.priceRate <= 100.0 && 0.0 <= r.stats.bedroomsRate <= 100.0
            && 0.0 <= r.stats.areaRate <= 100.0)
  {
    StatsCounts(t.rows, cutoff);
  }

  // ---------------------------------------------------------------------------
  // Properties of the statistics

  /** Every row satisfying `f` satisfies `g`, so `f` counts no more rows. */
  lemma {:induction false} CountRowsMonotone(rows: seq<Row>, f: Row -> bool, g: Row -> bool)
    requires forall r | r in rows :: f(r) ==> g(r)
    ensures CountRows(rows, f) <= CountRows(rows, g)
    decreases |rows|
  {
    if rows != [] {
      assert rows[0] in rows;
      assert forall r | r in rows[1..] :: r in rows;
      CountRowsMonotone(rows[1..], f, g);
    }
  }

  /** `AnyRow` counts every row. */
  lemma {:induction false} CountAll(rows: seq<Row>)
    ensures CountRows(rows, AnyRow) == |rows|
    decreases |rows|
  {
    if rows != [] {
      CountAll(rows[1..]);
    }
  }

  /** A sum of positive values over at least one row is positive. */
  lemma {:induction false} SumPositive(rows: seq<Row>, f: Row -> bool, v: Row -> real)
    requires forall r | r in rows && f(r) :: v(r) > 0.0
    ensures SumRows(rows, f, v) >= 0.0
    ensures CountRows(rows, f) > 0 ==> SumRows(rows, f, v) > 0.0
    decreases |rows|
  {
    if rows != [] {
      assert forall r | r in rows[1..] :: r in rows;
      assert rows[0] in rows;
      SumPositive(rows[1..], f, v);
    }
  }

  /** A rate of a part of the total lies between 0 and 100, and is 0 for an
      empty total. */
  lemma RateBounds(part: nat, total: nat)
    requires part <= total
    ensures 0.0 <= Rate(part, total) <= 100.0
    ensures total == 0 ==> Rate(part, total) == 0.0
    ensures total > 0 && part == total ==> Rate(part, total) == 100.0
  {
    if total > 0 {
      assert part as real / total as real <= 1.0;
    }
  }

  /** The counts never exceed the total and the rates lie between 0 and
      100. */
  lemma StatsCounts(rows: seq<Row>, cutoff: string)
    ensures var s := StatsOf(rows, cutoff);
      && s.totalProperties == |rows|
      && s.propertiesWithPrice <= s.totalProperties && s.propertiesWithBedrooms <= s.totalProperties
      && s.propertiesWithArea <= s.totalProperties && s.scrapedLast24h <= s.totalProperties
      && 0.0 <= s.priceRate <= 100.0 && 0.0 <= s.bedroomsRate <= 100.0 && 0.0 <= s.areaRate <= 100.0
  {
    CountAll(rows);
    var total := CountRows(rows, AnyRow);
    RateBounds(CountRows(rows, HasPriceUf), total);
    RateBounds(CountRows(rows, HasBedrooms), total);
    RateBounds(CountRows(rows, HasArea), total);
  }

  /** An average is absent exactly when no row has a positive value, and
      positive otherwise. */
  lemma AveragePositive(rows: seq<Row>, f: Row -> bool, v: Row -> real)
    requires forall r | r in rows && f(r) :: v(r) > 0.0
    ensures Average(rows, f, v).None? <==> CountRows(rows, f) == 0
    ensures Average(rows, f, v).Some? ==> Average(rows, f, v).value > 0.0
  {
    SumPositive(rows, f, v);
  }

  /** The averages of `get_stats` are absent exactly when no row has a
      positive price in UF or area, and are positive otherwise. */
  lemma StatsAverages(rows: seq<Row>, cutoff: string)
    ensures var s := StatsOf(rows, cutoff);
      && (s.averagePriceUf.None? <==> CountRows(rows, PositivePriceUf) == 0)
      && (s.averagePriceUf.Some? ==> s.averagePriceUf.value > 0.0)
      && (s.averageAreaM2.None? <==> CountRows(rows, PositiveArea) == 0)
      && (s.averageAreaM2.Some? ==> s.averageAreaM2.value > 0.0)
  {
    AveragePositive(rows, PositivePriceUf, PriceUfOf);
    AveragePositive(rows, PositiveArea, AreaOf);
  }

  /** An empty table gives zero counts, zero rates and no averages. */
  lemma EmptyTableStats(cutoff: string)
    ensures StatsOf([], cutoff) == Stats(0, 0, 0, 0, None, None, 0, 0.0, 0.0, 0.0)
  {
  }

  /** Text sharing a prefix is ordered by the first character that differs. */
  lemma {:induction false} TextLessAfterPrefix(d: string, x: string, y: string)
    ensures TextLess(d + x, d + y) == TextLess(x, y)
    decreases |d|
  {
    if d != [] {
      assert (d + x)[0] == d[0] == (d + y)[0];
      assert (d + x)[1..] == d[1..] + x;
      assert (d + y)[1..] == d[1..] + y;
      TextLessAfterPrefix(d[1..], x, y);
    } else {
      assert d + x == x && d + y == y;
    }
  }

  /** `scraped_at` is ISO text with a `T` between date and time, the cutoff
      has a space there, and `T` sorts after the space: a record scraped on
      the cutoff's day counts as recent whatever its time of day. */
  lemma SameDayCountsAsRecent(day: string, time: string, cutoffTime: string)
    ensures !TextLess(day + "T" + time, day + " " + cutoffTime)
  {
    assert day + "T" + time == day + ("T" + time);
    assert day + " " + cutoffTime == day + (" " + cutoffTime);
    TextLessAfterPrefix(day, "T" + time, " " + cutoffTime);
  }

  // ---------------------------------------------------------------------------
  // The manager

  /** `save_property`: nothing when the database is off; the exception of
      `sqlite3.connect` propagates (second component true); a write that
      raises `sqlite3.Error` is logged and dropped. */
  function SaveOutcome(useDatabase: bool, t: Table, p: PropertyRecord, connectFails: bool, writeFails: bool): (Table, bool) {
    if !useDatabase then (t, false)
    else if connectFails then (t, true)
    else if writeFails then (t, false)
    else (Upsert(t, p), false)
  }

  /** Only a completed write changes the table, and saving keeps it valid. */
  lemma SaveOutcomeFacts(useDatabase: bool, t: Table, p: PropertyRecord, connectFails: bool, writeFails: bool)
    requires ValidTable(t)
    ensures var (u, raised) := SaveOutcome(useDatabase, t, p, connectFails, writeFails);
      && ValidTable(u)
      && (raised <==> useDatabase && connectFails)
      && (u != t ==> useDatabase && !connectFails && !writeFails && Lookup(u.rows, p.listingId) == Some(Row(t.nextId, Stored(p))))
  {
    UpsertValid(t, p);
    UpsertLookup(t, p);
    if useDatabase && !connectFails && !writeFails {
      assert Upsert(t, p).nextId != t.nextId;
    }
  }

  /** The manager and the database file it writes. */
  class DatabaseManager {
    const useDatabase: bool
    var table: Table

    /** `DatabaseManager(config)` over a database file holding `file`; the
        table is created when missing, and rows already stored stay. */
    constructor (config: ScrapingConfig, file: Table)
      ensures useDatabase == config.useDatabase && table == file
    {
      useDatabase := config.useDatabase;
      table := file;
    }

    /** `save_property(p)`; `raised` is the exception of `sqlite3.connect`. */
    method SaveProperty(p: PropertyRecord, connectFails: bool, writeFails: bool) returns (raised: bool)
      modifies this
      ensures (table, raised) == SaveOutcome(useDatabase, old(table), p, connectFails, writeFails)
    {
      raised := false;
      if !useDatabase {
        return;
      }
      if connectFails {
        raised := true;
        return;
      }
      if !writeFails {
        table := Upsert(table, p);
      }
    }

    /** `get_stats()` at the time whose previous day is `cutoff`. */
    method GetStats(fileExists: bool, connectFails: bool, queryFails: bool, cutoff: string) returns (r: StatsResult)
      ensures r == StatsResultOf(useDatabase, table, fileExists, connectFails, queryFails, cutoff)
    {
      if !useDatabase || !fileExists {
        return NoStats;
      }
      if connectFails {
        return StatsRaised;
      }
      if queryFails {
        return NoStats;
      }
      return Computed(StatsOf(table.rows, cutoff));
    }
  }
}
