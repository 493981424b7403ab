/** The regular expressions the scraper runs with `re.search`, each written as
    the matcher it amounts to at one start position, plus the leftmost search
    that tries every start position in turn.

    Every pattern here is deterministic once its start is fixed: a greedy run
    is followed by a character that cannot extend it, so backtracking to a
    shorter run never lets the rest of the pattern match. Each matcher
    therefore takes the maximal run. */
module Patterns {
  import opened Wrappers
  import opened Text

  /** The class `[\d,\.]`. */
  predicate IsNumChar(c: char) {
    IsDigit(c) || c == ',' || c == '.'
  }

  /** A text made of `[\d,\.]` characters only. */
  predicate NumChars(g: string) {
    forall c | c in g :: IsNumChar(c)
  }

  /** End of the longest run of `inClass` characters starting at `i`. */
  function SpanEnd(s: string, i: nat, inClass: char -> bool): (j: nat)
    requires i <= |s|
    ensures i <= j <= |s|
    ensures forall k | i <= k < j :: inClass(s[k])
    ensures j == |s| || !inClass(s[j])
    decreases |s| - i
  {
    if i < |s| && inClass(s[i]) then SpanEnd(s, i + 1, inClass) else i
  }

  /** The run that `SpanEnd` measures is determined by its two ends: every
      character before `j` is in the class and the one at `j` is not. */
  lemma SpanEndIs(s: string, i: nat, j: nat, inClass: char -> bool)
    requires i <= j <= |s|
    requires forall k | i <= k < j :: inClass(s[k])
    requires j == |s| || !inClass(s[j])
    ensures SpanEnd(s, i, inClass) == j
  {
  }

  /** Where `\s*` starting at `i` stops. */
  function SkipSpaces(s: string, i: nat): (j: nat)
    requires i <= |s|
    ensures i <= j <= |s|
    ensures forall k | i <= k < j :: IsSpace(s[k])
    ensures j == |s| || !IsSpace(s[j])
  {
    SpanEnd(s, i, IsSpace)
  }

  /** `(?:w1|w2|...)` at position `t`: one of the words starts there. */
  predicate KeywordAt(s: string, t: nat, words: seq<string>) {
    t <= |s| && exists w | w in words :: w <= s[t..]
  }

  /** `re.search`: the result of `at` at the leftmost start position, from
      `from` on, at which it matches. */
  function Search<T>(s: string, from: nat, at: (string, nat) -> Option<T>): (r: Option<T>)
    ensures r.Some? ==> exists k | from <= k <= |s| :: at(s, k) == r
    ensures r.Some? <==> exists k | from <= k <= |s| :: at(s, k).Some?
    decreases |s| + 1 - from
  {
    if from > |s| then None
    else if at(s, from).Some? then at(s, from)
    else Search(s, from + 1, at)
  }

  /** No start position before the one `Search` reports matches. */
  lemma {:induction false} SearchIsLeftmost<T>(s: string, from: nat, at: (string, nat) -> Option<T>, k: nat)
    requires from <= k <= |s| && at(s, k).Some?
    ensures Search(s, from, at).Some?
    ensures exists j | from <= j <= k ::
      Search(s, from, at) == at(s, j) && forall i | from <= i < j :: at(s, i).None?
    decreases k - from
  {
    if at(s, from).None? {
      SearchIsLeftmost(s, from + 1, at, k);
      var j :| from + 1 <= j <= k && Search(s, from + 1, at) == at(s, j) &&
        forall i | from + 1 <= i < j :: at(s, i).None?;
      assert forall i | from <= i < j :: at(s, i).None?;
    } else {
      assert Search(s, from, at) == at(s, from);
    }
  }

  /** `([\d,\.]+)\s*UF` anchored at `k`: the number group. */
  function UfAt(s: string, k: nat): (r: Option<string>)
    ensures r.Some? ==> r.value != [] && NumChars(r.value)
    ensures r.Some? ==> Contains(s, "UF")
  {
    if k < |s| && IsNumChar(s[k]) then
      var j := SpanEnd(s, k, IsNumChar);
      var t := SkipSpaces(s, j);
      if "UF" <= s[t..] then
        assert Contains(s, "UF") by {
          assert 0 <= t <= |s|;
        }
        Some(s[k..j])
      else None
    else None
  }

  /** A match of `\$\s*([\d,\.]+)`: the whole match and the number group. */
  datatype DollarMatch = DollarMatch(whole: string, amount: string)

  /** `\$\s*([\d,\.]+)` anchored at `k`. */
  function DollarAt(s: string, k: nat): (r: Option<DollarMatch>)
    ensures r.Some? ==> r.value.amount != [] && r.value.whole != [] && r.value.whole[0] == '$'
    ensures r.Some? ==> NumChars(r.value.amount)
    ensures r.Some? ==> k < |s| && s[k] == '$'
  {
    if k < |s| && s[k] == '$' then
      var t := SkipSpaces(s, k + 1);
      if t < |s| && IsNumChar(s[t]) then
        var j := SpanEnd(s, t, IsNumChar);
        Some(DollarMatch(s[k..j], s[t..j]))
      else None
    else None
  }

  /** A maximal run of digits starting at `k`, if one starts there. */
  function DigitsFrom(s: string, k: nat): (r: Option<string>)
    ensures r.Some? ==> r.value != [] && AllDigits(r.value)
  {
    if k < |s| && IsDigit(s[k]) then Some(s[k..SpanEnd(s, k, IsDigit)]) else None
  }

  /** `(\d+)` anchored at `k`. */
  function DigitsAt(s: string, k: nat): (r: Option<string>)
    ensures r.Some? ==> r.value != [] && AllDigits(r.value)
  {
    DigitsFrom(s, k)
  }

  /** `(\d+)\s*(?:w1|w2|...)` anchored at `k`: a count followed by one of the
      words. */
  function CountAt(s: string, k: nat, words: seq<string>): (r: Option<string>)
    ensures r.Some? ==> r.value != [] && AllDigits(r.value)
  {
    if k < |s| && IsDigit(s[k]) then
      var j := SpanEnd(s, k, IsDigit);
      if KeywordAt(s, SkipSpaces(s, j), words) then Some(s[k..j]) else None
    else None
  }

  /** `\s*m[²2]?\s*(?:w1|w2|...)` at position `e`. */
  predicate AreaUnitAt(s: string, e: nat, words: seq<string>)
    requires e <= |s|
  {
    var t := SkipSpaces(s, e);
    t < |s| && s[t] == 'm' &&
    var u := if t + 1 < |s| && (s[t + 1] == '\U{B2}' || s[t + 1] == '2') then t + 2 else t + 1;
    KeywordAt(s, SkipSpaces(s, u), words)
  }

  /** Digits with at most one `,` or `.` between two digit runs. */
  predicate IsAreaNumber(g: string) {
    && g != [] && IsDigit(g[0]) && IsDigit(g[|g| - 1])
    && forall i | 0 <= i < |g| && !IsDigit(g[i]) ::
         (g[i] == ',' || g[i] == '.') && AllDigits(g[..i]) && AllDigits(g[i + 1..])
  }

  /** A digit run from `k` to `j`, optionally followed by one separator and a
      second digit run ending at `e`, is an area number. */
  lemma AreaNumberSlice(s: string, k: nat, j: nat, e: nat)
    requires k < j <= e <= |s|
    requires forall i | k <= i < j :: IsDigit(s[i])
    requires e == j || (j + 1 < e && (s[j] == ',' || s[j] == '.') && forall i | j < i < e :: IsDigit(s[i]))
    ensures IsAreaNumber(s[k..e])
  {
    var g := s[k..e];
    forall i | 0 <= i < |g| && !IsDigit(g[i])
      ensures (g[i] == ',' || g[i] == '.') && AllDigits(g[..i]) && AllDigits(g[i + 1..])
    {
      assert g[i] == s[k + i];
      assert k + i == j;
    }
  }

  /** `(\d+(?:[,\.]\d+)?)\s*m[²2]?\s*(?:w1|w2|...)` anchored at `k`: the number
      group. */
  function AreaAt(s: string, k: nat, words: seq<string>): (r: Option<string>)
    ensures r.Some? ==> IsAreaNumber(r.value)
  {
    if k < |s| && IsDigit(s[k]) then
      var j := SpanEnd(s, k, IsDigit);
      var e := if j + 1 < |s| && (s[j] == ',' || s[j] == '.') && IsDigit(s[j + 1])
               then SpanEnd(s, j + 1, IsDigit) else j;
      if AreaUnitAt(s, e, words) then
        AreaNumberSlice(s, k, j, e);
        Some(s[k..e])
      else None
    else None
  }

  /** `(\d{4})\s*(?:año|year)` anchored at `k`. */
  function YearAt(s: string, k: nat): (r: Option<string>)
    ensures r.Some? ==> |r.value| == 4 && AllDigits(r.value)
  {
    if k + 4 <= |s| && AllDigits(s[k..k + 4]) && KeywordAt(s, SkipSpaces(s, k + 4), ["a\U{F1}o", "year"])
    then Some(s[k..k + 4]) else None
  }

  /** `\s*(\d+)` at position `p`. */
  function SpacedDigits(s: string, p: nat): (r: Option<string>)
    ensures r.Some? ==> r.value != [] && AllDigits(r.value)
  {
    if p <= |s| then DigitsFrom(s, SkipSpaces(s, p)) else None
  }

  /** `piso\s*(\d+)|floor\s*(\d+)` anchored at `k`: the group that took part,
      the first alternative being tried first. */
  function FloorAt(s: string, k: nat): (r: Option<string>)
    ensures r.Some? ==> r.value != [] && AllDigits(r.value)
  {
    if k <= |s| && "piso" <= s[k..] then SpacedDigits(s, k + 4)
    else if k <= |s| && "floor" <= s[k..] then SpacedDigits(s, k + 5)
    else None
  }

  /** `MLC-(\d+)` anchored at `k`. */
  function ListingIdAt(s: string, k: nat): (r: Option<string>)
    ensures r.Some? ==> r.value != [] && AllDigits(r.value)
  {
    if k <= |s| && "MLC-" <= s[k..] then DigitsFrom(s, k + 4) else None
  }

  /** `publicado hace (\d+) (?:u1|u2)s?` anchored at `k`; the optional `s`
      never changes whether or where it matches. */
  function PublishedAt(s: string, k: nat, units: seq<string>): (r: Option<string>)
    ensures r.Some? ==> r.value != [] && AllDigits(r.value)
  {
    var prefix := "publicado hace ";
    if k <= |s| && prefix <= s[k..] then
      var n := DigitsFrom(s, k + |prefix|);
      if n.Some? && k + |prefix| + |n.value| < |s| && s[k + |prefix| + |n.value|] == ' '
         && KeywordAt(s, k + |prefix| + |n.value| + 1, units)
      then n else None
    else None
  }
}
