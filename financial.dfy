/** `extract_financial_data`: the asking price, its UF or CLP figure, the
    currency and the maintenance fee of a property page
    (data-pipeline/scrapers/portal_inmobiliario.py:558-616). */
module Financial {
  import opened Wrappers
  import opened Text
  import opened Patterns
  import opened Models
  import opened Pages

  /** The price test of the detail page: non-empty text mentioning `UF`, `$`
      or a digit. Unlike the test applied to search cards, `CLP` alone does not
      qualify. */
  predicate PriceTextAccepted(t: string) {
    t != [] && (Contains(t, "UF") || '$' in t || exists i | 0 <= i < |t| :: IsDigit(t[i]))
  }

  /** `float(g.replace(',', '').replace('.', ''))`: both separators are read
      as thousands separators, and the call fails exactly when no digit is
      left. */
  function UfValue(g: string): (r: Option<real>)
    requires NumChars(g)
    ensures r.Some? <==> exists c | c in g :: IsDigit(c)
  {
    var digits := Remove(Remove(g, ','), '.');
    assert forall c | c in digits :: IsDigit(c) by {
      forall c | c in digits ensures IsDigit(c) {
        assert c in Remove(g, ',');
      }
    }
    assert DigitsAndDots(digits) by {
      forall i | 0 <= i < |digits| ensures IsDigit(digits[i]) || digits[i] == '.' {
        assert digits[i] in digits;
      }
    }
    assert Count(digits, '.') == 0;
    assert (exists c | c in g :: IsDigit(c)) <==> (exists i | 0 <= i < |digits| :: IsDigit(digits[i])) by {
      if c :| c in g && IsDigit(c) {
        assert c in Remove(g, ',');
        assert c in digits;
        var i :| 0 <= i < |digits| && digits[i] == c;
      }
      if i :| 0 <= i < |digits| && IsDigit(digits[i]) {
        assert digits[i] in digits;
        assert digits[i] in Remove(g, ',');
      }
    }
    ParseDecimal(digits)
  }

  /** `float(g.replace(',', ''))`: only commas are dropped, so a figure with
      two or more dots fails. */
  function ClpValue(g: string): (r: Option<real>)
    requires NumChars(g)
    ensures r.Some? <==> (exists c | c in g :: IsDigit(c)) && Count(g, '.') <= 1
  {
    var plain := Remove(g, ',');
    assert DigitsAndDots(plain) by {
      forall i | 0 <= i < |plain| ensures IsDigit(plain[i]) || plain[i] == '.' {
        assert plain[i] in plain;
      }
    }
    CountRemove(g, ',', '.');
    assert (exists c | c in g :: IsDigit(c)) <==> (exists i | 0 <= i < |plain| :: IsDigit(plain[i])) by {
      if c :| c in g && IsDigit(c) {
        assert c in plain;
        var i :| 0 <= i < |plain| && plain[i] == c;
      }
      if i :| 0 <= i < |plain| && IsDigit(plain[i]) {
        assert plain[i] in plain;
      }
    }
    ParseDecimal(plain)
  }

  /** The first `([\d,\.]+)\s*UF` group of `t`. */
  function UfFigure(t: string): (r: Option<string>)
    ensures r.Some? ==> r.value != [] && NumChars(r.value)
    ensures r.Some? ==> Contains(t, "UF")
  {
    Search(t, 0, UfAt)
  }

  /** The first `\$\s*([\d,\.]+)` match of `t`. */
  function DollarFigure(t: string): (r: Option<DollarMatch>)
    ensures r.Some? ==> r.value.amount != [] && r.value.whole != [] && r.value.whole[0] == '$'
    ensures r.Some? ==> NumChars(r.value.amount)
    ensures r.Some? ==> '$' in t
  {
    Search(t, 0, DollarAt)
  }

  /** What `float` makes of the UF figure of `t`: `None` when there is no
      figure, `Some(None)` when the conversion raises. */
  function UfReading(t: string): Option<Option<real>> {
    var g := UfFigure(t);
    if g.Some? then Some(UfValue(g.value)) else None
  }

  /** What `float` makes of the `$` figure of `t`, in the same form. */
  function ClpReading(t: string): Option<Option<real>> {
    var m := DollarFigure(t);
    if m.Some? then Some(ClpValue(m.value.amount)) else None
  }

  /** The updates of the price loop's body, given the stripped text and the
      two readings: the record it leaves and whether it reached `break`
      (`false` when a `float` call raised and the loop moved on, keeping what
      it had already set). */
  function PriceUpdate(p: PropertyRecord, stripped: string, uf: Option<Option<real>>,
                       clp: Option<Option<real>>): (PropertyRecord, bool)
  {
    var priced := p.(price := stripped);
    if uf == Some(None) then (priced, false)
    else
      var withUf := if uf.Some? then priced.(priceUf := uf.value, currency := "UF") else priced;
      if clp == Some(None) then (withUf, false)
      else if clp.Some? then
        (withUf.(priceClp := clp.value, currency := if withUf.currency == "" then "CLP" else withUf.currency), true)
      else (withUf, true)
  }

  /** The body of the price loop for an accepted text `t`. */
  function ApplyPrice(p: PropertyRecord, t: string): (PropertyRecord, bool) {
    PriceUpdate(p, Strip(t), UfReading(t), ClpReading(t))
  }

  /** The price loop over the price selectors' texts. */
  function PricePass(p: PropertyRecord, texts: seq<Option<string>>): PropertyRecord
    decreases |texts|
  {
    if texts == [] then p
    else if texts[0].Some? && PriceTextAccepted(texts[0].value) then
      var (p', done) := ApplyPrice(p, texts[0].value);
      if done then p' else PricePass(p', texts[1..])
    else PricePass(p, texts[1..])
  }

  /** The maintenance loop: the whole `$` match in the first parent text that
      has one. */
  function MaintenancePass(p: PropertyRecord, texts: seq<Option<string>>): PropertyRecord
    decreases |texts|
  {
    if texts == [] then p
    else if texts[0].Some? && DollarFigure(texts[0].value).Some? then
      p.(maintenanceFee := DollarFigure(texts[0].value).value.whole)
    else MaintenancePass(p, texts[1..])
  }

  /** The whole pass. */
  function FinancialData(p: PropertyRecord, page: DetailPage): PropertyRecord {
    MaintenancePass(PricePass(p, page.priceTexts), page.maintenanceTexts)
  }

  /** The price loop changes nothing but the price, the two figures and the
      currency. */
  lemma {:induction false} PricePassFrame(p: PropertyRecord, texts: seq<Option<string>>)
    ensures PricePass(p, texts).(price := p.price, priceUf := p.priceUf, priceClp := p.priceClp,
                                currency := p.currency) == p
    decreases |texts|
  {
    if texts != [] {
      if texts[0].Some? && PriceTextAccepted(texts[0].value) {
        var (p', done) := ApplyPrice(p, texts[0].value);
        if !done {
          PricePassFrame(p', texts[1..]);
        }
      } else {
        PricePassFrame(p, texts[1..]);
      }
    }
  }

  /** Without an accepted text the record is left as it was. */
  lemma {:induction false} PricePassNoCandidate(p: PropertyRecord, texts: seq<Option<string>>)
    requires forall i | 0 <= i < |texts| :: texts[i].None? || !PriceTextAccepted(texts[i].value)
    ensures PricePass(p, texts) == p
    decreases |texts|
  {
    if texts != [] {
      PricePassNoCandidate(p, texts[1..]);
    }
  }

  /** A UF figure that parses always sets the currency to `UF`; otherwise a
      CLP figure sets it to `CLP` only when it was still empty, and a
      currency already present is kept. */
  lemma CurrencyRule(p: PropertyRecord, t: string)
    requires ApplyPrice(p, t).1
    ensures UfFigure(t).Some? ==> ApplyPrice(p, t).0.currency == "UF"
    ensures UfFigure(t).None? && p.currency != "" ==> ApplyPrice(p, t).0.currency == p.currency
    ensures UfFigure(t).None? && p.currency == "" ==>
      ApplyPrice(p, t).0.currency == (if DollarFigure(t).Some? then "CLP" else "")
    ensures ApplyPrice(p, t).0.price == Strip(t)
  {
    var uf, clp := UfReading(t), ClpReading(t);
    assert uf.Some? <==> UfFigure(t).Some?;
    assert clp.Some? <==> DollarFigure(t).Some?;
    UpdateCurrency(p, Strip(t), uf, clp);
  }

  /** The currency rule of the loop's body, for any two readings. */
  lemma UpdateCurrency(p: PropertyRecord, stripped: string, uf: Option<Option<real>>, clp: Option<Option<real>>)
    requires PriceUpdate(p, stripped, uf, clp).1
    ensures uf.Some? ==> PriceUpdate(p, stripped, uf, clp).0.currency == "UF"
    ensures uf.None? && p.currency != "" ==> PriceUpdate(p, stripped, uf, clp).0.currency == p.currency
    ensures uf.None? && p.currency == "" ==>
      PriceUpdate(p, stripped, uf, clp).0.currency == (if clp.Some? then "CLP" else "")
    ensures PriceUpdate(p, stripped, uf, clp).0.price == stripped
  {
  }

  /** A UF figure with a dot between two digit runs reads as the two runs
      written together: `"8.500"` is 8500 UF, not 8.5. */
  lemma UfDotIsThousands(a: string, b: string)
    requires a != [] && b != [] && AllDigits(a) && AllDigits(b)
    ensures UfValue(a + "." + b) == Some(DigitsValue(a + b) as real)
  {
    JoinedNumChars(a, b);
    JoinedDigits(a, b);
    var d := a + b;
    assert '.' !in d by {
      forall i | 0 <= i < |d| ensures d[i] != '.' {
        if i < |a| { assert d[i] == a[i]; } else { assert d[i] == b[i - |a|]; }
      }
    }
    BeforeFirstAbsent(d, '.');
    assert IsDigit(d[0]) by { assert d[0] == a[0]; }
  }

  /** Two digit runs with a dot between them are made of figure characters. */
  lemma JoinedNumChars(a: string, b: string)
    requires AllDigits(a) && AllDigits(b)
    ensures NumChars(a + "." + b)
  {
    var g := a + "." + b;
    forall c | c in g ensures IsNumChar(c) {
      assert c in a || c == '.' || c in b;
      if c in a { var i :| 0 <= i < |a| && a[i] == c; }
      if c in b { var i :| 0 <= i < |b| && b[i] == c; }
    }
  }

  /** A digit run holds no separator. */
  lemma NoSeparators(s: string)
    requires AllDigits(s)
    ensures ',' !in s && '.' !in s
  {
    forall i | 0 <= i < |s| ensures s[i] != ',' && s[i] != '.' {
      assert IsDigit(s[i]);
    }
  }

  /** Dropping the separators of two digit runs joined by a dot leaves the
      two runs written together. */
  lemma JoinedDigits(a: string, b: string)
    requires AllDigits(a) && AllDigits(b)
    ensures Remove(Remove(a + "." + b, ','), '.') == a + b
  {
    NoSeparators(a);
    NoSeparators(b);
    var g := a + "." + b;
    assert ',' !in g;
    RemoveAbsent(g, ',');
    DotDropped(a, b);
  }

  /** Dropping the dots of `a.b`, with no dot in `a` or `b`, gives `ab`. */
  lemma DotDropped(a: string, b: string)
    requires '.' !in a && '.' !in b
    ensures Remove(a + "." + b, '.') == a + b
  {
    var dot := ".";
    var head := a + dot;
    RemoveConcat(a, dot, '.');
    RemoveAbsent(a, '.');
    assert Remove(dot, '.') == [];
    assert Remove(head, '.') == a;
    RemoveConcat(head, b, '.');
    RemoveAbsent(b, '.');
    assert Remove(head + b, '.') == a + b;
  }

  /** A text with no whitespace at either end is its own stripped form. */
  lemma StripExample(t: string)
    requires t != [] && !IsSpace(t[0]) && !IsSpace(t[|t| - 1])
    ensures Strip(t) == t
  {
    StripStripped(t);
  }

  /** A `$` figure with two or more dots (the usual CLP notation
      `$ 1.234.567`) makes `float` raise once the UF figure is absent: only
      the price text is kept and the loop moves on to the next selector. */
  lemma DottedClpRejected(p: PropertyRecord, t: string, rest: seq<Option<string>>)
    requires UfFigure(t).None? && DollarFigure(t).Some?
    requires Count(DollarFigure(t).value.amount, '.') >= 2
    ensures ApplyPrice(p, t) == (p.(price := Strip(t)), false)
    ensures PricePass(p, [Some(t)] + rest) == PricePass(p.(price := Strip(t)), rest)
  {
    DottedClpApply(p, t);
    var texts := [Some(t)] + rest;
    assert texts[0] == Some(t) && texts[1..] == rest;
    PricePassGoesOn(p, texts);
  }

  /** An accepted text whose body does not reach `break` hands the record it
      leaves to the rest of the loop. */
  lemma PricePassGoesOn(p: PropertyRecord, texts: seq<Option<string>>)
    requires texts != [] && texts[0].Some? && PriceTextAccepted(texts[0].value)
    requires !ApplyPrice(p, texts[0].value).1
    ensures PricePass(p, texts) == PricePass(ApplyPrice(p, texts[0].value).0, texts[1..])
  {
  }

  /** Such a text is accepted, and its body keeps only the price text. */
  lemma DottedClpApply(p: PropertyRecord, t: string)
    requires UfFigure(t).None? && DollarFigure(t).Some?
    requires Count(DollarFigure(t).value.amount, '.') >= 2
    ensures PriceTextAccepted(t)
    ensures ApplyPrice(p, t) == (p.(price := Strip(t)), false)
  {
    assert ClpValue(DollarFigure(t).value.amount).None?;
    assert ClpReading(t) == Some(None);
  }

  /** A text without the letter `U` has no UF figure. */
  lemma NoUfWithoutU(t: string)
    requires 'U' !in t
    ensures UfFigure(t).None?
  {
    if UfFigure(t).Some? {
      ContainsHead(t, "UF");
    }
  }

  /** The `$` match of `"$ 1.234.567"` is the whole text. */
  lemma DollarMatchExample(t: string)
    requires t == "$ 1.234.567"
    ensures DollarFigure(t) == Some(DollarMatch(t, t[2..]))
  {
    SpanEndIs(t, 1, 2, IsSpace);
    SpanEndIs(t, 2, 11, IsNumChar);
    assert t[0..11] == t;
  }

  /** `"$ 1.234.567"` has no UF figure. */
  lemma NoUfExample(t: string)
    requires t == "$ 1.234.567"
    ensures UfFigure(t).None?
  {
    assert forall i | 0 <= i < |t| :: t[i] != 'U';
    NoUfWithoutU(t);
  }

  /** `"$ 1.234.567"` is such a text. */
  lemma DottedClpExample(t: string)
    requires t == "$ 1.234.567"
    ensures UfFigure(t).None? && DollarFigure(t).Some?
    ensures DollarFigure(t).value.whole == t
    ensures Count(DollarFigure(t).value.amount, '.') >= 2
  {
    NoUfExample(t);
    DollarMatchExample(t);
    assert t[2..][1] == '.' && t[2..][5] == '.';
    CountTwo(t[2..], '.', 1, 5);
  }

  /** The maintenance loop sets nothing but the fee, and a fee it sets is a
      `$` figure. */
  lemma {:induction false} MaintenancePassFee(p: PropertyRecord, texts: seq<Option<string>>)
    ensures MaintenancePass(p, texts).(maintenanceFee := p.maintenanceFee) == p
    ensures MaintenancePass(p, texts).maintenanceFee == p.maintenanceFee ||
      (MaintenancePass(p, texts).maintenanceFee != [] && MaintenancePass(p, texts).maintenanceFee[0] == '$')
    decreases |texts|
  {
    if texts != [] && !(texts[0].Some? && DollarFigure(texts[0].value).Some?) {
      MaintenancePassFee(p, texts[1..]);
    }
  }

  /** The field writes of the price loop's body, given the stripped text
      and the two readings: returns whether the body reached `break`. */
  method WritePrice(stripped: string, uf: Option<Option<real>>, clp: Option<Option<real>>, p: PropertyData)
    returns (done: bool)
    modifies p
    ensures (p.fields, done) == PriceUpdate(old(p.fields), stripped, uf, clp)
  {
    p.fields := p.fields.(price := stripped);
    done := true;
    if uf.Some? {
      if uf.value.None? {
        done := false;
        return;
      }
      p.fields := p.fields.(priceUf := uf.value, currency := "UF");
    }
    if clp.Some? {
      if clp.value.None? {
        done := false;
        return;
      }
      p.fields := p.fields.(priceClp := clp.value);
      if p.fields.currency == "" {
        p.fields := p.fields.(currency := "CLP");
      }
    }
  }

  /** The `try` body of the price loop for an accepted text `t`: returns
      whether it reached `break`. */
  method ReadPriceText(t: string, p: PropertyData) returns (done: bool)
    modifies p
    ensures (p.fields, done) == ApplyPrice(old(p.fields), t)
  {
    var stripped := Strip(t);
    var uf := UfReading(t);
    var clp := ClpReading(t);
    done := WritePrice(stripped, uf, clp, p);
  }

  /** `extract_financial_data` on the record object. */
  method ExtractFinancialData(page: DetailPage, p: PropertyData)
    modifies p
    ensures p.fields == FinancialData(old(p.fields), page)
  {
    var texts := page.priceTexts;
    var i := 0;
    while i < |texts|
      invariant 0 <= i <= |texts|
      invariant PricePass(old(p.fields), texts) == PricePass(p.fields, texts[i..])
    {
      assert texts[i..][1..] == texts[i + 1..];
      if texts[i].Some? && PriceTextAccepted(texts[i].value) {
        var done := ReadPriceText(texts[i].value, p);
        if done {
          break;
        }
      }
      i := i + 1;
    }
    ghost var priced := p.fields;
    var parents := page.maintenanceTexts;
    var j := 0;
    while j < |parents|
      invariant 0 <= j <= |parents|
      invariant MaintenancePass(priced, parents) == MaintenancePass(p.fields, parents[j..])
    {
      assert parents[j..][1..] == parents[j + 1..];
      if parents[j].Some? {
        var m := DollarFigure(parents[j].value);
        if m.Some? {
          p.fields := p.fields.(maintenanceFee := m.value.whole);
          break;
        }
      }
      j := j + 1;
    }
  }
}
