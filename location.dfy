/** `extract_location_data`: the address, the comuna and the neighborhood of
    a property page (data-pipeline/scrapers/portal_inmobiliario.py:679-708).
    Coordinates are not part of this model. */
module Location {
  import opened Wrappers
  import opened Text
  import opened Models
  import opened Pages

  /** `address and len(address) > 5`. */
  predicate AddressAccepted(t: string) {
    |t| > 5
  }

  /** The updates for an accepted raw address `a`: the stripped address, the
      comuna when `Las Condes` occurs in it, and the stripped text before the
      first comma when it has one. */
  function LocationUpdate(p: PropertyRecord, a: string): PropertyRecord {
    p.(address := Strip(a),
       comuna := if Contains(a, "Las Condes") then "Las Condes" else p.comuna,
       neighborhood := if ',' in a then Strip(BeforeFirst(a, ',')) else p.neighborhood)
  }

  /** The selector loop: the first accepted address text is used. */
  function AddressLoop(p: PropertyRecord, texts: seq<Option<string>>): PropertyRecord
    decreases |texts|
  {
    if texts == [] then p
    else if texts[0].Some? && AddressAccepted(texts[0].value) then LocationUpdate(p, texts[0].value)
    else AddressLoop(p, texts[1..])
  }

  /** The whole pass. */
  function LocationData(p: PropertyRecord, page: DetailPage): PropertyRecord {
    AddressLoop(p, page.addressTexts)
  }

  // ---------------------------------------------------------------------------
  // Properties

  /** Whatever a prefix of `s` contains, `s` contains. */
  lemma ContainsInPrefix(x: string, s: string, y: string)
    requires x <= s && Contains(x, y)
    ensures Contains(s, y)
  {
    var i :| 0 <= i <= |x| && y <= x[i..];
    assert y <= s[i..];
  }

  /** The address loop uses the first accepted text and only that one. */
  lemma {:induction false} AddressLoopFirst(p: PropertyRecord, texts: seq<Option<string>>, k: nat)
    requires k < |texts| && texts[k].Some? && AddressAccepted(texts[k].value)
    requires forall i | 0 <= i < k :: texts[i].None? || !AddressAccepted(texts[i].value)
    ensures AddressLoop(p, texts) == LocationUpdate(p, texts[k].value)
    decreases k
  {
    if k > 0 {
      assert texts[1..][k - 1] == texts[k];
      AddressLoopFirst(p, texts[1..], k - 1);
    }
  }

  /** Without an accepted text the record is left as it was. */
  lemma {:induction false} AddressLoopNone(p: PropertyRecord, texts: seq<Option<string>>)
    requires forall i | 0 <= i < |texts| :: texts[i].None? || !AddressAccepted(texts[i].value)
    ensures AddressLoop(p, texts) == p
    decreases |texts|
  {
    if texts != [] {
      AddressLoopNone(p, texts[1..]);
    }
  }

  /** The loop changes the address, the comuna and the neighborhood only. */
  lemma {:induction false} AddressLoopFrame(p: PropertyRecord, texts: seq<Option<string>>)
    ensures AddressLoop(p, texts).(address := p.address, comuna := p.comuna, neighborhood := p.neighborhood) == p
    decreases |texts|
  {
    if texts != [] && !(texts[0].Some? && AddressAccepted(texts[0].value)) {
      AddressLoopFrame(p, texts[1..]);
    }
  }

  /** What a text contains holds none of the characters the text lacks. */
  lemma ContainedLacks(s: string, r: string, c: char)
    requires Contains(s, r) && c !in s
    ensures c !in r
  {
    var i :| 0 <= i <= |s| && r <= s[i..];
    forall j | 0 <= j < |r| ensures r[j] != c {
      assert r[j] == s[i + j];
    }
  }

  /** The neighborhood taken from a raw address with a comma is a stripped,
      comma-free piece of it. */
  lemma NeighborhoodFacts(a: string)
    requires ',' in a
    ensures var n := Strip(BeforeFirst(a, ','));
      Stripped(n) && ',' !in n && Contains(a, n)
  {
    var b := BeforeFirst(a, ',');
    var n := Strip(b);
    ContainsInPrefix(b, a, n);
    ContainedLacks(b, n, ',');
  }

  /** An accepted address changes the address, the comuna and the
      neighborhood only. The address is `a.strip()`, a stripped piece of the
      raw text; the comuna becomes `Las Condes` exactly when the raw text
      contains it; and with a comma the neighborhood is the stripped text
      before the first comma, a stripped, comma-free piece of the raw text. */
  lemma LocationUpdateFacts(p: PropertyRecord, a: string)
    ensures LocationUpdate(p, a).(address := p.address, comuna := p.comuna, neighborhood := p.neighborhood) == p
    ensures LocationUpdate(p, a).address == Strip(a)
    ensures Stripped(LocationUpdate(p, a).address) && Contains(a, LocationUpdate(p, a).address)
    ensures Contains(a, "Las Condes") ==> LocationUpdate(p, a).comuna == "Las Condes"
    ensures !Contains(a, "Las Condes") ==> LocationUpdate(p, a).comuna == p.comuna
    ensures ',' in a ==>
      var n := LocationUpdate(p, a).neighborhood;
      n == Strip(BeforeFirst(a, ',')) && Stripped(n) && ',' !in n && Contains(a, n)
    ensures ',' !in a ==> LocationUpdate(p, a).neighborhood == p.neighborhood
  {
    if ',' in a {
      NeighborhoodFacts(a);
    }
  }

  // ---------------------------------------------------------------------------
  // The pass on the record object

  /** The assignments for an accepted raw address `a`. */
  method WriteLocation(a: string, p: PropertyData)
    modifies p
    ensures p.fields == LocationUpdate(old(p.fields), a)
  {
    var stripped := Strip(a);
    var inLasCondes := Contains(a, "Las Condes");
    var hasComma := ',' in a;
    var first := Strip(BeforeFirst(a, ','));
    p.fields := p.fields.(address := stripped);
    if inLasCondes {
      p.fields := p.fields.(comuna := "Las Condes");
    }
    if hasComma {
      p.fields := p.fields.(neighborhood := first);
    }
  }

  /** `extract_location_data` on the record object. */
  method ExtractLocationData(page: DetailPage, p: PropertyData)
    modifies p
    ensures p.fields == LocationData(old(p.fields), page)
  {
    var texts := page.addressTexts;
    var i := 0;
    while i < |texts|
      invariant 0 <= i <= |texts|
      invariant AddressLoop(old(p.fields), texts) == AddressLoop(p.fields, texts[i..])
    {
      assert texts[i..][1..] == texts[i + 1..];
      if texts[i].Some? && AddressAccepted(texts[i].value) {
        WriteLocation(texts[i].value, p);
        break;
      }
      i := i + 1;
    }
  }
}
