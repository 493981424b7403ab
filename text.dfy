/** The Python `str` behaviour the scraper relies on: whitespace, letter case,
    `strip`, `title`, `re.sub(r'\s+', ' ', ...)`, substring tests, `split`,
    and the conversions `int(...)`, `str(...)` and `float(...)` on digit strings.

    Case mapping covers ASCII and the Latin-1 letters; digits are ASCII. */
module Text {
  import opened Wrappers

  // ---------------------------------------------------------------------------
  // Characters

  /** `str.isspace()`, which is also the `\s` class of Python's `re` on text. */
  predicate IsSpace(c: char) {
    c == ' ' || '\t' <= c <= '\r' || '\U{1C}' <= c <= '\U{1F}' || c == '\U{85}' || c == '\U{A0}'
    || c == '\U{1680}' || '\U{2000}' <= c <= '\U{200A}' || c == '\U{2028}' || c == '\U{2029}'
    || c == '\U{202F}' || c == '\U{205F}' || c == '\U{3000}'
  }

  predicate IsDigit(c: char) {
    '0' <= c <= '9'
  }

  predicate IsUpper(c: char) {
    'A' <= c <= 'Z' || ('\U{C0}' <= c <= '\U{DE}' && c != '\U{D7}')
  }

  /** Lower-case letters of ASCII and Latin-1 (`µ`, `ª` and `º` are left
      out); `ß` and `ÿ` have no upper-case partner in that range. */
  predicate IsLower(c: char) {
    'a' <= c <= 'z' || ('\U{DF}' <= c <= '\U{FF}' && c != '\U{F7}')
  }

  /** Python's notion of a cased character, which delimits words in `title()`. */
  predicate IsCased(c: char) {
    IsUpper(c) || IsLower(c)
  }

  function LowerChar(c: char): (r: char)
    ensures IsCased(r) <==> IsCased(c)
    ensures IsSpace(r) <==> IsSpace(c)
    ensures !IsUpper(r)
  {
    if IsUpper(c) then (c as int + 32) as char else c
  }

  function UpperChar(c: char): (r: char)
    ensures IsCased(r) <==> IsCased(c)
    ensures IsSpace(r) <==> IsSpace(c)
    ensures !IsLower(r) || r == '\U{DF}' || r == '\U{FF}'
  {
    if IsLower(c) && c != '\U{DF}' && c != '\U{FF}' then (c as int - 32) as char else c
  }

  // ---------------------------------------------------------------------------
  // Case conversion

  /** `s.lower()` */
  function Lower(s: string): (r: string)
    ensures |r| == |s|
    ensures forall i | 0 <= i < |s| :: r[i] == LowerChar(s[i])
  {
    seq(|s|, i requires 0 <= i < |s| => LowerChar(s[i]))
  }

  /** A string with no upper-case letter is its own lower-case form. */
  lemma LowerOfLowered(s: string)
    requires forall i | 0 <= i < |s| :: !IsUpper(s[i])
    ensures Lower(s) == s
  {
  }

  lemma LowerIdempotent(s: string)
    ensures Lower(Lower(s)) == Lower(s)
  {
    LowerOfLowered(Lower(s));
  }

  /** `s.title()`: the first cased character of every run of cased characters
      is upper-cased and the rest are lower-cased. */
  function Title(s: string): (r: string)
    ensures |r| == |s|
    ensures forall i | 0 <= i < |s| :: IsSpace(r[i]) <==> IsSpace(s[i])
    ensures forall i | 0 <= i < |s| :: IsCased(r[i]) <==> IsCased(s[i])
  {
    seq(|s|, i requires 0 <= i < |s| =>
      if i > 0 && IsCased(s[i - 1]) then LowerChar(s[i]) else UpperChar(s[i]))
  }

  lemma TitleIdempotent(s: string)
    ensures Title(Title(s)) == Title(s)
  {
    var t := Title(s);
    forall i | 0 <= i < |s|
      ensures Title(t)[i] == t[i]
    {
      if i > 0 && IsCased(s[i - 1]) {
        assert IsCased(t[i - 1]);
      } else if i > 0 {
        assert !IsCased(t[i - 1]);
      }
    }
  }

  // ---------------------------------------------------------------------------
  // Stripping and whitespace runs

  /** `r` ends `s`. */
  predicate IsSuffix(r: string, s: string) {
    |r| <= |s| && r == s[|s| - |r|..]
  }

  function TrimLeft(s: string): (r: string)
    ensures IsSuffix(r, s)
    ensures r == [] || !IsSpace(r[0])
    ensures forall i | 0 <= i < |s| - |r| :: IsSpace(s[i])
  {
    if s != [] && IsSpace(s[0]) then TrimLeft(s[1..]) else s
  }

  function TrimRight(s: string): (r: string)
    ensures r <= s
    ensures r == [] || !IsSpace(r[|r| - 1])
    ensures forall i | |r| <= i < |s| :: IsSpace(s[i])
  {
    if s != [] && IsSpace(s[|s| - 1]) then TrimRight(s[..|s| - 1]) else s
  }

  /** Neither end of the string is whitespace. */
  predicate Stripped(s: string) {
    s == [] || (!IsSpace(s[0]) && !IsSpace(s[|s| - 1]))
  }

  /** `s.strip()`: the longest infix of `s` with no whitespace at either end. */
  function Strip(s: string): (r: string)
    ensures Stripped(r)
    ensures Contains(s, r)
  {
    var l := TrimLeft(s);
    var r := TrimRight(l);
    var i := |s| - |l|;
    assert 0 <= i <= |s| && r <= s[i..];
    r
  }

  lemma StripStripped(s: string)
    requires Stripped(s)
    ensures Strip(s) == s
  {
  }

  lemma StripIdempotent(s: string)
    ensures Strip(Strip(s)) == Strip(s)
  {
    StripStripped(Strip(s));
  }

  /** Only whitespace and single spaces between non-space characters remain. */
  predicate Collapsed(s: string) {
    && (forall i | 0 <= i < |s| :: IsSpace(s[i]) ==> s[i] == ' ')
    && (forall i | 0 <= i < |s| - 1 :: !(IsSpace(s[i]) && IsSpace(s[i + 1])))
  }

  /** `re.sub(r'\s+', ' ', s)`: every maximal run of whitespace becomes one space. */
  function CollapseSpaces(s: string): (r: string)
    ensures |r| == 0 <==> |s| == 0
    ensures r != [] ==> (IsSpace(r[0]) <==> IsSpace(s[0]))
    ensures r != [] ==> (IsSpace(r[|r| - 1]) <==> IsSpace(s[|s| - 1]))
    ensures Collapsed(r)
    decreases |s|
  {
    if s == [] then []
    else if IsSpace(s[0]) then [' '] + CollapseSpaces(TrimLeft(s))
    else [s[0]] + CollapseSpaces(s[1..])
  }

  lemma {:induction false} CollapseSpacesFixed(s: string)
    requires Collapsed(s)
    ensures CollapseSpaces(s) == s
    decreases |s|
  {
    if s != [] {
      var t := s[1..];
      assert Collapsed(t) by {
        forall i | 0 <= i < |t| ensures IsSpace(t[i]) ==> t[i] == ' ' {
          assert t[i] == s[i + 1];
        }
        forall i | 0 <= i < |t| - 1 ensures !(IsSpace(t[i]) && IsSpace(t[i + 1])) {
          assert t[i] == s[i + 1] && t[i + 1] == s[i + 2];
        }
      }
      CollapseSpacesFixed(t);
      if IsSpace(s[0]) {
        assert t == [] || !IsSpace(t[0]) by {
          if t != [] { assert t[0] == s[1]; }
        }
        assert TrimLeft(s) == t;
        assert s[0] == ' ';
        assert s == [' '] + t;
      } else {
        assert s == [s[0]] + t;
      }
    }
  }

  // ---------------------------------------------------------------------------
  // Substrings and splitting

  /** Python's `sub in s`. */
  predicate Contains(s: string, sub: string) {
    exists i | 0 <= i <= |s| :: sub <= s[i..]
  }

  /** Whatever contains `a + b` contains `b`. */
  lemma ContainsTail(s: string, a: string, b: string)
    requires Contains(s, a + b)
    ensures Contains(s, b)
  {
    var i :| 0 <= i <= |s| && a + b <= s[i..];
    assert b <= s[i + |a|..];
  }

  /** A text containing a non-empty `sub` contains its first character. */
  lemma ContainsHead(s: string, sub: string)
    requires sub != [] && Contains(s, sub)
    ensures sub[0] in s
  {
    var i :| 0 <= i <= |s| && sub <= s[i..];
    assert s[i] == sub[0];
  }

  /** `s.split(c)[0]`: everything before the first `c`, or `s` itself. */
  function BeforeFirst(s: string, c: char): (r: string)
    ensures r <= s
    ensures c !in r
    ensures |r| < |s| ==> s[|r|] == c
  {
    if s == [] then []
    else if s[0] == c then []
    else [s[0]] + BeforeFirst(s[1..], c)
  }

  lemma {:induction false} BeforeFirstAbsent(s: string, c: char)
    requires c !in s
    ensures BeforeFirst(s, c) == s
  {
    if s != [] {
      BeforeFirstAbsent(s[1..], c);
    }
  }

  /** A prefix free of `c`, followed by `c`, is what `split(c)[0]` returns. */
  lemma {:induction false} BeforeFirstConcat(a: string, c: char, b: string)
    requires c !in a
    ensures BeforeFirst(a + [c] + b, c) == a
  {
    if a != [] {
      assert (a + [c] + b)[1..] == a[1..] + [c] + b;
      BeforeFirstConcat(a[1..], c, b);
    }
  }

  /** `s.replace(c, "")` for one character. */
  function Remove(s: string, c: char): (r: string)
    ensures c !in r
    ensures |r| <= |s|
    ensures forall x | x in r :: x in s
    ensures forall x | x in s && x != c :: x in r
  {
    if s == [] then []
    else if s[0] == c then Remove(s[1..], c)
    else [s[0]] + Remove(s[1..], c)
  }

  lemma {:induction false} RemoveAbsent(s: string, c: char)
    requires c !in s
    ensures Remove(s, c) == s
  {
    if s != [] {
      RemoveAbsent(s[1..], c);
    }
  }

  lemma {:induction false} RemoveConcat(a: string, b: string, c: char)
    ensures Remove(a + b, c) == Remove(a, c) + Remove(b, c)
  {
    if a != [] {
      assert (a + b)[1..] == a[1..] + b;
      RemoveConcat(a[1..], b, c);
    } else {
      assert a + b == b;
    }
  }

  /** Removing one character leaves the count of any other unchanged. */
  lemma {:induction false} CountRemove(s: string, c: char, d: char)
    requires c != d
    ensures Count(Remove(s, c), d) == Count(s, d)
  {
    if s != [] {
      CountRemove(s[1..], c, d);
      if s[0] != c {
        assert ([s[0]] + Remove(s[1..], c))[1..] == Remove(s[1..], c);
      }
    }
  }

  /** `s.replace(a, b)` for single characters. */
  function Replace(s: string, a: char, b: char): (r: string)
    ensures |r| == |s|
    ensures forall i | 0 <= i < |s| :: r[i] == if s[i] == a then b else s[i]
  {
    seq(|s|, i requires 0 <= i < |s| => if s[i] == a then b else s[i])
  }

  /** The replaced string without its first character is the rest, replaced. */
  lemma ReplaceTail(s: string, a: char, b: char)
    requires s != []
    ensures Replace(s, a, b)[1..] == Replace(s[1..], a, b)
  {
  }

  /** Replacing `a` by another character `b` leaves no `a`, turns every `a`
      into a `b`, and keeps the count of every other character. */
  lemma {:induction false} ReplaceCounts(s: string, a: char, b: char)
    requires a != b
    ensures a !in Replace(s, a, b)
    ensures Count(Replace(s, a, b), b) == Count(s, a) + Count(s, b)
    ensures forall c | c != a && c != b :: Count(Replace(s, a, b), c) == Count(s, c)
    decreases |s|
  {
    var r := Replace(s, a, b);
    if s != [] {
      ReplaceTail(s, a, b);
      ReplaceCounts(s[1..], a, b);
      assert a !in r by {
        forall i | 0 <= i < |r| ensures r[i] != a {
          if i > 0 {
            assert r[i] == Replace(s[1..], a, b)[i - 1];
          }
        }
      }
    }
  }

  // ---------------------------------------------------------------------------
  // Decimal numbers

  predicate AllDigits(s: string) {
    forall i | 0 <= i < |s| :: IsDigit(s[i])
  }

  function DigitValue(c: char): (d: nat)
    requires IsDigit(c)
    ensures d < 10
  {
    c as int - '0' as int
  }

  function DigitChar(d: nat): (c: char)
    requires d < 10
    ensures IsDigit(c) && DigitValue(c) == d
  {
    ('0' as int + d) as char
  }

  /** `int(s)` for a run of ASCII digits (the empty run reads as 0). */
  function DigitsValue(s: string): nat
    requires AllDigits(s)
  {
    if s == [] then 0 else DigitsValue(s[..|s| - 1]) * 10 + DigitValue(s[|s| - 1])
  }

  /** `str(n)` for a natural number. */
  function NatToString(n: nat): (r: string)
    ensures r != [] && AllDigits(r)
  {
    if n < 10 then [DigitChar(n)] else NatToString(n / 10) + [DigitChar(n % 10)]
  }

  /** `int(str(n)) == n`, so `str` is injective on natural numbers. */
  lemma {:induction false} NatToStringRoundTrip(n: nat)
    ensures DigitsValue(NatToString(n)) == n
  {
    if n >= 10 {
      NatToStringRoundTrip(n / 10);
      var s := NatToString(n);
      assert s[..|s| - 1] == NatToString(n / 10);
    }
  }

  function Pow10(k: nat): (r: nat)
    ensures r >= 1
  {
    if k == 0 then 1 else 10 * Pow10(k - 1)
  }

  predicate DigitsAndDots(s: string) {
    forall i | 0 <= i < |s| :: IsDigit(s[i]) || s[i] == '.'
  }

  /** `s.count(c)` for one character. */
  function Count(s: string, c: char): (n: nat)
    ensures n == 0 <==> c !in s
  {
    if s == [] then 0 else (if s[0] == c then 1 else 0) + Count(s[1..], c)
  }

  lemma {:induction false} CountConcat(a: string, b: string, c: char)
    ensures Count(a + b, c) == Count(a, c) + Count(b, c)
  {
    if a != [] {
      assert (a + b)[0] == a[0];
      assert (a + b)[1..] == a[1..] + b;
      CountConcat(a[1..], b, c);
    } else {
      assert a + b == b;
    }
  }

  /** No two positions holding `c` keep its count at one or less. */
  lemma {:induction false} CountAtMostOne(s: string, c: char)
    requires forall i, j | 0 <= i < j < |s| :: s[i] == c ==> s[j] != c
    ensures Count(s, c) <= 1
  {
    if s != [] {
      var t := s[1..];
      forall i, j | 0 <= i < j < |t| ensures t[i] == c ==> t[j] != c {
        assert t[i] == s[i + 1] && t[j] == s[j + 1];
      }
      CountAtMostOne(t, c);
      if s[0] == c {
        forall k | 0 <= k < |t| ensures t[k] != c {
          assert t[k] == s[k + 1];
        }
      }
    }
  }

  /** Splitting at the first dot: what precedes it, the dot, and the rest,
      which holds every further dot. */
  lemma DotSplit(s: string)
    requires '.' in s
    ensures var whole := BeforeFirst(s, '.');
      && |whole| < |s|
      && s == whole + ['.'] + s[|whole| + 1..]
      && Count(s, '.') == 1 + Count(s[|whole| + 1..], '.')
  {
    var whole := BeforeFirst(s, '.');
    if |whole| == |s| {
      assert false;
    }
    var frac := s[|whole| + 1..];
    assert s == whole + ['.'] + frac;
    CountConcat(whole + ['.'], frac, '.');
    CountConcat(whole, ['.'], '.');
  }

  /** Two positions holding `c` make its count at least two. */
  lemma CountTwo(s: string, c: char, i: nat, j: nat)
    requires i < j < |s| && s[i] == c && s[j] == c
    ensures Count(s, c) >= 2
  {
    assert s == s[..j] + s[j..];
    CountConcat(s[..j], s[j..], c);
    assert s[..j][i] == c;
    assert s[j..][0] == c;
  }

  /** The number written `whole.frac`. */
  function DecimalValue(whole: string, frac: string): real
    requires AllDigits(whole) && AllDigits(frac)
  {
    DigitsValue(whole) as real + DigitsValue(frac) as real / Pow10(|frac|) as real
  }

  /** `float(s)` for a string made of ASCII digits and dots: it succeeds exactly
      when `s` holds at least one digit and at most one dot, and then reads
      the digits before the dot as the integer part and those after it as the
      fraction. */
  function ParseDecimal(s: string): (r: Option<real>)
    requires DigitsAndDots(s)
    ensures r.Some? <==> (exists i | 0 <= i < |s| :: IsDigit(s[i])) && Count(s, '.') <= 1
    ensures r.Some? && '.' !in s ==> AllDigits(s) && r.value == DigitsValue(s) as real
    ensures r.Some? && '.' in s ==>
      var whole := BeforeFirst(s, '.');
      && |whole| < |s| && AllDigits(whole) && AllDigits(s[|whole| + 1..])
      && r.value == DecimalValue(whole, s[|whole| + 1..])
  {
    if '.' !in s then
      BeforeFirstAbsent(s, '.');
      if s == [] then None else assert IsDigit(s[0]); Some(DigitsValue(s) as real)
    else
      DotSplit(s);
      var whole := BeforeFirst(s, '.');
      var frac := s[|whole| + 1..];
      if '.' in frac || (whole == [] && frac == []) then
        assert whole == [] && frac == [] ==> s == ['.'];
        None
      else
        assert (exists i | 0 <= i < |s| :: IsDigit(s[i])) by {
          if whole != [] { assert IsDigit(s[0]); } else { assert IsDigit(s[1]); }
        }
        Some(DecimalValue(whole, frac))
  }

  /** `float("a.b")` for two digit runs is `a + b / 10^|b|`. */
  lemma DecimalParts(a: string, b: string)
    requires a != [] && b != [] && AllDigits(a) && AllDigits(b)
    ensures DigitsAndDots(a + "." + b)
    ensures ParseDecimal(a + "." + b) == Some(DecimalValue(a, b))
  {
    var s := a + "." + b;
    assert '.' !in a;
    assert s[|a|] == '.';
    BeforeFirstConcat(a, '.', b);
    assert s[|a| + 1..] == b;
    assert '.' !in b;
    CountConcat(a + ".", b, '.');
    CountConcat(a, ".", '.');
    assert IsDigit(s[0]);
  }
}
