/** LoadByteSize: a size such as "64 KiB" is trimmed, split by a regular expression,
    parsed, and scaled by a unit table.  Inputs are ASCII text. */
module ByteSize {
  import opened GoText

  // ----- character classes -----

  /** The ASCII characters strings.TrimSpace removes. */
  predicate IsSpace(c: byte) { 9 <= c as int <= 13 || c == ' ' }

  /** The regular expression's \s, which leaves out the vertical tab. */
  predicate RegexSpace(c: byte) { IsSpace(c) && c as int != 11 }

  predicate NumeralChar(c: byte) { IsDigit(c) || c == '.' }

  predicate All(p: byte -> bool, s: Bytes) { forall i :: 0 <= i < |s| ==> p(s[i]) }

  function LowerChar(c: byte): byte {
    if 'A' <= c <= 'Z' then (c as int + 32) as char else c
  }

  /** strings.ToLower on ASCII. */
  function Lower(s: Bytes): Bytes { seq(|s|, i requires 0 <= i < |s| => LowerChar(s[i])) }

  // ----- trimming and splitting -----

  /** The length of the longest prefix of characters in p. */
  function Span(p: byte -> bool, s: Bytes): (n: nat)
    ensures n <= |s| && All(p, s[..n])
    ensures n < |s| ==> !p(s[n])
  {
    if s == [] || !p(s[0]) then 0
    else
      var n := Span(p, s[1..]);
      assert s[..n + 1] == [s[0]] + s[1..][..n];
      n + 1
  }

  function TrimRight(s: Bytes): (t: Bytes)
  {
    if s == [] || !IsSpace(s[|s| - 1]) then s else TrimRight(s[..|s| - 1])
  }

  /** strings.TrimSpace */
  function Trim(s: Bytes): Bytes { TrimRight(s[Span(IsSpace, s)..]) }

  predicate SizePrefix(c: byte) { c in ['k', 'm', 'g', 't', 'p', 'e', 'z', 'y'] }

  /** The unit part of the expression: an optional size letter, an optional i, an
      optional b, in either case. */
  predicate UnitPattern(unit: Bytes) {
    var u := Lower(unit);
    var v := if u != [] && SizePrefix(u[0]) then u[1..] else u;
    v == [] || v == ['i'] || v == ['b'] || v == ['i', 'b']
  }

  /** The regular expression as a relation between a text and its two groups. */
  predicate Splits(s: Bytes, numeral: Bytes, gap: Bytes, unit: Bytes) {
    && s == numeral + gap + unit
    && numeral != [] && All(NumeralChar, numeral)
    && All(RegexSpace, gap)
    && UnitPattern(unit)
  }

  /** FindStringSubmatch, by longest runs from the left. */
  function Match(s: Bytes): Option<(Bytes, Bytes)> {
    var n := Span(NumeralChar, s);
    var rest := s[n..];
    var unit := rest[Span(RegexSpace, rest)..];
    if n > 0 && UnitPattern(unit) then Some((s[..n], unit)) else None
  }

  lemma {:induction false} SpanStops(p: byte -> bool, a: Bytes, b: Bytes)
    requires All(p, a) && (b == [] || !p(b[0]))
    ensures Span(p, a + b) == |a| && (a + b)[..|a|] == a && (a + b)[|a|..] == b
  {
    if a != [] {
      assert (a + b)[1..] == a[1..] + b;
      SpanStops(p, a[1..], b);
    } else {
      assert a + b == b;
    }
  }

  lemma UnitStart(unit: Bytes)
    requires UnitPattern(unit) && unit != []
    ensures !NumeralChar(unit[0]) && !IsSpace(unit[0]) && !IsSpace(unit[|unit| - 1])
  {
    var u := Lower(unit);
    assert u[0] == LowerChar(unit[0]);
    assert u[|u| - 1] == LowerChar(unit[|unit| - 1]);
  }

  lemma SplitsMatch(s: Bytes, numeral: Bytes, gap: Bytes, unit: Bytes)
    requires Splits(s, numeral, gap, unit)
    ensures Match(s) == Some((numeral, unit))
  {
    if unit != [] {
      UnitStart(unit);
    }
    assert s == numeral + (gap + unit);
    SpanStops(NumeralChar, numeral, gap + unit);
    SpanStops(RegexSpace, gap, unit);
  }

  lemma Cut(s: Bytes, n: nat, middle: Bytes, right: Bytes)
    requires n <= |s| && s[n..] == middle + right
    ensures s == s[..n] + middle + right
  {
    assert s == s[..n] + s[n..];
  }

  lemma MatchSplits(s: Bytes, numeral: Bytes, unit: Bytes) returns (gap: Bytes)
    requires Match(s) == Some((numeral, unit))
    ensures Splits(s, numeral, gap, unit)
  {
    var n := Span(NumeralChar, s);
    var rest := s[n..];
    gap := rest[..Span(RegexSpace, rest)];
    Cut(s, n, gap, unit);
  }

  /** A text splits in at most one way, and Match finds it. */
  lemma MatchIff(s: Bytes, numeral: Bytes, unit: Bytes)
    ensures Match(s) == Some((numeral, unit)) <==> exists gap :: Splits(s, numeral, gap, unit)
  {
    if gap :| Splits(s, numeral, gap, unit) {
      SplitsMatch(s, numeral, gap, unit);
    }
    if Match(s) == Some((numeral, unit)) {
      var gap := MatchSplits(s, numeral, unit);
    }
  }

  lemma {:induction false} TrimRightStops(core: Bytes, right: Bytes)
    requires core != [] && !IsSpace(core[|core| - 1]) && All(IsSpace, right)
    ensures TrimRight(core + right) == core
  {
    if right == [] {
      assert core + right == core;
    } else {
      assert (core + right)[..|core + right| - 1] == core + right[..|right| - 1];
      TrimRightStops(core, right[..|right| - 1]);
    }
  }

  lemma TrimStops(left: Bytes, core: Bytes, right: Bytes)
    requires core != [] && !IsSpace(core[0]) && !IsSpace(core[|core| - 1])
    requires All(IsSpace, left) && All(IsSpace, right)
    ensures Trim(left + core + right) == core
  {
    assert left + core + right == left + (core + right);
    SpanStops(IsSpace, left, core + right);
    TrimRightStops(core, right);
  }

  lemma {:induction false} TrimRightSplit(s: Bytes) returns (right: Bytes)
    ensures s == TrimRight(s) + right && All(IsSpace, right)
  {
    if s == [] || !IsSpace(s[|s| - 1]) {
      right := [];
    } else {
      right := TrimRightSplit(s[..|s| - 1]);
      right := right + [s[|s| - 1]];
    }
  }

  // ----- numerals -----

  /** 2 to the power 97. */
  const STEP := 0x2_0000_0000_0000_0000_0000_0000

  /** (2^54 - 1) * 2^970, half a step above the largest float64: from here on a
      numeral rounds to infinity. */
  const FLOAT_LIMIT: nat :=
    0x3f_ffff_ffff_ffff * STEP * STEP * STEP * STEP * STEP * STEP * STEP * STEP * STEP * STEP

  /** The limit for a mantissa with some of its digits behind the dot. */
  function Limit(places: nat): nat {
    if places == 0 then FLOAT_LIMIT else 10 * Limit(places - 1)
  }

  predicate NotDot(c: byte) { c != '.' }

  /** The digits of a numeral and how many of them follow its dot. */
  function DigitSplit(s: Bytes): Option<(Bytes, nat)> {
    var n := Span(NotDot, s);
    var (whole, fraction) := (s[..n], if n < |s| then s[n + 1..] else []);
    if AllDigits(whole + fraction) && whole + fraction != []
    then Some((whole + fraction, |fraction|)) else None
  }

  /** strconv.ParseFloat on digits and dots: the numeral denotes the digits' value
      divided by 10 to the number of places; a huge one is a range error. */
  function Numeral(s: Bytes): Option<(nat, nat)> {
    match DigitSplit(s)
    case None => None
    case Some((digits, places)) =>
      if DigitsValue(digits) < Limit(places) then Some((DigitsValue(digits), places)) else None
  }

  /** The grammar of numerals: digits, or digits with one dot put in before the last
      `places` of them. */
  predicate Denotes(s: Bytes, digits: Bytes, places: nat) {
    && digits != [] && AllDigits(digits)
    && places <= |digits|
    && var whole := |digits| - places;
       s == digits[..whole] + ['.'] + digits[whole..] || (places == 0 && s == digits)
  }

  lemma DotSplit(a: Bytes, b: Bytes)
    requires AllDigits(a)
    ensures Span(NotDot, a) == |a|
    ensures Span(NotDot, a + ['.'] + b) == |a|
    ensures (a + ['.'] + b)[..|a|] == a && (a + ['.'] + b)[|a| + 1..] == b
  {
    assert a + [] == a;
    SpanStops(NotDot, a, []);
    assert a + ['.'] + b == a + (['.'] + b);
    SpanStops(NotDot, a, ['.'] + b);
  }

  lemma DenotesSplit(s: Bytes, digits: Bytes, places: nat)
    requires Denotes(s, digits, places)
    ensures DigitSplit(s) == Some((digits, places))
  {
    var whole := |digits| - places;
    DotSplit(digits[..whole], digits[whole..]);
    assert digits[..whole] + digits[whole..] == digits;
    assert digits + [] == digits && digits[..|digits|] == digits;
  }

  lemma SplitDenotes(s: Bytes, digits: Bytes, places: nat)
    requires DigitSplit(s) == Some((digits, places))
    ensures Denotes(s, digits, places)
  {
    var n := Span(NotDot, s);
    if n < |s| {
      assert digits[..n] == s[..n] && digits[n..] == s[n + 1..];
      assert s == s[..n] + ['.'] + s[n + 1..];
    } else {
      assert s[..n] == s;
    }
  }

  /** ParseFloat's digits are those of the one way the grammar reads the numeral. */
  lemma DigitSplitIff(s: Bytes, digits: Bytes, places: nat)
    ensures DigitSplit(s) == Some((digits, places)) <==> Denotes(s, digits, places)
  {
    if Denotes(s, digits, places) {
      DenotesSplit(s, digits, places);
    }
    if DigitSplit(s) == Some((digits, places)) {
      SplitDenotes(s, digits, places);
    }
  }

  // ----- units -----

  const UNITS: map<Bytes, nat> := map[
    "b" := 1,
    "kb" := 1_000,
    "mb" := 1_000_000,
    "gb" := 1_000_000_000,
    "tb" := 1_000_000_000_000,
    "pb" := 1_000_000_000_000_000,
    "eb" := 1_000_000_000_000_000_000,
    "zb" := 1_000_000_000_000_000_000_000,
    "yb" := 1_000_000_000_000_000_000_000_000,
    "kib" := 0x400,
    "mib" := 0x10_0000,
    "gib" := 0x4000_0000,
    "tib" := 0x100_0000_0000,
    "pib" := 0x4_0000_0000_0000,
    "eib" := 0x1000_0000_0000_0000]

  function Multiplier(unit: Bytes): Option<nat> {
    var u: Bytes := if unit == [] then "b" else Lower(unit);
    if u in UNITS then Some(UNITS[u]) else None
  }

  lemma UnitsMatchPattern(unit: Bytes)
    ensures Multiplier(unit).Some? ==> UnitPattern(unit)
  {
    if unit != [] && Lower(unit) in UNITS {
      var u := Lower(unit);
      if SizePrefix(u[0]) {
        assert u[1..] == ['b'] || u[1..] == ['i', 'b'];
      }
    }
  }

  /** The expression admits more units than the table: a lone size letter, a lone
      `i`, and `ib`, `zib` and `yib` pass the expression and are refused after it. */
  lemma PatternBeyondTable(unit: Bytes)
    requires UnitPattern(unit)
    ensures var u := Lower(unit);
            Multiplier(unit) == None <==>
            u != [] && (u[|u| - 1] != 'b' || u == ['i', 'b'] || u == ['z', 'i', 'b'] || u == ['y', 'i', 'b'])
  {
    var u := Lower(unit);
    if u != [] {
      if SizePrefix(u[0]) {
        var v := u[1..];
        assert u == [u[0]] + v;
        assert v == ['b'] ==> u == [u[0], 'b'];
        assert v == ['i', 'b'] ==> u == [u[0], 'i', 'b'];
      }
    }
  }

  /** A float64 is an integer multiple of 2 to the power -1074. */
  const MIN_EXPONENT: nat := 1074

  // ----- what a unit is worth -----

  function Pow(b: nat, e: nat): nat { if e == 0 then 1 else b * Pow(b, e - 1) }

  const SMALL: Bytes := "kmgtpezy"
  const LARGE: Bytes := "KMGTPEZY"

  /** The k-th size letter, in either case. */
  predicate SizeLetter(c: byte, k: nat) { 1 <= k <= 8 && (c == SMALL[k - 1] || c == LARGE[k - 1]) }

  predicate ByteLetter(c: byte) { c == 'b' || c == 'B' }

  /** The k-th decimal unit: kB, MB, ..., YB. */
  predicate DecimalUnit(unit: Bytes, k: nat) { |unit| == 2 && SizeLetter(unit[0], k) && ByteLetter(unit[1]) }

  /** The k-th binary unit: KiB, MiB, ..., EiB. */
  predicate BinaryUnit(unit: Bytes, k: nat) {
    |unit| == 3 && k <= 6 && SizeLetter(unit[0], k) && (unit[1] == 'i' || unit[1] == 'I') && ByteLetter(unit[2])
  }

  predicate PlainUnit(unit: Bytes) { unit == [] || (|unit| == 1 && ByteLetter(unit[0])) }

  /** A unit and its worth: one, a power of a thousand, or a power of 2^10. */
  ghost predicate Worth(unit: Bytes, worth: nat) {
    || (PlainUnit(unit) && worth == 1)
    || (exists k: nat :: DecimalUnit(unit, k) && worth == Pow(10, 3 * k))
    || (exists k: nat :: BinaryUnit(unit, k) && worth == Pow(2, 10 * k))
  }

  lemma Thousandfold(e: nat)
    ensures Pow(10, e + 3) == 1000 * Pow(10, e)
  {
    assert Pow(10, e + 1) == 10 * Pow(10, e);
    assert Pow(10, e + 2) == 10 * Pow(10, e + 1);
    assert Pow(10, e + 3) == 10 * Pow(10, e + 2);
  }

  lemma Sixteenfold(e: nat)
    ensures Pow(2, e + 4) == 16 * Pow(2, e)
  {
    assert Pow(2, e + 1) == 2 * Pow(2, e);
    assert Pow(2, e + 2) == 2 * Pow(2, e + 1);
    assert Pow(2, e + 3) == 2 * Pow(2, e + 2);
    assert Pow(2, e + 4) == 2 * Pow(2, e + 3);
  }

  lemma Kibifold(e: nat)
    ensures Pow(2, e + 10) == 1024 * Pow(2, e)
  {
    Sixteenfold(e);
    Sixteenfold(e + 4);
    assert Pow(2, e + 9) == 2 * Pow(2, e + 8);
    assert Pow(2, e + 10) == 2 * Pow(2, e + 9);
  }

  lemma PowersOfThousand()
    ensures Pow(10, 3) == 1_000 && Pow(10, 6) == 1_000_000 && Pow(10, 9) == 1_000_000_000
    ensures Pow(10, 12) == 1_000_000_000_000 && Pow(10, 15) == 1_000_000_000_000_000
    ensures Pow(10, 18) == 1_000_000_000_000_000_000 && Pow(10, 21) == 1_000_000_000_000_000_000_000
    ensures Pow(10, 24) == 1_000_000_000_000_000_000_000_000
  {
    assert Pow(10, 0) == 1;
    Thousandfold(0);
    Thousandfold(3);
    Thousandfold(6);
    Thousandfold(9);
    Thousandfold(12);
    Thousandfold(15);
    Thousandfold(18);
    Thousandfold(21);
  }

  lemma PowersOfKibi()
    ensures Pow(2, 10) == 0x400 && Pow(2, 20) == 0x10_0000 && Pow(2, 30) == 0x4000_0000
    ensures Pow(2, 40) == 0x100_0000_0000 && Pow(2, 50) == 0x4_0000_0000_0000
    ensures Pow(2, 60) == 0x1000_0000_0000_0000
  {
    assert Pow(2, 0) == 1;
    Kibifold(0);
    Kibifold(10);
    Kibifold(20);
    Kibifold(30);
    Kibifold(40);
    Kibifold(50);
  }

  lemma DecimalWorth(unit: Bytes, k: nat)
    requires DecimalUnit(unit, k)
    ensures Multiplier(unit) == Some(Pow(10, 3 * k))
  {
    PowersOfThousand();
    hide Pow;
    assert Lower(unit) == [SMALL[k - 1], 'b'];
  }

  lemma BinaryWorth(unit: Bytes, k: nat)
    requires BinaryUnit(unit, k)
    ensures Multiplier(unit) == Some(Pow(2, 10 * k)) && 10 * k <= MIN_EXPONENT
  {
    PowersOfKibi();
    hide Pow;
    assert Lower(unit) == [SMALL[k - 1], 'i', 'b'];
  }

  lemma PlainWorth(unit: Bytes)
    requires PlainUnit(unit)
    ensures Multiplier(unit) == Some(1)
  {
    if unit != [] {
      assert Lower(unit) == ['b'];
    }
  }

  /** Only the letters themselves become small letters. */
  lemma LowerLetter(c: byte, k: nat)
    requires 1 <= k <= 8
    ensures LowerChar(c) == SMALL[k - 1] <==> SizeLetter(c, k)
    ensures LowerChar(c) == 'b' <==> ByteLetter(c)
    ensures LowerChar(c) == 'i' <==> c == 'i' || c == 'I'
  {
  }

  function SizeRank(c: byte): nat {
    if c == 'k' then 1 else if c == 'm' then 2 else if c == 'g' then 3 else if c == 't' then 4
    else if c == 'p' then 5 else if c == 'e' then 6 else if c == 'z' then 7 else 8
  }

  /** Whatever the table knows is a plain, a decimal or a binary unit. */
  lemma KnownUnits(unit: Bytes)
    requires Multiplier(unit).Some?
    ensures PlainUnit(unit) || (exists k: nat :: DecimalUnit(unit, k)) || exists k: nat :: BinaryUnit(unit, k)
  {
    if unit != [] {
      var u := Lower(unit);
      assert forall i :: 0 <= i < |unit| ==> u[i] == LowerChar(unit[i]);
      LowerLetter(unit[|unit| - 1], 1);
      if |u| == 2 {
        var k := SizeRank(u[0]);
        LowerLetter(unit[0], k);
        assert DecimalUnit(unit, k);
      } else if |u| == 3 {
        var k := SizeRank(u[0]);
        LowerLetter(unit[0], k);
        LowerLetter(unit[1], k);
        assert BinaryUnit(unit, k);
      }
    }
  }

  /** The table gives exactly the decimal units their powers of a thousand, the binary
      units up to EiB their powers of 1024, and one to a lone b and to no unit. */
  lemma WorthIff(unit: Bytes, worth: nat)
    ensures Multiplier(unit) == Some(worth) <==> Worth(unit, worth)
  {
    if Multiplier(unit).Some? {
      KnownUnits(unit);
    }
    if PlainUnit(unit) {
      PlainWorth(unit);
    }
    forall k: nat | DecimalUnit(unit, k)
      ensures Multiplier(unit) == Some(Pow(10, 3 * k))
    {
      DecimalWorth(unit, k);
    }
    forall k: nat | BinaryUnit(unit, k)
      ensures Multiplier(unit) == Some(Pow(2, 10 * k))
    {
      BinaryWorth(unit, k);
    }
  }

  // ----- loading -----

  datatype Loaded =
    | InvalidFormat
    | BadNumeral
    | UnknownUnit
    | Accepted(mantissa: nat, places: nat, multiplier: nat)

  /** The two checks after the regular expression. */
  function Scale(numeral: Bytes, unit: Bytes): Loaded {
    match Numeral(numeral)
    case None => BadNumeral
    case Some((mantissa, places)) =>
      match Multiplier(unit)
      case None => UnknownUnit
      case Some(multiplier) => Accepted(mantissa, places, multiplier)
  }

  function Load(s: Bytes): Loaded {
    match Match(Trim(s))
    case None => InvalidFormat
    case Some((numeral, unit)) => Scale(numeral, unit)
  }

  /** A reading of a size text. */
  datatype Parts = Parts(left: Bytes, numeral: Bytes, digits: Bytes, gap: Bytes, unit: Bytes, right: Bytes)

  predicate Spells(p: Parts, s: Bytes) {
    && s == p.left + p.numeral + p.gap + p.unit + p.right
    && All(IsSpace, p.left) && All(RegexSpace, p.gap) && All(IsSpace, p.right)
  }

  predicate Means(p: Parts, l: Loaded) {
    && l.Accepted?
    && Denotes(p.numeral, p.digits, l.places) && l.mantissa == DigitsValue(p.digits)
    && l.mantissa < Limit(l.places)
    && Multiplier(p.unit) == Some(l.multiplier)
  }

  lemma NumeralChars(numeral: Bytes, digits: Bytes, places: nat)
    requires Denotes(numeral, digits, places)
    ensures numeral != [] && All(NumeralChar, numeral)
  {
  }

  lemma ScaleMeans(p: Parts, l: Loaded)
    requires Means(p, l)
    ensures Scale(p.numeral, p.unit) == l
  {
    DigitSplitIff(p.numeral, p.digits, l.places);
  }

  lemma MeansScale(p: Parts)
    requires Scale(p.numeral, p.unit).Accepted?
    ensures DigitSplit(p.numeral).Some?
    ensures Means(p.(digits := DigitSplit(p.numeral).value.0), Scale(p.numeral, p.unit))
  {
    var (digits, places) := DigitSplit(p.numeral).value;
    DigitSplitIff(p.numeral, digits, places);
  }

  /** Trimming a reading leaves the numeral and the unit, which split again. */
  lemma TrimReading(s: Bytes, p: Parts)
    requires Spells(p, s)
    requires p.numeral != [] && All(NumeralChar, p.numeral) && UnitPattern(p.unit)
    ensures Match(Trim(s)) == Some((p.numeral, p.unit))
  {
    var gap := if p.unit == [] then [] else p.gap;
    var right := if p.unit == [] then p.gap + p.right else p.right;
    var core := p.numeral + gap + p.unit;
    assert s == p.left + core + right;
    if p.unit == [] {
      assert core == p.numeral;
    } else {
      UnitStart(p.unit);
      assert core[|core| - 1] == p.unit[|p.unit| - 1];
    }
    assert core[0] == p.numeral[0];
    TrimStops(p.left, core, right);
    SplitsMatch(core, p.numeral, gap, p.unit);
  }

  lemma TrimSplit(s: Bytes) returns (left: Bytes, right: Bytes)
    ensures s == left + Trim(s) + right && All(IsSpace, left) && All(IsSpace, right)
  {
    var n := Span(IsSpace, s);
    left := s[..n];
    right := TrimRightSplit(s[n..]);
    Cut(s, n, Trim(s), right);
  }

  lemma Regroup(left: Bytes, numeral: Bytes, gap: Bytes, unit: Bytes, right: Bytes)
    ensures left + (numeral + gap + unit) + right == left + numeral + gap + unit + right
  {
  }

  lemma LoadSpells(s: Bytes, numeral: Bytes, unit: Bytes) returns (p: Parts)
    requires Match(Trim(s)) == Some((numeral, unit))
    ensures Spells(p, s) && p.numeral == numeral && p.unit == unit
  {
    var left, right := TrimSplit(s);
    var gap := MatchSplits(Trim(s), numeral, unit);
    Regroup(left, numeral, gap, unit, right);
    p := Parts(left, numeral, [], gap, unit, right);
  }

  lemma MeaningfulParts(p: Parts, l: Loaded)
    requires Means(p, l)
    ensures p.numeral != [] && All(NumeralChar, p.numeral) && UnitPattern(p.unit)
  {
    NumeralChars(p.numeral, p.digits, l.places);
    UnitsMatchPattern(p.unit);
  }

  lemma ReadsLoads(s: Bytes, p: Parts, l: Loaded)
    requires Spells(p, s) && Means(p, l)
    ensures Load(s) == l
  {
    MeaningfulParts(p, l);
    TrimReading(s, p);
    ScaleMeans(p, l);
  }

  lemma LoadsReads(s: Bytes, l: Loaded) returns (p: Parts)
    requires Load(s) == l && l.Accepted?
    ensures Spells(p, s) && Means(p, l)
  {
    var (numeral, unit) := Match(Trim(s)).value;
    p := LoadSpells(s, numeral, unit);
    MeansScale(p);
    p := p.(digits := DigitSplit(numeral).value.0);
  }

  /** The whole check accepts exactly the grammar: spaces, a numeral within float64
      range, regular-expression spaces, a unit of the table or none, spaces. */
  lemma LoadIff(s: Bytes, l: Loaded)
    requires l.Accepted?
    ensures Load(s) == l <==> exists p :: Spells(p, s) && Means(p, l)
  {
    if Load(s) == l {
      var p := LoadsReads(s, l);
    }
    if p :| Spells(p, s) && Means(p, l) {
      ReadsLoads(s, p, l);
    }
  }

  // ----- what float64 holds exactly -----

  /** 2 to the power 53: the significand of a float64 stays below it. */
  const MAX_SIGNIFICAND := 0x20_0000_0000_0000

  /** n / 5^e where that is an integer. */
  function Fifths(n: nat, e: nat): Option<nat> {
    if e == 0 then Some(n) else if n % 5 == 0 then Fifths(n / 5, e - 1) else None
  }

  /** n without its factors of two. */
  function Odd(n: nat): nat { if n == 0 || n % 2 == 1 then n else Odd(n / 2) }

  /** The exponent of the denominator of n / 2^q in lowest terms. */
  function Denominator(n: nat, q: nat): nat {
    if q == 0 || n % 2 == 1 then q else Denominator(n / 2, q - 1)
  }

  /** Whether n / 2^q, within range, is a float64. */
  predicate Representable(n: nat, q: nat) {
    Odd(n) < MAX_SIGNIFICAND && Denominator(n, q) <= MIN_EXPONENT
  }

  /** n / 2^q == f * 2^up / 2^down */
  ghost predicate IsFloat(n: nat, q: nat, f: nat, up: nat, down: nat) {
    && f < MAX_SIGNIFICAND && down <= MIN_EXPONENT
    && n * Pow(2, down) == f * Pow(2, up) * Pow(2, q)
  }

  lemma DoubleRight(a: nat, h: nat)
    ensures a * (2 * h) == 2 * (a * h)
  {
  }

  lemma DoubleLeft(h: nat, b: nat)
    ensures (2 * h) * b == 2 * (h * b)
  {
  }

  lemma OddTwice(n: nat)
    ensures Odd(2 * n) == Odd(n)
  {
    assert (2 * n) / 2 == n;
  }

  lemma {:induction false} OddTimes(n: nat, e: nat)
    ensures Odd(n * Pow(2, e)) == Odd(n)
  {
    if e > 0 {
      OddTimes(n, e - 1);
      OddTwice(n * Pow(2, e - 1));
      DoubleRight(n, Pow(2, e - 1));
    } else {
      assert n * 1 == n;
    }
  }

  lemma {:induction false} OddSplit(n: nat) returns (e: nat)
    ensures n == Odd(n) * Pow(2, e)
  {
    if n == 0 || n % 2 == 1 {
      e := 0;
    } else {
      e := OddSplit(n / 2);
      DoubleRight(Odd(n), Pow(2, e));
      e := e + 1;
    }
  }

  lemma {:induction false} OddBelow(n: nat)
    ensures Odd(n) <= n
    ensures n % 2 == 0 ==> Odd(n) <= n / 2
  {
    if n > 0 && n % 2 == 0 {
      OddBelow(n / 2);
    }
  }

  /** No smaller power of two clears the denominator. */
  lemma {:induction false} DenominatorLeast(n: nat, q: nat, down: nat, whole: nat)
    requires n * Pow(2, down) == whole * Pow(2, q)
    ensures Denominator(n, q) <= down
  {
    if q > 0 {
      DoubleRight(whole, Pow(2, q - 1));
      if n % 2 == 0 {
        DoubleLeft(n / 2, Pow(2, down));
        DenominatorLeast(n / 2, q - 1, down, whole);
      } else if down > 0 {
        DoubleRight(n, Pow(2, down - 1));
        DenominatorLeast(n, q - 1, down - 1, whole);
      }
    }
  }

  lemma {:induction false} DenominatorClears(n: nat, q: nat) returns (whole: nat)
    ensures n * Pow(2, Denominator(n, q)) == whole * Pow(2, q)
  {
    if q == 0 || n % 2 == 1 {
      whole := n;
    } else {
      whole := DenominatorClears(n / 2, q - 1);
      DoubleLeft(n / 2, Pow(2, Denominator(n, q)));
      DoubleRight(whole, Pow(2, q - 1));
    }
  }

  lemma FloatIsRepresentable(n: nat, q: nat, f: nat, up: nat, down: nat)
    requires IsFloat(n, q, f, up, down)
    ensures Representable(n, q)
  {
    DenominatorLeast(n, q, down, f * Pow(2, up));
    OddTimes(n, down);
    OddTimes(f * Pow(2, up), q);
    OddTimes(f, up);
    OddBelow(f);
  }

  lemma RepresentableIsFloat(n: nat, q: nat) returns (f: nat, up: nat, down: nat)
    requires Representable(n, q)
    ensures IsFloat(n, q, f, up, down)
  {
    down := Denominator(n, q);
    var whole := DenominatorClears(n, q);
    OddTimes(n, down);
    OddTimes(whole, q);
    f := Odd(whole);
    up := OddSplit(whole);
  }

  /** The test is membership in the format: an integer significand below 2^53 times a
      power of two not below 2^-1074. */
  lemma RepresentableIff(n: nat, q: nat)
    ensures Representable(n, q) <==> exists f, up, down :: IsFloat(n, q, f, up, down)
  {
    if Representable(n, q) {
      var f, up, down := RepresentableIsFloat(n, q);
    }
    if f, up, down :| IsFloat(n, q, f, up, down) {
      FloatIsRepresentable(n, q, f, up, down);
    }
  }

  /** Numeral, unit and product are float64 values, so nothing is rounded; with k for
      the mantissa over 5^places, the numeral is k / 2^places. */
  predicate Exact(mantissa: nat, places: nat, multiplier: nat) {
    match Fifths(mantissa, places)
    case None => false
    case Some(k) =>
      k == 0 || (Representable(k, places) && Representable(multiplier, 0) && Representable(k * multiplier, places))
  }

  lemma {:induction false} PowPositive(b: nat, e: nat)
    requires b > 0
    ensures Pow(b, e) > 0
  {
    if e > 0 {
      PowPositive(b, e - 1);
    }
  }

  /** The number of bytes where float64 computes it without rounding: the product of
      the numeral and the unit, truncated, if it fits an int. */
  function ExactBytes(l: Loaded): Option<int64> {
    if l.Accepted? && Exact(l.mantissa, l.places, l.multiplier) then
      PowPositive(10, l.places);
      var bytes := l.mantissa * l.multiplier / Pow(10, l.places);
      if bytes <= MAX_INT64 then Some(bytes) else None
    else None
  }

  class WorkerConfig {
    var dataSizeBytes: int

    /** `rounded` is what the product converts to where float64 rounds it or it does
        not fit an int. */
    method LoadByteSize(s: Bytes, rounded: int) returns (outcome: Loaded)
      modifies this
      ensures outcome == Load(s)
      ensures !outcome.Accepted? ==> dataSizeBytes == old(dataSizeBytes)
      ensures outcome.Accepted? ==>
                dataSizeBytes == match ExactBytes(outcome) case Some(n) => n case None => rounded
    {
      var trimmed := Trim(s);
      var matches := Match(trimmed);
      if matches == None {
        return InvalidFormat;
      }
      var (numStr, unit) := matches.value;
      var num := Numeral(numStr);
      if num == None {
        return BadNumeral;
      }
      var multiplier := Multiplier(unit);
      if multiplier == None {
        return UnknownUnit;
      }
      outcome := Accepted(num.value.0, num.value.1, multiplier.value);
      var exact := ExactBytes(outcome);
      dataSizeBytes := match exact case Some(n) => n case None => rounded;
    }
  }

  /** The numeral denotes a number within float64 range. */
  ghost predicate InRange(numeral: Bytes) {
    exists digits, places: nat :: Denotes(numeral, digits, places) && DigitsValue(digits) < Limit(places)
  }

  lemma InRangeIff(numeral: Bytes)
    ensures InRange(numeral) <==> Numeral(numeral).Some?
  {
    if Numeral(numeral).Some? {
      var (digits, places) := DigitSplit(numeral).value;
      DigitSplitIff(numeral, digits, places);
    }
    if digits, places: nat :| Denotes(numeral, digits, places) && DigitsValue(digits) < Limit(places) {
      DigitSplitIff(numeral, digits, places);
    }
  }

  /** Which error: a text that does not split is an invalid format; one that does is
      first judged by its numeral, and then by its unit. */
  lemma ErrorsIff(s: Bytes)
    ensures Load(s) == InvalidFormat <==> forall n, g, u :: !Splits(Trim(s), n, g, u)
    ensures forall n, g, u | Splits(Trim(s), n, g, u) ::
              && (Load(s) == BadNumeral <==> !InRange(n))
              && (Load(s) == UnknownUnit <==> InRange(n) && forall w: nat :: !Worth(u, w))
  {
    if Match(Trim(s)).Some? {
      var (n, u) := Match(Trim(s)).value;
      var gap := MatchSplits(Trim(s), n, u);
    }
    forall n, g, u | Splits(Trim(s), n, g, u)
      ensures Match(Trim(s)) == Some((n, u))
      ensures InRange(n) <==> Numeral(n).Some?
      ensures (forall w: nat :: !Worth(u, w)) <==> Multiplier(u) == None
    {
      SplitsMatch(Trim(s), n, g, u);
      InRangeIff(n);
      WorthNone(u);
    }
  }

  lemma WorthNone(unit: Bytes)
    ensures (forall w: nat :: !Worth(unit, w)) <==> Multiplier(unit) == None
  {
    forall w: nat
      ensures Multiplier(unit) == Some(w) <==> Worth(unit, w)
    {
      WorthIff(unit, w);
    }
    if Multiplier(unit).Some? {
      assert Worth(unit, Multiplier(unit).value);
    }
  }

  lemma UnitsArePositive(unit: Bytes)
    ensures Multiplier(unit).Some? ==> Multiplier(unit).value >= 1
  {
  }

  lemma PrintedMeans(n: nat, p: Parts, multiplier: nat)
    requires p.numeral == p.digits == Digits(n) && Multiplier(p.unit) == Some(multiplier)
    requires n <= MAX_INT64
    ensures Means(p, Accepted(n, 0, multiplier))
  {
    DigitsRoundTrip(n);
  }

  lemma ProductAbove(n: nat, multiplier: nat)
    requires multiplier > 0
    ensures n <= n * multiplier
  {
  }

  lemma {:induction false} OddProduct(a: nat, b: nat)
    requires a > 0 && b > 0
    ensures Odd(a) <= Odd(a * b) && Odd(b) <= Odd(a * b)
  {
    if a % 2 == 0 {
      var h := a / 2;
      OddProduct(h, b);
      hide Odd;
      assert a == 2 * h;
      Commute(h, b);
      OddProductEven(b, h);
      Commute(a, b);
    } else if b % 2 == 0 {
      OddProduct(a, b / 2);
      hide Odd;
      assert b == 2 * (b / 2);
      OddProductEven(a, b / 2);
    } else {
      OddTimesOdd(a / 2, b);
    }
  }

  lemma Commute(a: nat, b: nat)
    ensures a * b == b * a
  {
  }

  lemma OddParity(h: nat, b: nat)
    requires b % 2 == 1
    ensures ((2 * h + 1) * b) % 2 == 1
  {
    DoubleLeft(h, b);
    Distribute(2 * h, b);
    TwicePlus(h * b, b);
  }

  lemma Distribute(a: nat, b: nat)
    ensures (a + 1) * b == a * b + b
  {
  }

  lemma TwicePlus(x: nat, b: nat)
    requires b % 2 == 1
    ensures (2 * x + b) % 2 == 1
  {
  }

  lemma OddTimesOdd(h: nat, b: nat)
    requires b % 2 == 1
    ensures ((2 * h + 1) * b) % 2 == 1 && 2 * h + 1 <= (2 * h + 1) * b && b <= (2 * h + 1) * b
  {
    OddParity(h, b);
    ProductAbove(2 * h + 1, b);
    ProductAbove(b, 2 * h + 1);
    Commute(b, 2 * h + 1);
  }

  lemma OddProductEven(a: nat, h: nat)
    requires h > 0 && Odd(a) <= Odd(a * h) && Odd(h) <= Odd(a * h)
    ensures Odd(a) <= Odd(a * (2 * h)) && Odd(2 * h) <= Odd(a * (2 * h))
  {
    DoubleRight(a, h);
    OddTwice(a * h);
    OddTwice(h);
  }

  lemma PrintedExact(n: nat, multiplier: nat)
    requires multiplier > 0 && n * multiplier <= MAX_INT64 && Odd(n * multiplier) < MAX_SIGNIFICAND
    ensures ExactBytes(Accepted(n, 0, multiplier)) == Some(n * multiplier)
  {
    if n > 0 {
      OddProduct(n, multiplier);
    }
    assert Pow(10, 0) == 1;
  }

  /** Printing an integer with any unit, in any case and spacing, and loading it
      back gives the integer times the unit, if the product has a significand below
      2^53, as all products up to 2^53 do, and fits an int. */
  lemma PrintLoad(n: nat, p: Parts, multiplier: nat, s: Bytes)
    requires p.numeral == Itoa(n) && Worth(p.unit, multiplier) && Spells(p, s)
    requires n * multiplier <= MAX_INT64 && Odd(n * multiplier) < MAX_SIGNIFICAND
    ensures ExactBytes(Load(s)) == Some(n * multiplier)
  {
    WorthIff(p.unit, multiplier);
    UnitsArePositive(p.unit);
    ProductAbove(n, multiplier);
    PrintedExact(n, multiplier);
    var q := p.(digits := p.numeral);
    PrintedMeans(n, q, multiplier);
    ReadsLoads(s, q, Accepted(n, 0, multiplier));
  }

  /** In particular all products up to 2^53 are loaded exactly. */
  lemma PrintLoadSmall(n: nat, p: Parts, multiplier: nat, s: Bytes)
    requires p.numeral == Itoa(n) && Worth(p.unit, multiplier) && Spells(p, s)
    requires n * multiplier <= MAX_SIGNIFICAND
    ensures ExactBytes(Load(s)) == Some(n * multiplier)
  {
    OddBelow(n * multiplier);
    hide Worth, Spells, Load, ExactBytes;
    PrintLoad(n, p, multiplier, s);
  }

  lemma FiveTimes(k: nat, x: nat)
    ensures k * (5 * x) == 5 * (k * x)
  {
  }

  lemma {:induction false} FifthsOf(k: nat, e: nat)
    ensures Fifths(k * Pow(5, e), e) == Some(k)
  {
    if e > 0 {
      FiveTimes(k, Pow(5, e - 1));
      FifthsOf(k, e - 1);
    } else {
      assert k * 1 == k;
    }
  }

  lemma {:induction false} BelowLimit(k: nat, e: nat)
    requires k < FLOAT_LIMIT
    ensures k * Pow(5, e) < Limit(e)
  {
    if e > 0 {
      FiveTimes(k, Pow(5, e - 1));
      BelowLimit(k, e - 1);
    } else {
      assert k * 1 == k;
    }
  }

  lemma {:induction false} DenominatorBelow(n: nat, q: nat)
    ensures Denominator(n, q) <= q
  {
    if q > 0 && n % 2 == 0 {
      DenominatorBelow(n / 2, q - 1);
    }
  }

  /** 2^u over 10^e, with 5^e of them cancelled. */
  lemma {:induction false} PowersCancel(e: nat, u: nat)
    requires e <= u
    ensures Pow(5, e) * Pow(2, u) == Pow(2, u - e) * Pow(10, e)
  {
    if e > 0 {
      PowersCancel(e - 1, u - 1);
      Regroup4(Pow(5, e - 1), Pow(2, u - 1), Pow(2, u - e), Pow(10, e - 1));
    }
  }

  lemma Regroup4(a: nat, b: nat, c: nat, d: nat)
    requires a * b == c * d
    ensures (5 * a) * (2 * b) == c * (10 * d)
  {
    assert (5 * a) * (2 * b) == 10 * (a * b);
    assert c * (10 * d) == 10 * (c * d);
  }

  lemma Associate(a: nat, b: nat, c: nat)
    ensures (a * b) * c == a * (b * c)
  {
  }

  lemma Apart(k: int, d: nat)
    ensures k >= 1 ==> k * d >= d
    ensures k <= -1 ==> k * d <= -1 * d
  {
  }

  lemma OnlyQuotient(x: int, q: int, r: int, d: nat)
    requires q * d + r == x * d && 0 <= r < d
    ensures q == x
  {
    Apart(x - q, d);
    assert (x - q) * d == r;
  }

  lemma ExactQuotient(n: nat, x: nat, d: nat)
    requires d > 0 && n == x * d
    ensures n / d == x
  {
    OnlyQuotient(x, n / d, n % d, d);
  }

  lemma Quotient(k: nat, a: nat, b: nat, c: nat, d: nat)
    requires a * b == c * d && d > 0
    ensures (k * a) * b / d == k * c
  {
    Associate(k, a, b);
    Associate(k, c, d);
    ExactQuotient((k * a) * b, k * c, d);
  }

  lemma FractionExact(k: nat, places: nat, u: nat)
    requires Odd(k) < MAX_SIGNIFICAND && places <= u <= MIN_EXPONENT && k * Pow(2, u - places) <= MAX_INT64
    ensures ExactBytes(Accepted(k * Pow(5, places), places, Pow(2, u))) == Some(k * Pow(2, u - places))
  {
    FifthsOf(k, places);
    DenominatorBelow(k, places);
    DenominatorBelow(k * Pow(2, u), places);
    OddTimes(k, u);
    OddTimes(1, u);
    assert 1 * Pow(2, u) == Pow(2, u);
    PowPositive(10, places);
    PowersCancel(places, u);
    Quotient(k, Pow(5, places), Pow(2, u), Pow(2, u - places), Pow(10, places));
  }

  lemma UnitFraction(m: nat, places: nat, u: nat, p: Parts, s: Bytes)
    requires Spells(p, s) && Denotes(p.numeral, p.digits, places) && DigitsValue(p.digits) == m * Pow(5, places)
    requires Multiplier(p.unit) == Some(Pow(2, u)) && places <= u <= MIN_EXPONENT
    requires Odd(m) < MAX_SIGNIFICAND && m * Pow(2, u - places) <= MAX_INT64
    ensures ExactBytes(Load(s)) == Some(m * Pow(2, u - places))
  {
    PowPositive(2, u - places);
    ProductAbove(m, Pow(2, u - places));
    BelowLimit(m, places);
    ReadsLoads(s, p, Accepted(m * Pow(5, places), places, Pow(2, u)));
    FractionExact(m, places, u);
  }

  /** A binary fraction of the k-th binary unit is loaded without rounding: a numeral
      for m / 2^places, as 1.5KiB with m = 3. */
  lemma FractionLoad(m: nat, places: nat, k: nat, p: Parts, s: Bytes)
    requires Spells(p, s) && Denotes(p.numeral, p.digits, places) && DigitsValue(p.digits) == m * Pow(5, places)
    requires BinaryUnit(p.unit, k) && places <= 10 * k
    requires Odd(m) < MAX_SIGNIFICAND && m * Pow(2, 10 * k - places) <= MAX_INT64
    ensures ExactBytes(Load(s)) == Some(m * Pow(2, 10 * k - places))
  {
    hide *;
    BinaryWorth(p.unit, k);
    UnitFraction(m, places, 10 * k, p, s);
  }

  // ----- 64 decimal kilobytes, and one and a half binary ones -----

  const SIXTY_FOUR_KB: Bytes := " 64 kB"
  const ONE_AND_A_HALF_KIB: Bytes := "1.5KiB"

  lemma DecimalExample()
    ensures ExactBytes(Load(SIXTY_FOUR_KB)) == Some(64_000)
  {
    var p := Parts(" ", "64", [], " ", "kB", []);
    assert Digits(6) == "6" && Digits(64) == Digits(6) + "4";
    assert Spells(p, SIXTY_FOUR_KB);
    PowersOfThousand();
    assert DecimalUnit(p.unit, 1) && Worth(p.unit, 1000);
    assert p.numeral == Itoa(64);
    hide *;
    PrintLoadSmall(64, p, 1000, SIXTY_FOUR_KB);
  }

  lemma BinaryExample()
    ensures ExactBytes(Load(ONE_AND_A_HALF_KIB)) == Some(1536)
  {
    var p := Parts([], "1.5", "15", [], "KiB", []);
    assert p.digits[..1] == "1" && p.digits[..1][..0] == [];
    assert DigitsValue(p.digits[..1]) == 1 && DigitsValue(p.digits) == 15;
    assert Pow(5, 0) == 1 && Pow(5, 1) == 5 && Pow(2, 0) == 1;
    Sixteenfold(0);
    Sixteenfold(4);
    assert Pow(2, 9) == 2 * Pow(2, 8);
    assert p.digits[..1] + ['.'] + p.digits[1..] == p.numeral;
    assert Denotes(p.numeral, p.digits, 1) && BinaryUnit(p.unit, 1) && Odd(3) == 3;
    assert Spells(p, ONE_AND_A_HALF_KIB);
    hide *;
    FractionLoad(3, 1, 1, p, ONE_AND_A_HALF_KIB);
  }

  // ----- the expression, spelled out -----

  predicate IsSizeLetter(c: byte) {
    || SizeLetter(c, 1) || SizeLetter(c, 2) || SizeLetter(c, 3) || SizeLetter(c, 4)
    || SizeLetter(c, 5) || SizeLetter(c, 6) || SizeLetter(c, 7) || SizeLetter(c, 8)
  }

  /** An optional size letter, an optional i and an optional b, each in either case. */
  predicate UnitParts(unit: Bytes, letter: Bytes, i: Bytes, b: Bytes) {
    && unit == letter + i + b
    && (letter == [] || (|letter| == 1 && IsSizeLetter(letter[0])))
    && (i == [] || i == ['i'] || i == ['I'])
    && (b == [] || (|b| == 1 && ByteLetter(b[0])))
  }

  lemma PrefixLetter(c: byte)
    ensures SizePrefix(LowerChar(c)) <==> IsSizeLetter(c)
    ensures LowerChar(c) == 'i' <==> c == 'i' || c == 'I'
    ensures LowerChar(c) == 'b' <==> ByteLetter(c)
    ensures IsSizeLetter(c) ==> c != 'i' && c != 'I' && !ByteLetter(c)
  {
  }

  lemma LowerApart(a: Bytes, b: Bytes)
    ensures Lower(a + b) == Lower(a) + Lower(b)
  {
  }

  /** The part after the size letter. */
  lemma TailParts(tail: Bytes)
    ensures var v := Lower(tail);
            (v == [] || v == ['i'] || v == ['b'] || v == ['i', 'b']) <==>
            exists i, b :: UnitParts(tail, [], i, b)
  {
    var v := Lower(tail);
    if v == [] {
      assert UnitParts(tail, [], [], []);
    } else if v == ['i'] {
      PrefixLetter(tail[0]);
      assert tail == [tail[0]] && UnitParts(tail, [], tail, []);
    } else if v == ['b'] {
      PrefixLetter(tail[0]);
      assert tail == [tail[0]] && UnitParts(tail, [], [], tail);
    } else if v == ['i', 'b'] {
      assert v[0] == LowerChar(tail[0]) && v[1] == LowerChar(tail[1]);
      PrefixLetter(tail[0]);
      PrefixLetter(tail[1]);
      assert UnitParts(tail, [], tail[..1], tail[1..]);
    }
    if i, b :| UnitParts(tail, [], i, b) {
      assert tail == i + b;
      LowerApart(i, b);
      assert Lower(i) == [] || Lower(i) == ['i'];
      assert Lower(b) == [] || Lower(b) == ['b'];
    }
  }

  lemma FirstLetter(unit: Bytes, letter: Bytes, i: Bytes, b: Bytes)
    requires unit != [] && UnitParts(unit, letter, i, b)
    ensures letter == [] ==> unit == i + b && !IsSizeLetter(unit[0])
    ensures letter != [] ==> letter == unit[..1] && unit[1..] == i + b && IsSizeLetter(unit[0])
  {
    PrefixLetter(unit[0]);
    if letter == [] {
      assert unit == i + b;
      if i == [] {
        assert unit == b;
      } else {
        assert unit[0] == i[0];
      }
    } else {
      assert unit == letter + (i + b);
    }
  }

  lemma HeadParts(unit: Bytes)
    requires unit != [] && IsSizeLetter(unit[0])
    ensures (exists letter, i, b :: UnitParts(unit, letter, i, b)) <==> exists i, b :: UnitParts(unit[1..], [], i, b)
  {
    if i, b :| UnitParts(unit[1..], [], i, b) {
      assert unit == unit[..1] + i + b;
      assert UnitParts(unit, unit[..1], i, b);
    }
    if letter, i, b :| UnitParts(unit, letter, i, b) {
      FirstLetter(unit, letter, i, b);
      assert UnitParts(unit[1..], [], i, b);
    }
  }

  lemma NoHeadParts(unit: Bytes)
    requires unit == [] || !IsSizeLetter(unit[0])
    ensures (exists letter, i, b :: UnitParts(unit, letter, i, b)) <==> exists i, b :: UnitParts(unit, [], i, b)
  {
    if letter, i, b :| UnitParts(unit, letter, i, b) {
      if unit != [] {
        FirstLetter(unit, letter, i, b);
      }
      assert UnitParts(unit, [], i, b);
    }
  }

  /** The unit of the regular expression, by its parts. */
  lemma PatternIff(unit: Bytes)
    ensures UnitPattern(unit) <==> exists letter, i, b :: UnitParts(unit, letter, i, b)
  {
    if unit == [] {
      NoHeadParts(unit);
      TailParts(unit);
    } else {
      PrefixLetter(unit[0]);
      if IsSizeLetter(unit[0]) {
        HeadParts(unit);
        TailParts(unit[1..]);
        assert Lower(unit)[1..] == Lower(unit[1..]);
      } else {
        NoHeadParts(unit);
        TailParts(unit);
      }
    }
  }

  /** One, a control character, and kB. */
  function Spaced(c: byte): Bytes { ['1', c, 'k', 'B'] }

  const ONE: Bytes := ['1']
  const KB: Bytes := ['k', 'B']

  lemma OneKb()
    ensures DigitsValue(ONE) == 1 && Denotes(ONE, ONE, 0) && Multiplier(KB) == Some(1000)
  {
    PowersOfThousand();
    assert DecimalUnit(KB, 1);
    DecimalWorth(KB, 1);
    assert ONE[..0] == [] && ONE[..1] == ONE && ONE[1..] == [];
  }

  lemma SpacesSkipped(left: Bytes, gap: Bytes)
    requires All(IsSpace, left) && All(RegexSpace, gap)
    ensures Load(left + ONE + gap + KB) == Accepted(1, 0, 1000)
  {
    OneKb();
    var p := Parts(left, ONE, ONE, gap, KB, []);
    assert left + ONE + gap + KB + [] == left + ONE + gap + KB;
    assert Spells(p, left + ONE + gap + KB) && Means(p, Accepted(1, 0, 1000));
    hide *;
    ReadsLoads(left + ONE + gap + KB, p, Accepted(1, 0, 1000));
  }

  /** A tab between numeral and unit is skipped; a vertical tab, which is trimmed at the
      ends, is refused there. */
  lemma Tabs()
    ensures Load([] + ONE + [9 as char] + KB) == Accepted(1, 0, 1000)
    ensures Load([11 as char] + ONE + [] + KB) == Accepted(1, 0, 1000)
    ensures Load(Spaced(11 as char)) == InvalidFormat
  {
    Refused();
    hide Load;
    SpacesSkipped([], [9 as char]);
    SpacesSkipped([11 as char], []);
  }

  lemma Refused()
    ensures Load(Spaced(11 as char)) == InvalidFormat
  {
    var s := Spaced(11 as char);
    var rest: Bytes := [11 as char, 'k', 'B'];
    TrimStops([], s, []);
    assert [] + s + [] == s;
    SpanStops(NumeralChar, ['1'], rest);
    assert ['1'] + rest == s;
    SpanStops(RegexSpace, [], rest);
    assert [] + rest == rest && rest[0..] == rest;
    assert LowerChar(rest[0]) == rest[0] && Lower(rest)[0] == rest[0];
    assert !UnitPattern(rest);
  }

  // ----- the test for exactness is the definition -----

  /** m / 10^tens == f * 2^up / 2^down */
  ghost predicate IsFloatDecimal(m: nat, tens: nat, f: nat, up: nat, down: nat) {
    && f < MAX_SIGNIFICAND && down <= MIN_EXPONENT
    && m * Pow(2, down) == f * Pow(2, up) * Pow(10, tens)
  }

  /** m / 10^tens, within range, is a float64. */
  ghost predicate FloatDecimal(m: nat, tens: nat) { exists f, up, down :: IsFloatDecimal(m, tens, f, up, down) }

  lemma {:induction false} TenIsTwoFives(e: nat)
    ensures Pow(10, e) == Pow(2, e) * Pow(5, e)
  {
    if e > 0 {
      TenIsTwoFives(e - 1);
      FourFactors(2, 5, Pow(2, e - 1), Pow(5, e - 1));
    }
  }

  lemma FourFactors(a: nat, b: nat, c: nat, d: nat)
    ensures (a * b) * (c * d) == (a * c) * (b * d)
  {
    Associate(a, b, c * d);
    Associate(b, c, d);
    Commute(b, c);
    Associate(c, b, d);
    Associate(a, c, b * d);
  }

  lemma {:induction false} FifthsMean(m: nat, e: nat)
    ensures Fifths(m, e).Some? ==> m == Fifths(m, e).value * Pow(5, e)
  {
    if e == 0 {
      assert m * 1 == m;
    } else if m % 5 == 0 {
      FifthsMean(m / 5, e - 1);
      if Fifths(m, e).Some? {
        FiveTimes(Fifths(m, e).value, Pow(5, e - 1));
      }
    }
  }

  lemma {:induction false} FifthsTwice(n: nat, e: nat)
    ensures Fifths(2 * n, e).Some? ==> Fifths(n, e).Some?
  {
    if e > 0 && (2 * n) % 5 == 0 {
      assert n % 5 == 0;
      assert 2 * n / 5 == 2 * (n / 5);
      FifthsTwice(n / 5, e - 1);
    }
  }

  lemma {:induction false} FifthsShifted(n: nat, d: nat, e: nat)
    requires Fifths(n * Pow(2, d), e).Some?
    ensures Fifths(n, e).Some?
  {
    if d > 0 {
      DoubleRight(n, Pow(2, d - 1));
      FifthsTwice(n * Pow(2, d - 1), e);
      FifthsShifted(n, d - 1, e);
    } else {
      assert n * 1 == n;
    }
  }

  lemma SwapLast(a: nat, b: nat, c: nat)
    ensures (a * b) * c == (a * c) * b
  {
    Associate(a, b, c);
    Commute(b, c);
    Associate(a, c, b);
  }

  lemma CancelRight(a: nat, b: nat, c: nat)
    requires c > 0 && a * c == b * c
    ensures a == b
  {
    OnlyQuotient(a, b, 0, c);
  }

  /** With m = k * 5^tens, the decimal and the binary form say the same. */
  lemma SameForm(m: nat, k: nat, tens: nat, f: nat, up: nat, down: nat)
    requires m == k * Pow(5, tens)
    ensures IsFloatDecimal(m, tens, f, up, down) <==> IsFloat(k, tens, f, up, down)
  {
    var (five, left, right) := (Pow(5, tens), k * Pow(2, down), f * Pow(2, up));
    PowPositive(5, tens);
    SwapLast(k, five, Pow(2, down));
    TenIsTwoFives(tens);
    Associate(right, Pow(2, tens), five);
    if left * five == (right * Pow(2, tens)) * five {
      CancelRight(left, right * Pow(2, tens), five);
    }
  }

  /** A decimal that is a float64 has no fives in its denominator. */
  lemma NoFives(m: nat, tens: nat, f: nat, up: nat, down: nat)
    requires IsFloatDecimal(m, tens, f, up, down)
    ensures Fifths(m, tens).Some?
  {
    TenIsTwoFives(tens);
    Associate(f * Pow(2, up), Pow(2, tens), Pow(5, tens));
    FifthsOf(f * Pow(2, up) * Pow(2, tens), tens);
    FifthsShifted(m, down, tens);
  }

  lemma DecimalIff(m: nat, tens: nat)
    ensures FloatDecimal(m, tens) <==> Fifths(m, tens).Some? && Representable(Fifths(m, tens).value, tens)
  {
    FifthsMean(m, tens);
    if f, up, down :| IsFloatDecimal(m, tens, f, up, down) {
      NoFives(m, tens, f, up, down);
      SameForm(m, Fifths(m, tens).value, tens, f, up, down);
      FloatIsRepresentable(Fifths(m, tens).value, tens, f, up, down);
    }
    if Fifths(m, tens).Some? && Representable(Fifths(m, tens).value, tens) {
      var f, up, down := RepresentableIsFloat(Fifths(m, tens).value, tens);
      SameForm(m, Fifths(m, tens).value, tens, f, up, down);
    }
  }

  /** The product is taken as exact only if numeral, unit and product are float64
      values, and always then; zero times anything is exact. */
  lemma ExactIff(mantissa: nat, places: nat, multiplier: nat)
    ensures Exact(mantissa, places, multiplier) <==>
            || mantissa == 0
            || (FloatDecimal(mantissa, places) && FloatDecimal(multiplier, 0)
                && FloatDecimal(mantissa * multiplier, places))
  {
    DecimalIff(mantissa, places);
    DecimalIff(multiplier, 0);
    DecimalIff(mantissa * multiplier, places);
    FifthsMean(mantissa, places);
    FifthsOf(0, places);
    if Fifths(mantissa, places).Some? {
      var k := Fifths(mantissa, places).value;
      SwapLast(k, Pow(5, places), multiplier);
      FifthsOf(k * multiplier, places);
      if k == 0 {
        assert 0 * Pow(5, places) == 0;
      }
    }
  }
}
