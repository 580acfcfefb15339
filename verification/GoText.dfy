/** Go strings and byte slices, 64-bit integers, and the decimal conversions of
    package strconv.  A Go string is a sequence of bytes, so one type serves for
    both `string` and `[]byte`, and `[]byte(s)` is the identity. */
module GoText {

  datatype Option<+T> = None | Some(value: T)

  type byte = c: char | c as int < 256 witness 'a'
  type Bytes = seq<byte>

  const MAX_INT64 := 0x7fff_ffff_ffff_ffff
  const MIN_INT64 := -0x8000_0000_0000_0000

  type int64 = i: int | MIN_INT64 <= i <= MAX_INT64

  /** Two's-complement addition, as `+` and `+=` on int64. */
  function WrapAdd(a: int64, b: int64): int64 {
    var sum := a as int + b as int;
    if sum > MAX_INT64 then sum - 0x1_0000_0000_0000_0000
    else if sum < MIN_INT64 then sum + 0x1_0000_0000_0000_0000
    else sum
  }

  // ----- decimal text -----

  predicate IsDigit(c: char) { '0' <= c <= '9' }

  predicate AllDigits(s: Bytes) { forall i :: 0 <= i < |s| ==> IsDigit(s[i]) }

  function Digits(n: nat): (s: Bytes)
  {
    if n < 10 then [('0' as int + n) as char]
    else Digits(n / 10) + [('0' as int + n % 10) as char]
  }

  /** strconv.Itoa */
  function Itoa(i: int): Bytes {
    if i < 0 then ['-'] + Digits(-i) else Digits(i)
  }

  /** The number a digit string denotes, most significant digit first. */
  function DigitsValue(s: Bytes): nat
    requires AllDigits(s)
  {
    if s == [] then 0
    else DigitsValue(s[..|s| - 1]) * 10 + (s[|s| - 1] as int - '0' as int)
  }

  /** strconv.Atoi on a 64-bit platform: an optional sign, then digits, then the
      range check. */
  function Atoi(s: Bytes): Option<int64> {
    var signed := s != [] && (s[0] == '-' || s[0] == '+');
    var digits := if signed then s[1..] else s;
    if digits == [] || !AllDigits(digits) then None
    else
      var magnitude: int := DigitsValue(digits);
      var v := if signed && s[0] == '-' then -magnitude else magnitude;
      if MIN_INT64 <= v <= MAX_INT64 then Some(v) else None
  }

  lemma {:induction false} DigitsRoundTrip(n: nat)
    ensures Digits(n) != [] && AllDigits(Digits(n)) && DigitsValue(Digits(n)) == n
  {
    if n < 10 {
      assert Digits(n)[..0] == [];
    } else {
      DigitsRoundTrip(n / 10);
      assert Digits(n)[..|Digits(n)| - 1] == Digits(n / 10);
    }
  }

  /** Decimal text is canonical: no leading zero except for zero itself. */
  lemma {:induction false} DigitsCanonical(n: nat)
    ensures Digits(n) != []
    ensures Digits(n)[0] == '0' <==> n == 0
    ensures n == 0 ==> |Digits(n)| == 1
  {
    if n >= 10 {
      DigitsCanonical(n / 10);
    }
  }

  lemma AtoiNegative(digits: Bytes, i: int64)
    requires digits != [] && AllDigits(digits) && DigitsValue(digits) + i == 0
    ensures Atoi(['-'] + digits) == Some(i)
  {
    assert (['-'] + digits)[1..] == digits;
  }

  lemma AtoiPlain(digits: Bytes, i: int64)
    requires digits != [] && AllDigits(digits) && DigitsValue(digits) == i
    ensures Atoi(digits) == Some(i)
  {
    assert IsDigit(digits[0]);
  }

  lemma AtoiItoa(i: int64)
    ensures Atoi(Itoa(i)) == Some(i)
  {
    var magnitude: nat := if i < 0 then -(i as int) else i;
    DigitsRoundTrip(magnitude);
    if i < 0 {
      AtoiNegative(Digits(magnitude), i);
    } else {
      AtoiPlain(Digits(magnitude), i);
    }
  }

  lemma DigitsInjective(m: nat, n: nat)
    requires Digits(m) == Digits(n)
    ensures m == n
  {
    DigitsRoundTrip(m);
    DigitsRoundTrip(n);
  }

  /** The sum modulo 2^64: the one int64 that differs from it by a multiple of 2^64. */
  lemma WrapAddIff(a: int64, b: int64, c: int64)
    ensures WrapAdd(a, b) == c <==> exists k: int :: a as int + b as int == c as int + Wraps(k)
  {
    if WrapAdd(a, b) == c {
      var sum := a as int + b as int;
      var k := if sum > MAX_INT64 then 1 else if sum < MIN_INT64 then -1 else 0;
      assert sum == c as int + Wraps(k);
    }
    if k: int :| a as int + b as int == c as int + Wraps(k) {
      OneWrap(a as int + b as int - c as int, k);
    }
  }

  /** k times 2^64. */
  function Wraps(k: int): int { k * 0x1_0000_0000_0000_0000 }

  lemma OneWrap(d: int, k: int)
    requires d == Wraps(k) && -0x2_0000_0000_0000_0000 < d < 0x2_0000_0000_0000_0000
    ensures -1 <= k <= 1
  {
  }

  function Pow10(e: nat): nat { if e == 0 then 1 else 10 * Pow10(e - 1) }

  /** A decimal text is as long as its number needs. */
  lemma {:induction false} DigitsLength(n: nat)
    requires n > 0
    ensures |Digits(n)| >= 1 && Pow10(|Digits(n)| - 1) <= n < Pow10(|Digits(n)|)
  {
    if n >= 10 {
      DigitsLength(n / 10);
      assert |Digits(n)| == |Digits(n / 10)| + 1;
    } else {
      assert Pow10(1) == 10;
    }
  }

  /** The most significant digit weighs most: a text is its first digit times the power
      of ten of the rest, and the rest. */
  lemma {:induction false} DigitsWeigh(s: Bytes)
    requires s != [] && AllDigits(s)
    ensures DigitsValue(s) == (s[0] as int - '0' as int) * Pow10(|s| - 1) + DigitsValue(s[1..])
  {
    if |s| == 1 {
      assert s[..0] == [] && s[1..] == [];
    } else {
      var k := |s| - 1;
      DigitsWeigh(s[..k]);
      assert s[..k][1..] == s[1..][..k - 1];
      TenTimes(s[0] as int - '0' as int, Pow10(k - 1));
    }
  }

  lemma TenTimes(d: int, p: int)
    ensures d * p * 10 == d * (10 * p)
  {
  }

  /** What Atoi reads: digits, with a plus or a minus before them or without, if the
      number they denote is an int64. */
  lemma AtoiIff(s: Bytes, v: int64)
    ensures Atoi(s) == Some(v) <==>
            || IsDecimal(s, v as int)
            || (s != [] && s[0] == '+' && IsDecimal(s[1..], v as int))
            || (s != [] && s[0] == '-' && IsDecimal(s[1..], -(v as int)))
  {
    if s != [] && AllDigits(s) {
      assert IsDigit(s[0]);
    }
  }

  predicate IsDecimal(s: Bytes, n: int) { s != [] && AllDigits(s) && DigitsValue(s) == n }
}
