/** The standard base64 encoding with padding (section 4 of RFC 4648), which
    encoding/json uses for the []byte field of a ledger record. */
module Base64 {
  import opened GoText

  function EncodeSextet(v: int): byte
    requires 0 <= v < 64
  {
    if v < 26 then ('A' as int + v) as char
    else if v < 52 then ('a' as int + v - 26) as char
    else if v < 62 then ('0' as int + v - 52) as char
    else if v == 62 then '+' else '/'
  }

  function DecodeSextet(c: byte): Option<int> {
    if 'A' <= c <= 'Z' then Some(c as int - 'A' as int)
    else if 'a' <= c <= 'z' then Some(c as int - 'a' as int + 26)
    else if '0' <= c <= '9' then Some(c as int - '0' as int + 52)
    else if c == '+' then Some(62)
    else if c == '/' then Some(63)
    else None
  }

  lemma SextetRoundTrip(v: int)
    requires 0 <= v < 64
    ensures DecodeSextet(EncodeSextet(v)) == Some(v)
    ensures EncodeSextet(v) != '=' && EncodeSextet(v) != '"'
  {
  }

  /** One full group: three bytes become four characters. */
  function EncodeGroup(a: byte, b: byte, c: byte): Bytes {
    var (a, b, c) := (a as int, b as int, c as int);
    [EncodeSextet(a / 4), EncodeSextet(a % 4 * 16 + b / 16),
     EncodeSextet(b % 16 * 4 + c / 64), EncodeSextet(c % 64)]
  }

  function Encode(s: Bytes): Bytes {
    if |s| == 0 then []
    else if |s| == 1 then EncodeGroup(s[0], 0 as char, 0 as char)[..2] + ['=', '=']
    else if |s| == 2 then EncodeGroup(s[0], s[1], 0 as char)[..3] + ['=']
    else EncodeGroup(s[0], s[1], s[2]) + Encode(s[3..])
  }

  function Pack(p: int, q: int, r: int, t: int): (g: Bytes)
    requires 0 <= p < 64 && 0 <= q < 64 && 0 <= r < 64 && 0 <= t < 64
    ensures |g| == 3
  {
    [(p * 4 + q / 16) as char, (q % 16 * 16 + r / 4) as char, (r % 4 * 64 + t) as char]
  }

  /** Padding is accepted only in the last group; like encoding/base64 in its
      default mode, the bits a padded group leaves over are ignored. */
  function Decode(s: Bytes): Option<Bytes> {
    if s == [] then Some([])
    else if |s| < 4 then None
    else
      match (DecodeSextet(s[0]), DecodeSextet(s[1]), DecodeSextet(s[2]), DecodeSextet(s[3]))
      case (Some(p), Some(q), Some(r), Some(t)) =>
        (match Decode(s[4..])
         case Some(rest) => Some(Pack(p, q, r, t) + rest)
         case None => None)
      case (Some(p), Some(q), Some(r), None) =>
        if s[3..] == ['='] then Some(Pack(p, q, r, 0)[..2]) else None
      case (Some(p), Some(q), None, _) =>
        if s[2..] == ['=', '='] then Some(Pack(p, q, 0, 0)[..1]) else None
      case _ => None
  }

  lemma UnpackArithmetic(x: int, y: int, z: int)
    requires 0 <= x < 256 && 0 <= y < 256 && 0 <= z < 256
    ensures x / 4 * 4 + (x % 4 * 16 + y / 16) / 16 == x
    ensures (x % 4 * 16 + y / 16) % 16 * 16 + (y % 16 * 4 + z / 64) / 4 == y
    ensures (y % 16 * 4 + z / 64) % 4 * 64 + z % 64 == z
  {
    assert (x % 4 * 16 + y / 16) / 16 == x % 4;
    assert (x % 4 * 16 + y / 16) % 16 == y / 16;
    assert (y % 16 * 4 + z / 64) / 4 == y % 16;
    assert (y % 16 * 4 + z / 64) % 4 == z / 64;
  }

  lemma GroupRoundTrip(a: byte, b: byte, c: byte)
    ensures var g := EncodeGroup(a, b, c);
            && |g| == 4
            && (forall i :: 0 <= i < 4 ==> g[i] != '=' && g[i] != '"' && DecodeSextet(g[i]).Some?)
            && (forall i :: 0 <= i < 4 ==> 0 <= DecodeSextet(g[i]).value < 64)
            && Pack(DecodeSextet(g[0]).value, DecodeSextet(g[1]).value,
                    DecodeSextet(g[2]).value, DecodeSextet(g[3]).value) == [a, b, c]
  {
    var (x, y, z) := (a as int, b as int, c as int);
    SextetRoundTrip(x / 4);
    SextetRoundTrip(x % 4 * 16 + y / 16);
    SextetRoundTrip(y % 16 * 4 + z / 64);
    SextetRoundTrip(z % 64);
    UnpackArithmetic(x, y, z);
  }

  lemma OneByteRoundTrip(a: byte)
    ensures Decode(Encode([a])) == Some([a])
  {
    GroupRoundTrip(a, 0 as char, 0 as char);
    var g := EncodeGroup(a, 0 as char, 0 as char);
    var s := Encode([a]);
    assert s == [g[0], g[1], '=', '='];
    assert s[2..] == ['=', '='];
    var whole := Pack(DecodeSextet(g[0]).value, DecodeSextet(g[1]).value, 0, 0);
    assert whole[0] == a;
    assert whole[..1] == [a];
  }

  lemma TwoByteRoundTrip(a: byte, b: byte)
    ensures Decode(Encode([a, b])) == Some([a, b])
  {
    GroupRoundTrip(a, b, 0 as char);
    var g := EncodeGroup(a, b, 0 as char);
    var s := Encode([a, b]);
    assert s == [g[0], g[1], g[2], '='];
    assert s[3..] == ['='];
    var whole := Pack(DecodeSextet(g[0]).value, DecodeSextet(g[1]).value, DecodeSextet(g[2]).value, 0);
    assert whole[0] == a && whole[1] == b;
    assert whole[..2] == [a, b];
  }

  /** Every byte string is recovered from its text. */
  lemma {:induction false} RoundTrip(s: Bytes)
    ensures Decode(Encode(s)) == Some(s)
  {
    if |s| == 0 {
    } else if |s| == 1 {
      OneByteRoundTrip(s[0]);
      assert s == [s[0]];
    } else if |s| == 2 {
      TwoByteRoundTrip(s[0], s[1]);
      assert s == [s[0], s[1]];
    } else {
      GroupRoundTrip(s[0], s[1], s[2]);
      RoundTrip(s[3..]);
      assert Encode(s)[4..] == Encode(s[3..]);
      assert s == [s[0], s[1], s[2]] + s[3..];
    }
  }

  /** The text never holds a double quote, so it needs no escape in a JSON string. */
  lemma {:induction false} NoQuote(s: Bytes)
    ensures forall i :: 0 <= i < |Encode(s)| ==> Encode(s)[i] != '"'
  {
    if |s| == 1 {
      GroupRoundTrip(s[0], 0 as char, 0 as char);
    } else if |s| == 2 {
      GroupRoundTrip(s[0], s[1], 0 as char);
    } else if |s| >= 3 {
      GroupRoundTrip(s[0], s[1], s[2]);
      NoQuote(s[3..]);
    }
  }

  // ----- the text itself -----

  const UPPER: Bytes := "ABCDEFGHIJKLMNOPQRSTUVWXYZ"
  const LOWER: Bytes := "abcdefghijklmnopqrstuvwxyz"
  const DIGITS: Bytes := "0123456789"
  const SIGNS: Bytes := "+/"

  /** The alphabet of table 1 in RFC 4648. */
  function Alphabet(): (a: Bytes)
    ensures |a| == 64
  {
    UPPER + LOWER + DIGITS + SIGNS
  }

  lemma UpperIs(v: int)
    requires 0 <= v < 26
    ensures UPPER[v] as int == 'A' as int + v
  {
  }

  lemma LowerIs(v: int)
    requires 0 <= v < 26
    ensures LOWER[v] as int == 'a' as int + v
  {
  }

  lemma DigitIs(v: int)
    requires 0 <= v < 10
    ensures DIGITS[v] as int == '0' as int + v
  {
  }

  lemma SextetIs(v: int)
    requires 0 <= v < 64
    ensures EncodeSextet(v) == Alphabet()[v]
  {
    if v < 26 {
      UpperIs(v);
    } else if v < 52 {
      LowerIs(v - 26);
    } else if v < 62 {
      DigitIs(v - 52);
    }
  }

  function Weigh(p: int, q: int, r: int, t: int): int { ((p * 64 + q) * 64 + r) * 64 + t }

  /** A full group writes its 24 bits in base 64, most significant first. */
  lemma GroupIs(a: byte, b: byte, c: byte, p: int, q: int, r: int, t: int)
    requires 0 <= p < 64 && 0 <= q < 64 && 0 <= r < 64 && 0 <= t < 64
    requires Weigh(p, q, r, t) == (a as int * 256 + b as int) * 256 + c as int
    ensures EncodeGroup(a, b, c) == [Alphabet()[p], Alphabet()[q], Alphabet()[r], Alphabet()[t]]
  {
    SextetIs(p);
    SextetIs(q);
    SextetIs(r);
    SextetIs(t);
    assert p == a as int / 4 && q == a as int % 4 * 16 + b as int / 16;
    assert r == b as int % 16 * 4 + c as int / 64 && t == c as int % 64;
  }

  lemma ThreeMore(n: nat)
    ensures (n + 3 + 2) / 3 * 4 == 4 + (n + 2) / 3 * 4
  {
  }

  lemma FourMore(n: nat)
    ensures (n + 4) % 4 == n % 4
  {
  }

  /** Four characters for every three bytes begun. */
  lemma {:induction false} EncodedLength(s: Bytes)
    ensures |Encode(s)| == (|s| + 2) / 3 * 4
  {
    hide EncodeSextet;
    if |s| >= 3 {
      EncodedLength(s[3..]);
      ThreeMore(|s| - 3);
    }
  }

  lemma FirstVectors()
    ensures Encode("f") == "Zg==" && Encode("fo") == "Zm8="
  {
  }

  /** The first three test vectors of section 10 of RFC 4648, padding included. */
  lemma Vectors()
    ensures Encode("f") == "Zg==" && Encode("fo") == "Zm8=" && Encode("foo") == "Zm9v"
  {
    FirstVectors();
    assert "foo"[3..] == [];
    assert EncodeGroup('f', 'o', 'o') == "Zm9v";
  }

  /** What decodes comes in groups of four, and in the last group the bits that padding
      leaves over do not matter. */
  lemma {:induction false} DecodedShape(s: Bytes)
    ensures Decode(s).Some? ==> |s| % 4 == 0
  {
    hide DecodeSextet;
    if |s| >= 4 {
      DecodedShape(s[4..]);
      FourMore(|s| - 4);
    }
  }

  lemma LeftoverBits(p: int, q: int, r: int)
    requires 0 <= p < 64 && 0 <= q < 64 && 0 <= r < 64
    ensures Decode([EncodeSextet(p), EncodeSextet(q), '=', '=']) == Some([(p * 4 + q / 16) as char])
    ensures Decode([EncodeSextet(p), EncodeSextet(q), EncodeSextet(r), '='])
            == Some([(p * 4 + q / 16) as char, (q % 16 * 16 + r / 4) as char])
  {
    SextetRoundTrip(p);
    SextetRoundTrip(q);
    SextetRoundTrip(r);
    var two: Bytes := [EncodeSextet(p), EncodeSextet(q), '=', '='];
    var three: Bytes := [EncodeSextet(p), EncodeSextet(q), EncodeSextet(r), '='];
    assert two[2..] == ['=', '='] && three[3..] == ['='];
    assert DecodeSextet(two[2]) == None && DecodeSextet(three[3]) == None;
    assert Pack(p, q, 0, 0)[..1] == [(p * 4 + q / 16) as char];
    assert Pack(p, q, r, 0)[..2] == [(p * 4 + q / 16) as char, (q % 16 * 16 + r / 4) as char];
  }
}
