/** The ledger record `ExperimentData` and its JSON text (section 4 of RFC 8259). */
module Record {
  import opened GoText
  import Base64

  datatype ExperimentData = ExperimentData(data: Bytes, counter: int64)

  const OPENING: Bytes := "{\"data\":\""
  const MIDDLE: Bytes := "\",\"counter\":"
  const CLOSING: Bytes := "}"

  /** json.Marshal: the fields in declaration order, the bytes in base64. */
  function Marshal(d: ExperimentData): Bytes {
    OPENING + Base64.Encode(d.data) + MIDDLE + Itoa(d.counter) + CLOSING
  }

  /** A JSON integer: no plus sign and no leading zero. */
  predicate JsonInt(s: Bytes) {
    var digits := if s != [] && s[0] == '-' then s[1..] else s;
    digits != [] && AllDigits(digits) && (digits[0] == '0' ==> |digits| == 1)
  }

  /** The position of the first double quote, or the length if there is none. */
  function QuoteIndex(s: Bytes): (i: nat)
    ensures i <= |s|
    ensures forall k :: 0 <= k < i ==> s[k] != '"'
    ensures i < |s| ==> s[i] == '"'
  {
    if s == [] || s[0] == '"' then 0 else 1 + QuoteIndex(s[1..])
  }

  /** json.Unmarshal on the layout that Marshal writes.  Empty input fails, as it
      does for the nil state of an absent key. */
  function Unmarshal(s: Bytes): Option<ExperimentData> {
    if !(OPENING <= s) then None
    else
      var body := s[|OPENING|..];
      var quote := QuoteIndex(body);
      var rest := body[quote..];
      if !(MIDDLE <= rest) || |rest| == |MIDDLE| || rest[|rest| - 1..] != CLOSING then None
      else
        var number := rest[|MIDDLE|..|rest| - 1];
        match (Base64.Decode(body[..quote]), Atoi(number))
        case (Some(data), Some(counter)) =>
          if JsonInt(number) then Some(ExperimentData(data, counter)) else None
        case _ => None
  }

  lemma JsonIntItoa(i: int64)
    ensures JsonInt(Itoa(i))
  {
    var magnitude: int := if i < 0 then -(i as int) else i;
    DigitsRoundTrip(magnitude);
    DigitsCanonical(magnitude);
    if i < 0 {
      assert Itoa(i)[1..] == Digits(magnitude);
    }
  }

  lemma QuoteAfter(text: Bytes, rest: Bytes)
    requires forall i :: 0 <= i < |text| ==> text[i] != '"'
    requires rest != [] && rest[0] == '"'
    ensures QuoteIndex(text + rest) == |text|
  {
    var s := text + rest;
    assert s[|text|] == '"';
  }

  lemma TakeDrop(a: Bytes, b: Bytes)
    ensures a <= a + b && (a + b)[..|a|] == a && (a + b)[|a|..] == b
  {
  }

  /** The pieces of a text with Marshal's layout are found again. */
  lemma Pieces(text: Bytes, number: Bytes, rest: Bytes, s: Bytes)
    requires rest == MIDDLE + number + CLOSING
    requires s == OPENING + text + rest
    ensures OPENING <= s && s[|OPENING|..] == text + rest
    ensures (text + rest)[..|text|] == text && (text + rest)[|text|..] == rest
    ensures MIDDLE <= rest && rest[|rest| - 1..] == CLOSING && rest[|MIDDLE|..|rest| - 1] == number
  {
    assert s == OPENING + (text + rest);
    TakeDrop(OPENING, text + rest);
    TakeDrop(text, rest);
    assert rest == MIDDLE + (number + CLOSING);
    TakeDrop(MIDDLE, number + CLOSING);
    TakeDrop(MIDDLE + number, CLOSING);
  }

  lemma RoundTrip(d: ExperimentData)
    ensures Unmarshal(Marshal(d)) == Some(d)
  {
    var text := Base64.Encode(d.data);
    var number := Itoa(d.counter);
    var rest := MIDDLE + number + CLOSING;
    var s := Marshal(d);
    assert s == OPENING + text + rest;
    Pieces(text, number, rest, s);
    Base64.NoQuote(d.data);
    assert rest[0] == MIDDLE[0];
    QuoteAfter(text, rest);
    Base64.RoundTrip(d.data);
    AtoiItoa(d.counter);
    JsonIntItoa(d.counter);
    assert number != [];
  }

  /** Distinct records never share a text. */
  lemma MarshalInjective(d: ExperimentData, e: ExperimentData)
    requires Marshal(d) == Marshal(e)
    ensures d == e
  {
    RoundTrip(d);
    RoundTrip(e);
  }

  /** The text of a record, letter for letter. */
  lemma MarshalExample()
    ensures Marshal(ExperimentData("foo", -7)) == "{\"data\":\"Zm9v\",\"counter\":-7}"
  {
    Base64.Vectors();
    assert Itoa(-7) == "-7";
  }

  /** Digits without a leading zero are the one decimal text of their number. */
  lemma {:induction false} CanonicalDigits(s: Bytes)
    requires s != [] && AllDigits(s) && (s[0] == '0' ==> |s| == 1)
    ensures s == Digits(DigitsValue(s))
    ensures s[0] != '0' ==> DigitsValue(s) > 0
  {
    var k := |s| - 1;
    if k == 0 {
      assert s[..0] == [];
    } else {
      CanonicalDigits(s[..k]);
      assert s == s[..k] + [s[k]];
      LastDigit(DigitsValue(s[..k]), s[k] as int - '0' as int);
    }
  }

  lemma LastDigit(n: nat, d: int)
    requires 0 <= d < 10
    ensures (n * 10 + d) / 10 == n && (n * 10 + d) % 10 == d
  {
  }

  lemma JsonIntPrints(s: Bytes, i: int64)
    requires JsonInt(s) && Atoi(s) == Some(i)
    ensures s == Itoa(i) || (s == "-0" && i == 0)
  {
    hide Digits, DigitsValue;
    if s[0] == '-' {
      CanonicalDigits(s[1..]);
      assert s == ['-'] + s[1..];
    } else {
      assert IsDigit(s[0]);
      CanonicalDigits(s);
    }
  }

  lemma NegativeZero()
    ensures JsonInt("-0") && Atoi("-0") == Some(0)
  {
    assert "-0"[1..] == "0" && "0"[..0] == [];
  }

  /** A JSON integer that parses is the printed number, or a negative zero. */
  lemma JsonIntIs(s: Bytes, i: int64)
    ensures JsonInt(s) && Atoi(s) == Some(i) <==> s == Itoa(i) || (s == "-0" && i == 0)
  {
    hide JsonInt, Atoi, Itoa;
    AtoiItoa(i);
    JsonIntItoa(i);
    NegativeZero();
    if JsonInt(s) && Atoi(s) == Some(i) {
      JsonIntPrints(s, i);
    }
  }

  /** The layout with these pieces. */
  predicate LaidOut(s: Bytes, text: Bytes, number: Bytes) {
    s == OPENING + text + MIDDLE + number + CLOSING && '"' !in text
  }

  lemma LaidOutReads(s: Bytes, text: Bytes, number: Bytes)
    requires LaidOut(s, text, number)
    ensures OPENING <= s && QuoteIndex(s[|OPENING|..]) == |text|
    ensures var rest := s[|OPENING|..][|text|..];
            && s[|OPENING|..][..|text|] == text
            && MIDDLE <= rest && |rest| > |MIDDLE| && rest[|rest| - 1..] == CLOSING
            && rest[|MIDDLE|..|rest| - 1] == number
  {
    var rest := MIDDLE + number + CLOSING;
    assert s == OPENING + text + rest;
    Pieces(text, number, rest, s);
    assert rest[0] == MIDDLE[0];
    QuoteAfter(text, rest);
  }

  lemma Between(rest: Bytes, a: Bytes, b: Bytes)
    requires a <= rest && |rest| >= |a| + |b| && rest[|rest| - |b|..] == b
    ensures rest == a + rest[|a|..|rest| - |b|] + b
  {
  }

  lemma ReadsLaidOut(s: Bytes) returns (text: Bytes, number: Bytes)
    requires Unmarshal(s).Some?
    ensures LaidOut(s, text, number)
    ensures Base64.Decode(text) == Some(Unmarshal(s).value.data)
    ensures JsonInt(number) && Atoi(number) == Some(Unmarshal(s).value.counter)
  {
    hide Base64.Decode, Atoi, JsonInt, QuoteIndex;
    var body := s[|OPENING|..];
    var quote := QuoteIndex(body);
    var rest := body[quote..];
    text := body[..quote];
    number := rest[|MIDDLE|..|rest| - 1];
    Between(rest, MIDDLE, CLOSING);
    Assemble(s, text, number, rest);
  }

  lemma Assemble(s: Bytes, text: Bytes, number: Bytes, rest: Bytes)
    requires OPENING <= s && s[|OPENING|..] == text + rest && rest == MIDDLE + number + CLOSING
    ensures s == OPENING + text + MIDDLE + number + CLOSING
  {
    assert s == OPENING + (text + rest);
    assert OPENING + (text + (MIDDLE + number + CLOSING)) == OPENING + text + MIDDLE + number + CLOSING;
  }

  lemma ReadsBack(s: Bytes, text: Bytes, number: Bytes, d: ExperimentData)
    requires LaidOut(s, text, number) && Base64.Decode(text) == Some(d.data)
    requires JsonInt(number) && Atoi(number) == Some(d.counter)
    ensures Unmarshal(s) == Some(d)
  {
    hide Base64.Decode, Atoi, JsonInt, QuoteIndex;
    LaidOutReads(s, text, number);
  }

  /** Reading accepts exactly Marshal's layout around any base64 text of the bytes and
      the printed counter, and a negative zero for zero. */
  lemma UnmarshalIff(s: Bytes, d: ExperimentData)
    ensures Unmarshal(s) == Some(d) <==>
            exists text, number :: LaidOut(s, text, number) && Base64.Decode(text) == Some(d.data)
                                   && (number == Itoa(d.counter) || (number == "-0" && d.counter == 0))
  {
    hide Unmarshal, Base64.Decode, Atoi, JsonInt, LaidOut;
    if Unmarshal(s) == Some(d) {
      var text, number := ReadsLaidOut(s);
      JsonIntIs(number, d.counter);
    }
    if text, number :| LaidOut(s, text, number) && Base64.Decode(text) == Some(d.data)
                       && (number == Itoa(d.counter) || (number == "-0" && d.counter == 0)) {
      JsonIntIs(number, d.counter);
      ReadsBack(s, text, number, d);
    }
  }
}
