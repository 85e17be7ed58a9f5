/** Base64 with the standard alphabet and `=` padding, as in section 4 of
    RFC 4648: Python's `base64.b64encode` and, on canonically padded input,
    `base64.b64decode`. */
module Base64 {
  import opened Results

  type Byte = b: int | 0 <= b < 256

  /** The value of a base64 digit, 0..63. */
  type Sextet = v: int | 0 <= v < 64

  /** The 64-character alphabet of RFC 4648, table 1. */
  const Alphabet: string := "ABCDEFGHIJKLMNOPQRSTUVWXYZabcdefghijklmnopqrstuvwxyz0123456789+/"

  const Pad: char := '='

  /** The alphabet character of a sextet. */
  function Digit(v: Sextet): (c: char)
    ensures c != Pad && c != ','
  {
    if v < 26 then 'A' + v as char
    else if v < 52 then 'a' + (v - 26) as char
    else if v < 62 then '0' + (v - 52) as char
    else if v == 62 then '+'
    else '/'
  }

  /** The sextet an alphabet character stands for; `None` for any other
      character, the pad included. */
  function Value(c: char): (r: Option<Sextet>)
    ensures r.Some? ==> Digit(r.value) == c
  {
    if 'A' <= c <= 'Z' then Some((c - 'A') as int)
    else if 'a' <= c <= 'z' then Some((c - 'a') as int + 26)
    else if '0' <= c <= '9' then Some((c - '0') as int + 52)
    else if c == '+' then Some(62)
    else if c == '/' then Some(63)
    else None
  }

  lemma ValueOfDigit(v: Sextet)
    ensures Value(Digit(v)) == Some(v)
  {
  }

  /** The test vectors of section 10 of RFC 4648 ("", "f", "fo", "foo"),
      which cover all three kinds of final group. */
  lemma KnownAnswers()
    ensures Encode([]) == ""
    ensures Encode([102]) == "Zg=="
    ensures Encode([102, 111]) == "Zm8="
    ensures Encode([102, 111, 111]) == "Zm9v"
  {
  }

  /** The longer test vectors of section 10 of RFC 4648 ("foob", "fooba",
      "foobar"): a full group followed by each kind of final group. */
  lemma KnownAnswersLonger()
    ensures Encode([102, 111, 111, 98]) == "Zm9vYg=="
    ensures Encode([102, 111, 111, 98, 97]) == "Zm9vYmE="
    ensures Encode([102, 111, 111, 98, 97, 114]) == "Zm9vYmFy"
  {
    KnownAnswers();
    assert [102, 111, 111, 98][3..] == [98];
    assert [102, 111, 111, 98, 97][3..] == [98, 97];
    assert [102, 111, 111, 98, 97, 114][3..] == [98, 97, 114];
  }

  /** Every character of an encoding is a digit or the pad. */
  predicate IsEncodingChar(c: char) {
    Value(c).Some? || c == Pad
  }

  /** Three bytes become four digits: the 24 bits split into sextets. */
  function EncodeTriple(a: Byte, b: Byte, c: Byte): string {
    [Digit(a / 4), Digit((a % 4) * 16 + b / 16), Digit((b % 16) * 4 + c / 64), Digit(c % 64)]
  }

  /** A final group of two bytes: three digits, zero-filled, and one pad. */
  function EncodePair(a: Byte, b: Byte): string {
    [Digit(a / 4), Digit((a % 4) * 16 + b / 16), Digit((b % 16) * 4), Pad]
  }

  /** A final single byte: two digits, zero-filled, and two pads. */
  function EncodeSingle(a: Byte): string {
    [Digit(a / 4), Digit((a % 4) * 16), Pad, Pad]
  }

  /** `base64.b64encode(data).decode()`. */
  function Encode(data: seq<Byte>): (s: string)
    ensures |s| % 4 == 0 && (|s| == 0 <==> |data| == 0)
    ensures forall i :: 0 <= i < |s| ==> IsEncodingChar(s[i])
    decreases |data|
  {
    if |data| == 0 then ""
    else if |data| == 1 then EncodeSingle(data[0])
    else if |data| == 2 then EncodePair(data[0], data[1])
    else EncodeTriple(data[0], data[1], data[2]) + Encode(data[3..])
  }

  /** The three bytes of a group, reassembled from its four sextets. */
  function High(a: Sextet, b: Sextet): Byte {
    (a as int) * 4 + (b as int) / 16
  }

  function Middle(b: Sextet, c: Sextet): Byte {
    ((b as int) % 16) * 16 + (c as int) / 4
  }

  function Low(c: Sextet, d: Sextet): Byte {
    ((c as int) % 4) * 64 + d as int
  }

  /** Every started group of three bytes takes four characters. */
  lemma {:induction false} EncodedLength(data: seq<Byte>)
    ensures |Encode(data)| == (|data| + 2) / 3 * 4
    decreases |data|
  {
    if |data| > 2 {
      EncodedLength(data[3..]);
      GroupStep(|data| - 3);
    }
  }

  lemma GroupStep(n: nat)
    ensures (n + 3 + 2) / 3 * 4 == (n + 2) / 3 * 4 + 4
  {
  }

  /** Four digits without padding give three bytes. */
  function DecodeQuad(q: string): (r: Result<seq<Byte>, string>)
    requires |q| == 4
    ensures r.Success? ==> |r.value| == 3
  {
    match (Value(q[0]), Value(q[1]), Value(q[2]), Value(q[3]))
    case (Some(a), Some(b), Some(c), Some(d)) =>
      Success([High(a, b), Middle(b, c), Low(c, d)])
    case _ => Failure("Invalid base64-encoded string")
  }

  /** The last group of four: no pad, one pad or two pads. */
  function DecodeLast(q: string): (r: Result<seq<Byte>, string>)
    requires |q| == 4
    ensures r.Success? ==> 1 <= |r.value| <= 3
  {
    if q[2] == Pad && q[3] == Pad then
      match (Value(q[0]), Value(q[1]))
      case (Some(a), Some(b)) => Success([High(a, b)])
      case _ => Failure("Invalid base64-encoded string")
    else if q[3] == Pad then
      match (Value(q[0]), Value(q[1]), Value(q[2]))
      case (Some(a), Some(b), Some(c)) => Success([High(a, b), Middle(b, c)])
      case _ => Failure("Invalid base64-encoded string")
    else
      DecodeQuad(q)
  }

  /** `base64.b64decode(s)` on input whose length is a multiple of four,
      with padding only in the last group. */
  function Decode(s: string): (r: Result<seq<Byte>, string>)
    decreases |s|
  {
    if |s| == 0 then Success([])
    else if |s| % 4 != 0 then Failure("Incorrect padding")
    else if |s| == 4 then DecodeLast(s)
    else Chain(DecodeQuad(s[..4]), Decode(s[4..]))
  }

  /** The first failure of two decodings, or their concatenation. */
  function Chain(head: Result<seq<Byte>, string>, tail: Result<seq<Byte>, string>): (r: Result<seq<Byte>, string>)
    ensures r.Success? <==> head.Success? && tail.Success?
    ensures r.Success? ==> r.value == head.value + tail.value
    ensures head.Failure? ==> r == head
  {
    match head
    case Failure(e) => Failure(e)
    case Success(h) =>
      match tail
      case Failure(e) => Failure(e)
      case Success(t) => Success(h + t)
  }

  lemma HighOfSplit(a: Byte, x: Sextet)
    requires x / 16 == a % 4
    ensures High(a / 4, x) == a
  {
  }

  lemma MiddleOfSplit(b: Byte, x: Sextet, y: Sextet)
    requires x % 16 == b / 16 && y / 4 == b % 16
    ensures Middle(x, y) == b
  {
  }

  lemma LowOfSplit(c: Byte, x: Sextet)
    requires x % 4 == c / 64
    ensures Low(x, c % 64) == c
  {
  }

  lemma TripleRoundTrip(a: Byte, b: Byte, c: Byte)
    ensures DecodeQuad(EncodeTriple(a, b, c)) == Success([a, b, c])
    ensures DecodeLast(EncodeTriple(a, b, c)) == Success([a, b, c])
  {
    var x: Sextet := (a % 4) * 16 + b / 16;
    var y: Sextet := (b % 16) * 4 + c / 64;
    ValueOfDigit(a / 4);
    ValueOfDigit(x);
    ValueOfDigit(y);
    ValueOfDigit(c % 64);
    HighOfSplit(a, x);
    MiddleOfSplit(b, x, y);
    LowOfSplit(c, y);
  }

  lemma PairRoundTrip(a: Byte, b: Byte)
    ensures DecodeLast(EncodePair(a, b)) == Success([a, b])
  {
    var x: Sextet := (a % 4) * 16 + b / 16;
    var y: Sextet := (b % 16) * 4;
    ValueOfDigit(a / 4);
    ValueOfDigit(x);
    ValueOfDigit(y);
    HighOfSplit(a, x);
    MiddleOfSplit(b, x, y);
  }

  lemma SingleRoundTrip(a: Byte)
    ensures DecodeLast(EncodeSingle(a)) == Success([a])
  {
    ValueOfDigit(a / 4);
    ValueOfDigit((a % 4) * 16);
    HighOfSplit(a, (a % 4) * 16);
  }

  lemma AddFour(n: nat)
    ensures (n + 4) % 4 == n % 4
  {
  }

  /** A full first group followed by a well-formed rest decodes to the
      concatenation of the two. */
  lemma DecodeCons(q: string, rest: string)
    requires |q| == 4 && |rest| > 0 && |rest| % 4 == 0
    requires DecodeQuad(q).Success? && Decode(rest).Success?
    ensures Decode(q + rest) == Success(DecodeQuad(q).value + Decode(rest).value)
  {
    var s := q + rest;
    assert |s| == |rest| + 4;
    AddFour(|rest|);
    assert s[..4] == q && s[4..] == rest;
  }

  /** Decoding an encoding gives back the original bytes. */
  lemma {:induction false} RoundTrip(data: seq<Byte>)
    ensures Decode(Encode(data)) == Success(data)
    decreases |data|
  {
    if |data| == 0 {
    } else if |data| == 1 {
      SingleRoundTrip(data[0]);
      assert data == [data[0]];
    } else if |data| == 2 {
      PairRoundTrip(data[0], data[1]);
      assert data == [data[0], data[1]];
    } else if |data| == 3 {
      TripleRoundTrip(data[0], data[1], data[2]);
      assert Encode(data) == EncodeTriple(data[0], data[1], data[2]) + Encode([]);
      assert data == [data[0], data[1], data[2]];
    } else {
      RoundTrip(data[3..]);
      RoundTripGroup(data);
    }
  }

  lemma SplitAfterThree(data: seq<Byte>)
    requires |data| >= 3
    ensures data == [data[0], data[1], data[2]] + data[3..]
  {
  }

  /** The inductive step: the first group of three, then the rest. */
  lemma RoundTripGroup(data: seq<Byte>)
    requires |data| > 3
    requires Decode(Encode(data[3..])) == Success(data[3..])
    ensures Decode(Encode(data)) == Success(data)
  {
    var first := [data[0], data[1], data[2]];
    SplitAfterThree(data);
    var head := EncodeTriple(data[0], data[1], data[2]);
    var rest := Encode(data[3..]);
    assert Encode(data) == head + rest;
    TripleRoundTrip(data[0], data[1], data[2]);
    DecodeCons(head, rest);
    calc {
      Decode(Encode(data));
      Decode(head + rest);
      Success(first + data[3..]);
      Success(data);
    }
  }
}
