/**
 * Base 64 encoding with padding, as defined in section 4 of RFC 4648: every
 * group of three bytes becomes four characters of the 64-letter alphabet
 * A-Z a-z 0-9 + /, and a final group of one or two bytes is padded with '='.
 * The adapter uses the encoder to inline raw image bytes into a data URI; the
 * decoder exists to state that the encoding loses nothing.
 */
module Base64 {
  import opened Wrappers

  /** An octet, as held by a Python `bytes` object. */
  newtype byte = x: int | 0 <= x < 256

  /** The characters of the base 64 alphabet (section 4 of RFC 4648, table 1). */
  predicate IsAlphabetChar(c: char) {
    ('A' <= c <= 'Z') || ('a' <= c <= 'z') || ('0' <= c <= '9') || c == '+' || c == '/'
  }

  /** The 6-bit value an alphabet character stands for. */
  function ValueOf(c: char): (v: int)
    requires IsAlphabetChar(c)
    ensures 0 <= v < 64
  {
    if 'A' <= c <= 'Z' then c as int - 'A' as int
    else if 'a' <= c <= 'z' then c as int - 'a' as int + 26
    else if '0' <= c <= '9' then c as int - '0' as int + 52
    else if c == '+' then 62
    else 63
  }

  /** The alphabet character that encodes a 6-bit value; ValueOf undoes it. */
  function CharOf(v: int): (c: char)
    requires 0 <= v < 64
    ensures IsAlphabetChar(c) && ValueOf(c) == v
  {
    if v < 26 then ('A' as int + v) as char
    else if v < 52 then ('a' as int + (v - 26)) as char
    else if v < 62 then ('0' as int + (v - 52)) as char
    else if v == 62 then '+'
    else '/'
  }

  /** Every alphabet character is the encoding of its own value. */
  lemma CharOfValueOf(c: char)
    requires IsAlphabetChar(c)
    ensures CharOf(ValueOf(c)) == c
  {
  }

  // The four 6-bit groups of a 24-bit input group a b c (most significant first).
  function Sextet0(a: byte): int { a as int / 4 }
  function Sextet1(a: byte, b: byte): int { (a as int % 4) * 16 + b as int / 16 }
  function Sextet2(b: byte, c: byte): int { (b as int % 16) * 4 + c as int / 64 }
  function Sextet3(c: byte): int { c as int % 64 }

  // The three octets of a 24-bit group given by its four 6-bit groups.
  function Octet0(v0: int, v1: int): byte
    requires 0 <= v0 < 64 && 0 <= v1 < 64
  {
    (v0 * 4 + v1 / 16) as byte
  }
  function Octet1(v1: int, v2: int): byte
    requires 0 <= v1 < 64 && 0 <= v2 < 64
  {
    ((v1 % 16) * 16 + v2 / 4) as byte
  }
  function Octet2(v2: int, v3: int): byte
    requires 0 <= v2 < 64 && 0 <= v3 < 64
  {
    ((v2 % 4) * 64 + v3) as byte
  }

  lemma SextetsInRange(a: byte, b: byte, c: byte)
    ensures 0 <= Sextet0(a) < 64 && 0 <= Sextet1(a, b) < 64
    ensures 0 <= Sextet2(b, c) < 64 && 0 <= Sextet3(c) < 64
  {
  }

  function EncodeGroup(a: byte, b: byte, c: byte): (s: string)
    ensures |s| == 4 && forall i :: 0 <= i < 4 ==> IsAlphabetChar(s[i])
  {
    SextetsInRange(a, b, c);
    [CharOf(Sextet0(a)), CharOf(Sextet1(a, b)), CharOf(Sextet2(b, c)), CharOf(Sextet3(c))]
  }

  /** A final group of one octet: two characters and two pad characters. */
  function EncodeOne(a: byte): (s: string)
    ensures |s| == 4 && IsAlphabetChar(s[0]) && IsAlphabetChar(s[1]) && s[2] == '=' && s[3] == '='
  {
    SextetsInRange(a, 0, 0);
    [CharOf(Sextet0(a)), CharOf(Sextet1(a, 0)), '=', '=']
  }

  /** A final group of two octets: three characters and one pad character. */
  function EncodeTwo(a: byte, b: byte): (s: string)
    ensures |s| == 4 && IsAlphabetChar(s[0]) && IsAlphabetChar(s[1]) && IsAlphabetChar(s[2]) && s[3] == '='
  {
    SextetsInRange(a, b, 0);
    [CharOf(Sextet0(a)), CharOf(Sextet1(a, b)), CharOf(Sextet2(b, 0)), '=']
  }

  /**
   * The padded base 64 encoding of `data`, what Python's base64.b64encode
   * returns (decoded as ASCII): four characters for every started group of
   * three octets, alphabet characters followed by at most two pad characters.
   */
  function Encode(data: seq<byte>): (s: string)
    ensures |s| == 4 * ((|data| + 2) / 3)
    ensures forall i :: 0 <= i < |s| ==> IsAlphabetChar(s[i]) || s[i] == '='
    ensures |data| % 3 == 0 ==> forall i :: 0 <= i < |s| ==> IsAlphabetChar(s[i])
    decreases |data|
  {
    if |data| == 0 then ""
    else if |data| == 1 then EncodeOne(data[0])
    else if |data| == 2 then EncodeTwo(data[0], data[1])
    else
      var g, t := EncodeGroup(data[0], data[1], data[2]), Encode(data[3..]);
      GroupThenRest(g, t);
      EncodedLengthStep(|data| - 3);
      g + t
  }

  /** An unpadded quantum in front of an encoding keeps it within the alphabet and '='. */
  lemma GroupThenRest(g: string, t: string)
    requires |g| == 4 && forall i :: 0 <= i < 4 ==> IsAlphabetChar(g[i])
    requires forall i :: 0 <= i < |t| ==> IsAlphabetChar(t[i]) || t[i] == '='
    ensures forall i :: 0 <= i < |g + t| ==> IsAlphabetChar((g + t)[i]) || (g + t)[i] == '='
    ensures (forall i :: 0 <= i < |t| ==> IsAlphabetChar(t[i])) ==>
      forall i :: 0 <= i < |g + t| ==> IsAlphabetChar((g + t)[i])
  {
    assert forall i :: 4 <= i < |g + t| ==> (g + t)[i] == t[i - 4];
  }

  /** Decodes the last quantum of an encoded string, which may carry padding. */
  function DecodeFinal(q: string): (r: Option<seq<byte>>)
    requires |q| == 4
    ensures r.Some? ==> 1 <= |r.value| <= 3
  {
    if !(IsAlphabetChar(q[0]) && IsAlphabetChar(q[1])) then None
    else
      var v0, v1 := ValueOf(q[0]), ValueOf(q[1]);
      if q[2] == '=' && q[3] == '=' then Some([Octet0(v0, v1)])
      else if IsAlphabetChar(q[2]) && q[3] == '=' then
        var v2 := ValueOf(q[2]);
        Some([Octet0(v0, v1), Octet1(v1, v2)])
      else if IsAlphabetChar(q[2]) && IsAlphabetChar(q[3]) then
        var v2, v3 := ValueOf(q[2]), ValueOf(q[3]);
        Some([Octet0(v0, v1), Octet1(v1, v2), Octet2(v2, v3)])
      else None
  }

  /** Decodes an unpadded quantum of four alphabet characters into three octets. */
  function DecodeGroup(q: string): (r: seq<byte>)
    requires |q| == 4 && forall i :: 0 <= i < 4 ==> IsAlphabetChar(q[i])
    ensures |r| == 3
  {
    var v0, v1, v2, v3 := ValueOf(q[0]), ValueOf(q[1]), ValueOf(q[2]), ValueOf(q[3]);
    [Octet0(v0, v1), Octet1(v1, v2), Octet2(v2, v3)]
  }

  /** One more group of three octets takes one more quantum of four characters. */
  lemma EncodedLengthStep(n: nat)
    ensures 4 * ((n + 3 + 2) / 3) == 4 * ((n + 2) / 3) + 4
    ensures (n + 3) % 3 == n % 3
  {
    assert (n + 5) / 3 == (n + 2) / 3 + 1;
  }

  /**
   * Decoding per section 4 of RFC 4648: the input is a whole number of
   * four-character quanta, padding may appear only in the last one, and any
   * character outside the alphabet is rejected. A successful decoding has
   * exactly the length that an encoding of its result would have.
   */
  function Decode(s: string): (r: Option<seq<byte>>)
    ensures r.Some? ==> |s| == 4 * ((|r.value| + 2) / 3)
    decreases |s|
  {
    if |s| == 0 then Some([])
    else if |s| < 4 then None
    else if |s| == 4 then DecodeFinal(s)
    else if forall i :: 0 <= i < 4 ==> IsAlphabetChar(s[i]) then
      match Decode(s[4..])
      case None => None
      case Some(rest) =>
        EncodedLengthStep(|rest|);
        Some(DecodeGroup(s[..4]) + rest)
    else None
  }

  /** The first octet is recovered from the first two sextets. */
  lemma FirstOctetRoundTrip(a: byte, b: byte)
    ensures 0 <= Sextet1(a, b) < 64
    ensures Octet0(Sextet0(a), Sextet1(a, b)) == a
  {
    assert ((a as int % 4) * 16 + b as int / 16) / 16 == a as int % 4;
  }

  /** The second octet is recovered from the second and third sextets. */
  lemma SecondOctetRoundTrip(a: byte, b: byte, c: byte)
    ensures 0 <= Sextet1(a, b) < 64 && 0 <= Sextet2(b, c) < 64
    ensures Octet1(Sextet1(a, b), Sextet2(b, c)) == b
  {
    assert ((a as int % 4) * 16 + b as int / 16) % 16 == b as int / 16;
    assert ((b as int % 16) * 4 + c as int / 64) / 4 == b as int % 16;
  }

  /** The third octet is recovered from the third and fourth sextets. */
  lemma ThirdOctetRoundTrip(b: byte, c: byte)
    ensures 0 <= Sextet2(b, c) < 64
    ensures Octet2(Sextet2(b, c), Sextet3(c)) == c
  {
    assert ((b as int % 16) * 4 + c as int / 64) % 4 == c as int / 64;
  }

  lemma DecodeEncodeOne(a: byte)
    ensures DecodeFinal(EncodeOne(a)) == Some([a])
  {
    var v0, v1 := Sextet0(a), Sextet1(a, 0);
    FirstOctetRoundTrip(a, 0);
    var q := EncodeOne(a);
    assert q == [CharOf(v0), CharOf(v1), '=', '='];
    assert ValueOf(q[0]) == v0;
    assert ValueOf(q[1]) == v1;
  }

  lemma DecodeEncodeTwo(a: byte, b: byte)
    ensures DecodeFinal(EncodeTwo(a, b)) == Some([a, b])
  {
    var v0, v1, v2 := Sextet0(a), Sextet1(a, b), Sextet2(b, 0);
    FirstOctetRoundTrip(a, b);
    SecondOctetRoundTrip(a, b, 0);
    var q := EncodeTwo(a, b);
    assert q == [CharOf(v0), CharOf(v1), CharOf(v2), '='];
    assert ValueOf(q[0]) == v0;
    assert ValueOf(q[1]) == v1;
    assert ValueOf(q[2]) == v2;
  }

  lemma DecodeEncodeGroup(a: byte, b: byte, c: byte)
    ensures DecodeGroup(EncodeGroup(a, b, c)) == [a, b, c]
    ensures DecodeFinal(EncodeGroup(a, b, c)) == Some([a, b, c])
  {
    FirstOctetRoundTrip(a, b);
    SecondOctetRoundTrip(a, b, c);
    ThirdOctetRoundTrip(b, c);
  }

  lemma DecodeEncodeShort(data: seq<byte>)
    requires 1 <= |data| <= 3
    ensures Decode(Encode(data)) == Some(data)
  {
    if |data| == 1 {
      DecodeEncodeSingle(data);
    } else if |data| == 2 {
      DecodeEncodePair(data);
    } else {
      DecodeEncodeTriple(data);
    }
  }

  lemma DecodeEncodeSingle(data: seq<byte>)
    requires |data| == 1
    ensures Decode(Encode(data)) == Some(data)
  {
    assert [data[0]] == data;
    DecodeEncodeOne(data[0]);
  }

  lemma DecodeEncodePair(data: seq<byte>)
    requires |data| == 2
    ensures Decode(Encode(data)) == Some(data)
  {
    assert [data[0], data[1]] == data;
    DecodeEncodeTwo(data[0], data[1]);
  }

  lemma DecodeEncodeTriple(data: seq<byte>)
    requires |data| == 3
    ensures Decode(Encode(data)) == Some(data)
  {
    DecodeEncodeGroup(data[0], data[1], data[2]);
    assert data[3..] == [];
    assert Encode(data) == EncodeGroup(data[0], data[1], data[2]);
    assert [data[0], data[1], data[2]] == data;
  }

  /** A leading unpadded quantum decodes in front of whatever follows it. */
  lemma DecodeLeadingGroup(g: string, t: string)
    requires |g| == 4 && forall i :: 0 <= i < 4 ==> IsAlphabetChar(g[i])
    requires |t| >= 4 && Decode(t).Some?
    ensures Decode(g + t) == Some(DecodeGroup(g) + Decode(t).value)
  {
    var s := g + t;
    assert s[..4] == g && s[4..] == t;
  }

  lemma SplitFirstGroup(data: seq<byte>)
    requires |data| > 3
    ensures data == [data[0], data[1], data[2]] + data[3..]
  {
  }

  /** The inductive step: one more leading group decodes in front of the rest. */
  lemma DecodeEncodeStep(data: seq<byte>)
    requires |data| > 3
    requires Decode(Encode(data[3..])) == Some(data[3..])
    ensures Decode(Encode(data)) == Some(data)
  {
    SplitFirstGroup(data);
    var g := EncodeGroup(data[0], data[1], data[2]);
    var t := Encode(data[3..]);
    assert (|data| - 3 + 2) / 3 >= 1;
    assert Encode(data) == g + t;
    DecodeLeadingGroup(g, t);
    DecodeEncodeGroup(data[0], data[1], data[2]);
  }

  /** Decoding an encoding gives back the original octets (the RFC 4648 round trip). */
  lemma {:induction false} DecodeEncode(data: seq<byte>)
    ensures Decode(Encode(data)) == Some(data)
    decreases |data|
  {
    if |data| == 0 {
    } else if |data| <= 3 {
      DecodeEncodeShort(data);
    } else {
      DecodeEncode(data[3..]);
      DecodeEncodeStep(data);
    }
  }

  /** Two byte strings with the same encoding are equal: encoding loses nothing. */
  lemma EncodeInjective(d1: seq<byte>, d2: seq<byte>)
    requires Encode(d1) == Encode(d2)
    ensures d1 == d2
  {
    DecodeEncode(d1);
    DecodeEncode(d2);
  }

  /**
   * The test vectors of section 10 of RFC 4648, the bytes of "f", "fo",
   * "foo", "foob" and "foobar": they fix the alphabet, the order of the
   * sextets within a group and the padding of a short final group.
   */
  lemma Rfc4648TestVectors()
    ensures Encode([]) == ""
    ensures Encode([102]) == "Zg=="
    ensures Encode([102, 111]) == "Zm8="
    ensures Encode([102, 111, 111]) == "Zm9v"
    ensures Encode([102, 111, 111, 98]) == "Zm9vYg=="
    ensures Encode([102, 111, 111, 98, 97, 114]) == "Zm9vYmFy"
  {
    FoobarGroups();
    var foob: seq<byte> := [102, 111, 111, 98];
    var foobar: seq<byte> := [102, 111, 111, 98, 97, 114];
    assert foob[3..] == [98];
    assert foobar[3..] == [98, 97, 114];
  }

  /** The quanta the test vectors are made of. */
  lemma FoobarGroups()
    ensures EncodeOne(102) == "Zg==" && EncodeTwo(102, 111) == "Zm8="
    ensures EncodeGroup(102, 111, 111) == "Zm9v" && EncodeGroup(98, 97, 114) == "YmFy"
    ensures EncodeOne(98) == "Yg=="
  {
  }
}
