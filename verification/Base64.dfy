/** Base64 with the standard alphabet and padding (section 4 of RFC 4648). */
module Base64 {
  import opened Wrappers

  newtype Byte = n: int | 0 <= n < 256

  /** A six-bit value. */
  type Sextet = n: int | 0 <= n < 64

  function CharOf(d: Sextet): (c: char)
    ensures c !in {'$', '=', '-', '_'}
  {
    if d < 26 then ('A' as int + d) as char
    else if d < 52 then ('a' as int + (d - 26)) as char
    else if d < 62 then ('0' as int + (d - 52)) as char
    else if d == 62 then '+'
    else '/'
  }

  function ValueOf(c: char): Option<Sextet> {
    if 'A' <= c <= 'Z' then Some(c as int - 'A' as int)
    else if 'a' <= c <= 'z' then Some(c as int - 'a' as int + 26)
    else if '0' <= c <= '9' then Some(c as int - '0' as int + 52)
    else if c == '+' then Some(62)
    else if c == '/' then Some(63)
    else None
  }

  lemma ValueOfChar(d: Sextet)
    ensures ValueOf(CharOf(d)) == Some(d)
  {
  }

  // ----- one group of three bytes ---------------------------------------------------

  function S0(a: Byte): Sextet {
    a as int / 4
  }

  function S1(a: Byte, b: Byte): Sextet {
    (a as int % 4) * 16 + b as int / 16
  }

  function S2(b: Byte, c: Byte): Sextet {
    (b as int % 16) * 4 + c as int / 64
  }

  function S3(c: Byte): Sextet {
    c as int % 64
  }

  function B0(w: Sextet, x: Sextet): Byte {
    (w * 4 + x / 16) as Byte
  }

  function B1(x: Sextet, y: Sextet): Byte {
    ((x % 16) * 16 + y / 4) as Byte
  }

  function B2(y: Sextet, z: Sextet): Byte {
    ((y % 4) * 64 + z) as Byte
  }

  lemma GroupRoundTrip(a: Byte, b: Byte, c: Byte)
    ensures B0(S0(a), S1(a, b)) == a && B1(S1(a, b), S2(b, c)) == b && B2(S2(b, c), S3(c)) == c
  {
  }

  /** Four characters carry the same 24 bits as three bytes. */
  lemma GroupIsNumber(a: Byte, b: Byte, c: Byte)
    ensures ((S0(a) * 64 + S1(a, b)) * 64 + S2(b, c)) * 64 + S3(c) == (a as int * 256 + b as int) * 256 + c as int
  {
  }

  // ----- strings --------------------------------------------------------------------

  function Encode(bytes: seq<Byte>): string {
    if bytes == [] then ""
    else if |bytes| == 1 then [CharOf(S0(bytes[0])), CharOf(S1(bytes[0], 0)), '=', '=']
    else if |bytes| == 2 then
      [CharOf(S0(bytes[0])), CharOf(S1(bytes[0], bytes[1])), CharOf(S2(bytes[1], 0)), '=']
    else
      [CharOf(S0(bytes[0])), CharOf(S1(bytes[0], bytes[1])), CharOf(S2(bytes[1], bytes[2])), CharOf(S3(bytes[2]))]
      + Encode(bytes[3..])
  }

  function DecodeGroup(w: char, x: char, y: char, z: char): Option<seq<Byte>> {
    match (ValueOf(w), ValueOf(x), ValueOf(y), ValueOf(z))
    case (Some(p), Some(q), Some(r), Some(s)) => Some([B0(p, q), B1(q, r), B2(r, s)])
    case _ => None
  }

  function DecodeLast(w: char, x: char, y: char, z: char): Option<seq<Byte>> {
    if z != '=' then DecodeGroup(w, x, y, z)
    else match (ValueOf(w), ValueOf(x), ValueOf(y))
      case (Some(p), Some(q), Some(r)) => Some([B0(p, q), B1(q, r)])
      case (Some(p), Some(q), None) => if y == '=' then Some([B0(p, q)]) else None
      case _ => None
  }

  function Decode(s: string): Option<seq<Byte>> {
    if s == "" then Some([])
    else if |s| < 4 then None
    else if |s| == 4 then DecodeLast(s[0], s[1], s[2], s[3])
    else match (DecodeGroup(s[0], s[1], s[2], s[3]), Decode(s[4..]))
      case (Some(a), Some(b)) => Some(a + b)
      case _ => None
  }

  /** The `$` that separates the fields of a hash string never occurs in base64. */
  lemma {:induction false} EncodeFree(bytes: seq<Byte>)
    ensures '$' !in Encode(bytes)
  {
    hide S0, S1, S2, S3;
    if |bytes| >= 3 {
      EncodeFree(bytes[3..]);
    }
  }

  /** Decoding undoes encoding. */
  lemma {:induction false} DecodeEncode(bytes: seq<Byte>)
    ensures Decode(Encode(bytes)) == Some(bytes)
  {
    hide S0, S1, S2, S3, B0, B1, B2, CharOf, ValueOf;
    if |bytes| == 1 {
      LastOne(bytes[0]);
      assert bytes == [bytes[0]];
    } else if |bytes| == 2 {
      LastTwo(bytes[0], bytes[1]);
      assert bytes == [bytes[0], bytes[1]];
    } else if |bytes| >= 3 {
      FullGroup(bytes[0], bytes[1], bytes[2]);
      DecodeEncode(bytes[3..]);
      var s := Encode(bytes);
      assert s[4..] == Encode(bytes[3..]);
      assert bytes == [bytes[0], bytes[1], bytes[2]] + bytes[3..];
      NonEmptyEncode(bytes[3..]);
      assert [bytes[0], bytes[1], bytes[2]] + [] == [bytes[0], bytes[1], bytes[2]];
    }
  }

  lemma NonEmptyEncode(bytes: seq<Byte>)
    ensures Encode(bytes) == "" <==> bytes == []
  {
  }

  lemma FullGroup(a: Byte, b: Byte, c: Byte)
    ensures var w, x, y, z := CharOf(S0(a)), CharOf(S1(a, b)), CharOf(S2(b, c)), CharOf(S3(c));
            DecodeGroup(w, x, y, z) == Some([a, b, c]) && DecodeLast(w, x, y, z) == Some([a, b, c])
  {
    hide S0, S1, S2, S3, B0, B1, B2, CharOf, ValueOf;
    ValueOfChar(S0(a));
    ValueOfChar(S1(a, b));
    ValueOfChar(S2(b, c));
    ValueOfChar(S3(c));
    GroupRoundTrip(a, b, c);
  }

  /** The test vectors of section 10 of RFC 4648, and one with the last two characters of the alphabet. */
  lemma StandardVectors()
    ensures Encode([]) == "" && Encode([102]) == "Zg==" && Encode([102, 111]) == "Zm8=" && Encode([251, 255]) == "+/8="
    ensures Encode([102, 111, 111]) == "Zm9v" && Encode([102, 111, 111, 98]) == "Zm9vYg=="
    ensures Encode([102, 111, 111, 98, 97]) == "Zm9vYmE=" && Encode([102, 111, 111, 98, 97, 114]) == "Zm9vYmFy"
  {
    hide Encode;
    ShortVectors();
    LongVectors();
  }

  lemma ShortVectors()
    ensures Encode([]) == "" && Encode([102]) == "Zg==" && Encode([102, 111]) == "Zm8=" && Encode([251, 255]) == "+/8="
    ensures Encode([102, 111, 111]) == "Zm9v" && Encode([102, 111, 111, 98]) == "Zm9vYg=="
  {
    GroupVectors();
    FullVector(102, 111, 111, []);
    FullVector(102, 111, 111, [98]);
    assert "Zm9v" + "" == "Zm9v" && "Zm9v" + "Yg==" == "Zm9vYg==";
  }

  lemma LongVectors()
    ensures Encode([102, 111, 111, 98, 97]) == "Zm9vYmE=" && Encode([102, 111, 111, 98, 97, 114]) == "Zm9vYmFy"
  {
    GroupVectors();
    RestVectors();
    hide *;
    FullVector(102, 111, 111, [98, 97]);
    FullVector(102, 111, 111, [98, 97, 114]);
    assert [102, 111, 111] + [98, 97] == [102, 111, 111, 98, 97];
    assert [102, 111, 111] + [98, 97, 114] == [102, 111, 111, 98, 97, 114];
    assert "Zm9v" + "YmE=" == "Zm9vYmE=" && "Zm9v" + "YmFy" == "Zm9vYmFy";
  }

  lemma GroupVectors()
    ensures [CharOf(S0(102)), CharOf(S1(102, 111)), CharOf(S2(111, 111)), CharOf(S3(111))] == "Zm9v"
    ensures [CharOf(S0(98)), CharOf(S1(98, 97)), CharOf(S2(97, 114)), CharOf(S3(114))] == "YmFy"
  {
  }

  lemma RestVectors()
    ensures Encode([98, 97]) == "YmE=" && Encode([98, 97, 114]) == "YmFy"
  {
    GroupVectors();
    PairVector();
    hide CharOf, S0, S1, S2, S3;
    FullVector(98, 97, 114, []);
    assert "YmFy" + "" == "YmFy";
  }

  lemma PairVector()
    ensures Encode([98, 97]) == "YmE="
  {
  }

  lemma FullVector(a: Byte, b: Byte, c: Byte, rest: seq<Byte>)
    ensures Encode([a, b, c] + rest) == [CharOf(S0(a)), CharOf(S1(a, b)), CharOf(S2(b, c)), CharOf(S3(c))] + Encode(rest)
  {
    assert ([a, b, c] + rest)[3..] == rest;
  }

  /** Padding only at the end, one `=` when two bytes are left over, and none of the URL characters. */
  lemma {:induction false} EncodeShape(bytes: seq<Byte>)
    requires |bytes| % 3 == 2
    ensures var s := Encode(bytes);
            && |s| == 4 * (|bytes| / 3) + 4 && s[|s| - 1] == '='
            && forall i :: 0 <= i < |s| - 1 ==> s[i] !in {'=', '-', '_'}
  {
    hide S0, S1, S2, S3;
    if |bytes| >= 3 {
      EncodeShape(bytes[3..]);
    }
  }

  lemma PadHasNoValue()
    ensures ValueOf('=').None?
  {
  }

  lemma LastOne(a: Byte)
    ensures DecodeLast(CharOf(S0(a)), CharOf(S1(a, 0)), '=', '=') == Some([a])
  {
    hide S0, S1, S2, B0, B1, CharOf, ValueOf;
    PadHasNoValue();
    ValueOfChar(S0(a));
    ValueOfChar(S1(a, 0));
    GroupRoundTrip(a, 0, 0);
  }

  lemma LastTwo(a: Byte, b: Byte)
    ensures DecodeLast(CharOf(S0(a)), CharOf(S1(a, b)), CharOf(S2(b, 0)), '=') == Some([a, b])
  {
    hide S0, S1, S2, B0, B1, CharOf, ValueOf;
    ValueOfChar(S0(a));
    ValueOfChar(S1(a, b));
    ValueOfChar(S2(b, 0));
    GroupRoundTrip(a, b, 0);
  }
}
