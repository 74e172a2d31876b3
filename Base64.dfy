/**
  The base64 encoding of section 4 of RFC 4648: the 64-character alphabet
  `A-Z a-z 0-9 + /`, each group of three octets written as four characters,
  and a final group of one or two octets padded with `=` to four characters.
  No line breaks are inserted.
 */
module Base64 {

  type Byte = x: int | 0 <= x < 256

  /** A 6-bit group. */
  type Sextet = x: int | 0 <= x < 64

  datatype Option<+T> = None | Some(value: T)

  const PAD: char := '='

  // ---------------------------------------------------------------------------
  // Bits: three octets are four sextets

  /** The four 6-bit groups of a 24-bit group, most significant first. */
  function Sextets(b0: Byte, b1: Byte, b2: Byte): (v: seq<Sextet>)
    ensures |v| == 4
  {
    var x0: int, x1: int, x2: int := b0, b1, b2;
    [x0 / 4, (x0 % 4) * 16 + x1 / 16, (x1 % 16) * 4 + x2 / 64, x2 % 64]
  }

  /** The three octets of four 6-bit groups. */
  function Octets(v0: Sextet, v1: Sextet, v2: Sextet, v3: Sextet): (b: seq<Byte>)
    ensures |b| == 3
  {
    var y0: int, y1: int, y2: int, y3: int := v0, v1, v2, v3;
    [y0 * 4 + y1 / 16, (y1 % 16) * 16 + y2 / 4, (y2 % 4) * 64 + y3]
  }

  /** Euclidean division by a field width of the encoding undoes `q * d + r` for a remainder in range. */
  lemma DivModOfSum(q: int, r: int, d: int)
    requires d == 4 || d == 16 || d == 64
    requires 0 <= r < d
    ensures (q * d + r) / d == q && (q * d + r) % d == r
  {
    if d == 4 {
      assert q * d + r == 4 * q + r;
    } else if d == 16 {
      assert q * d + r == 16 * q + r;
    } else {
      assert q * d + r == 64 * q + r;
    }
  }

  lemma OctetsOfSextets(b0: Byte, b1: Byte, b2: Byte)
    ensures var v := Sextets(b0, b1, b2); Octets(v[0], v[1], v[2], v[3]) == [b0, b1, b2]
  {
    var x0: int, x1: int, x2: int := b0, b1, b2;
    var v := Sextets(b0, b1, b2);
    var o := Octets(v[0], v[1], v[2], v[3]);
    DivModOfSum(x0 % 4, x1 / 16, 16);
    DivModOfSum(x1 % 16, x2 / 64, 4);
    assert o[0] == (x0 / 4) * 4 + x0 % 4 == x0;
    assert o[1] == (x1 / 16) * 16 + x1 % 16 == x1;
    assert o[2] == (x2 / 64) * 64 + x2 % 64 == x2;
  }

  lemma SextetsOfOctets(v0: Sextet, v1: Sextet, v2: Sextet, v3: Sextet)
    ensures var b := Octets(v0, v1, v2, v3); Sextets(b[0], b[1], b[2]) == [v0, v1, v2, v3]
  {
    var y0: int, y1: int, y2: int, y3: int := v0, v1, v2, v3;
    var b := Octets(v0, v1, v2, v3);
    var x0: int, x1: int, x2: int := b[0], b[1], b[2];
    DivModOfSum(y0, y1 / 16, 4);
    DivModOfSum(y1 % 16, y2 / 4, 16);
    DivModOfSum(y2 % 4, y3, 64);
    assert x0 / 4 == y0 && x0 % 4 == y1 / 16;
    assert x1 / 16 == y1 % 16 && x1 % 16 == y2 / 4;
    assert x2 / 64 == y2 % 4 && x2 % 64 == y3;
    assert (x0 % 4) * 16 + x1 / 16 == y1;
    assert (x1 % 16) * 4 + x2 / 64 == y2;
  }

  // ---------------------------------------------------------------------------
  // Characters: Table 1 of RFC 4648

  /** The character that encodes a 6-bit value. */
  function CharOf(v: Sextet): char
  {
    if v < 26 then ('A' as int + v) as char
    else if v < 52 then ('a' as int + (v - 26)) as char
    else if v < 62 then ('0' as int + (v - 52)) as char
    else if v == 62 then '+'
    else '/'
  }

  /** Whether a character belongs to the base64 alphabet. */
  predicate IsAlphabetChar(c: char)
  {
    ('A' <= c <= 'Z') || ('a' <= c <= 'z') || ('0' <= c <= '9') || c == '+' || c == '/'
  }

  /** The inverse of Table 1, defined on the alphabet. */
  function ValueOf(c: char): (v: Sextet)
    requires IsAlphabetChar(c)
    ensures CharOf(v) == c
  {
    if 'A' <= c <= 'Z' then c as int - 'A' as int
    else if 'a' <= c <= 'z' then c as int - 'a' as int + 26
    else if '0' <= c <= '9' then c as int - '0' as int + 52
    else if c == '+' then 62
    else 63
  }

  /** Every 6-bit value has a character of the alphabet, and no two values share one. */
  lemma CharOfIsAlphabet(v: Sextet)
    ensures IsAlphabetChar(CharOf(v)) && ValueOf(CharOf(v)) == v
  {
  }

  predicate AllAlphabet(s: string)
  {
    forall i | 0 <= i < |s| :: IsAlphabetChar(s[i])
  }

  /** A run of 6-bit values written as characters. */
  function Chars(v: seq<Sextet>): (s: string)
    ensures |s| == |v| && AllAlphabet(s)
  {
    var s := seq(|v|, i requires 0 <= i < |v| => CharOf(v[i]));
    assert AllAlphabet(s) by {
      forall i | 0 <= i < |v| ensures IsAlphabetChar(s[i]) {
        CharOfIsAlphabet(v[i]);
      }
    }
    s
  }

  /** A run of alphabet characters read as 6-bit values. */
  function Values(s: string): (v: seq<Sextet>)
    requires AllAlphabet(s)
    ensures |v| == |s|
  {
    seq(|s|, i requires 0 <= i < |s| => ValueOf(s[i]))
  }

  lemma ValuesOfChars(v: seq<Sextet>)
    ensures Values(Chars(v)) == v
  {
    forall i | 0 <= i < |v| ensures Values(Chars(v))[i] == v[i] {
      CharOfIsAlphabet(v[i]);
    }
  }

  lemma CharsOfValues(s: string)
    requires AllAlphabet(s)
    ensures Chars(Values(s)) == s
  {
  }

  // ---------------------------------------------------------------------------
  // The encoding

  /** One quantum of input: three octets, or the final one or two, padded. */
  function EncodeQuantum(b: seq<Byte>): (s: string)
    requires 1 <= |b| <= 3
    ensures |s| == 4
  {
    if |b| == 1 then Chars(Sextets(b[0], 0, 0)[..2]) + [PAD, PAD]
    else if |b| == 2 then Chars(Sextets(b[0], b[1], 0)[..3]) + [PAD]
    else Chars(Sextets(b[0], b[1], b[2]))
  }

  /** Base64 encoding of an octet sequence. */
  function Encode(bytes: seq<Byte>): (s: string)
    ensures |s| == 4 * ((|bytes| + 2) / 3)
    decreases |bytes|
  {
    if |bytes| == 0 then ""
    else if |bytes| <= 3 then EncodeQuantum(bytes)
    else EncodeQuantum(bytes[..3]) + Encode(bytes[3..])
  }

  // ---------------------------------------------------------------------------
  // The decoding

  /** The final quantum `c0 c1 c2 =`, where `c2` may itself be padding. The
      bits that the padding discards must be zero (section 3.5 of RFC 4648). */
  function DecodeFinal(q: string): Option<seq<Byte>>
    requires |q| == 4 && q[3] == PAD
  {
    if !AllAlphabet(q[..2]) then None
    else if q[2] == PAD then
      var v := Values(q[..2]);
      if v[1] % 16 == 0 then Some(Octets(v[0], v[1], 0, 0)[..1]) else None
    else if AllAlphabet(q[..3]) then
      var v := Values(q[..3]);
      if v[2] % 4 == 0 then Some(Octets(v[0], v[1], v[2], 0)[..2]) else None
    else None
  }

  /** The decoder: the octets a canonical base64 string stands for, or None. */
  function Decode(s: string): (r: Option<seq<Byte>>)
    decreases |s|
  {
    if |s| == 0 then Some([])
    else if |s| < 4 then None
    else if |s| == 4 && s[3] == PAD then DecodeFinal(s)
    else if AllAlphabet(s[..4]) then
      var v := Values(s[..4]);
      match Decode(s[4..])
      case None => None
      case Some(rest) => Some(Octets(v[0], v[1], v[2], v[3]) + rest)
    else None
  }

  // ---------------------------------------------------------------------------
  // Properties

  lemma DecodeLastQuantum(b: seq<Byte>)
    requires 1 <= |b| <= 2
    ensures Decode(EncodeQuantum(b)) == Some(b)
  {
    var q := EncodeQuantum(b);
    if |b| == 1 {
      var v := Sextets(b[0], 0, 0);
      ValuesOfChars(v[..2]);
      assert q[..2] == Chars(v[..2]);
      assert Values(q[..2]) == v[..2];
      OctetsOfSextets(b[0], 0, 0);
      assert v[2] == 0 && v[3] == 0 && v[1] % 16 == 0;
      assert q[2] == PAD && q[3] == PAD;
      assert DecodeFinal(q) == Some(Octets(v[0], v[1], 0, 0)[..1]);
      assert [b[0], 0, 0][..1] == b;
    } else {
      var v := Sextets(b[0], b[1], 0);
      ValuesOfChars(v[..3]);
      assert q[..3] == Chars(v[..3]);
      assert q[..2] == Chars(v[..3])[..2];
      assert IsAlphabetChar(q[2]);
      assert Values(q[..3]) == v[..3];
      OctetsOfSextets(b[0], b[1], 0);
      assert v[3] == 0 && v[2] % 4 == 0;
      assert q[2] != PAD && q[3] == PAD;
      assert DecodeFinal(q) == Some(Octets(v[0], v[1], v[2], 0)[..2]);
      assert [b[0], b[1], 0][..2] == b;
    }
  }

  lemma DecodeFullQuantumThen(b: seq<Byte>, rest: string)
    requires |b| == 3
    ensures Decode(EncodeQuantum(b) + rest)
         == if Decode(rest).Some? then Some(b + Decode(rest).value) else None
  {
    var s := EncodeQuantum(b) + rest;
    var v := Sextets(b[0], b[1], b[2]);
    assert s[..4] == Chars(v);
    assert s[4..] == rest;
    assert IsAlphabetChar(s[3]);
    ValuesOfChars(v);
    assert Values(s[..4]) == v;
    OctetsOfSextets(b[0], b[1], b[2]);
    assert [b[0], b[1], b[2]] == b;
    assert !(|s| == 4 && s[3] == PAD);
  }

  /** Decoding undoes encoding, for every octet sequence. */
  lemma {:induction false} DecodeEncode(bytes: seq<Byte>)
    ensures Decode(Encode(bytes)) == Some(bytes)
    decreases |bytes|
  {
    if 1 <= |bytes| <= 2 {
      DecodeLastQuantum(bytes);
    } else if |bytes| == 3 {
      DecodeFullQuantumThen(bytes, "");
      assert EncodeQuantum(bytes) + "" == EncodeQuantum(bytes);
      assert bytes + [] == bytes;
    } else if |bytes| > 3 {
      DecodeEncode(bytes[3..]);
      DecodeFullQuantumThen(bytes[..3], Encode(bytes[3..]));
      assert bytes == bytes[..3] + bytes[3..];
    }
  }

  lemma EncodeFinalQuantum(s: string)
    requires |s| == 4 && s[3] == PAD && DecodeFinal(s).Some?
    ensures Encode(DecodeFinal(s).value) == s
  {
    var b := DecodeFinal(s).value;
    if s[2] == PAD {
      var v := Values(s[..2]);
      SextetsOfOctets(v[0], v[1], 0, 0);
      CharsOfValues(s[..2]);
      assert Sextets(b[0], 0, 0)[..2] == v;
      assert s == s[..2] + [PAD, PAD];
    } else {
      var v := Values(s[..3]);
      SextetsOfOctets(v[0], v[1], v[2], 0);
      CharsOfValues(s[..3]);
      assert Sextets(b[0], b[1], 0)[..3] == v;
      assert s == s[..3] + [PAD];
    }
  }

  /** Encoding undoes decoding: the decoder accepts exactly the encoder's outputs. */
  lemma {:induction false} EncodeDecode(s: string)
    requires Decode(s).Some?
    ensures Encode(Decode(s).value) == s
    decreases |s|
  {
    if |s| == 4 && s[3] == PAD {
      EncodeFinalQuantum(s);
    } else if |s| >= 4 {
      var v := Values(s[..4]);
      var q := Octets(v[0], v[1], v[2], v[3]);
      SextetsOfOctets(v[0], v[1], v[2], v[3]);
      CharsOfValues(s[..4]);
      assert EncodeQuantum(q) == s[..4];
      EncodeDecode(s[4..]);
      var rest := Decode(s[4..]).value;
      var b := q + rest;
      assert b[..3] == q && b[3..] == rest;
      if rest == [] {
        assert s[4..] == "";
        assert s == s[..4];
      } else {
        assert s == s[..4] + s[4..];
      }
    }
  }

  /** Every character is in the alphabet or is padding, and padding occurs
      only in the last two places. */
  predicate PaddedAlphabet(s: string)
  {
    forall i | 0 <= i < |s| :: IsAlphabetChar(s[i]) || (s[i] == PAD && i >= |s| - 2)
  }

  /** Every encoding is made of alphabet characters followed by at most two pads. */
  lemma {:induction false} EncodeAlphabet(bytes: seq<Byte>)
    ensures PaddedAlphabet(Encode(bytes))
    decreases |bytes|
  {
    if |bytes| > 3 {
      var head, tail := EncodeQuantum(bytes[..3]), Encode(bytes[3..]);
      EncodeAlphabet(bytes[3..]);
      assert AllAlphabet(head);
      var s := Encode(bytes);
      assert s == head + tail;
      forall i | 0 <= i < |s|
        ensures IsAlphabetChar(s[i]) || (s[i] == PAD && i >= |s| - 2)
      {
        if i < 4 {
          assert s[i] == head[i] && IsAlphabetChar(head[i]);
        } else {
          assert s[i] == tail[i - 4];
        }
      }
    }
  }
}
