/**
 * Base64 as `btoa` and `atob` apply it: the encoding of section 4 of RFC 4648
 * (standard alphabet, `=` padding) and the forgiving decode that `atob`
 * runs, which drops ASCII whitespace, tolerates missing padding and rejects
 * any other character outside the alphabet.
 */
module Base64 {
  import opened Wrappers
  import opened Bytes

  // ---------------------------------------------------------------- alphabet

  /** The character for a 6-bit value: A-Z, a-z, 0-9, '+', '/'. */
  function Base64Char(v: int): (c: char)
    requires 0 <= v < 64
    ensures IsBase64Char(c)
  {
    if v < 26 then (v + 65) as char
    else if v < 52 then (v - 26 + 97) as char
    else if v < 62 then (v - 52 + 48) as char
    else if v == 62 then '+'
    else '/'
  }

  predicate IsBase64Char(c: char)
  {
    'A' <= c <= 'Z' || 'a' <= c <= 'z' || '0' <= c <= '9' || c == '+' || c == '/'
  }

  /** The 6-bit value of an alphabet character. */
  function Base64Value(c: char): (v: int)
    requires IsBase64Char(c)
    ensures 0 <= v < 64
  {
    if 'A' <= c <= 'Z' then c as int - 65
    else if 'a' <= c <= 'z' then c as int - 97 + 26
    else if '0' <= c <= '9' then c as int - 48 + 52
    else if c == '+' then 62
    else 63
  }

  /** The alphabet is a bijection between the values 0..63 and its 64 characters. */
  lemma AlphabetBijective(v: int, c: char)
    ensures 0 <= v < 64 ==> Base64Value(Base64Char(v)) == v
    ensures IsBase64Char(c) ==> Base64Char(Base64Value(c)) == c
  {
  }

  function Chars(vs: seq<int>): (t: string)
    requires forall i :: 0 <= i < |vs| ==> 0 <= vs[i] < 64
    ensures |t| == |vs| && forall i :: 0 <= i < |t| ==> IsBase64Char(t[i])
  {
    seq(|vs|, i requires 0 <= i < |vs| => Base64Char(vs[i]))
  }

  function Values(t: string): (vs: seq<int>)
    requires forall i :: 0 <= i < |t| ==> IsBase64Char(t[i])
    ensures |vs| == |t| && forall i :: 0 <= i < |vs| ==> 0 <= vs[i] < 64
  {
    seq(|t|, i requires 0 <= i < |t| => Base64Value(t[i]))
  }

  /** Reading characters back to values undoes writing them. */
  lemma ValuesOfChars(vs: seq<int>)
    requires forall i :: 0 <= i < |vs| ==> 0 <= vs[i] < 64
    ensures Values(Chars(vs)) == vs
  {
    forall i | 0 <= i < |vs|
      ensures Values(Chars(vs))[i] == vs[i]
    {
      AlphabetBijective(vs[i], 'A');
    }
  }

  // ---------------------------------------------------------------- encoding

  /**
   * The 6-bit groups of b, most significant first; a final group of one or
   * two bytes is padded with zero bits to two or three values.
   */
  function Sextets(b: seq<byte>): (vs: seq<int>)
    ensures forall i :: 0 <= i < |vs| ==> 0 <= vs[i] < 64
  {
    if |b| == 0 then []
    else if |b| == 1 then [b[0] / 4, (b[0] % 4) * 16]
    else if |b| == 2 then [b[0] / 4, (b[0] % 4) * 16 + b[1] / 16, (b[1] % 16) * 4]
    else [b[0] / 4, (b[0] % 4) * 16 + b[1] / 16, (b[1] % 16) * 4 + b[2] / 64, b[2] % 64] + Sextets(b[3..])
  }

  /** The `=` characters that bring the output to a multiple of four. */
  function Padding(n: nat): string
  {
    if n % 3 == 1 then "==" else if n % 3 == 2 then "=" else ""
  }

  /** btoa on the byte values: the alphabet characters, then the padding. */
  function Encode(b: seq<byte>): (t: string)
    ensures |t| % 4 == 0
    ensures forall i :: 0 <= i < |t| ==> IsBase64Char(t[i]) || t[i] == '='
  {
    SextetsLength(b);
    Chars(Sextets(b)) + Padding(|b|)
  }

  /**
   * Every three bytes give four values, and a final one or two bytes give
   * two or three: (4 * |b| + 2) / 3 values in all.
   */
  lemma {:induction false} SextetsLength(b: seq<byte>)
    ensures |Sextets(b)| == 4 * (|b| / 3) + (if |b| % 3 == 0 then 0 else |b| % 3 + 1)
    ensures |Sextets(b)| == (4 * |b| + 2) / 3
  {
    if |b| >= 3 {
      SextetsLength(b[3..]);
      assert |b[3..]| / 3 == |b| / 3 - 1 && |b[3..]| % 3 == |b| % 3;
    }
  }

  // ---------------------------------------------------------------- decoding

  predicate IsAsciiWhitespace(c: char)
  {
    c == '\t' || c == '\n' || c == 12 as char || c == '\r' || c == ' '
  }

  /** The input with every ASCII whitespace character removed. */
  function StripWhitespace(t: string): (u: string)
    ensures |u| <= |t|
    ensures forall i :: 0 <= i < |u| ==> !IsAsciiWhitespace(u[i])
  {
    if t == [] then []
    else if IsAsciiWhitespace(t[0]) then StripWhitespace(t[1..])
    else [t[0]] + StripWhitespace(t[1..])
  }

  /** With a length that is a multiple of four, one or two trailing `=` are removed. */
  function StripPadding(t: string): string
  {
    if |t| % 4 != 0 then t
    else if |t| >= 2 && t[|t| - 2] == '=' && t[|t| - 1] == '=' then t[..|t| - 2]
    else if |t| >= 1 && t[|t| - 1] == '=' then t[..|t| - 1]
    else t
  }

  /** The bytes of 6-bit values grouped four to three; two or three left over give one or two bytes. */
  function Octets(vs: seq<int>): (b: seq<byte>)
    requires |vs| % 4 != 1
    requires forall i :: 0 <= i < |vs| ==> 0 <= vs[i] < 64
  {
    if |vs| == 0 then []
    else if |vs| == 2 then [vs[0] * 4 + vs[1] / 16]
    else if |vs| == 3 then [vs[0] * 4 + vs[1] / 16, (vs[1] % 16) * 16 + vs[2] / 4]
    else [vs[0] * 4 + vs[1] / 16, (vs[1] % 16) * 16 + vs[2] / 4, (vs[2] % 4) * 64 + vs[3]] + Octets(vs[4..])
  }

  /**
   * atob on the byte values: None where atob throws, that is when the
   * unpadded length leaves a remainder of 1 modulo 4 or a character is
   * outside the alphabet.
   */
  function Decode(t: string): (r: Option<seq<byte>>)
    ensures r.Some? <==> var u := StripPadding(StripWhitespace(t));
      |u| % 4 != 1 && forall i :: 0 <= i < |u| ==> IsBase64Char(u[i])
  {
    var u := StripPadding(StripWhitespace(t));
    if |u| % 4 == 1 then None
    else if exists i :: 0 <= i < |u| && !IsBase64Char(u[i]) then None
    else Some(Octets(Values(u)))
  }

  /** Whitespace removal keeps every other character. */
  lemma {:induction false} StripKeeps(t: string, i: nat)
    requires i < |t| && !IsAsciiWhitespace(t[i])
    ensures exists j :: 0 <= j < |StripWhitespace(t)| && StripWhitespace(t)[j] == t[i]
  {
    if i == 0 {
      assert StripWhitespace(t)[0] == t[0];
    } else {
      StripKeeps(t[1..], i - 1);
      var j :| 0 <= j < |StripWhitespace(t[1..])| && StripWhitespace(t[1..])[j] == t[1..][i - 1];
      if IsAsciiWhitespace(t[0]) {
        assert StripWhitespace(t)[j] == t[i];
      } else {
        assert StripWhitespace(t)[j + 1] == t[i];
      }
    }
  }

  /** atob throws on a character that is neither whitespace, padding nor in the alphabet. */
  lemma RejectsForeignChar(t: string, i: nat)
    requires i < |t| && !IsAsciiWhitespace(t[i]) && t[i] != '=' && !IsBase64Char(t[i])
    ensures Decode(t) == None
  {
    StripKeeps(t, i);
    var w := StripWhitespace(t);
    var j :| 0 <= j < |w| && w[j] == t[i];
    var u := StripPadding(w);
    assert j < |u| && u[j] == t[i];
  }

  // ---------------------------------------------------------------- round trip

  /** Three bytes survive the trip through four 6-bit values. */
  lemma GroupRoundTrip(b0: byte, b1: byte, b2: byte)
    ensures (b0 / 4) * 4 + ((b0 % 4) * 16 + b1 / 16) / 16 == b0
    ensures (((b0 % 4) * 16 + b1 / 16) % 16) * 16 + ((b1 % 16) * 4 + b2 / 64) / 4 == b1
    ensures (((b1 % 16) * 4 + b2 / 64) % 4) * 64 + b2 % 64 == b2
  {
  }

  /** A decodable list of at least four values starts with one group of three bytes. */
  lemma OctetsUnfold(vs: seq<int>, v0: int, v1: int, v2: int, v3: int)
    requires |vs| >= 4 && |vs| % 4 != 1 && forall i :: 0 <= i < |vs| ==> 0 <= vs[i] < 64
    requires vs[0] == v0 && vs[1] == v1 && vs[2] == v2 && vs[3] == v3
    ensures Octets(vs) == [v0 * 4 + v1 / 16, (v1 % 16) * 16 + v2 / 4, (v2 % 4) * 64 + v3] + Octets(vs[4..])
  {
  }

  /** Proof helper only: four more values leave the length's remainder modulo 4 as it was (arithmetic). */
  lemma FourMore(n: nat)
    ensures (n + 4) % 4 == n % 4
  {
  }

  /** One group of four values in front of any decodable rest reads back as its three bytes. */
  lemma GroupThenRest(v0: int, v1: int, v2: int, v3: int, b0: byte, b1: byte, b2: byte, vs: seq<int>)
    requires 0 <= v0 < 64 && 0 <= v1 < 64 && 0 <= v2 < 64 && 0 <= v3 < 64
    requires v0 * 4 + v1 / 16 == b0 && (v1 % 16) * 16 + v2 / 4 == b1 && (v2 % 4) * 64 + v3 == b2
    requires |vs| % 4 != 1 && forall i :: 0 <= i < |vs| ==> 0 <= vs[i] < 64
    ensures |[v0, v1, v2, v3] + vs| % 4 != 1
    ensures Octets([v0, v1, v2, v3] + vs) == [b0, b1, b2] + Octets(vs)
  {
    var w := [v0, v1, v2, v3] + vs;
    assert w[0] == v0 && w[1] == v1 && w[2] == v2 && w[3] == v3 && w[4..] == vs;
    FourMore(|vs|);
    forall i | 0 <= i < |w|
      ensures 0 <= w[i] < 64
    {
      if i >= 4 {
        assert w[i] == vs[i - 4];
      }
    }
    OctetsUnfold(w, v0, v1, v2, v3);
  }

  /** The 6-bit values of b read back as b. */
  lemma {:induction false} SextetsRoundTrip(b: seq<byte>)
    ensures |Sextets(b)| % 4 != 1
    ensures Octets(Sextets(b)) == b
  {
    SextetsLength(b);
    if |b| >= 3 {
      SextetsRoundTrip(b[3..]);
      var v0, v1, v2, v3 := b[0] / 4, (b[0] % 4) * 16 + b[1] / 16, (b[1] % 16) * 4 + b[2] / 64, b[2] % 64;
      assert Sextets(b) == [v0, v1, v2, v3] + Sextets(b[3..]);
      GroupRoundTrip(b[0], b[1], b[2]);
      GroupThenRest(v0, v1, v2, v3, b[0], b[1], b[2], Sextets(b[3..]));
      assert b == [b[0], b[1], b[2]] + b[3..];
    } else if |b| == 2 {
      assert b == [b[0], b[1]];
      TwoBytesRoundTrip(b[0], b[1]);
    } else if |b| == 1 {
      assert b == [b[0]];
      OneByteRoundTrip(b[0]);
    }
  }

  /** A final single byte survives its two 6-bit values. */
  lemma OneByteRoundTrip(b0: byte)
    ensures Octets(Sextets([b0])) == [b0]
  {
    assert Sextets([b0]) == [b0 / 4, (b0 % 4) * 16];
  }

  /** A final pair of bytes survives its three 6-bit values. */
  lemma TwoBytesRoundTrip(b0: byte, b1: byte)
    ensures Octets(Sextets([b0, b1])) == [b0, b1]
  {
    assert Sextets([b0, b1]) == [b0 / 4, (b0 % 4) * 16 + b1 / 16, (b1 % 16) * 4];
    GroupRoundTrip(b0, b1, 0);
  }

  /** An encoding holds no whitespace. */
  lemma NoWhitespace(t: string)
    requires forall i :: 0 <= i < |t| ==> IsBase64Char(t[i]) || t[i] == '='
    ensures StripWhitespace(t) == t
  {
    if t != [] {
      NoWhitespace(t[1..]);
      assert [t[0]] + t[1..] == t;
    }
  }

  /** Removing the padding of an encoding leaves its alphabet characters. */
  lemma UnpadEncoding(b: seq<byte>)
    ensures StripPadding(Encode(b)) == Chars(Sextets(b))
  {
    var cs := Chars(Sextets(b));
    var t := Encode(b);
    if |b| % 3 == 1 {
      assert t[..|t| - 2] == cs;
    } else if |b| % 3 == 2 {
      assert t[..|t| - 1] == cs;
    } else {
      assert t == cs;
    }
  }

  /** atob undoes btoa: every byte string decodes back from its encoding. */
  lemma RoundTrip(b: seq<byte>)
    ensures Decode(Encode(b)) == Some(b)
  {
    var t := Encode(b);
    NoWhitespace(t);
    UnpadEncoding(b);
    SextetsRoundTrip(b);
    ValuesOfChars(Sextets(b));
  }
}
