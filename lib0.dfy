/**
 * The byte-level primitives of the lib0 encoding library that the codec
 * calls: fixed-width integers, the base-128 varint, length-prefixed strings
 * and 8-byte floats, with an append-only Encoder and a cursor-based Decoder.
 *
 * Wire assumptions (the library's source is not part of this model):
 * writeVarUint emits 7 bits per byte, least significant group first, with the
 * high bit set on every byte but the last; writeVarString emits the byte
 * length as such a varint and then the bytes; writeUint32 emits 4 bytes,
 * least significant first; writeFloat64 emits the 8 bytes of the double.
 */
module Lib0 {
  import opened Wrappers
  import opened Bytes

  /** A double as the 8 bytes writeFloat64 emits for it; its value is never inspected. */
  type Float64 = s: seq<byte> | |s| == 8 witness [0, 0, 0, 0, 0, 0, 0, 0]

  const TwoTo32: int := 0x1_0000_0000

  /** A decoded value together with the bytes left after it. */
  type Parsed<T> = Result<(T, seq<byte>)>

  /** Pairs a decoder method's result with the bytes it left unread. */
  function WithRest<T>(r: Result<T>, rest: seq<byte>): Parsed<T>
  {
    match r
    case Ok(v) => Ok((v, rest))
    case Err(e) => Err(e)
  }

  // ---------------------------------------------------------------- writing

  /** The bytes writeVarUint emits for n. */
  function VarUint(n: nat): (r: seq<byte>)
    ensures |r| >= 1
    ensures r[|r| - 1] < 128
    ensures forall i :: 0 <= i < |r| - 1 ==> r[i] >= 128
  {
    if n < 128 then [n]
    else [128 + n % 128] + VarUint(n / 128)
  }

  /** The bytes writeVarString emits for the string t: its length, then its bytes. */
  function VarString(t: Text): seq<byte>
  {
    VarUint(|t|) + t
  }

  /**
   * The bytes writeUint32 emits for n: `num & 255` and then `num >>>= 8`,
   * four times, so n is first reduced modulo 2^32.
   */
  function Uint32(n: int): (r: seq<byte>)
    ensures |r| == 4
  {
    var m := n % TwoTo32;
    [ToUint8(m), ToUint8(m / 0x100), ToUint8(m / 0x1_0000), ToUint8(m / 0x100_0000)]
  }

  // ---------------------------------------------------------------- reading

  /** readUint8 on the unread bytes s. */
  function ParseUint8(s: seq<byte>): (r: Parsed<byte>)
    ensures r.Ok? <==> |s| >= 1
    ensures r.Ok? ==> r.value == (s[0], s[1..])
  {
    if |s| == 0 then Err(Truncated) else Ok((s[0], s[1..]))
  }

  /** readVarUint: 7-bit groups, least significant first, until a byte below 128. */
  function ParseVarUint(s: seq<byte>): (r: Parsed<nat>)
    ensures r.Ok? ==> |r.value.1| < |s| && r.value.1 == s[|s| - |r.value.1|..]
  {
    if |s| == 0 then Err(Truncated)
    else if s[0] < 128 then Ok((s[0], s[1..]))
    else
      match ParseVarUint(s[1..])
      case Err(e) => Err(e)
      case Ok((high, rest)) => Ok((s[0] - 128 + 128 * high, rest))
  }

  /** n raw bytes, as readUint8Array reads them. */
  function ParseBytes(s: seq<byte>, n: nat): (r: Parsed<seq<byte>>)
    ensures r.Ok? <==> n <= |s|
    ensures r.Ok? ==> r.value == (s[..n], s[n..])
  {
    if n <= |s| then Ok((s[..n], s[n..])) else Err(Truncated)
  }

  /** readVarString: a varint length, then that many bytes. */
  function ParseVarString(s: seq<byte>): (r: Parsed<Text>)
    ensures r.Ok? ==> |r.value.1| < |s| && r.value.1 == s[|s| - |r.value.1|..]
  {
    match ParseVarUint(s)
    case Err(e) => Err(e)
    case Ok((n, rest)) => ParseBytes(rest, n)
  }

  /** readUint32: four bytes, least significant first. */
  function ParseUint32(s: seq<byte>): (r: Parsed<nat>)
    ensures r.Ok? <==> |s| >= 4
    ensures r.Ok? ==> r.value.0 < TwoTo32 && r.value.1 == s[4..]
  {
    if |s| < 4 then Err(Truncated)
    else Ok((s[0] as int + 0x100 * s[1] as int + 0x1_0000 * s[2] as int + 0x100_0000 * s[3] as int, s[4..]))
  }

  /** readFloat64: the next 8 bytes. */
  function ParseFloat64(s: seq<byte>): (r: Parsed<Float64>)
    ensures r.Ok? <==> |s| >= 8
    ensures r.Ok? ==> s == r.value.0 + r.value.1
  {
    if |s| < 8 then Err(Truncated) else Ok((s[..8], s[8..]))
  }

  // ---------------------------------------------------------------- round trips

  /** Reading a varint back yields the number written and stops right after it. */
  lemma {:induction false} VarUintRoundTrip(n: nat, rest: seq<byte>)
    ensures ParseVarUint(VarUint(n) + rest) == Ok((n, rest))
  {
    if n >= 128 {
      assert VarUint(n) + rest == [128 + n % 128] + (VarUint(n / 128) + rest);
      assert (VarUint(n) + rest)[1..] == VarUint(n / 128) + rest;
      VarUintRoundTrip(n / 128, rest);
    }
  }

  /** Reading a var-string back yields the same bytes and stops right after them. */
  lemma VarStringRoundTrip(t: Text, rest: seq<byte>)
    ensures ParseVarString(VarString(t) + rest) == Ok((t, rest))
  {
    assert VarString(t) + rest == VarUint(|t|) + (t + rest);
    VarUintRoundTrip(|t|, t + rest);
    assert (t + rest)[..|t|] == t && (t + rest)[|t|..] == rest;
  }

  /** Reading a uint32 back yields the number written, reduced modulo 2^32. */
  lemma Uint32RoundTrip(n: int, rest: seq<byte>)
    ensures ParseUint32(Uint32(n) + rest) == Ok((n % TwoTo32, rest))
  {
    var m := n % TwoTo32;
    var s := Uint32(n) + rest;
    assert s[4..] == rest;
    assert s[0] == m % 0x100 && s[1] == (m / 0x100) % 0x100;
    assert s[2] == (m / 0x1_0000) % 0x100 && s[3] == m / 0x100_0000;
  }

  /** Reading a float back yields its 8 bytes unchanged. */
  lemma Float64RoundTrip(f: Float64, rest: seq<byte>)
    ensures ParseFloat64(f + rest) == Ok((f, rest))
  {
    assert (f + rest)[..8] == f && (f + rest)[8..] == rest;
  }

  // ---------------------------------------------------------------- objects

  /** lib0's encoder: an output buffer that writes append to. */
  class Encoder {
    var buf: seq<byte>

    /** createEncoder */
    constructor ()
      ensures buf == []
    {
      buf := [];
    }

    /** writeUint8: stores n as a Uint8Array element, i.e. modulo 256. */
    method WriteUint8(n: int)
      modifies this
      ensures buf == old(buf) + [ToUint8(n)]
    {
      buf := buf + [ToUint8(n)];
    }

    /** writeVarUint */
    method WriteVarUint(n: nat)
      modifies this
      ensures buf == old(buf) + VarUint(n)
    {
      var num := n;
      while num > 127
        invariant buf + VarUint(num) == old(buf) + VarUint(n)
        decreases num
      {
        assert VarUint(num) == [128 + num % 128] + VarUint(num / 128);
        WriteUint8(128 + num % 128);
        num := num / 128;
      }
      WriteUint8(num);
    }

    /** writeVarString */
    method WriteVarString(t: Text)
      modifies this
      ensures buf == old(buf) + VarString(t)
    {
      WriteVarUint(|t|);
      buf := buf + t;
    }

    /** writeUint32 */
    method WriteUint32(n: int)
      modifies this
      ensures buf == old(buf) + Uint32(n)
    {
      var num := n % TwoTo32;
      WriteUint8(num);
      WriteUint8(num / 0x100);
      WriteUint8(num / 0x1_0000);
      WriteUint8(num / 0x100_0000);
    }

    /** writeFloat64 */
    method WriteFloat64(f: Float64)
      modifies this
      ensures buf == old(buf) + f
    {
      buf := buf + f;
    }
  }

  /** lib0's decoder: the whole buffer and a cursor that every read advances. */
  class Decoder {
    const arr: seq<byte>
    var pos: nat

    ghost predicate Valid()
      reads this
    {
      pos <= |arr|
    }

    /** The bytes not read yet. */
    function Rest(): (s: seq<byte>)
      reads this
      requires Valid()
    {
      arr[pos..]
    }

    /** createDecoder */
    constructor (data: seq<byte>)
      ensures arr == data && pos == 0 && Valid()
    {
      arr := data;
      pos := 0;
    }

    /** readUint8 */
    method ReadUint8() returns (r: Result<byte>)
      requires Valid()
      modifies this
      ensures Valid() && old(pos) <= pos
      ensures WithRest(r, Rest()) == ParseUint8(old(Rest()))
    {
      if pos < |arr| {
        r := Ok(arr[pos]);
        pos := pos + 1;
      } else {
        r := Err(Truncated);
      }
    }

    /** readVarUint: accumulates 7 bits per byte with a growing multiplier. */
    method ReadVarUint() returns (r: Result<nat>)
      requires Valid()
      modifies this
      ensures Valid() && old(pos) <= pos
      ensures WithRest(r, Rest()) == ParseVarUint(old(Rest()))
    {
      var num: nat := 0;
      var mult: nat := 1;
      ScaledByOne(ParseVarUint(Rest()));
      while pos < |arr|
        invariant Valid() && old(pos) <= pos
        invariant ParseVarUint(old(Rest())) == Scaled(num, mult, ParseVarUint(Rest()))
        decreases |arr| - pos
      {
        var b := arr[pos];
        ghost var s := Rest();
        ScaledStep(num, mult, s);
        num := Absorb(num, mult, b);
        mult := mult * 128;
        pos := pos + 1;
        assert Rest() == s[1..];
        if b < 128 {
          return Ok(num);
        }
      }
      r := Err(Truncated);
    }

    /** readVarString */
    method ReadVarString() returns (r: Result<Text>)
      requires Valid()
      modifies this
      ensures Valid() && old(pos) <= pos
      ensures WithRest(r, Rest()) == ParseVarString(old(Rest()))
    {
      var n := ReadVarUint();
      if n.Err? {
        return Err(n.error);
      }
      if pos + n.value <= |arr| {
        r := Ok(arr[pos..pos + n.value]);
        assert arr[pos..][..n.value] == arr[pos..pos + n.value];
        assert arr[pos..][n.value..] == arr[pos + n.value..];
        pos := pos + n.value;
      } else {
        r := Err(Truncated);
      }
    }

    /** readUint32 */
    method ReadUint32() returns (r: Result<nat>)
      requires Valid()
      modifies this
      ensures Valid() && old(pos) <= pos
      ensures WithRest(r, Rest()) == ParseUint32(old(Rest()))
    {
      if pos + 4 <= |arr| {
        r := Ok(arr[pos] as int + 0x100 * arr[pos + 1] as int
                + 0x1_0000 * arr[pos + 2] as int + 0x100_0000 * arr[pos + 3] as int);
        pos := pos + 4;
      } else {
        r := Err(Truncated);
      }
    }

    /** readFloat64 */
    method ReadFloat64() returns (r: Result<Float64>)
      requires Valid()
      modifies this
      ensures Valid() && old(pos) <= pos
      ensures WithRest(r, Rest()) == ParseFloat64(old(Rest()))
    {
      if pos + 8 <= |arr| {
        r := Ok(arr[pos..pos + 8]);
        assert arr[pos..][..8] == arr[pos..pos + 8] && arr[pos..][8..] == arr[pos + 8..];
        pos := pos + 8;
      } else {
        r := Err(Truncated);
      }
    }
  }

  /** What readVarUint returns once `num` and `mult` have absorbed the bytes before r. */
  function Scaled(num: nat, mult: nat, r: Parsed<nat>): Parsed<nat>
  {
    match r
    case Err(e) => Err(e)
    case Ok((v, rest)) => Ok((num + mult * v, rest))
  }

  /** The number once the low seven bits of b, worth `mult` each, are added to num. */
  function Absorb(num: nat, mult: nat, b: byte): nat
  {
    num + (b % 128) * mult
  }

  /** One loop step of readVarUint keeps the accumulated result unchanged. */
  lemma ScaledStep(num: nat, mult: nat, s: seq<byte>)
    requires |s| >= 1
    ensures s[0] < 128 ==>
      Scaled(num, mult, ParseVarUint(s)) == Ok((Absorb(num, mult, s[0]), s[1..]))
    ensures s[0] >= 128 ==>
      Scaled(num, mult, ParseVarUint(s)) == Scaled(Absorb(num, mult, s[0]), mult * 128, ParseVarUint(s[1..]))
  {
    var low := s[0] % 128;
    if s[0] < 128 {
      assert low == s[0];
      assert mult * low == low * mult;
    } else {
      assert low == s[0] - 128;
      match ParseVarUint(s[1..])
      case Err(e) =>
      case Ok((high, rest)) =>
        assert ParseVarUint(s) == Ok((low + 128 * high, rest));
        MulDistributes(mult, low, high);
    }
  }

  /** Proof helper only: with nothing absorbed yet, scaling leaves a read unchanged. */
  lemma ScaledByOne(r: Parsed<nat>)
    ensures Scaled(0, 1, r) == r
  {
  }

  /** Proof helper only: distributivity of multiplication, kept out of the loop's context. */
  lemma MulDistributes(mult: nat, low: nat, high: nat)
    ensures mult * (low + 128 * high) == low * mult + (mult * 128) * high
  {
  }
}
