/**
 * encodePart and decodePart as the source runs them: writes appended to a
 * shared encoder, reads advancing a shared decoder, loops over the lists and
 * recursion into sub-parts. Each is proved to do exactly what the byte-level
 * specification in PartCodec says, so the round trip proved there carries over.
 */
module PartMethods {
  import opened Wrappers
  import opened Bytes
  import opened Bits
  import opened SymbolTables
  import opened Lib0
  import opened PartCodec

  // ---------------------------------------------------------------- encodePart

  /** encodePart: appends the encoding of p to the encoder's buffer. */
  method EncodePart(T: Tables, p: Part, e: Encoder)
    requires SymbolsKnown(T, p)
    modifies e
    ensures e.buf == old(e.buf) + PartBytes(T, p)
    decreases p, 2
  {
    WriteFlags(p, e);
    ghost var b0 := e.buf;
    WriteTitle(T, p.title, e);
    ghost var b1 := e.buf;
    WriteSymbol(T.layouts, p.layout, e);
    ghost var b2 := e.buf;
    WriteLayoutValues(T, p, e);
    ghost var b3 := e.buf;
    WriteSymbol(T.valueKinds, p.goalType, e);
    ghost var b4 := e.buf;
    WriteFloat(p.goalValue, e);
    ghost var b5 := e.buf;
    WriteSymbol(T.valueKinds, p.targetType, e);
    ghost var b6 := e.buf;
    WriteFloat(p.targetMin, e);
    ghost var b7 := e.buf;
    WriteFloat(p.targetMax, e);
    ghost var b8 := e.buf;
    WriteRepeats(p, e);
    ghost var b9 := e.buf;
    WriteRepeatParts(T, p, e);
    Prefixed(old(e.buf), FlagBytes(p), TitleField(T, p), SymbolField(T.layouts, p.layout), LayoutValuesField(T, p),
             SymbolField(T.valueKinds, p.goalType), FloatField(p.goalValue),
             SymbolField(T.valueKinds, p.targetType), FloatField(p.targetMin), FloatField(p.targetMax),
             RepeatsField(p), RepeatPartsField(T, p));
  }

  /** The two presence bytes, each built bit by bit with updateBit. */
  method WriteFlags(p: Part, e: Encoder)
    modifies e
    ensures e.buf == old(e.buf) + FlagBytes(p)
  {
    var flagsA: bv8 := 0;
    flagsA := UpdateBit(flagsA, 0, p.title.Some?);
    flagsA := UpdateBit(flagsA, 1, p.layout.Some?);
    flagsA := UpdateBit(flagsA, 2, HasLayoutValues(p));
    flagsA := UpdateBit(flagsA, 3, p.goalType.Some?);
    flagsA := UpdateBit(flagsA, 4, p.goalValue.Some?);
    flagsA := UpdateBit(flagsA, 5, HasGoalIsVariable(p));
    flagsA := UpdateBit(flagsA, 6, p.targetType.Some?);
    flagsA := UpdateBit(flagsA, 7, p.targetMin.Some?);
    var flagsB: bv8 := 0;
    flagsB := UpdateBit(flagsB, 0, p.targetMax.Some?);
    flagsB := UpdateBit(flagsB, 1, HasRepeats(p));
    flagsB := UpdateBit(flagsB, 2, HasRepeatParts(p));
    e.WriteUint8(flagsA as int);
    e.WriteUint8(flagsB as int);
  }

  /** The title: its table code when it has a non-zero one, else 0 and the custom string. */
  method WriteTitle(T: Tables, title: Option<Text>, e: Encoder)
    modifies e
    ensures e.buf == old(e.buf) + (if title.Some? then TitleBytes(T, title.value) else [])
  {
    if title.Some? {
      var code := Lookup(T.titles, title.value);
      if code.Some? && code.value != 0 {
        e.WriteUint8(code.value);
      } else {
        WriteCustomTitle(title.value, e);
      }
    }
  }

  /** A title the table has no non-zero code for: the 0 marker, then the string itself. */
  method WriteCustomTitle(title: Text, e: Encoder)
    modifies e
    ensures e.buf == old(e.buf) + ([0] + VarString(title))
  {
    e.WriteUint8(0);
    e.WriteVarString(title);
    Assoc(old(e.buf), [0], VarString(title));
  }

  /** A symbol-valued field: the code of its key, when present. */
  method WriteSymbol(t: Table, key: Option<Text>, e: Encoder)
    requires key.Some? ==> Lookup(t, key.value).Some?
    modifies e
    ensures e.buf == old(e.buf) + SymbolField(t, key)
  {
    if key.Some? {
      e.WriteUint8(Lookup(t, key.value).value);
    }
  }

  /** A positive repeat count: its byte. */
  method WriteRepeats(p: Part, e: Encoder)
    modifies e
    ensures e.buf == old(e.buf) + RepeatsField(p)
  {
    if HasRepeats(p) {
      e.WriteUint8(p.repeats.value);
    }
  }

  /** An optional float: its eight bytes, when present. */
  method WriteFloat(f: Option<Float64>, e: Encoder)
    modifies e
    ensures e.buf == old(e.buf) + FloatField(f)
  {
    if f.Some? {
      e.WriteFloat64(f.value);
    }
  }

  /** A non-empty layoutValues list: its length, then one code per value. */
  method WriteLayoutValues(T: Tables, p: Part, e: Encoder)
    requires SymbolsKnown(T, p)
    modifies e
    ensures e.buf == old(e.buf) + LayoutValuesField(T, p)
  {
    if HasLayoutValues(p) {
      var values := p.layoutValues.value;
      e.WriteUint8(|values|);
      WriteCodes(T.valueKinds, values, e);
    }
  }

  /** The loop over layoutValues: one code byte per key, in order. */
  method WriteCodes(t: Table, keys: seq<Text>, e: Encoder)
    requires forall i :: 0 <= i < |keys| ==> Lookup(t, keys[i]).Some?
    modifies e
    ensures e.buf == old(e.buf) + CodeBytes(t, keys)
  {
    for j := 0 to |keys|
      invariant e.buf == old(e.buf) + CodeBytes(t, keys[..j])
    {
      CodeBytesSnoc(t, keys[..j], keys[j]);
      assert keys[..j + 1] == keys[..j] + [keys[j]];
      e.WriteUint8(Lookup(t, keys[j]).value);
    }
    assert keys[..|keys|] == keys;
  }

  /** A non-empty repeatParts list: its length, then each sub-part encoded in turn. */
  method WriteRepeatParts(T: Tables, p: Part, e: Encoder)
    requires SymbolsKnown(T, p)
    modifies e
    ensures e.buf == old(e.buf) + RepeatPartsField(T, p)
    decreases p, 1
  {
    if HasRepeatParts(p) {
      e.WriteUint8(|p.repeatParts.parts|);
      WriteSubParts(T, p, e);
      Assoc(old(e.buf), [ToUint8(|p.repeatParts.parts|)], PartsBytes(T, p.repeatParts.parts));
    }
  }

  /** The loop over the sub-parts: each one encoded in turn. */
  method WriteSubParts(T: Tables, p: Part, e: Encoder)
    requires SymbolsKnown(T, p) && p.repeatParts.SubParts?
    modifies e
    ensures e.buf == old(e.buf) + PartsBytes(T, p.repeatParts.parts)
    decreases p, 0
  {
    var subParts := p.repeatParts.parts;
    for j := 0 to |subParts|
      invariant e.buf == old(e.buf) + PartsBytes(T, subParts[..j])
    {
      ghost var before := e.buf;
      EncodePart(T, subParts[j], e);
      PartsStep(T, subParts, j, old(e.buf), before, e.buf);
    }
    assert subParts[..|subParts|] == subParts;
  }

  /** One turn of the sub-part loop extends the written prefix by one part. */
  lemma PartsStep(T: Tables, ps: seq<Part>, j: nat, start: seq<byte>, before: seq<byte>, after: seq<byte>)
    requires j < |ps| && forall i :: 0 <= i < |ps| ==> SymbolsKnown(T, ps[i])
    requires before == start + PartsBytes(T, ps[..j])
    requires after == before + PartBytes(T, ps[j])
    ensures after == start + PartsBytes(T, ps[..j + 1])
  {
    assert ps[..j + 1] == ps[..j] + [ps[j]];
    PartsBytesSnoc(T, ps[..j], ps[j]);
    Assoc(start, PartsBytes(T, ps[..j]), PartBytes(T, ps[j]));
  }

  /** Proof helper only: appending the pieces one at a time appends their concatenation (associativity). */
  lemma Prefixed(o: seq<byte>, a1: seq<byte>, a2: seq<byte>, a3: seq<byte>, a4: seq<byte>, a5: seq<byte>,
                 a6: seq<byte>, a7: seq<byte>, a8: seq<byte>, a9: seq<byte>, a10: seq<byte>, a11: seq<byte>)
    ensures o + a1 + a2 + a3 + a4 + a5 + a6 + a7 + a8 + a9 + a10 + a11
         == o + (a1 + a2 + a3 + a4 + a5 + a6 + a7 + a8 + a9 + a10 + a11)
  {
  }

  /** The code bytes of a list grow by one byte per key appended. */
  lemma {:induction false} CodeBytesSnoc(t: Table, keys: seq<Text>, key: Text)
    requires forall i :: 0 <= i < |keys| ==> Lookup(t, keys[i]).Some?
    requires Lookup(t, key).Some?
    ensures CodeBytes(t, keys + [key]) == CodeBytes(t, keys) + SymbolByte(t, key)
  {
    if keys != [] {
      assert (keys + [key])[1..] == keys[1..] + [key];
      CodeBytesSnoc(t, keys[1..], key);
    } else {
      assert keys + [key] == [key];
    }
  }

  /** The encoding of a list of parts grows by one part's encoding per part appended. */
  lemma {:induction false} PartsBytesSnoc(T: Tables, ps: seq<Part>, q: Part)
    requires forall i :: 0 <= i < |ps| ==> SymbolsKnown(T, ps[i])
    requires SymbolsKnown(T, q)
    ensures PartsBytes(T, ps + [q]) == PartsBytes(T, ps) + PartBytes(T, q)
  {
    if ps != [] {
      assert (ps + [q])[1..] == ps[1..] + [q];
      PartsBytesSnoc(T, ps[1..], q);
      Assoc(PartBytes(T, ps[0]), PartsBytes(T, ps[1..]), PartBytes(T, q));
    } else {
      assert ps + [q] == [q];
    }
  }

  // ---------------------------------------------------------------- decodePart

  /**
   * decodePart: reads the two flag bytes, then each field they announce,
   * leaving the decoder just past the part.
   */
  method DecodePart(T: Tables, d: Decoder) returns (r: Result<Part>)
    requires d.Valid()
    modifies d
    ensures d.Valid() && old(d.pos) <= d.pos
    ensures WithRest(r, d.Rest()) == ParsePart(T, old(d.Rest()))
    decreases |d.arr| - d.pos, 0
  {
    var flagsA := d.ReadUint8();
    if flagsA.Err? {
      return Err(flagsA.error);
    }
    var flagsB := d.ReadUint8();
    if flagsB.Err? {
      return Err(flagsB.error);
    }
    ghost var s := old(d.Rest());
    assert |d.Rest()| < |s|;
    var f := ReadPresence(flagsA.value as bv8, flagsB.value as bv8);
    r := DecodeFields(T, f, d);
    PartFromFlags(T, s, flagsA.value, flagsB.value, old(d.Rest())[2..], WithRest(r, d.Rest()));
  }

  /** The fields the flags announce, in encoding order. */
  method DecodeFields(T: Tables, f: Presence, d: Decoder) returns (r: Result<Part>)
    requires d.Valid()
    modifies d
    ensures d.Valid() && old(d.pos) <= d.pos
    ensures WithRest(r, d.Rest()) == ParseFields(T, f, old(d.Rest()))
    decreases |d.arr| - d.pos, 4
  {
    var head := DecodeHead(T, f, d);
    if head.Err? {
      return Err(head.error);
    }
    r := DecodeTail(T, f, head.value, d);
  }

  /** The fields from title up to goalIsVariable. */
  method DecodeHead(T: Tables, f: Presence, d: Decoder) returns (r: Result<Part>)
    requires d.Valid()
    modifies d
    ensures d.Valid() && old(d.pos) <= d.pos
    ensures WithRest(r, d.Rest()) == ParseHead(T, f, old(d.Rest()))
  {
    var title := ReadTitle(T, f.title, d);
    if title.Err? {
      return Err(title.error);
    }
    var layout := ReadSymbol(f.layout, T.layoutsReverse, d);
    if layout.Err? {
      return Err(layout.error);
    }
    var layoutValues := ReadLayoutValues(T, f.layoutValues, d);
    if layoutValues.Err? {
      return Err(layoutValues.error);
    }
    var goalType := ReadSymbol(f.goalType, T.valueKindsReverse, d);
    if goalType.Err? {
      return Err(goalType.error);
    }
    var goalValue := ReadFloat(f.goalValue, d);
    if goalValue.Err? {
      return Err(goalValue.error);
    }
    r := Ok(EmptyPart.(title := title.value, layout := layout.value, layoutValues := layoutValues.value,
                       goalType := goalType.value, goalValue := goalValue.value,
                       goalIsVariable := if f.goalIsVariable then Some(true) else None));
  }

  /** The fields from targetType on, assigned to `part`. */
  method DecodeTail(T: Tables, f: Presence, part: Part, d: Decoder) returns (r: Result<Part>)
    requires d.Valid()
    modifies d
    ensures d.Valid() && old(d.pos) <= d.pos
    ensures WithRest(r, d.Rest()) == ParseTail(T, f, part, old(d.Rest()))
    decreases |d.arr| - d.pos, 3
  {
    var targetType := ReadSymbol(f.targetType, T.valueKindsReverse, d);
    if targetType.Err? {
      return Err(targetType.error);
    }
    var targetMin := ReadFloat(f.targetMin, d);
    if targetMin.Err? {
      return Err(targetMin.error);
    }
    var targetMax := ReadFloat(f.targetMax, d);
    if targetMax.Err? {
      return Err(targetMax.error);
    }
    var repeats := ReadRepeats(f.repeats, d);
    if repeats.Err? {
      return Err(repeats.error);
    }
    var repeatParts := ReadRepeatParts(T, f.repeatParts, d);
    if repeatParts.Err? {
      return Err(repeatParts.error);
    }
    r := Ok(part.(targetType := targetType.value, targetMin := targetMin.value, targetMax := targetMax.value,
                  repeats := repeats.value, repeatParts := repeatParts.value));
  }

  /** The title: a table code, or 0 followed by a custom string. */
  method ReadTitle(T: Tables, present: bool, d: Decoder) returns (r: Result<Option<Text>>)
    requires d.Valid()
    modifies d
    ensures d.Valid() && old(d.pos) <= d.pos
    ensures WithRest(r, d.Rest()) == ParseTitle(T, present, old(d.Rest()))
  {
    if !present {
      return Ok(None);
    }
    var code := d.ReadUint8();
    if code.Err? {
      return Err(code.error);
    }
    if code.value == 0 {
      var title := d.ReadVarString();
      if title.Err? {
        return Err(title.error);
      }
      r := Ok(Some(title.value));
    } else {
      r := Ok(ReverseLookup(T.titlesReverse, code.value));
    }
  }

  /** A symbol-valued field: one code byte looked up in `rev`, when present. */
  method ReadSymbol(present: bool, rev: map<int, Text>, d: Decoder) returns (r: Result<Option<Text>>)
    requires d.Valid()
    modifies d
    ensures d.Valid() && old(d.pos) <= d.pos
    ensures WithRest(r, d.Rest()) == ParseSymbol(present, rev, old(d.Rest()))
  {
    if !present {
      return Ok(None);
    }
    var code := d.ReadUint8();
    if code.Err? {
      return Err(code.error);
    }
    r := Ok(ReverseLookup(rev, code.value));
  }

  /** An optional float, when present. */
  method ReadFloat(present: bool, d: Decoder) returns (r: Result<Option<Float64>>)
    requires d.Valid()
    modifies d
    ensures d.Valid() && old(d.pos) <= d.pos
    ensures WithRest(r, d.Rest()) == ParseFloat(present, old(d.Rest()))
  {
    if !present {
      return Ok(None);
    }
    var x := d.ReadFloat64();
    if x.Err? {
      return Err(x.error);
    }
    r := Ok(Some(x.value));
  }

  /** The repeat count, when present. */
  method ReadRepeats(present: bool, d: Decoder) returns (r: Result<Option<int>>)
    requires d.Valid()
    modifies d
    ensures d.Valid() && old(d.pos) <= d.pos
    ensures WithRest(r, d.Rest()) == ParseRepeats(present, old(d.Rest()))
  {
    if !present {
      return Ok(None);
    }
    var n := d.ReadUint8();
    if n.Err? {
      return Err(n.error);
    }
    r := Ok(Some(n.value));
  }

  /** The layoutValues list, when present: a count, then that many value-kind codes. */
  method ReadLayoutValues(T: Tables, present: bool, d: Decoder) returns (r: Result<Option<seq<Text>>>)
    requires d.Valid()
    modifies d
    ensures d.Valid() && old(d.pos) <= d.pos
    ensures WithRest(r, d.Rest()) == ParseLayoutValues(T, present, old(d.Rest()))
  {
    if !present {
      return Ok(None);
    }
    var count := d.ReadUint8();
    if count.Err? {
      return Err(count.error);
    }
    var values := ReadCodes(T.valueKindsReverse, count.value, d);
    if values.Err? {
      return Err(values.error);
    }
    r := Ok(Some(values.value));
  }

  /** The loop over the layout value codes, pushing one value per code. */
  method ReadCodes(rev: map<int, Text>, n: nat, d: Decoder) returns (r: Result<seq<Text>>)
    requires d.Valid()
    modifies d
    ensures d.Valid() && old(d.pos) <= d.pos
    ensures WithRest(r, d.Rest()) == ParseCodes(rev, n, old(d.Rest()))
  {
    var values: seq<Text> := [];
    PrependNothing(ParseCodes(rev, n, d.Rest()));
    for j := 0 to n
      invariant d.Valid() && old(d.pos) <= d.pos
      invariant ParseCodes(rev, n, old(d.Rest())) == Prepend(values, ParseCodes(rev, n - j, d.Rest()))
    {
      ghost var s := d.Rest();
      var code := d.ReadUint8();
      if code.Err? {
        return Err(code.error);
      }
      if code.value !in rev {
        return Err(UnknownCode(code.value));
      }
      PrependCode(rev, n - j, s, values, code.value, d.Rest());
      values := values + [rev[code.value]];
    }
    assert values + [] == values;
    r := Ok(values);
  }

  /** The repeatParts list, when present: a count, then that many parts. */
  method ReadRepeatParts(T: Tables, present: bool, d: Decoder) returns (r: Result<SubParts>)
    requires d.Valid()
    modifies d
    ensures d.Valid() && old(d.pos) <= d.pos
    ensures WithRest(r, d.Rest()) == ParseRepeatParts(T, present, old(d.Rest()))
    decreases |d.arr| - d.pos, 2
  {
    if !present {
      return Ok(NoSubParts);
    }
    var count := d.ReadUint8();
    if count.Err? {
      return Err(count.error);
    }
    var parts := ReadParts(T, count.value, d);
    if parts.Err? {
      return Err(parts.error);
    }
    r := Ok(SubParts(parts.value));
  }

  /** The loop over the sub-parts, decoding each with decodePart. */
  method ReadParts(T: Tables, n: nat, d: Decoder) returns (r: Result<seq<Part>>)
    requires d.Valid()
    modifies d
    ensures d.Valid() && old(d.pos) <= d.pos
    ensures WithRest(r, d.Rest()) == ParseParts(T, n, old(d.Rest()))
    decreases |d.arr| - d.pos, 1
  {
    var parts: seq<Part> := [];
    PrependNothing(ParseParts(T, n, d.Rest()));
    for j := 0 to n
      invariant d.Valid() && old(d.pos) <= d.pos
      invariant ParseParts(T, n, old(d.Rest())) == Prepend(parts, ParseParts(T, n - j, d.Rest()))
    {
      ghost var s := d.Rest();
      var part := DecodePart(T, d);
      if part.Err? {
        return Err(part.error);
      }
      PrependPart(T, n - j, s, parts, part.value, d.Rest());
      parts := parts + [part.value];
    }
    assert parts + [] == parts;
    r := Ok(parts);
  }

  /** Two flag bytes, then the fields they announce, make up a part. */
  lemma PartFromFlags(T: Tables, s: seq<byte>, a: byte, b: byte, s2: seq<byte>, r: Parsed<Part>)
    requires |s| >= 2 && s[0] == a && s[1] == b && s2 == s[2..]
    requires r == ParseFields(T, ReadPresence(a as bv8, b as bv8), s2)
    ensures ParsePart(T, s) == r
  {
    assert s[1..][1..] == s2;
  }

  /** Nothing read yet: the list reads as the rest of it does. */
  lemma PrependNothing<X>(r: Parsed<seq<X>>)
    ensures Prepend([], r) == r
  {
    match r
    case Ok(v) =>
      assert [] + v.0 == v.0;
    case Err(_) =>
  }

  /** The items read so far, put in front of what the rest of a list reads as. */
  function Prepend<X>(acc: seq<X>, r: Parsed<seq<X>>): Parsed<seq<X>>
  {
    match r
    case Ok(v) => Ok((acc + v.0, v.1))
    case Err(e) => Err(e)
  }

  /** Reading one known code moves it from the list still to read to the list read. */
  lemma PrependCode(rev: map<int, Text>, m: nat, s: seq<byte>, acc: seq<Text>, c: int, s1: seq<byte>)
    requires m > 0 && ParseUint8(s) == Ok((c, s1)) && c in rev
    ensures Prepend(acc, ParseCodes(rev, m, s)) == Prepend(acc + [rev[c]], ParseCodes(rev, m - 1, s1))
  {
    match ParseCodes(rev, m - 1, s1)
    case Ok(v) =>
      assert acc + ([rev[c]] + v.0) == acc + [rev[c]] + v.0;
    case Err(_) =>
  }

  /** Reading one part moves it from the list still to read to the list read. */
  lemma PrependPart(T: Tables, m: nat, s: seq<byte>, acc: seq<Part>, q: Part, s1: seq<byte>)
    requires m > 0 && ParsePart(T, s) == Ok((q, s1))
    ensures Prepend(acc, ParseParts(T, m, s)) == Prepend(acc + [q], ParseParts(T, m - 1, s1))
  {
    match ParseParts(T, m - 1, s1)
    case Ok(v) =>
      assert acc + ([q] + v.0) == acc + [q] + v.0;
    case Err(_) =>
  }
}
