/**
 * The part codec: one workout segment as two presence-flag bytes followed by
 * the payload of every flagged field in a fixed order, with nested
 * `repeatParts` encoded recursively. No part carries a length prefix, so a
 * decoder must consume exactly the bytes the encoder wrote.
 */
module PartCodec {
  import opened Wrappers
  import opened Bytes
  import opened Bits
  import opened SymbolTables
  import opened Lib0

  /** One workout segment; every field may be absent. */
  datatype Part = Part(
    title: Option<Text>,
    layout: Option<Text>,
    layoutValues: Option<seq<Text>>,
    goalType: Option<Text>,
    goalValue: Option<Float64>,
    goalIsVariable: Option<bool>,
    targetType: Option<Text>,
    targetMin: Option<Float64>,
    targetMax: Option<Float64>,
    repeats: Option<int>,
    repeatParts: SubParts)

  /** The optional `repeatParts` list of a part. */
  datatype SubParts = NoSubParts | SubParts(parts: seq<Part>)

  /** The part `{}`, before decoding assigns any field. */
  const EmptyPart := Part(None, None, None, None, None, None, None, None, None, None, NoSubParts)

  // ---------------------------------------------------------------- presence

  /** `layoutValues != null && layoutValues.length > 0` */
  predicate HasLayoutValues(p: Part) { p.layoutValues.Some? && |p.layoutValues.value| > 0 }

  /** `goalIsVariable === true` */
  predicate HasGoalIsVariable(p: Part) { p.goalIsVariable == Some(true) }

  /** `repeats != null && repeats > 0` */
  predicate HasRepeats(p: Part) { p.repeats.Some? && p.repeats.value > 0 }

  /** `repeatParts != null && repeatParts.length > 0` */
  predicate HasRepeatParts(p: Part) { p.repeatParts.SubParts? && |p.repeatParts.parts| > 0 }

  /** The first presence byte: bits 0-7 flag title .. targetMin. */
  function FlagsA(p: Part): bv8
  {
    var f := UpdateBit(0, 0, p.title.Some?);
    var f := UpdateBit(f, 1, p.layout.Some?);
    var f := UpdateBit(f, 2, HasLayoutValues(p));
    var f := UpdateBit(f, 3, p.goalType.Some?);
    var f := UpdateBit(f, 4, p.goalValue.Some?);
    var f := UpdateBit(f, 5, HasGoalIsVariable(p));
    var f := UpdateBit(f, 6, p.targetType.Some?);
    UpdateBit(f, 7, p.targetMin.Some?)
  }

  /** The second presence byte: bits 0-2 flag targetMax, repeats, repeatParts. */
  function FlagsB(p: Part): bv8
  {
    var f := UpdateBit(0, 0, p.targetMax.Some?);
    var f := UpdateBit(f, 1, HasRepeats(p));
    UpdateBit(f, 2, HasRepeatParts(p))
  }

  /** The two flag bytes as written. */
  function FlagBytes(p: Part): (r: seq<byte>)
    ensures |r| == 2
  {
    [FlagsA(p) as int, FlagsB(p) as int]
  }

  function Flag(b: bool): int { if b then 1 else 0 }

  /**
   * Bit i of the flag bytes is set exactly when the i-th field will have a
   * payload; the five high bits of the second byte are always clear.
   */
  lemma FlagsReflectPresence(p: Part)
    ensures GetBit(FlagsA(p), 0) == Flag(p.title.Some?)
    ensures GetBit(FlagsA(p), 1) == Flag(p.layout.Some?)
    ensures GetBit(FlagsA(p), 2) == Flag(HasLayoutValues(p))
    ensures GetBit(FlagsA(p), 3) == Flag(p.goalType.Some?)
    ensures GetBit(FlagsA(p), 4) == Flag(p.goalValue.Some?)
    ensures GetBit(FlagsA(p), 5) == Flag(HasGoalIsVariable(p))
    ensures GetBit(FlagsA(p), 6) == Flag(p.targetType.Some?)
    ensures GetBit(FlagsA(p), 7) == Flag(p.targetMin.Some?)
    ensures GetBit(FlagsB(p), 0) == Flag(p.targetMax.Some?)
    ensures GetBit(FlagsB(p), 1) == Flag(HasRepeats(p))
    ensures GetBit(FlagsB(p), 2) == Flag(HasRepeatParts(p))
    ensures forall q :: 3 <= q < 8 ==> GetBit(FlagsB(p), q) == 0
  {
    assert forall q :: 0 <= q < 8 ==> GetBit(0, q) == 0;
  }

  /** What the flags of p announce. */
  function PresenceOf(p: Part): Presence
  {
    Presence(p.title.Some?, p.layout.Some?, HasLayoutValues(p), p.goalType.Some?,
             p.goalValue.Some?, HasGoalIsVariable(p), p.targetType.Some?, p.targetMin.Some?,
             p.targetMax.Some?, HasRepeats(p), HasRepeatParts(p))
  }

  /** Reading the flag bytes back announces exactly the fields that have a payload. */
  lemma FlagsRoundTrip(p: Part)
    ensures ReadPresence((FlagsA(p) as int) as bv8, (FlagsB(p) as int) as bv8) == PresenceOf(p)
  {
    FlagsReflectPresence(p);
    PresenceFromBits(FlagsA(p), FlagsB(p), PresenceOf(p));
  }

  /** Flag bytes whose bits match a presence record read back as that record, once stored as numbers. */
  lemma PresenceFromBits(a: bv8, b: bv8, f: Presence)
    requires GetBit(a, 0) == Flag(f.title) && GetBit(a, 1) == Flag(f.layout)
    requires GetBit(a, 2) == Flag(f.layoutValues) && GetBit(a, 3) == Flag(f.goalType)
    requires GetBit(a, 4) == Flag(f.goalValue) && GetBit(a, 5) == Flag(f.goalIsVariable)
    requires GetBit(a, 6) == Flag(f.targetType) && GetBit(a, 7) == Flag(f.targetMin)
    requires GetBit(b, 0) == Flag(f.targetMax) && GetBit(b, 1) == Flag(f.repeats)
    requires GetBit(b, 2) == Flag(f.repeatParts)
    ensures ReadPresence((a as int) as bv8, (b as int) as bv8) == f
  {
    FlagByteRoundTrip(a);
    FlagByteRoundTrip(b);
  }

  /** A flag byte survives being stored as a number and read back as bits. */
  lemma FlagByteRoundTrip(f: bv8)
    ensures (f as int) as bv8 == f
  {
  }

  // ---------------------------------------------------------------- encoding

  /** Every symbol-valued field holds a key of its table, in p and every sub-part. */
  predicate SymbolsKnown(T: Tables, p: Part)
  {
    (p.layout.Some? ==> Lookup(T.layouts, p.layout.value).Some?) &&
    (p.layoutValues.Some? ==> forall i :: 0 <= i < |p.layoutValues.value| ==>
                                Lookup(T.valueKinds, p.layoutValues.value[i]).Some?) &&
    (p.goalType.Some? ==> Lookup(T.valueKinds, p.goalType.value).Some?) &&
    (p.targetType.Some? ==> Lookup(T.valueKinds, p.targetType.value).Some?) &&
    (p.repeatParts.SubParts? ==> forall i :: 0 <= i < |p.repeatParts.parts| ==>
                                   SymbolsKnown(T, p.repeatParts.parts[i]))
  }

  /** Every count and the repeat number fit the one byte they are written to, throughout. */
  predicate Fits(p: Part)
  {
    (p.layoutValues.Some? ==> |p.layoutValues.value| < 256) &&
    (p.repeats.Some? ==> p.repeats.value < 256) &&
    (p.repeatParts.SubParts? ==> |p.repeatParts.parts| < 256 &&
                                 forall i :: 0 <= i < |p.repeatParts.parts| ==> Fits(p.repeatParts.parts[i]))
  }

  /** The code byte of a table key. */
  function SymbolByte(t: Table, key: Text): seq<byte>
    requires Lookup(t, key).Some?
  {
    [ToUint8(Lookup(t, key).value)]
  }

  /**
   * A title: its table code, or 0 followed by the title as a var-string. Only
   * the table's own keys have a code; `InheritedTitleLost` shows what the
   * source does with a key the table object inherits.
   */
  function TitleBytes(T: Tables, title: Text): seq<byte>
  {
    match Lookup(T.titles, title)
    case Some(code) => if code != 0 then [ToUint8(code)] else [0] + VarString(title)
    case None => [0] + VarString(title)
  }

  /**
   * The properties every object literal inherits from `Object.prototype`.
   * `partTitleMap[title]` finds one of them although the table does not list
   * it, and the value found (a function, or the prototype object) is truthy.
   */
  const InheritedKeys: set<Text> := {
    Ascii("constructor"), Ascii("hasOwnProperty"), Ascii("isPrototypeOf"),
    Ascii("propertyIsEnumerable"), Ascii("toLocaleString"), Ascii("toString"),
    Ascii("valueOf"), Ascii("__proto__"), Ascii("__defineGetter__"),
    Ascii("__defineSetter__"), Ascii("__lookupGetter__"), Ascii("__lookupSetter__")
  }

  /**
   * The title bytes as the source writes them. An inherited key takes the
   * code branch, and `writeUint8` stores its non-numeric value as 0, so no
   * string follows the 0.
   */
  function TitleBytesAsWritten(T: Tables, title: Text): seq<byte>
  {
    if Lookup(T.titles, title).None? && title in InheritedKeys then [0] else TitleBytes(T, title)
  }

  /** One code byte per key, as the layout values are written. */
  function CodeBytes(t: Table, keys: seq<Text>): seq<byte>
    requires forall i :: 0 <= i < |keys| ==> Lookup(t, keys[i]).Some?
  {
    if keys == [] then [] else SymbolByte(t, keys[0]) + CodeBytes(t, keys[1..])
  }

  function TitleField(T: Tables, p: Part): seq<byte>
  {
    if p.title.Some? then TitleBytes(T, p.title.value) else []
  }

  function LayoutValuesField(T: Tables, p: Part): seq<byte>
    requires SymbolsKnown(T, p)
  {
    if HasLayoutValues(p)
    then [ToUint8(|p.layoutValues.value|)] + CodeBytes(T.valueKinds, p.layoutValues.value)
    else []
  }

  /** An optional symbol: its code byte when present. */
  function SymbolField(t: Table, key: Option<Text>): seq<byte>
    requires key.Some? ==> Lookup(t, key.value).Some?
  {
    if key.Some? then SymbolByte(t, key.value) else []
  }

  function FloatField(f: Option<Float64>): seq<byte>
  {
    if f.Some? then f.value else []
  }

  function RepeatsField(p: Part): seq<byte>
  {
    if HasRepeats(p) then [ToUint8(p.repeats.value)] else []
  }

  function RepeatPartsField(T: Tables, p: Part): seq<byte>
    requires SymbolsKnown(T, p)
    decreases p, 0
  {
    if HasRepeatParts(p)
    then [ToUint8(|p.repeatParts.parts|)] + PartsBytes(T, p.repeatParts.parts)
    else []
  }

  /** encodePart: the flag bytes, then each present field's payload in declaration order. */
  function PartBytes(T: Tables, p: Part): seq<byte>
    requires SymbolsKnown(T, p)
    decreases p, 1
  {
    FlagBytes(p)
    + TitleField(T, p) + SymbolField(T.layouts, p.layout) + LayoutValuesField(T, p)
    + SymbolField(T.valueKinds, p.goalType) + FloatField(p.goalValue)
    + SymbolField(T.valueKinds, p.targetType) + FloatField(p.targetMin) + FloatField(p.targetMax)
    + RepeatsField(p) + RepeatPartsField(T, p)
  }

  /** Sibling parts, one after another with nothing between them. */
  function PartsBytes(T: Tables, ps: seq<Part>): seq<byte>
    requires forall i :: 0 <= i < |ps| ==> SymbolsKnown(T, ps[i])
    decreases ps
  {
    if ps == [] then [] else PartBytes(T, ps[0]) + PartsBytes(T, ps[1..])
  }

  // ---------------------------------------------------------------- decoding

  /** `reverse[code]`: undefined, i.e. an absent field, when the code is unknown. */
  function ReverseLookup(rev: map<int, Text>, code: int): Option<Text>
  {
    if code in rev then Some(rev[code]) else None
  }

  function ParseTitle(T: Tables, present: bool, s: seq<byte>): (r: Parsed<Option<Text>>)
    ensures r.Ok? ==> |r.value.1| <= |s|
  {
    if !present then Ok((None, s))
    else
      var code :- ParseUint8(s);
      if code.0 == 0 then
        var title :- ParseVarString(code.1);
        Ok((Some(title.0), title.1))
      else Ok((ReverseLookup(T.titlesReverse, code.0), code.1))
  }

  function ParseSymbol(present: bool, rev: map<int, Text>, s: seq<byte>): (r: Parsed<Option<Text>>)
    ensures r.Ok? ==> |r.value.1| <= |s|
  {
    if !present then Ok((None, s))
    else
      var code :- ParseUint8(s);
      Ok((ReverseLookup(rev, code.0), code.1))
  }

  /** n codes looked up in `rev`; a code with no entry is an error. */
  function ParseCodes(rev: map<int, Text>, n: nat, s: seq<byte>): (r: Parsed<seq<Text>>)
    ensures r.Ok? ==> |r.value.1| <= |s| && |r.value.0| == n
  {
    if n == 0 then Ok(([], s))
    else
      var code :- ParseUint8(s);
      if code.0 !in rev then Err(UnknownCode(code.0))
      else
        var more :- ParseCodes(rev, n - 1, code.1);
        Ok(([rev[code.0]] + more.0, more.1))
  }

  function ParseLayoutValues(T: Tables, present: bool, s: seq<byte>): (r: Parsed<Option<seq<Text>>>)
    ensures r.Ok? ==> |r.value.1| <= |s|
  {
    if !present then Ok((None, s))
    else
      var count :- ParseUint8(s);
      var values :- ParseCodes(T.valueKindsReverse, count.0, count.1);
      Ok((Some(values.0), values.1))
  }

  function ParseFloat(present: bool, s: seq<byte>): (r: Parsed<Option<Float64>>)
    ensures r.Ok? ==> |r.value.1| <= |s|
  {
    if !present then Ok((None, s))
    else
      var f :- ParseFloat64(s);
      Ok((Some(f.0), f.1))
  }

  function ParseRepeats(present: bool, s: seq<byte>): (r: Parsed<Option<int>>)
    ensures r.Ok? ==> |r.value.1| <= |s|
  {
    if !present then Ok((None, s))
    else
      var n :- ParseUint8(s);
      Ok((Some(n.0), n.1))
  }

  function ParseRepeatParts(T: Tables, present: bool, s: seq<byte>): (r: Parsed<SubParts>)
    ensures r.Ok? ==> |r.value.1| <= |s|
    decreases |s|, 1
  {
    if !present then Ok((NoSubParts, s))
    else
      var count :- ParseUint8(s);
      var parts :- ParseParts(T, count.0, count.1);
      Ok((SubParts(parts.0), parts.1))
  }

  /** Which fields a part's flag bytes announce, bit by bit. */
  datatype Presence = Presence(
    title: bool, layout: bool, layoutValues: bool, goalType: bool, goalValue: bool,
    goalIsVariable: bool, targetType: bool, targetMin: bool,
    targetMax: bool, repeats: bool, repeatParts: bool)

  /** The `getBit(flags, i) === 1` tests of decodePart. */
  function ReadPresence(flagsA: bv8, flagsB: bv8): Presence
  {
    Presence(GetBit(flagsA, 0) == 1, GetBit(flagsA, 1) == 1, GetBit(flagsA, 2) == 1,
             GetBit(flagsA, 3) == 1, GetBit(flagsA, 4) == 1, GetBit(flagsA, 5) == 1,
             GetBit(flagsA, 6) == 1, GetBit(flagsA, 7) == 1,
             GetBit(flagsB, 0) == 1, GetBit(flagsB, 1) == 1, GetBit(flagsB, 2) == 1)
  }

  /** decodePart: read the two flag bytes, then the fields they announce. */
  function ParsePart(T: Tables, s: seq<byte>): (r: Parsed<Part>)
    ensures r.Ok? ==> |r.value.1| < |s|
    decreases |s|, 0
  {
    var a :- ParseUint8(s);
    var b :- ParseUint8(a.1);
    ParseFields(T, ReadPresence(a.0 as bv8, b.0 as bv8), b.1)
  }

  /** Each announced field in encoding order; an unannounced one stays absent. */
  function ParseFields(T: Tables, f: Presence, s: seq<byte>): (r: Parsed<Part>)
    ensures r.Ok? ==> |r.value.1| <= |s|
    decreases |s|, 3
  {
    var head :- ParseHead(T, f, s);
    ParseTail(T, f, head.0, head.1)
  }

  /** The fields from title up to goalIsVariable, assigned to a fresh part. */
  function ParseHead(T: Tables, f: Presence, s: seq<byte>): (r: Parsed<Part>)
    ensures r.Ok? ==> |r.value.1| <= |s|
  {
    var title :- ParseTitle(T, f.title, s);
    var layout :- ParseSymbol(f.layout, T.layoutsReverse, title.1);
    var layoutValues :- ParseLayoutValues(T, f.layoutValues, layout.1);
    var goalType :- ParseSymbol(f.goalType, T.valueKindsReverse, layoutValues.1);
    var goalValue :- ParseFloat(f.goalValue, goalType.1);
    Ok((EmptyPart.(title := title.0, layout := layout.0, layoutValues := layoutValues.0,
                   goalType := goalType.0, goalValue := goalValue.0,
                   goalIsVariable := if f.goalIsVariable then Some(true) else None),
        goalValue.1))
  }

  /** The fields from targetType on, assigned to `part`. */
  function ParseTail(T: Tables, f: Presence, part: Part, s: seq<byte>): (r: Parsed<Part>)
    ensures r.Ok? ==> |r.value.1| <= |s|
    decreases |s|, 2
  {
    var targetType :- ParseSymbol(f.targetType, T.valueKindsReverse, s);
    var targetMin :- ParseFloat(f.targetMin, targetType.1);
    var targetMax :- ParseFloat(f.targetMax, targetMin.1);
    var repeats :- ParseRepeats(f.repeats, targetMax.1);
    var repeatParts :- ParseRepeatParts(T, f.repeatParts, repeats.1);
    Ok((part.(targetType := targetType.0, targetMin := targetMin.0, targetMax := targetMax.0,
              repeats := repeats.0, repeatParts := repeatParts.0),
        repeatParts.1))
  }

  /** n sibling parts read one after another. */
  function ParseParts(T: Tables, n: nat, s: seq<byte>): (r: Parsed<seq<Part>>)
    ensures r.Ok? ==> |r.value.1| <= |s| && |r.value.0| == n
    decreases |s|, n
  {
    if n == 0 then Ok(([], s))
    else
      var first :- ParsePart(T, s);
      var more :- ParseParts(T, n - 1, first.1);
      Ok(([first.0] + more.0, more.1))
  }

  // ---------------------------------------------------------------- round trip

  /**
   * What a part reads back as: fields that set no flag bit are absent, so
   * `goalIsVariable: false`, `repeats <= 0` and empty lists disappear.
   */
  function Normalize(p: Part): Part
  {
    p.(layoutValues := if HasLayoutValues(p) then p.layoutValues else None,
       goalIsVariable := if HasGoalIsVariable(p) then Some(true) else None,
       repeats := if HasRepeats(p) then p.repeats else None,
       repeatParts := if HasRepeatParts(p) then SubParts(NormalizeAll(p.repeatParts.parts)) else NoSubParts)
  }

  function NormalizeAll(ps: seq<Part>): (qs: seq<Part>)
  {
    seq(|ps|, i requires 0 <= i < |ps| => Normalize(ps[i]))
  }

  /** The normal form is already normal: decoding a re-encoded part changes nothing more. */
  lemma {:induction false} NormalizeIdempotent(p: Part)
    ensures Normalize(Normalize(p)) == Normalize(p)
    decreases p
  {
    if HasRepeatParts(p) {
      var ps := p.repeatParts.parts;
      forall i | 0 <= i < |ps|
        ensures Normalize(Normalize(ps[i])) == Normalize(ps[i])
      {
        NormalizeIdempotent(ps[i]);
      }
      assert NormalizeAll(NormalizeAll(ps)) == NormalizeAll(ps);
    }
  }

  lemma TitleRoundTrip(T: Tables, p: Part, rest: seq<byte>)
    requires WellFormed(T)
    ensures ParseTitle(T, p.title.Some?, TitleField(T, p) + rest) == Ok((p.title, rest))
  {
    if p.title.Some? {
      var t := p.title.value;
      match Lookup(T.titles, t)
      case Some(code) =>
        if code != 0 {
          ReverseInvertsLookup(T.titles, t);
          assert ToUint8(code) == code by { LookupIsSmall(T.titles, t); }
        } else {
          CustomTitleRoundTrip(T, t, rest);
        }
      case None =>
        CustomTitleRoundTrip(T, t, rest);
    } else {
      assert TitleField(T, p) + rest == rest;
    }
  }

  /**
   * A title in the table is written as its one code byte, never 0; any other
   * title as the 0 sentinel followed by the string.
   */
  lemma TitleEncoding(T: Tables, t: Text)
    requires WellFormed(T)
    ensures Lookup(T.titles, t).Some? ==>
      Lookup(T.titles, t).value != 0 && TitleBytes(T, t) == [Lookup(T.titles, t).value]
    ensures Lookup(T.titles, t).None? ==> TitleBytes(T, t) == [0] + VarString(t)
  {
    if Lookup(T.titles, t).Some? {
      LookupIsSmall(T.titles, t);
    }
  }

  /** A custom title is read back through the 0 sentinel and the var-string. */
  lemma CustomTitleRoundTrip(T: Tables, t: Text, rest: seq<byte>)
    requires WellFormed(T)
    ensures ParseTitle(T, true, [0] + VarString(t) + rest) == Ok((Some(t), rest))
  {
    assert ([0] + VarString(t) + rest)[1..] == VarString(t) + rest;
    VarStringRoundTrip(t, rest);
  }

  /**
   * An inherited key used as a title is lost: decodePart takes whatever
   * follows the lone 0 as the title's string, so it never returns the title
   * with the bytes after it.
   */
  lemma InheritedTitleLost(T: Tables, title: Text, rest: seq<byte>)
    requires Lookup(T.titles, title).None? && title in InheritedKeys
    ensures ParseTitle(T, true, TitleBytesAsWritten(T, title) + rest) != Ok((Some(title), rest))
  {
    assert TitleBytesAsWritten(T, title) == [0];
    LoneZeroLost(T, title, rest);
  }

  /** A lone 0 takes the bytes after it as a string, so those bytes are not left over. */
  lemma LoneZeroLost(T: Tables, title: Text, rest: seq<byte>)
    ensures ParseTitle(T, true, [0] + rest) != Ok((Some(title), rest))
  {
    assert ([0] + rest)[1..] == rest;
  }

  /** The title "constructor" is written as a lone 0, and a part ending there cannot be read back. */
  lemma ConstructorTitleLost()
    ensures TitleBytesAsWritten(LubbaTables, Ascii("constructor")) == [0]
    ensures ParseTitle(LubbaTables, true, TitleBytesAsWritten(LubbaTables, Ascii("constructor"))) == Err(Truncated)
  {
    var t := Ascii("constructor");
    assert forall i :: 0 <= i < |PartTitleMap| ==> |PartTitleMap[i].key| != |t|;
    assert Lookup(PartTitleMap, t).None?;
    assert t in InheritedKeys;
    LoneZeroTruncated(LubbaTables);
  }

  /** A lone 0 at the end of the input announces a string that is not there. */
  lemma LoneZeroTruncated(T: Tables)
    ensures ParseTitle(T, true, [0]) == Err(Truncated)
  {
    assert [0][1..] == [];
  }

  /** The codes of an ordinal table fit a byte when the table is small. */
  lemma LookupIsSmall(t: Table, key: Text)
    requires CodesAreOrdinals(t) && |t| < 256
    requires Lookup(t, key).Some?
    ensures 1 <= Lookup(t, key).value <= |t|
  {
  }

  lemma SymbolRoundTrip(t: Table, key: Option<Text>, rest: seq<byte>)
    requires CodesAreOrdinals(t) && |t| < 256
    requires key.Some? ==> Lookup(t, key.value).Some?
    ensures ParseSymbol(key.Some?, ReverseObject(t), SymbolField(t, key) + rest) == Ok((key, rest))
  {
    if key.Some? {
      LookupIsSmall(t, key.value);
      ReverseInvertsLookup(t, key.value);
    } else {
      assert SymbolField(t, key) + rest == rest;
    }
  }

  /** A run of code bytes reads back as the keys that were written. */
  lemma {:induction false} CodesRoundTrip(t: Table, keys: seq<Text>, rest: seq<byte>)
    requires CodesAreOrdinals(t) && |t| < 256
    requires forall i :: 0 <= i < |keys| ==> Lookup(t, keys[i]).Some?
    ensures ParseCodes(ReverseObject(t), |keys|, CodeBytes(t, keys) + rest) == Ok((keys, rest))
  {
    if keys != [] {
      LookupIsSmall(t, keys[0]);
      ReverseInvertsLookup(t, keys[0]);
      assert CodeBytes(t, keys) + rest == SymbolByte(t, keys[0]) + (CodeBytes(t, keys[1..]) + rest);
      CodesRoundTrip(t, keys[1..], rest);
      assert [keys[0]] + keys[1..] == keys;
    } else {
      assert CodeBytes(t, keys) + rest == rest;
    }
  }

  lemma LayoutValuesRoundTrip(T: Tables, p: Part, rest: seq<byte>)
    requires WellFormed(T)
    requires SymbolsKnown(T, p) && Fits(p)
    ensures ParseLayoutValues(T, HasLayoutValues(p), LayoutValuesField(T, p) + rest)
         == Ok((Normalize(p).layoutValues, rest))
  {
    if HasLayoutValues(p) {
      var vs := p.layoutValues.value;
      ReadCount(|vs|, CodeBytes(T.valueKinds, vs), rest);
      ValueKindsRoundTrip(T, vs, rest);
    } else {
      assert LayoutValuesField(T, p) + rest == rest;
    }
  }

  /** A count byte in front of a payload reads back as itself. */
  lemma ReadCount(n: byte, payload: seq<byte>, rest: seq<byte>)
    ensures ParseUint8([n] + payload + rest) == Ok((n, payload + rest))
  {
    assert ([n] + payload + rest)[1..] == payload + rest;
  }

  lemma ValueKindsRoundTrip(T: Tables, vs: seq<Text>, rest: seq<byte>)
    requires WellFormed(T)
    requires forall i :: 0 <= i < |vs| ==> Lookup(T.valueKinds, vs[i]).Some?
    ensures ParseCodes(T.valueKindsReverse, |vs|, CodeBytes(T.valueKinds, vs) + rest) == Ok((vs, rest))
  {
    CodesRoundTrip(T.valueKinds, vs, rest);
  }

  lemma ValueKindRoundTrip(T: Tables, key: Option<Text>, rest: seq<byte>)
    requires WellFormed(T)
    requires key.Some? ==> Lookup(T.valueKinds, key.value).Some?
    ensures ParseSymbol(key.Some?, T.valueKindsReverse, SymbolField(T.valueKinds, key) + rest)
         == Ok((key, rest))
  {
    SymbolRoundTrip(T.valueKinds, key, rest);
  }

  lemma LayoutRoundTrip(T: Tables, key: Option<Text>, rest: seq<byte>)
    requires WellFormed(T)
    requires key.Some? ==> Lookup(T.layouts, key.value).Some?
    ensures ParseSymbol(key.Some?, T.layoutsReverse, SymbolField(T.layouts, key) + rest) == Ok((key, rest))
  {
    SymbolRoundTrip(T.layouts, key, rest);
  }

  lemma FloatRoundTrip(f: Option<Float64>, rest: seq<byte>)
    ensures ParseFloat(f.Some?, FloatField(f) + rest) == Ok((f, rest))
  {
    if f.Some? {
      Float64RoundTrip(f.value, rest);
    } else {
      assert FloatField(f) + rest == rest;
    }
  }

  lemma RepeatsRoundTrip(p: Part, rest: seq<byte>)
    requires Fits(p)
    ensures ParseRepeats(HasRepeats(p), RepeatsField(p) + rest) == Ok((Normalize(p).repeats, rest))
  {
    if !HasRepeats(p) {
      assert RepeatsField(p) + rest == rest;
    }
  }

  lemma {:induction false} RepeatPartsRoundTrip(T: Tables, p: Part, rest: seq<byte>)
    requires WellFormed(T)
    requires SymbolsKnown(T, p) && Fits(p)
    ensures ParseRepeatParts(T, HasRepeatParts(p), RepeatPartsField(T, p) + rest)
         == Ok((Normalize(p).repeatParts, rest))
    decreases p, 0
  {
    if HasRepeatParts(p) {
      var ps := p.repeatParts.parts;
      assert RepeatPartsField(T, p) + rest == [|ps|] + (PartsBytes(T, ps) + rest);
      PartsRoundTrip(T, ps, rest);
    } else {
      assert RepeatPartsField(T, p) + rest == rest;
    }
  }

  /**
   * The central property: decoding what encodePart wrote yields the part
   * (with collapsed fields absent) and stops exactly at the end of its bytes,
   * so whatever follows is read next.
   */
  lemma {:induction false} PartRoundTrip(T: Tables, p: Part, rest: seq<byte>)
    requires WellFormed(T)
    requires SymbolsKnown(T, p) && Fits(p)
    ensures ParsePart(T, PartBytes(T, p) + rest) == Ok((Normalize(p), rest))
    decreases p, 3
  {
    var fields := TitleField(T, p) + SymbolField(T.layouts, p.layout) + LayoutValuesField(T, p)
      + SymbolField(T.valueKinds, p.goalType) + FloatField(p.goalValue)
      + SymbolField(T.valueKinds, p.targetType) + FloatField(p.targetMin) + FloatField(p.targetMax)
      + RepeatsField(p) + RepeatPartsField(T, p);
    NestFlags(FlagBytes(p), TitleField(T, p), SymbolField(T.layouts, p.layout), LayoutValuesField(T, p),
              SymbolField(T.valueKinds, p.goalType), FloatField(p.goalValue),
              SymbolField(T.valueKinds, p.targetType), FloatField(p.targetMin), FloatField(p.targetMax),
              RepeatsField(p), RepeatPartsField(T, p), rest);
    FlagsRoundTrip(p);
    FieldsRoundTrip(T, p, rest);
    ReadFlagsThenFields(T, FlagsA(p), FlagsB(p), fields, rest, PresenceOf(p), Normalize(p));
  }

  /** decodePart reads the two flag bytes and hands the presence they announce to the field stage. */
  lemma ReadFlagsThenFields(T: Tables, a: bv8, b: bv8, fields: seq<byte>, rest: seq<byte>, f: Presence, q: Part)
    requires ReadPresence((a as int) as bv8, (b as int) as bv8) == f
    requires ParseFields(T, f, fields + rest) == Ok((q, rest))
    ensures ParsePart(T, [a as int, b as int] + (fields + rest)) == Ok((q, rest))
  {
    ReadFlags(a as int, b as int, fields + rest);
  }

  /** The fields of a part, read under the presence its flags announce. */
  lemma {:induction false} FieldsRoundTrip(T: Tables, p: Part, rest: seq<byte>)
    requires WellFormed(T)
    requires SymbolsKnown(T, p) && Fits(p)
    ensures ParseFields(T, PresenceOf(p),
                        TitleField(T, p) + SymbolField(T.layouts, p.layout) + LayoutValuesField(T, p)
                        + SymbolField(T.valueKinds, p.goalType) + FloatField(p.goalValue)
                        + SymbolField(T.valueKinds, p.targetType) + FloatField(p.targetMin)
                        + FloatField(p.targetMax) + RepeatsField(p) + RepeatPartsField(T, p) + rest)
         == Ok((Normalize(p), rest))
    decreases p, 2
  {
    var tail := SymbolField(T.valueKinds, p.targetType) + (FloatField(p.targetMin) + (FloatField(p.targetMax)
                + (RepeatsField(p) + (RepeatPartsField(T, p) + rest))));
    Nest(TitleField(T, p), SymbolField(T.layouts, p.layout), LayoutValuesField(T, p),
         SymbolField(T.valueKinds, p.goalType), FloatField(p.goalValue),
         SymbolField(T.valueKinds, p.targetType), FloatField(p.targetMin), FloatField(p.targetMax),
         RepeatsField(p), RepeatPartsField(T, p), rest);
    HeadRoundTrip(T, p, tail);
    TailRoundTrip(T, p, HeadOf(p), rest);
  }

  /** What the head stage reads back: the first six fields of the normalized part. */
  function HeadOf(p: Part): Part
  {
    EmptyPart.(title := p.title, layout := p.layout, layoutValues := Normalize(p).layoutValues,
               goalType := p.goalType, goalValue := p.goalValue,
               goalIsVariable := Normalize(p).goalIsVariable)
  }

  lemma HeadRoundTrip(T: Tables, p: Part, rest: seq<byte>)
    requires WellFormed(T)
    requires SymbolsKnown(T, p) && Fits(p)
    ensures ParseHead(T, PresenceOf(p),
                      TitleField(T, p) + (SymbolField(T.layouts, p.layout) + (LayoutValuesField(T, p)
                      + (SymbolField(T.valueKinds, p.goalType) + (FloatField(p.goalValue) + rest)))))
         == Ok((HeadOf(p), rest))
  {
    var r4 := FloatField(p.goalValue) + rest;
    var r3 := SymbolField(T.valueKinds, p.goalType) + r4;
    var r2 := LayoutValuesField(T, p) + r3;
    var r1 := SymbolField(T.layouts, p.layout) + r2;
    TitleRoundTrip(T, p, r1);
    LayoutRoundTrip(T, p.layout, r2);
    LayoutValuesRoundTrip(T, p, r3);
    ValueKindRoundTrip(T, p.goalType, r4);
    FloatRoundTrip(p.goalValue, rest);
    ReadHead(T, PresenceOf(p), TitleField(T, p) + r1, p.title, r1, p.layout, r2, Normalize(p).layoutValues, r3,
             p.goalType, r4, p.goalValue, rest);
  }

  /** The head stage chains its five readers, each starting where the last stopped. */
  lemma ReadHead(T: Tables, f: Presence, s0: seq<byte>,
                 title: Option<Text>, s1: seq<byte>, layout: Option<Text>, s2: seq<byte>,
                 layoutValues: Option<seq<Text>>, s3: seq<byte>, goalType: Option<Text>, s4: seq<byte>,
                 goalValue: Option<Float64>, s5: seq<byte>)
    requires ParseTitle(T, f.title, s0) == Ok((title, s1))
    requires ParseSymbol(f.layout, T.layoutsReverse, s1) == Ok((layout, s2))
    requires ParseLayoutValues(T, f.layoutValues, s2) == Ok((layoutValues, s3))
    requires ParseSymbol(f.goalType, T.valueKindsReverse, s3) == Ok((goalType, s4))
    requires ParseFloat(f.goalValue, s4) == Ok((goalValue, s5))
    ensures ParseHead(T, f, s0)
         == Ok((EmptyPart.(title := title, layout := layout, layoutValues := layoutValues,
                           goalType := goalType, goalValue := goalValue,
                           goalIsVariable := if f.goalIsVariable then Some(true) else None), s5))
  {
  }

  lemma {:induction false} TailRoundTrip(T: Tables, p: Part, part: Part, rest: seq<byte>)
    requires WellFormed(T)
    requires SymbolsKnown(T, p) && Fits(p)
    ensures ParseTail(T, PresenceOf(p), part,
                      SymbolField(T.valueKinds, p.targetType) + (FloatField(p.targetMin)
                      + (FloatField(p.targetMax) + (RepeatsField(p) + (RepeatPartsField(T, p) + rest)))))
         == Ok((part.(targetType := p.targetType, targetMin := p.targetMin, targetMax := p.targetMax,
                      repeats := Normalize(p).repeats, repeatParts := Normalize(p).repeatParts), rest))
    decreases p, 1
  {
    var r4 := RepeatPartsField(T, p) + rest;
    var r3 := RepeatsField(p) + r4;
    var r2 := FloatField(p.targetMax) + r3;
    var r1 := FloatField(p.targetMin) + r2;
    ValueKindRoundTrip(T, p.targetType, r1);
    FloatRoundTrip(p.targetMin, r2);
    FloatRoundTrip(p.targetMax, r3);
    RepeatsRoundTrip(p, r4);
    RepeatPartsRoundTrip(T, p, rest);
    ReadTail(T, PresenceOf(p), part, SymbolField(T.valueKinds, p.targetType) + r1, p.targetType, r1,
             p.targetMin, r2, p.targetMax, r3, Normalize(p).repeats, r4, Normalize(p).repeatParts, rest);
  }

  /** The tail stage chains its five readers, each starting where the last stopped. */
  lemma ReadTail(T: Tables, f: Presence, part: Part, s0: seq<byte>,
                 targetType: Option<Text>, s1: seq<byte>, targetMin: Option<Float64>, s2: seq<byte>,
                 targetMax: Option<Float64>, s3: seq<byte>, repeats: Option<int>, s4: seq<byte>,
                 repeatParts: SubParts, s5: seq<byte>)
    requires ParseSymbol(f.targetType, T.valueKindsReverse, s0) == Ok((targetType, s1))
    requires ParseFloat(f.targetMin, s1) == Ok((targetMin, s2))
    requires ParseFloat(f.targetMax, s2) == Ok((targetMax, s3))
    requires ParseRepeats(f.repeats, s3) == Ok((repeats, s4))
    requires ParseRepeatParts(T, f.repeatParts, s4) == Ok((repeatParts, s5))
    ensures ParseTail(T, f, part, s0)
         == Ok((part.(targetType := targetType, targetMin := targetMin, targetMax := targetMax,
                      repeats := repeats, repeatParts := repeatParts), s5))
  {
  }

  /** Proof helper only: concatenation regrouped to the right, so each field read sees its payload in front. */
  lemma Nest(a1: seq<byte>, a2: seq<byte>, a3: seq<byte>, a4: seq<byte>, a5: seq<byte>,
             a6: seq<byte>, a7: seq<byte>, a8: seq<byte>, a9: seq<byte>, a10: seq<byte>, rest: seq<byte>)
    ensures a1 + a2 + a3 + a4 + a5 + a6 + a7 + a8 + a9 + a10 + rest
         == a1 + (a2 + (a3 + (a4 + (a5 + (a6 + (a7 + (a8 + (a9 + (a10 + rest)))))))))
  {
  }

  /** Proof helper only: the same regrouping with the flag bytes in front; no property of the codec. */
  lemma NestFlags(f: seq<byte>, a1: seq<byte>, a2: seq<byte>, a3: seq<byte>, a4: seq<byte>, a5: seq<byte>,
                  a6: seq<byte>, a7: seq<byte>, a8: seq<byte>, a9: seq<byte>, a10: seq<byte>, rest: seq<byte>)
    ensures f + a1 + a2 + a3 + a4 + a5 + a6 + a7 + a8 + a9 + a10 + rest
         == f + (a1 + a2 + a3 + a4 + a5 + a6 + a7 + a8 + a9 + a10 + rest)
  {
  }

  /** The two flag bytes read back in order. */
  lemma ReadFlags(a: byte, b: byte, rest: seq<byte>)
    ensures ParseUint8([a, b] + rest) == Ok((a, [b] + rest))
    ensures ParseUint8([b] + rest) == Ok((b, rest))
  {
    assert ([a, b] + rest)[1..] == [b] + rest;
  }

  /** Sibling parts decode one after another, in their original order. */
  lemma {:induction false} PartsRoundTrip(T: Tables, ps: seq<Part>, rest: seq<byte>)
    requires WellFormed(T)
    requires forall i :: 0 <= i < |ps| ==> SymbolsKnown(T, ps[i]) && Fits(ps[i])
    ensures ParseParts(T, |ps|, PartsBytes(T, ps) + rest) == Ok((NormalizeAll(ps), rest))
    decreases ps
  {
    if ps != [] {
      var tail := PartsBytes(T, ps[1..]) + rest;
      Assoc(PartBytes(T, ps[0]), PartsBytes(T, ps[1..]), rest);
      PartRoundTrip(T, ps[0], tail);
      PartsRoundTrip(T, ps[1..], rest);
      ReadPartThenParts(T, |ps|, PartBytes(T, ps[0]) + tail, Normalize(ps[0]), tail, NormalizeAll(ps[1..]), rest);
      NormalizeAllCons(ps);
    } else {
      assert PartsBytes(T, ps) + rest == rest;
      assert NormalizeAll(ps) == [];
    }
  }

  /**
   * Collapsed fields (goalIsVariable false, repeats not above 0, empty lists)
   * set no flag bit and write no payload: a part encodes exactly as its
   * normal form does.
   */
  lemma {:induction false} EncodeIgnoresCollapsed(T: Tables, p: Part)
    requires SymbolsKnown(T, p)
    ensures SymbolsKnown(T, Normalize(p))
    ensures PartBytes(T, Normalize(p)) == PartBytes(T, p)
    decreases p, 0
  {
    var q := Normalize(p);
    if HasRepeatParts(p) {
      EncodeAllIgnoresCollapsed(T, p.repeatParts.parts);
    }
    NormalFlags(p);
    assert LayoutValuesField(T, q) == LayoutValuesField(T, p);
    assert RepeatPartsField(T, q) == RepeatPartsField(T, p);
  }

  /** A part and its normal form announce the same fields. */
  lemma NormalFlags(p: Part)
    ensures FlagBytes(Normalize(p)) == FlagBytes(p)
  {
    var q := Normalize(p);
    assert HasLayoutValues(q) == HasLayoutValues(p) && HasGoalIsVariable(q) == HasGoalIsVariable(p);
    assert HasRepeats(q) == HasRepeats(p) && HasRepeatParts(q) == HasRepeatParts(p);
  }

  /** The same for a list of sibling parts. */
  lemma {:induction false} EncodeAllIgnoresCollapsed(T: Tables, ps: seq<Part>)
    requires forall i :: 0 <= i < |ps| ==> SymbolsKnown(T, ps[i])
    ensures forall i :: 0 <= i < |ps| ==> SymbolsKnown(T, NormalizeAll(ps)[i])
    ensures PartsBytes(T, NormalizeAll(ps)) == PartsBytes(T, ps)
    decreases ps
  {
    if ps != [] {
      EncodeIgnoresCollapsed(T, ps[0]);
      EncodeAllIgnoresCollapsed(T, ps[1..]);
      NormalizeAllCons(ps);
      var qs := NormalizeAll(ps);
      assert qs[0] == Normalize(ps[0]) && qs[1..] == NormalizeAll(ps[1..]);
      forall i | 0 <= i < |qs|
        ensures SymbolsKnown(T, qs[i])
      {
        if i > 0 {
          assert qs[i] == qs[1..][i - 1];
        }
      }
      assert PartsBytes(T, qs) == PartBytes(T, qs[0]) + PartsBytes(T, qs[1..]);
    }
  }

  /** Proof helper only: NormalizeAll unfolded at the head of a list. */
  lemma NormalizeAllCons(ps: seq<Part>)
    requires ps != []
    ensures NormalizeAll(ps) == [Normalize(ps[0])] + NormalizeAll(ps[1..])
  {
  }

  /** Proof helper only: associativity of concatenation, stated once to keep proofs cheap. */
  lemma Assoc(a: seq<byte>, b: seq<byte>, c: seq<byte>)
    ensures a + b + c == a + (b + c)
  {
  }

  /** One step of the sibling loop: a part, then the remaining n - 1. */
  lemma ReadPartThenParts(T: Tables, n: nat, s: seq<byte>, q: Part, mid: seq<byte>, qs: seq<Part>, rest: seq<byte>)
    requires n > 0
    requires ParsePart(T, s) == Ok((q, mid))
    requires ParseParts(T, n - 1, mid) == Ok((qs, rest))
    ensures ParseParts(T, n, s) == Ok(([q] + qs, rest))
  {
  }

}
