/**
 * The workout envelope: encodeJsonObjectToLubbaData writes a version byte, a
 * small header and the parts; decodeLubbaData reads it back, and yields null
 * for any version other than 1.
 */
module Envelope {
  import opened Wrappers
  import opened Bytes
  import opened SymbolTables
  import opened Lib0
  import opened PartCodec
  import opened PartMethods

  /** The already-parsed workout object the encoder is given. */
  datatype Workout = Workout(isMetric: bool, title: Text, activityType: int, locationType: int, parts: seq<Part>)

  /** The object decodeLubbaData builds; isCustom is always true. */
  datatype Decoded = Decoded(isCustom: bool, isMetric: bool, title: Text, activityType: nat,
                             locationType: byte, parts: seq<Part>)

  /** Every part's symbols are in the tables, so encodePart can write them. */
  predicate AllKnown(T: Tables, ps: seq<Part>)
  {
    forall i :: 0 <= i < |ps| ==> SymbolsKnown(T, ps[i])
  }

  /** The header fields and the part count, each in the width it is written with. */
  predicate HeaderFits(w: Workout)
  {
    0 <= w.activityType < TwoTo32 && 0 <= w.locationType < 256 && |w.parts| < 256 &&
    forall i :: 0 <= i < |w.parts| ==> Fits(w.parts[i])
  }

  // ---------------------------------------------------------------- bytes

  /** The isMetric byte: 1 for a truthy flag, else 0. */
  function MetricByte(isMetric: bool): byte
  {
    if isMetric then 1 else 0
  }

  /** The version byte and the header, up to and including the part count. */
  function HeaderBytes(version: int, w: Workout): (r: seq<byte>)
    ensures |r| >= 8 && r[0] == ToUint8(version)
  {
    [ToUint8(version)] + [MetricByte(w.isMetric)] + VarString(w.title) + Uint32(w.activityType)
      + [ToUint8(w.locationType)] + [ToUint8(|w.parts|)]
  }

  /** The bytes encodeJsonObjectToLubbaData returns: the header, then every part. */
  function WorkoutBytes(T: Tables, version: int, w: Workout): (r: seq<byte>)
    requires AllKnown(T, w.parts)
    ensures |r| >= 8 && r[0] == ToUint8(version)
  {
    HeaderBytes(version, w) + PartsBytes(T, w.parts)
  }

  /**
   * decodeLubbaData on a buffer: Ok(None) (null) unless the first byte is 1,
   * otherwise the header and the announced number of parts. Bytes after the
   * last part are never looked at.
   */
  function ParseWorkout(T: Tables, s: seq<byte>): (r: Result<Option<Decoded>>)
    ensures r == Ok(None) <==> |s| == 0 || s[0] != 1
    ensures r.Ok? && r.value.Some? ==> r.value.value.isCustom
  {
    if |s| == 0 || s[0] != 1 then Ok(None)
    else
      var isMetric :- ParseUint8(s[1..]);
      var title :- ParseVarString(isMetric.1);
      var activityType :- ParseUint32(title.1);
      var locationType :- ParseUint8(activityType.1);
      var count :- ParseUint8(locationType.1);
      var parts :- ParseParts(T, count.0, count.1);
      Ok(Some(Decoded(true, isMetric.0 == 1, title.0, activityType.0, locationType.0, parts.0)))
  }

  // ---------------------------------------------------------------- properties

  /** A version-1 buffer decodes to the workout it was made from, its parts normalised. */
  lemma WorkoutRoundTrip(T: Tables, w: Workout, rest: seq<byte>)
    requires WellFormed(T)
    requires AllKnown(T, w.parts) && HeaderFits(w)
    ensures ParseWorkout(T, WorkoutBytes(T, 1, w) + rest)
         == Ok(Some(Decoded(true, w.isMetric, w.title, w.activityType, w.locationType, NormalizeAll(w.parts))))
  {
    var body := PartsBytes(T, w.parts) + rest;
    PartsRoundTrip(T, w.parts, rest);
    Assoc(HeaderBytes(1, w), PartsBytes(T, w.parts), rest);
    HeaderRoundTrip(w, body);
    ReadWorkout(T, HeaderBytes(1, w) + body, w.isMetric, w.title, w.activityType, w.locationType,
                |w.parts|, body, NormalizeAll(w.parts), rest);
  }

  /** The header reads back field by field, leaving the parts' bytes. */
  lemma HeaderRoundTrip(w: Workout, body: seq<byte>)
    requires 0 <= w.activityType < TwoTo32 && 0 <= w.locationType < 256 && |w.parts| < 256
    ensures var s := HeaderBytes(1, w) + body;
      |s| > 0 && s[0] == 1 &&
      ReadsHeader(s[1..], MetricByte(w.isMetric), w.title, w.activityType, w.locationType, |w.parts|, body)
  {
    var s0 := [MetricByte(w.isMetric)] + (VarString(w.title) + (Uint32(w.activityType)
              + ([ToUint8(w.locationType)] + ([ToUint8(|w.parts|)] + body))));
    HeaderSplit(w, body);
    assert (HeaderBytes(1, w) + body)[1..] == s0;
    HeaderFieldsRoundTrip(w, body);
  }

  /** The five fields after the version byte, each read back in turn. */
  lemma HeaderFieldsRoundTrip(w: Workout, body: seq<byte>)
    requires 0 <= w.activityType < TwoTo32 && 0 <= w.locationType < 256 && |w.parts| < 256
    ensures ReadsHeader([MetricByte(w.isMetric)] + (VarString(w.title) + (Uint32(w.activityType)
                        + ([ToUint8(w.locationType)] + ([ToUint8(|w.parts|)] + body)))),
                        MetricByte(w.isMetric), w.title, w.activityType, w.locationType, |w.parts|, body)
  {
    var s4 := [ToUint8(|w.parts|)] + body;
    assert s4[1..] == body;
    var s3 := [ToUint8(w.locationType)] + s4;
    assert s3[1..] == s4;
    var s2 := Uint32(w.activityType) + s3;
    Uint32RoundTrip(w.activityType, s3);
    var s1 := VarString(w.title) + s2;
    VarStringRoundTrip(w.title, s2);
    var s0 := [MetricByte(w.isMetric)] + s1;
    assert s0[1..] == s1;
    assert ParseUint8(s0) == Ok((MetricByte(w.isMetric), s1)) && ParseVarString(s1) == Ok((w.title, s2)) &&
           ParseUint32(s2) == Ok((w.activityType, s3)) && ParseUint8(s3) == Ok((w.locationType, s4)) &&
           ParseUint8(s4) == Ok((|w.parts|, body));
  }

  /** The five header reads after the version byte succeed with these values and leave `body`. */
  ghost predicate ReadsHeader(s0: seq<byte>, m: int, title: Text, at: nat, lt: int, n: nat, body: seq<byte>)
  {
    exists s1, s2, s3, s4 ::
      ParseUint8(s0) == Ok((m, s1)) && ParseVarString(s1) == Ok((title, s2)) &&
      ParseUint32(s2) == Ok((at, s3)) && ParseUint8(s3) == Ok((lt, s4)) && ParseUint8(s4) == Ok((n, body))
  }

  /** A version-1 header followed by n parts decodes to that record. */
  lemma ReadWorkout(T: Tables, s: seq<byte>, isMetric: bool, title: Text, at: nat, lt: byte,
                    n: nat, body: seq<byte>, ps: seq<Part>, rest: seq<byte>)
    requires |s| > 0 && s[0] == 1 && ReadsHeader(s[1..], MetricByte(isMetric), title, at, lt, n, body)
    requires ParseParts(T, n, body) == Ok((ps, rest))
    ensures ParseWorkout(T, s) == Ok(Some(Decoded(true, isMetric, title, at, lt, ps)))
  {
  }

  /** The header followed by `body`, as the reader meets it: one field after another. */
  lemma HeaderSplit(w: Workout, body: seq<byte>)
    ensures HeaderBytes(1, w) + body
         == [1] + ([MetricByte(w.isMetric)] + (VarString(w.title) + (Uint32(w.activityType)
            + ([ToUint8(w.locationType)] + ([ToUint8(|w.parts|)] + body)))))
  {
    HeaderNest([ToUint8(1)], [MetricByte(w.isMetric)], VarString(w.title), Uint32(w.activityType),
               [ToUint8(w.locationType)], [ToUint8(|w.parts|)], body);
  }

  /** Proof helper only: the header pieces regrouped from the right (associativity). */
  lemma HeaderNest(a1: seq<byte>, a2: seq<byte>, a3: seq<byte>, a4: seq<byte>, a5: seq<byte>,
                   a6: seq<byte>, rest: seq<byte>)
    ensures a1 + a2 + a3 + a4 + a5 + a6 + rest == a1 + (a2 + (a3 + (a4 + (a5 + (a6 + rest)))))
  {
  }

  // ---------------------------------------------------------------- methods

  /** encodeJsonObjectToLubbaData over any well-formed tables. */
  method EncodeWorkout(T: Tables, w: Workout, version: int) returns (data: seq<byte>)
    requires AllKnown(T, w.parts)
    ensures data == WorkoutBytes(T, version, w)
  {
    var e := new Encoder();
    WriteHeader(version, w, e);
    assert e.buf == HeaderBytes(version, w);
    ghost var header := e.buf;
    for j := 0 to |w.parts|
      invariant e.buf == header + PartsBytes(T, w.parts[..j])
    {
      ghost var before := e.buf;
      EncodePart(T, w.parts[j], e);
      PartsStep(T, w.parts, j, header, before, e.buf);
    }
    assert w.parts[..|w.parts|] == w.parts;
    data := e.buf;
  }

  /** The version byte and the header fields, then the part count. */
  method WriteHeader(version: int, w: Workout, e: Encoder)
    modifies e
    ensures e.buf == old(e.buf) + HeaderBytes(version, w)
  {
    e.WriteUint8(version);
    e.WriteUint8(MetricByte(w.isMetric));
    e.WriteVarString(w.title);
    e.WriteUint32(w.activityType);
    e.WriteUint8(w.locationType);
    e.WriteUint8(|w.parts|);
  }

  /** decodeLubbaData over any tables. */
  method DecodeWorkout(T: Tables, data: seq<byte>) returns (r: Result<Option<Decoded>>)
    ensures r == ParseWorkout(T, data)
  {
    var d := new Decoder(data);
    var version := d.ReadUint8();
    if version.Err? || version.value != 1 {
      return Ok(None);
    }
    var isMetric := d.ReadUint8();
    if isMetric.Err? {
      return Err(isMetric.error);
    }
    var title := d.ReadVarString();
    if title.Err? {
      return Err(title.error);
    }
    var activityType := d.ReadUint32();
    if activityType.Err? {
      return Err(activityType.error);
    }
    var locationType := d.ReadUint8();
    if locationType.Err? {
      return Err(locationType.error);
    }
    var count := d.ReadUint8();
    if count.Err? {
      return Err(count.error);
    }
    var parts := ReadParts(T, count.value, d);
    if parts.Err? {
      return Err(parts.error);
    }
    r := Ok(Some(Decoded(true, isMetric.value == 1, title.value, activityType.value, locationType.value, parts.value)));
  }

  /** encodeJsonObjectToLubbaData: the workout encoded with the codec's own tables. */
  method EncodeJsonObjectToLubbaData(w: Workout, encodingVersion: int) returns (data: seq<byte>)
    requires AllKnown(LubbaTables, w.parts)
    ensures data == WorkoutBytes(LubbaTables, encodingVersion, w)
    ensures data[0] == ToUint8(encodingVersion)
  {
    data := EncodeWorkout(LubbaTables, w, encodingVersion);
  }

  /** decodeLubbaData: the buffer decoded with the codec's own tables. */
  method DecodeLubbaData(data: seq<byte>) returns (r: Result<Option<Decoded>>)
    ensures r == ParseWorkout(LubbaTables, data)
    ensures r == Ok(None) <==> |data| == 0 || data[0] != 1
  {
    r := DecodeWorkout(LubbaTables, data);
  }

  /** With the codec's own tables, decoding undoes encoding at version 1. */
  lemma LubbaRoundTrip(w: Workout)
    requires AllKnown(LubbaTables, w.parts) && HeaderFits(w)
    ensures ParseWorkout(LubbaTables, WorkoutBytes(LubbaTables, 1, w))
         == Ok(Some(Decoded(true, w.isMetric, w.title, w.activityType, w.locationType, NormalizeAll(w.parts))))
  {
    LubbaTablesWellFormed();
    WorkoutRoundTrip(LubbaTables, w, []);
    assert WorkoutBytes(LubbaTables, 1, w) + [] == WorkoutBytes(LubbaTables, 1, w);
  }

  /** The table title "Warmup" travels as the single byte 1. */
  lemma WarmupIsOneByte()
    ensures TitleBytes(LubbaTables, Ascii("Warmup")) == [1]
  {
    assert PartTitleMap[0].key == Ascii("Warmup");
  }
}
