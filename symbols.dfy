/**
 * The fixed symbol tables that compress titles, layouts and value kinds to
 * one byte, and their reverses built by `reverseObject`.
 */
module SymbolTables {
  import opened Wrappers
  import opened Bytes

  /** One `key: code` property of a table object literal. */
  datatype Entry = Entry(key: Text, code: int)

  /** A table object, as its properties in JavaScript key order. */
  type Table = seq<Entry>

  /** partTitleMap: the ten titles that need no custom string. */
  const PartTitleMap: Table := [
    Entry(Ascii("Warmup"), 1),
    Entry(Ascii("Activity"), 2),
    Entry(Ascii("Fast"), 3),
    Entry(Ascii("Recover"), 4),
    Entry(Ascii("Rest"), 5),
    Entry(Ascii("Cooldown"), 6),
    Entry(Ascii("Ski"), 7),
    Entry(Ascii("Run"), 8),
    Entry(Ascii("Skate"), 9),
    Entry(Ascii("Walk"), 10)
  ]

  /**
   * layoutMap. Its first key is the numeric literal 1, which a JavaScript
   * object stores as the string "1".
   */
  const LayoutMap: Table := [
    Entry(Ascii("1"), 1),
    Entry(Ascii("2+1"), 2),
    Entry(Ascii("2+2"), 3),
    Entry(Ascii("2+3"), 4),
    Entry(Ascii("3+3"), 5),
    Entry(Ascii("1+1"), 6)
  ]

  /** valueGoalTypeMap: the value kinds of goals, targets and layout values. */
  const ValueGoalTypeMap: Table := [
    Entry(Ascii("duration"), 1),
    Entry(Ascii("distance"), 2),
    Entry(Ascii("distanceTest"), 3),
    Entry(Ascii("paceCurrent"), 4),
    Entry(Ascii("paceTest"), 5),
    Entry(Ascii("paceTest2"), 6),
    Entry(Ascii("paceAverageDuration"), 7),
    Entry(Ascii("bpm"), 8),
    Entry(Ascii("bpmAverageDuration"), 9),
    Entry(Ascii("intervalLeft"), 10),
    Entry(Ascii("durationInterval"), 11),
    Entry(Ascii("distanceInterval"), 12),
    Entry(Ascii("desiredAccuracy"), 13),
    Entry(Ascii("pace"), 14),
    Entry(Ascii("paceSplits"), 15),
    Entry(Ascii("smartDistance"), 16),
    Entry(Ascii("smartDuration"), 17),
    Entry(Ascii("speedCurrent"), 18),
    Entry(Ascii("speedAverageDuration"), 19),
    Entry(Ascii("totalActiveEnergyBurned"), 20),
    Entry(Ascii("activeEnergyBurnedInterval"), 21),
    Entry(Ascii("totalEnergyBurned"), 22),
    Entry(Ascii("energyBurnedInterval"), 23),
    Entry(Ascii("runningPower"), 24),
    Entry(Ascii("runningVerticalOscillation"), 25),
    Entry(Ascii("runningGroundContactTime"), 26),
    Entry(Ascii("rpe"), 27),
    Entry(Ascii("speed"), 28),
    Entry(Ascii("cyclingPower"), 29)
  ]

  /** `table[key]`: the code of the first property named `key`, if any. */
  function Lookup(t: Table, key: Text): (r: Option<int>)
    ensures r.Some? <==> exists i :: 0 <= i < |t| && t[i].key == key
    ensures r.Some? ==> exists i :: 0 <= i < |t| && t[i] == Entry(key, r.value)
  {
    if t == [] then None
    else if t[0].key == key then Some(t[0].code)
    else
      var r := Lookup(t[1..], key);
      assert forall i :: 0 < i < |t| ==> t[i] == t[1..][i - 1];
      r
  }

  /**
   * reverseObject: visits the properties in order and sets
   * `res[code] = key`, so a later property overwrites an earlier one with
   * the same code.
   */
  function ReverseObject(t: Table): (r: map<int, Text>)
    ensures r.Keys == set i | 0 <= i < |t| :: t[i].code
  {
    if t == [] then map[]
    else
      var last := t[|t| - 1];
      var r := ReverseObject(t[..|t| - 1])[last.code := last.key];
      assert forall i :: 0 <= i < |t| - 1 ==> t[i] == t[..|t| - 1][i];
      r
  }

  const PartTitleMapReverse: map<int, Text> := ReverseObject(PartTitleMap)
  const LayoutMapReverse: map<int, Text> := ReverseObject(LayoutMap)
  const ValueGoalTypeMapReverse: map<int, Text> := ReverseObject(ValueGoalTypeMap)

  /** The tables a codec consults, each with the reverse built from it. */
  datatype Tables = Tables(
    titles: Table, layouts: Table, valueKinds: Table,
    titlesReverse: map<int, Text>, layoutsReverse: map<int, Text>, valueKindsReverse: map<int, Text>)

  /** The tables of the Lubba format. */
  const LubbaTables: Tables :=
    Tables(PartTitleMap, LayoutMap, ValueGoalTypeMap,
           PartTitleMapReverse, LayoutMapReverse, ValueGoalTypeMapReverse)

  /**
   * What the codec's round trip relies on: every table numbers its keys
   * 1, 2, 3, ... in order, has fewer than 256 of them, and comes with its reverse.
   */
  ghost predicate WellFormed(T: Tables)
  {
    CodesAreOrdinals(T.titles) && |T.titles| < 256 && T.titlesReverse == ReverseObject(T.titles) &&
    CodesAreOrdinals(T.layouts) && |T.layouts| < 256 && T.layoutsReverse == ReverseObject(T.layouts) &&
    CodesAreOrdinals(T.valueKinds) && |T.valueKinds| < 256 && T.valueKindsReverse == ReverseObject(T.valueKinds)
  }

  /** The Lubba tables meet that requirement. */
  lemma LubbaTablesWellFormed()
    ensures WellFormed(LubbaTables)
  {
    TitlesAreOrdinal();
    LayoutsAreOrdinal();
    ValueKindsAreOrdinal();
  }

  /** The codes of t are 1, 2, ..., |t| in key order. */
  ghost predicate CodesAreOrdinals(t: Table)
  {
    forall i :: 0 <= i < |t| ==> t[i].code == i + 1
  }

  /** partTitleMap numbers its ten keys 1 to 10 in order. */
  lemma TitlesAreOrdinal()
    ensures |PartTitleMap| == 10 && CodesAreOrdinals(PartTitleMap)
  {
    OrdinalFromCodes(PartTitleMap, [1, 2, 3, 4, 5, 6, 7, 8, 9, 10]);
  }

  /** layoutMap numbers its six keys 1 to 6 in order. */
  lemma LayoutsAreOrdinal()
    ensures |LayoutMap| == 6 && CodesAreOrdinals(LayoutMap)
  {
    OrdinalFromCodes(LayoutMap, [1, 2, 3, 4, 5, 6]);
  }

  /** valueGoalTypeMap numbers its 29 keys 1 to 29 in order. */
  lemma ValueKindsAreOrdinal()
    ensures |ValueGoalTypeMap| == 29 && CodesAreOrdinals(ValueGoalTypeMap)
  {
    OrdinalFromCodes(ValueGoalTypeMap, [1, 2, 3, 4, 5, 6, 7, 8, 9, 10, 11, 12, 13, 14, 15, 16, 17, 18, 19, 20,
                                        21, 22, 23, 24, 25, 26, 27, 28, 29]);
  }

  /** A table whose codes, read in order, are 1, 2, 3, ... */
  lemma OrdinalFromCodes(t: Table, codes: seq<int>)
    requires |t| == |codes| && forall i :: 0 <= i < |t| ==> t[i].code == codes[i]
    requires forall i :: 0 <= i < |codes| ==> codes[i] == i + 1
    ensures CodesAreOrdinals(t)
  {
  }

  /** No two properties of t share a code. */
  ghost predicate DistinctCodes(t: Table)
  {
    forall i, j :: 0 <= i < j < |t| ==> t[i].code != t[j].code
  }

  /** With distinct codes, reversing maps each entry's code back to its key. */
  lemma {:induction false} ReverseFindsEntry(t: Table, i: nat)
    requires DistinctCodes(t)
    requires i < |t|
    ensures t[i].code in ReverseObject(t) && ReverseObject(t)[t[i].code] == t[i].key
  {
    if i < |t| - 1 {
      var prefix := t[..|t| - 1];
      assert DistinctCodes(prefix) by {
        assert forall j :: 0 <= j < |prefix| ==> prefix[j] == t[j];
      }
      ReverseFindsEntry(prefix, i);
      assert prefix[i] == t[i];
      assert ReverseObject(t) == ReverseObject(prefix)[t[|t| - 1].code := t[|t| - 1].key];
      assert t[|t| - 1].code != t[i].code;
      assert ReverseObject(t)[t[i].code] == ReverseObject(prefix)[t[i].code];
    } else {
      assert ReverseObject(t) == ReverseObject(t[..|t| - 1])[t[i].code := t[i].key];
    }
  }

  /**
   * For every key of an ordinal table, the reverse table maps the key's code
   * back to the key, and that code is never 0.
   */
  lemma ReverseInvertsLookup(t: Table, key: Text)
    requires CodesAreOrdinals(t)
    requires Lookup(t, key).Some?
    ensures Lookup(t, key).value != 0
    ensures Lookup(t, key).value in ReverseObject(t)
    ensures ReverseObject(t)[Lookup(t, key).value] == key
  {
    var i :| 0 <= i < |t| && t[i] == Entry(key, Lookup(t, key).value);
    assert DistinctCodes(t);
    ReverseFindsEntry(t, i);
  }

  /** The codes an ordinal table's reverse knows are exactly 1 .. |t|. */
  lemma ReverseDomain(t: Table, c: int)
    requires CodesAreOrdinals(t)
    ensures c in ReverseObject(t) <==> 1 <= c <= |t|
  {
    if 1 <= c <= |t| {
      assert t[c - 1].code == c;
    }
  }

  /**
   * The three reverse tables of the Lubba format know exactly the codes of
   * their tables, and map each key's code back to that key.
   */
  lemma LubbaReverses()
    ensures forall c :: c in PartTitleMapReverse <==> 1 <= c <= 10
    ensures forall c :: c in LayoutMapReverse <==> 1 <= c <= 6
    ensures forall c :: c in ValueGoalTypeMapReverse <==> 1 <= c <= 29
    ensures forall k :: Lookup(PartTitleMap, k).Some? ==>
      Lookup(PartTitleMap, k).value in PartTitleMapReverse && PartTitleMapReverse[Lookup(PartTitleMap, k).value] == k
    ensures forall k :: Lookup(LayoutMap, k).Some? ==>
      Lookup(LayoutMap, k).value in LayoutMapReverse && LayoutMapReverse[Lookup(LayoutMap, k).value] == k
    ensures forall k :: Lookup(ValueGoalTypeMap, k).Some? ==>
      Lookup(ValueGoalTypeMap, k).value in ValueGoalTypeMapReverse
      && ValueGoalTypeMapReverse[Lookup(ValueGoalTypeMap, k).value] == k
  {
    TitlesAreOrdinal();
    LayoutsAreOrdinal();
    ValueKindsAreOrdinal();
    forall c ensures c in PartTitleMapReverse <==> 1 <= c <= 10 {
      ReverseDomain(PartTitleMap, c);
    }
    forall c ensures c in LayoutMapReverse <==> 1 <= c <= 6 {
      ReverseDomain(LayoutMap, c);
    }
    forall c ensures c in ValueGoalTypeMapReverse <==> 1 <= c <= 29 {
      ReverseDomain(ValueGoalTypeMap, c);
    }
    forall k | Lookup(PartTitleMap, k).Some? {
      ReverseInvertsLookup(PartTitleMap, k);
    }
    forall k | Lookup(LayoutMap, k).Some? {
      ReverseInvertsLookup(LayoutMap, k);
    }
    forall k | Lookup(ValueGoalTypeMap, k).Some? {
      ReverseInvertsLookup(ValueGoalTypeMap, k);
    }
  }
}
