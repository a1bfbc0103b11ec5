# lubba-encoder in Dafny

A model of the binary workout codec of lubba-encoder (`src/index.js`), with
proofs about it. The codec turns a workout into a compact byte buffer and back:

- **Symbol tables** (`SymbolTables`). The title, layout and value-kind tables
  are object literals. `reverseObject` builds their reverses. A table is a
  sequence of `key: code` entries in JavaScript key order. The numeric layout
  key `1` is the string `"1"`, and as an integer-like key it comes first.
- **Flag bits** (`Bits`). `getBit` and `updateBit` work on 8-bit flag bytes
  (`bv8`). `Digit` is an independent reference for the binary digits of a number.
- **lib0 primitives** (`Lib0`). `Encoder` is a class with an append-only
  buffer. `Decoder` is a class with the whole input and a cursor that every
  read advances. Each write and read is tied to a pure byte-level function.
- **Part codec** (`PartCodec`, `PartMethods`). `PartCodec` states the bytes
  `encodePart` writes (`PartBytes`) and what `decodePart` reads (`ParsePart`).
  It proves that decoding consumes exactly the bytes encoding produced.
  `PartMethods` holds `encodePart` and `decodePart` as the source runs them:
  flag bytes built with `updateBit`, writes appended to a shared encoder,
  reads advancing a shared decoder, loops over `layoutValues` and
  `repeatParts`, and recursion into sub-parts. Each method is proved equal to
  its specification function.
- **Envelope** (`Envelope`). `encodeJsonObjectToLubbaData` writes the version
  byte, the header and the parts. `decodeLubbaData` reads them back, and
  returns null (`Ok(None)`) unless the first byte is 1.
- **Hash** (`Base64`, `Hash`). `encodeLubbaDataToHash` maps each byte to one
  character and applies `btoa`; in URL mode it then replaces every `/` with
  `%2F`. `decodeLubbaDataFromHash` applies `atob` and reads each character
  code back as a byte. Base64 is modelled directly: the encoding of section 4
  of RFC 4648, and the forgiving decode that `atob` performs.

The codec is written over any `Tables` value `T`. The round trips need only
`WellFormed(T)`: every table numbers its keys 1, 2, 3, … in order, has fewer
than 256 keys, and comes with its reverse. `LubbaTablesWellFormed` proves
this for the real tables. The source entry points (`EncodeJsonObjectToLubbaData`,
`DecodeLubbaData`, `LubbaRoundTrip`) pass `LubbaTables`.

A part reads back in its normal form (`Normalize`). Some fields set no flag
bit, so they come back absent: `goalIsVariable: false`, `repeats <= 0`, and
an empty `layoutValues` or `repeatParts`.

Wire formats of lib0, whose source is not part of this model:
- `writeVarUint` writes 7 bits per byte, least significant group first, with
  the high bit set on every byte but the last.
- `writeVarString` writes the byte length as such a varint, then the bytes.
- `writeUint32` writes 4 bytes, least significant first, after reducing the
  value modulo 2^32.
- `writeUint8` stores its argument modulo 256.
- `writeFloat64` writes the 8 bytes of the double.

## Model

| member | source | states |
|---|---|---|
| Bits.GetBit | src/index.js:66-68 | getBit(n, pos) is 1 when the pos-th binary digit of n is 1 and 0 otherwise; the result equals the reference `Digit(n, pos)` |
| Bits.DigitIsBinary | src/index.js:66-68 | every binary digit is 0 or 1, so getBit's result is a bit |
| Bits.DigitIsBit | src/index.js:66-68 | shifting n right by k and masking bit 0 gives 1 exactly when the k-th binary digit of n is 1 |
| Bits.UpdateBit | src/index.js:70-74 | bit pos of the result reads back through getBit as v (1 or 0), and every other bit reads back as it did in n |
| Bits.UpdateOnlyTouches | src/index.js:70-74 | clearing bit pos and then or-ing in v changes bit pos to v and no other bit |
| SymbolTables.Lookup | src/index.js:99-120 | `table[key]` is defined exactly when some entry has that key, and then it is the code of such an entry |
| SymbolTables.ReverseObject | src/index.js:6-8 | the reverse has exactly the codes of the table as its keys |
| SymbolTables.ReverseFindsEntry | src/index.js:6-8 | when no two entries share a code (`DistinctCodes`), the reverse maps each entry's code back to that entry's key |
| SymbolTables.ReverseInvertsLookup | src/index.js:62-64 | for every key of a table, `reverse[map[key]] == key`, and the key's code is not 0 |
| SymbolTables.ReverseDomain | src/index.js:62-64 | the reverse of a table numbered 1..n knows exactly the codes 1..n, so 0 and larger codes are unknown |
| SymbolTables.TitlesAreOrdinal | src/index.js:10-21 | the constant `PartTitleMap` (partTitleMap) has 10 keys, coded 1 to 10 in order |
| SymbolTables.LayoutsAreOrdinal | src/index.js:22-29 | the constant `LayoutMap` (layoutMap) has 6 keys, coded 1 to 6 in order |
| SymbolTables.ValueKindsAreOrdinal | src/index.js:30-60 | the constant `ValueGoalTypeMap` (valueGoalTypeMap) has 29 keys, coded 1 to 29 in order |
| SymbolTables.LubbaReverses | src/index.js:62-64 | the constants `PartTitleMapReverse`, `LayoutMapReverse` and `ValueGoalTypeMapReverse` know exactly the codes 1..10, 1..6 and 1..29, and map each key's code back to that key |
| SymbolTables.LubbaTablesWellFormed | src/index.js:10-64 | the three tables and their reverses meet everything the round trip needs: ordinal codes, fewer than 256 keys, reverses built by reverseObject |
| Lib0.ParseUint8 | src/index.js:139-140 | readUint8 succeeds exactly when a byte is left, and returns it with the bytes after it |
| Lib0.ParseVarUint | src/index.js:159 | a successful varint read leaves a proper suffix of its input |
| Lib0.ParseVarString | src/index.js:159 | a successful var-string read leaves a proper suffix of its input |
| Lib0.ParseUint32 | src/index.js:230 | readUint32 succeeds exactly when 4 bytes are left, returns a value below 2^32, and leaves the rest |
| Lib0.ParseFloat64 | src/index.js:173 | readFloat64 succeeds exactly when 8 bytes are left, and splits them off unchanged |
| Lib0.VarUint | src/index.js:104 | a varint has its high bit set on every byte but the last |
| Lib0.VarString | src/index.js:104 | writeVarString's bytes: the length as a varint, then the text's bytes |
| Lib0.Uint32 | src/index.js:205 | writeUint32's bytes: always exactly 4, least significant first, of n modulo 2^32 |
| Lib0.VarUintRoundTrip | src/index.js:104 | reading a varint back gives the number written and stops right after it |
| Lib0.VarStringRoundTrip | src/index.js:104 | reading a var-string back gives the bytes written and stops right after them |
| Lib0.Uint32RoundTrip | src/index.js:205 | reading a uint32 back gives the number written, reduced modulo 2^32 |
| Lib0.Float64RoundTrip | src/index.js:118 | reading a float back gives its 8 bytes unchanged |
| Lib0.ScaledStep | src/index.js:159 | one turn of readVarUint's loop keeps the final result unchanged, and a byte below 128 ends it |
| Lib0.Encoder.WriteUint8 | src/index.js:94 | the buffer grows by the byte n modulo 256 |
| Lib0.Encoder.WriteVarUint | src/index.js:104 | the loop appends exactly the varint of n |
| Lib0.Encoder.WriteVarString | src/index.js:104 | the buffer grows by the length varint and the bytes |
| Lib0.Encoder.WriteUint32 | src/index.js:205 | the buffer grows by the 4 bytes of n modulo 2^32 |
| Lib0.Encoder.WriteFloat64 | src/index.js:118 | the buffer grows by the float's 8 bytes |
| Lib0.Decoder.ReadUint8 | src/index.js:139 | the result and the bytes left are those of `ParseUint8`, and the cursor never moves back |
| Lib0.Decoder.ReadVarUint | src/index.js:159 | the accumulating loop returns what `ParseVarUint` reads, and leaves the cursor where that read stops |
| Lib0.Decoder.ReadVarString | src/index.js:159 | the result and the bytes left are those of `ParseVarString` |
| Lib0.Decoder.ReadUint32 | src/index.js:230 | the result and the bytes left are those of `ParseUint32` |
| Lib0.Decoder.ReadFloat64 | src/index.js:173 | the result and the bytes left are those of `ParseFloat64` |
| PartCodec.FlagBytes | src/index.js:94-95 | a part always starts with exactly two flag bytes |
| PartCodec.FlagsA | src/index.js:78-88 | flagsA: eight updateBit calls from 0, one per field from title to targetMin (its bits are stated by `FlagsReflectPresence`) |
| PartCodec.FlagsB | src/index.js:79-92 | flagsB: three updateBit calls from 0, for targetMax, repeats > 0 and a non-empty repeatParts |
| PartCodec.ReadPresence | src/index.js:142-153 | the eleven getBit tests of decodePart, one presence flag per field, in the same bit positions the encoder set |
| PartCodec.FlagsReflectPresence | src/index.js:78-92 | bit i of flagsA or flagsB is set exactly when field i has a payload: non-null, a non-empty list, `repeats > 0`, or `goalIsVariable === true`; bits 3-7 of flagsB are always 0 |
| PartCodec.FlagsRoundTrip | src/index.js:139-153 | the getBit tests of decodePart on the two written flag bytes announce exactly the fields the encoder wrote |
| PartCodec.PresenceFromBits | src/index.js:142-153 | flag bytes whose bits match a presence record are read back as that record |
| PartCodec.TitleEncoding | src/index.js:97-106 | a title in partTitleMap is written as its one code byte, never 0; any other title is written as 0 followed by the var-string |
| PartCodec.TitleBytes | src/index.js:97-106 | the title as written: its own table code when that code is truthy, else 0 and the var-string (the case split is stated by `TitleEncoding`) |
| PartCodec.TitleBytesAsWritten | src/index.js:99-101 | the title as written when `partTitleMap[title]` finds an inherited property: a lone 0, since writeUint8 stores the truthy non-number as 0 |
| PartCodec.InheritedTitleLost | src/index.js:99-101 | a title that only the object prototype knows is written as a lone 0, and decodePart never returns it with the bytes after it |
| PartCodec.ConstructorTitleLost | src/index.js:99-101 | the title "constructor" is written as the single byte 0, and a part ending there fails to decode |
| PartCodec.SymbolField | src/index.js:108 | an optional layout, goalType or targetType: its code byte when present, nothing otherwise (read back by `SymbolRoundTrip`) |
| PartCodec.LayoutValuesField | src/index.js:109-115 | a non-empty layoutValues: its count byte and one code byte per value; an empty or missing one writes nothing |
| PartCodec.RepeatsField | src/index.js:124 | the repeats byte when repeats > 0, nothing otherwise |
| PartCodec.RepeatPartsField | src/index.js:126-132 | a non-empty repeatParts: its count byte and every sub-part's encoding in order; an empty or missing one writes nothing |
| PartCodec.PartBytes | src/index.js:76-133 | the bytes encodePart writes: the flag bytes, then the payload of every flagged field in source order (decoded by `PartRoundTrip`) |
| PartCodec.TitleRoundTrip | src/index.js:155-160 | the title field reads back as the title, or as absent when there was none, and stops right after it |
| PartCodec.CustomTitleRoundTrip | src/index.js:156-159 | the 0 sentinel followed by a var-string reads back as that custom title |
| PartCodec.LookupIsSmall | src/index.js:108 | a table key's code is between 1 and the table size, so it fits the byte it is written to |
| PartCodec.SymbolRoundTrip | src/index.js:162 | a present symbol's code byte reads back through the reverse table as the symbol; an absent one reads nothing |
| PartCodec.LayoutRoundTrip | src/index.js:162 | the layout field reads back as the layout |
| PartCodec.ValueKindRoundTrip | src/index.js:172 | a goalType or targetType field reads back as the value kind |
| PartCodec.CodesRoundTrip | src/index.js:167-169 | a run of code bytes reads back as the keys written, in order |
| PartCodec.ValueKindsRoundTrip | src/index.js:167-169 | the layout value codes read back through valueGoalTypeMapReverse as the values written |
| PartCodec.LayoutValuesRoundTrip | src/index.js:163-170 | a non-empty layoutValues reads back as itself after its count byte; an empty or missing one reads as absent |
| PartCodec.FloatRoundTrip | src/index.js:173 | an optional float field reads back as the same 8 bytes, or as absent |
| PartCodec.RepeatsRoundTrip | src/index.js:180 | a positive repeat count below 256 reads back as itself; any other reads as absent |
| PartCodec.RepeatPartsRoundTrip | src/index.js:181-188 | a non-empty repeatParts reads back as its normalised sub-parts after its count byte; an empty or missing one reads as absent |
| PartCodec.ParseTitle | src/index.js:155-160 | reading a title never consumes more than the input |
| PartCodec.ParseSymbol | src/index.js:162 | reading an announced symbol byte through a reverse table never consumes more than the input; an unknown code gives an absent field |
| PartCodec.ParseLayoutValues | src/index.js:163-170 | reading an announced layoutValues never consumes more than the input |
| PartCodec.ParseFloat | src/index.js:173 | reading an announced float never consumes more than the input |
| PartCodec.ParseRepeats | src/index.js:180 | reading an announced repeat count never consumes more than the input |
| PartCodec.ParseRepeatParts | src/index.js:181-188 | reading an announced repeatParts never consumes more than the input |
| PartCodec.ParseHead | src/index.js:155-174 | reading the fields from title to goalIsVariable never consumes more than the input |
| PartCodec.ParseTail | src/index.js:176-188 | reading the fields from targetType to repeatParts never consumes more than the input |
| PartCodec.ParseCodes | src/index.js:163-169 | the loop reads exactly n values when it succeeds |
| PartCodec.ParsePart | src/index.js:135-191 | a successful decodePart consumes at least one byte, so the sub-part loop makes progress |
| PartCodec.ParseFields | src/index.js:155-188 | reading the announced fields never consumes more than the input |
| PartCodec.ParseParts | src/index.js:185-187 | reading n sibling parts yields exactly n parts when it succeeds |
| PartCodec.PartRoundTrip | src/index.js:76-191 | decoding what encodePart wrote, followed by any bytes, yields the normalised part and stops exactly at the end of its encoding |
| PartCodec.ReadFlagsThenFields | src/index.js:139-153 | decodePart reads the two flag bytes and then the fields they announce |
| PartCodec.FieldsRoundTrip | src/index.js:155-188 | the payloads of all announced fields read back as the normalised part |
| PartCodec.HeadRoundTrip | src/index.js:155-174 | the fields from title to goalIsVariable read back in order |
| PartCodec.ReadHead | src/index.js:155-174 | the first five field reads chain, each starting where the previous one stopped |
| PartCodec.TailRoundTrip | src/index.js:176-188 | the fields from targetType to repeatParts read back in order |
| PartCodec.ReadTail | src/index.js:176-188 | the last five field reads chain, each starting where the previous one stopped |
| PartCodec.ReadFlags | src/index.js:139-140 | the two flag bytes are read first, in order |
| PartCodec.PartsRoundTrip | src/index.js:185-187 | sibling parts written one after another decode in their original order and stop after the last one |
| PartCodec.ReadPartThenParts | src/index.js:185-187 | reading n parts is reading one part and then n - 1 parts |
| PartCodec.EncodeIgnoresCollapsed | src/index.js:83-126 | collapsed fields set no flag bit and write no payload: a part encodes exactly as its normal form does |
| PartCodec.NormalFlags | src/index.js:81-92 | a part and its normal form have the same flag bytes |
| PartCodec.EncodeAllIgnoresCollapsed | src/index.js:129-131 | a list of sub-parts encodes exactly as its normal form does |
| PartCodec.Normalize | src/index.js:83-126 | the part decodePart returns for the bytes encodePart wrote for p: fields that set no flag bit are absent, and goalIsVariable is true or absent (src/index.js:174) |
| PartCodec.NormalizeIdempotent | src/index.js:83-126 | the normal form is already normal, so a part decoded from encodePart's output re-encodes and decodes to itself. Bytes encodePart never writes, such as a repeats byte of 0, can decode to a part that is not normal |
| PartMethods.EncodePart | src/index.js:76-133 | encodePart appends exactly `PartBytes(T, p)` to the encoder's buffer |
| PartMethods.WriteFlags | src/index.js:78-95 | the two flag bytes built with eleven updateBit calls are exactly `FlagBytes(p)` |
| PartMethods.WriteTitle | src/index.js:97-106 | the title is written as its code when the lookup gives a truthy code, else as 0 and the var-string |
| PartMethods.WriteCustomTitle | src/index.js:103-104 | a custom title appends the 0 sentinel and the var-string |
| PartMethods.WriteSymbol | src/index.js:108 | a present symbol appends its code byte |
| PartMethods.WriteLayoutValues | src/index.js:109-115 | a non-empty layoutValues appends its count and then one code per value |
| PartMethods.WriteCodes | src/index.js:112-114 | the loop appends one code byte per value, in order |
| PartMethods.WriteFloat | src/index.js:118 | a present float appends its 8 bytes |
| PartMethods.WriteRepeats | src/index.js:124 | a positive repeat count appends its byte |
| PartMethods.WriteRepeatParts | src/index.js:126-132 | a non-empty repeatParts appends its count and then every sub-part |
| PartMethods.WriteSubParts | src/index.js:129-131 | the loop appends each sub-part's encoding in order |
| PartMethods.PartsStep | src/index.js:129-131 | each turn of a part loop extends the written prefix by one part's encoding |
| PartMethods.CodeBytesSnoc | src/index.js:112-114 | the code bytes of a list grow by one byte for each value appended |
| PartMethods.PartsBytesSnoc | src/index.js:129-131 | the encoding of a part list grows by one part's encoding for each part appended |
| PartMethods.DecodePart | src/index.js:135-191 | decodePart returns what `ParsePart` reads and leaves the cursor where that read stops |
| PartMethods.DecodeFields | src/index.js:155-188 | the announced fields are read as `ParseFields` states |
| PartMethods.DecodeHead | src/index.js:155-174 | the fields from title to goalIsVariable are read as `ParseHead` states |
| PartMethods.DecodeTail | src/index.js:176-188 | the fields from targetType on are read as `ParseTail` states |
| PartMethods.ReadTitle | src/index.js:156-160 | the title is read as `ParseTitle` states |
| PartMethods.ReadSymbol | src/index.js:162 | a symbol field is read as `ParseSymbol` states |
| PartMethods.ReadLayoutValues | src/index.js:163-170 | layoutValues is read as `ParseLayoutValues` states |
| PartMethods.ReadCodes | src/index.js:167-169 | the push loop reads the codes as `ParseCodes` states |
| PartMethods.ReadFloat | src/index.js:173 | a float field is read as `ParseFloat` states |
| PartMethods.ReadRepeats | src/index.js:180 | the repeat count is read as `ParseRepeats` states |
| PartMethods.ReadRepeatParts | src/index.js:181-188 | repeatParts is read as `ParseRepeatParts` states |
| PartMethods.ReadParts | src/index.js:185-187 | the push loop over sub-parts reads them as `ParseParts` states |
| PartMethods.PartFromFlags | src/index.js:139-153 | two flag bytes followed by the fields they announce make up a part |
| PartMethods.PrependNothing | src/index.js:165 | before the loop nothing has been pushed, so the list equals what remains to be read |
| PartMethods.PrependCode | src/index.js:168 | pushing one decoded value moves it from the list still to read to the list already read |
| PartMethods.PrependPart | src/index.js:186 | pushing one decoded part moves it from the list still to read to the list already read |
| Envelope.HeaderBytes | src/index.js:202-210 | the header is at least 8 bytes long and starts with the version byte |
| Envelope.MetricByte | src/index.js:203 | isMetric as the byte 1 when true and 0 when false |
| Envelope.WorkoutBytes | src/index.js:199-217 | the encoded workout starts with the version byte |
| Envelope.ParseWorkout | src/index.js:219-244 | the result is null exactly when the buffer is empty or its first byte is not 1; a decoded record always has `isCustom` set |
| Envelope.WorkoutRoundTrip | src/index.js:199-244 | a version-1 buffer decodes to the header fields written and the normalised parts, whatever follows it |
| Envelope.HeaderRoundTrip | src/index.js:202-234 | after the version byte 1, the header fields and the part count read back in order, leaving the parts' bytes |
| Envelope.HeaderFieldsRoundTrip | src/index.js:228-234 | isMetric, title, activityType, locationType and the part count each read back as written |
| Envelope.ReadWorkout | src/index.js:219-241 | a version-1 header followed by n decodable parts decodes to that record |
| Envelope.HeaderSplit | src/index.js:202-210 | the header bytes are the six writes in order |
| Envelope.WriteHeader | src/index.js:202-210 | the six header writes append exactly `HeaderBytes` |
| Envelope.EncodeWorkout | src/index.js:199-217 | the header write and the part loop return exactly `WorkoutBytes(T, version, w)` |
| Envelope.DecodeWorkout | src/index.js:219-244 | the reads and the part loop return exactly `ParseWorkout(T, data)` |
| Envelope.EncodeJsonObjectToLubbaData | src/index.js:199-217 | the result is `WorkoutBytes` over the Lubba tables, and its first byte is the version modulo 256 |
| Envelope.DecodeLubbaData | src/index.js:219-244 | the result is `ParseWorkout` over the Lubba tables, and it is null exactly when the buffer is empty or does not start with 1 |
| Envelope.LubbaRoundTrip | src/index.js:199-244 | with the Lubba tables, decoding a version-1 encoding gives back the workout with normalised parts and `isCustom` true |
| Envelope.WarmupIsOneByte | src/index.js:97-101 | the table title "Warmup" is written as the single byte 1 |
| Base64.Base64Char | src/index.js:256 | every value 0..63 maps to a character of the base64 alphabet |
| Base64.Base64Value | src/index.js:261 | every alphabet character maps to a value 0..63 |
| Base64.AlphabetBijective | src/index.js:261 | the alphabet is a bijection: value to character and back, and character to value and back |
| Base64.Chars | src/index.js:256 | values are written as one alphabet character each |
| Base64.Values | src/index.js:261 | alphabet characters are read as one 6-bit value each |
| Base64.ValuesOfChars | src/index.js:261 | reading the characters back gives the values written |
| Base64.Sextets | src/index.js:256 | the bytes split into 6-bit values |
| Base64.Padding | src/index.js:256 | btoa's padding: `==` after a final single byte, `=` after a final pair, nothing otherwise |
| Base64.SextetsLength | src/index.js:256 | n bytes give (4n + 2) / 3 values: four per full group, then two or three for a final one or two bytes |
| Base64.Encode | src/index.js:256 | btoa's output has a length divisible by 4, and every character is in the alphabet or is `=` |
| Base64.StripWhitespace | src/index.js:261 | atob's whitespace removal leaves no whitespace and never lengthens the input |
| Base64.StripPadding | src/index.js:261 | atob drops one or two trailing `=` when the length is a multiple of 4 |
| Base64.Octets | src/index.js:261 | atob turns each group of four 6-bit values into three bytes, and a final two or three values into one or two (inverse of `Sextets`, by `SextetsRoundTrip`) |
| Base64.Decode | src/index.js:261 | atob succeeds exactly when the unpadded input has no length of the form 4k + 1 and only alphabet characters |
| Base64.StripKeeps | src/index.js:261 | atob's whitespace removal keeps every other character |
| Base64.RejectsForeignChar | src/index.js:261 | atob throws on any character that is not whitespace, `=` or in the alphabet |
| Base64.GroupRoundTrip | src/index.js:261 | three bytes survive the trip through four 6-bit values |
| Base64.OctetsUnfold | src/index.js:261 | four values at the front of the input decode to one group of three bytes |
| Base64.GroupThenRest | src/index.js:261 | a group of four values in front of any decodable rest decodes to its three bytes, then the rest |
| Base64.SextetsRoundTrip | src/index.js:261 | the 6-bit values of any bytes decode back to those bytes |
| Base64.OneByteRoundTrip | src/index.js:261 | a final single byte survives its two values |
| Base64.TwoBytesRoundTrip | src/index.js:261 | a final pair of bytes survives its three values |
| Base64.NoWhitespace | src/index.js:261 | an encoding holds no whitespace for atob to remove |
| Base64.UnpadEncoding | src/index.js:261 | removing the padding of an encoding leaves exactly its alphabet characters |
| Base64.RoundTrip | src/index.js:254-261 | atob(btoa(b)) == b for every byte string b |
| Hash.Latin1 | src/index.js:248-251 | one character per byte, each below 256 |
| Hash.Codes | src/index.js:262-265 | one byte per character |
| Hash.Latin1Bijective | src/index.js:249-264 | `String.fromCharCode` and `charCodeAt` are inverse on bytes and on characters below 256 |
| Hash.Atob | src/index.js:261 | a successful atob returns only characters below 256 |
| Hash.Btoa | src/index.js:256 | btoa on a Latin-1 string: the base64 encoding of its character codes |
| Hash.EscapeSlashes | src/index.js:254 | replacing every `/` with `%2F` leaves no `/` and never shortens the text |
| Hash.EscapeRoundTrip | src/index.js:254 | on text without `%`, such as base64, reading `%2F` back as `/` undoes the replacement |
| Hash.EscapeKeepsSlashFree | src/index.js:254 | text without `/` is unchanged by the replacement |
| Hash.UnescapeSlashes | src/index.js:254 | turning `%2F` back into `/`, a step decodeLubbaDataFromHash does not take and its caller must take for a URL-mode hash (inverse of `EscapeSlashes` by `EscapeRoundTrip`) |
| Hash.EscapeLeavesPercent | src/index.js:254 | escaping a text that has a slash leaves a `%` in it |
| Hash.UrlHashNeedsUnescaping | src/index.js:253-261 | a URL-mode hash passed to decodeLubbaDataFromHash unchanged makes atob throw whenever the plain hash had a `/` |
| Hash.ToHash | src/index.js:247-258 | what encodeLubbaDataToHash returns: btoa of the Latin-1 string, with every `/` escaped in URL mode (decoded by `HashRoundTrip`) |
| Hash.FromHash | src/index.js:260-267 | what decodeLubbaDataFromHash returns: the character codes of atob's result, or nothing where atob throws |
| Hash.HashRoundTrip | src/index.js:247-267 | decodeLubbaDataFromHash(encodeLubbaDataToHash(b, false)) == b for every byte string b |
| Hash.UrlHashRoundTrip | src/index.js:253-254 | a URL-mode hash has no `/`, and once its `%2F` are read as `/` it is the plain hash and decodes back to the data |
| Hash.UrlModeOnlyEscapesSlashes | src/index.js:253-256 | the URL-mode hash equals the plain hash exactly when the plain hash has no `/` |
| Hash.EncodeLubbaDataToHash | src/index.js:247-258 | the character loop and btoa give exactly `ToHash(data, urlEncode)`, and the URL-mode result has no `/` |
| Hash.DecodeLubbaDataFromHash | src/index.js:260-267 | atob and the array fill loop give exactly `FromHash(hash)` |

## Left out

- `encodeYamlToLubbaData` (src/index.js:193-197): it is a thin wrapper over an external YAML parser. The encoder takes the already-parsed `Workout` value.
- Text is bytes. A JavaScript string is modelled as the bytes lib0 writes for it. UTF-8 conversion is not modelled, and table keys are ASCII.
- Floating point: `goalValue`, `targetMin` and `targetMax` are opaque 8-byte values (`Float64`). Their numeric meaning is never used.
- lib0's own source is not part of this model. Its wire formats are the assumptions listed above.
- Unknown symbols on encode are excluded by the precondition `SymbolsKnown` (on `EncodePart`, `EncodeWorkout` and `EncodeJsonObjectToLubbaData`). For such a symbol, `layoutMap[x]` or `valueGoalTypeMap[x]` is undefined, or a function for an inherited key. The source writes that value with writeUint8, and the Uint8Array store turns it into the code byte 0 (src/index.js:108, 113, 117, 120). decodePart reads code 0 back as an absent layout, goalType or targetType, and as an `undefined` entry inside layoutValues. The model proves no round trip for these symbols.
- PartCodec.ParseCodes: an unknown code inside `layoutValues` gives `Err(UnknownCode)`. JavaScript would push `undefined`, and a list of texts cannot hold that. An unknown code in a scalar symbol field is modelled as JavaScript does it: the field is absent.
- Truncated input: lib0 reads past the end give `undefined` or throw. The model returns `Err(Truncated)` at the first read that runs out of bytes. The exception is the version byte of an empty buffer, which decodes to null as in JavaScript.
- PartCodec.PartRoundTrip: it needs `Fits`, meaning every count and repeat number is below 256. Larger ones are written modulo 256 (`ToUint8`) and do not read back.
- Envelope.WorkoutRoundTrip: it needs `HeaderFits`, meaning `activityType` below 2^32, `locationType` and the part count below 256. The encoding of other values is modelled, with wrap-around, but they do not read back.
- JavaScript truthiness is modelled as booleans and options: `isMetric` is a `bool`, and an absent property is `None`. `object.parts` missing is not modelled, because `for…of` over it would throw.
- Inherited keys such as `toString` or `constructor` are not table keys in the model: `Lookup` sees only a table's own properties. In the source, `partTitleMap[title]` finds such a key on the object prototype. The value is a function, which is truthy, so src/index.js:99-101 writes the title as a lone 0 with no var-string. src/index.js:158-159 then reads the bytes that follow as the title's string. Such titles therefore do not round-trip in the source, although `TitleRoundTrip` and `CustomTitleRoundTrip` prove that they do under the own-property lookup the model uses. `InheritedTitleLost` and `ConstructorTitleLost` state the source's behaviour; see "## Findings".
- `btoa` on characters above 255 is never reached, because every character comes from a byte.
- decodeLubbaDataFromHash does not turn `%2F` back into `/`, and no caller that does so is part of this model. Undoing the escape is assumed to be the caller's job: `UnescapeSlashes` models that step in `UrlHashRoundTrip`, and `UrlHashNeedsUnescaping` shows that skipping it makes atob throw.

## Findings

| source | as written | input that shows it | evidently intended | confidence | as-written member | corrected member |
|---|---|---|---|---|---|---|
| src/index.js:99-101 | `partTitleMap[part.title]` also finds keys inherited from `Object.prototype`. Their value is a function, which is truthy, so writeUint8 stores it as 0 and no var-string follows. | a part titled `"constructor"` (or `"toString"`): it is written as flag bytes and then the lone byte 0, and decodePart reads the bytes after it as the title's string | an own-property lookup (`Object.hasOwn(partTitleMap, title)`), so that every title outside the table is written as 0 followed by its var-string and reads back | high (not executed) | PartCodec.InheritedTitleLost | PartCodec.TitleRoundTrip |
