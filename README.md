# iqdb in Dafny

iqdb is an image similarity search. Every image is reduced to a *signature*:
- the 16-byte MD5 hash of the image file;
- a short list of coefficient ids;
- for Haar signatures, the three average YIQ luminances.

The signature kinds are:
- **Haar signatures**: the 30 most significant Haar wavelet coefficients per channel of a 128x128 thumbnail, each packed as `((channel << 14 | position) << 1) | sign`.
- **Integer signatures**: a bag of ids parsed from a text line.
- **RGB and colour signatures**: the 50 most frequent quantised colours of a thumbnail, with their counts.

Signatures are gathered into an *inverted index*, a compressed sparse-row (CSR) table. Its offsets array gives, for every coefficient id, the slice of a postings array that lists the images holding that id. A query walks the slices of its own ids and adds each coefficient's weight to a per-image accumulator. Then it keeps the images whose matched weight, taken as a fraction of the larger total weight, passes a limit.

The project models:
- the signature classes and their binary codecs (`Signatures`, `IntegerSignatures`, `HaarWeights`, `HaarSelection`, `HaarSignatures`, `HaarCompare`, `HaarStream`, `Palette`, `RgbSignatures`, `ColorSignatures`);
- the four index builders with their serialisers and query loops:
  - the in-memory `HaarQuerySparseMatrix` (`Csr`, `HaarIndex`, `HaarMatrix`);
  - its lazily loading disk variant (`DiskMatrix`);
  - the `IntegerQuerySparseMatrix` (`IntegerMatrix`);
  - the older length-prefixed `QueryGrid` (`GridLayout`, `GridAdmission`, `GridBuild`, `GridQuery`, `GridCodec`, `QueryGrids`);
- the per-channel block store `HaarSigBlockDB` (`HaarBlocks`);
- the command-line programs:
  - `iqdb_batch_query` (`BatchQuery`);
  - `hsig2hsm` (`FirstSeen`, `ShardSplit`);
  - `hsigcf` (`HashFilter`);
  - `iqdb-import` (`ImportCsv`, `ImportBlocks`, `RgbDump`, `ImportDispatch`).

`Wire` models BinaryReader and BinaryWriter. `Text` models the few string operations of .NET that the programs use.

The model takes the program's own form:
- Objects whose fields change are classes. These are `Signature`, the matrices, the grid and the block database.
- Loops are methods with loop invariants. Each is proved equal to a function that states what the loop computes.
- The properties the code promises are lemmas about those functions: round trips of every codec, the layout of every index, query results equal to a direct comparison, and deduplication and scheduling in the programs.

Exceptions are values: `Result` carries an `Error` that names the .NET exception. Files are byte streams handed in as parameters. A stream is a sequence of cells: a byte, or a single-precision float kept whole as a real number.

## Model

| member | source | states |
|---|---|---|
| `Signatures.ZeroHash` | iqdb/Signature.cs:22 | the hash a null MD5 string gives is sixteen zero bytes |
| `Signatures.HexPair` | iqdb/Signature.cs:15 | Convert.ToByte(pair, 16) accepts exactly two hex digits or '+' and one hex digit, with value 16·hi + lo or lo; a leading '-' raises ArgumentException, anything else FormatException |
| `Signatures.HexToBytes` | iqdb/Signature.cs:9-18 | a successful parse gives half as many bytes as characters; the only exceptions are ArgumentOutOfRange, Format and Argument |
| `Signatures.HexToBytesMeaning` | iqdb/Signature.cs:9-18 | StringToByteArray succeeds exactly when the length is even and every pair is accepted by Convert.ToByte (hex digits, or '+' and a digit); byte k is then the value of characters 2k and 2k+1; a first pair starting with '-' raises ArgumentException, and an odd-length hex string fails in Substring |
| `Signatures.PlusPair` | iqdb/Signature.cs:15 | the string "+f" parses to the single byte 15 |
| `Signatures.StringToByteArray` | iqdb/Signature.cs:9-18 | the fill loop returns what the byte-pair parse defines, including its exceptions (FormatException, ArgumentException for '-', ArgumentOutOfRange for a lone last character) |
| `Signatures.HashOf` | iqdb/Signature.cs:20-25 | SetHash(null) gives 16 zero bytes, a length other than 32 raises InvalidDataException, otherwise the string is parsed as StringToByteArray parses it, '+' pairs and '-' errors included |
| `Signatures.HashString` | iqdb/Signature.cs:32 | "unknown" for a null hash, otherwise two lower-case hex digits per byte and no separators |
| `Signatures.HexRoundTrip` | iqdb/Signature.cs:9-32 | printing the bytes parsed from an even-length hex string gives the string lower-cased |
| `Signatures.HashStringAfterSetHash` | iqdb/Signature.cs:20-32 | for a valid 32-digit hex h, SetHash(h) stores 16 bytes and HashString then equals h lower-cased |
| `Signatures.Signature.SetId` | iqdb/Signature.cs:35-40 | the ID getter returns the value last set; no other field changes |
| `Signatures.Signature.SetHash` | iqdb/Signature.cs:20-25 | the stored hash is HashOf(h) on success; on an exception the hash is unchanged; ID and SigData never change |
| `IntegerSignatures.SortAscending` | iqdb/IntegerSignature.cs:29 | Array.Sort gives an ascending permutation of the features of the same length |
| `IntegerSignatures.LineSignature` | iqdb/IntegerSignature.cs:22-31 | the line constructor takes token 0 (split on tab, comma and braces, empty tokens dropped) as the hash and parses the others into exactly tokens−1 features, sorted ascending and a permutation of the parsed tokens, ID 0 |
| `IntegerSignatures.ParseFeatures` | iqdb/IntegerSignature.cs:25-26 | the parse loop gives UInt32.Parse of every token in order, or the first token's exception |
| `IntegerSignatures.FromLine` | iqdb/IntegerSignature.cs:22-31 | the constructed object is the line parse, and it fails exactly when the parse does, with the same exception |
| `IntegerSignatures.FromFeatures` | iqdb/IntegerSignature.cs:12-17 | the md5+features constructor sets the hash and stores the features unsorted, exactly as given |
| `IntegerSignatures.IntegerRoundTrip` | iqdb/IntegerSignature.cs:40-77 | Serialize then Deserialize restores hash and ids with ID 0 (16-byte hash, fewer than 65536 ids); with no hash a nonzero ID comes back and the hash becomes 16 zero bytes |
| `IntegerSignatures.HeaderRoundTrip` | iqdb/IntegerSignature.cs:42-69 | a record head reads back as ID 0 plus the hash, or as the nonzero ID plus 16 zero bytes |
| `IntegerSignatures.IdsRoundTrip` | iqdb/IntegerSignature.cs:52-76 | the ushort count and the uint ids read back exactly when there are fewer than 65536 |
| `IntegerSignatures.Serialize` | iqdb/IntegerSignature.cs:40-57 | writes uint 0 and the 16 hash bytes (or the ID), the count as a ushort, then every id |
| `IntegerSignatures.Deserialize` | iqdb/IntegerSignature.cs:59-77 | replaces ID, hash and SigData by the decoded record and fails exactly when decoding does |
| `HaarWeights.LookUpAt` | iqdb/HaarSignature.cs:168-182 | the cell id of (channel, y, x) is below 49152, its fields come back out, and its entry is Weights[1, min(5, max(x, y)), channel] |
| `HaarWeights.InitializeCoefficientTranslation` | iqdb/HaarSignature.cs:168-182 | every one of the 49152 entries is written exactly once, in ascending order, with the sketch-profile weight of its band |
| `HaarWeights.PackIdFields` | iqdb/HaarSignature.cs:58-170 | for channel < 3 and pos < 16384 the packed id is below 98304, `id >> 1` indexes WeightLookUp, `id >> 15` is the channel, and position and sign come back out |
| `HaarWeights.PackIdBits` | iqdb/HaarSignature.cs:133 | the shift-and-or packing equals `(channel·16384 + pos)·2 + sign` |
| `HaarWeights.CellIdBits` | iqdb/HaarSignature.cs:177 | the shift-and-or cell id equals `channel·16384 + y·128 + x` |
| `HaarWeights.CoeffWeight` | iqdb/HaarSignature.cs:197 | Get_Coeff_Weight is `WeightLookUp[coeff >> 1]`, an index error exactly when coeff ≥ 98304 |
| `HaarWeights.SumLookUpMeaning` | iqdb/HaarSignature.cs:188-196 | Sum_Weights fails exactly when some id is past the table, and otherwise is Σ `WeightLookUp[id >> 1]` over SigData |
| `HaarWeights.SumWeights` | iqdb/HaarSignature.cs:188-196 | the foreach loop computes that sum or fails at the first id past the table |
| `HaarSelection.HeapSiftUp` | iqdb/HaarSignature.cs:332-341 | given a heap broken at most at the edge into i, the recursive swap-with-parent restores a min-heap by magnitude and only permutes idx[..n] |
| `HaarSelection.SeedHeap` | iqdb/HaarSignature.cs:283-290 | after seeding, sig[0..K) is a min-heap by magnitude of the positions 1..K, each once |
| `HaarSelection.Push` | iqdb/HaarSignature.cs:288-289 | writing position heap_size+1 and sifting it up keeps the seeded heap property |
| `HaarSelection.Offer` | iqdb/HaarSignature.cs:291-328 | a later position replaces the top exactly when its magnitude is at least the top's; otherwise the heap is untouched; entries stay distinct positions in [1, i] |
| `HaarSelection.SiftDown` | iqdb/HaarSignature.cs:301-327 | the sift-down with its `vnew = va` reassignment only permutes the heap (no top-K order is promised) |
| `HaarSelection.GetSignificantIndices` | iqdb/HaarSignature.cs:281-331 | returns num_coeffs distinct positions, all in [1, PIXEL_COUNT): the DC position 0 is never chosen |
| `HaarSignatures.PackAllMeaning` | iqdb/HaarSignature.cs:121-136 | FromImage's 90 ids are distinct and inside the weight table; id l belongs to channel l/30 (`id >> 15`), names that channel's chosen position and has its sign bit set exactly when the coefficient is positive; they are in heap order, not sorted |
| `HaarSignatures.FromTransform` | iqdb/HaarSignature.cs:121-202 | after the transform, each channel's average is DC/PIXEL_COUNT and its ids are the chosen positions packed in heap order; the hash is set as SetHash sets it |
| `HaarSignatures.PackChannel` | iqdb/HaarSignature.cs:131-134 | slot j of the channel's block gets the packed id of t[j] with its sign; other slots are unchanged |
| `HaarSignatures.AveragesRoundTrip` | iqdb/HaarSignature.cs:384-417 | one or three averages read back unchanged; any other count raises InvalidDataException |
| `HaarSignatures.HaarRoundTrip` | iqdb/HaarSignature.cs:372-425 | Serialize then Deserialize restores hash, averages and ids (ID 0 with a hash, zero hash without one); an average count other than 1 or 3 raises InvalidDataException |
| `HaarSignatures.Serialize` | iqdb/HaarSignature.cs:372-395 | writes the head, the averages block and the id block |
| `HaarSignatures.Deserialize` | iqdb/HaarSignature.cs:396-425 | replaces ID, hash, averages and SigData by the decoded record; fails exactly when decoding does |
| `HaarCompare.CompareIntArrays` | iqdb/HaarSignature.cs:431-445 | the two-cursor merge loop computes the merge sum (advance the smaller id, both on a tie; a tie adds `weights[id >> 1]`), failing where the weight index is out of range |
| `HaarCompare.MergeMatchCommon` | iqdb/HaarSignature.cs:431-445 | on strictly ascending inputs CompareIntArrays is the sum of `weights[c >> 1]` over the ids the two arrays share |
| `HaarCompare.MergeMatchSymmetric` | iqdb/HaarSignature.cs:431-445 | CompareIntArrays gives the same result with its arguments swapped, on any input |
| `HaarCompare.SimilarityIsJaccard` | iqdb/HaarSignature.cs:447-458 | on sorted ids inside the table, Compare is the common weight over `Sum_Weights + other.Sum_Weights − common` (no value when that is 0) |
| `HaarCompare.DiffIsCastSubtraction` | iqdb/HaarSignature.cs:482 | `(int)i1 − (int)i2` with unchecked casts and subtraction is the 32-bit wrapped difference |
| `HaarCompare.UnionTallyIsUnion` | iqdb/HaarSignature.cs:471-508 | on strictly ascending ids inside the table, CompareTo's usedcoeffs is the size of the union, w_match the weight of the common ids and w_total the weight of the union |
| `HaarCompare.CompareToAgreesWithCompare` | iqdb/HaarSignature.cs:447-510 | on sorted ids inside the table, CompareTo's score equals Compare's |
| `HaarCompare.CompareTo` | iqdb/HaarSignature.cs:459-510 | the loop returns usedcoeffs and w_match/w_total as the step function counts them; num_colors is 0 so the averages and ignore_color have no effect; an int.MaxValue sentinel step fails on the table index |
| `HaarStream.DecodedHaar` | iqdb/HaarSignature.cs:396-425 | a record read successfully is storable (HaarKind, 16-byte hash, one or three averages, fewer than 65,536 ids) and strictly consumes the stream |
| `HaarStream.ReadableRecords` | hsigcf/Program.cs:40-44 | on a file that reads to its end, the loop that stops at the first failure yields exactly the records of the loop that raises, all storable |
| `HaarStream.ReadableStorable` | hsig2hsm/Program.cs:39-44 | every record the reading loop yields is storable |
| `HaarStream.HaarsRoundTrip` | iqdb/HaarSignature.cs:372-425 | a file written by Serialize for storable Haar signatures reads back as all of them, in order, each with ID 0 |
| `Palette.GetHexUint` | iqdb/RBGSignature.cs:38-44 | exactly two upper-case hex digits whose value is the input clamped to 255 |
| `Palette.CountsMeaning` | iqdb/RBGSignature.cs:90-106 | histogram bucket c is the number of pixels whose colour id is c |
| `Palette.CountsSum` | iqdb/RBGSignature.cs:90-106 | the histogram's counts add up to the number of pixels |
| `Palette.Histogram` | iqdb/ColorSignature.cs:124-138 | the counting loop leaves the array equal to the histogram of the colour ids |
| `Palette.WeightsRoundTrip` | iqdb/RBGSignature.cs:139-162 | the weight block reads back exactly when its count equals the id count, and otherwise raises InvalidDataException |
| `RgbSignatures.GetColorByte` | iqdb/RBGSignature.cs:28-31 | the channel with its low three bits dropped: `8q <= c < 8q + 8`, below 32 for a byte |
| `RgbSignatures.GetColorId` | iqdb/RBGSignature.cs:32-36 | a colour id below 32,768 whose three five-bit fields are red, green and blue |
| `RgbSignatures.ColorIdBits` | iqdb/RBGSignature.cs:32-36 | the shift-and-or spelling of getColorID equals its arithmetic spelling on byte channels |
| `RgbSignatures.GetColorsHex` | iqdb/RBGSignature.cs:45-57 | six upper-case hex digits |
| `RgbSignatures.ColorsHexOfColorId` | iqdb/RBGSignature.cs:32-57 | getColorsHex of a colour id prints blue, green, red (in that order), each with its low three bits cleared |
| `RgbSignatures.HexDataLength` | iqdb/RBGSignature.cs:59-71 | GetHexData prints eight characters per nonzero weight and none for the others |
| `RgbSignatures.HexDataSkipsZero` | iqdb/RBGSignature.cs:59-71 | a slot with weight 0 adds nothing to GetHexData |
| `RgbSignatures.GetHexData` | iqdb/RBGSignature.cs:59-71 | the loop builds the hex data, and raises IndexOutOfRange when the weights are shorter than SigData |
| `RgbSignatures.ColorIds` | iqdb/RBGSignature.cs:93-106 | one colour id per pixel, each below COLOR_COUNT and equal to getColorID of its channels |
| `RgbSignatures.ThumbnailCounts` | iqdb/RBGSignature.cs:19-22 | the 16x16 thumbnail's histogram adds up to 256 and no bucket exceeds 256 |
| `RgbSignatures.TopFifty` | iqdb/RBGSignature.cs:116-126 | the top-50 loop fills slot i from position COLOR_COUNT-1-i of the sorted histogram, leaving 0s for empty buckets |
| `RgbSignatures.TopFiftyMeaning` | iqdb/RBGSignature.cs:115-126 | slot weights are non-increasing, a nonzero weight is its colour's count, an empty slot has id 0, and no colour outside the top 50 outweighs a slot |
| `RgbSignatures.FromPixels` | iqdb/RBGSignature.cs:80-129 | FromImage fails exactly when the hash is malformed, and otherwise gives a fresh signature with ID 0, the parsed hash and the top-50 ids and weights |
| `RgbSignatures.RgbRoundTrip` | iqdb/RBGSignature.cs:139-162 | Serialize then Deserialize gives the signature back (ID 0 when a hash is stored), or InvalidDataException when weights and ids differ in count |
| `RgbSignatures.Serialize` | iqdb/RBGSignature.cs:139-149 | the writes produce the integer record followed by the weight block |
| `RgbSignatures.Deserialize` | iqdb/RBGSignature.cs:151-162 | succeeds exactly when the record decodes, and then leaves the object holding the decoded signature |
| `ColorSignatures.GetColorId` | iqdb/ColorSignature.cs:28-37 | a colour id below 65,536 whose fields are the top six bits of Y and the top five bits of U and V |
| `ColorSignatures.ColorIdDigits` | iqdb/ColorSignature.cs:34 | a 6-bit, a 5-bit and a 5-bit field packed side by side read back field by field |
| `ColorSignatures.ColorIdBits` | iqdb/ColorSignature.cs:31-34 | the shift-and-or spelling of getColorID equals its arithmetic spelling on byte channels |
| `ColorSignatures.HexDataLength` | iqdb/ColorSignature.cs:66-77 | GetHexData prints eight characters for every slot, whatever its weight |
| `ColorSignatures.HexDataAt` | iqdb/ColorSignature.cs:66-77 | slot i prints at offset 8i as the hex of weight >> 2 followed by its six colour digits |
| `ColorSignatures.GetHexData` | iqdb/ColorSignature.cs:66-77 | the loop builds the hex data, and raises IndexOutOfRange when the weights are shorter than SigData |
| `ColorSignatures.TopFifty` | iqdb/ColorSignature.cs:142-150 | slot i takes the colour at position COLOR_COUNT-1-i of the sorted histogram and `(ushort)(count − 1)` as weight |
| `ColorSignatures.TopFiftyMeaning` | iqdb/ColorSignature.cs:140-150 | slots hold distinct colours by non-increasing count, none outside the top 50 counts more; a weight is count − 1, and an empty colour wraps to 0xFFFF |
| `ColorSignatures.FromColorIds` | iqdb/ColorSignature.cs:92-153 | FromImage fails exactly when the hash is malformed, and otherwise gives a fresh signature with ID 0, the parsed hash and the top-50 colours and weights |
| `ColorSignatures.ColorRoundTrip` | iqdb/ColorSignature.cs:163-186 | Serialize then Deserialize gives the signature back (ID 0 when a hash is stored), or InvalidDataException when weights and ids differ in count |
| `ColorSignatures.Serialize` | iqdb/ColorSignature.cs:163-173 | the writes produce the integer record followed by the weight block |
| `ColorSignatures.Deserialize` | iqdb/ColorSignature.cs:175-186 | succeeds exactly when the record decodes, and then leaves the object holding the decoded signature |
| `Csr.EntriesSnoc` | iqdb/HaarQuerySparseMatrix.cs:19-37 | the build visits one more signature's ids, tagged with its index, after those before it |
| `Csr.EntriesBelow` | iqdb/HaarQuerySparseMatrix.cs:33-36 | when every id is below n, every entry's coefficient is below n |
| `Csr.EntriesLength` | iqdb/HaarQuerySparseMatrix.cs:19-37 | the build visits exactly as many entries as there are ids over all signatures |
| `Csr.Lists` | iqdb/HaarQuerySparseMatrix.cs:18 | one posting list per coefficient, list c being the indices posted under c (a null list read as empty) |
| `Csr.PostingsAppend` | iqdb/HaarQuerySparseMatrix.cs:33-36 | posting lists of two runs of entries are the lists of each, laid end to end |
| `Csr.DistributeIds` | iqdb/HaarQuerySparseMatrix.cs:33-36 | the inner foreach appends the signature's index to the list of each of its ids, once per occurrence, and to no other list |
| `Csr.PostingsOfTagged` | iqdb/HaarQuerySparseMatrix.cs:33-36 | one signature posts its index to list c exactly as often as c occurs among its ids |
| `Csr.PostingsMeaning` | iqdb/HaarQuerySparseMatrix.cs:19-37 | list c names only existing signatures, in non-decreasing order, and names signature i as often as c occurs in its ids |
| `Csr.FlattenRow` | iqdb/HaarQuerySparseMatrix.cs:54-67 | row c of the flat array, between the lengths of the first c and c+1 lists, is list c |
| `Csr.FlattenCount` | iqdb/HaarQuerySparseMatrix.cs:44-50 | the flat array holds every entry exactly once: its length is the number of entries |
| `Csr.CountEntries` | iqdb/HaarQuerySparseMatrix.cs:45-49 | the counting loop gives the length of all lists laid end to end |
| `Csr.FlattenLists` | iqdb/HaarQuerySparseMatrix.cs:42-68 | the flatten loop leaves column_ids as the lists end to end and row_id_offsets as every list's start followed by the total |
| `Csr.PlaceRow` | iqdb/HaarQuerySparseMatrix.cs:56-66 | one turn of the flatten loop records the list's start and copies its ids to the pointer |
| `Csr.CopyRow` | iqdb/HaarQuerySparseMatrix.cs:62-66 | the inner loop copies the list behind what is already written and moves the pointer by its length |
| `Csr.RowOf` | iqdb/HaarQuerySparseMatrix.cs:161-166 | row c runs from `offsets[c]` to the next offset (the column count for the last); an id past the offsets or a row past the column ids is an index error |
| `Csr.OffsetsMeaning` | iqdb/HaarQuerySparseMatrix.cs:42-68 | the offsets start at 0, end at the total, never decrease, and row c read back through them is list c |
| `Csr.OffsetsRow` | iqdb/HaarQuerySparseMatrix.cs:42-68 | every row the query reads back from the offsets and column ids is the list that was flattened |
| `Csr.AddRowAccepts` | iqdb/HaarQuerySparseMatrix.cs:162-166 | adding a row's weight succeeds exactly when every id in the row names a candidate |
| `Csr.AddRowMeaning` | iqdb/HaarQuerySparseMatrix.cs:162-166 | an accepted row adds the weight to every candidate once per occurrence in the row and leaves the others alone |
| `HaarIndex.EncodeMini` | iqdb/HaarQuerySparseMatrix.cs:78-82 | a record writes exactly when it has a hash and at least three averages; a null hash raises ArgumentNullException, short averages IndexOutOfRange |
| `HaarIndex.EncodeMinisStep` | iqdb/HaarQuerySparseMatrix.cs:76-83 | writing the records is the first record followed by the others, the first failure stopping the loop |
| `HaarIndex.WriteRecords` | iqdb/HaarQuerySparseMatrix.cs:74-83 | the record loop writes the records as the encoding states, or fails as the first failing record does |
| `HaarIndex.DecodeMinisStep` | iqdb/HaarQuerySparseMatrix.cs:100-115 | reading n records is the first record followed by the n−1 after it |
| `HaarIndex.ReadRecords` | iqdb/HaarQuerySparseMatrix.cs:100-115 | the record loop reads n records as the decoding states, or fails as it does |
| `HaarIndex.DecodeHeaderShrinks` | iqdb/HaarQuerySparseMatrix.cs:98-124 | the header is read from the front of the stream |
| `HaarIndex.EncodeMinisAccepts` | iqdb/HaarQuerySparseMatrix.cs:76-83 | the records are written in full exactly when each has a hash and three averages |
| `HaarIndex.EncodeIndexAccepts` | iqdb/HaarQuerySparseMatrix.cs:72-96 | Serialize succeeds exactly when every record is writable and there are at least 98,304 offsets |
| `HaarIndex.MiniRoundTrip` | iqdb/HaarQuerySparseMatrix.cs:78-114 | a record with a 16-byte hash reads back with its hash, its weight and its first three averages |
| `HaarIndex.MinisRoundTrip` | iqdb/HaarQuerySparseMatrix.cs:74-115 | the records written in order read back in order, each trimmed to three averages |
| `HaarIndex.IndexRoundTrip` | iqdb/HaarQuerySparseMatrix.cs:72-131 | a serializable matrix with 16-byte hashes reads back as the same records (three averages), the first 98,304 offsets and the same column ids, leaving the rest of the stream |
| `HaarIndex.RecordsByteLength` | iqdb/HaarQuerySparseMatrix.cs:76-83 | a record with a 16-byte hash takes 32 bytes |
| `HaarIndex.SavedHeaderEncodes` | iqdb/HaarQuerySparseMatrix.cs:72-96 | Serialize writes the header and then the column ids |
| `HaarIndex.ColumnsStartAt` | iqdb/HaarQuerySparseMatrix.cs:72-91 | in a saved matrix of t records the column ids start at byte 4 + 32t + 4·98,304 + 4 |
| `HaarIndex.DecodeIndexSteps` | iqdb/HaarQuerySparseMatrix.cs:98-131 | Deserialize is the count, the records, the offsets, the id count and the ids, read one after another |
| `HaarIndex.YuvDistance` | iqdb/HaarQuerySparseMatrix.cs:146-153 | the weighted YUV distance is never negative and is 0 between equal first three averages |
| `HaarIndex.YuvPartPrefix` | iqdb/HaarQuerySparseMatrix.cs:146-153 | averages beyond the third take no part in the distance |
| `HaarIndex.YuvDistances` | iqdb/HaarQuerySparseMatrix.cs:145-153 | the YUV pass succeeds exactly when the query and every candidate have three averages, giving every candidate its distance; otherwise IndexOutOfRange |
| `HaarIndex.AccumulateMeaning` | iqdb/HaarQuerySparseMatrix.cs:156-167 | the coefficient match succeeds exactly when every query id has a readable row naming only candidates, and then gives candidate i the weight of each query id once per entry of i in its row |
| `HaarIndex.Kept` | iqdb/HaarQuerySparseMatrix.cs:178-188 | the kept candidates are exactly those passing both tests, in ascending order |
| `HaarIndex.ResultsMeaning` | iqdb/HaarQuerySparseMatrix.cs:170-189 | the result loop reports exactly the kept candidates, in order, and fails with ArgumentNullException exactly when one of them lacks a hash |
| `HaarIndex.Query` | iqdb/HaarQuerySparseMatrix.cs:133-190 | a query that is not a Haar signature raises InvalidDataException; every result reported is a HaarQueryResult whose YUV distance is below the limit and whose metric value over metric max exceeds it |
| `HaarIndex.RaisingLimitCanAdd` | iqdb/HaarQuerySparseMatrix.cs:184 | both tests use the same limit, so raising the limit can admit a candidate that a lower limit refused |
| `HaarIndex.RowWithoutSentinel` | iqdb/HaarQuerySparseMatrix.cs:161 | without the sentinel offset, every row still reads the same, the last one running to the end of the column ids |
| `HaarIndex.AccumulateReloaded` | iqdb/HaarQuerySparseMatrix.cs:156-167 | the coefficient match of a reloaded matrix equals that of the matrix built in memory |
| `HaarIndex.ResultsReloaded` | iqdb/HaarQuerySparseMatrix.cs:178-188 | the result loop gives the same answer on records trimmed to three averages |
| `HaarIndex.YuvDistancesReloaded` | iqdb/HaarQuerySparseMatrix.cs:145-153 | the YUV pass gives the same distances on records trimmed to three averages |
| `HaarIndex.QueryReloaded` | iqdb/HaarQuerySparseMatrix.cs:72-190 | a matrix built in memory answers every query after Serialize and Deserialize exactly as before |
| `HaarIndex.YuvLoop` | iqdb/HaarQuerySparseMatrix.cs:145-153 | the channel-by-channel, candidate-by-candidate loop computes the YUV pass |
| `HaarIndex.AddRange` | iqdb/HaarQuerySparseMatrix.cs:161-166 | the while loop adds the weight over the coefficient's row, or reports the index error the row or an id raises |
| `HaarIndex.AccumulateFails` | iqdb/HaarQuerySparseMatrix.cs:157-167 | once a query id has failed, the whole coefficient match fails with IndexOutOfRange |
| `HaarIndex.AccumulateLoop` | iqdb/HaarQuerySparseMatrix.cs:156-167 | the foreach over the query ids computes the coefficient match |
| `HaarIndex.AccumulateInto` | iqdb/HaarQuerySparseMatrix.cs:156-167 | the foreach over the query ids, started from zero scores, ends with Accumulate of the query |
| `HaarIndex.AccumulateStep` | iqdb/HaarQuerySparseMatrix.cs:158-166 | one query id adds its weight to every image of its row, or fails as Accumulate fails on that id |
| `HaarIndex.ResultsFail` | iqdb/HaarQuerySparseMatrix.cs:178-188 | once the result loop has failed, later candidates do not change its outcome |
| `HaarIndex.ResultsLoop` | iqdb/HaarQuerySparseMatrix.cs:170-189 | the loop over candidates computes the result list |
| `HaarIndex.QueryLoop` | iqdb/HaarQuerySparseMatrix.cs:133-190 | ExecuteQuery runs the type test, the YUV pass, the coefficient match and the result loop as Query states |
| `HaarMatrix.BuildError` | iqdb/HaarQuerySparseMatrix.cs:19-37 | the build refuses a list exactly when some signature is not a Haar signature (InvalidCastException) or has an id past WeightLookUp or the coefficient table (IndexOutOfRange) |
| `HaarMatrix.Mirror` | iqdb/HaarQuerySparseMatrix.cs:26-30 | the mirror keeps the signature's hash and averages and its Sum_Weights |
| `HaarMatrix.CountError` | iqdb/HaarQuerySparseMatrix.cs:45-50 | the int `nzelements` counts correctly exactly when the total is at most int.MaxValue; otherwise OverflowException or a short array |
| `HaarMatrix.PostedCount` | iqdb/HaarQuerySparseMatrix.cs:33-50 | every id of every accepted signature is posted exactly once |
| `HaarMatrix.BuiltOffsets` | iqdb/HaarQuerySparseMatrix.cs:42-68 | a built matrix has 98,305 offsets from 0 to the total id count, never decreasing, and the sentinel equals the number of column ids |
| `HaarMatrix.BuiltRows` | iqdb/HaarQuerySparseMatrix.cs:13-70 | every row of a built matrix reads, is in ascending signature order, names only signatures that exist and names signature i as often as the coefficient occurs in its ids |
| `HaarMatrix.MatchedOverlap` | iqdb/HaarQuerySparseMatrix.cs:156-167 | on a built matrix, the weight the match gives candidate i is the weight its own ids share with the query, counted per occurrence |
| `HaarMatrix.BuiltQuery` | iqdb/HaarQuerySparseMatrix.cs:156-167 | on a built matrix the match loop succeeds exactly when every query id is inside the table, and then leaves each candidate at its overlap with the query |
| `HaarMatrix.SavedIndexAnswersAlike` | iqdb/HaarQuerySparseMatrix.cs:13-190 | a matrix built from signatures with 16-byte hashes and three averages serializes, reads back and answers every query as the built one does |
| `HaarMatrix.LastIndex` | iqdb/HaarQuerySparseMatrix.cs:22-23 | the last position at which a signature object occurs in the list |
| `HaarMatrix.LastIndexOfDistinct` | iqdb/HaarQuerySparseMatrix.cs:22-23 | a signature that occurs once keeps its own position as ID |
| `HaarMatrix.RefusedAt` | iqdb/HaarQuerySparseMatrix.cs:19-37 | the first refused signature decides the build's exception: InvalidCastException for a non-Haar signature, IndexOutOfRange otherwise |
| `HaarMatrix.Distribute` | iqdb/HaarQuerySparseMatrix.cs:19-37 | the build loop stops at the first refused signature with its exception, and otherwise mirrors every signature, fills every posting list and sets each object's ID to its last position in the list |
| `HaarMatrix.Step` | iqdb/HaarQuerySparseMatrix.cs:19-37 | one pass of the build loop extends the mirrors and posting lists by position i, or refuses it |
| `HaarMatrix.MirrorOne` | iqdb/HaarQuerySparseMatrix.cs:22-36 | one signature is cast, given its ID, mirrored and distributed, or refused with InvalidCast or IndexOutOfRange |
| `HaarMatrix.BuildErrorPrefix` | iqdb/HaarQuerySparseMatrix.cs:19-37 | once a prefix of the list is refused, the whole list is refused with the same exception |
| `HaarMatrix.BuildIndex` | iqdb/HaarQuerySparseMatrix.cs:13-70 | FromHaarSignatures builds the matrix Build states (or raises its exception), changing only the signatures' IDs |
| `HaarMatrix.HaarQuerySparseMatrix.FromHaarSignatures` | iqdb/HaarQuerySparseMatrix.cs:13-70 | a fresh matrix holding the built index, or the build's exception |
| `HaarMatrix.HaarQuerySparseMatrix.Serialize` | iqdb/HaarQuerySparseMatrix.cs:72-96 | the writes produce the saved matrix, or the exception of the first write that fails |
| `HaarMatrix.HaarQuerySparseMatrix.Deserialize` | iqdb/HaarQuerySparseMatrix.cs:98-131 | the matrix becomes what the stream decodes to, or the read raises the decoding's exception |
| `HaarMatrix.HaarQuerySparseMatrix.ExecuteQuery` | iqdb/HaarQuerySparseMatrix.cs:133-190 | the results are those Query gives for the matrix's state |
| `DiskMatrix.RowEnd` | iqdb/DiskHaarQuerySparseMatrix.cs:125-126 | a row ends at the next offset; for the last offset, as written, at `column_ids.Length`, a null dereference once column_ids is null, and as corrected at the saved id count |
| `DiskMatrix.ByteOffset` | iqdb/DiskHaarQuerySparseMatrix.cs:135 | as written, `row_offset * sizeof(UInt32)` is 32-bit unsigned and wraps for starts of 2^30 and more; as corrected it is 4 · start |
| `DiskMatrix.RowLength` | iqdb/DiskHaarQuerySparseMatrix.cs:134 | `row_end − row_offset` in uint arithmetic: the true difference exactly when the end is not before the start |
| `DiskMatrix.ReadRow` | iqdb/DiskHaarQuerySparseMatrix.cs:123-145 | ReadColIDs fails with NullReference without a file and IndexOutOfRange past the offsets, and otherwise reads the row's ids from the file at its byte offset |
| `DiskMatrix.Step` | iqdb/DiskHaarQuerySparseMatrix.cs:171-187 | one query id, with its row read as written or as corrected: a failed pass stays failed, the accumulator keeps its length, and a cache that exists stays |
| `DiskMatrix.StepCache` | iqdb/DiskHaarQuerySparseMatrix.cs:175-179 | a query id keeps every cached row and adds only rows as the chosen reading of the file gives them |
| `DiskMatrix.LazyCache` | iqdb/DiskHaarQuerySparseMatrix.cs:171-187 | the match loop keeps every cached row and caches only rows as the chosen reading of the file gives them |
| `DiskMatrix.LazyStep` | iqdb/DiskHaarQuerySparseMatrix.cs:171-187 | the match over one more query id is one more step of the loop |
| `DiskMatrix.CacheTransparent` | iqdb/DiskHaarQuerySparseMatrix.cs:171-187 | under either reading, with a cache that holds only rows as that reading gives them, the lazy match equals reading every row directly, and the cache stays faithful |
| `DiskMatrix.UnloadedRefuses` | iqdb/DiskHaarQuerySparseMatrix.cs:110-175 | a matrix that was built, not deserialized, has no col_ids: under either reading every non-empty query fails, with NullReference when its first id is in the table |
| `DiskMatrix.SameRows` | iqdb/DiskHaarQuerySparseMatrix.cs:147-187 | when every row reads, under the chosen reading, as in an in-memory index, the direct match equals that index's match |
| `DiskMatrix.DiskQuery` | iqdb/DiskHaarQuerySparseMatrix.cs:147-150 | ExecuteQuery under the chosen reading: a non-Haar query raises InvalidDataException and leaves the cache; otherwise the cache is what the match loop leaves |
| `DiskMatrix.Opened` | iqdb/DiskHaarQuerySparseMatrix.cs:87-121 | Deserialize fails exactly when the header does not read, and otherwise keeps 98,304 offsets, no column ids and the attached file |
| `DiskMatrix.OpenedHeader` | iqdb/DiskHaarQuerySparseMatrix.cs:93-119 | the opened matrix holds the header's records and offsets and notes where the column ids start |
| `DiskMatrix.ReadHeader` | iqdb/DiskHaarQuerySparseMatrix.cs:93-117 | the read loops of Deserialize decode the header |
| `DiskMatrix.OpenedSaved` | iqdb/DiskHaarQuerySparseMatrix.cs:87-121 | a file written by the in-memory matrix's Serialize opens as that matrix's records and offsets, with its column ids left in the file |
| `DiskMatrix.SeekInIds` | iqdb/DiskHaarQuerySparseMatrix.cs:135-143 | in a saved file, seeking to the column start plus 4p and reading e−p ids gives ids p to e |
| `DiskMatrix.LoadedRows` | iqdb/DiskHaarQuerySparseMatrix.cs:123-145 | in the corrected read, every row of an opened saved file is the row of the matrix that was saved |
| `DiskMatrix.RowFromFile` | iqdb/DiskHaarQuerySparseMatrix.cs:134-143 | a non-empty row is the ids read at its byte offset |
| `DiskMatrix.EmptyRow` | iqdb/DiskHaarQuerySparseMatrix.cs:134-143 | a row whose end is its start reads as empty |
| `DiskMatrix.LastRowAsWritten` | iqdb/DiskHaarQuerySparseMatrix.cs:120-126 | as written, the last row of any opened file raises NullReferenceException |
| `DiskMatrix.QueryLastRowAsWritten` | iqdb/DiskHaarQuerySparseMatrix.cs:118-128 | as written, a freshly opened file answers any Haar query whose first coefficient is 98,303 with NullReferenceException |
| `DiskMatrix.SeekWraps` | iqdb/DiskHaarQuerySparseMatrix.cs:135 | as written, a row starting at posting 2^30 or later is read from 2^30 postings earlier |
| `DiskMatrix.OpenedAnswersAlike` | iqdb/DiskHaarQuerySparseMatrix.cs:147-210 | corrected half of Findings rows 1 and 2: under the corrected read, a saved matrix opened with its own file answers every query as the matrix that was saved, whatever faithful rows the cache holds; as written, QueryLastRowAsWritten |
| `DiskMatrix.BuiltSaveable` | iqdb/DiskHaarQuerySparseMatrix.cs:22-79 | a matrix built from signatures with 16-byte hashes and three averages can be saved and opened |
| `DiskMatrix.BuiltIdsFit` | iqdb/DiskHaarQuerySparseMatrix.cs:54-59 | a successful build holds at most int.MaxValue column ids |
| `DiskMatrix.LoadKeepsConsistent` | iqdb/DiskHaarQuerySparseMatrix.cs:175-179 | caching a row read from the file keeps every coefficient loaded at most once and every cached row faithful |
| `DiskMatrix.AddIds` | iqdb/DiskHaarQuerySparseMatrix.cs:184-186 | the foreach adds the weight once per id, or reports the index error of an id past the candidates |
| `DiskMatrix.MatchFails` | iqdb/DiskHaarQuerySparseMatrix.cs:171-187 | once a query id has failed, the rest of the query changes neither the outcome nor the cache |
| `DiskMatrix.DiskHaarQuerySparseMatrix.Of` | iqdb/DiskHaarQuerySparseMatrix.cs:24-78 | the built matrix holds the index, its column ids in memory, no file and no col_ids cache |
| `DiskMatrix.DiskHaarQuerySparseMatrix.FromHaarSignatures` | iqdb/DiskHaarQuerySparseMatrix.cs:22-79 | a fresh matrix holding the index the in-memory build gives, or that build's exception |
| `DiskMatrix.DiskHaarQuerySparseMatrix.Serialize` | iqdb/DiskHaarQuerySparseMatrix.cs:81-85 | always raises NotSupportedException |
| `DiskMatrix.DiskHaarQuerySparseMatrix.Deserialize` | iqdb/DiskHaarQuerySparseMatrix.cs:87-121 | reads the header, an empty col_ids cache and the positions of the column ids and the end; a failed read leaves the object unchanged |
| `DiskMatrix.DiskHaarQuerySparseMatrix.ReadColIds` | iqdb/DiskHaarQuerySparseMatrix.cs:123-145 | reads a row from the attached file as ReadRow states, as written (AsWritten) or as corrected |
| `DiskMatrix.DiskHaarQuerySparseMatrix.CachedRow` | iqdb/DiskHaarQuerySparseMatrix.cs:175-179 | a cached row is returned as it is; an uncached one is read from the file under the chosen reading and cached, and the coefficient noted as loaded |
| `DiskMatrix.DiskHaarQuerySparseMatrix.MatchId` | iqdb/DiskHaarQuerySparseMatrix.cs:173-186 | one turn of the match loop does what Step states under the chosen reading, and keeps the cache consistent |
| `DiskMatrix.DiskHaarQuerySparseMatrix.Match` | iqdb/DiskHaarQuerySparseMatrix.cs:170-187 | the match loop leaves the accumulator and the cache that LazyAccumulate states under the chosen reading |
| `DiskMatrix.DiskHaarQuerySparseMatrix.ExecuteQuery` | iqdb/DiskHaarQuerySparseMatrix.cs:147-210 | the results and the new cache are those of DiskQuery under the chosen reading (the program is the AsWritten one), and each coefficient is read from the file at most once |
| `DiskMatrix.DiskHaarQuerySparseMatrix.SetFile` | iqdb/DiskHaarQuerySparseMatrix.cs:19 | attaching a file sets file_data; cached rows stay faithful to the chosen reading when the file is the same or nothing is cached |
| `IntegerMatrix.SumWeightsOf` | iqdb/IntegerSignature.cs:32 | Sum_Weights is defined exactly when the signature is not a Haar signature or its ids are inside the table |
| `IntegerMatrix.CoeffWeightOf` | iqdb/IntegerSignature.cs:33 | Get_Coeff_Weight is defined exactly when the signature is not a Haar signature or the id is inside the table; otherwise IndexOutOfRange |
| `IntegerMatrix.SumIsCoeffWeights` | iqdb/IntegerSignature.cs:32-33 | Sum_Weights is the sum of Get_Coeff_Weight over the ids, and the id count for integer and colour signatures |
| `IntegerMatrix.MirrorError` | iqdb/IntegerQuerySparseMatrix.cs:25-38 | the mirror loop refuses a list exactly when some signature's Sum_Weights fails or it has no ids (`Max()` of nothing) |
| `IntegerMatrix.Mirror` | iqdb/IntegerQuerySparseMatrix.cs:32-36 | the mirror keeps the signature's hash and its Sum_Weights |
| `IntegerMatrix.Largest` | iqdb/IntegerQuerySparseMatrix.cs:37 | `SigData.Max()` is an id of the signature and no id exceeds it |
| `IntegerMatrix.MaxCoeffMeaning` | iqdb/IntegerQuerySparseMatrix.cs:24-38 | max_coeff bounds every id of every signature and, when every signature has ids, is one of them |
| `IntegerMatrix.IdsBelowMax` | iqdb/IntegerQuerySparseMatrix.cs:40-49 | every id is below max_coeff + 1, so the distribution loop stays inside `temp` |
| `IntegerMatrix.ListsError` | iqdb/IntegerQuerySparseMatrix.cs:40 | `new List<uint>[(int)max_coeff + 1]` works exactly when max_coeff is below int.MaxValue; 2^32−1 wraps to no lists at all |
| `IntegerMatrix.IdCountError` | iqdb/IntegerQuerySparseMatrix.cs:54-59 | the uint `nzelements` counts correctly exactly when the total is at most int.MaxValue |
| `IntegerMatrix.PostedCount` | iqdb/IntegerQuerySparseMatrix.cs:41-59 | every id of every accepted signature is posted exactly once |
| `IntegerMatrix.BuiltOffsets` | iqdb/IntegerQuerySparseMatrix.cs:51-77 | the corrected build has max_coeff + 2 offsets from 0 to the total id count, never decreasing, the last equal to the number of column ids |
| `IntegerMatrix.BuiltRowIsPostings` | iqdb/IntegerQuerySparseMatrix.cs:61-77 | in the corrected build, row c is the posting list of c, and empty past max_coeff |
| `IntegerMatrix.BuiltRows` | iqdb/IntegerQuerySparseMatrix.cs:19-79 | in the corrected build every row reads, is ascending, names only existing signatures and names signature i as often as c occurs in its ids |
| `IntegerMatrix.AsWrittenLayout` | iqdb/IntegerQuerySparseMatrix.cs:51-77 | as written there is one offset per coefficient up to max_coeff, the last overwritten with the id count, which is also the column array's length |
| `IntegerMatrix.AsWrittenBuilt` | iqdb/IntegerQuerySparseMatrix.cs:19-79 | FromSignatures as written leaves max_coeff + 1 offsets, the last equal to the number of column ids |
| `IntegerMatrix.AsWrittenRows` | iqdb/IntegerQuerySparseMatrix.cs:63-77 | as written, rows below max_coeff − 1 are right, row max_coeff − 1 runs on over zeros, and the row of max_coeff is empty |
| `IntegerMatrix.OneSignatureLists` | iqdb/IntegerQuerySparseMatrix.cs:40-49 | one signature with the single id 1 gives the posting lists `[[], [0]]` |
| `IntegerMatrix.OneSignatureMax` | iqdb/IntegerQuerySparseMatrix.cs:40-49 | max_coeff of the one signature with id 1 is 1 |
| `IntegerMatrix.OneSignatureEntries` | iqdb/IntegerQuerySparseMatrix.cs:40-49 | that signature posts itself once, under coefficient 1 |
| `IntegerMatrix.OneSignatureLayout` | iqdb/IntegerQuerySparseMatrix.cs:51-77 | as written, that signature leaves offsets `[0, 1]` and column ids `[0]` |
| `IntegerMatrix.AsWrittenOneRows` | iqdb/IntegerQuerySparseMatrix.cs:51-77 | as written, that index puts signature 0 in the row of id 0 and leaves the row of id 1 empty |
| `IntegerMatrix.AsWrittenMissesLargest` | iqdb/IntegerQuerySparseMatrix.cs:63-147 | as written, querying id 1 matches nothing and querying id 0 matches the signature that does not hold it |
| `IntegerMatrix.BuiltFindsLargest` | iqdb/IntegerQuerySparseMatrix.cs:138-147 | in the corrected build, querying id 1 matches the signature and querying id 0 matches nothing |
| `IntegerMatrix.AccumulateSingle` | iqdb/IntegerQuerySparseMatrix.cs:138-147 | a one-id query adds the id's weight over the id's row |
| `IntegerMatrix.EncodeMini` | iqdb/IntegerQuerySparseMatrix.cs:87-88 | a record writes exactly when it has a hash; otherwise ArgumentNullException |
| `IntegerMatrix.EncodeMinisAccepts` | iqdb/IntegerQuerySparseMatrix.cs:83-89 | all records are written exactly when each has a hash; otherwise ArgumentNullException |
| `IntegerMatrix.MiniRoundTrip` | iqdb/IntegerQuerySparseMatrix.cs:87-113 | a record with a 16-byte hash reads back unchanged |
| `IntegerMatrix.MinisRoundTrip` | iqdb/IntegerQuerySparseMatrix.cs:83-114 | the records written in order read back unchanged, in order |
| `IntegerMatrix.DecodeIndexSteps` | iqdb/IntegerQuerySparseMatrix.cs:104-130 | Deserialize is the count, the records, the offset count, the offsets, the id count and the ids, read one after another |
| `IntegerMatrix.IndexRoundTrip` | iqdb/IntegerQuerySparseMatrix.cs:81-130 | a matrix whose records have 16-byte hashes reads back unchanged, leaving the rest of the stream |
| `IntegerMatrix.EncodeMinisStep` | iqdb/IntegerQuerySparseMatrix.cs:85-89 | writing the records is the first record followed by the others |
| `IntegerMatrix.WriteRecords` | iqdb/IntegerQuerySparseMatrix.cs:83-89 | the record loop writes the records as the encoding states |
| `IntegerMatrix.DecodeMinisStep` | iqdb/IntegerQuerySparseMatrix.cs:106-114 | reading n records is the first record followed by the n−1 after it |
| `IntegerMatrix.ReadRecords` | iqdb/IntegerQuerySparseMatrix.cs:106-114 | the record loop reads n records as the decoding states |
| `IntegerMatrix.Accumulate` | iqdb/IntegerQuerySparseMatrix.cs:137-147 | the match keeps one accumulator per candidate, and its only failure is IndexOutOfRange |
| `IntegerMatrix.AccumulateMeaning` | iqdb/IntegerQuerySparseMatrix.cs:137-147 | the match succeeds exactly when every query id has a weight and a readable row naming only candidates (an id past the offsets always fails), and then gives candidate i each id's weight once per entry of i in its row |
| `IntegerMatrix.MatchedOverlap` | iqdb/IntegerQuerySparseMatrix.cs:137-147 | on the corrected build, the weight the match gives candidate i is the weight its own ids share with the query |
| `IntegerMatrix.BuiltQuery` | iqdb/IntegerQuerySparseMatrix.cs:137-147 | on the corrected build the match succeeds exactly when every query id has a weight and is at most max_coeff + 1, and then leaves each candidate at its overlap with the query |
| `IntegerMatrix.Kept` | iqdb/IntegerQuerySparseMatrix.cs:154-163 | the kept candidates are exactly those with `value / max > limit`, in ascending order |
| `IntegerMatrix.ResultsMeaning` | iqdb/IntegerQuerySparseMatrix.cs:150-164 | the result loop reports exactly the kept candidates, in order, and fails with ArgumentNullException exactly when one of them lacks a hash |
| `IntegerMatrix.SavedIndexAnswersAlike` | iqdb/IntegerQuerySparseMatrix.cs:19-165 | a corrected build from signatures with 16-byte hashes serializes, reads back unchanged and answers every query alike |
| `IntegerMatrix.AccumulateFails` | iqdb/IntegerQuerySparseMatrix.cs:138-147 | once a query id has failed, the whole match fails with IndexOutOfRange |
| `IntegerMatrix.AccumulateLoop` | iqdb/IntegerQuerySparseMatrix.cs:137-147 | the foreach over the query ids computes the match |
| `IntegerMatrix.ResultsFail` | iqdb/IntegerQuerySparseMatrix.cs:154-163 | once the result loop has failed, later candidates do not change its outcome |
| `IntegerMatrix.ResultsLoop` | iqdb/IntegerQuerySparseMatrix.cs:150-164 | the loop over candidates computes the result list |
| `IntegerMatrix.SumWeightsCall` | iqdb/IntegerQuerySparseMatrix.cs:152 | the virtual Sum_Weights call gives the weight of the signature's class |
| `IntegerMatrix.Query` | iqdb/IntegerQuerySparseMatrix.cs:132-165 | every result ExecuteQuery reports is an IntegerQueryResult whose metric value over metric max exceeds the limit |
| `IntegerMatrix.QueryLoop` | iqdb/IntegerQuerySparseMatrix.cs:132-165 | ExecuteQuery runs the match, Sum_Weights and the result loop as Query states |
| `IntegerMatrix.MirrorErrorPrefix` | iqdb/IntegerQuerySparseMatrix.cs:25-38 | once a prefix is refused, the whole list is refused with the same exception |
| `IntegerMatrix.RefusedAt` | iqdb/IntegerQuerySparseMatrix.cs:25-38 | the first refused signature decides the exception: IndexOutOfRange from Sum_Weights, else InvalidOperationException from `Max()` |
| `IntegerMatrix.MirrorOne` | iqdb/IntegerQuerySparseMatrix.cs:28-37 | one signature gets its ID and is mirrored, or refused with its exception |
| `IntegerMatrix.MirrorStep` | iqdb/IntegerQuerySparseMatrix.cs:25-38 | one pass of the mirror loop at position i, whatever objects the list repeats |
| `IntegerMatrix.MirrorNext` | iqdb/IntegerQuerySparseMatrix.cs:25-38 | one pass extends the mirrors and raises max_coeff to that of the first i+1 signatures |
| `IntegerMatrix.MirrorLoop` | iqdb/IntegerQuerySparseMatrix.cs:24-38 | the mirror loop stops at the first refused signature, or mirrors every one and computes max_coeff, setting each object's ID to its last position |
| `IntegerMatrix.RaiseMax` | iqdb/IntegerQuerySparseMatrix.cs:37 | `Math.Max(max_coeff, SigData.Max())` is max_coeff of one more signature |
| `IntegerMatrix.DistributeAll` | iqdb/IntegerQuerySparseMatrix.cs:40-49 | the distribution loop fills every list with its postings |
| `IntegerMatrix.PostAll` | iqdb/IntegerQuerySparseMatrix.cs:40-49 | the lists the loop leaves are the posting lists of the signatures |
| `IntegerMatrix.BuildIndex` | iqdb/IntegerQuerySparseMatrix.cs:19-79 | the corrected FromSignatures builds the matrix Build states (or raises its exception), changing only the signatures' IDs |
| `IntegerMatrix.IntegerQuerySparseMatrix.FromSignatures` | iqdb/IntegerQuerySparseMatrix.cs:19-79 | a fresh matrix holding the corrected build, or the build's exception |
| `IntegerMatrix.IntegerQuerySparseMatrix.Serialize` | iqdb/IntegerQuerySparseMatrix.cs:81-102 | the writes produce the saved matrix, or ArgumentNullException for a record without a hash |
| `IntegerMatrix.IntegerQuerySparseMatrix.Deserialize` | iqdb/IntegerQuerySparseMatrix.cs:104-130 | the matrix becomes what the stream decodes to, or the read raises the decoding's exception |
| `IntegerMatrix.IntegerQuerySparseMatrix.ExecuteQuery` | iqdb/IntegerQuerySparseMatrix.cs:132-165 | the results are those Query gives for the matrix's state |
| `GridLayout.BlockMeaning` | iqdb/QueryGrid.cs:90-96 | a group is the member count followed by the members |
| `GridLayout.GroupsLengthGrows` | iqdb/QueryGrid.cs:72-77 | `glmax` grows by count + 1 for every non-empty list and by nothing for an empty one |
| `GridLayout.Groups` | iqdb/QueryGrid.cs:78-97 | the groups array has glmax cells and starts with the empty default group 0 |
| `GridLayout.GroupOffsets` | iqdb/QueryGrid.cs:81-97 | one offset per coefficient id, the offset of its group |
| `GridLayout.GroupAt` | iqdb/QueryGrid.cs:247-261 | the group at an offset is the count then that many cells, with uint end arithmetic; an offset or a group past the array is an index error |
| `GridLayout.GroupAtInBounds` | iqdb/QueryGrid.cs:247-261 | a group inside the array reads as its count's worth of cells after the count |
| `GridLayout.LayoutMeaning` | iqdb/QueryGrid.cs:71-97 | a coefficient has offset 0 exactly when its list is empty; otherwise its offset holds the list's length and the group read there is the list |
| `GridLayout.LayoutNonEmpty` | iqdb/QueryGrid.cs:71-97 | a non-empty list's group starts at its offset with the list's length, and the group read there is the list |
| `GridLayout.LayoutEmpty` | iqdb/QueryGrid.cs:71-97 | an empty list reads as the empty group at offset 0 |
| `GridLayout.ListAt` | iqdb/QueryGrid.cs:81-97 | a non-empty list sits right after its count in the groups array |
| `GridLayout.CellAt` | iqdb/QueryGrid.cs:81-97 | cell i of a list's group is cell i of its block, whatever lists come after |
| `GridLayout.FillGroups` | iqdb/QueryGrid.cs:71-97 | the layout loop leaves exactly the offsets and groups the layout functions state |
| `GridLayout.FillLoop` | iqdb/QueryGrid.cs:80-97 | the fill loop over arrays of the right size leaves the offsets and groups of the layout |
| `GridLayout.FillList` | iqdb/QueryGrid.cs:83-96 | one list of the fill loop: its offset, count and members written after the earlier lists' groups |
| `GridLayout.GroupsSkip` | iqdb/QueryGrid.cs:84-87 | an empty list adds no group |
| `GridLayout.FillBlock` | iqdb/QueryGrid.cs:89-96 | one non-empty list is written as its count and its members, each mapped through imgid2index |
| `GridLayout.CopyGroup` | iqdb/QueryGrid.cs:93-96 | the foreach copies the members behind what is already written |
| `GridLayout.Pruned` | iqdb/QueryGrid.cs:184-219 | the prune loop only ever sets offsets to 0 |
| `GridLayout.PruneMeaning` | iqdb/QueryGrid.cs:184-219 | after a full prune every offset left non-zero points at a group of 2 to limit members (or a count of 0), and pruning again changes nothing |
| `GridLayout.PruneFault` | iqdb/QueryGrid.cs:209-212 | the prune loop fails exactly at the first non-zero offset past the groups array |
| `GridLayout.Analysis` | iqdb/QueryGrid.cs:148-174 | Analyze reads the count of every offset, 0 included, and fails with IndexOutOfRange exactly when one is past the groups |
| `GridLayout.AnalysisMeaning` | iqdb/QueryGrid.cs:148-174 | every non-empty group is counted once as a singleton, an over-limit or a legitimate group; maxGroup is the largest over-limit count and max_cid an offset that has it |
| `GridLayout.PrunedAnalysis` | iqdb/QueryGrid.cs:148-219 | Analyze after PruneForDuplicates with the same limit counts no singletons and no over-limit groups |
| `GridAdmission.Assign` | iqdb/QueryGrid.cs:29 | setting `sig.ID` changes the ID at every position holding that object and nowhere else |
| `GridAdmission.Enter` | iqdb/QueryGrid.cs:26-30 | entering position p gives its object the next key as ID and appends p to the dictionary |
| `GridAdmission.AsWrittenAdmit` | iqdb/QueryGrid.cs:24-30 | the admission loop with the skip test `sig.ID != 0 && sig.ID < sigid` |
| `GridAdmission.Keys` | iqdb/QueryGrid.cs:61-66 | the ID each dictionary entry shows when the index loop reads it |
| `GridAdmission.EnterKeeps` | iqdb/QueryGrid.cs:24-30 | entering an object the dictionary does not hold keeps every admitted object under the ID it shows |
| `GridAdmission.EnterOrdered` | iqdb/QueryGrid.cs:24-30 | entering keeps dictionary entries in list order, each at its object's first position |
| `GridAdmission.AdmitStep` | iqdb/QueryGrid.cs:24-30 | one pass of the corrected admission keeps the invariant |
| `GridAdmission.AdmitStepAt` | iqdb/QueryGrid.cs:24-30 | the invariant after n - 1 passes of the corrected admission holds after n |
| `GridAdmission.AdmitInvariant` | iqdb/QueryGrid.cs:24-30 | the corrected admission keeps its invariant over every prefix of the list |
| `GridAdmission.AdmitMeaning` | iqdb/QueryGrid.cs:24-30 | after the corrected admission every position's object sits in the dictionary under the ID it shows, each key is its entry's ID, and entries are first positions in list order |
| `GridAdmission.AdmitGrows` | iqdb/QueryGrid.cs:24-30 | admitting a longer prefix only adds dictionary entries |
| `GridAdmission.NextKeepsOrder` | iqdb/QueryGrid.cs:24-30 | one pass of the admission loop keeps every entry already made, at the same place, and at most appends one |
| `GridAdmission.DistinctAdmitted` | iqdb/QueryGrid.cs:24-30 | with distinct objects every position enters, in order |
| `GridAdmission.DistinctStep` | iqdb/QueryGrid.cs:24-30 | one pass over distinct objects enters the position |
| `GridBuild.IndexError` | iqdb/QueryGrid.cs:61-70 | the index loop's only failures are ArgumentException and IndexOutOfRange |
| `GridBuild.IndexErrorMeaning` | iqdb/QueryGrid.cs:61-70 | the index loop takes the entries exactly when their IDs are distinct and each has ids inside the table and three averages; ArgumentException means two IDs agree |
| `GridBuild.GridLists` | iqdb/QueryGrid.cs:31-42 | one posting list per coefficient id |
| `GridBuild.SumOf` | iqdb/QueryGrid.cs:67 | an entry's weight sum is its Sum_Weights |
| `GridBuild.WeightSums` | iqdb/QueryGrid.cs:67 | every entry's weightsums cell is its Sum_Weights |
| `GridBuild.Averages` | iqdb/QueryGrid.cs:54-68 | three rows of averages, one cell per entry, cell j of row c being entry j's average c |
| `GridBuild.GridOf` | iqdb/QueryGrid.cs:45-98 | a built grid has one hash and weight per entry, three rows of averages and 98,304 offsets |
| `GridBuild.BuildFrom` | iqdb/QueryGrid.cs:19-99 | after an admission, the grid holds one hash per dictionary entry, three rows of averages and 98,304 offsets |
| `GridBuild.Build` | iqdb/QueryGrid.cs:19-99 | the corrected build holds one row per object the admission keeps |
| `GridBuild.AsWrittenBuild` | iqdb/QueryGrid.cs:19-99 | the build as written holds one row per entry of the as-written admission |
| `GridBuild.GridGroups` | iqdb/QueryGrid.cs:71-97 | in a built grid a coefficient has offset 0 exactly when no entry holds it, and its group posts every entry holding it |
| `GridBuild.ListPosts` | iqdb/QueryGrid.cs:31-42 | the list of c names, in order and once per occurrence, every entry whose ids include c |
| `GridBuild.BuildFromCases` | iqdb/QueryGrid.cs:19-99 | a build after an admission succeeds exactly when the list array is allocated, every id fits, the keys are distinct, every entry fits and glmax counts right; ArgumentException means two keys agree |
| `GridBuild.AdmitConsistent` | iqdb/QueryGrid.cs:24-70 | the corrected admission gives every position an entry whose key is the entry's index |
| `GridBuild.PickedFit` | iqdb/QueryGrid.cs:61-70 | after a consistent admission the entries all fit exactly when every signature of the list does |
| `GridBuild.FitsBelow` | iqdb/QueryGrid.cs:33-36 | entries whose ids are inside the table pass the `coeff >= grid.Length` test when max_coefficient is at least 98,304 |
| `GridBuild.ConsistentAccepts` | iqdb/QueryGrid.cs:19-99 | after a consistent admission the build succeeds exactly when the sizes and every signature fit, and never raises ArgumentException |
| `GridBuild.BuildAccepts` | iqdb/QueryGrid.cs:19-99 | the corrected build succeeds exactly when max_coefficient, every signature and glmax fit, and never raises ArgumentException |
| `GridBuild.ConsistentMeaning` | iqdb/QueryGrid.cs:19-99 | after a consistent admission, the row of each signature's entry holds its hash, Sum_Weights and averages, and the group of c names the entry as often as c occurs in its ids |
| `GridBuild.BuildMeaning` | iqdb/QueryGrid.cs:19-99 | in a corrected build, the row at each signature's ID holds its hash, Sum_Weights and averages, and the group of c names that row as often as c occurs in its ids |
| `GridBuild.Blank` | iqdb/QueryGrid.cs:24-30 | a Haar signature with no ids, three averages and the given ID |
| `GridBuild.BlankGroups` | iqdb/QueryGrid.cs:71-78 | entries without ids leave glmax at 1 |
| `GridBuild.BlankFrom` | iqdb/QueryGrid.cs:19-99 | entries without ids build exactly when the dictionary keys are distinct, and otherwise raise ArgumentException |
| `GridBuild.RepeatedObject` | iqdb/QueryGrid.cs:26-66 | as written, one object listed twice with ID 0 enters twice, under keys 0 and 1, and the build raises ArgumentException |
| `GridBuild.RepeatedObjectCorrected` | iqdb/QueryGrid.cs:24-30 | corrected, that object enters once and the build holds one row |
| `GridBuild.StaleId` | iqdb/QueryGrid.cs:27 | as written, three distinct signatures with the stale IDs 0, 0, 1 build a grid of two rows: the third is skipped |
| `GridBuild.StaleAdmit` | iqdb/QueryGrid.cs:27 | as written, the third of those signatures keeps ID 1 and never enters the dictionary |
| `GridBuild.StaleIdCorrected` | iqdb/QueryGrid.cs:24-30 | corrected, the three signatures get IDs 0, 1, 2 and the build holds three rows |
| `GridBuild.EnteredStays` | iqdb/QueryGrid.cs:24-30 | a position that enters the dictionary stays in it at the same place |
| `GridBuild.AdmitPrefix` | iqdb/QueryGrid.cs:24-30 | the admission order after more passes begins with the order after fewer |
| `GridBuild.PostIds` | iqdb/QueryGrid.cs:31-42 | the inner foreach posts the entry under each of its ids, and fails exactly when one is past the list array |
| `GridBuild.EnterStep` | iqdb/QueryGrid.cs:29-42 | entering one signature sets its ID, adds it to the dictionary and posts its ids, or fails on an id past the list array |
| `GridBuild.AdmitOne` | iqdb/QueryGrid.cs:24-43 | one pass of the admission loop keeps its invariant, and fails only when some admitted id is past the list array |
| `GridBuild.AdmitLoop` | iqdb/QueryGrid.cs:21-43 | the admission loop fails with InvalidDataException exactly when an admitted entry has an id past max_coefficient, and otherwise leaves the corrected admission's dictionary and lists |
| `GridBuild.AdmitAll` | iqdb/QueryGrid.cs:21-43 | from an empty dictionary, the admission passes succeed exactly when every admitted id is below the list count, and then leave Admit's dictionary and lists |
| `GridBuild.AdmittingStart` | iqdb/QueryGrid.cs:21-22 | before the first pass nothing is admitted and every list is empty |
| `GridBuild.IndexErrorStays` | iqdb/QueryGrid.cs:61-70 | once the index loop has failed, later entries do not change its exception |
| `GridBuild.IndexedAll` | iqdb/QueryGrid.cs:61-70 | a completed index loop copies every entry's hash, Sum_Weights and averages |
| `GridBuild.IndexOne` | iqdb/QueryGrid.cs:63-69 | one pass of the index loop maps the entry's ID to its index and copies its row, or raises the loop's exception |
| `GridBuild.IndexedSnoc` | iqdb/QueryGrid.cs:63-69 | an entry with a new ID that fits extends the rows by its hash, weight sum and averages, under index `index` |
| `GridBuild.IndexLoop` | iqdb/QueryGrid.cs:61-70 | the index loop fails exactly when IndexError says, and otherwise copies every row and maps each ID to its index |
| `GridBuild.GroupTotal` | iqdb/QueryGrid.cs:71-77 | the glmax loop reads every list below 98,304, failing when the list array is shorter, and sums to GroupsLength |
| `GridBuild.FromAdmission` | iqdb/QueryGrid.cs:45-98 | the index and layout loops after the admission give what BuildFrom states |
| `GridBuild.FromSignatures` | iqdb/QueryGrid.cs:19-99 | FromSignatures gives the corrected build's grid or its exception, changing only the signatures' IDs |
| `GridQuery.AddChannel` | iqdb/QueryGrid.cs:236-240 | adds one channel's weighted absolute average difference to every image's error, leaving the length unchanged |
| `GridQuery.PixelErrors` | iqdb/QueryGrid.cs:234-240 | one average-pixel error per image, or IndexOutOfRange when a channel row is missing or short |
| `GridQuery.PixelErrorsAccepts` | iqdb/QueryGrid.cs:234-240 | the average-pixel loop succeeds exactly when every channel it reads has a row covering every image |
| `GridQuery.Column` | iqdb/QueryGrid.cs:68 | the three averages of one image, one per channel |
| `GridQuery.SquarePart` | iqdb/QueryGrid.cs:234-240 | on a well-shaped grid every image's error is the weighted sum of absolute differences between its averages and the query's |
| `GridQuery.SquareErrors` | iqdb/QueryGrid.cs:234-240 | on a well-shaped grid the loop fails exactly when the query has more than three averages, and with three gives each image the weighted difference sum |
| `GridQuery.Reach` | iqdb/QueryGrid.cs:247-261 | the members of the group of one query coefficient, or IndexOutOfRange |
| `GridQuery.Matches` | iqdb/QueryGrid.cs:242-263 | one match score per image, or IndexOutOfRange |
| `GridQuery.MatchesMeaning` | iqdb/QueryGrid.cs:242-263 | the match loop succeeds exactly when every query coefficient's group can be read, and then gives every image the score Matched states |
| `GridQuery.MatchesStep` | iqdb/QueryGrid.cs:242-263 | the last query id goes through exactly when the ones before did and its group is readable, and adds its weight once per occurrence |
| `GridQuery.Kept` | iqdb/QueryGrid.cs:265-278 | the indices that pass the test at line 273, ascending, each below n, and every such index |
| `GridQuery.GridResults` | iqdb/QueryGrid.cs:265-278 | the result loop fails only with IndexOutOfRange or with ArgumentNull for a kept image without a hash |
| `GridQuery.HashedSnoc` | iqdb/QueryGrid.cs:274-276 | a kept list is all hashed exactly when its prefix is and the last index has a hash |
| `GridQuery.GridResultsOk` | iqdb/QueryGrid.cs:265-278 | the result loop succeeds exactly when the weight sums cover every image and every kept image has a hash |
| `GridQuery.GridResultsNull` | iqdb/QueryGrid.cs:274-276 | with the weight sums present, a failure means some kept image has no hash |
| `GridQuery.GridResultsReport` | iqdb/QueryGrid.cs:265-278 | a successful result list holds one report per kept image, in order, with its hash, its match score and its pixel error |
| `GridQuery.GridResultsMeaning` | iqdb/QueryGrid.cs:265-278 | success, failure and contents of the result loop together, in terms of Kept |
| `GridQuery.LoosenedLimitsKeep` | iqdb/QueryGrid.cs:273 | lowering limit_coefficients and raising limit_error only adds images to the kept list |
| `GridQuery.Query` | iqdb/QueryGrid.cs:226-279 | ExecuteQuery fails only with IndexOutOfRange or ArgumentNull |
| `GridQuery.GridOfShape` | iqdb/QueryGrid.cs:45-70 | a built grid is well shaped, with one weight sum and three averages per signature, copied from it |
| `GridQuery.GridOfReach` | iqdb/QueryGrid.cs:71-261 | in a built grid every coefficient's group can be read and posts each signature as often as its ids hold that coefficient |
| `GridQuery.GridOfMatched` | iqdb/QueryGrid.cs:242-263 | in a built grid an image's match score is the weighted overlap of the query with its ids, the same score the Haar sparse matrix gives |
| `GridQuery.GridOfMatches` | iqdb/QueryGrid.cs:242-263 | in a built grid the match loop succeeds exactly when the query's ids are inside the table |
| `GridQuery.EntryDirect` | iqdb/QueryGrid.cs:265-278 | one image's contribution to the result loop equals its direct comparison |
| `GridQuery.ResultsDirect` | iqdb/QueryGrid.cs:265-278 | the result loop over the grid's columns gives the direct one-by-one answer |
| `GridQuery.GridOfQuery` | iqdb/QueryGrid.cs:226-279 | querying a built grid fails on a query id outside the table and otherwise equals comparing every signature with the query directly |
| `GridQuery.BuiltGrid` | iqdb/QueryGrid.cs:19-99 | a successful build is the grid of the signatures the admission keeps, all of which fit |
| `GridQuery.BuiltQuery` | iqdb/QueryGrid.cs:19-279 | querying what FromSignatures built equals comparing the query directly with every signature it admitted |
| `GridQuery.PixelErrorsFail` | iqdb/QueryGrid.cs:234-240 | once the average-pixel loop fails it fails for the whole query |
| `GridQuery.AddChannelLoop` | iqdb/QueryGrid.cs:236-240 | the inner pixel loop adds one channel to the error array in place, as AddChannel states |
| `GridQuery.ErrorLoop` | iqdb/QueryGrid.cs:234-240 | the average-pixel loops compute PixelErrors |
| `GridQuery.AddGroup` | iqdb/QueryGrid.cs:247-261 | one group's members each gain the coefficient's weight, succeeding exactly when the group and every member are in range |
| `GridQuery.MatchesFail` | iqdb/QueryGrid.cs:242-263 | once the match loop fails it fails for the whole query |
| `GridQuery.MatchLoop` | iqdb/QueryGrid.cs:242-263 | the match loop computes Matches |
| `GridQuery.GridResultsFail` | iqdb/QueryGrid.cs:265-278 | once the result loop fails, later images do not change the failure |
| `GridQuery.ResultLoop` | iqdb/QueryGrid.cs:265-278 | the result loop computes GridResults |
| `GridQuery.QueryLoop` | iqdb/QueryGrid.cs:226-279 | ExecuteQuery's three loops together compute Query |
| `GridCodec.EncodeHashes` | iqdb/QueryGrid.cs:103-105 | writing the hash column fails with ArgumentNull exactly when a hash is missing |
| `GridCodec.EncodeRows` | iqdb/QueryGrid.cs:110-112 | writing averages fails with IndexOutOfRange exactly when a row is shorter than the image count |
| `GridCodec.ColorCount` | iqdb/QueryGrid.cs:108-109 | the channel count is written as one byte |
| `GridCodec.EncodeGrid` | iqdb/QueryGrid.cs:101-119 | Serialize fails only with ArgumentNull or IndexOutOfRange |
| `GridCodec.DecodeHashes` | iqdb/QueryGrid.cs:126 | reads exactly n hashes |
| `GridCodec.DecodeRows` | iqdb/QueryGrid.cs:129-136 | reads exactly one row per channel |
| `GridCodec.EncodeGridAccepts` | iqdb/QueryGrid.cs:101-119 | Serialize succeeds exactly when every hash is present, the weight sums and every average row cover the images, there are fewer than 256 channels and the offsets fill them, and fails with ArgumentNull exactly when a hash is missing |
| `GridCodec.EncodeHashesAccepts` | iqdb/QueryGrid.cs:105 | the hash column writes exactly when no hash is missing |
| `GridCodec.EncodeRowsAccepts` | iqdb/QueryGrid.cs:110-112 | the average rows write exactly when each covers the image count |
| `GridCodec.HashesRoundTrip` | iqdb/QueryGrid.cs:105-126 | hashes of the stored width read back as written, leaving what follows |
| `GridCodec.RowsRoundTrip` | iqdb/QueryGrid.cs:108-136 | average rows read back as written, leaving what follows |
| `GridCodec.DecodeGridSteps` | iqdb/QueryGrid.cs:121-146 | Deserialize reads the count, hashes, weight sums, channel count, averages, offsets and groups in that order |
| `GridCodec.GridRoundTrip` | iqdb/QueryGrid.cs:101-146 | a saveable grid written by Serialize is read back unchanged by Deserialize, leaving what follows |
| `GridCodec.BuiltRoundTrip` | iqdb/QueryGrid.cs:19-146 | a grid built from signatures with hashes is saveable and reads back unchanged |
| `GridCodec.WriteHashes` | iqdb/QueryGrid.cs:105 | the hash-writing loop computes EncodeHashes |
| `GridCodec.WriteRows` | iqdb/QueryGrid.cs:110-112 | the average-writing loops compute EncodeRows |
| `GridCodec.WriteGrid` | iqdb/QueryGrid.cs:101-119 | the writer computes EncodeGrid |
| `GridCodec.ReadHashArray` | iqdb/QueryGrid.cs:126 | the hash-reading loop computes DecodeHashes |
| `GridCodec.ReadRowArray` | iqdb/QueryGrid.cs:129-136 | the average-reading loops compute DecodeRows |
| `GridCodec.ReadGrid` | iqdb/QueryGrid.cs:121-146 | the reader computes DecodeGrid |
| `QueryGrids.PruneFaultStays` | iqdb/QueryGrid.cs:209-212 | once the prune loop has met a bad offset, later offsets do not change which one it reports |
| `QueryGrids.QueryGrid.Of` | iqdb/QueryGrid.cs:10-17 | a grid object holding the given state |
| `QueryGrids.QueryGrid.FromSignatures` | iqdb/QueryGrid.cs:19-99 | gives a fresh grid holding exactly the corrected build's state, or its exception, changing only the signatures' IDs |
| `QueryGrids.QueryGrid.Serialize` | iqdb/QueryGrid.cs:101-119 | writes the object's state as EncodeGrid states |
| `QueryGrids.QueryGrid.Deserialize` | iqdb/QueryGrid.cs:121-146 | the object's new state is what DecodeGrid reads, or the read fails with DecodeGrid's error |
| `QueryGrids.QueryGrid.Analyze` | iqdb/QueryGrid.cs:148-182 | the statistics loop computes Analysis with limit count/10 over the offsets |
| `QueryGrids.QueryGrid.PruneForDuplicates` | iqdb/QueryGrid.cs:184-224 | prunes the offsets in place as Pruned states, or stops at the first bad offset with IndexOutOfRange |
| `QueryGrids.QueryGrid.ExecuteQuery` | iqdb/QueryGrid.cs:226-279 | answers exactly as Query on the object's state |
| `HaarBlocks.Words` | iqdb/HaarSigBlockDB.cs:19 | a block file holds two bytes per word |
| `HaarBlocks.Record` | iqdb/HaarSigBlockDB.cs:18-19 | record i is the 30 little-endian words at byte 60·i |
| `HaarBlocks.Blocks` | iqdb/HaarSigBlockDB.cs:9-23 | DeserializeBlockf gives length/60 records, or IndexOutOfRange when the length is not a whole number of records |
| `HaarBlocks.WordsRead` | iqdb/HaarSigBlockDB.cs:19 | the word read at byte 2k of written words is word k |
| `HaarBlocks.Chunk` | iqdb/HaarSigBlockDB.cs:18-19 | the 30 words of record i |
| `HaarBlocks.BlocksOfWords` | iqdb/HaarSigBlockDB.cs:9-23 | a file of written words reads back exactly when it holds a whole number of records, and then record i is the i-th run of 30 words |
| `HaarBlocks.ChunkRead` | iqdb/HaarSigBlockDB.cs:9-23 | the record read at i of written words is their i-th run of 30 |
| `HaarBlocks.DeserializeBlockf` | iqdb/HaarSigBlockDB.cs:9-23 | the reading loop computes Blocks |
| `HaarBlocks.ChannelWeights` | iqdb/HaarSigBlockDB.cs:29-38 | three channels of 16,384 weights each |
| `HaarBlocks.BlockWeight` | iqdb/HaarSigBlockDB.cs:29-38 | channel c's weight at an id's pixel is WeightLookUp's weight for that id |
| `HaarBlocks.FillChannelWeights` | iqdb/HaarSigBlockDB.cs:29-38 | the weight loops compute ChannelWeights |
| `HaarBlocks.Widen` | iqdb/HaarSigBlockDB.cs:50-52 | a record's ushorts as coefficient ids, unchanged |
| `HaarBlocks.RecordWeight` | iqdb/HaarSigBlockDB.cs:49-53 | a record's weight sum, or IndexOutOfRange |
| `HaarBlocks.RecordWeights` | iqdb/HaarSigBlockDB.cs:46-54 | one weight sum per record, or IndexOutOfRange |
| `HaarBlocks.RecordWeightsMeaning` | iqdb/HaarSigBlockDB.cs:46-54 | the weight loop succeeds exactly when every record's weight can be read, and then holds each record's weight |
| `HaarBlocks.AddChannel` | iqdb/HaarSigBlockDB.cs:50-52 | one foreach adds the weight of each word of one channel to the sum |
| `HaarBlocks.SumRecords` | iqdb/HaarSigBlockDB.cs:46-54 | the weight loop computes RecordWeights |
| `HaarBlocks.RecordSum` | iqdb/HaarSigBlockDB.cs:48-52 | the sum of one record over its y, i and q words is RecordWeight |
| `HaarBlocks.RecordWeightInRange` | iqdb/HaarSigBlockDB.cs:48-52 | a record whose words index their weights weighs the sum of its three channel sums |
| `HaarBlocks.RecordWeightsFail` | iqdb/HaarSigBlockDB.cs:46-54 | once the weight loop fails it fails for all the records |
| `HaarBlocks.Open` | iqdb/HaarSigBlockDB.cs:27-55 | the constructor fails only with IndexOutOfRange or InvalidDataException |
| `HaarBlocks.OpenAccepts` | iqdb/HaarSigBlockDB.cs:27-55 | the constructor succeeds exactly when the three files are whole records of equal length whose words index the weights, and raises InvalidDataException exactly when the record counts differ |
| `HaarBlocks.OpenHolds` | iqdb/HaarSigBlockDB.cs:27-55 | an opened database holds each file's records, count records, the channel weights and each record's weight sum |
| `HaarBlocks.SigAt` | iqdb/HaarSigBlockDB.cs:57-60 | getSig gives the three channel records, or IndexOutOfRange |
| `HaarBlocks.SigAtOpened` | iqdb/HaarSigBlockDB.cs:57-60 | on an opened database getSig succeeds exactly for 0 ≤ i < Count and gives record i of each file |
| `HaarBlocks.CompareShortArrays` | iqdb/HaarSigBlockDB.cs:62-76 | the merge over two ushort records computes the same weighted overlap as the Haar signature's merge |
| `HaarBlocks.MergeSelf` | iqdb/HaarSigBlockDB.cs:62-76 | a record merged with itself matches its whole weight |
| `HaarBlocks.SimilaritySymmetric` | iqdb/HaarSigBlockDB.cs:78-84 | the similarity of i and j is that of j and i |
| `HaarBlocks.SelfSimilar` | iqdb/HaarSigBlockDB.cs:78-84 | a record whose weight sum is its words' weight has similarity 1 with itself, or none when that weight is 0 |
| `HaarBlocks.SelfSimilarity` | iqdb/HaarSigBlockDB.cs:27-84 | in an opened database every record has similarity 1 with itself, or none when its weight is 0 |
| `HaarBlocks.HaarSigBlockDB.Of` | iqdb/HaarSigBlockDB.cs:5-8 | a database object holding the given fields |
| `HaarBlocks.HaarSigBlockDB.Load` | iqdb/HaarSigBlockDB.cs:27-55 | the constructor gives a fresh database holding what Open states, or Open's exception |
| `HaarBlocks.HaarSigBlockDB.Count` | iqdb/HaarSigBlockDB.cs:26 | Count is the record count |
| `HaarBlocks.HaarSigBlockDB.GetSig` | iqdb/HaarSigBlockDB.cs:57-60 | getSig answers as SigAt |
| `HaarBlocks.HaarSigBlockDB.InternalSimilarity` | iqdb/HaarSigBlockDB.cs:78-84 | answers as Similarity on the object's fields |
| `FirstSeen.KeysAppend` | hsig2hsm/Program.cs:51-58 | reading one more signature adds its HashString to the hashes seen |
| `FirstSeen.FreshStep` | hsig2hsm/Program.cs:49-60 | one more signature is kept exactly when its HashString was not seen before |
| `FirstSeen.FreshKeys` | hsig2hsm/Program.cs:49-60 | every HashString read is kept once |
| `FirstSeen.FreshFrom` | hsig2hsm/Program.cs:49-60 | only signatures that were read are kept |
| `FirstSeen.FreshDistinct` | hsig2hsm/Program.cs:49-60 | the kept signatures have pairwise different HashStrings |
| `FirstSeen.FreshIdempotent` | hsig2hsm/Program.cs:49-60 | deduplicating twice gives the same list |
| `FirstSeen.FreshOfDistinct` | hsig2hsm/Program.cs:49-60 | a list whose HashStrings already differ is kept whole |
| `HashFilter.WhitelistMeaning` | hsigcf/Program.cs:16-28 | a hash is whitelisted exactly when some line of some .csv argument trims to it |
| `HashFilter.ReadWhitelist` | hsigcf/Program.cs:16-28 | the whitelist loop builds Whitelist |
| `HashFilter.AdmittedStep` | hsigcf/Program.cs:45-52 | one more record is admitted exactly when the whitelist is empty or holds its HashString |
| `HashFilter.AdmittedFrom` | hsigcf/Program.cs:45-52 | every admitted record was read and passes the whitelist |
| `HashFilter.AdmittedKeys` | hsigcf/Program.cs:45-52 | the admitted hashes are all hashes read when the whitelist is empty, and otherwise those read that are on it |
| `HashFilter.KeptStorable` | hsigcf/Program.cs:53-57 | records that can be written stay so when some are left out |
| `HashFilter.InputsErrStays` | hsigcf/Program.cs:32-62 | the first file that fails to read decides the program's exception |
| `HashFilter.InputsStorable` | hsigcf/Program.cs:32-62 | every record read from the .hsigs arguments can be written again |
| `HashFilter.Filtered` | hsigcf/Program.cs:32-62 | the records written can be written again |
| `HashFilter.FilteredMeaning` | hsigcf/Program.cs:32-62 | what is written holds each admitted hash exactly once, every admitted hash read, and only records that were read |
| `HashFilter.FilteredReadBack` | hsigcf/Program.cs:44-55 | the records written read back as the same records with ID 0 |
| `HashFilter.Take` | hsigcf/Program.cs:45-58 | one record is passed over when the whitelist refuses it or its hash was written, and otherwise written and its hash added |
| `HashFilter.ReadOne` | hsigcf/Program.cs:44 | `new HaarSignature(reader)` reads one record off a non-empty stream and consumes bytes |
| `HashFilter.CopyFile` | hsigcf/Program.cs:37-60 | the loop over one .hsigs file writes the first admitted record of each hash, or ends with the exception of a record that fails to read |
| `HashFilter.FilterProgram` | hsigcf/Program.cs:10-64 | nothing without arguments; otherwise `<first>-f.hsigs` holds its earlier bytes followed by the filtered records, or the program fails with the first read exception |
| `ShardSplit.ScanStep` | hsig2hsm/Program.cs:39-93 | reading one more record is one more turn of the reading loop |
| `ShardSplit.ScanSeen` | hsig2hsm/Program.cs:51-58 | the hash set holds exactly the hashes read |
| `ShardSplit.ScanContents` | hsig2hsm/Program.cs:49-92 | the stored shards followed by the gathered signatures are the first record of every hash read, in read order |
| `ShardSplit.ScanSizes` | hsig2hsm/Program.cs:69-92 | every record read is counted, a shard is stored after every 4,000,000 records, and none holds more than 4,000,000 signatures |
| `ShardSplit.ShardsMeaning` | hsig2hsm/Program.cs:25-117 | the shards written hold, one after another, the first record of every hash read; none holds more than 4,000,000; there is one per 4,000,000 records read and at most one more |
| `ShardSplit.ScanGrows` | hsig2hsm/Program.cs:69-92 | reading more records never changes the shards already stored |
| `ShardSplit.NamesDiffer` | hsig2hsm/Program.cs:83-89 | shard files get different names |
| `ShardSplit.WrittenStep` | hsig2hsm/Program.cs:76-90 | storing one more shard writes `<out>-f.hsm` with its bytes, or ends with its exception |
| `ShardSplit.WrittenCount` | hsig2hsm/Program.cs:76-115 | every shard is written when none fails; otherwise the first failing shard's exception ends the run, after the ones before it |
| `ShardSplit.WrittenFiles` | hsig2hsm/Program.cs:76-115 | shard k is written as `<out>-k.hsm`, holding the serialised sparse matrix of shard k |
| `ShardSplit.WrittenStops` | hsig2hsm/Program.cs:76-115 | after an exception nothing more is written |
| `ShardSplit.ReadOrStop` | hsig2hsm/Program.cs:41-67 | a record that reads comes off the front of the stream; one that fails ends the loop for this file |
| `ShardSplit.StoreShard` | hsig2hsm/Program.cs:76-90 | FromHaarSignatures then Serialize gives the shard's file name and bytes, or the exception either raises |
| `ShardSplit.Accept` | hsig2hsm/Program.cs:49-92 | one turn after the read keeps the loop's locals in step with the records read, or ends with the exception of a shard that fails |
| `ShardSplit.ReadFile` | hsig2hsm/Program.cs:38-94 | the loop over one file reads each record it can, in order, stopping at the first that fails to read |
| `ShardSplit.GenerateSparseMatrix` | hsig2hsm/Program.cs:25-117 | writes the shard files the records of the files give, up to the first shard that cannot be built or stored |
| `ShardSplit.StopsEarly` | hsig2hsm/Program.cs:76-90 | an exception while storing a shard is the exception of the whole run |
| `ShardSplit.ErrorStays` | hsig2hsm/Program.cs:76-115 | once storing a shard has failed, later records change nothing that is written |
| `ShardSplit.StreamHasPrefix` | hsig2hsm/Program.cs:35-97 | the records read up to a point of file i come first in the records of all the files |
| `ShardSplit.StreamGrows` | hsig2hsm/Program.cs:35-97 | the records of the first files come first in the records of all the files |
| `ShardSplit.Convert` | hsig2hsm/Program.cs:16-22 | one turn of Main's loop converts a .hsigs argument and passes over any other |
| `ShardSplit.SplitProgram` | hsig2hsm/Program.cs:11-23 | Main writes `<argument>-h-<f>.hsm` shards for every .hsigs argument in turn, and an exception ends the program |
| `RgbDump.DecodedRgb` | iqdb-import/Program.cs:146 | an RGB record read back has a hash and one weight per id, and is read off the front of the stream |
| `RgbDump.DumpRoundTrip` | iqdb-import/Program.cs:137-156 | dumping a file of serialised RGB signatures lists each of them, in order, as hash and hex data |
| `RgbDump.DumpStep` | iqdb-import/Program.cs:142-154 | a record that reads gives its line and the dump goes on; one that fails ends the list |
| `RgbDump.DumpRecord` | iqdb-import/Program.cs:144-153 | one turn of the dump loop: the next record's line and what is left, or nothing when it fails to read |
| `RgbDump.DumpRgbSigs` | iqdb-import/Program.cs:137-156 | the dump loop writes DumpLines |
| `ImportBlocks.ChannelBits` | iqdb-import/Program.cs:179-180 | on 32-bit words the channel shift is division by 32,768, and channel and coefficient together give the id back |
| `ImportBlocks.ChannelCoeffs` | iqdb-import/Program.cs:177-184 | a channel's block words are at most as many as the ids |
| `ImportBlocks.ChannelSplitMeaning` | iqdb-import/Program.cs:177-184 | every id of the weight table goes to exactly one block file, each word is inside its channel, and the three channels' weights add up to Sum_Weights |
| `ImportBlocks.ChannelStep` | iqdb-import/Program.cs:179-183 | one more id adds its coefficient and its weight to its own channel only |
| `ImportBlocks.SplitWeight` | iqdb-import/Program.cs:170-184 | the weight HaarSigBlockDB computes for a signature's three block records is its Sum_Weights |
| `ImportBlocks.SplitIds` | iqdb-import/Program.cs:177-184 | the inner loop sends each id's coefficient to the writer of its channel |
| `ImportBlocks.SplitStreamRecords` | iqdb-import/Program.cs:158-191 | a split that completes read every signature of the input; the head list has one line per signature, and each block file holds the signatures' words of its channel, in order |
| `ImportBlocks.ChannelChunks` | iqdb-import/Program.cs:177-184 | with 30 words of a channel per signature, block record k of that channel is signature k's words |
| `ImportBlocks.ChannelBlocks` | iqdb-import/Program.cs:177-184 | a channel's block file read back has one record per signature, holding its words of that channel |
| `ImportBlocks.SplitThenOpen` | iqdb-import/Program.cs:158-191 | the block files written open as a HaarSigBlockDB whose record k is signature k's words and whose weight sum is its Sum_Weights |
| `ImportBlocks.ThenJoin` | iqdb-import/Program.cs:162-166 | appending to the files in two steps is appending both parts at once |
| `ImportBlocks.JoinNothing` | iqdb-import/Program.cs:162-166 | appending nothing leaves the files as they are |
| `ImportBlocks.SplitOne` | iqdb-import/Program.cs:169-184 | one turn of the loop reads a signature off the front of the stream and appends its head, list line and block words, or ends with the exception |
| `ImportBlocks.BlockFileHsigs` | iqdb-import/Program.cs:158-191 | the loop writes what SplitStream states |
| `ImportCsv.FirstField` | iqdb-import/Program.cs:63-65 | field 0 is a prefix of the line without a bar |
| `ImportCsv.SecondField` | iqdb-import/Program.cs:63-66 | field 1 exists exactly when the line has a bar; otherwise IndexOutOfRange |
| `ImportCsv.Fields` | iqdb-import/Program.cs:63-66 | `md5\|file\|...` splits into md5 and file |
| `ImportCsv.ImageLine` | iqdb-import/Program.cs:61-105 | for the image types the reader sees both fields trimmed and lower-cased, a missing file gives no signature and no exception, and a line without a bar is an index error |
| `ImportCsv.Encode` | iqdb-import/Program.cs:123-124 | Serialize writes at least the four bytes of the ID |
| `ImportCsv.EncodeAllAppend` | iqdb-import/Program.cs:123-124 | serialising two runs is serialising each in turn |
| `ImportCsv.EncodeAllGrows` | iqdb-import/Program.cs:123-124 | every signature adds at least four bytes |
| `ImportCsv.SerializeAll` | iqdb-import/Program.cs:123-124 | the flush loop serialises the pending signatures in list order |
| `ImportCsv.CounterStep` | iqdb-import/Program.cs:51-55 | the uint line counter moves on by one modulo 2^32 |
| `ImportCsv.ImportedStep` | iqdb-import/Program.cs:52-130 | one more line's signature joins the pending ones, which are written and cleared when the line count calls for a flush |
| `ImportCsv.Outcomes` | iqdb-import/Program.cs:58-118 | one outcome of the try block per line |
| `ImportCsv.CollectedSplit` | iqdb-import/Program.cs:52-130 | the signatures of consecutive line ranges concatenate |
| `ImportCsv.LastFlush` | iqdb-import/Program.cs:120 | the last line up to n after which a flush happened, or 0 |
| `ImportCsv.ImportedMeaning` | iqdb-import/Program.cs:52-130 | after n lines exactly the signatures of the lines up to the last flush are written, in file order, and those since then are pending |
| `ImportCsv.ImportLine` | iqdb-import/Program.cs:110-129 | a line's signature joins the pending list, and on a flush the whole list is appended to the output and cleared |
| `ImportCsv.Advance` | iqdb-import/Program.cs:52-130 | one turn of the read loop moves the uint counter on and keeps the output in step with Imported |
| `ImportCsv.CsvToSignatures` | iqdb-import/Program.cs:39-135 | appends the serialisation of the signatures of the lines up to the last flush, in file order |
| `ImportCsv.LastChunkLost` | iqdb-import/Program.cs:120-134 | as written, when the file does not end on a multiple of 10,000 lines and its last line yields a signature, that signature is never written |
| `ImportCsv.ImportFixedWritesAll` | iqdb-import/Program.cs:39-135 | with a final flush every signature the lines yield is written once, in file order |
| `ImportDispatch.DispatchIgnored` | iqdb-import/Program.cs:17-31 | an argument is ignored exactly when it has none of the six extensions Main tests for |
| `ImportDispatch.DispatchOutput` | iqdb-import/Program.cs:21-29 | every output name is the argument with a suffix appended; the CSV types are 1 to 4 |
| `ImportDispatch.Mismatch` | iqdb-import/Program.cs:21-29 | a name ending in one extension does not end in another that differs inside it |
| `ImportDispatch.Appended` | iqdb-import/Program.cs:21-29 | a name with an extension appended ends with it |
| `ImportDispatch.DispatchHcsv` | iqdb-import/Program.cs:21 | .hcsv goes to CSVtoSignatures type 1, writing `.hsigs` |
| `ImportDispatch.DispatchHsigs` | iqdb-import/Program.cs:22 | .hsigs goes to BlockFileHsigs, writing `-bl` files |
| `ImportDispatch.DispatchCcsv` | iqdb-import/Program.cs:24 | .ccsv goes to CSVtoSignatures type 2, writing `.csigs` |
| `ImportDispatch.DispatchIcsv` | iqdb-import/Program.cs:26 | .icsv goes to CSVtoSignatures type 3, writing `.isigs` |
| `ImportDispatch.DispatchRgbcsv` | iqdb-import/Program.cs:28 | .rgbcsv goes to CSVtoSignatures type 4, writing `.rgbsigs` |
| `ImportDispatch.DispatchRgbsigs` | iqdb-import/Program.cs:29 | .rgbsigs goes to DumpRGBSigs, writing `.csv` |
| `ImportDispatch.DispatchByExtension` | iqdb-import/Program.cs:17-31 | each extension reaches its own converter whatever the name before it; no earlier test catches a later extension |
| `ImportDispatch.Jobs` | iqdb-import/Program.cs:17-31 | Main's loop gives one job per argument, in order |
| `ImportDispatch.Converted` | iqdb-import/Program.cs:19-29 | an argument matching no extension does nothing; only the block split of a .hsigs file that does not read raises |
| `ImportDispatch.FailedStays` | iqdb-import/Program.cs:17-31 | once a converter has raised, later arguments change nothing: the exception ends Main |
| `ImportDispatch.ImportsStep` | iqdb-import/Program.cs:17-31 | one more argument: an exception ends the run, otherwise its output, if any, is appended |
| `ImportDispatch.Conversions` | iqdb-import/Program.cs:17-31 | one converter outcome per argument, in order |
| `ImportDispatch.ImportsSucceed` | iqdb-import/Program.cs:17-31 | the loop ends without an exception exactly when every converter succeeds, and writes at most one output per argument |
| `ImportDispatch.ImportsFailure` | iqdb-import/Program.cs:17-31 | when the loop ends on an exception, it is that of the first converter that fails |
| `ImportDispatch.ProgramFailure` | iqdb-import/Program.cs:17-31 | Main ends on an exception exactly when some .hsigs file's block split raises, and then with the first such exception |
| `ImportDispatch.Convert` | iqdb-import/Program.cs:19-29 | one loop turn runs the converter the extension selects and gives what Converted defines |
| `ImportDispatch.ImportProgram` | iqdb-import/Program.cs:12-34 | Main runs the converters in argument order and stops at the first exception, as Imports over Conversions defines |
| `BatchQuery.Insert` | iqdb/QueryResult.cs:14-17 | inserting into a best-first list keeps it best first and adds exactly the one element |
| `BatchQuery.SortDescending` | iqdb/QueryResult.cs:14-17 | List.Sort under CompareTo gives a rearrangement of the list with scores in non-increasing order |
| `BatchQuery.JoinedFails` | iqdb_batch_query/Program.cs:47-50 | once a matrix's ExecuteQuery raises, later matrices change nothing |
| `BatchQuery.RatioBounds` | iqdb/IntegerQueryResult.cs:8 | a metric value between 0 and its maximum gives a ratio in [0, 1] |
| `BatchQuery.ScoreBounds` | iqdb/HaarQueryResult.cs:8 | a result whose metric value lies between 0 and its maximum, and whose YUV distance lies in [0, 1] for a Haar result, scores in [0, 1] |
| `BatchQuery.ScoreGrows` | iqdb/HaarQueryResult.cs:8 | with the maximum and the distance fixed, a larger metric value scores higher, so the best matches sort first |
| `BatchQuery.Execute` | iqdb/QuerySparseMatrix.cs:15 | the virtual ExecuteQuery: a Haar matrix refuses a non-Haar query with InvalidDataException; each matrix reports only results of its own class that pass the limit |
| `BatchQuery.Executed` | iqdb_batch_query/Program.cs:47-50 | one ExecuteQuery outcome per matrix, in order |
| `BatchQuery.OthersAppend` | iqdb_batch_query/Program.cs:53-65 | passing over the query's own image works piecewise on a concatenation |
| `BatchQuery.OthersMeaning` | iqdb_batch_query/Program.cs:56 | no self-match is kept, nothing is kept that was not there, and every other result is kept |
| `BatchQuery.OthersDescending` | iqdb_batch_query/Program.cs:51-65 | passing over results keeps a list best first |
| `BatchQuery.Attach` | iqdb_batch_query/Program.cs:58 | each reported result is tagged with the query it answers |
| `BatchQuery.ReportedMeaning` | iqdb_batch_query/Program.cs:51-65 | a worker reports at most 40 results, each answering its query and none the query image, best first, all among the results; a result left out that is not the query image scores no higher than any reported |
| `BatchQuery.ReportedAll` | iqdb_batch_query/Program.cs:52-65 | fewer than 40 reports means every result but the query image's own was reported |
| `BatchQuery.ThreadResults` | iqdb_batch_query/Program.cs:44-66 | every report of a worker answers its query and is not the query image |
| `BatchQuery.Report` | iqdb_batch_query/Program.cs:52-65 | the reporting loop, widening its limit by one for each self-match, reports what Reported states |
| `BatchQuery.Gather` | iqdb_batch_query/Program.cs:46-50 | the first loop of ThreadRun joins the results of every matrix in turn |
| `BatchQuery.ThreadRun` | iqdb_batch_query/Program.cs:44-66 | ThreadRun computes ThreadResults |
| `BatchQuery.Workers` | iqdb_batch_query/Program.cs:18-25 | one worker per query of the batch |
| `BatchQuery.AnswersJoined` | iqdb_batch_query/Program.cs:16-27 | joined reports of workers that each answer their own query answer a query of the batch |
| `BatchQuery.WorkersAnswer` | iqdb_batch_query/Program.cs:14-30 | every report in the bag answers a query of the batch and is not that query's own image |
| `BatchQuery.MergedMeaning` | iqdb_batch_query/Program.cs:14-30 | a batch's results are every worker's reports, each once, best first; each answers a query of the batch and none is its own image |
| `BatchQuery.JoinedStep` | iqdb_batch_query/Program.cs:14-30 | one more outcome: an exception is the one raised, a list of reports is appended |
| `BatchQuery.WorkerStep` | iqdb_batch_query/Program.cs:14-30 | one more worker: its exception ends the batch, its reports are appended to the bag |
| `BatchQuery.JoinWorkers` | iqdb_batch_query/Program.cs:14-30 | running the workers in batch order gives their reports joined, or the first exception |
| `BatchQuery.MergedOf` | iqdb_batch_query/Program.cs:14-30 | the merged bag is the joined reports sorted best first, or the first worker's exception |
| `BatchQuery.ParallelSMQuery` | iqdb_batch_query/Program.cs:14-30 | the bag of all workers' reports, sorted, is what Merged states |
| `BatchQuery.ParseInt32` | iqdb_batch_query/Program.cs:89 | Int32.Parse, which skips only tab through carriage return and space around the number, gives a value within 32-bit two's complement |
| `BatchQuery.ParseInt32Decimal` | iqdb_batch_query/Program.cs:89 | Int32.Parse reads a printed non-negative number back, and overflows above 2^31 - 1 |
| `BatchQuery.ParseInt32Negative` | iqdb_batch_query/Program.cs:89 | a minus sign negates the digits, down to -2^31, and overflows below |
| `BatchQuery.Clamped` | iqdb_batch_query/Program.cs:91 | for every real (non-NaN) limit, the result is in [0, 1]: the one given when it is, and 0.6 otherwise |
| `BatchQuery.Arguments` | iqdb_batch_query/Program.cs:87-91 | the cores argument's parse error is the program's; with exactly three arguments reading args[3] raises IndexOutOfRange; otherwise the settings are the arguments read |
| `BatchQuery.ReadSettings` | iqdb_batch_query/Program.cs:80-91 | the usage message comes exactly for fewer than three arguments |
| `BatchQuery.ThreeArgumentsFail` | iqdb_batch_query/Program.cs:80-90 | as written, three arguments pass the usage check and then reading the fourth raises IndexOutOfRangeException |
| `BatchQuery.ReadSettingsFixed` | iqdb_batch_query/Program.cs:80-91 | with the usage check asking for four arguments, the usage message comes exactly for fewer than four, and no IndexOutOfRange is raised |
| `BatchQuery.FeedAllAppend` | iqdb_batch_query/Program.cs:146-190 | feeding two runs of records is feeding one after the other |
| `BatchQuery.SkipWhileAbsent` | iqdb_batch_query/Program.cs:149-158 | while the md5 sought has not come, nothing is queued or queried |
| `BatchQuery.SkipThrough` | iqdb_batch_query/Program.cs:149-158 | every record up to and including the first with the md5 sought is passed over |
| `BatchQuery.QueueUp` | iqdb_batch_query/Program.cs:160-165 | records up to `cores` in all are queued and nothing is queried |
| `BatchQuery.FirstBatch` | iqdb_batch_query/Program.cs:160-187 | of cores + 1 records the first `cores` are queued and the next sends them off as a batch |
| `BatchQuery.FeedSchedule` | iqdb_batch_query/Program.cs:146-190 | the loop as written queries exactly the scheduled batches and leaves the rest queued |
| `BatchQuery.FlattenAppend` | iqdb_batch_query/Program.cs:160-187 | the records of two lists of batches concatenate |
| `BatchQuery.ScheduleDrops` | iqdb_batch_query/Program.cs:160-187 | as written, one record per batch is never queried, and at most `cores` are left queued unqueried at the end |
| `BatchQuery.DroppedSignatures` | iqdb_batch_query/Program.cs:146-190 | as written, with one worker and records a, b, c, only a is queried, b is dropped and c is left queued |
| `BatchQuery.FixedContents` | iqdb_batch_query/Program.cs:146-190 | corrected, the batches hold, in order, every record fed except those still queued |
| `BatchQuery.FixedSizes` | iqdb_batch_query/Program.cs:146-190 | corrected, no batch is empty or holds more than `cores` (one when `cores` is 0), and fewer than that are left queued |
| `BatchQuery.FixedQueriesAll` | iqdb_batch_query/Program.cs:146-190 | corrected, with a final partial batch, every record after the skip is queried exactly once, in order |
| `BatchQuery.StepsAppend` | iqdb_batch_query/Program.cs:146-190 | reading two runs of records is reading one after the other |
| `BatchQuery.StepsStop` | iqdb_batch_query/Program.cs:146-190 | after an exception nothing more is read |
| `BatchQuery.StepsSchedule` | iqdb_batch_query/Program.cs:146-190 | until an exception, the loop keeps to the schedule |
| `BatchQuery.StepsAnswer` | iqdb_batch_query/Program.cs:146-190 | every report written answers a record of the file and is not that record's own image |
| `BatchQuery.ReadNext` | iqdb_batch_query/Program.cs:148 | `new HaarSignature(reader)` reads a record off the front of the rest of the stream, or raises the exception that ends the program |
| `BatchQuery.Consume` | iqdb_batch_query/Program.cs:149-189 | the loop body for one record moves the state on by one Step |
| `BatchQuery.QueryFile` | iqdb_batch_query/Program.cs:127-193 | the loop over one .hsigs file computes FileRun |
| `BatchQuery.StepsSkip` | iqdb_batch_query/Program.cs:149-158 | records without the md5 sought are all passed over |
| `BatchQuery.FileRunAnswers` | iqdb_batch_query/Program.cs:127-193 | every report written for a file answers one of its records and is not that record's own image |
| `BatchQuery.FileRunSkipsAll` | iqdb_batch_query/Program.cs:139-158 | a file without the md5 sought is read through without a query, and the md5 is still sought after it |
| `BatchQuery.LoadOne` | iqdb_batch_query/Program.cs:94-122 | a .qsm argument loads as an integer matrix and a .hsm as a Haar matrix, succeeding exactly when the file decodes; other arguments load nothing |
| `BatchQuery.Loads` | iqdb_batch_query/Program.cs:94-122 | one load per argument, in order |
| `BatchQuery.AnsweredGrows` | iqdb_batch_query/Program.cs:125-194 | a file answered among the first n arguments stays answered among n + 1 |
| `BatchQuery.FilesAnswer` | iqdb_batch_query/Program.cs:125-194 | every file the second loop reports is a .hsigs argument answered by its reports |
| `BatchQuery.Run` | iqdb_batch_query/Program.cs:73-195 | Main prints the usage message exactly for fewer than three arguments, and an exception reading the settings ends it with no file written |
| `BatchQuery.RunAnswers` | iqdb_batch_query/Program.cs:73-195 | what the program writes answers the records read: no image is reported as similar to itself |
| `BatchQuery.LoadMatrices` | iqdb_batch_query/Program.cs:94-122 | the first loop loads the matrices of the arguments in order, the first failing file ending the program |
| `BatchQuery.QueryFiles` | iqdb_batch_query/Program.cs:125-194 | the second loop reads every .hsigs argument through in turn, until an exception |
| `BatchQuery.BatchQueryProgram` | iqdb_batch_query/Program.cs:73-195 | Main computes Run |
| `Text.LowerHex` | iqdb/Signature.cs:32 | `BitConverter.ToString(..).Replace("-", "").ToLower()` gives two lower-case hex digits per byte |
| `Text.LowerHexAt` | iqdb/Signature.cs:32 | digits 2k and 2k+1 of the hash string are the high and low nibble of byte k |
| `Text.LowerHexDigitOfValue` | iqdb/Signature.cs:32 | lower-casing a hex digit gives the lower-case digit of its value |
| `Text.UpperHex2` | iqdb/RBGSignature.cs:38-44 | two upper-case hex digits whose base-16 value is the byte |
| `Text.ToLower` | iqdb-import/Program.cs:65-66 | lower-casing keeps the length and maps each character on its own; only A-Z are mapped (see Left out) |
| `Text.TrimStartSpec` | hsigcf/Program.cs:24 | trimming the start removes exactly the leading characters of the white-space class given: Char.IsWhiteSpace for String.Trim, tab through carriage return and space for number parsing |
| `Text.TrimEndSpec` | hsigcf/Program.cs:24 | trimming the end removes exactly the trailing characters of the white-space class given |
| `Text.TrimSpec` | hsigcf/Program.cs:24 | trimming leaves the middle of the string, with no white space of the class given at either end; String.Trim uses the full Char.IsWhiteSpace set, Unicode separators included |
| `Text.FirstSeparator` | iqdb/IntegerSignature.cs:24 | the position of the first separator, or the length when there is none |
| `Text.SplitTokens` | iqdb/IntegerSignature.cs:24 | Split with RemoveEmptyEntries gives non-empty tokens free of separators |
| `Text.SplitConcat` | iqdb/IntegerSignature.cs:24 | the tokens, joined, are the line without its separators |
| `Text.DecimalString` | iqdb/IntegerSignature.cs:26 | a printed number is non-empty decimal digits of its value |
| `Text.ParseDecimalString` | iqdb/IntegerSignature.cs:26 | UInt32.Parse reads a printed uint back |
| `Text.ParseDigits` | iqdb/IntegerSignature.cs:26 | UInt32.Parse of decimal digits gives their value, or Overflow above 2^32 - 1 |
| `Wire.ByteLengthAppend` | iqdb/HaarQuerySparseMatrix.cs:72-96 | the length of a written stream is the sum of its parts' |
| `Wire.SeekAppend` | iqdb/DiskHaarQuerySparseMatrix.cs:123-140 | seeking past a written prefix lands at the same place in what follows |
| `Wire.U32sAppend` | iqdb/HaarQuerySparseMatrix.cs:72-96 | writing two uint arrays is writing one after the other |
| `Wire.LittleEndianRoundTrip` | iqdb/IntegerSignature.cs:40-57 | BinaryReader reads back the little-endian bytes BinaryWriter writes |
| `Wire.U16RoundTrip` | iqdb/IntegerSignature.cs:52 | a ushort reads back as written |
| `Wire.U32RoundTrip` | iqdb/IntegerSignature.cs:44-55 | a uint reads back as written |
| `Wire.ByteRoundTrip` | iqdb/QueryGrid.cs:109-129 | a byte reads back as written |
| `Wire.BytesRoundTrip` | iqdb/IntegerSignature.cs:45 | a byte array reads back as written |
| `Wire.U32sRoundTrip` | iqdb/HaarQuerySparseMatrix.cs:72-96 | a uint array reads back as written |
| `Wire.U16sRoundTrip` | iqdb/RBGSignature.cs:139-162 | a ushort array reads back as written |
| `Wire.F32sRoundTrip` | iqdb/QueryGrid.cs:106-127 | a float array reads back as written |
| `Wire.SeekIntoWords` | iqdb/DiskHaarQuerySparseMatrix.cs:123-140 | seeking 4p bytes into written uints lands at uint p |
| `Wire.ReadWords` | iqdb/DiskHaarQuerySparseMatrix.cs:123-140 | reading n uints of written uints gives the first n and leaves the rest |
| `Wire.WriteU32s` | iqdb/HaarQuerySparseMatrix.cs:72-96 | the write loop writes the uint array |
| `Wire.WriteF32s` | iqdb/QueryGrid.cs:106 | the write loop writes the float array |
| `Wire.WriteU16s` | iqdb/RBGSignature.cs:139-149 | the write loop writes the ushort array |
| `Wire.ReadWordArray` | iqdb/HaarQuerySparseMatrix.cs:98-131 | the read loop reads the uint array |
| `Wire.ReadFloatArray` | iqdb/QueryGrid.cs:127 | the read loop reads the float array |

## Left out

- Image decoding and resizing are not modelled. This covers `Image.FromFile`, `Bitmap`, `LockBits` and the pixel reads in every `FromImage` and `FromFileName`. Colour signatures are built from given pixel bytes or colour ids, and the importer's image reader is a parameter (`ImportCsv.LineSignature`).
- The Haar transform `TransformHaar2D` is not modelled, because it is floating-point arithmetic. The same goes for the YIQ conversions, `IsGrayScale`, the double-based `ColorSignature.getColorsHex` and the unused `NormalizeHistogramm`. The Haar signature model starts from the transformed coefficients.
- Single-precision arithmetic is modelled with exact reals, so rounding is not captured.
  - A division by zero gives NaN or infinity in the source. The model handles it as follows:
    - the query filters (`Csr.Exceeds`) keep a positive value over a zero maximum, as +infinity exceeds any finite limit, and drop 0/0 and a negative value over zero, as NaN and -infinity exceed nothing;
    - `HaarCompare.CompareTo` and `HaarBlocks.HaarSigBlockDB.InternalSimilarity` give None;
    - `BatchQuery.Score` counts a zero MetricMax as 0.
  - `float.Parse` of the limit in `iqdb_batch_query` is a parameter.
- A float in a stream is one cell that takes four byte positions. Reading integer bytes where a float was written is a `Format` error that exists only in the model. The source would reinterpret the bits instead.
- `iqdb_batch_query` runs one thread per query, with a `ConcurrentBag` and `Join`. The model runs the workers one after another: the bag is only read after every worker has joined, and it is sorted then.
  - `List.Sort` and `Array.Sort` are unstable. The model sorts by insertion and keeps ties in list order, which is one of the orders the library may leave.
  - RGB's `Array.Sort(histogram, ids)` is taken as any permutation that sorts the histogram.
- `BatchQuery.BatchQueryProgram` does not model where the output file lives (`Path.GetDirectoryName` and the application directory). The reports are gathered per `.hsigs` file instead.
- The server program iqdb-server is not part of this model. It is HTTP, `WebClient`, console commands and JSON text.
- Console output, `DateTime` timing, `GC.Collect` and file opening and closing are left out. Files are the byte streams or text lines handed in, and the files written are values returned.
- iqdb/QuerySparseMatrix.cs and the abstract members of Signature and QueryResult only declare shapes. `BatchQuery.Execute` dispatches on a `Matrix` datatype and `Signatures.SigValue` has one `Kind` per subclass: Dafny traits are not used.
- The text forms of results (`ToCSV`, `ToJSON`, `ToSQL`, `ToString`) and the Sum_Weights column of the `.head.csv` list are not modelled. `ImportBlocks.SplitStream` keeps the number itself.
- HaarSelection.GetSignificantIndices: requires an even, positive number of coefficients. The sift-down test `next > heap_size` keeps its reads inside the heap only when K is even, and the program always passes COEFFICIENT_COUNT, which is 30. Because of the `vnew = va` reassignment, the contract promises distinct positions in [1, PIXEL_COUNT), but not the K largest magnitudes.
- QueryResults.GridResult stands for the `new QueryResult(hash, error, value, max)` of iqdb/QueryGrid.cs:275. QueryResult is abstract and has no constructor with those arguments, so that line does not compile as written. The model keeps the four values the line passes.
- Text.ToLower: only A-Z are lower-cased. `String.ToLower` under the en-US culture Main sets also maps the other Unicode upper-case letters.
- Text.EndsWith: the comparison is ordinal. `String.EndsWith(string)` compares under the current culture, which ignores zero-width characters and matches some composed and decomposed forms.
- ImportCsv.ImageLine: the md5 and file fields are lower-cased with Text.ToLower, so non-ASCII letters reach the image reader unchanged. Trimming uses the full Char.IsWhiteSpace set, as String.Trim does.
- HashFilter.WhitelistMeaning: the hashes are trimmed with the full Char.IsWhiteSpace set, as String.Trim does. The `.csv` test uses Text.EndsWith, so it is ordinal, not culture-sensitive.
- ImportDispatch.Dispatch: the extension tests use Text.EndsWith, so they are ordinal, not culture-sensitive.
- ImportCsv.CsvToSignatures: the `skip` counter is the constant 0, so the `i < skip` test never fires and is left out.
- Memory exhaustion is not modelled, except for an array longer than Int32.MaxValue elements, which is `OutOfMemory`. The source allocates an array of the stream's count before reading its elements, so a count the machine cannot hold raises OutOfMemoryException before any read. The readers below give `EndOfStream` in that case instead, as soon as the stream runs short:
- HaarIndex.DecodeMinis and HaarIndex.ReadRecords: a huge record count over a short stream is `EndOfStream`, not `OutOfMemory`.
- IntegerMatrix.DecodeMinis and IntegerMatrix.ReadRecords: a huge record count over a short stream is `EndOfStream`, not `OutOfMemory`.
- GridCodec.DecodeGrid: a huge grid count over a short stream is `EndOfStream`, not `OutOfMemory`.
- BatchQuery.Clamped: the limit is a real, so NaN is not modelled. `float.Parse("NaN")` fails both comparisons at iqdb_batch_query/Program.cs:91 and is kept, and a NaN limit then keeps no candidate. Every real limit ends up in [0, 1].

## Findings

| source | as written | input that shows it | evidently intended | confidence | as-written member | corrected member |
|---|---|---|---|---|---|---|
| iqdb/DiskHaarQuerySparseMatrix.cs:118-128 | Deserialize sets `column_ids` to null, and `ReadColIDs` of the last coefficient reads `column_ids.Length` | any opened file queried with the coefficient 98,303 | the last row ends at the saved postings count | not executed | `DiskMatrix.QueryLastRowAsWritten` | `DiskMatrix.LoadedRows` |
| iqdb/DiskHaarQuerySparseMatrix.cs:134-136 | the byte offset `row_offset * sizeof(UInt32)` is computed in uint and wraps | a saved index whose row starts at posting 2^30 or later | seek to start + 4·offset without wrapping | not executed | `DiskMatrix.SeekWraps` | `DiskMatrix.LoadedRows` |
| iqdb/IntegerQuerySparseMatrix.cs:63-77 | the flatten loop stops before `max_coeff`, so the largest id is never posted and the row below it runs over the unwritten tail | one signature holding only the id 1: a query for 1 matches nothing and a query for 0 matches it | every id up to `max_coeff` is posted | not executed | `IntegerMatrix.AsWrittenMissesLargest` | `IntegerMatrix.BuiltFindsLargest` |
| iqdb/QueryGrid.cs:26-30 | a signature object listed twice with ID 0 is entered twice, under keys 0 and 1, and `imgid2index.Add` then meets key 1 twice | the list [s, s] with s.ID = 0 raises ArgumentException | one entry per signature object | not executed | `GridBuild.RepeatedObject` | `GridBuild.RepeatedObjectCorrected` |
| iqdb/QueryGrid.cs:27 | the skip test `sig.ID != 0 && sig.ID < sigid` drops a new signature that carries a stale non-zero ID | three distinct signatures with IDs 0, 0, 1 build a grid of two rows | every distinct signature is entered | not executed | `GridBuild.StaleId` | `GridBuild.StaleIdCorrected` |
| iqdb_batch_query/Program.cs:160-187 | a record that meets a full batch sends the batch off and is itself never queued, and a batch still queued at the end of the stream is never queried | one worker and records a, b, c: only a is queried | every record after the skip is queried once | not executed | `BatchQuery.DroppedSignatures` | `BatchQuery.FixedQueriesAll` |
| iqdb_batch_query/Program.cs:80-90 | the usage check asks for three arguments, but args[3] is read | the arguments `out - 4` raise IndexOutOfRangeException | the usage message for fewer than four arguments | not executed | `BatchQuery.ThreeArgumentsFail` | `BatchQuery.ReadSettingsFixed` |
| iqdb-import/Program.cs:120-134 | pending signatures are written only at line numbers divisible by 10,000, and there is no final flush | a file of one line that yields a signature writes nothing | the signatures after the last flush are written when the file ends | not executed | `ImportCsv.LastChunkLost` | `ImportCsv.ImportFixedWritesAll` |
