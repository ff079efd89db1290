# gen-mapping: a verified model of the source-map builder

This project models `GenMapping`, the incremental builder of Source Map
Revision 3 documents in `src/gen-mapping.ts`, and proves properties of the
model in Dafny.

A `GenMapping` holds two interned string tables (`sources` and `names`), a
`sourcesContent` array parallel to `sources`, a jagged table `mappings` with
one list of segments per 0-based generated line, and `file`/`sourceRoot`
metadata. A segment is sourceless `[genColumn]`, positioned
`[genColumn, sourceIndex, sourceLine, sourceColumn]` or named
`[genColumn, sourceIndex, sourceLine, sourceColumn, nameIndex]`; here that is the
datatype `Segments.Segment` with one constructor per shape.

Layout, one module per component:

- `wrappers.dfy` (`Wrappers`): `Option`, standing for JavaScript's `null`/`undefined`.
- `set_array.dfy` (`SetArray`): the interned string table `SetArray`/`put`. The state is a
  duplicate-free `seq<string>`. `Put` returns the index of a known string, or appends the
  string and returns the old length.
- `segment.dfy` (`Segments`): the segment datatype and `compareNum`/`compare`. The
  reference ordering `Le` is the lexicographic order on the key
  `[genColumn, length, sourceIndex, sourceLine, sourceColumn, nameIndex]`. It is proved
  to be a total order and to agree with the source's two-level comparison.
- `line_store.dfy` (`LineStore`): `getLine`, `getColumnIndex` and `insert` as methods
  with their loops. Each method is proved against a specification function (`Grow`,
  `UpperBound`, `InsertAt`).
- `gen_mapping.dfy` (`GenMappings`): the class `GenMapping` with the six fields. Its
  methods `AddSegment`, `AddMapping`, `SetSourceContent` and `AllMappings` are proved
  to perform the state transitions given as functions on the value `State`
  (`AddSegmentSpec`, `SetSourceContentSpec`, `Records`). The functions `DecodedMap`
  and `EncodedMap` give the two exports. The class invariant `Valid` says: both tables
  are duplicate-free, `sourcesContent` has the length of `sources`, every line is
  sorted, and every segment's indices are in range.
- `gen_mapping_properties.dfy` (`GenMappingProperties`): lemmas about the transitions.
- `gen_mapping_examples.dfy` (`GenMappingExamples`): concrete scenarios that replay
  scenarios of `test/gen-mapping.test.js`.

Behaviour of this version of the code worth knowing:

- `setSourceContent` calls `put`, so an unknown source is created together with its
  content. It is not a no-op.
- Segments at the same generated column are ordered by `compare`: length, then
  sourceIndex, srcLine, srcCol, nameIndex. They are not ordered by insertion alone.
- An equal segment is inserted after its equals and is never dropped. The test titled
  "skips equivalent source segment" (test/gen-mapping.test.js:269-283) in fact
  expects both copies (`GenMappingExamples.EquivalentSourceSegmentsKept`).

## Model

| member | source | states |
|---|---|---|
| SetArray.Put | src/gen-mapping.ts:116-118 | a known string keeps the table and returns its index; an unknown one is appended at the old length; the result indexes the string; no duplicates are introduced |
| SetArray.IndexOf | src/gen-mapping.ts:116 | the lookup `put` performs for a known string: a position holding the string, with no earlier occurrence |
| SetArray.IndexUnique | src/gen-mapping.ts:116-118 | in a duplicate-free table `put` of a present string returns its only position and leaves the table alone |
| SetArray.PutIdempotent | src/gen-mapping.ts:116-118 | putting the same string twice yields the same table and the same index |
| SetArray.PutKeepsIndices | src/gen-mapping.ts:116-118 | interning a string never moves the strings already interned |
| Segments.Length | src/gen-mapping.ts:230 | the tuple length is 1, 4 or 5 exactly for sourceless, positioned and named segments |
| Segments.CompareNum | src/gen-mapping.ts:247-249 | the sign of `a - b` is the order of `a` and `b` |
| Segments.Compare | src/gen-mapping.ts:229-245 | segments of different shapes are ordered by their tuple length and never compare equal; at an equal genColumn its sign decides `Le` (`CompareAgreesWithLe`) and it is zero exactly for equal segments (`CompareZeroIsEquality`) |
| Segments.CompareAgreesWithLe | src/gen-mapping.ts:214-245 | genColumn first, then `compare <= 0`, is exactly the lexicographic order on (genColumn, length, sourceIdx, srcLine, srcCol, nameIdx) |
| Segments.CompareZeroIsEquality | src/gen-mapping.ts:229-245 | at equal genColumn, `compare` returns 0 iff the segments are equal |
| Segments.ShapeOrder | src/gen-mapping.ts:230-231 | at an equal column: sourceless < positioned < named |
| Segments.LeTotalOrder | src/gen-mapping.ts:229-245 | the line order is reflexive, transitive, total and antisymmetric |
| Segments.LexLeTransitive | src/gen-mapping.ts:229-245 | the lexicographic comparison is transitive |
| Segments.LexLeTotal | src/gen-mapping.ts:229-245 | the lexicographic comparison is total |
| Segments.LexLeAntisymmetric | src/gen-mapping.ts:229-245 | the lexicographic comparison is antisymmetric |
| LineStore.SetAt | src/gen-mapping.ts:254-256 | JavaScript `array[i] = v` with `i <= length`: overwrite slot i, or append at the end; used for the shifts and the store of `insert`, for `mappings[i] = []` at line 209 and for `sourcesContent[sourcesIndex] = null` at line 122 |
| LineStore.Grow | src/gen-mapping.ts:207-212 | lines before are kept, empty lines are appended until `index` exists, and nothing more |
| LineStore.GetLine | src/gen-mapping.ts:207-212 | the loop extends the table exactly to `Grow` and returns the line at `index` |
| LineStore.UpperBound | src/gen-mapping.ts:214-227 | k in 0..\|line\|; everything from k on is above seg; the element before k is at most seg |
| LineStore.UpperBoundUnique | src/gen-mapping.ts:214-227 | those two guarantees determine the upper bound |
| LineStore.UpperBoundOfSorted | src/gen-mapping.ts:214-227 | on a sorted line every element before the upper bound is at most seg |
| LineStore.GetColumnIndex | src/gen-mapping.ts:214-227 | the backward scan returns the upper bound in 0..\|line\| (never -1); later elements are above seg; on a sorted line earlier ones are at most seg |
| LineStore.InsertAt | src/gen-mapping.ts:251-257 | one more element; the prefix is kept, the value is at k, the tail is shifted by one; the multiset gains exactly the value |
| LineStore.Insert | src/gen-mapping.ts:251-257 | index -1 leaves the array unchanged; otherwise the right-shift loop yields `InsertAt` |
| LineStore.Place | src/gen-mapping.ts:120-123 | `getColumnIndex` followed by `insert` puts the segment at its upper bound (`InsertAt(line, UpperBound(line, seg), seg)`); the sourceless branch at lines 107-108 ends the same way |
| LineStore.InsertKeepsSorted | src/gen-mapping.ts:121-123 | inserting at the upper bound keeps a sorted line sorted |
| GenMappings.SourcesAfter | src/gen-mapping.ts:116 | a null source or a known source leaves the table unchanged; an unknown source is appended at the end; afterwards the table holds the source |
| GenMappings.NamesAfter | src/gen-mapping.ts:117-118 | without a source, with a falsy name or with a known name the table is unchanged; an unknown truthy name is appended at the end |
| GenMappings.ContentAfter | src/gen-mapping.ts:122 | the array grows by one `null` slot exactly when `put` returned the old length; every existing slot is kept, and otherwise nothing changes |
| GenMappings.AddedSegment | src/gen-mapping.ts:106-119 | a null source gives a sourceless segment; a truthy name gives a named one, otherwise positioned; the indices point at the source and name in the updated tables |
| GenMappings.GenMapping.constructor | src/gen-mapping.ts:84-94 | empty tables and lines, the given file and sourceRoot, invariant established |
| GenMappings.GenMapping.AddSegment | src/gen-mapping.ts:97-124 | on any state, the new state is `AddSegmentSpec` of the old one; a valid map stays valid |
| GenMappings.GenMapping.AddMapping | src/gen-mapping.ts:126-137 | the same effect as `addSegment` with generated.line-1, original.line-1, and no source position when `original` is absent; a valid map stays valid |
| GenMappings.Store | src/gen-mapping.ts:141 | a JavaScript index assignment: the slot holds the value, other slots keep theirs, and a write past the end grows the array with `undefined` holes |
| GenMappings.GenMapping.SetSourceContent | src/gen-mapping.ts:139-142 | on any state, the new state is `SetSourceContentSpec` of the old one (put, then store into the slot); a valid map stays valid |
| GenMappings.GenMapping.DecodedMap | src/gen-mapping.ts:144-163 | version 3, file unchanged, a falsy sourceRoot becomes absent, the tables and lines as stored; a valid map gives a well-formed document |
| GenMappings.GenMapping.EncodedMap | src/gen-mapping.ts:165-171 | version 3, the same metadata and tables as the decoded map, the lines passed through `encode`; a valid map gives duplicate-free tables and a parallel content array |
| GenMappings.GenMapping.AllMappings | src/gen-mapping.ts:173-199 | the nested loops produce `Records`: one record per stored segment, line after line |
| GenMappings.OriginalLine | src/gen-mapping.ts:133 | absent exactly when `original` is absent; otherwise the 0-based form of the 1-based `original.line` |
| GenMappings.OriginalColumn | src/gen-mapping.ts:134 | `original?.column`: absent exactly when `original` is absent, otherwise its column |
| GenMappings.Lookup | src/gen-mapping.ts:188-191 | a JavaScript array read: the element for an index in range, `undefined` exactly past the end |
| GenMappings.SegmentRecord | src/gen-mapping.ts:180-194 | generated position (i + 1, genColumn); a sourceless segment gives no source, original or name; otherwise the looked-up source and the 1-based original position; a name only for a named segment, looked up in the names table |
| GenMappings.LineRecords | src/gen-mapping.ts:179-195 | one record per segment of the line, in stored order |
| GenMappings.AddSegmentPreservesValid | src/gen-mapping.ts:97-124 | `addSegment` keeps no-duplicates, the parallel content array, sorted lines and in-range indices |
| GenMappings.AddSegmentKeepsValid | src/gen-mapping.ts:97-124 | `AddSegmentPreservesValid` stated as an implication for any starting state, the form `AddSegment`'s `old(Valid()) ==> Valid()` uses |
| GenMappings.SetSourceContentPreservesValid | src/gen-mapping.ts:139-142 | `setSourceContent` keeps the same invariant |
| GenMappings.RecordsLength | src/gen-mapping.ts:173-199 | `allMappings` returns exactly as many records as there are stored segments |
| GenMappingProperties.AddSegmentChangesOneLine | src/gen-mapping.ts:105-123 | lines grow to include genLine; other existing lines are unchanged, new ones empty; line genLine gains exactly one segment, inserted at some position; metadata unchanged |
| GenMappingProperties.AddSegmentKeepsLinesSorted | src/gen-mapping.ts:105-123 | if every line is sorted before, every line is sorted after |
| GenMappingProperties.AddSegmentPlacement | src/gen-mapping.ts:108-123 | the segment goes after every element at most it (after all its equals, which are kept) and before every element above it |
| GenMappingProperties.AddSegmentInterning | src/gen-mapping.ts:106-119 | a known source or name keeps its table and index; an unknown one is appended; a null source or a falsy name leaves the table alone |
| GenMappingProperties.AddSegmentContent | src/gen-mapping.ts:122 | a new source gets a null content slot; a known source's slot is untouched; lengths stay equal |
| GenMappingProperties.SetSourceContentEffect | src/gen-mapping.ts:139-142 | a known source has its slot overwritten and nothing else changes; an unknown source is appended with its content |
| GenMappingProperties.RecordsAt | src/gen-mapping.ts:177-196 | segment j of line i is the record at position (segments of earlier lines) + j |
| GenMappingProperties.AddedSegmentRecord | src/gen-mapping.ts:182-192 | the record of the built segment has generated.line, the source, original with 1-based line, and the truthy name |
| GenMappingProperties.AddMappingRoundTrip | src/gen-mapping.ts:126-199 | after `addMapping(m)`, `allMappings` contains `m` (without a source position when sourceless, without a falsy name) |
| GenMappingExamples.EquivalentSourceSegmentsKept | test/gen-mapping.test.js:269-283 | two equal positioned segments on line 0 are both kept |
| GenMappingExamples.SourcelessBeforeSource | test/gen-mapping.test.js:227-234 | a sourceless segment sorts before a positioned one at the same column |
| GenMappingExamples.SortsNameIndex | test/gen-mapping.test.js:211-225 | name index breaks ties |
| GenMappingExamples.ContentInSync | test/gen-mapping.test.js:301-312 | content set after three sources gives ['input', null, 'bar'] |
| GenMappingExamples.ContentCreatesSource | test/gen-mapping.test.js:40-45 | `setSourceContent` on an empty map creates the source with its content |

## Left out

- `applySourceMap`, the information-preserving `maybeAddSegment`/`maybeAddMapping`, ingestion from an existing map, and trimming of trailing empty lines: none of them is in this version of `src/gen-mapping.ts`.
- `encode` (Source Map Revision 3 VLQ/base64 codec, `@jridgewell/sourcemap-codec`): foreign code; `EncodedMap` takes it as a function parameter.
- The internals of `SetArray`/`put` (`@jridgewell/set-array`): foreign code, modelled by its contract only.
- The no-op `assert<T>` (src/gen-mapping.ts:203-205): it becomes the precondition that the source line and column are present whenever a source is.
- The TypeScript overload declarations and the `static {}` assignment pattern (src/gen-mapping.ts:14-78, 96): packaging only; the operations are class members.
- GenMappings.GenMapping.AddSegment: `genLine` is a `nat`. In the source a negative line makes `getLine` (src/gen-mapping.ts:207-212) return `undefined`, and `getColumnIndex` then throws a TypeError reading `line.length` (line 215). A call without a source throws before changing anything. A call with a source also throws at line 215, after the `put` calls of lines 116 and 118. If the source was new, it is already interned and its `null` slot (line 122) is never written, so `sources` ends one entry longer than `sourcesContent`; a known source leaves both tables as they were. A new truthy name stays interned in `names` either way. That path is not modelled.
- GenMappings.GenMapping.AddMapping: requires `generated.line >= 1` for the same reason.
- Numbers are unbounded integers: JavaScript floating point, fractional lines and `NaN` are not modelled. `compareNum`'s subtraction cannot overflow for safe integers, so integer subtraction matches it.
- `null` and `undefined` are both `None`, so `decodedMap` cannot tell a `file` of `null` from one of `undefined`.
- Aliasing: `getLine` returns the stored line array, which `insert` then mutates in place. The model returns the line as a value and writes it back. Likewise `decodedMap` returns the live arrays, so later mutations would show through in the source. The model returns values.
- The class methods do not require the invariant `Valid`; they model any state, including one whose `sourcesContent` is shorter than `sources` (then `setSourceContent` leaves holes, modelled as `None`). JavaScript does not tell a hole from `undefined` when reading, and the model does not either.
- benchmark/index.mjs, rollup.config.js and test/utils.js: timing, build configuration and a test helper, with no core logic.
