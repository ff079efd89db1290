/**
 * Properties of the `GenMapping` state transitions: what `addSegment`,
 * `addMapping` and `setSourceContent` change and keep, and how
 * `allMappings` reads back what was added.
 */
module GenMappingProperties {
  import opened Wrappers
  import opened SetArray
  import opened Segments
  import opened LineStore
  import opened GenMappings

  /** The line `genLine` before the call: the stored one, or the empty line `getLine` creates. */
  function LineBefore(mappings: seq<seq<Segment>>, genLine: nat): seq<Segment>
  {
    if genLine < |mappings| then mappings[genLine] else []
  }

  /**
   * `addSegment` grows the table so that `genLine` exists, adds exactly one
   * segment to that line at its upper bound, and leaves every other line, as
   * well as the metadata, unchanged.
   */
  lemma AddSegmentChangesOneLine(st: State, genLine: nat, genColumn: int, source: Option<string>,
                                 sourceLine: Option<int>, sourceColumn: Option<int>, name: Option<string>)
    requires source.Some? ==> sourceLine.Some? && sourceColumn.Some?
    ensures var st' := AddSegmentSpec(st, genLine, genColumn, source, sourceLine, sourceColumn, name);
            var seg := AddedSegment(st, genColumn, source, sourceLine, sourceColumn, name);
            var before := LineBefore(st.mappings, genLine);
            && |st'.mappings| == (if genLine < |st.mappings| then |st.mappings| else genLine + 1)
            && (forall i :: 0 <= i < |st.mappings| && i != genLine ==> st'.mappings[i] == st.mappings[i])
            && (forall i :: |st.mappings| <= i < |st'.mappings| && i != genLine ==> st'.mappings[i] == [])
            && |st'.mappings[genLine]| == |before| + 1
            && multiset(st'.mappings[genLine]) == multiset(before) + multiset{seg}
            && (exists k :: 0 <= k <= |before| && st'.mappings[genLine] == InsertAt(before, k, seg))
            && st'.file == st.file && st'.sourceRoot == st.sourceRoot
  {
    var seg := AddedSegment(st, genColumn, source, sourceLine, sourceColumn, name);
    var grown := Grow(st.mappings, genLine);
    var before := LineBefore(st.mappings, genLine);
    assert grown[genLine] == before by {
      if genLine < |st.mappings| { assert grown[..|st.mappings|][genLine] == st.mappings[genLine]; }
    }
    forall i | 0 <= i < |st.mappings|
      ensures grown[i] == st.mappings[i]
    {
      assert grown[..|st.mappings|][i] == st.mappings[i];
    }
    var k := UpperBound(before, seg);
    assert LinesAfter(st.mappings, genLine, seg)[genLine] == InsertAt(before, k, seg);
  }

  /** If every line is sorted, every line stays sorted after `addSegment`. */
  lemma AddSegmentKeepsLinesSorted(st: State, genLine: nat, genColumn: int, source: Option<string>,
                                   sourceLine: Option<int>, sourceColumn: Option<int>, name: Option<string>)
    requires source.Some? ==> sourceLine.Some? && sourceColumn.Some?
    requires LinesSorted(st.mappings)
    ensures LinesSorted(AddSegmentSpec(st, genLine, genColumn, source, sourceLine, sourceColumn, name).mappings)
  {
    var seg := AddedSegment(st, genColumn, source, sourceLine, sourceColumn, name);
    var grown := Grow(st.mappings, genLine);
    forall i | 0 <= i < |st.mappings|
      ensures grown[i] == st.mappings[i]
    {
      assert grown[..|st.mappings|][i] == st.mappings[i];
    }
    InsertKeepsSorted(grown[genLine], seg);
  }

  /**
   * On the line `genLine` the new segment comes after every segment at most
   * it (in particular after every equal one, which is kept) and before every
   * segment above it.
   */
  lemma AddSegmentPlacement(st: State, genLine: nat, genColumn: int, source: Option<string>,
                            sourceLine: Option<int>, sourceColumn: Option<int>, name: Option<string>)
    requires ValidState(st)
    requires source.Some? ==> sourceLine.Some? && sourceColumn.Some?
    ensures var st' := AddSegmentSpec(st, genLine, genColumn, source, sourceLine, sourceColumn, name);
            var seg := AddedSegment(st, genColumn, source, sourceLine, sourceColumn, name);
            var before := LineBefore(st.mappings, genLine);
            var k := UpperBound(before, seg);
            && st'.mappings[genLine] == InsertAt(before, k, seg)
            && (forall m :: 0 <= m < k ==> Le(before[m], seg))
            && (forall m :: k <= m < |before| ==> !Le(before[m], seg))
            && (forall m :: 0 <= m < |before| && before[m] == seg ==> m < k)
  {
    var seg := AddedSegment(st, genColumn, source, sourceLine, sourceColumn, name);
    var before := LineBefore(st.mappings, genLine);
    AddSegmentChangesOneLine(st, genLine, genColumn, source, sourceLine, sourceColumn, name);
    var grown := Grow(st.mappings, genLine);
    assert grown[genLine] == before by {
      if genLine < |st.mappings| { assert grown[..|st.mappings|][genLine] == st.mappings[genLine]; }
    }
    assert Sorted(before);
    UpperBoundOfSorted(before, seg);
    LeTotalOrder(seg, seg, seg);
  }

  /**
   * Interning by `addSegment`: a source that is already known keeps the
   * table and its index, a new one is appended; the same for a truthy name;
   * a sourceless segment or a falsy name leaves the respective table alone.
   */
  lemma AddSegmentInterning(st: State, genLine: nat, genColumn: int, source: Option<string>,
                            sourceLine: Option<int>, sourceColumn: Option<int>, name: Option<string>)
    requires ValidState(st)
    requires source.Some? ==> sourceLine.Some? && sourceColumn.Some?
    ensures var st' := AddSegmentSpec(st, genLine, genColumn, source, sourceLine, sourceColumn, name);
            var seg := AddedSegment(st, genColumn, source, sourceLine, sourceColumn, name);
            && NoDuplicates(st'.sources) && NoDuplicates(st'.names)
            && (source.None? ==> st'.sources == st.sources && st'.names == st.names)
            && (source.Some? && source.value in st.sources ==>
                  st'.sources == st.sources && st.sources[seg.sourceIndex] == source.value)
            && (source.Some? && source.value !in st.sources ==>
                  st'.sources == st.sources + [source.value] && seg.sourceIndex == |st.sources|)
            && (!Truthy(name) ==> st'.names == st.names)
            && (seg.Named? && name.value in st.names ==> st'.names == st.names && st.names[seg.nameIndex] == name.value)
            && (seg.Named? && name.value !in st.names ==> st'.names == st.names + [name.value] && seg.nameIndex == |st.names|)
  {
  }

  /**
   * The content array stays parallel to the sources: a source met for the
   * first time gets a `null` slot, and an already known source's slot is
   * not touched by `addSegment`.
   */
  lemma AddSegmentContent(st: State, genLine: nat, genColumn: int, source: Option<string>,
                          sourceLine: Option<int>, sourceColumn: Option<int>, name: Option<string>)
    requires ValidState(st)
    requires source.Some? ==> sourceLine.Some? && sourceColumn.Some?
    ensures var st' := AddSegmentSpec(st, genLine, genColumn, source, sourceLine, sourceColumn, name);
            && |st'.sourcesContent| == |st'.sources|
            && (source.None? || source.value in st.sources ==> st'.sourcesContent == st.sourcesContent)
            && (source.Some? && source.value !in st.sources ==> st'.sourcesContent == st.sourcesContent + [None])
  {
  }

  /**
   * `setSourceContent` overwrites the slot of a known source and changes
   * nothing else; for an unknown source it appends the source together with
   * its content.
   */
  lemma SetSourceContentEffect(st: State, source: string, content: Option<string>)
    requires ValidState(st)
    ensures var st' := SetSourceContentSpec(st, source, content);
            && ValidState(st')
            && st'.names == st.names && st'.mappings == st.mappings
            && st'.file == st.file && st'.sourceRoot == st.sourceRoot
            && (source in st.sources ==>
                  var i := IndexOf(st.sources, source);
                  st'.sources == st.sources && st'.sourcesContent == st.sourcesContent[i := content])
            && (source !in st.sources ==>
                  st'.sources == st.sources + [source] && st'.sourcesContent == st.sourcesContent + [content])
  {
    SetSourceContentPreservesValid(st, source, content);
  }

  /** Where segment `j` of line `i` lands among all records: after every earlier line's. */
  lemma {:induction false} RecordsAt(mappings: seq<seq<Segment>>, sources: seq<string>, names: seq<string>, i: nat, j: nat)
    requires i < |mappings| && j < |mappings[i]|
    ensures SegmentCount(mappings[..i]) + j < |Records(mappings, sources, names)|
    ensures Records(mappings, sources, names)[SegmentCount(mappings[..i]) + j] == SegmentRecord(i, mappings[i][j], sources, names)
  {
    var n := |mappings| - 1;
    var init := mappings[..n];
    RecordsLength(init, sources, names);
    if i == n {
      assert mappings[..i] == init;
    } else {
      RecordsAt(init, sources, names, i, j);
      assert init[..i] == mappings[..i];
      assert init[i] == mappings[i];
    }
  }

  /** The record `allMappings` gives back for a mapping that `addMapping` stored. */
  function Normalized(mapping: Mapping): Mapping
  {
    if mapping.source.None? then Mapping(mapping.generated, None, None, None)
    else Mapping(mapping.generated, mapping.source, mapping.original, if Truthy(mapping.name) then mapping.name else None)
  }

  /** The record of the segment `addMapping` builds is the normalised mapping. */
  lemma AddedSegmentRecord(st: State, mapping: Mapping)
    requires mapping.generated.line >= 1
    requires mapping.source.Some? ==> mapping.original.Some?
    ensures var seg := AddedSegment(st, mapping.generated.column, mapping.source,
                                    OriginalLine(mapping), OriginalColumn(mapping), mapping.name);
            SegmentRecord(mapping.generated.line - 1, seg, SourcesAfter(st, mapping.source),
                          NamesAfter(st, mapping.source, mapping.name)) == Normalized(mapping)
  {
  }

  /**
   * Round trip: after `addMapping(map, mapping)`, `allMappings(map)` holds the
   * mapping with 1-based lines again, without a source position for a
   * sourceless mapping and without a falsy name.
   */
  lemma AddMappingRoundTrip(st: State, mapping: Mapping)
    requires mapping.generated.line >= 1
    requires mapping.source.Some? ==> mapping.original.Some?
    ensures var st' := AddSegmentSpec(st, mapping.generated.line - 1, mapping.generated.column, mapping.source,
                                      OriginalLine(mapping), OriginalColumn(mapping), mapping.name);
            Normalized(mapping) in Records(st'.mappings, st'.sources, st'.names)
  {
    var genLine: nat := mapping.generated.line - 1;
    var sourceLine, sourceColumn := OriginalLine(mapping), OriginalColumn(mapping);
    var st' := AddSegmentSpec(st, genLine, mapping.generated.column, mapping.source, sourceLine, sourceColumn, mapping.name);
    var seg := AddedSegment(st, mapping.generated.column, mapping.source, sourceLine, sourceColumn, mapping.name);
    AddSegmentChangesOneLine(st, genLine, mapping.generated.column, mapping.source, sourceLine, sourceColumn, mapping.name);
    var before := LineBefore(st.mappings, genLine);
    var k :| 0 <= k <= |before| && st'.mappings[genLine] == InsertAt(before, k, seg);
    AddedSegmentRecord(st, mapping);
    RecordsAt(st'.mappings, st'.sources, st'.names, genLine, k);
  }
}
