/**
 * The source-map builder `GenMapping`: two interned string tables, the
 * content array parallel to the sources, the jagged table of segments per
 * generated line, and the `file`/`sourceRoot` metadata.
 *
 * The state transitions are first given as functions on a value `State`
 * (the specification); the class `GenMapping` holds the six fields that the
 * source mutates and its methods are proved to perform those transitions.
 */
module GenMappings {
  import opened Wrappers
  import opened SetArray
  import opened Segments
  import opened LineStore

  /** A 1-based line and 0-based column, as accepted and returned by the public API. */
  datatype Pos = Pos(line: int, column: int)

  /** The record `addMapping` takes and `allMappings` returns. */
  datatype Mapping = Mapping(generated: Pos, source: Option<string>, original: Option<Pos>, name: Option<string>)

  /** The structural export of `decodedMap`. */
  datatype DecodedSourceMap = DecodedSourceMap(
    version: nat,
    file: Option<string>,
    names: seq<string>,
    sourceRoot: Option<string>,
    sources: seq<string>,
    sourcesContent: seq<Option<string>>,
    mappings: seq<seq<Segment>>)

  /** The export of `encodedMap`: as the decoded one, with the lines encoded to a string. */
  datatype EncodedSourceMap = EncodedSourceMap(
    version: nat,
    file: Option<string>,
    names: seq<string>,
    sourceRoot: Option<string>,
    sources: seq<string>,
    sourcesContent: seq<Option<string>>,
    mappings: string)

  /** The six fields of a `GenMapping`, as a value. */
  datatype State = State(
    names: seq<string>,
    sources: seq<string>,
    sourcesContent: seq<Option<string>>,
    mappings: seq<seq<Segment>>,
    file: Option<string>,
    sourceRoot: Option<string>)

  /** JavaScript truthiness of an optional string: present and not empty. */
  predicate Truthy(s: Option<string>)
  {
    s.Some? && s.value != ""
  }

  /** The table indices a segment holds are within the tables' sizes. */
  predicate InRange(seg: Segment, sourceCount: nat, nameCount: nat)
  {
    match seg
    case Sourceless(_) => true
    case Positioned(_, si, _, _) => si < sourceCount
    case Named(_, si, _, _, ni) => si < sourceCount && ni < nameCount
  }

  predicate LinesSorted(mappings: seq<seq<Segment>>)
  {
    forall i :: 0 <= i < |mappings| ==> Sorted(mappings[i])
  }

  predicate LinesInRange(mappings: seq<seq<Segment>>, sourceCount: nat, nameCount: nat)
  {
    forall i, j :: 0 <= i < |mappings| && 0 <= j < |mappings[i]| ==> InRange(mappings[i][j], sourceCount, nameCount)
  }

  /**
   * The invariant of a `GenMapping`: both tables are duplicate-free, the
   * content array runs parallel to the sources, every line is sorted and
   * every segment refers to existing table entries.
   */
  ghost predicate ValidState(st: State)
  {
    && NoDuplicates(st.sources)
    && NoDuplicates(st.names)
    && |st.sourcesContent| == |st.sources|
    && LinesSorted(st.mappings)
    && LinesInRange(st.mappings, |st.sources|, |st.names|)
  }

  /** The source table after `addSegment`: `source` interned when it is not null. */
  function SourcesAfter(st: State, source: Option<string>): (r: seq<string>)
    ensures |st.sources| <= |r|
    ensures source.Some? ==> source.value in r
    ensures |r| <= |st.sources| + 1 && (source.None? ==> r == st.sources)
    ensures source.Some? && source.value in st.sources ==> r == st.sources
    ensures source.Some? && source.value !in st.sources ==> r == st.sources + [source.value]
  {
    if source.None? then st.sources else Put(st.sources, source.value).0
  }

  /** The name table after `addSegment`: `name` interned when there is a source and the name is truthy. */
  function NamesAfter(st: State, source: Option<string>, name: Option<string>): (r: seq<string>)
    ensures |st.names| <= |r|
    ensures source.Some? && Truthy(name) ==> name.value in r
    ensures |r| <= |st.names| + 1 && (source.None? || !Truthy(name) ==> r == st.names)
    ensures source.Some? && Truthy(name) && name.value in st.names ==> r == st.names
    ensures source.Some? && Truthy(name) && name.value !in st.names ==> r == st.names + [name.value]
  {
    if source.Some? && Truthy(name) then Put(st.names, name.value).0 else st.names
  }

  /** The content array after `addSegment`: a `null` slot for a source met for the first time. */
  function ContentAfter(st: State, source: Option<string>): (r: seq<Option<string>>)
    ensures |st.sourcesContent| <= |r| <= |st.sourcesContent| + 1
    ensures |r| > |st.sourcesContent| ==> r[|st.sourcesContent|] == None
    ensures |r| == |st.sourcesContent| ==> r == st.sourcesContent
    ensures |r| > |st.sourcesContent| <==> source.Some? && Put(st.sources, source.value).1 == |st.sourcesContent|
    ensures forall k :: 0 <= k < |st.sourcesContent| ==> r[k] == st.sourcesContent[k]
  {
    if source.Some? && Put(st.sources, source.value).1 == |st.sourcesContent|
    then SetAt(st.sourcesContent, |st.sourcesContent|, None)
    else st.sourcesContent
  }

  /**
   * The segment `addSegment` builds: sourceless for a null source, otherwise
   * the interned source index with the source position, and the interned
   * name index when the name is truthy.
   */
  function AddedSegment(st: State, genColumn: int, source: Option<string>, sourceLine: Option<int>,
                        sourceColumn: Option<int>, name: Option<string>): (seg: Segment)
    requires source.Some? ==> sourceLine.Some? && sourceColumn.Some?
    ensures seg.genColumn == genColumn
    ensures seg.Sourceless? <==> source.None?
    ensures seg.Named? <==> source.Some? && Truthy(name)
    ensures InRange(seg, |SourcesAfter(st, source)|, |NamesAfter(st, source, name)|)
    ensures !seg.Sourceless? ==>
      && SourcesAfter(st, source)[seg.sourceIndex] == source.value
      && seg.sourceLine == sourceLine.value && seg.sourceColumn == sourceColumn.value
    ensures seg.Named? ==> NamesAfter(st, source, name)[seg.nameIndex] == name.value
  {
    if source.None? then Sourceless(genColumn)
    else
      var sourcesIndex := Put(st.sources, source.value).1;
      if Truthy(name)
      then Named(genColumn, sourcesIndex, sourceLine.value, sourceColumn.value, Put(st.names, name.value).1)
      else Positioned(genColumn, sourcesIndex, sourceLine.value, sourceColumn.value)
  }

  /** The line `genLine` after the segment is placed at its upper bound. */
  function LinesAfter(mappings: seq<seq<Segment>>, genLine: nat, seg: Segment): seq<seq<Segment>>
  {
    var grown := Grow(mappings, genLine);
    var line := grown[genLine];
    grown[genLine := InsertAt(line, UpperBound(line, seg), seg)]
  }

  /** The whole effect of `addSegment(map, genLine, genColumn, source, sourceLine, sourceColumn, name)`. */
  function AddSegmentSpec(st: State, genLine: nat, genColumn: int, source: Option<string>,
                          sourceLine: Option<int>, sourceColumn: Option<int>, name: Option<string>): State
    requires source.Some? ==> sourceLine.Some? && sourceColumn.Some?
  {
    var seg := AddedSegment(st, genColumn, source, sourceLine, sourceColumn, name);
    State(NamesAfter(st, source, name), SourcesAfter(st, source), ContentAfter(st, source),
          LinesAfter(st.mappings, genLine, seg), st.file, st.sourceRoot)
  }

  /**
   * JavaScript `array[i] = v` for any `i`: overwrite, or grow the array to
   * `i + 1` elements; the holes left in between read as `undefined`.
   */
  function Store(s: seq<Option<string>>, i: nat, v: Option<string>): (r: seq<Option<string>>)
    ensures |r| == if i < |s| then |s| else i + 1
    ensures r[i] == v
    ensures forall k :: 0 <= k < |s| && k != i ==> r[k] == s[k]
    ensures forall k :: |s| <= k < |r| && k != i ==> r[k] == None
  {
    if i < |s| then s[i := v] else s + seq(i - |s|, _ => None) + [v]
  }

  /** The whole effect of `setSourceContent(map, source, content)`: intern, then store the content in the slot. */
  function SetSourceContentSpec(st: State, source: string, content: Option<string>): State
  {
    var (sources, index) := Put(st.sources, source);
    st.(sources := sources, sourcesContent := Store(st.sourcesContent, index, content))
  }

  /** `addMapping`'s 0-based source line: absent when `original` is. */
  function OriginalLine(mapping: Mapping): (r: Option<int>)
    ensures r.Some? <==> mapping.original.Some?
    ensures r.Some? ==> r.value + 1 == mapping.original.value.line
  {
    if mapping.original.None? then None else Some(mapping.original.value.line - 1)
  }

  /** `addMapping`'s source column, `original?.column`. */
  function OriginalColumn(mapping: Mapping): (r: Option<int>)
    ensures r.Some? <==> mapping.original.Some?
    ensures r.Some? ==> r.value == mapping.original.value.column
  {
    if mapping.original.None? then None else Some(mapping.original.value.column)
  }

  /** JavaScript `array[i]`: the element, or `undefined` past the end. */
  function Lookup(table: seq<string>, i: nat): (r: Option<string>)
    ensures r.Some? <==> i < |table|
    ensures r.Some? ==> r.value == table[i]
  {
    if i < |table| then Some(table[i]) else None
  }

  /** The record `allMappings` makes of segment `seg` on 0-based line `i`. */
  function SegmentRecord(i: nat, seg: Segment, sources: seq<string>, names: seq<string>): (r: Mapping)
    ensures r.generated == Pos(i + 1, seg.genColumn)
    ensures seg.Sourceless? ==> r.source.None? && r.original.None? && r.name.None?
    ensures !seg.Sourceless? ==>
      && r.source == Lookup(sources, seg.sourceIndex)
      && r.original == Some(Pos(seg.sourceLine + 1, seg.sourceColumn))
    ensures r.name.Some? ==> seg.Named? && r.name == Lookup(names, seg.nameIndex)
    ensures seg.Named? && seg.nameIndex < |names| ==> r.name == Some(names[seg.nameIndex])
  {
    var generated := Pos(i + 1, seg.genColumn);
    match seg
    case Sourceless(_) => Mapping(generated, None, None, None)
    case Positioned(_, si, sl, sc) => Mapping(generated, Lookup(sources, si), Some(Pos(sl + 1, sc)), None)
    case Named(_, si, sl, sc, ni) => Mapping(generated, Lookup(sources, si), Some(Pos(sl + 1, sc)), Lookup(names, ni))
  }

  /** The records of line `i`, in stored order. */
  function LineRecords(i: nat, line: seq<Segment>, sources: seq<string>, names: seq<string>): (r: seq<Mapping>)
    ensures |r| == |line|
    ensures forall j :: 0 <= j < |line| ==> r[j] == SegmentRecord(i, line[j], sources, names)
  {
    seq(|line|, j requires 0 <= j < |line| => SegmentRecord(i, line[j], sources, names))
  }

  /** The records of every line, line after line. */
  function Records(mappings: seq<seq<Segment>>, sources: seq<string>, names: seq<string>): seq<Mapping>
  {
    if mappings == [] then []
    else
      var n := |mappings| - 1;
      Records(mappings[..n], sources, names) + LineRecords(n, mappings[n], sources, names)
  }

  /** The number of segments stored in all lines. */
  function SegmentCount(mappings: seq<seq<Segment>>): nat
  {
    if mappings == [] then 0 else SegmentCount(mappings[..|mappings| - 1]) + |mappings[|mappings| - 1]|
  }

  /** A decoded map that honours the invariants of the table that produced it. */
  ghost predicate WellFormed(d: DecodedSourceMap)
  {
    && d.version == 3
    && (d.sourceRoot.Some? ==> d.sourceRoot.value != "")
    && NoDuplicates(d.sources)
    && NoDuplicates(d.names)
    && |d.sourcesContent| == |d.sources|
    && LinesSorted(d.mappings)
    && LinesInRange(d.mappings, |d.sources|, |d.names|)
  }

  /** Provides the state to generate a source map. */
  class GenMapping {
    var names: seq<string>
    var sources: seq<string>
    var sourcesContent: seq<Option<string>>
    var mappings: seq<seq<Segment>>
    var file: Option<string>
    var sourceRoot: Option<string>

    function Snapshot(): State
      reads this
    {
      State(names, sources, sourcesContent, mappings, file, sourceRoot)
    }

    ghost predicate Valid()
      reads this
    {
      ValidState(Snapshot())
    }

    constructor (file: Option<string>, sourceRoot: Option<string>)
      ensures Valid()
      ensures Snapshot() == State([], [], [], [], file, sourceRoot)
    {
      this.names := [];
      this.sources := [];
      this.sourcesContent := [];
      this.mappings := [];
      this.file := file;
      this.sourceRoot := sourceRoot;
    }

    /**
     * `addSegment`: materialise line `genLine`, build the segment (interning
     * the source and a truthy name), give a new source a `null` content slot
     * and insert the segment at its upper bound.
     */
    method AddSegment(genLine: nat, genColumn: int, source: Option<string>, sourceLine: Option<int>,
                      sourceColumn: Option<int>, name: Option<string>)
      requires source.Some? ==> sourceLine.Some? && sourceColumn.Some?
      modifies this
      ensures Snapshot() == AddSegmentSpec(old(Snapshot()), genLine, genColumn, source, sourceLine, sourceColumn, name)
      ensures old(Valid()) ==> Valid()
    {
      ghost var before := Snapshot();
      var grown, line := GetLine(mappings, genLine);
      if source.None? {
        var seg := Sourceless(genColumn);
        line := Place(line, seg);
        mappings := grown[genLine := line];
        assert mappings == LinesAfter(before.mappings, genLine, seg);
        assert Snapshot() == AddSegmentSpec(before, genLine, genColumn, source, sourceLine, sourceColumn, name);
        AddSegmentKeepsValid(before, genLine, genColumn, source, sourceLine, sourceColumn, name);
        return;
      }

      var putSource := Put(sources, source.value);
      var sourcesIndex := putSource.1;
      var seg, newNames;
      if name.Some? && name.value != "" {
        var putName := Put(names, name.value);
        newNames := putName.0;
        seg := Named(genColumn, sourcesIndex, sourceLine.value, sourceColumn.value, putName.1);
      } else {
        newNames := names;
        seg := Positioned(genColumn, sourcesIndex, sourceLine.value, sourceColumn.value);
      }
      assert seg == AddedSegment(before, genColumn, source, sourceLine, sourceColumn, name);

      var newContent := sourcesContent;
      if sourcesIndex == |sourcesContent| {
        newContent := SetAt(sourcesContent, sourcesIndex, None);
      }
      line := Place(line, seg);
      sources, names, sourcesContent, mappings := putSource.0, newNames, newContent, grown[genLine := line];
      assert mappings == LinesAfter(before.mappings, genLine, seg);
      assert Snapshot() == AddSegmentSpec(before, genLine, genColumn, source, sourceLine, sourceColumn, name);
      AddSegmentKeepsValid(before, genLine, genColumn, source, sourceLine, sourceColumn, name);
    }

    /** `addMapping`: `addSegment` with the 1-based lines of the record made 0-based. */
    method AddMapping(mapping: Mapping)
      requires mapping.generated.line >= 1
      requires mapping.source.Some? ==> mapping.original.Some?
      modifies this
      ensures Snapshot() == AddSegmentSpec(old(Snapshot()), mapping.generated.line - 1, mapping.generated.column,
                                           mapping.source, OriginalLine(mapping), OriginalColumn(mapping), mapping.name)
      ensures old(Valid()) ==> Valid()
    {
      AddSegment(mapping.generated.line - 1, mapping.generated.column, mapping.source,
                 OriginalLine(mapping), OriginalColumn(mapping), mapping.name);
    }

    /** `setSourceContent`: intern `source`, then store `content` in its slot. */
    method SetSourceContent(source: string, content: Option<string>)
      modifies this
      ensures Snapshot() == SetSourceContentSpec(old(Snapshot()), source, content)
      ensures old(Valid()) ==> Valid()
    {
      ghost var before := Snapshot();
      var putSource := Put(sources, source);
      sources := putSource.0;
      sourcesContent := Store(sourcesContent, putSource.1, content);
      if ValidState(before) {
        SetSourceContentPreservesValid(before, source, content);
      }
    }

    /**
     * `decodedMap`: version 3, the metadata (a falsy `sourceRoot` dropped)
     * and the current tables and lines, in their stored order.
     */
    function DecodedMap(): (r: DecodedSourceMap)
      reads this
      ensures r.version == 3 && r.file == file
      ensures r.sourceRoot == if Truthy(sourceRoot) then sourceRoot else None
      ensures r.sources == sources && r.names == names && r.sourcesContent == sourcesContent
      ensures r.mappings == mappings
      ensures Valid() ==> WellFormed(r)
    {
      DecodedSourceMap(3, file, names, if sourceRoot.None? || sourceRoot.value == "" then None else sourceRoot,
                       sources, sourcesContent, mappings)
    }

    /** `encodedMap`: the decoded map with its lines passed through the codec's `encode`. */
    function EncodedMap(encode: seq<seq<Segment>> -> string): (r: EncodedSourceMap)
      reads this
      ensures r.version == 3 && r.file == file
      ensures r.sourceRoot == if Truthy(sourceRoot) then sourceRoot else None
      ensures r.sources == sources && r.names == names && r.sourcesContent == sourcesContent
      ensures r.mappings == encode(mappings)
      ensures Valid() ==> NoDuplicates(r.sources) && NoDuplicates(r.names) && |r.sourcesContent| == |r.sources|
    {
      var decoded := DecodedMap();
      EncodedSourceMap(decoded.version, decoded.file, decoded.names, decoded.sourceRoot, decoded.sources,
                       decoded.sourcesContent, encode(decoded.mappings))
    }

    /** `allMappings`: one record per stored segment, line by line, in stored order. */
    method AllMappings() returns (out: seq<Mapping>)
      ensures out == Records(mappings, sources, names)
      ensures |out| == SegmentCount(mappings)
    {
      out := [];
      var i := 0;
      while i < |mappings|
        invariant 0 <= i <= |mappings|
        invariant out == Records(mappings[..i], sources, names)
      {
        var line := mappings[i];
        var j := 0;
        while j < |line|
          invariant 0 <= j <= |line|
          invariant out == Records(mappings[..i], sources, names) + LineRecords(i, line[..j], sources, names)
        {
          var seg := line[j];
          var generated := Pos(i + 1, seg.genColumn);
          var source: Option<string> := None;
          var original: Option<Pos> := None;
          var name: Option<string> := None;
          if !seg.Sourceless? {
            source := Lookup(sources, seg.sourceIndex);
            original := Some(Pos(seg.sourceLine + 1, seg.sourceColumn));
            if seg.Named? {
              name := Lookup(names, seg.nameIndex);
            }
          }
          out := out + [Mapping(generated, source, original, name)];
          assert line[..j + 1] == line[..j] + [seg];
          j := j + 1;
        }
        assert line[..j] == line;
        assert mappings[..i + 1][..i] == mappings[..i];
        i := i + 1;
      }
      assert mappings[..i] == mappings;
      RecordsLength(mappings, sources, names);
    }
  }

  /** `addSegment` keeps the invariant. */
  lemma AddSegmentPreservesValid(st: State, genLine: nat, genColumn: int, source: Option<string>,
                                 sourceLine: Option<int>, sourceColumn: Option<int>, name: Option<string>)
    requires ValidState(st)
    requires source.Some? ==> sourceLine.Some? && sourceColumn.Some?
    ensures ValidState(AddSegmentSpec(st, genLine, genColumn, source, sourceLine, sourceColumn, name))
  {
    var seg := AddedSegment(st, genColumn, source, sourceLine, sourceColumn, name);
    var st' := AddSegmentSpec(st, genLine, genColumn, source, sourceLine, sourceColumn, name);
    var grown := Grow(st.mappings, genLine);
    var line := grown[genLine];
    assert |st.mappings| <= |grown| && forall i :: 0 <= i < |st.mappings| ==> grown[i] == st.mappings[i];
    InsertKeepsSorted(line, seg);
    assert |st.sources| <= |st'.sources| && |st.names| <= |st'.names|;
    forall i, j | 0 <= i < |st'.mappings| && 0 <= j < |st'.mappings[i]|
      ensures InRange(st'.mappings[i][j], |st'.sources|, |st'.names|)
    {
      if i == genLine {
        var k := UpperBound(line, seg);
        if j < k {
          assert st'.mappings[i][j] == line[j];
        } else if j > k {
          assert st'.mappings[i][j] == line[j - 1];
        }
      }
    }
  }

  /**
   * `AddSegmentPreservesValid` for any starting state: the step keeps the
   * invariant when it held. `AddSegment` has no validity precondition, and
   * this form lets it state `old(Valid()) ==> Valid()` with one closing call
   * on each branch rather than a ghost case split on validity.
   */
  lemma AddSegmentKeepsValid(st: State, genLine: nat, genColumn: int, source: Option<string>,
                             sourceLine: Option<int>, sourceColumn: Option<int>, name: Option<string>)
    requires source.Some? ==> sourceLine.Some? && sourceColumn.Some?
    ensures ValidState(st) ==> ValidState(AddSegmentSpec(st, genLine, genColumn, source, sourceLine, sourceColumn, name))
  {
    if ValidState(st) {
      AddSegmentPreservesValid(st, genLine, genColumn, source, sourceLine, sourceColumn, name);
    }
  }

  /** `setSourceContent` keeps the invariant. */
  lemma SetSourceContentPreservesValid(st: State, source: string, content: Option<string>)
    requires ValidState(st)
    ensures ValidState(SetSourceContentSpec(st, source, content))
  {
    var st' := SetSourceContentSpec(st, source, content);
    assert |st.sources| <= |st'.sources|;
    assert LinesInRange(st'.mappings, |st'.sources|, |st'.names|);
  }

  lemma {:induction false} RecordsLength(mappings: seq<seq<Segment>>, sources: seq<string>, names: seq<string>)
    ensures |Records(mappings, sources, names)| == SegmentCount(mappings)
  {
    if mappings != [] {
      RecordsLength(mappings[..|mappings| - 1], sources, names);
    }
  }
}
