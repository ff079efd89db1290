/**
 * Concrete scenarios of the model that replay the scenarios of the repository's
 * test suite, stated on the specification functions.
 */
module GenMappingExamples {
  import opened Wrappers
  import opened SetArray
  import opened Segments
  import opened LineStore
  import opened GenMappings

  function EmptyState(): State
  {
    State([], [], [], [], None, None)
  }

  /** A positioned segment into source `sourceIndex` at original line 0, column 0. */
  function PositionedAt(genColumn: int, sourceIndex: nat): Segment
  {
    Positioned(genColumn, sourceIndex, 0, 0)
  }

  lemma IntoEmptyLine(mappings: seq<seq<Segment>>, i: nat, seg: Segment)
    requires i < |mappings| && mappings[i] == []
    ensures LinesAfter(mappings, i, seg) == mappings[i := [seg]]
  {
    assert Grow(mappings, i) == mappings;
    assert UpperBound([], seg) == 0;
    assert InsertAt([], 0, seg) == [seg];
  }

  lemma FirstLine(seg: Segment)
    ensures LinesAfter([], 0, seg) == [[seg]]
  {
    assert Grow([], 0) == [[]];
    IntoEmptyLine([[]], 0, seg);
  }

  lemma SecondLine(seg: Segment)
    ensures LinesAfter([], 1, seg) == [[], [seg]]
  {
    assert Grow([], 1) == [[], []];
    IntoEmptyLine([[], []], 1, seg);
  }

  lemma NextLine(mappings: seq<seq<Segment>>, seg: Segment)
    ensures LinesAfter(mappings, |mappings|, seg) == mappings + [[seg]]
  {
    var grown := mappings + [[]];
    assert Grow(mappings, |mappings|) == grown;
    IntoEmptyLine(grown, |mappings|, seg);
  }

  lemma AppendToLine(mappings: seq<seq<Segment>>, i: nat, seg: Segment)
    requires i < |mappings| && mappings[i] == [seg]
    ensures LinesAfter(mappings, i, seg) == mappings[i := [seg, seg]]
  {
    assert Grow(mappings, i) == mappings;
    LeTotalOrder(seg, seg, seg);
    assert UpperBound([seg], seg) == 1;
    assert InsertAt([seg], 1, seg) == [seg, seg];
  }

  lemma PrependToLine(mappings: seq<seq<Segment>>, i: nat, seg: Segment)
    requires i < |mappings| && |mappings[i]| == 1 && !Le(mappings[i][0], seg)
    ensures LinesAfter(mappings, i, seg) == mappings[i := [seg, mappings[i][0]]]
  {
    var line := mappings[i];
    assert Grow(mappings, i) == mappings;
    assert line[..0] == [];
    assert UpperBound(line, seg) == 0;
    assert InsertAt(line, 0, seg) == [seg, line[0]];
  }

  /**
   * Adding the same positioned segment twice on line 0 keeps both copies:
   * an equal segment is inserted after its equal, never discarded (the test
   * is titled "skips equivalent source segment" but expects both).
   */
  lemma EquivalentSourceSegmentsKept()
    ensures var st1 := AddSegmentSpec(EmptyState(), 0, 0, Some("input.js"), Some(0), Some(0), None);
            var st2 := AddSegmentSpec(st1, 1, 0, Some("input.js"), Some(0), Some(0), None);
            var st3 := AddSegmentSpec(st2, 0, 0, Some("input.js"), Some(0), Some(0), None);
            && st3.mappings == [[PositionedAt(0, 0), PositionedAt(0, 0)], [PositionedAt(0, 0)]]
            && st3.sources == ["input.js"] && st3.sourcesContent == [None]
  {
    var st1 := AddSegmentSpec(EmptyState(), 0, 0, Some("input.js"), Some(0), Some(0), None);
    assert st1.sources == ["input.js"];
    FirstLine(PositionedAt(0, 0));
    assert st1.mappings == [[PositionedAt(0, 0)]];
    var st2 := AddSegmentSpec(st1, 1, 0, Some("input.js"), Some(0), Some(0), None);
    assert st2.sources == ["input.js"];
    NextLine([[PositionedAt(0, 0)]], PositionedAt(0, 0));
    assert st2.mappings == [[PositionedAt(0, 0)], [PositionedAt(0, 0)]];
    var st3 := AddSegmentSpec(st2, 0, 0, Some("input.js"), Some(0), Some(0), None);
    AppendToLine([[PositionedAt(0, 0)], [PositionedAt(0, 0)]], 0, PositionedAt(0, 0));
  }

  /** A sourceless segment sorts before a positioned one at the same column. */
  lemma SourcelessBeforeSource()
    ensures var st1 := AddSegmentSpec(EmptyState(), 0, 0, Some("input.js"), Some(0), Some(0), None);
            var st2 := AddSegmentSpec(st1, 0, 0, None, None, None, None);
            st2.mappings == [[Sourceless(0), PositionedAt(0, 0)]]
  {
    var st1 := AddSegmentSpec(EmptyState(), 0, 0, Some("input.js"), Some(0), Some(0), None);
    FirstLine(PositionedAt(0, 0));
    assert st1.mappings == [[PositionedAt(0, 0)]];
    ShapeOrder(0, 0, 0, 0, 0, 0, 0, 0);
    PrependToLine([[PositionedAt(0, 0)]], 0, Sourceless(0));
  }

  /** A named segment at column 0 into source 0, original line 0, column 0, with name `nameIndex`. */
  function NamedAt(nameIndex: nat): Segment
  {
    Named(0, 0, 0, 0, nameIndex)
  }

  lemma NamedStep1()
    ensures AddSegmentSpec(EmptyState(), 1, 0, Some("input.js"), Some(0), Some(0), Some("foo"))
         == State(["foo"], ["input.js"], [None], [[], [NamedAt(0)]], None, None)
  {
    SecondLine(NamedAt(0));
  }

  lemma NamedStep2()
    ensures AddSegmentSpec(State(["foo"], ["input.js"], [None], [[], [NamedAt(0)]], None, None),
                           0, 0, Some("input.js"), Some(0), Some(0), Some("bar"))
         == State(["foo", "bar"], ["input.js"], [None], [[NamedAt(1)], [NamedAt(0)]], None, None)
  {
    IndexUnique(["input.js"], "input.js", 0);
    assert "bar" !in ["foo"];
    IntoEmptyLine([[], [NamedAt(0)]], 0, NamedAt(1));
  }

  lemma NamedStep3()
    ensures AddSegmentSpec(State(["foo", "bar"], ["input.js"], [None], [[NamedAt(1)], [NamedAt(0)]], None, None),
                           0, 0, Some("input.js"), Some(0), Some(0), Some("foo"))
         == State(["foo", "bar"], ["input.js"], [None], [[NamedAt(0), NamedAt(1)], [NamedAt(0)]], None, None)
  {
    var st := State(["foo", "bar"], ["input.js"], [None], [[NamedAt(1)], [NamedAt(0)]], None, None);
    IndexUnique(st.sources, "input.js", 0);
    IndexUnique(st.names, "foo", 0);
    assert AddedSegment(st, 0, Some("input.js"), Some(0), Some(0), Some("foo")) == NamedAt(0);
    assert !Le(NamedAt(1), NamedAt(0)) by {
      CompareAgreesWithLe(NamedAt(1), NamedAt(0));
    }
    PrependToLine(st.mappings, 0, NamedAt(0));
  }

  /** Name indices break ties: `bar` (index 1) sorts after `foo` (index 0). */
  lemma SortsNameIndex()
    ensures var st1 := AddSegmentSpec(EmptyState(), 1, 0, Some("input.js"), Some(0), Some(0), Some("foo"));
            var st2 := AddSegmentSpec(st1, 0, 0, Some("input.js"), Some(0), Some(0), Some("bar"));
            var st3 := AddSegmentSpec(st2, 0, 0, Some("input.js"), Some(0), Some(0), Some("foo"));
            && st3.names == ["foo", "bar"]
            && st3.mappings == [[NamedAt(0), NamedAt(1)], [NamedAt(0)]]
  {
    NamedStep1();
    NamedStep2();
    NamedStep3();
  }

  /** `addSegment` with a source not yet in the table appends it with a `null` content slot. */
  lemma AddFreshSource(st: State, genLine: nat, source: string)
    requires |st.sourcesContent| == |st.sources| && source !in st.sources
    ensures var st' := AddSegmentSpec(st, genLine, 0, Some(source), Some(0), Some(0), None);
            st'.sources == st.sources + [source] && st'.sourcesContent == st.sourcesContent + [None]
  {
  }

  /** `setSourceContent` for a known source at index `i` overwrites slot `i`. */
  lemma SetKnownContent(st: State, i: nat, content: Option<string>)
    requires |st.sourcesContent| == |st.sources| && NoDuplicates(st.sources) && i < |st.sources|
    ensures var st' := SetSourceContentSpec(st, st.sources[i], content);
            st'.sources == st.sources && st'.sourcesContent == st.sourcesContent[i := content]
  {
    IndexUnique(st.sources, st.sources[i], i);
  }

  /**
   * Content set after three sources were added lands in the right slots;
   * the source that was never given content keeps `null`.
   */
  lemma ContentInSync()
    ensures var st1 := AddSegmentSpec(EmptyState(), 0, 0, Some("input.js"), Some(0), Some(0), None);
            var st2 := AddSegmentSpec(st1, 1, 0, Some("foo.js"), Some(0), Some(0), None);
            var st3 := AddSegmentSpec(st2, 2, 0, Some("bar.js"), Some(0), Some(0), None);
            var st4 := SetSourceContentSpec(st3, "bar.js", Some("bar"));
            var st5 := SetSourceContentSpec(st4, "input.js", Some("input"));
            && st5.sources == ["input.js", "foo.js", "bar.js"]
            && st5.sourcesContent == [Some("input"), None, Some("bar")]
  {
    var st1 := AddSegmentSpec(EmptyState(), 0, 0, Some("input.js"), Some(0), Some(0), None);
    AddFreshSource(EmptyState(), 0, "input.js");
    var st2 := AddSegmentSpec(st1, 1, 0, Some("foo.js"), Some(0), Some(0), None);
    AddFreshSource(st1, 1, "foo.js");
    var st3 := AddSegmentSpec(st2, 2, 0, Some("bar.js"), Some(0), Some(0), None);
    AddFreshSource(st2, 2, "bar.js");
    assert st3.sources == ["input.js", "foo.js", "bar.js"] && st3.sourcesContent == [None, None, None];
    var st4 := SetSourceContentSpec(st3, "bar.js", Some("bar"));
    SetKnownContent(st3, 2, Some("bar"));
    SetKnownContent(st4, 0, Some("input"));
  }

  /** `setSourceContent` on an empty map creates the source together with its content. */
  lemma ContentCreatesSource()
    ensures var st := SetSourceContentSpec(EmptyState(), "input.js", Some("input"));
            st.sources == ["input.js"] && st.sourcesContent == [Some("input")]
  {
  }
}
