/**
 * The jagged table of generated lines and the helpers that `addSegment`
 * uses on it: `getLine`, `getColumnIndex` and `insert`. JavaScript arrays
 * grow when an element is assigned at their length; `SetAt` models that.
 */
module LineStore {
  import opened Segments

  /** JavaScript `array[i] = v` for `i <= array.length`: overwrite, or append at the end. */
  function SetAt<T>(s: seq<T>, i: nat, v: T): (r: seq<T>)
    requires i <= |s|
    ensures |r| == if i == |s| then |s| + 1 else |s|
    ensures r[i] == v
    ensures forall k :: 0 <= k < |s| && k != i ==> r[k] == s[k]
  {
    if i == |s| then s + [v] else s[i := v]
  }

  /** The table after `getLine(mappings, index)`: empty lines appended until `index` exists. */
  function Grow(mappings: seq<seq<Segment>>, index: nat): (r: seq<seq<Segment>>)
    ensures |r| == if index < |mappings| then |mappings| else index + 1
    ensures r[..|mappings|] == mappings
    ensures forall i :: |mappings| <= i < |r| ==> r[i] == []
  {
    if index < |mappings| then mappings
    else mappings + seq(index + 1 - |mappings|, _ => [])
  }

  /** `getLine`: extends the table in a loop and returns the line at `index`. */
  method GetLine(mappings: seq<seq<Segment>>, index: nat) returns (grown: seq<seq<Segment>>, line: seq<Segment>)
    ensures grown == Grow(mappings, index)
    ensures line == grown[index]
  {
    grown := mappings;
    var i := |mappings|;
    while i <= index
      invariant |mappings| <= i <= if index < |mappings| then |mappings| else index + 1
      invariant |grown| == i
      invariant grown[..|mappings|] == mappings
      invariant forall k :: |mappings| <= k < i ==> grown[k] == []
    {
      grown := SetAt(grown, i, []);
      i := i + 1;
    }
    line := grown[index];
  }

  /**
   * The upper-bound position of `seg` in `line`, found from the end: the
   * position just after the last segment that is at most `seg`, or 0 if
   * every segment is above it.
   */
  function UpperBound(line: seq<Segment>, seg: Segment): (k: nat)
    ensures k <= |line|
    ensures forall m :: k <= m < |line| ==> !Le(line[m], seg)
    ensures k > 0 ==> Le(line[k - 1], seg)
  {
    if line == [] then 0
    else if Le(line[|line| - 1], seg) then |line|
    else UpperBound(line[..|line| - 1], seg)
  }

  /** The two guarantees of `UpperBound` determine it. */
  lemma {:induction false} UpperBoundUnique(line: seq<Segment>, seg: Segment, k: nat)
    requires k <= |line|
    requires forall m :: k <= m < |line| ==> !Le(line[m], seg)
    requires k > 0 ==> Le(line[k - 1], seg)
    ensures k == UpperBound(line, seg)
  {
    if line != [] && k < |line| {
      var init := line[..|line| - 1];
      UpperBoundUnique(init, seg, k);
    }
  }

  /** On a sorted line every segment before the upper bound is at most `seg`. */
  lemma UpperBoundOfSorted(line: seq<Segment>, seg: Segment)
    requires Sorted(line)
    ensures forall m :: 0 <= m < UpperBound(line, seg) ==> Le(line[m], seg)
  {
    var k := UpperBound(line, seg);
    forall m | 0 <= m < k
      ensures Le(line[m], seg)
    {
      if m < k - 1 {
        LeTotalOrder(line[m], line[k - 1], seg);
      }
    }
  }

  /**
   * `getColumnIndex(line, column, seg)`: scans backwards from the end of the
   * line past every segment above `seg` and returns the position after the
   * first one that is not, which on a sorted line is the upper bound. A
   * segment equal to `seg` stops the scan, so `seg` goes after its equals.
   */
  method GetColumnIndex(line: seq<Segment>, column: int, seg: Segment) returns (index: int)
    requires column == seg.genColumn
    ensures 0 <= index <= |line|
    ensures index == UpperBound(line, seg)
    ensures forall m :: index <= m < |line| ==> !Le(line[m], seg)
    ensures Sorted(line) ==> forall m :: 0 <= m < index ==> Le(line[m], seg)
  {
    index := |line|;
    var i := index - 1;
    while i >= 0
      invariant i == index - 1 && 0 <= index <= |line|
      invariant forall m :: index <= m < |line| ==> !Le(line[m], seg)
      decreases index
    {
      var current := line[i];
      var col := current.genColumn;
      CompareAgreesWithLe(current, seg);
      if col < column {
        break;
      }
      if col == column {
        var cmp := Compare(current, seg);
        if cmp == 0 {
          UpperBoundUnique(line, seg, index);
          if Sorted(line) { UpperBoundOfSorted(line, seg); }
          return;
        }
        if cmp < 0 {
          break;
        }
      }
      i, index := i - 1, index - 1;
    }
    UpperBoundUnique(line, seg, index);
    if Sorted(line) { UpperBoundOfSorted(line, seg); }
  }

  /** `line` with `value` placed at position `k`, the later elements shifted right. */
  function InsertAt<T>(line: seq<T>, k: nat, value: T): (r: seq<T>)
    requires k <= |line|
    ensures |r| == |line| + 1 && r[k] == value
    ensures forall m :: 0 <= m < k ==> r[m] == line[m]
    ensures forall m :: k < m < |r| ==> r[m] == line[m - 1]
    ensures multiset(r) == multiset(line) + multiset{value}
  {
    assert line == line[..k] + line[k..];
    line[..k] + [value] + line[k..]
  }

  /**
   * `insert(array, index, value)` (here `items`): nothing on index -1, otherwise shift the
   * tail one place right, from the end down to `index`, and store the value.
   */
  method Insert<T>(items: seq<T>, index: int, value: T) returns (r: seq<T>)
    requires -1 <= index <= |items|
    ensures index == -1 ==> r == items
    ensures index >= 0 ==> r == InsertAt(items, index, value)
  {
    r := items;
    if index == -1 {
      return;
    }
    var i := |items|;
    while i > index
      invariant index <= i <= |items|
      invariant r == if i == |items| then items else items[..i + 1] + items[i..]
    {
      r := SetAt(r, i, r[i - 1]);
      i := i - 1;
    }
    r := SetAt(r, index, value);
  }

  /**
   * `insert(line, getColumnIndex(line, genColumn, seg), seg)`, the step both
   * branches of `addSegment` end with: the segment goes to its upper bound.
   */
  method Place(line: seq<Segment>, seg: Segment) returns (r: seq<Segment>)
    ensures r == InsertAt(line, UpperBound(line, seg), seg)
  {
    var index := GetColumnIndex(line, seg.genColumn, seg);
    r := Insert(line, index, seg);
  }

  /** Inserting at the upper bound keeps a sorted line sorted. */
  lemma InsertKeepsSorted(line: seq<Segment>, seg: Segment)
    requires Sorted(line)
    ensures Sorted(InsertAt(line, UpperBound(line, seg), seg))
  {
    var k := UpperBound(line, seg);
    var r := InsertAt(line, k, seg);
    UpperBoundOfSorted(line, seg);
    forall i, j | 0 <= i < j < |r|
      ensures Le(r[i], r[j])
    {
      if j == k {
      } else if i == k {
        LeTotalOrder(line[j - 1], seg, seg);
      } else {
        var i' := if i < k then i else i - 1;
        var j' := if j < k then j else j - 1;
        assert r[i] == line[i'] && r[j] == line[j'];
      }
    }
  }
}
