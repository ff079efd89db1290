/**
 * Source-map segments and their ordering within one generated line.
 *
 * In the source a segment is a JavaScript array of length 1, 4 or 5; here it
 * is a datatype with one constructor per shape. Line and column numbers are
 * 0-based JavaScript numbers, modelled as unbounded integers.
 */
module Segments {

  datatype Segment =
    | Sourceless(genColumn: int)
    | Positioned(genColumn: int, sourceIndex: nat, sourceLine: int, sourceColumn: int)
    | Named(genColumn: int, sourceIndex: nat, sourceLine: int, sourceColumn: int, nameIndex: nat)

  /** The length of the array that represents the segment in the source. */
  function Length(s: Segment): (n: nat)
    ensures n == 1 <==> s.Sourceless?
    ensures n == 4 <==> s.Positioned?
    ensures n == 5 <==> s.Named?
  {
    match s
    case Sourceless(_) => 1
    case Positioned(_, _, _, _) => 4
    case Named(_, _, _, _, _) => 5
  }

  /** `compareNum`: negative, zero or positive as `a` is below, equal to or above `b`. */
  function CompareNum(a: int, b: int): (r: int)
    ensures r < 0 <==> a < b
    ensures r == 0 <==> a == b
  {
    a - b
  }

  /**
   * `compare`: orders two segments of the same generated column by their
   * length first, then by source index, source line, source column and name
   * index. The generated column itself is not compared.
   */
  function Compare(a: Segment, b: Segment): (r: int)
    ensures Length(a) != Length(b) ==> (r < 0 <==> Length(a) < Length(b)) && r != 0
  {
    var byLength := CompareNum(Length(a), Length(b));
    if byLength != 0 then byLength
    else if a.Sourceless? then 0
    else
      var bySource := CompareNum(a.sourceIndex, b.sourceIndex);
      if bySource != 0 then bySource
      else
        var byLine := CompareNum(a.sourceLine, b.sourceLine);
        if byLine != 0 then byLine
        else
          var byColumn := CompareNum(a.sourceColumn, b.sourceColumn);
          if byColumn != 0 then byColumn
          else if a.Positioned? then 0
          else CompareNum(a.nameIndex, b.nameIndex)
  }

  /** The fields of a segment's array after the generated column. */
  function Fields(s: Segment): seq<int>
  {
    match s
    case Sourceless(_) => []
    case Positioned(_, si, sl, sc) => [si, sl, sc]
    case Named(_, si, sl, sc, ni) => [si, sl, sc, ni]
  }

  /**
   * The sort key of a segment: its generated column, then its length, then
   * the remaining fields of its array in order.
   */
  function Key(s: Segment): seq<int>
  {
    [s.genColumn, Length(s)] + Fields(s)
  }

  /** Lexicographic order on integer sequences (a proper prefix comes first). */
  predicate LexLe(a: seq<int>, b: seq<int>)
    decreases |a|
  {
    |a| == 0 || (|b| > 0 && (a[0] < b[0] || (a[0] == b[0] && LexLe(a[1..], b[1..]))))
  }

  /** The order in which a generated line keeps its segments. */
  predicate Le(a: Segment, b: Segment)
  {
    LexLe(Key(a), Key(b))
  }

  /** A line is sorted when every earlier segment is at most every later one. */
  predicate Sorted(line: seq<Segment>)
  {
    forall i, j :: 0 <= i < j < |line| ==> Le(line[i], line[j])
  }

  lemma {:induction false} LexLeReflexive(a: seq<int>)
    ensures LexLe(a, a)
    decreases |a|
  {
    if |a| > 0 { LexLeReflexive(a[1..]); }
  }

  lemma {:induction false} LexLeTransitive(a: seq<int>, b: seq<int>, c: seq<int>)
    requires LexLe(a, b) && LexLe(b, c)
    ensures LexLe(a, c)
    decreases |a|
  {
    if |a| > 0 && a[0] == b[0] && b[0] == c[0] {
      LexLeTransitive(a[1..], b[1..], c[1..]);
    }
  }

  lemma {:induction false} LexLeTotal(a: seq<int>, b: seq<int>)
    ensures LexLe(a, b) || LexLe(b, a)
    decreases |a|
  {
    if |a| > 0 && |b| > 0 && a[0] == b[0] {
      LexLeTotal(a[1..], b[1..]);
    }
  }

  lemma {:induction false} LexLeAntisymmetric(a: seq<int>, b: seq<int>)
    requires LexLe(a, b) && LexLe(b, a)
    ensures a == b
    decreases |a|
  {
    if |a| > 0 {
      LexLeAntisymmetric(a[1..], b[1..]);
      assert a == [a[0]] + a[1..] && b == [b[0]] + b[1..];
    }
  }

  /** `Le` is a total order on segments: reflexive, transitive, total and antisymmetric. */
  lemma LeTotalOrder(a: Segment, b: Segment, c: Segment)
    ensures Le(a, a)
    ensures Le(a, b) && Le(b, c) ==> Le(a, c)
    ensures Le(a, b) || Le(b, a)
    ensures Le(a, b) && Le(b, a) ==> a == b
  {
    LexLeReflexive(Key(a));
    if Le(a, b) && Le(b, c) { LexLeTransitive(Key(a), Key(b), Key(c)); }
    LexLeTotal(Key(a), Key(b));
    if Le(a, b) && Le(b, a) { LexLeAntisymmetric(Key(a), Key(b)); }
  }

  /** One step of the lexicographic order. */
  lemma LexLeHead(a: seq<int>, b: seq<int>)
    requires |a| > 0 && |b| > 0
    ensures LexLe(a, b) <==> a[0] < b[0] || (a[0] == b[0] && LexLe(a[1..], b[1..]))
  {
  }

  /** For segments of one shape, `compare` decides the order of their remaining fields. */
  lemma FieldsAgreeWithCompare(a: Segment, b: Segment)
    requires Length(a) == Length(b)
    ensures LexLe(Fields(a), Fields(b)) <==> Compare(a, b) <= 0
  {
    if !a.Sourceless? {
      var fa, fb := Fields(a), Fields(b);
      LexLeHead(fa, fb);
      var fa1, fb1 := fa[1..], fb[1..];
      LexLeHead(fa1, fb1);
      var fa2, fb2 := fa1[1..], fb1[1..];
      LexLeHead(fa2, fb2);
      var fa3, fb3 := fa2[1..], fb2[1..];
      if a.Named? {
        LexLeHead(fa3, fb3);
        assert fa3[1..] == [] && fb3[1..] == [];
      } else {
        assert fa3 == [] && fb3 == [];
      }
    }
  }

  /**
   * The source's two-level comparison (generated column, then `compare`)
   * decides exactly the lexicographic order on keys.
   */
  lemma CompareAgreesWithLe(a: Segment, b: Segment)
    ensures Le(a, b) <==> a.genColumn < b.genColumn || (a.genColumn == b.genColumn && Compare(a, b) <= 0)
  {
    var ka, kb := Key(a), Key(b);
    LexLeHead(ka, kb);
    var ta, tb := ka[1..], kb[1..];
    LexLeHead(ta, tb);
    assert ta[1..] == Fields(a) && tb[1..] == Fields(b);
    if Length(a) == Length(b) {
      FieldsAgreeWithCompare(a, b);
    }
  }

  /** `compare` reports equality, at an equal generated column, only for equal segments. */
  lemma CompareZeroIsEquality(a: Segment, b: Segment)
    requires a.genColumn == b.genColumn
    ensures Compare(a, b) == 0 <==> a == b
  {
  }

  /** Sourceless before positioned before named, at equal generated columns. */
  lemma ShapeOrder(c: int, si: nat, sl: int, sc: int, sj: nat, tl: int, tc: int, ni: nat)
    ensures Le(Sourceless(c), Positioned(c, si, sl, sc))
    ensures !Le(Positioned(c, si, sl, sc), Sourceless(c))
    ensures Le(Positioned(c, si, sl, sc), Named(c, sj, tl, tc, ni))
    ensures !Le(Named(c, sj, tl, tc, ni), Positioned(c, si, sl, sc))
  {
    CompareAgreesWithLe(Sourceless(c), Positioned(c, si, sl, sc));
    CompareAgreesWithLe(Positioned(c, si, sl, sc), Sourceless(c));
    CompareAgreesWithLe(Positioned(c, si, sl, sc), Named(c, sj, tl, tc, ni));
    CompareAgreesWithLe(Named(c, sj, tl, tc, ni), Positioned(c, si, sl, sc));
  }
}
