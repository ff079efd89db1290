/**
 * The interned string table of `@jridgewell/set-array`, modelled by its
 * contract only: the state is the table's `array` (a sequence without
 * duplicates) and `put` either finds a string or appends it.
 */
module SetArray {

  /** No string occurs twice in the table. */
  predicate NoDuplicates(table: seq<string>)
  {
    forall i, j :: 0 <= i < j < |table| ==> table[i] != table[j]
  }

  /** The first position of `s` in `table`. */
  function IndexOf(table: seq<string>, s: string): (i: nat)
    requires s in table
    ensures i < |table| && table[i] == s
    ensures s !in table[..i]
  {
    if table[0] == s then 0
    else
      var k := IndexOf(table[1..], s);
      assert table[..k + 1] == [table[0]] + table[1..][..k];
      k + 1
  }

  /**
   * `put(setarr, s)`: the existing index when `s` is present, otherwise `s`
   * is appended and its index is the old length. Returns the new table and
   * the index.
   */
  function Put(table: seq<string>, s: string): (r: (seq<string>, nat))
    ensures r.1 < |r.0| && r.0[r.1] == s
    ensures s in table ==> r.0 == table && r.1 < |table|
    ensures s !in table ==> r.0 == table + [s] && r.1 == |table|
    ensures NoDuplicates(table) ==> NoDuplicates(r.0)
  {
    if s in table then (table, IndexOf(table, s)) else (table + [s], |table|)
  }

  /** In a duplicate-free table a string's index is its only position. */
  lemma IndexUnique(table: seq<string>, s: string, i: nat)
    requires NoDuplicates(table)
    requires i < |table| && table[i] == s
    ensures Put(table, s) == (table, i)
  {
    var k := IndexOf(table, s);
    assert table[k] == table[i];
  }

  /** Putting the same string twice gives the same table and index both times. */
  lemma PutIdempotent(table: seq<string>, s: string)
    ensures Put(Put(table, s).0, s) == Put(table, s)
  {
    if s !in table {
      var t := table + [s];
      var k := IndexOf(t, s);
      assert t[..|table|] == table;
    }
  }

  /** Putting never disturbs the strings already interned, nor their indices. */
  lemma PutKeepsIndices(table: seq<string>, s: string, x: string, i: nat)
    requires NoDuplicates(table)
    requires i < |table| && table[i] == x
    ensures Put(Put(table, s).0, x) == (Put(table, s).0, i)
  {
    var t := Put(table, s).0;
    assert t[i] == x;
    IndexUnique(t, x, i);
  }
}
