/**
 * The index conversion vectors of `testInternals` (test/csp.t.cpp): each
 * multi-index flattened and each flat index expanded by the two loops.
 */
module InternalsTest {
  import MultiIndex

  lemma FlatVectors()
    ensures MultiIndex.Flat([0], [3]) == 0 && MultiIndex.Flat([2], [3]) == 2
    ensures MultiIndex.Flat([1, 1], [2, 2]) == 3
    ensures MultiIndex.Flat([1, 1], [2, 3]) == 4 && MultiIndex.Flat([0, 2], [2, 3]) == 2
    ensures MultiIndex.Flat([1, 1], [3, 2]) == 3 && MultiIndex.Flat([0, 1], [3, 2]) == 1
    ensures MultiIndex.Flat([2, 0], [3, 2]) == 4 && MultiIndex.Flat([2, 1], [3, 2]) == 5
    ensures MultiIndex.Flat([1, 1, 1], [3, 2, 3]) == 10 && MultiIndex.Flat([0, 1, 2], [3, 2, 3]) == 5
  {
  }

  lemma ExpandVectors()
    ensures MultiIndex.Expanded(0, [3]) == [0] && MultiIndex.Expanded(2, [3]) == [2]
    ensures MultiIndex.Expanded(3, [2, 2]) == [1, 1]
    ensures MultiIndex.Expanded(4, [2, 3]) == [1, 1] && MultiIndex.Expanded(2, [2, 3]) == [0, 2]
    ensures MultiIndex.Expanded(3, [3, 2]) == [1, 1] && MultiIndex.Expanded(1, [3, 2]) == [0, 1]
    ensures MultiIndex.Expanded(4, [3, 2]) == [2, 0] && MultiIndex.Expanded(5, [3, 2]) == [2, 1]
    ensures MultiIndex.Expanded(10, [3, 2, 3]) == [1, 1, 1] && MultiIndex.Expanded(5, [3, 2, 3]) == [0, 1, 2]
  {
  }

  /** `flattenIndex` on every vector of the test, in the order the test lists them. */
  method TestFlatten() returns (flats: seq<nat>)
    ensures flats == [0, 2, 3, 4, 2, 3, 1, 4, 5, 10, 5]
  {
    var small := FlattenShort();
    var large := FlattenLong();
    flats := small + large;
  }

  /** The one- and two-dimensional vectors over `{3}`, `{2, 2}` and `{2, 3}`. */
  method FlattenShort() returns (flats: seq<nat>)
    ensures flats == [0, 2, 3, 4, 2]
  {
    FlatVectors();
    var a := MultiIndex.FlattenIndex([0], [3]);
    var b := MultiIndex.FlattenIndex([2], [3]);
    var c := MultiIndex.FlattenIndex([1, 1], [2, 2]);
    var d := MultiIndex.FlattenIndex([1, 1], [2, 3]);
    var e := MultiIndex.FlattenIndex([0, 2], [2, 3]);
    flats := [a, b, c, d, e];
  }

  /** The vectors over `{3, 2}` and `{3, 2, 3}`. */
  method FlattenLong() returns (flats: seq<nat>)
    ensures flats == [3, 1, 4, 5, 10, 5]
  {
    FlatVectors();
    var f := MultiIndex.FlattenIndex([1, 1], [3, 2]);
    var g := MultiIndex.FlattenIndex([0, 1], [3, 2]);
    var h := MultiIndex.FlattenIndex([2, 0], [3, 2]);
    var i := MultiIndex.FlattenIndex([2, 1], [3, 2]);
    var j := MultiIndex.FlattenIndex([1, 1, 1], [3, 2, 3]);
    var k := MultiIndex.FlattenIndex([0, 1, 2], [3, 2, 3]);
    flats := [f, g, h, i, j, k];
  }

  /** `expandIndex` on every vector of the test. */
  method TestExpand() returns (indices: seq<seq<nat>>)
    ensures indices == [[0], [2], [1, 1], [1, 1], [0, 2], [1, 1], [0, 1], [2, 0], [2, 1], [1, 1, 1], [0, 1, 2]]
  {
    ExpandVectors();
    var a := MultiIndex.ExpandIndex(0, [3]);
    var b := MultiIndex.ExpandIndex(2, [3]);
    var c := MultiIndex.ExpandIndex(3, [2, 2]);
    var d := MultiIndex.ExpandIndex(4, [2, 3]);
    var e := MultiIndex.ExpandIndex(2, [2, 3]);
    var f := MultiIndex.ExpandIndex(3, [3, 2]);
    var g := MultiIndex.ExpandIndex(1, [3, 2]);
    var h := MultiIndex.ExpandIndex(4, [3, 2]);
    var i := MultiIndex.ExpandIndex(5, [3, 2]);
    var j := MultiIndex.ExpandIndex(10, [3, 2, 3]);
    var k := MultiIndex.ExpandIndex(5, [3, 2, 3]);
    indices := [a, b, c, d, e, f, g, h, i, j, k];
  }
}
