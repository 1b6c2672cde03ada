/**
 * Order-preserving list utilities used by the compile-time machinery:
 * `TLFilterImpl` keeps the members of a type list that satisfy a predicate,
 * `Min<...>`/`Max<...>` fold a non-empty index pack.
 */
module TypeList {
  /** `TLFilterImpl<Pred, Head, Tail...>`: keep `Head` when `Pred<Head>` holds, then filter the tail. */
  function Filter<T>(s: seq<T>, p: T --> bool): (r: seq<T>)
    requires forall i :: 0 <= i < |s| ==> p.requires(s[i])
    ensures |r| <= |s|
    ensures forall i :: 0 <= i < |r| ==> r[i] in s && p(r[i])
    ensures forall i :: 0 <= i < |s| && p(s[i]) ==> s[i] in r
  {
    if |s| == 0 then []
    else if p(s[0]) then [s[0]] + Filter(s[1..], p)
    else Filter(s[1..], p)
  }

  /** Filtering a concatenation filters each part: every occurrence is kept or dropped on its own, in place. */
  lemma {:induction false} FilterAppend<T>(a: seq<T>, b: seq<T>, p: T --> bool)
    requires forall i :: 0 <= i < |a| ==> p.requires(a[i])
    requires forall i :: 0 <= i < |b| ==> p.requires(b[i])
    ensures Filter(a + b, p) == Filter(a, p) + Filter(b, p)
  {
    if |a| == 0 {
      assert a + b == b;
    } else {
      assert (a + b)[0] == a[0];
      assert (a + b)[1..] == a[1..] + b;
      FilterAppend(a[1..], b, p);
    }
  }

  /** One element is kept exactly when it satisfies the predicate. */
  lemma FilterSingleton<T>(x: T, p: T --> bool)
    requires p.requires(x)
    ensures Filter([x], p) == if p(x) then [x] else []
  {
    assert [x][1..] == [];
  }

  /** When every element satisfies the predicate, filtering keeps the whole sequence, repeats included. */
  lemma {:induction false} FilterKeepsAll<T>(s: seq<T>, p: T --> bool)
    requires forall i :: 0 <= i < |s| ==> p.requires(s[i]) && p(s[i])
    ensures Filter(s, p) == s
  {
    if |s| > 0 {
      FilterKeepsAll(s[1..], p);
      assert s == [s[0]] + s[1..];
    }
  }

  /** `i` comes before `j` in `s` (strictly earlier positions). */
  ghost predicate Precedes<T>(s: seq<T>, x: T, y: T) {
    exists i, j :: 0 <= i < j < |s| && s[i] == x && s[j] == y
  }

  /** Filtering never reorders: two kept elements keep their relative order. */
  lemma {:induction false} FilterPreservesOrder<T>(s: seq<T>, p: T --> bool, x: T, y: T)
    requires forall i :: 0 <= i < |s| ==> p.requires(s[i])
    requires Precedes(Filter(s, p), x, y)
    ensures Precedes(s, x, y)
  {
    var r := Filter(s, p);
    var i, j :| 0 <= i < j < |r| && r[i] == x && r[j] == y;
    if p(s[0]) {
      var t := Filter(s[1..], p);
      assert r == [s[0]] + t;
      if i == 0 {
        assert y in t;
        var j' :| 0 <= j' < |s[1..]| && s[1..][j'] == y;
        assert s[0] == x && s[j' + 1] == y;
      } else {
        assert t[i - 1] == x && t[j - 1] == y;
        FilterPreservesOrder(s[1..], p, x, y);
        var i', j' :| 0 <= i' < j' < |s[1..]| && s[1..][i'] == x && s[1..][j'] == y;
        assert s[i' + 1] == x && s[j' + 1] == y;
      }
    } else {
      FilterPreservesOrder(s[1..], p, x, y);
      var i', j' :| 0 <= i' < j' < |s[1..]| && s[1..][i'] == x && s[1..][j'] == y;
      assert s[i' + 1] == x && s[j' + 1] == y;
    }
  }

  /** `Min<N, M...>`: the smallest element of a non-empty pack. */
  function SeqMin(s: seq<nat>): (r: nat)
    requires |s| > 0
    ensures r in s
    ensures forall i :: 0 <= i < |s| ==> r <= s[i]
  {
    if |s| == 1 then s[0]
    else
      var m := SeqMin(s[1..]);
      if s[0] <= m then s[0] else m
  }

  /** `Max<N, M...>`: the largest element of a non-empty pack. */
  function SeqMax(s: seq<nat>): (r: nat)
    requires |s| > 0
    ensures r in s
    ensures forall i :: 0 <= i < |s| ==> s[i] <= r
  {
    if |s| == 1 then s[0]
    else
      var m := SeqMax(s[1..]);
      if s[0] >= m then s[0] else m
  }
}
