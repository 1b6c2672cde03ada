/**
 * Mixed-radix conversion between an N-dimensional multi-index and a flat
 * index (`flattenIndex`/`expandIndex`): the first coordinate is the most
 * significant digit, coordinate `i` having radix `bounds[i]`.
 */
module MultiIndex {
  /** The number of multi-indices below `bounds`. */
  function Product(bounds: seq<nat>): (r: nat)
    ensures (forall i :: 0 <= i < |bounds| ==> bounds[i] > 0) ==> r > 0
  {
    if |bounds| == 0 then 1 else bounds[0] * Product(bounds[1..])
  }

  predicate AllPositive(bounds: seq<nat>) {
    forall i :: 0 <= i < |bounds| ==> bounds[i] > 0
  }

  /** Every coordinate lies below its bound. */
  predicate InBounds(index: seq<nat>, bounds: seq<nat>) {
    |index| == |bounds| && forall i :: 0 <= i < |index| ==> index[i] < bounds[i]
  }

  /** The flat value of a multi-index, accumulated from the first coordinate on. */
  function Flat(index: seq<nat>, bounds: seq<nat>): nat
    requires |index| == |bounds|
    decreases |index|
  {
    if |index| == 0 then 0
    else Flat(index[..|index| - 1], bounds[..|bounds| - 1]) * bounds[|bounds| - 1] + index[|index| - 1]
  }

  /** The multi-index of a flat value: each digit is the quotient by the product of the later bounds. */
  function Expanded(flat: nat, bounds: seq<nat>): (r: seq<nat>)
    requires AllPositive(bounds)
    ensures |r| == |bounds|
  {
    if |bounds| == 0 then []
    else
      var m := Product(bounds[1..]);
      [flat / m] + Expanded(flat % m, bounds[1..])
  }

  /** `flattenIndex<N>(index, bounds)` */
  method FlattenIndex(index: seq<nat>, bounds: seq<nat>) returns (acc: nat)
    requires |bounds| > 0
    requires InBounds(index, bounds)
    ensures acc == Flat(index, bounds)
    ensures acc < Product(bounds)
  {
    acc := index[0];
    assert index[..1] == [index[0]] && bounds[..1] == [bounds[0]];
    var i := 1;
    while i < |bounds|
      invariant 1 <= i <= |bounds|
      invariant acc == Flat(index[..i], bounds[..i])
    {
      assert index[..i + 1][..i] == index[..i] && bounds[..i + 1][..i] == bounds[..i];
      acc := acc * bounds[i];
      acc := acc + index[i];
      i := i + 1;
    }
    assert index[..i] == index && bounds[..i] == bounds;
    FlatBelowProduct(index, bounds);
  }

  /** `expandIndex<N>(flatIndex, bounds)` */
  method ExpandIndex(flatIndex: nat, bounds: seq<nat>) returns (index: seq<nat>)
    requires AllPositive(bounds)
    ensures index == Expanded(flatIndex, bounds)
  {
    var n := |bounds|;
    var flat := flatIndex;
    index := [];
    var i := 0;
    while i < n
      invariant 0 <= i <= n && |index| == i
      invariant index + Expanded(flat, bounds[i..]) == Expanded(flatIndex, bounds)
    {
      var m := 1;
      var k := n - 1;
      while k > i
        invariant i <= k <= n - 1
        invariant m == Product(bounds[k + 1..])
      {
        ProductFrom(bounds, k);
        m := m * bounds[k];
        k := k - 1;
      }
      ExpandedStep(flat, bounds, i);
      var digit := flat / m;
      ghost var rest := Expanded(flat % m, bounds[i + 1..]);
      assert index + Expanded(flat, bounds[i..]) == (index + [digit]) + rest;
      index := index + [digit];
      flat := flat - digit * m;
      i := i + 1;
    }
    assert bounds[n..] == [];
  }

  lemma {:induction false} ProductSnoc(bounds: seq<nat>)
    requires |bounds| > 0
    ensures Product(bounds) == Product(bounds[..|bounds| - 1]) * bounds[|bounds| - 1]
  {
    if |bounds| > 1 {
      var b' := bounds[1..];
      ProductSnoc(b');
      assert b'[..|b'| - 1] == bounds[..|bounds| - 1][1..];
      calc {
        Product(bounds);
        bounds[0] * Product(b');
        bounds[0] * (Product(b'[..|b'| - 1]) * bounds[|bounds| - 1]);
        (bounds[0] * Product(bounds[..|bounds| - 1][1..])) * bounds[|bounds| - 1];
      }
    } else {
      assert bounds[..0] == [] && bounds[1..] == [];
    }
  }

  /** The flat value read from the most significant coordinate. */
  lemma {:induction false} FlatCons(index: seq<nat>, bounds: seq<nat>)
    requires |index| == |bounds| > 0
    ensures Flat(index, bounds) == index[0] * Product(bounds[1..]) + Flat(index[1..], bounds[1..])
    decreases |index|
  {
    var n := |index|;
    if n == 1 {
      assert index[..0] == [] && bounds[1..] == [] && index[1..] == [];
    } else {
      var i', b' := index[..n - 1], bounds[..n - 1];
      FlatCons(i', b');
      ProductSnoc(bounds[1..]);
      assert i'[1..] == index[1..][..n - 2] && b'[1..] == bounds[1..][..n - 2];
      assert bounds[1..][..n - 2] == b'[1..];
      var a: int, p: int, last: int, x: int := index[0], Product(b'[1..]), bounds[n - 1], index[n - 1];
      var rest: int := Flat(i'[1..], b'[1..]);
      assert Flat(index, bounds) == (a * p + rest) * last + x;
      assert Flat(index[1..], bounds[1..]) == rest * last + x;
      assert Product(bounds[1..]) == p * last;
      Regroup(a, p, rest, last, x);
    }
  }

  lemma Regroup(a: int, p: int, f: int, last: int, x: int)
    ensures (a * p + f) * last + x == a * (p * last) + (f * last + x)
  {
  }

  lemma DigitBound(d: nat, r: nat, b: nat, m: nat)
    requires d < b && r < m
    ensures d * m + r < b * m
  {
    assert d * m + m <= b * m by {
      assert (d + 1) * m <= b * m;
    }
  }

  lemma DivModDigit(d: nat, r: nat, m: nat)
    requires r < m
    ensures (d * m + r) / m == d && (d * m + r) % m == r
  {
    var x := d * m + r;
    var q := x / m;
    if q < d {
      MulStep(q, d, m);
      assert false;
    } else if d < q {
      MulStep(d, q, m);
      assert false;
    }
  }

  lemma MulStep(a: int, b: int, m: nat)
    requires a < b && m > 0
    ensures a * m + m <= b * m
  {
    var t := b - a;
    assert b * m == a * m + t * m;
    MulAtLeast(t, m);
  }

  lemma {:induction false} MulAtLeast(t: nat, m: nat)
    requires t >= 1
    ensures t * m >= m
  {
    if t > 1 {
      MulAtLeast(t - 1, m);
      assert t * m == (t - 1) * m + m;
    }
  }

  lemma QuotientBelow(flat: nat, b: nat, m: nat)
    requires m > 0 && flat < b * m
    ensures flat / m < b
    ensures (flat / m) * m + flat % m == flat
  {
  }

  /** One digit of the expansion starting at coordinate `i`. */
  lemma ExpandedStep(flat: nat, bounds: seq<nat>, i: nat)
    requires AllPositive(bounds) && i < |bounds|
    ensures Product(bounds[i + 1..]) > 0
    ensures Expanded(flat, bounds[i..])
         == [flat / Product(bounds[i + 1..])] + Expanded(flat % Product(bounds[i + 1..]), bounds[i + 1..])
    ensures flat - (flat / Product(bounds[i + 1..])) * Product(bounds[i + 1..]) == flat % Product(bounds[i + 1..])
  {
    assert bounds[i..][1..] == bounds[i + 1..];
  }

  lemma ProductFrom(bounds: seq<nat>, k: nat)
    requires k < |bounds|
    ensures Product(bounds[k..]) == Product(bounds[k + 1..]) * bounds[k]
  {
    assert bounds[k..][1..] == bounds[k + 1..];
  }

  /** The flat value of an in-bounds multi-index is below the product of the bounds. */
  lemma {:induction false} FlatBelowProduct(index: seq<nat>, bounds: seq<nat>)
    requires InBounds(index, bounds)
    ensures Flat(index, bounds) < Product(bounds)
    decreases |index|
  {
    if |index| > 0 {
      FlatCons(index, bounds);
      FlatBelowProduct(index[1..], bounds[1..]);
      DigitBound(index[0], Flat(index[1..], bounds[1..]), bounds[0], Product(bounds[1..]));
    }
  }

  /** `expandIndex(flattenIndex(index, bounds), bounds) == index` */
  lemma {:induction false} ExpandFlat(index: seq<nat>, bounds: seq<nat>)
    requires InBounds(index, bounds)
    ensures AllPositive(bounds)
    ensures Expanded(Flat(index, bounds), bounds) == index
    decreases |index|
  {
    if |index| > 0 {
      var m := Product(bounds[1..]);
      var rest := Flat(index[1..], bounds[1..]);
      FlatCons(index, bounds);
      FlatBelowProduct(index[1..], bounds[1..]);
      ExpandFlat(index[1..], bounds[1..]);
      DivModDigit(index[0], rest, m);
      assert index == [index[0]] + index[1..];
    }
  }

  /** `flattenIndex(expandIndex(flat, bounds), bounds) == flat` for every flat value below the product. */
  lemma {:induction false} FlatExpanded(flat: nat, bounds: seq<nat>)
    requires AllPositive(bounds) && flat < Product(bounds)
    ensures InBounds(Expanded(flat, bounds), bounds)
    ensures Flat(Expanded(flat, bounds), bounds) == flat
    decreases |bounds|
  {
    if |bounds| > 0 {
      var m := Product(bounds[1..]);
      var e := Expanded(flat, bounds);
      FlatExpanded(flat % m, bounds[1..]);
      assert e[1..] == Expanded(flat % m, bounds[1..]);
      QuotientBelow(flat, bounds[0], m);
      FlatCons(e, bounds);
    }
  }

  /** Distinct in-bounds multi-indices have distinct flat values. */
  lemma FlatInjective(x: seq<nat>, y: seq<nat>, bounds: seq<nat>)
    requires InBounds(x, bounds) && InBounds(y, bounds)
    requires Flat(x, bounds) == Flat(y, bounds)
    ensures x == y
  {
    ExpandFlat(x, bounds);
    ExpandFlat(y, bounds);
  }
}
