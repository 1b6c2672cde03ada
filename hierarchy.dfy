/**
 * A closed class hierarchy as the library registers it with `CSP_DEFINE`:
 * ids 0..N-1 (N = `IDTraits::count`), each with an optional parent id and a
 * corporeality. `IDTraits::last`, numerically N, is the sentinel that the
 * parent of a root maps to. The library never checks that parent chains
 * end; `WellFormed` states it.
 */
module Hierarchy {
  import opened Wrappers

  datatype Corporeality = Abstract | Concrete

  /** One `CSP_DEFINE(Type, ID, Parent, Corporeality)`; `parent` is None for `void`. */
  datatype Decl = Decl(parent: Option<nat>, corporeality: Corporeality)

  /** Declaration `i` describes id `i`. */
  datatype Registry = Registry(decls: seq<Decl>)

  /** Every declared parent is one of the ids. */
  predicate Closed(h: Registry) {
    forall i :: 0 <= i < |h.decls| && h.decls[i].parent.Some? ==> h.decls[i].parent.value < |h.decls|
  }

  /** `IDIsConcrete<ID>` */
  predicate IsConcrete(h: Registry, id: nat)
    requires id < |h.decls|
  {
    h.decls[id].corporeality == Concrete
  }

  /** `ValueOr<Fallback>(value)`: the value when there is one, otherwise the fallback. */
  function ValueOr(fallback: nat, value: Option<nat>): nat {
    match value
    case Some(v) => v
    case None => fallback
  }

  /** `IDToParent(ID)`: the parent id, or the sentinel `IDTraits::last` for a root. */
  function Parent(h: Registry, id: nat): (r: nat)
    requires Closed(h) && id < |h.decls|
    ensures r <= |h.decls|
    ensures r == |h.decls| <==> h.decls[id].parent.None?
  {
    ValueOr(|h.decls|, h.decls[id].parent)
  }

  /** Following parents from `id` reaches the sentinel within `k` steps. */
  predicate ReachesRoot(h: Registry, id: nat, k: nat)
    requires Closed(h) && id <= |h.decls|
    decreases k
  {
    id == |h.decls| || (k > 0 && ReachesRoot(h, Parent(h, id), k - 1))
  }

  /** Every parent chain reaches the sentinel within N steps: the hierarchy is acyclic. */
  predicate WellFormed(h: Registry) {
    Closed(h) && forall id :: 0 <= id < |h.decls| ==> ReachesRoot(h, id, |h.decls|)
  }

  function DepthWithin(h: Registry, id: nat, k: nat): (d: nat)
    requires Closed(h) && id <= |h.decls| && ReachesRoot(h, id, k)
    ensures d <= k
    decreases k
  {
    if id == |h.decls| then 0 else 1 + DepthWithin(h, Parent(h, id), k - 1)
  }

  /** The number of parent steps from `id` to the sentinel. */
  function Depth(h: Registry, id: nat): (d: nat)
    requires WellFormed(h) && id <= |h.decls|
    ensures d <= |h.decls|
    ensures d == 0 <==> id == |h.decls|
  {
    DepthWithin(h, id, |h.decls|)
  }

  lemma {:induction false} DepthWithinMono(h: Registry, id: nat, k: nat, k': nat)
    requires Closed(h) && id <= |h.decls| && ReachesRoot(h, id, k) && k <= k'
    ensures ReachesRoot(h, id, k') && DepthWithin(h, id, k') == DepthWithin(h, id, k)
    decreases k
  {
    if id != |h.decls| {
      DepthWithinMono(h, Parent(h, id), k - 1, k' - 1);
    }
  }

  /** One parent step lowers the depth by exactly one: the measure of the ancestry walk. */
  lemma {:induction false} DepthOfParent(h: Registry, id: nat)
    requires WellFormed(h) && id < |h.decls|
    ensures Parent(h, id) <= |h.decls|
    ensures Depth(h, Parent(h, id)) + 1 == Depth(h, id)
  {
    assert ReachesRoot(h, id, |h.decls|);
    DepthWithinMono(h, Parent(h, id), |h.decls| - 1, |h.decls|);
  }

  /**
   * `ctIsaImpl(TestID, ActualID)`: walk up from `actual`; false at the sentinel,
   * true on meeting `test`.
   */
  function CtIsa(h: Registry, test: nat, actual: nat): (r: bool)
    requires WellFormed(h) && test < |h.decls| && actual <= |h.decls|
    decreases Depth(h, actual)
  {
    if actual == |h.decls| then false
    else if actual == test then true
    else
      DepthOfParent(h, actual);
      CtIsa(h, test, Parent(h, actual))
  }

  /** `k` parent steps from `id`, staying at the sentinel once it is reached. */
  function ParentPow(h: Registry, id: nat, k: nat): (r: nat)
    requires Closed(h) && id <= |h.decls|
    ensures r <= |h.decls|
    decreases k
  {
    if k == 0 || id == |h.decls| then id else ParentPow(h, Parent(h, id), k - 1)
  }

  /** Reference definition: `test` lies on the parent chain of `actual`, `actual` included. */
  ghost predicate OnParentChain(h: Registry, test: nat, actual: nat)
    requires Closed(h) && actual <= |h.decls|
  {
    exists k: nat :: ParentPow(h, actual, k) == test
  }

  /** `ctIsaImpl(test, actual)` holds exactly when `test` is on `actual`'s parent chain. */
  lemma {:induction false} CtIsaIsOnParentChain(h: Registry, test: nat, actual: nat)
    requires WellFormed(h) && test < |h.decls| && actual <= |h.decls|
    ensures CtIsa(h, test, actual) <==> OnParentChain(h, test, actual)
    decreases Depth(h, actual)
  {
    if actual == |h.decls| {
      forall k: nat ensures ParentPow(h, actual, k) != test {
      }
    } else if actual == test {
      assert ParentPow(h, actual, 0) == test;
    } else {
      var p := Parent(h, actual);
      DepthOfParent(h, actual);
      CtIsaIsOnParentChain(h, test, p);
      if OnParentChain(h, test, p) {
        var k: nat :| ParentPow(h, p, k) == test;
        assert ParentPow(h, actual, k + 1) == test;
      }
      if OnParentChain(h, test, actual) {
        var k: nat :| ParentPow(h, actual, k) == test;
        assert ParentPow(h, p, k - 1) == test;
      }
    }
  }

  /** The walk is transitive: an ancestor of an ancestor is an ancestor. */
  lemma {:induction false} CtIsaTransitive(h: Registry, a: nat, b: nat, c: nat)
    requires WellFormed(h) && a < |h.decls| && b < |h.decls| && c < |h.decls|
    requires CtIsa(h, a, b) && CtIsa(h, b, c)
    ensures CtIsa(h, a, c)
    decreases Depth(h, c)
  {
    if c != b && c != a {
      DepthOfParent(h, c);
      CtIsaTransitive(h, a, b, Parent(h, c));
    }
  }

  /** An ancestor is no deeper than its descendant. */
  lemma {:induction false} CtIsaDepth(h: Registry, test: nat, actual: nat)
    requires WellFormed(h) && test < |h.decls| && actual <= |h.decls|
    requires CtIsa(h, test, actual)
    ensures Depth(h, test) <= Depth(h, actual)
    decreases Depth(h, actual)
  {
    if actual != test {
      DepthOfParent(h, actual);
      CtIsaDepth(h, test, Parent(h, actual));
    }
  }

  /** A proper ancestor is strictly shallower; hence the walk is antisymmetric. */
  lemma {:induction false} CtIsaStrictDepth(h: Registry, a: nat, b: nat)
    requires WellFormed(h) && a < |h.decls| && b < |h.decls|
    requires CtIsa(h, a, b) && a != b
    ensures Depth(h, a) < Depth(h, b)
    ensures !CtIsa(h, b, a)
  {
    DepthOfParent(h, b);
    assert CtIsa(h, a, Parent(h, b));
    CtIsaDepth(h, a, Parent(h, b));
    if CtIsa(h, b, a) {
      CtIsaDepth(h, b, a);
    }
  }

  /** A root (declared with parent `void`) is an ancestor of nothing but its own subtree: its parent is the sentinel. */
  lemma {:induction false} RootHasNoProperAncestor(h: Registry, r: nat, a: nat)
    requires WellFormed(h) && r < |h.decls| && a < |h.decls|
    requires h.decls[r].parent.None?
    ensures CtIsa(h, a, r) <==> a == r
  {
    assert Parent(h, r) == |h.decls|;
  }

  /** `makeIsaDispatchArray<TestType>()`: `ctIsaImpl(test, i)` for every id `i`. */
  function IsaTable(h: Registry, test: nat): (t: seq<bool>)
    requires WellFormed(h) && test < |h.decls|
    ensures |t| == |h.decls|
  {
    seq(|h.decls|, i requires 0 <= i < |h.decls| => CtIsa(h, test, i))
  }

  /** `isaIDImpl<Test>(ID)`: look the answer up in the table. */
  function IsaId(h: Registry, test: nat, id: nat): (r: bool)
    requires WellFormed(h) && test < |h.decls| && id < |h.decls|
    ensures r == CtIsa(h, test, id)
    ensures r <==> OnParentChain(h, test, id)
  {
    CtIsaIsOnParentChain(h, test, id);
    IsaTable(h, test)[id]
  }
}
