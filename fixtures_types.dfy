/**
 * The `Type` hierarchy of test/csp.t.cpp, its two-class `SHType` hierarchy,
 * and the outcomes the tests assert about them:
 *
 *   Base (abstract)
 *   ├─ LDerivedA
 *   │  └─ LDerivedB
 *   │     └─ LDerivedC
 *   └─ RDerived
 */
module TypesTest {
  import opened Wrappers
  import opened Hierarchy
  import Downcast
  import Dispatch
  import Overload

  const Base: nat := 0
  const LDerivedA: nat := 1
  const LDerivedB: nat := 2
  const LDerivedC: nat := 3
  const RDerived: nat := 4

  const Types := Registry([
    Decl(None, Abstract),
    Decl(Some(Base), Concrete),
    Decl(Some(LDerivedA), Concrete),
    Decl(Some(LDerivedB), Concrete),
    Decl(Some(Base), Concrete)
  ])

  lemma TypesWellFormed()
    ensures WellFormed(Types)
  {
    forall id | 0 <= id < 5 ensures ReachesRoot(Types, id, 5) {
      var ks := [1, 2, 3, 4, 2];
      DepthWithinMono(Types, id, ks[id], 5);
    }
  }

  /** The whole `isa` relation of the hierarchy. */
  lemma TypesIsa(a: nat, b: nat)
    requires a < 5 && b < 5
    ensures WellFormed(Types)
    ensures CtIsa(Types, a, b) <==>
      a == b || a == Base || (a == LDerivedA && (b == LDerivedB || b == LDerivedC)) || (a == LDerivedB && b == LDerivedC)
  {
    TypesWellFormed();
    if b == LDerivedC {
      assert CtIsa(Types, a, b) == (a == b || CtIsa(Types, a, LDerivedB));
    }
    if b == LDerivedB || b == LDerivedC {
      assert CtIsa(Types, a, LDerivedB) == (a == LDerivedB || CtIsa(Types, a, LDerivedA));
    }
    if b != Base {
      assert CtIsa(Types, a, LDerivedA) == (a == LDerivedA || CtIsa(Types, a, Base));
      assert CtIsa(Types, a, RDerived) == (a == RDerived || CtIsa(Types, a, Base));
    }
    assert CtIsa(Types, a, Base) == (a == Base);
  }

  /** The ascending scans for concrete descendants of Base and LDerivedA. */
  lemma TypesSignatures()
    ensures WellFormed(Types)
    ensures Dispatch.Invocable(Types, Base) == [LDerivedA, LDerivedB, LDerivedC, RDerived]
    ensures Dispatch.Invocable(Types, LDerivedA) == [LDerivedA, LDerivedB, LDerivedC]
  {
    BaseSignature();
    LDerivedASignature();
  }

  /** Every class but `Base` itself is invocable through `Base&`. */
  lemma BaseSignature()
    ensures WellFormed(Types)
    ensures Dispatch.Invocable(Types, Base) == [LDerivedA, LDerivedB, LDerivedC, RDerived]
  {
    TypesWellFormed();
    forall b | 0 <= b < 5 ensures CtIsa(Types, Base, b) {
      TypesIsa(Base, b);
    }
    assert Dispatch.InvocableFrom(Types, Base, 5) == [];
    assert Dispatch.InvocableFrom(Types, Base, 4) == [RDerived];
    assert Dispatch.InvocableFrom(Types, Base, 3) == [LDerivedC, RDerived];
    assert Dispatch.InvocableFrom(Types, Base, 2) == [LDerivedB, LDerivedC, RDerived];
    assert Dispatch.InvocableFrom(Types, Base, 1) == [LDerivedA, LDerivedB, LDerivedC, RDerived];
  }

  /** The left branch `LDerivedA`, `LDerivedB`, `LDerivedC` is invocable through `LDerivedA&`. */
  lemma LDerivedASignature()
    ensures WellFormed(Types)
    ensures Dispatch.Invocable(Types, LDerivedA) == [LDerivedA, LDerivedB, LDerivedC]
  {
    TypesWellFormed();
    forall b | 0 <= b < 5 ensures CtIsa(Types, LDerivedA, b) <==> LDerivedA <= b <= LDerivedC {
      TypesIsa(LDerivedA, b);
    }
    assert Dispatch.InvocableFrom(Types, LDerivedA, 5) == [];
    assert Dispatch.InvocableFrom(Types, LDerivedA, 4) == [];
    assert Dispatch.InvocableFrom(Types, LDerivedA, 3) == [LDerivedC];
    assert Dispatch.InvocableFrom(Types, LDerivedA, 2) == [LDerivedB, LDerivedC];
    assert Dispatch.InvocableFrom(Types, LDerivedA, 1) == [LDerivedA, LDerivedB, LDerivedC];
  }

  /** The signature of a one-argument `visit` on a reference of static type `s`. */
  function One(s: nat): seq<Dispatch.Param> {
    [Dispatch.Param(Types, s)]
  }

  lemma OneCases(s: nat, t: nat)
    requires s == Base || s == LDerivedA
    requires t == LDerivedA || t == LDerivedB || t == LDerivedC
    ensures Dispatch.ParamsOk(One(s)) && Dispatch.TotalCases(Dispatch.InvocableLists(One(s))) > 0
    ensures Dispatch.Dispatchable(One(s), [t])
  {
    TypesSignatures();
    TypesIsa(s, t);
    var inv := Dispatch.InvocableLists(One(s));
    assert Dispatch.Sizes(inv) == [|inv[0]|];
    assert Dispatch.Sizes(inv)[1..] == [];
  }

  /** `testVisit`: the runtime type an `LDerivedA` visited through `Base&` reports. */
  method TestVisit() returns (r: nat)
    ensures r == LDerivedA
  {
    OneCases(Base, LDerivedA);
    var ps := One(Base);
    var table := Dispatch.MakeVisitorTable(ps);
    r := Dispatch.Visit(ps, table, [LDerivedA], t => if |t| == 1 then t[0] else Base);
  }

  /** `testVisitAbstract`: `overload{ LDerivedA& -> 1, RDerived& -> 2 }`. */
  function AbstractHandlers(): seq<Overload.Handler<int>> {
    [Overload.Handler([LDerivedA], 1), Overload.Handler([RDerived], 2)]
  }

  lemma AbstractResolves()
    ensures WellFormed(Types)
    ensures Overload.Call(One(Base), AbstractHandlers(), [LDerivedA]) == Some(1)
  {
    TypesIsa(LDerivedA, LDerivedA);
    TypesIsa(RDerived, LDerivedA);
    var hs := AbstractHandlers();
    assert !CtIsa(Types, hs[1].params[0], LDerivedA);
    assert Overload.Best(One(Base), hs, 0, [LDerivedA]);
    Overload.ResolveIsBest(One(Base), hs, [LDerivedA], 0);
  }

  method TestVisitAbstract() returns (i: Option<int>)
    ensures i == Some(1)
  {
    OneCases(Base, LDerivedA);
    AbstractResolves();
    var ps := One(Base);
    var table := Dispatch.MakeVisitorTable(ps);
    i := Dispatch.Visit(ps, table, [LDerivedA], t => Overload.Call(ps, AbstractHandlers(), t));
  }

  /** `testVisitSubtree`: `overload{ LDerivedA& -> 0, LDerivedC& -> 1 }` on an `LDerivedA&`. */
  function SubtreeHandlers(): seq<Overload.Handler<int>> {
    [Overload.Handler([LDerivedA], 0), Overload.Handler([LDerivedC], 1)]
  }

  /** `testVisitSubtree2`: `overload{ LDerivedA& -> 0, LDerivedB& -> 1 }` on an `LDerivedA&`. */
  function Subtree2Handlers(): seq<Overload.Handler<int>> {
    [Overload.Handler([LDerivedA], 0), Overload.Handler([LDerivedB], 1)]
  }

  lemma SubtreeResolves()
    ensures WellFormed(Types)
    ensures Overload.Call(One(LDerivedA), SubtreeHandlers(), [LDerivedA]) == Some(0)
    ensures Overload.Call(One(LDerivedA), SubtreeHandlers(), [LDerivedB]) == Some(0)
    ensures Overload.Call(One(LDerivedA), SubtreeHandlers(), [LDerivedC]) == Some(1)
  {
    SubtreeBelowC(LDerivedA);
    SubtreeBelowC(LDerivedB);
    SubtreeOnC();
  }

  /** An `LDerivedA` or `LDerivedB` does not derive from `LDerivedC`: only the first handler takes it. */
  lemma SubtreeBelowC(t: nat)
    requires t == LDerivedA || t == LDerivedB
    ensures WellFormed(Types)
    ensures Overload.Call(One(LDerivedA), SubtreeHandlers(), [t]) == Some(0)
  {
    var ps, hs := One(LDerivedA), SubtreeHandlers();
    TypesIsa(LDerivedA, t);
    TypesIsa(LDerivedC, t);
    assert !CtIsa(Types, hs[1].params[0], t);
    assert Overload.Best(ps, hs, 0, [t]);
    Overload.ResolveIsBest(ps, hs, [t], 0);
  }

  /** An `LDerivedC` is taken by the more derived second handler. */
  lemma SubtreeOnC()
    ensures WellFormed(Types)
    ensures Overload.Call(One(LDerivedA), SubtreeHandlers(), [LDerivedC]) == Some(1)
  {
    var ps, hs := One(LDerivedA), SubtreeHandlers();
    TypesIsa(LDerivedA, LDerivedC);
    TypesIsa(LDerivedC, LDerivedC);
    TypesIsa(LDerivedC, LDerivedA);
    assert Overload.Better(ps, hs[1], hs[0]);
    Overload.ResolveIsBest(ps, hs, [LDerivedC], 1);
  }

  lemma Subtree2Resolves()
    ensures WellFormed(Types)
    ensures Overload.Call(One(LDerivedA), Subtree2Handlers(), [LDerivedA]) == Some(0)
    ensures Overload.Call(One(LDerivedA), Subtree2Handlers(), [LDerivedB]) == Some(1)
    ensures Overload.Call(One(LDerivedA), Subtree2Handlers(), [LDerivedC]) == Some(1)
  {
    Subtree2OnA();
    Subtree2BelowB(LDerivedB);
    Subtree2BelowB(LDerivedC);
  }

  /** An `LDerivedA` does not derive from `LDerivedB`: only the first handler takes it. */
  lemma Subtree2OnA()
    ensures WellFormed(Types)
    ensures Overload.Call(One(LDerivedA), Subtree2Handlers(), [LDerivedA]) == Some(0)
  {
    var ps, hs := One(LDerivedA), Subtree2Handlers();
    TypesIsa(LDerivedA, LDerivedA);
    TypesIsa(LDerivedB, LDerivedA);
    assert !CtIsa(Types, hs[1].params[0], LDerivedA);
    assert Overload.Best(ps, hs, 0, [LDerivedA]);
    Overload.ResolveIsBest(ps, hs, [LDerivedA], 0);
  }

  /** An `LDerivedB` or `LDerivedC` is taken by the more derived second handler. */
  lemma Subtree2BelowB(t: nat)
    requires t == LDerivedB || t == LDerivedC
    ensures WellFormed(Types)
    ensures Overload.Call(One(LDerivedA), Subtree2Handlers(), [t]) == Some(1)
  {
    var ps, hs := One(LDerivedA), Subtree2Handlers();
    TypesIsa(LDerivedA, t);
    TypesIsa(LDerivedB, t);
    TypesIsa(LDerivedB, LDerivedA);
    assert Overload.Better(ps, hs[1], hs[0]);
    Overload.ResolveIsBest(ps, hs, [t], 1);
  }

  method TestVisitSubtree() returns (a: Option<int>, b: Option<int>, c: Option<int>)
    ensures a == Some(0) && b == Some(0) && c == Some(1)
  {
    OneCases(LDerivedA, LDerivedA);
    OneCases(LDerivedA, LDerivedB);
    OneCases(LDerivedA, LDerivedC);
    SubtreeResolves();
    var ps := One(LDerivedA);
    var table := Dispatch.MakeVisitorTable(ps);
    var dispatcher := t => Overload.Call(ps, SubtreeHandlers(), t);
    a := Dispatch.Visit(ps, table, [LDerivedA], dispatcher);
    b := Dispatch.Visit(ps, table, [LDerivedB], dispatcher);
    c := Dispatch.Visit(ps, table, [LDerivedC], dispatcher);
  }

  method TestVisitSubtree2() returns (a: Option<int>, b: Option<int>, c: Option<int>)
    ensures a == Some(0) && b == Some(1) && c == Some(1)
  {
    OneCases(LDerivedA, LDerivedA);
    OneCases(LDerivedA, LDerivedB);
    OneCases(LDerivedA, LDerivedC);
    Subtree2Resolves();
    var ps := One(LDerivedA);
    var table := Dispatch.MakeVisitorTable(ps);
    var dispatcher := t => Overload.Call(ps, Subtree2Handlers(), t);
    a := Dispatch.Visit(ps, table, [LDerivedA], dispatcher);
    b := Dispatch.Visit(ps, table, [LDerivedB], dispatcher);
    c := Dispatch.Visit(ps, table, [LDerivedC], dispatcher);
  }

  /** `testMDVisit`: `visit(Base&, LDerivedA&, ...)` over four two-argument handlers. */
  function MdParams(): seq<Dispatch.Param> {
    [Dispatch.Param(Types, Base), Dispatch.Param(Types, LDerivedA)]
  }

  function MdHandlers(): seq<Overload.Handler<int>> {
    [Overload.Handler([Base, LDerivedA], 0), Overload.Handler([Base, LDerivedB], 1),
     Overload.Handler([LDerivedB, LDerivedA], 2), Overload.Handler([LDerivedB, LDerivedB], 3)]
  }

  lemma MdCases()
    ensures Dispatch.ParamsOk(MdParams()) && Dispatch.TotalCases(Dispatch.InvocableLists(MdParams())) == 12
    ensures forall x, y :: LDerivedA <= x <= LDerivedC && LDerivedA <= y <= LDerivedC ==> Dispatch.Dispatchable(MdParams(), [x, y])
  {
    TypesSignatures();
    var inv := Dispatch.InvocableLists(MdParams());
    assert Dispatch.Sizes(inv) == [4, 3];
    assert Dispatch.Sizes(inv)[1..] == [3];
    assert Dispatch.Sizes(inv)[1..][1..] == [];
    forall x, y | LDerivedA <= x <= LDerivedC && LDerivedA <= y <= LDerivedC ensures Dispatch.Dispatchable(MdParams(), [x, y]) {
      TypesIsa(Base, x);
      TypesIsa(LDerivedA, y);
    }
  }

  lemma MdHandlersOk()
    ensures Overload.HandlersOk(MdParams(), MdHandlers())
  {
    TypesWellFormed();
    var hs := MdHandlers();
    forall k | 0 <= k < 4 ensures Overload.HandlerOk(MdParams(), hs[k]) {
    }
  }

  /** Handler `j` takes runtime ids `(x, y)` when both its parameter types are ancestors. */
  lemma MdViable(j: nat, x: nat, y: nat)
    requires j < 4 && LDerivedA <= x <= LDerivedC && LDerivedA <= y <= LDerivedC
    ensures Overload.HandlersOk(MdParams(), MdHandlers()) && Overload.TupleOk(MdParams(), [x, y])
    ensures Overload.Viable(MdParams(), MdHandlers()[j], [x, y]) <==>
      (j < 2 || x == LDerivedB || x == LDerivedC) && (j % 2 == 0 || y == LDerivedB || y == LDerivedC)
  {
    MdViableIsa(j, x, y);
    var hd := MdHandlers()[j];
    TypesIsa(hd.params[0], x);
    TypesIsa(hd.params[1], y);
  }

  /** Handler `j` takes `(x, y)` exactly when each parameter type is an ancestor of its argument. */
  lemma MdViableIsa(j: nat, x: nat, y: nat)
    requires j < 4 && LDerivedA <= x <= LDerivedC && LDerivedA <= y <= LDerivedC
    ensures Overload.HandlersOk(MdParams(), MdHandlers()) && Overload.TupleOk(MdParams(), [x, y])
    ensures Overload.Viable(MdParams(), MdHandlers()[j], [x, y]) <==>
      CtIsa(Types, MdHandlers()[j].params[0], x) && CtIsa(Types, MdHandlers()[j].params[1], y)
  {
    MdHandlersOk();
    TypesWellFormed();
  }

  /** The preference among the four handlers: everything beats 0, and 3 beats everything. */
  lemma MdBetter(k: nat, j: nat)
    requires k < 4 && j < 4
    ensures Overload.HandlersOk(MdParams(), MdHandlers())
    ensures Overload.Better(MdParams(), MdHandlers()[k], MdHandlers()[j]) <==> k != j && (j == 0 || k == 3)
  {
    MdBetterIsa(k, j);
    var a, b := MdHandlers()[k], MdHandlers()[j];
    TypesIsa(b.params[0], a.params[0]);
    TypesIsa(b.params[1], a.params[1]);
  }

  /** Handler `k` is preferred to handler `j` exactly when its parameter types derive from `j`'s and `k != j`. */
  lemma MdBetterIsa(k: nat, j: nat)
    requires k < 4 && j < 4
    ensures Overload.HandlersOk(MdParams(), MdHandlers())
    ensures var a, b := MdHandlers()[k], MdHandlers()[j];
      Overload.Better(MdParams(), a, b) <==>
      CtIsa(Types, b.params[0], a.params[0]) && CtIsa(Types, b.params[1], a.params[1]) && k != j
  {
    MdHandlersOk();
    TypesWellFormed();
    var a, b := MdHandlers()[k], MdHandlers()[j];
    assert Overload.AtLeastAsDerived(MdParams(), a, b) <==>
      CtIsa(Types, b.params[0], a.params[0]) && CtIsa(Types, b.params[1], a.params[1]);
    assert a.params == b.params <==> k == j by {
      if k != j { assert a.params[0] != b.params[0] || a.params[1] != b.params[1]; }
    }
  }

  /** The handler `testMDVisit` expects for runtime ids `(x, y)`. */
  lemma MdResolves(x: nat, y: nat, k: nat)
    requires (x, y, k) in {(LDerivedA, LDerivedA, 0), (LDerivedA, LDerivedB, 1), (LDerivedA, LDerivedC, 1),
                           (LDerivedB, LDerivedA, 2), (LDerivedB, LDerivedB, 3), (LDerivedB, LDerivedC, 3)}
    ensures Overload.Call(MdParams(), MdHandlers(), [x, y]) == Some(k)
  {
    var ps, hs := MdParams(), MdHandlers();
    MdViable(k, x, y);
    forall j | 0 <= j < 4 && j != k && Overload.Viable(ps, hs[j], [x, y]) ensures Overload.Better(ps, hs[k], hs[j]) {
      MdViable(j, x, y);
      MdBetter(k, j);
    }
    assert Overload.Best(ps, hs, k, [x, y]);
    Overload.ResolveIsBest(ps, hs, [x, y], k);
  }

  method TestMDVisit() returns (aa: Option<int>, ab: Option<int>, ac: Option<int>, ba: Option<int>, bb: Option<int>, bc: Option<int>)
    ensures aa == Some(0) && ab == Some(1) && ac == Some(1)
    ensures ba == Some(2) && bb == Some(3) && bc == Some(3)
  {
    MdCases();
    MdResolves(LDerivedA, LDerivedA, 0);
    MdResolves(LDerivedA, LDerivedB, 1);
    MdResolves(LDerivedA, LDerivedC, 1);
    MdResolves(LDerivedB, LDerivedA, 2);
    MdResolves(LDerivedB, LDerivedB, 3);
    MdResolves(LDerivedB, LDerivedC, 3);
    var ps := MdParams();
    var table := Dispatch.MakeVisitorTable(ps);
    var dispatcher := t => Overload.Call(ps, MdHandlers(), t);
    aa := Dispatch.Visit(ps, table, [LDerivedA, LDerivedA], dispatcher);
    ab := Dispatch.Visit(ps, table, [LDerivedA, LDerivedB], dispatcher);
    ac := Dispatch.Visit(ps, table, [LDerivedA, LDerivedC], dispatcher);
    ba := Dispatch.Visit(ps, table, [LDerivedB, LDerivedA], dispatcher);
    bb := Dispatch.Visit(ps, table, [LDerivedB, LDerivedB], dispatcher);
    bc := Dispatch.Visit(ps, table, [LDerivedB, LDerivedC], dispatcher);
  }

  /** `testIsaAndDyncast2`: an `LDerivedA`, an `LDerivedB` and an `RDerived`, by reference and through `Base const*`. */
  lemma TestIsaAndDyncast2(address: nat)
    ensures WellFormed(Types)
    ensures var la := Downcast.Obj(address, LDerivedA);
      Downcast.IsaRef(Types, Base, la) && Downcast.IsaRef(Types, LDerivedA, la) &&
      !Downcast.IsaRef(Types, LDerivedB, la) && !Downcast.IsaRef(Types, RDerived, la) &&
      Downcast.DyncastPtr(Types, LDerivedA, Downcast.To(la)).To? &&
      Downcast.DyncastPtr(Types, LDerivedB, Downcast.To(la)).Null? &&
      Downcast.DyncastPtr(Types, RDerived, Downcast.To(la)).Null? &&
      Downcast.DyncastRef(Types, Base, la).Success? && Downcast.DyncastRef(Types, LDerivedA, la).Success? &&
      Downcast.DyncastRef(Types, LDerivedB, la).Failure? && Downcast.DyncastRef(Types, RDerived, la).Failure?
    ensures var lb := Downcast.Obj(address, LDerivedB);
      Downcast.IsaRef(Types, Base, lb) && Downcast.IsaRef(Types, LDerivedA, lb) &&
      Downcast.IsaRef(Types, LDerivedB, lb) && !Downcast.IsaRef(Types, RDerived, lb) &&
      Downcast.DyncastPtr(Types, LDerivedB, Downcast.To(lb)).To? &&
      Downcast.DyncastPtr(Types, RDerived, Downcast.To(lb)).Null? &&
      Downcast.DyncastRef(Types, LDerivedB, lb).Success? && Downcast.DyncastRef(Types, RDerived, lb).Failure?
    ensures var r := Downcast.Obj(address, RDerived);
      Downcast.IsaRef(Types, Base, r) && !Downcast.IsaRef(Types, LDerivedA, r) &&
      !Downcast.IsaRef(Types, LDerivedB, r) && Downcast.IsaRef(Types, RDerived, r) &&
      Downcast.DyncastPtr(Types, LDerivedA, Downcast.To(r)).Null? &&
      Downcast.DyncastRef(Types, Base, r).Success? && Downcast.DyncastRef(Types, RDerived, r).Success? &&
      Downcast.DyncastRef(Types, LDerivedA, r).Failure? && Downcast.DyncastRef(Types, LDerivedB, r).Failure?
  {
    forall a, b | 0 <= a < 5 && (b == LDerivedA || b == LDerivedB || b == RDerived) ensures CtIsa(Types, a, b) <==>
      a == b || a == Base || (a == LDerivedA && b == LDerivedB) {
      TypesIsa(a, b);
    }
  }

  /** The two-class `SHType` hierarchy. */
  const SHBase: nat := 0
  const SHDerived: nat := 1

  const Small := Registry([Decl(None, Abstract), Decl(Some(SHBase), Concrete)])

  lemma SmallFacts()
    ensures WellFormed(Small)
    ensures CtIsa(Small, SHBase, SHDerived) && CtIsa(Small, SHDerived, SHDerived) && !CtIsa(Small, SHDerived, SHBase)
    ensures Dispatch.Invocable(Small, SHBase) == [SHDerived]
  {
    forall id | 0 <= id < 2 ensures ReachesRoot(Small, id, 2) {
      DepthWithinMono(Small, id, id + 1, 2);
    }
    assert CtIsa(Small, SHBase, SHBase);
    assert Dispatch.InvocableFrom(Small, SHBase, 2) == [];
    assert Dispatch.InvocableFrom(Small, SHBase, 1) == [SHDerived];
  }

  function SmallHandlers(): seq<Overload.Handler<int>> {
    [Overload.Handler([SHBase], 0), Overload.Handler([SHDerived], 1)]
  }

  lemma SmallCases()
    ensures WellFormed(Small)
    ensures Dispatch.ParamsOk([Dispatch.Param(Small, SHBase)])
    ensures Dispatch.TotalCases(Dispatch.InvocableLists([Dispatch.Param(Small, SHBase)])) > 0
    ensures Dispatch.Dispatchable([Dispatch.Param(Small, SHBase)], [SHDerived])
  {
    SmallFacts();
    var inv := Dispatch.InvocableLists([Dispatch.Param(Small, SHBase)]);
    assert inv[0] == Dispatch.Invocable(Small, SHBase);
    assert Dispatch.Sizes(inv) == [1];
    assert Dispatch.Sizes(inv)[1..] == [];
  }

  lemma SmallResolves()
    ensures Overload.Call([Dispatch.Param(Small, SHBase)], SmallHandlers(), [SHDerived]) == Some(1)
  {
    SmallFacts();
    var ps, hs := [Dispatch.Param(Small, SHBase)], SmallHandlers();
    assert Overload.Better(ps, hs[1], hs[0]);
    Overload.ResolveIsBest(ps, hs, [SHDerived], 1);
  }

  /** `testSmallHierarchy` */
  method TestSmallHierarchy() returns (result: Option<int>)
    ensures result == Some(1)
  {
    SmallCases();
    SmallResolves();
    var ps := [Dispatch.Param(Small, SHBase)];
    var table := Dispatch.MakeVisitorTable(ps);
    result := Dispatch.Visit(ps, table, [SHDerived], t => Overload.Call(ps, SmallHandlers(), t));
  }
}
