/**
 * The `ID` hierarchy of test/csp.t.cpp and the outcomes the tests assert
 * about it:
 *
 *   Animal (abstract)
 *   ├─ Cetacea (abstract)
 *   │  ├─ Whale
 *   │  └─ Dolphin
 *   └─ Leopard
 */
module AnimalsTest {
  import opened Wrappers
  import opened Hierarchy
  import Downcast
  import Dispatch
  import Overload
  import DynUnion

  const Animal: nat := 0
  const Cetacea: nat := 1
  const Whale: nat := 2
  const Dolphin: nat := 3
  const Leopard: nat := 4

  /** The five `CSP_DEFINE`s. */
  const Animals := Registry([
    Decl(None, Abstract),
    Decl(Some(Animal), Abstract),
    Decl(Some(Cetacea), Concrete),
    Decl(Some(Cetacea), Concrete),
    Decl(Some(Animal), Concrete)
  ])

  /** A registry is well formed when every id reaches the sentinel within a given number of steps. */
  lemma WellFormedWithin(h: Registry, ks: seq<nat>)
    requires Closed(h) && |ks| == |h.decls|
    requires forall id :: 0 <= id < |h.decls| ==> ks[id] <= |h.decls| && ReachesRoot(h, id, ks[id])
    ensures WellFormed(h)
  {
    forall id | 0 <= id < |h.decls| ensures ReachesRoot(h, id, |h.decls|) {
      DepthWithinMono(h, id, ks[id], |h.decls|);
    }
  }

  lemma AnimalsWellFormed()
    ensures WellFormed(Animals)
  {
    WellFormedWithin(Animals, [1, 2, 3, 3, 2]);
  }

  /** The whole `isa` relation of the hierarchy. */
  lemma AnimalsIsa(a: nat, b: nat)
    requires a < 5 && b < 5
    ensures WellFormed(Animals)
    ensures CtIsa(Animals, a, b) <==> a == b || a == Animal || (a == Cetacea && (b == Whale || b == Dolphin))
  {
    AnimalsWellFormed();
    if b == Whale || b == Dolphin {
      assert CtIsa(Animals, a, b) == (a == b || CtIsa(Animals, a, Cetacea));
    }
    if b == Cetacea || b == Leopard {
      assert CtIsa(Animals, a, b) == (a == b || CtIsa(Animals, a, Animal));
    }
    assert CtIsa(Animals, a, Animal) == (a == Animal);
  }

  /** `testIsaAndDyncast`: a `Whale` seen through an `Animal const*`, a reference and its raw id. */
  lemma TestIsaAndDyncast(address: nat)
    ensures WellFormed(Animals)
    ensures var whale := Downcast.To(Downcast.Obj(address, Whale));
      Downcast.IsaPtr(Animals, Animal, whale) && Downcast.IsaPtr(Animals, Cetacea, whale) &&
      Downcast.IsaPtr(Animals, Whale, whale) &&
      !Downcast.IsaPtr(Animals, Leopard, whale) && !Downcast.IsaPtr(Animals, Dolphin, whale) &&
      Downcast.DyncastPtr(Animals, Animal, whale) == whale &&
      Downcast.DyncastPtr(Animals, Cetacea, whale) == whale &&
      Downcast.DyncastPtr(Animals, Whale, whale) == whale
    ensures var whale := Downcast.Obj(address, Whale);
      Downcast.IsaRef(Animals, Animal, whale) && Downcast.IsaRef(Animals, Cetacea, whale) &&
      Downcast.IsaRef(Animals, Whale, whale) &&
      !Downcast.IsaRef(Animals, Leopard, whale) && !Downcast.IsaRef(Animals, Dolphin, whale)
    ensures IsaId(Animals, Animal, Whale) && IsaId(Animals, Cetacea, Whale) && IsaId(Animals, Whale, Whale)
    ensures !IsaId(Animals, Leopard, Whale) && !IsaId(Animals, Dolphin, Whale)
  {
    AnimalsIsa(Animal, Whale);
    AnimalsIsa(Cetacea, Whale);
    AnimalsIsa(Whale, Whale);
    AnimalsIsa(Leopard, Whale);
    AnimalsIsa(Dolphin, Whale);
  }

  /** The ascending scans for concrete descendants of Animal, Cetacea and Leopard. */
  lemma AnimalSignatures()
    ensures WellFormed(Animals)
    ensures Dispatch.Invocable(Animals, Animal) == [Whale, Dolphin, Leopard]
    ensures Dispatch.Invocable(Animals, Cetacea) == [Whale, Dolphin]
    ensures Dispatch.Invocable(Animals, Leopard) == [Leopard]
  {
    AnimalsWellFormed();
    forall a, b | 0 <= a < 5 && 0 <= b < 5 ensures CtIsa(Animals, a, b) <==> a == b || a == Animal || (a == Cetacea && (b == Whale || b == Dolphin)) {
      AnimalsIsa(a, b);
    }
    forall id | id == Animal || id == Cetacea || id == Leopard ensures Dispatch.InvocableFrom(Animals, id, 5) == [] {
    }
    assert Dispatch.InvocableFrom(Animals, Animal, 4) == [Leopard];
    assert Dispatch.InvocableFrom(Animals, Animal, 3) == [Dolphin, Leopard];
    assert Dispatch.InvocableFrom(Animals, Animal, 2) == [Whale, Dolphin, Leopard];
    assert Dispatch.InvocableFrom(Animals, Animal, 1) == [Whale, Dolphin, Leopard];
    assert Dispatch.InvocableFrom(Animals, Cetacea, 4) == [];
    assert Dispatch.InvocableFrom(Animals, Cetacea, 3) == [Dolphin];
    assert Dispatch.InvocableFrom(Animals, Cetacea, 2) == [Whale, Dolphin];
    assert Dispatch.InvocableFrom(Animals, Cetacea, 1) == [Whale, Dolphin];
    assert Dispatch.InvocableFrom(Animals, Leopard, 4) == [Leopard];
    assert Dispatch.InvocableFrom(Animals, Leopard, 3) == [Leopard];
    assert Dispatch.InvocableFrom(Animals, Leopard, 2) == [Leopard];
    assert Dispatch.InvocableFrom(Animals, Leopard, 1) == [Leopard];
  }

  /** `dyn_union<Animal>` holds Whale, Dolphin or Leopard; `dyn_union<Cetacea>` Whale or Dolphin. */
  lemma UnionAlternatives()
    ensures WellFormed(Animals)
    ensures DynUnion.Alternatives(Animals, Animal) == [Whale, Dolphin, Leopard]
    ensures DynUnion.Alternatives(Animals, Cetacea) == [Whale, Dolphin]
  {
    AnimalSignatures();
    DynUnion.AlternativesAreInvocable(Animals, Animal);
    DynUnion.AlternativesAreInvocable(Animals, Cetacea);
  }

  /** The signature of a one-argument `visit` on a reference of static type `s`. */
  function One(s: nat): seq<Dispatch.Param> {
    [Dispatch.Param(Animals, s)]
  }

  /** `visit((Cetacea&)d, overload{ Dolphin const& -> found, Whale const& -> not found })` */
  function DolphinOrWhale(): seq<Overload.Handler<bool>> {
    [Overload.Handler([Dolphin], true), Overload.Handler([Whale], false)]
  }

  /** `constexprVisitationReturnVoid`: `overload{ Dolphin const& -> found, Animal const& -> not found }` */
  function DolphinOrAnimal(): seq<Overload.Handler<bool>> {
    [Overload.Handler([Dolphin], true), Overload.Handler([Animal], false)]
  }

  lemma DolphinFound()
    ensures WellFormed(Animals)
    ensures Overload.Call(One(Cetacea), DolphinOrWhale(), [Dolphin]) == Some(true)
    ensures Overload.Call(One(Cetacea), DolphinOrAnimal(), [Dolphin]) == Some(true)
  {
    AnimalsIsa(Dolphin, Dolphin);
    AnimalsIsa(Whale, Dolphin);
    AnimalsIsa(Animal, Dolphin);
    var ps := One(Cetacea);
    var hs, hs' := DolphinOrWhale(), DolphinOrAnimal();
    assert !CtIsa(ps[0].h, hs[1].params[0], Dolphin);
    assert Overload.Best(ps, hs, 0, [Dolphin]);
    Overload.ResolveIsBest(ps, hs, [Dolphin], 0);
    assert Overload.Best(ps, hs', 0, [Dolphin]);
    Overload.ResolveIsBest(ps, hs', [Dolphin], 0);
  }

  lemma OneCases(s: nat)
    requires s == Cetacea || s == Leopard
    ensures Dispatch.ParamsOk(One(s)) && Dispatch.TotalCases(Dispatch.InvocableLists(One(s))) > 0
  {
    AnimalSignatures();
    var inv := Dispatch.InvocableLists(One(s));
    assert Dispatch.Sizes(inv) == [|inv[0]|];
    assert Dispatch.Sizes(inv)[1..] == [];
  }

  /** A `Dolphin` through `Cetacea&`, or a `Leopard` through `Leopard&`, can be visited. */
  lemma OneVisitable(s: nat, t: nat)
    requires (s == Cetacea && t == Dolphin) || (s == Leopard && t == Leopard)
    ensures Dispatch.ParamsOk(One(s)) && Dispatch.TotalCases(Dispatch.InvocableLists(One(s))) > 0
    ensures Dispatch.Dispatchable(One(s), [t])
  {
    OneCases(s);
    AnimalsIsa(s, t);
  }

  /** `testVisitation` and `constexprVisitationReturnVoid`: visiting a Dolphin through `Cetacea&` finds the Dolphin handler. */
  method TestVisitDolphin() returns (found: Option<bool>, found': Option<bool>)
    ensures found == Some(true) && found' == Some(true)
  {
    OneVisitable(Cetacea, Dolphin);
    DolphinFound();
    var ps := One(Cetacea);
    var table := Dispatch.MakeVisitorTable(ps);
    found := Dispatch.Visit(ps, table, [Dolphin], t => Overload.Call(ps, DolphinOrWhale(), t));
    found' := Dispatch.Visit(ps, table, [Dolphin], t => Overload.Call(ps, DolphinOrAnimal(), t));
  }

  /** `visit((Cetacea&)d, (Animal const&)l, ...)`: the handler results 1, `'\0'` and `(unsigned short)0` as integers. */
  function TwoArgs(): seq<Dispatch.Param> {
    [Dispatch.Param(Animals, Cetacea), Dispatch.Param(Animals, Animal)]
  }

  function CetaceaLeopardHandlers(): seq<Overload.Handler<int>> {
    [Overload.Handler([Cetacea, Leopard], 1), Overload.Handler([Cetacea, Animal], 0), Overload.Handler([Animal, Animal], 0)]
  }

  lemma CetaceaLeopardOk()
    ensures WellFormed(Animals) && Overload.HandlersOk(TwoArgs(), CetaceaLeopardHandlers())
    ensures Overload.TupleOk(TwoArgs(), [Dolphin, Leopard])
  {
    AnimalsWellFormed();
  }

  /** The (Cetacea, Leopard) handler accepts (Dolphin, Leopard). */
  lemma CetaceaLeopardViable()
    ensures WellFormed(Animals) && Overload.HandlersOk(TwoArgs(), CetaceaLeopardHandlers())
    ensures Overload.TupleOk(TwoArgs(), [Dolphin, Leopard])
    ensures Overload.Viable(TwoArgs(), CetaceaLeopardHandlers()[0], [Dolphin, Leopard])
  {
    CetaceaLeopardOk();
    AnimalsIsa(Cetacea, Dolphin);
    AnimalsIsa(Leopard, Leopard);
  }

  /** The (Cetacea, Leopard) handler is more derived than (Cetacea, Animal) and (Animal, Animal). */
  lemma CetaceaLeopardBetter()
    ensures WellFormed(Animals) && Overload.HandlersOk(TwoArgs(), CetaceaLeopardHandlers())
    ensures var ps, hs := TwoArgs(), CetaceaLeopardHandlers();
      Overload.Better(ps, hs[0], hs[1]) && Overload.Better(ps, hs[0], hs[2])
  {
    CetaceaLeopardOk();
    AnimalsIsa(Cetacea, Cetacea);
    AnimalsIsa(Animal, Leopard);
    AnimalsIsa(Animal, Cetacea);
  }

  /** The (Cetacea, Leopard) handler is the best one for (Dolphin, Leopard). */
  lemma CetaceaLeopardBest()
    ensures WellFormed(Animals) && Overload.HandlersOk(TwoArgs(), CetaceaLeopardHandlers())
    ensures Overload.TupleOk(TwoArgs(), [Dolphin, Leopard])
    ensures Overload.Best(TwoArgs(), CetaceaLeopardHandlers(), 0, [Dolphin, Leopard])
  {
    CetaceaLeopardViable();
    CetaceaLeopardBetter();
  }

  lemma CetaceaLeopardResolves()
    ensures WellFormed(Animals)
    ensures Overload.Call(TwoArgs(), CetaceaLeopardHandlers(), [Dolphin, Leopard]) == Some(1)
  {
    CetaceaLeopardBest();
    Overload.ResolveIsBest(TwoArgs(), CetaceaLeopardHandlers(), [Dolphin, Leopard], 0);
  }

  lemma TwoArgsCases()
    ensures Dispatch.ParamsOk(TwoArgs()) && Dispatch.TotalCases(Dispatch.InvocableLists(TwoArgs())) == 6
    ensures Dispatch.Dispatchable(TwoArgs(), [Dolphin, Leopard])
  {
    AnimalsIsa(Cetacea, Dolphin);
    AnimalsIsa(Animal, Leopard);
    AnimalSignatures();
    var inv := Dispatch.InvocableLists(TwoArgs());
    assert Dispatch.Sizes(inv) == [2, 3];
    assert Dispatch.Sizes(inv)[1..] == [3];
    assert Dispatch.Sizes(inv)[1..][1..] == [];
  }

  /** `constexprVisitationMultipleArguments() == 1` */
  method TestVisitTwoArguments() returns (r: Option<int>)
    ensures r == Some(1)
  {
    TwoArgsCases();
    CetaceaLeopardResolves();
    var ps := TwoArgs();
    var table := Dispatch.MakeVisitorTable(ps);
    r := Dispatch.Visit(ps, table, [Dolphin, Leopard], t => Overload.Call(ps, CetaceaLeopardHandlers(), t));
  }

  /** `testVisitMostDerivedClass`: a `Leopard` visited as a `Leopard`. */
  method TestVisitMostDerivedClass() returns (r: bool)
    ensures r
  {
    OneVisitable(Leopard, Leopard);
    var ps := One(Leopard);
    var table := Dispatch.MakeVisitorTable(ps);
    r := Dispatch.Visit(ps, table, [Leopard], t => t == [Leopard]);
  }

  function LeopardHandlers(): seq<Overload.Handler<int>> {
    [Overload.Handler([Animal], 0), Overload.Handler([Leopard], 1)]
  }

  function WhaleHandlers(): seq<Overload.Handler<int>> {
    [Overload.Handler([Cetacea], 0), Overload.Handler([Whale], 1)]
  }

  lemma UnionHandlersResolve()
    ensures WellFormed(Animals)
    ensures Overload.Call(One(Animal), LeopardHandlers(), [Leopard]) == Some(1)
    ensures Overload.Call(One(Cetacea), WhaleHandlers(), [Whale]) == Some(1)
  {
    AnimalsIsa(Animal, Leopard);
    AnimalsIsa(Leopard, Leopard);
    AnimalsIsa(Leopard, Animal);
    AnimalsIsa(Cetacea, Whale);
    AnimalsIsa(Whale, Whale);
    AnimalsIsa(Whale, Cetacea);
    var hs, hs' := LeopardHandlers(), WhaleHandlers();
    assert Overload.Better(One(Animal), hs[1], hs[0]);
    Overload.ResolveIsBest(One(Animal), hs, [Leopard], 1);
    assert Overload.Better(One(Cetacea), hs'[1], hs'[0]);
    Overload.ResolveIsBest(One(Cetacea), hs', [Whale], 1);
  }

  /**
   * `testDynUnion`: a `dyn_union<Animal>` built from a Leopard visits to the
   * Leopard handler, and its copy and the move of that copy hold a Leopard.
   */
  method TestDynUnion() returns (result: Option<int>, copied: nat, moved: nat)
    ensures result == Some(1) && copied == Leopard && moved == Leopard
  {
    AnimalsIsa(Animal, Leopard);
    UnionHandlersResolve();
    var animal := new DynUnion.DynUnion<int>(Animals, Animal, Leopard, 0);
    var table := DynUnion.MakeUnionTable(Animals, Animal, Leopard);
    result := animal.Visit(table, t => Overload.Call(One(Animal), LeopardHandlers(), t));
    var a2 := new DynUnion.DynUnion<int>.Copy(animal);
    copied := a2.BaseObject().rtti;
    var a3 := new DynUnion.DynUnion<int>.Move(a2, 0);
    moved := a3.BaseObject().rtti;
  }

  /** `testPartialUnion`: a `dyn_union<Cetacea>` built from a Whale. */
  method TestPartialUnion() returns (result: Option<int>, rtti: nat)
    ensures result == Some(1) && rtti == Whale
  {
    AnimalsIsa(Cetacea, Whale);
    AnimalsIsa(Cetacea, Cetacea);
    UnionHandlersResolve();
    var c := new DynUnion.DynUnion<int>(Animals, Cetacea, Whale, 0);
    var table := DynUnion.MakeUnionTable(Animals, Cetacea, Whale);
    result := c.Visit(table, t => Overload.Call(One(Cetacea), WhaleHandlers(), t));
    rtti := c.Get(Cetacea).rtti;
  }

  /** `testRanges`: `csp::filter<Dolphin>` over a Dolphin, a Whale and a Leopard keeps the Dolphin. */
  lemma TestRanges()
    ensures WellFormed(Animals)
    ensures var animals := [Downcast.To(Downcast.Obj(0, Dolphin)), Downcast.To(Downcast.Obj(1, Whale)), Downcast.To(Downcast.Obj(2, Leopard))];
      Downcast.FilterIsa(Animals, Dolphin, animals) == [animals[0]]
  {
    AnimalsIsa(Dolphin, Dolphin);
    AnimalsIsa(Dolphin, Whale);
    AnimalsIsa(Dolphin, Leopard);
    var animals := [Downcast.To(Downcast.Obj(0, Dolphin)), Downcast.To(Downcast.Obj(1, Whale)), Downcast.To(Downcast.Obj(2, Leopard))];
    var r := Downcast.FilterIsa(Animals, Dolphin, animals);
    assert animals[0] in r;
    forall i | 0 <= i < |r| ensures r[i] == animals[0] {
      assert r[i] in animals;
    }
    if |r| > 1 {
      assert r[0] == r[1];
      Downcast.FilterIsaKeepsOrder(Animals, Dolphin, animals, animals[0], animals[0]);
    }
  }

  /**
   * A Whale owned by a smart pointer and dyncast to `Leopard`: as written no
   * handle owns it afterwards; the intended cast leaves it with the argument.
   */
  lemma WhaleToLeopardHandle(address: nat)
    ensures WellFormed(Animals)
    ensures var whale := Downcast.Obj(address, Whale);
      Downcast.Owners(Downcast.DyncastHandleAsWritten(Animals, Leopard, Downcast.Handle(Downcast.To(whale))), whale) == 0 &&
      Downcast.DyncastHandle(Animals, Leopard, Downcast.Handle(Downcast.To(whale))).source == Downcast.Handle(Downcast.To(whale))
  {
    AnimalsIsa(Leopard, Whale);
  }
}
