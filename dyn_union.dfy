/**
 * `csp::dyn_union<Base>`: storage for one object of any concrete type
 * derived from `Base`. The alternatives are the concrete descendants of
 * `Base` in id order; the live object's id (`get_rtti(base())`) tells which
 * one is active. The object's state apart from its id is an abstract value,
 * and the union records the lifetime events its storage goes through.
 */
module DynUnion {
  import opened Wrappers
  import opened Hierarchy
  import TypeList
  import Dispatch

  /** `MakeTypeListAll<Base>`: every id of the hierarchy, in id order. */
  function AllIds(h: Registry): (r: seq<nat>)
    ensures |r| == |h.decls| && forall i :: 0 <= i < |r| ==> r[i] == i
  {
    seq(|h.decls|, i => i)
  }

  /** `MakeTypeListDerivedConcrete<Base>::Pred`: concrete and derived from `base`. */
  predicate IsAlternative(h: Registry, base: nat, x: nat)
    requires WellFormed(h) && base < |h.decls| && x < |h.decls|
  {
    IsConcrete(h, x) && CtIsa(h, base, x)
  }

  /** `MakeTypeListDerivedConcrete<Base>`: the ids of the hierarchy kept by the predicate, in order. */
  function Alternatives(h: Registry, base: nat): (r: seq<nat>)
    requires WellFormed(h) && base < |h.decls|
    ensures forall i :: 0 <= i < |r| ==> r[i] < |h.decls| && IsAlternative(h, base, r[i])
    ensures forall x :: 0 <= x < |h.decls| && IsAlternative(h, base, x) ==> x in r
  {
    var all := AllIds(h);
    var r := TypeList.Filter(all, (x: nat) requires x < |h.decls| => IsAlternative(h, base, x));
    forall x | 0 <= x < |h.decls| && IsAlternative(h, base, x) ensures x in r {
      assert all[x] == x;
    }
    r
  }

  /** The filtered tail of the ids from `from` on is the invocable scan from `from`. */
  lemma {:induction false} FilterFromIsInvocableFrom(h: Registry, base: nat, from: nat)
    requires WellFormed(h) && base < |h.decls| && from <= |h.decls|
    ensures TypeList.Filter(AllIds(h)[from..], (x: nat) requires x < |h.decls| => IsAlternative(h, base, x))
         == Dispatch.InvocableFrom(h, base, from)
    decreases |h.decls| - from
  {
    var s := AllIds(h)[from..];
    if from < |h.decls| {
      assert s[0] == from;
      assert s[1..] == AllIds(h)[from + 1..];
      FilterFromIsInvocableFrom(h, base, from + 1);
    }
  }

  /** The alternatives are exactly the ids `visit` dispatches to for an argument of static type `base`. */
  lemma AlternativesAreInvocable(h: Registry, base: nat)
    requires WellFormed(h) && base < |h.decls|
    ensures Alternatives(h, base) == Dispatch.Invocable(h, base)
  {
    FilterFromIsInvocableFrom(h, base, 0);
    assert AllIds(h)[0..] == AllIds(h);
  }

  /**
   * `unionFind<Pred>`: walk the members head first and return the first one
   * whose type satisfies the predicate; here its position. None is the case
   * where the walk runs off the end, which does not compile.
   */
  function UnionFind(alts: seq<nat>, pred: nat --> bool): (r: Option<nat>)
    requires forall i :: 0 <= i < |alts| ==> pred.requires(alts[i])
    ensures r.Some? ==> r.value < |alts| && pred(alts[r.value])
    ensures r.Some? ==> forall j :: 0 <= j < r.value ==> !pred(alts[j])
    ensures r.None? ==> forall j :: 0 <= j < |alts| ==> !pred(alts[j])
  {
    if |alts| == 0 then None
    else if pred(alts[0]) then Some(0)
    else match UnionFind(alts[1..], pred)
      case Some(k) => Some(k + 1)
      case None => None
  }

  /** What the union stores: the live object's id and the rest of its state. */
  datatype Held<V> = Held(rtti: nat, value: V)

  /** A lifetime event of the union's storage, with the id of the alternative it concerns. */
  datatype Event =
    | Constructed(id: nat)      // from an object of a derived type
    | Copied(id: nat)           // copy constructor of the alternative
    | Moved(id: nat)            // move constructor of the alternative
    | MoveAssigned(id: nat)     // move assignment of the alternative, in place
    | Destroyed(id: nat)        // destructor of the alternative

  /** The one-argument signature of the union's `visit`: the hierarchy and `Base`. */
  function Signature(h: Registry, base: nat): seq<Dispatch.Param> {
    [Dispatch.Param(h, base)]
  }

  /** `visit` on a `Base&` can dispatch to every alternative. */
  lemma SignatureHasCases(h: Registry, base: nat, id: nat)
    requires WellFormed(h) && base < |h.decls| && id < |h.decls| && IsAlternative(h, base, id)
    ensures Dispatch.ParamsOk(Signature(h, base))
    ensures Dispatch.TotalCases(Dispatch.InvocableLists(Signature(h, base))) > 0
  {
    var inv := Dispatch.InvocableLists(Signature(h, base));
    Dispatch.InvocableFromComplete(h, base, 0, id);
    assert |inv[0]| > 0;
    assert Dispatch.Sizes(inv) == [|inv[0]|];
    assert Dispatch.Sizes(inv)[1..] == [];
  }

  /** The table is the one `visit` builds for a `Base&` argument. */
  ghost predicate TableFor(table: Dispatch.VisitorTable, h: Registry, base: nat)
    reads table, table.slots
    requires WellFormed(h) && base < |h.decls|
  {
    Dispatch.SignatureCaseSpace(Signature(h, base));
    table.Valid() &&
    table.indices == Dispatch.FlatCaseIndices(Dispatch.InvocableLists(Signature(h, base)), Dispatch.Bounds(Signature(h, base)))
  }

  /** The static dispatch table of `visit` on a `dyn_union<Base>`. */
  method MakeUnionTable(h: Registry, base: nat, id: nat) returns (table: Dispatch.VisitorTable)
    requires WellFormed(h) && base < |h.decls| && id < |h.decls| && IsAlternative(h, base, id)
    ensures fresh(table.slots) && TableFor(table, h, base)
  {
    SignatureHasCases(h, base, id);
    table := Dispatch.MakeVisitorTable(Signature(h, base));
  }

  /**
   * The union. The lifetime operations visit the live object to reach its
   * alternative; by the contract of `Visit` the case they reach is the one
   * of the active id, so they are written with the active id directly.
   */
  class DynUnion<V> {
    const h: Registry
    const base: nat
    /** `get_rtti(base())`: the id of the live object. */
    var active: nat
    var value: V
    /** False once the destructor has run. */
    var alive: bool
    var events: seq<Event>

    ghost predicate Valid()
      reads this
    {
      alive && Typed() && active < |h.decls| && IsAlternative(h, base, active)
    }

    predicate Typed() {
      WellFormed(h) && base < |h.decls|
    }

    /** `dyn_union(T&& t)`: the alternative of type `id` constructed from the value. */
    constructor (h: Registry, base: nat, id: nat, v: V)
      requires WellFormed(h) && base < |h.decls| && id < |h.decls| && IsAlternative(h, base, id)
      ensures Valid()
      ensures this.h == h && this.base == base && active == id && value == v
      ensures events == [Constructed(id)]
    {
      this.h := h;
      this.base := base;
      active := id;
      value := v;
      alive := true;
      events := [Constructed(id)];
    }

    /** `dyn_union(dyn_union const&)`: copy-construct `rhs`'s alternative. */
    constructor Copy(rhs: DynUnion<V>)
      requires rhs.Valid()
      ensures Valid()
      ensures h == rhs.h && base == rhs.base
      ensures active == rhs.active && value == rhs.value
      ensures events == [Copied(rhs.active)]
    {
      h := rhs.h;
      base := rhs.base;
      active := rhs.active;
      value := rhs.value;
      alive := true;
      events := [Copied(rhs.active)];
    }

    /**
     * `dyn_union(dyn_union&&)`: move-construct `rhs`'s alternative.
     * `leftover` is the state the alternative's move constructor leaves in
     * `rhs`'s object, which stays alive.
     */
    constructor Move(rhs: DynUnion<V>, leftover: V)
      requires rhs.Valid()
      modifies rhs
      ensures Valid() && rhs.Valid()
      ensures h == rhs.h && base == rhs.base
      ensures active == old(rhs.active) && value == old(rhs.value)
      ensures events == [Moved(active)]
      ensures rhs.active == old(rhs.active) && rhs.value == leftover && rhs.events == old(rhs.events)
    {
      h := rhs.h;
      base := rhs.base;
      active := rhs.active;
      value := rhs.value;
      alive := true;
      events := [Moved(rhs.active)];
      new;
      rhs.value := leftover;
    }

    /** `visit(f)`: `csp::visit(base(), f)`, the handler chosen by the active id. */
    method Visit<R>(table: Dispatch.VisitorTable, select: seq<nat> -> R) returns (r: R)
      requires Valid() && TableFor(table, h, base)
      ensures r == select([active])
    {
      var sig := Signature(h, base);
      Dispatch.SignatureCaseSpace(sig);
      r := Dispatch.Visit(sig, table, [active], select);
    }

    /** `get<T>()`: the live object seen as a `T`; asserts that it `isa<T>`. */
    function Get(t: nat): (r: Held<V>)
      reads this
      requires Valid() && t < |h.decls| && CtIsa(h, base, t)
      requires CtIsa(h, t, active)
      ensures r.rtti == active && r.value == value
      ensures OnParentChain(h, t, r.rtti) && OnParentChain(h, base, r.rtti)
    {
      CtIsaIsOnParentChain(h, t, active);
      CtIsaIsOnParentChain(h, base, active);
      Held(active, value)
    }

    /** `base()`: `get<Base>()`. */
    function BaseObject(): (r: Held<V>)
      reads this
      requires Valid()
      ensures r.rtti == active && IsAlternative(h, base, r.rtti)
    {
      Get(base)
    }

    /** `~dyn_union()`: destroy the live object. */
    method Destroy()
      requires Valid()
      modifies this
      ensures !alive && active == old(active) && value == old(value)
      ensures events == old(events) + [Destroyed(old(active))]
    {
      events := events + [Destroyed(active)];
      alive := false;
    }

    /** `std::construct_at(this, rhs)` on destroyed storage: the copy constructor run in place. */
    method ReconstructCopy(rhs: DynUnion<V>)
      requires !alive && Typed()
      requires rhs != this && rhs.Valid() && rhs.h == h && rhs.base == base
      modifies this
      ensures Valid()
      ensures active == rhs.active && value == rhs.value
      ensures events == old(events) + [Copied(rhs.active)]
    {
      active := rhs.active;
      value := rhs.value;
      alive := true;
      events := events + [Copied(rhs.active)];
    }

    /** `std::construct_at(this, std::move(rhs))` on destroyed storage: the move constructor run in place. */
    method ReconstructMove(rhs: DynUnion<V>, leftover: V)
      requires !alive && Typed()
      requires rhs != this && rhs.Valid() && rhs.h == h && rhs.base == base
      modifies this, rhs
      ensures Valid() && rhs.Valid()
      ensures active == old(rhs.active) && value == old(rhs.value)
      ensures events == old(events) + [Moved(old(rhs.active))]
      ensures rhs.active == old(rhs.active) && rhs.value == leftover && rhs.events == old(rhs.events)
    {
      active := rhs.active;
      value := rhs.value;
      alive := true;
      events := events + [Moved(rhs.active)];
      rhs.value := leftover;
    }

    /**
     * `operator=(dyn_union const&)`: unless it is self-assignment, destroy
     * the live object and copy-construct `rhs`'s alternative in its place,
     * even when both hold the same alternative.
     */
    method CopyAssign(rhs: DynUnion<V>)
      requires Valid() && rhs.Valid() && rhs.h == h && rhs.base == base
      modifies this
      ensures Valid()
      ensures active == old(rhs.active) && value == old(rhs.value)
      ensures rhs == this ==> events == old(events)
      ensures rhs != this ==> events == old(events) + [Destroyed(old(active)), Copied(old(rhs.active))]
    {
      if rhs == this {
        return;
      }
      Destroy();
      ReconstructCopy(rhs);
    }

    /** `visit([&]<typename T>(T& This) { This = std::move(rhs.get<T>()); })`: move-assign the alternative. */
    method AssignInPlace(rhs: DynUnion<V>, leftover: V)
      requires Valid() && rhs.Valid() && rhs != this && rhs.h == h && rhs.base == base && rhs.active == active
      modifies this, rhs
      ensures Valid() && rhs.Valid()
      ensures active == old(active) && value == old(rhs.value) && events == old(events) + [MoveAssigned(old(active))]
      ensures rhs.active == old(rhs.active) && rhs.value == leftover && rhs.events == old(rhs.events)
    {
      value := rhs.Get(active).value;
      events := events + [MoveAssigned(active)];
      rhs.value := leftover;
    }

    /**
     * `operator=(dyn_union&&)`: nothing on self-assignment; move-assign in
     * place when both hold the same alternative; otherwise destroy the live
     * object and move-construct `rhs`'s alternative in its place.
     */
    method MoveAssign(rhs: DynUnion<V>, leftover: V)
      requires Valid() && rhs.Valid() && rhs.h == h && rhs.base == base
      modifies this, rhs
      ensures Valid() && rhs.Valid()
      ensures rhs == this ==> active == old(active) && value == old(value) && events == old(events)
      ensures rhs != this ==> active == old(rhs.active) && value == old(rhs.value)
      ensures rhs != this ==> rhs.active == old(rhs.active) && rhs.value == leftover && rhs.events == old(rhs.events)
      ensures rhs != this && old(active) == old(rhs.active) ==> events == old(events) + [MoveAssigned(old(active))]
      ensures rhs != this && old(active) != old(rhs.active) ==> events == old(events) + [Destroyed(old(active)), Moved(old(rhs.active))]
    {
      if rhs == this {
        return;
      }
      if BaseObject().rtti == rhs.BaseObject().rtti {
        AssignInPlace(rhs, leftover);
        return;
      }
      Destroy();
      ReconstructMove(rhs, leftover);
    }
  }

  /**
   * `get<T>()` finds its member with `unionFind` on "derived from T": for an
   * object that `isa<T>` the walk succeeds, and the member it stops at is
   * no later than the active one.
   */
  lemma GetFindsMember<V>(u: DynUnion<V>, t: nat)
    requires u.Valid() && t < |u.h.decls| && CtIsa(u.h, t, u.active)
    ensures var alts := Alternatives(u.h, u.base);
      var k := UnionFind(alts, (x: nat) requires x < |u.h.decls| => CtIsa(u.h, t, x));
      k.Some? && CtIsa(u.h, t, alts[k.value]) && alts[k.value] <= u.active
  {
    var alts := Alternatives(u.h, u.base);
    var pred := (x: nat) requires x < |u.h.decls| => CtIsa(u.h, t, x);
    assert u.active in alts;
    var i :| 0 <= i < |alts| && alts[i] == u.active;
    var k := UnionFind(alts, pred);
    assert k.Some?;
    if i != k.value {
      AlternativesIncreasing(u.h, u.base, k.value, i);
    }
  }

  /** The alternatives are in strictly increasing id order. */
  lemma AlternativesIncreasing(h: Registry, base: nat, i: nat, j: nat)
    requires WellFormed(h) && base < |h.decls|
    requires i < j < |Alternatives(h, base)|
    ensures Alternatives(h, base)[i] < Alternatives(h, base)[j]
  {
    AlternativesAreInvocable(h, base);
  }
}
