/**
 * Multiple dispatch over closed hierarchies (`csp::visit`). For every
 * argument the invocable ids are the concrete ids that `isa` its static type;
 * every combination of them is one visitor case. Each case is filed in a
 * function table under its flat index in the space of all id combinations,
 * compacted to the range [min, max] of the flat indices that occur. At run
 * time the tuple of runtime ids is flattened and the table entry at
 * flat - min is invoked. Handlers are abstract: a case is identified by its
 * tuple of concrete ids, and invoking it applies a selection function to it.
 */
module Dispatch {
  import opened Wrappers
  import opened Hierarchy
  import TypeList
  import MultiIndex

  /** One argument of `visit`: the hierarchy of its type and its static type id. */
  datatype Param = Param(h: Registry, staticId: nat)

  predicate ParamOk(p: Param) {
    WellFormed(p.h) && p.staticId < |p.h.decls|
  }

  predicate ParamsOk(ps: seq<Param>) {
    forall i :: 0 <= i < |ps| ==> ParamOk(ps[i])
  }

  predicate Increasing(s: seq<nat>) {
    forall i, j :: 0 <= i < j < |s| ==> s[i] < s[j]
  }

  /** `InvocableIndicesImpl<ID, IDType, Current, Last, ...>`: scan the ids from `current` upwards. */
  function InvocableFrom(h: Registry, id: nat, current: nat): (r: seq<nat>)
    requires WellFormed(h) && id < |h.decls| && current <= |h.decls|
    ensures forall i :: 0 <= i < |r| ==> current <= r[i] < |h.decls| && IsConcrete(h, r[i]) && CtIsa(h, id, r[i])
    ensures Increasing(r)
    decreases |h.decls| - current
  {
    if current == |h.decls| then []
    else
      var rest := InvocableFrom(h, id, current + 1);
      if IsConcrete(h, current) && CtIsa(h, id, current) then [current] + rest else rest
  }

  /** The scan misses no concrete descendant at or above `current`. */
  lemma {:induction false} InvocableFromComplete(h: Registry, id: nat, current: nat, x: nat)
    requires WellFormed(h) && id < |h.decls| && current <= x < |h.decls|
    requires IsConcrete(h, x) && CtIsa(h, id, x)
    ensures x in InvocableFrom(h, id, current)
    decreases x - current
  {
    if current < x {
      InvocableFromComplete(h, id, current + 1, x);
    }
  }

  /** `ComputeInvocableIndices<T>`: the scan from `IDTraits::first` (0) to `IDTraits::last`. */
  function Invocable(h: Registry, id: nat): (r: seq<nat>)
    requires WellFormed(h) && id < |h.decls|
    ensures Increasing(r)
  {
    InvocableFrom(h, id, 0)
  }

  /** The invocable ids are exactly the concrete ids whose parent chain contains the static id. */
  lemma InvocableIsConcreteDescendants(h: Registry, id: nat, x: nat)
    requires WellFormed(h) && id < |h.decls|
    ensures x in Invocable(h, id) <==> x < |h.decls| && IsConcrete(h, x) && OnParentChain(h, id, x)
  {
    if x < |h.decls| {
      CtIsaIsOnParentChain(h, id, x);
      if IsConcrete(h, x) && CtIsa(h, id, x) {
        InvocableFromComplete(h, id, 0, x);
      }
    }
  }

  function InvocableOf(p: Param): seq<nat>
    requires ParamOk(p)
  {
    Invocable(p.h, p.staticId)
  }

  /** `TypesToBounds<T...>`: the number of ids of each argument's hierarchy. */
  function Bounds(ps: seq<Param>): (r: seq<nat>)
    ensures |r| == |ps| && forall i :: 0 <= i < |ps| ==> r[i] == |ps[i].h.decls|
  {
    seq(|ps|, i requires 0 <= i < |ps| => |ps[i].h.decls|)
  }

  /** `ComputeInvocableIndices<T>...`: one list of invocable ids per argument. */
  function InvocableLists(ps: seq<Param>): (r: seq<seq<nat>>)
    requires ParamsOk(ps)
    ensures |r| == |ps| && forall i :: 0 <= i < |ps| ==> r[i] == InvocableOf(ps[i])
  {
    seq(|ps|, i requires 0 <= i < |ps| && ParamOk(ps[i]) => InvocableOf(ps[i]))
  }

  /** A tuple of runtime ids that the arguments can have: concrete descendants of the static types. */
  predicate Dispatchable(ps: seq<Param>, t: seq<nat>)
    requires ParamsOk(ps)
  {
    |t| == |ps| &&
    forall i :: 0 <= i < |ps| ==> t[i] < |ps[i].h.decls| && IsConcrete(ps[i].h, t[i]) && CtIsa(ps[i].h, ps[i].staticId, t[i])
  }

  /*
   * From here on a `visit` signature is described by its lists of invocable
   * ids `inv` (one per argument, ascending) and the id counts `bounds` of the
   * argument hierarchies.
   */

  /** Each list lies below its bound. */
  predicate CaseSpace(inv: seq<seq<nat>>, bounds: seq<nat>) {
    |inv| == |bounds| &&
    forall i :: 0 <= i < |inv| ==> forall j :: 0 <= j < |inv[i]| ==> inv[i][j] < bounds[i]
  }

  /** Each list is ascending, as the scan from id 0 upwards produces it. */
  predicate Ascending(inv: seq<seq<nat>>) {
    forall i :: 0 <= i < |inv| ==> Increasing(inv[i])
  }

  /** A tuple picks one invocable id for every argument. */
  predicate InSpace(inv: seq<seq<nat>>, t: seq<nat>) {
    |t| == |inv| && forall i :: 0 <= i < |inv| ==> t[i] in inv[i]
  }

  /** A tuple of invocable ids is a multi-index within the bounds. */
  lemma InSpaceInBounds(inv: seq<seq<nat>>, bounds: seq<nat>, t: seq<nat>)
    requires CaseSpace(inv, bounds) && InSpace(inv, t)
    ensures MultiIndex.InBounds(t, bounds)
  {
    forall i | 0 <= i < |t| ensures t[i] < bounds[i] {
      var j :| 0 <= j < |inv[i]| && inv[i][j] == t[i];
    }
  }

  /** The lists computed from the parameters form a case space over their bounds. */
  lemma SignatureCaseSpace(ps: seq<Param>)
    requires ParamsOk(ps)
    ensures CaseSpace(InvocableLists(ps), Bounds(ps)) && Ascending(InvocableLists(ps))
  {
    var inv := InvocableLists(ps);
    forall i | 0 <= i < |ps| ensures Increasing(inv[i]) && forall j :: 0 <= j < |inv[i]| ==> inv[i][j] < |ps[i].h.decls| {
      assert inv[i] == InvocableOf(ps[i]);
    }
  }

  /** The dispatchable tuples are exactly the tuples of invocable ids. */
  lemma DispatchableInSpace(ps: seq<Param>, t: seq<nat>)
    requires ParamsOk(ps)
    ensures Dispatchable(ps, t) <==> InSpace(InvocableLists(ps), t)
  {
    var inv := InvocableLists(ps);
    if Dispatchable(ps, t) {
      forall i | 0 <= i < |ps| ensures t[i] in inv[i] {
        InvocableFromComplete(ps[i].h, ps[i].staticId, 0, t[i]);
      }
    }
    if InSpace(inv, t) {
      forall i | 0 <= i < |ps| ensures t[i] < |ps[i].h.decls| && IsConcrete(ps[i].h, t[i]) && CtIsa(ps[i].h, ps[i].staticId, t[i]) {
        var l := InvocableOf(ps[i]);
        var j :| 0 <= j < |l| && l[j] == t[i];
      }
    }
  }

  /** The number of invocable ids of each argument. */
  function Sizes(inv: seq<seq<nat>>): (r: seq<nat>)
    ensures |r| == |inv| && forall i :: 0 <= i < |inv| ==> r[i] == |inv[i]|
  {
    seq(|inv|, i requires 0 <= i < |inv| => |inv[i]|)
  }

  /** `TotalInvocableCases`: the product of the invocable counts. */
  function TotalCases(inv: seq<seq<nat>>): nat {
    MultiIndex.Product(Sizes(inv))
  }

  lemma {:induction false} PositiveProduct(b: seq<nat>)
    requires MultiIndex.Product(b) > 0
    ensures MultiIndex.AllPositive(b)
  {
    if |b| > 0 {
      assert b[0] != 0;
      PositiveProduct(b[1..]);
      assert forall i :: 1 <= i < |b| ==> b[i] == b[1..][i - 1];
    }
  }

  /** `MakeStructuredIndex<FlatInvokeIndex, InvocableIndices...>`: expand the case number over the list sizes and pick those ids. */
  function StructuredIndex(inv: seq<seq<nat>>, f: nat): (t: seq<nat>)
    requires f < TotalCases(inv)
    ensures InSpace(inv, t)
  {
    var sizes := Sizes(inv);
    PositiveProduct(sizes);
    MultiIndex.FlatExpanded(f, sizes);
    var ex := MultiIndex.Expanded(f, sizes);
    seq(|inv|, i requires 0 <= i < |inv| => inv[i][ex[i]])
  }

  /** The flat index of a visitor case in the space of all id combinations. */
  function FlatCaseIndex(inv: seq<seq<nat>>, bounds: seq<nat>, f: nat): (r: nat)
    requires CaseSpace(inv, bounds) && f < TotalCases(inv)
  {
    var t := StructuredIndex(inv, f);
    InSpaceInBounds(inv, bounds, t);
    MultiIndex.Flat(t, bounds)
  }

  /** `FlatCaseIndexList` */
  function FlatCaseIndices(inv: seq<seq<nat>>, bounds: seq<nat>): (r: seq<nat>)
    requires CaseSpace(inv, bounds)
    ensures |r| == TotalCases(inv)
  {
    seq(TotalCases(inv), f requires 0 <= f < TotalCases(inv) => FlatCaseIndex(inv, bounds, f))
  }

  function IndexOf(s: seq<nat>, x: nat): (i: nat)
    requires x in s
    ensures i < |s| && s[i] == x
  {
    if s[0] == x then 0 else 1 + IndexOf(s[1..], x)
  }

  /** Distinct case numbers give distinct tuples of ids. */
  lemma StructuredIndexInjective(inv: seq<seq<nat>>, f: nat, g: nat)
    requires Ascending(inv) && f < TotalCases(inv) && g < TotalCases(inv)
    requires StructuredIndex(inv, f) == StructuredIndex(inv, g)
    ensures f == g
  {
    var sizes := Sizes(inv);
    PositiveProduct(sizes);
    MultiIndex.FlatExpanded(f, sizes);
    MultiIndex.FlatExpanded(g, sizes);
    var ef, eg := MultiIndex.Expanded(f, sizes), MultiIndex.Expanded(g, sizes);
    forall i | 0 <= i < |inv| ensures ef[i] == eg[i] {
      var l := inv[i];
      assert StructuredIndex(inv, f)[i] == l[ef[i]] && StructuredIndex(inv, g)[i] == l[eg[i]];
      assert Increasing(l);
    }
    assert ef == eg;
  }

  /** Every tuple of invocable ids is one of the cases. */
  lemma CasesCover(inv: seq<seq<nat>>, t: seq<nat>) returns (f: nat)
    requires InSpace(inv, t)
    ensures f < TotalCases(inv) && StructuredIndex(inv, f) == t
  {
    var sizes := Sizes(inv);
    var pos := seq(|inv|, i requires 0 <= i < |inv| && t[i] in inv[i] => IndexOf(inv[i], t[i]));
    assert MultiIndex.InBounds(pos, sizes);
    f := MultiIndex.Flat(pos, sizes);
    MultiIndex.FlatBelowProduct(pos, sizes);
    MultiIndex.ExpandFlat(pos, sizes);
    var s := StructuredIndex(inv, f);
    forall i | 0 <= i < |inv| ensures s[i] == t[i] {
    }
  }

  /** Distinct cases have distinct flat case indices, so they go to distinct table slots. */
  lemma FlatCaseIndicesDistinct(inv: seq<seq<nat>>, bounds: seq<nat>, f: nat, g: nat)
    requires CaseSpace(inv, bounds) && Ascending(inv) && f < TotalCases(inv) && g < TotalCases(inv) && f != g
    ensures FlatCaseIndices(inv, bounds)[f] != FlatCaseIndices(inv, bounds)[g]
  {
    var sf, sg := StructuredIndex(inv, f), StructuredIndex(inv, g);
    assert FlatCaseIndices(inv, bounds)[f] == FlatCaseIndex(inv, bounds, f);
    assert FlatCaseIndices(inv, bounds)[g] == FlatCaseIndex(inv, bounds, g);
    if MultiIndex.Flat(sf, bounds) == MultiIndex.Flat(sg, bounds) {
      InSpaceInBounds(inv, bounds, sf);
      InSpaceInBounds(inv, bounds, sg);
      MultiIndex.FlatInjective(sf, sg, bounds);
      StructuredIndexInjective(inv, f, g);
    }
  }

  /** The table after `assignDispatchArray` stored `cases[i]` at `indices[i] - offset`, in loop order. */
  function Assigned<T>(base: seq<Option<T>>, indices: seq<nat>, cases: seq<T>, offset: nat): (r: seq<Option<T>>)
    requires |indices| == |cases|
    ensures |r| == |base|
    decreases |indices|
  {
    if |indices| == 0 then base
    else
      var n := |indices| - 1;
      var prev := Assigned(base, indices[..n], cases[..n], offset);
      if offset <= indices[n] < offset + |base| then prev[indices[n] - offset := Some(cases[n])] else prev
  }

  /** With distinct indices every case sits in its own slot, and every other slot keeps its old value. */
  lemma {:induction false} AssignedAt<T>(base: seq<Option<T>>, indices: seq<nat>, cases: seq<T>, offset: nat, slot: nat)
    requires |indices| == |cases|
    requires forall i :: 0 <= i < |indices| ==> offset <= indices[i] < offset + |base|
    requires forall i, j :: 0 <= i < j < |indices| ==> indices[i] != indices[j]
    requires slot < |base|
    ensures forall j :: 0 <= j < |indices| && indices[j] - offset == slot ==> Assigned(base, indices, cases, offset)[slot] == Some(cases[j])
    ensures (forall j :: 0 <= j < |indices| ==> indices[j] - offset != slot) ==> Assigned(base, indices, cases, offset)[slot] == base[slot]
    decreases |indices|
  {
    if |indices| > 0 {
      var n := |indices| - 1;
      AssignedAt(base, indices[..n], cases[..n], offset, slot);
    }
  }

  /** `assignDispatchArray`: the for loop filling the table. */
  method AssignDispatchArray<T>(table: array<Option<T>>, indices: seq<nat>, cases: seq<T>, offset: nat)
    requires |indices| == |cases|
    requires forall i :: 0 <= i < |indices| ==> offset <= indices[i] < offset + table.Length
    modifies table
    ensures table[..] == Assigned(old(table[..]), indices, cases, offset)
  {
    var i := 0;
    while i < |indices|
      invariant 0 <= i <= |indices|
      invariant table[..] == Assigned(old(table[..]), indices[..i], cases[..i], offset)
    {
      assert indices[..i + 1][..i] == indices[..i] && cases[..i + 1][..i] == cases[..i];
      table[indices[i] - offset] := Some(cases[i]);
      i := i + 1;
    }
    assert indices[..i] == indices && cases[..i] == cases;
  }

  lemma SameBase<T>(a: seq<Option<T>>, b: seq<Option<T>>, indices: seq<nat>, cases: seq<T>, offset: nat)
    requires |indices| == |cases| && |a| == |b| && forall i :: 0 <= i < |a| ==> a[i] == b[i]
    ensures Assigned(a, indices, cases, offset) == Assigned(b, indices, cases, offset)
  {
    assert a == b;
  }

  /** A table of `n` null function pointers. */
  function NullTable<T>(n: nat): (r: seq<Option<T>>)
    ensures |r| == n && forall i :: 0 <= i < n ==> r[i].None?
  {
    seq(n, _ => None)
  }

  /** The flat invoke indices 0..n-1, one per visitor case (`casePtr<Cases>...`). */
  function CaseNumbers(n: nat): (r: seq<nat>)
    ensures |r| == n && forall f :: 0 <= f < n ==> r[f] == f
  {
    seq(n, f => f)
  }

  /** The null table after `assignDispatchArray` of the case numbers: each case in its own slot, nothing else. */
  lemma AssignedCases(indices: seq<nat>, lo: nat, size: nat)
    requires forall i :: 0 <= i < |indices| ==> lo <= indices[i] < lo + size
    requires forall i, j :: 0 <= i < j < |indices| ==> indices[i] != indices[j]
    ensures CasesAt(indices, lo, Assigned(NullTable(size), indices, CaseNumbers(|indices|), lo))
  {
    var base: seq<Option<nat>> := NullTable(size);
    var cases := CaseNumbers(|indices|);
    var t := Assigned(base, indices, cases, lo);
    forall f | 0 <= f < |indices| ensures lo <= indices[f] < lo + |t| && t[indices[f] - lo] == Some(f) {
      AssignedAt(base, indices, cases, lo, indices[f] - lo);
    }
    forall j | 0 <= j < |t| && t[j].Some? ensures t[j].value < |indices| && indices[t[j].value] == lo + j {
      AssignedAt(base, indices, cases, lo, j);
    }
  }

  /**
   * Table `t`, compacted to start at flat index `first`, holds case `f` in
   * slot `indices[f] - first`, and a non-null slot holds the case whose flat
   * index maps to it.
   */
  ghost predicate CasesAt(indices: seq<nat>, first: nat, t: seq<Option<nat>>) {
    (forall f :: 0 <= f < |indices| ==> first <= indices[f] < first + |t| && t[indices[f] - first] == Some(f)) &&
    (forall j :: 0 <= j < |t| && t[j].Some? ==> t[j].value < |indices| && indices[t[j].value] == first + j)
  }

  /** No flat index occurs twice. */
  predicate Distinct(indices: seq<nat>) {
    forall i, j :: 0 <= i < j < |indices| ==> indices[i] != indices[j]
  }

  /** The flat case indices of a signature are distinct. */
  lemma SignatureIndicesDistinct(inv: seq<seq<nat>>, bounds: seq<nat>)
    requires CaseSpace(inv, bounds) && Ascending(inv)
    ensures Distinct(FlatCaseIndices(inv, bounds))
  {
    var indices := FlatCaseIndices(inv, bounds);
    forall i, j | 0 <= i < j < |indices| ensures indices[i] != indices[j] {
      FlatCaseIndicesDistinct(inv, bounds, i, j);
    }
  }

  /**
   * `InvokeVisitorCases<ReturnType, Cases, FlatCaseIndices>`: the compacted
   * table of visitor cases. Case `f` is the `f`-th of `Cases` and has flat
   * index `indices[f]`; a slot holds the number of the case it dispatches
   * to (the function pointer `casePtr` of that case).
   */
  class VisitorTable {
    /** `FlatCaseIndices...` */
    const indices: seq<nat>
    /** `FirstFlatInvokeIndex` */
    const first: nat
    /** `DispatchArray`: slot `j` holds the case whose flat index is `first + j`, or None (a null pointer). */
    const slots: array<Option<nat>>

    ghost predicate Valid()
      reads this, slots
    {
      |indices| > 0 && first == TypeList.SeqMin(indices) &&
      slots.Length == TypeList.SeqMax(indices) - first + 1 &&
      CasesAt(indices, first, slots[..])
    }

    /** `makeDispatchArray`: a null-initialised array of `IndexRangeSize` slots, filled by `assignDispatchArray`. */
    constructor (flatCaseIndices: seq<nat>)
      requires |flatCaseIndices| > 0 && Distinct(flatCaseIndices)
      ensures Valid() && indices == flatCaseIndices && fresh(slots)
      ensures slots.Length == TypeList.SeqMax(flatCaseIndices) - TypeList.SeqMin(flatCaseIndices) + 1
    {
      var lo := TypeList.SeqMin(flatCaseIndices);
      var size := TypeList.SeqMax(flatCaseIndices) - lo + 1;
      var a := new Option<nat>[size](_ => None);
      ghost var before := a[..];
      var cases := CaseNumbers(|flatCaseIndices|);
      AssignDispatchArray(a, flatCaseIndices, cases, lo);
      assert a[..] == Assigned(before, flatCaseIndices, cases, lo);
      SameBase(before, NullTable(size), flatCaseIndices, cases, lo);
      AssignedCases(flatCaseIndices, lo, size);
      indices := flatCaseIndices;
      first := lo;
      slots := a;
    }

    /**
     * `InvokeVisitorCases::impl`: subtract the offset, assert that the entry
     * is not null and pick it; the result is the number of the case invoked,
     * whose flat index is `flatIndex`.
     */
    method Impl(flatIndex: nat) returns (f: nat)
      requires Valid()
      requires first <= flatIndex < first + slots.Length
      requires slots[flatIndex - first].Some?
      ensures slots[flatIndex - first] == Some(f)
      ensures f < |indices| && indices[f] == flatIndex
    {
      var dispatcher := slots[flatIndex - first];
      assert slots[..][flatIndex - first] == dispatcher;
      f := dispatcher.value;
    }
  }

  /** Case `f` sits in slot `indices[f] - first`, inside the table. */
  lemma CaseSlot(table: VisitorTable, f: nat)
    requires table.Valid() && f < |table.indices|
    ensures table.first <= table.indices[f] < table.first + table.slots.Length
    ensures table.slots[table.indices[f] - table.first] == Some(f)
  {
    assert table.slots[..][table.indices[f] - table.first] == Some(f);
  }

  /** A table slot that no case's flat index maps to stays null. */
  lemma UnusedSlotIsNull(table: VisitorTable, slot: nat)
    requires table.Valid() && slot < table.slots.Length
    requires forall f :: 0 <= f < |table.indices| ==> table.indices[f] - table.first != slot
    ensures table.slots[slot].None?
  {
    assert table.slots[..][slot] == table.slots[slot];
  }

  /**
   * `MakeVisitorCases<R, F, T...>` and the table: the case lists of the
   * parameters, and the table over their flat case indices.
   */
  method MakeVisitorTable(ps: seq<Param>) returns (table: VisitorTable)
    requires |ps| > 0 && ParamsOk(ps) && TotalCases(InvocableLists(ps)) > 0
    ensures fresh(table.slots) && table.Valid()
    ensures table.indices == FlatCaseIndices(InvocableLists(ps), Bounds(ps))
  {
    SignatureCaseSpace(ps);
    SignatureIndicesDistinct(InvocableLists(ps), Bounds(ps));
    table := new VisitorTable(FlatCaseIndices(InvocableLists(ps), Bounds(ps)));
  }

  /**
   * `visitImpl` over the case lists `inv` and bounds of a signature: flatten
   * the runtime ids and invoke the case in the table. The table entry
   * reached is not null and the case invoked is the one for exactly those
   * runtime ids.
   */
  method Dispatch<R>(inv: seq<seq<nat>>, bounds: seq<nat>, table: VisitorTable, rtti: seq<nat>, select: seq<nat> -> R) returns (r: R)
    requires |bounds| > 0 && CaseSpace(inv, bounds) && table.Valid()
    requires table.indices == FlatCaseIndices(inv, bounds)
    requires InSpace(inv, rtti)
    ensures r == select(rtti)
  {
    InSpaceInBounds(inv, bounds, rtti);
    ghost var f := CasesCover(inv, rtti);
    var flatIndex := MultiIndex.FlattenIndex(rtti, bounds);
    assert table.indices[f] == FlatCaseIndex(inv, bounds, f) == flatIndex;
    CaseSlot(table, f);
    var c := table.Impl(flatIndex);
    r := select(StructuredIndex(inv, c));
  }

  /**
   * `visit(t..., fn)`: for arguments whose runtime ids are concrete
   * descendants of their static types, the case invoked is the one for
   * exactly those runtime ids.
   */
  method Visit<R>(ps: seq<Param>, table: VisitorTable, rtti: seq<nat>, select: seq<nat> -> R) returns (r: R)
    requires |ps| > 0 && ParamsOk(ps) && table.Valid()
    requires table.indices == FlatCaseIndices(InvocableLists(ps), Bounds(ps))
    requires Dispatchable(ps, rtti)
    ensures r == select(rtti)
  {
    DispatchableInSpace(ps, rtti);
    SignatureCaseSpace(ps);
    r := Dispatch(InvocableLists(ps), Bounds(ps), table, rtti, select);
  }
}
