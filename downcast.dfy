/**
 * `isa`, `dyncast`, `cast` and `csp::filter` over objects whose runtime id
 * (`get_rtti`) is registered in a hierarchy. Pointers may be null; a
 * reference always denotes an object; a smart pointer is a handle that owns
 * the object it points to.
 */
module Downcast {
  import opened Wrappers
  import opened Hierarchy
  import TypeList

  /** An object: its identity (its address) and the id `get_rtti` reports for it. */
  datatype Obj = Obj(address: nat, rtti: nat)

  datatype Pointer = Null | To(obj: Obj)

  /** A smart pointer (`std::unique_ptr`): the raw pointer it owns, Null when empty. */
  datatype Handle = Handle(held: Pointer)

  /** The pointee, if any, carries an id of the hierarchy. */
  predicate Typed(h: Registry, p: Pointer) {
    p.To? ==> p.obj.rtti < |h.decls|
  }

  /** `isaImpl<Test>(Known* obj)`: false for null, otherwise the table entry for the runtime id. */
  function IsaPtr(h: Registry, test: nat, p: Pointer): (r: bool)
    requires WellFormed(h) && test < |h.decls| && Typed(h, p)
    ensures r <==> p.To? && OnParentChain(h, test, p.obj.rtti)
  {
    if p.Null? then false else IsaId(h, test, p.obj.rtti)
  }

  /** `isaImpl<Test>(Known& obj)`: tests the address of the referenced object. */
  function IsaRef(h: Registry, test: nat, o: Obj): (r: bool)
    requires WellFormed(h) && test < |h.decls| && o.rtti < |h.decls|
    ensures r <==> OnParentChain(h, test, o.rtti)
  {
    IsaPtr(h, test, To(o))
  }

  /** `IsaFn` on a smart pointer: tests `std::to_address(p)`, so an empty handle is no `Test`. */
  function IsaHandle(h: Registry, test: nat, u: Handle): (r: bool)
    requires WellFormed(h) && test < |h.decls| && Typed(h, u.held)
    ensures r <==> u.held.To? && OnParentChain(h, test, u.held.obj.rtti)
  {
    IsaPtr(h, test, u.held)
  }

  /** `dyncastImpl<To*>(From*)`: the same object when it `isa<To>`, otherwise `nullptr`. */
  function DyncastPtr(h: Registry, to: nat, p: Pointer): (r: Pointer)
    requires WellFormed(h) && to < |h.decls| && Typed(h, p)
    ensures r.To? <==> p.To? && OnParentChain(h, to, p.obj.rtti)
    ensures r.To? ==> r == p
  {
    if IsaPtr(h, to, p) then p else Null
  }

  /** `std::bad_cast` */
  datatype BadCast = BadCast

  /** `dyncastImpl<To&>(From&)`: the same object, or `std::bad_cast` is thrown. */
  function DyncastRef(h: Registry, to: nat, o: Obj): (r: Result<Obj, BadCast>)
    requires WellFormed(h) && to < |h.decls| && o.rtti < |h.decls|
    ensures r.Success? <==> OnParentChain(h, to, o.rtti)
    ensures r.Success? ==> r.value == o
  {
    var p := DyncastPtr(h, to, To(o));
    if p.To? then Success(p.obj) else Failure(BadCast)
  }

  /** `castImpl<To*>`: asserts `!from || dyncast<To>(from)` and returns the pointer unchanged. */
  function CastPtr(h: Registry, to: nat, p: Pointer): (r: Pointer)
    requires WellFormed(h) && to < |h.decls| && Typed(h, p)
    requires p.Null? || DyncastPtr(h, to, p).To?
    ensures r == p
    ensures r.To? ==> OnParentChain(h, to, r.obj.rtti)
  {
    p
  }

  /** `castImpl<To&>`: the pointer cast applied to the address of the object. */
  function CastRef(h: Registry, to: nat, o: Obj): (r: Obj)
    requires WellFormed(h) && to < |h.decls| && o.rtti < |h.decls|
    requires IsaRef(h, to, o)
    ensures r == o
    ensures OnParentChain(h, to, r.rtti)
  {
    CastPtr(h, to, To(o)).obj
  }

  /** The two handles a smart-pointer dyncast leaves: the moved-from argument and the result. */
  datatype HandoverState = HandoverState(source: Handle, result: Handle)

  /** How many of the two handles own `o`. */
  function Owners(s: HandoverState, o: Obj): nat {
    (if s.source.held == To(o) then 1 else 0) + (if s.result.held == To(o) then 1 else 0)
  }

  /**
   * `DyncastFn` on an rvalue smart pointer as written:
   * `RebindSmartPtr(dyncastImpl(p.release()))`. The argument is released first,
   * so it is empty afterwards whatever the outcome of the test.
   */
  function DyncastHandleAsWritten(h: Registry, to: nat, u: Handle): (r: HandoverState)
    requires WellFormed(h) && to < |h.decls| && Typed(h, u.held)
    ensures r.source.held.Null?
    ensures r.result.held.To? <==> IsaHandle(h, to, u)
    ensures r.result.held == DyncastPtr(h, to, u.held)
  {
    HandoverState(Handle(Null), Handle(DyncastPtr(h, to, u.held)))
  }

  /** As written, a failed smart-pointer dyncast leaves the object owned by no handle: it leaks. */
  lemma FailedHandleDyncastLeaks(h: Registry, to: nat, o: Obj)
    requires WellFormed(h) && to < |h.decls| && o.rtti < |h.decls|
    requires !IsaRef(h, to, o)
    ensures Owners(DyncastHandleAsWritten(h, to, Handle(To(o))), o) == 0
  {
  }

  /**
   * The smart-pointer dyncast as intended: the object moves to the result when
   * it `isa<To>`; otherwise the argument keeps it.
   */
  function DyncastHandle(h: Registry, to: nat, u: Handle): (r: HandoverState)
    requires WellFormed(h) && to < |h.decls| && Typed(h, u.held)
    ensures r.result.held == DyncastPtr(h, to, u.held)
    ensures r.result.held.To? ==> r.source.held.Null?
    ensures u.held.To? ==> Owners(r, u.held.obj) == 1
  {
    if IsaHandle(h, to, u) then HandoverState(Handle(Null), u)
    else HandoverState(u, Handle(Null))
  }

  /** `csp::filter<T>`: keep the pointers that `isa<T>`, in order, each cast to `T*`. */
  function FilterIsa(h: Registry, test: nat, ps: seq<Pointer>): (r: seq<Pointer>)
    requires WellFormed(h) && test < |h.decls|
    requires forall i :: 0 <= i < |ps| ==> Typed(h, ps[i])
    ensures forall i :: 0 <= i < |r| ==> r[i] in ps && Typed(h, r[i]) && IsaPtr(h, test, r[i])
    ensures forall i :: 0 <= i < |ps| && IsaPtr(h, test, ps[i]) ==> ps[i] in r
  {
    var kept := TypeList.Filter(ps, (p: Pointer) requires Typed(h, p) => IsaPtr(h, test, p));
    var cast := seq(|kept|, i requires 0 <= i < |kept| => CastPtr(h, test, kept[i]));
    assert cast == kept;
    cast
  }

  /** `csp::filter` over a concatenation is the concatenation of the filtered parts. */
  lemma FilterIsaAppend(h: Registry, test: nat, ps: seq<Pointer>, qs: seq<Pointer>)
    requires WellFormed(h) && test < |h.decls|
    requires forall i :: 0 <= i < |ps| ==> Typed(h, ps[i])
    requires forall i :: 0 <= i < |qs| ==> Typed(h, qs[i])
    ensures FilterIsa(h, test, ps + qs) == FilterIsa(h, test, ps) + FilterIsa(h, test, qs)
  {
    var p := (p: Pointer) requires Typed(h, p) => IsaPtr(h, test, p);
    assert FilterIsa(h, test, ps + qs) == TypeList.Filter(ps + qs, p);
    assert FilterIsa(h, test, ps) == TypeList.Filter(ps, p);
    assert FilterIsa(h, test, qs) == TypeList.Filter(qs, p);
    TypeList.FilterAppend(ps, qs, p);
  }

  /** One pointer is kept exactly when it is not null and `isa<T>`. */
  lemma FilterIsaSingleton(h: Registry, test: nat, q: Pointer)
    requires WellFormed(h) && test < |h.decls| && Typed(h, q)
    ensures FilterIsa(h, test, [q]) == if q.To? && OnParentChain(h, test, q.obj.rtti) then [q] else []
  {
    var p := (p: Pointer) requires Typed(h, p) => IsaPtr(h, test, p);
    assert FilterIsa(h, test, [q]) == TypeList.Filter([q], p);
    TypeList.FilterSingleton(q, p);
  }

  /** When every pointer `isa<T>`, `csp::filter` yields all of them, repeats included and in order. */
  lemma FilterIsaKeepsAll(h: Registry, test: nat, ps: seq<Pointer>)
    requires WellFormed(h) && test < |h.decls|
    requires forall i :: 0 <= i < |ps| ==> Typed(h, ps[i]) && IsaPtr(h, test, ps[i])
    ensures FilterIsa(h, test, ps) == ps
  {
    var p := (p: Pointer) requires Typed(h, p) => IsaPtr(h, test, p);
    assert FilterIsa(h, test, ps) == TypeList.Filter(ps, p);
    TypeList.FilterKeepsAll(ps, p);
  }

  /** `csp::filter` keeps the relative order of the elements it lets through. */
  lemma {:induction false} FilterIsaKeepsOrder(h: Registry, test: nat, ps: seq<Pointer>, x: Pointer, y: Pointer)
    requires WellFormed(h) && test < |h.decls|
    requires forall i :: 0 <= i < |ps| ==> Typed(h, ps[i])
    requires TypeList.Precedes(FilterIsa(h, test, ps), x, y)
    ensures TypeList.Precedes(ps, x, y)
  {
    var p := (p: Pointer) requires Typed(h, p) => IsaPtr(h, test, p);
    assert FilterIsa(h, test, ps) == TypeList.Filter(ps, p);
    TypeList.FilterPreservesOrder(ps, p, x, y);
  }
}
