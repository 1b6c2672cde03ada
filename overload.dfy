/**
 * The handler a `csp::overload{...}` visitor runs for one tuple of runtime
 * ids. C++ overload resolution binds each argument, a reference to an object
 * of the runtime type, to one parameter reference per handler; a handler is
 * viable when every parameter type is an ancestor of the runtime type, and
 * one viable handler is chosen when it is at least as derived as every other
 * one in every parameter and differs from each of them somewhere. With
 * single inheritance the viable parameter types of one argument all lie on
 * one parent chain, so this is the "most derived handler wins" rule.
 */
module Overload {
  import opened Wrappers
  import opened Hierarchy
  import Dispatch

  /** One handler of the overload set: its parameter type ids and the value it returns. */
  datatype Handler<R> = Handler(params: seq<nat>, result: R)

  /** Every parameter of the handler names an id of its argument's hierarchy. */
  predicate HandlerOk<R>(ps: seq<Dispatch.Param>, hd: Handler<R>) {
    |hd.params| == |ps| && forall i :: 0 <= i < |ps| ==> hd.params[i] < |ps[i].h.decls|
  }

  predicate HandlersOk<R>(ps: seq<Dispatch.Param>, hs: seq<Handler<R>>) {
    Dispatch.ParamsOk(ps) && forall k :: 0 <= k < |hs| ==> HandlerOk(ps, hs[k])
  }

  /** A tuple of runtime ids, one per argument, each an id of its hierarchy. */
  predicate TupleOk(ps: seq<Dispatch.Param>, t: seq<nat>) {
    |t| == |ps| && forall i :: 0 <= i < |ps| ==> t[i] < |ps[i].h.decls|
  }

  /** The handler can be called with arguments of runtime ids `t`. */
  predicate Viable<R>(ps: seq<Dispatch.Param>, hd: Handler<R>, t: seq<nat>)
    requires Dispatch.ParamsOk(ps) && HandlerOk(ps, hd) && TupleOk(ps, t)
  {
    forall i :: 0 <= i < |ps| ==> CtIsa(ps[i].h, hd.params[i], t[i])
  }

  /** Every parameter of handler `a` derives from (or is) the matching parameter of handler `b`. */
  predicate AtLeastAsDerived<R>(ps: seq<Dispatch.Param>, a: Handler<R>, b: Handler<R>)
    requires Dispatch.ParamsOk(ps) && HandlerOk(ps, a) && HandlerOk(ps, b)
  {
    forall i :: 0 <= i < |ps| ==> CtIsa(ps[i].h, b.params[i], a.params[i])
  }

  /** Handler `a` is preferred to handler `b`: at least as derived everywhere, and not the same signature. */
  predicate Better<R>(ps: seq<Dispatch.Param>, a: Handler<R>, b: Handler<R>)
    requires Dispatch.ParamsOk(ps) && HandlerOk(ps, a) && HandlerOk(ps, b)
  {
    AtLeastAsDerived(ps, a, b) && a.params != b.params
  }

  /** Handler `k` is the best viable handler for `t`. */
  predicate Best<R>(ps: seq<Dispatch.Param>, hs: seq<Handler<R>>, k: nat, t: seq<nat>)
    requires HandlersOk(ps, hs) && k < |hs| && TupleOk(ps, t)
  {
    Viable(ps, hs[k], t) &&
    forall j :: 0 <= j < |hs| && j != k && Viable(ps, hs[j], t) ==> Better(ps, hs[k], hs[j])
  }

  /** The first index at or after `from` whose handler is the best one. */
  function BestFrom<R>(ps: seq<Dispatch.Param>, hs: seq<Handler<R>>, t: seq<nat>, from: nat): (r: Option<nat>)
    requires HandlersOk(ps, hs) && TupleOk(ps, t) && from <= |hs|
    ensures r.Some? ==> from <= r.value < |hs| && Best(ps, hs, r.value, t)
    ensures r.None? ==> forall k :: from <= k < |hs| ==> !Best(ps, hs, k, t)
    decreases |hs| - from
  {
    if from == |hs| then None
    else if Best(ps, hs, from, t) then Some(from)
    else BestFrom(ps, hs, t, from + 1)
  }

  /** The value the overload set returns for runtime ids `t`, or None when the call does not resolve. */
  function Resolve<R>(ps: seq<Dispatch.Param>, hs: seq<Handler<R>>, t: seq<nat>): (r: Option<R>)
    requires HandlersOk(ps, hs) && TupleOk(ps, t)
    ensures r.Some? <==> exists k :: 0 <= k < |hs| && Best(ps, hs, k, t)
    ensures r.Some? ==> exists k :: 0 <= k < |hs| && Best(ps, hs, k, t) && hs[k].result == r.value
  {
    match BestFrom(ps, hs, t, 0)
    case Some(k) => Some(hs[k].result)
    case None => None
  }

  /** Being at least as derived in every parameter both ways makes two handlers' parameter lists equal. */
  lemma AtLeastAsDerivedAntisymmetric<R>(ps: seq<Dispatch.Param>, a: Handler<R>, b: Handler<R>)
    requires Dispatch.ParamsOk(ps) && HandlerOk(ps, a) && HandlerOk(ps, b)
    requires AtLeastAsDerived(ps, a, b) && AtLeastAsDerived(ps, b, a)
    ensures a.params == b.params
  {
    forall i | 0 <= i < |ps| ensures a.params[i] == b.params[i] {
      if a.params[i] != b.params[i] {
        CtIsaStrictDepth(ps[i].h, b.params[i], a.params[i]);
      }
    }
  }

  /** At most one handler is the best: the chosen handler is unambiguous. */
  lemma BestIsUnique<R>(ps: seq<Dispatch.Param>, hs: seq<Handler<R>>, t: seq<nat>, k: nat, k': nat)
    requires HandlersOk(ps, hs) && TupleOk(ps, t) && k < |hs| && k' < |hs|
    requires Best(ps, hs, k, t) && Best(ps, hs, k', t)
    ensures k == k'
  {
    if k != k' {
      AtLeastAsDerivedAntisymmetric(ps, hs[k], hs[k']);
    }
  }

  /** The result is that of the one best handler. */
  lemma ResolveIsBest<R>(ps: seq<Dispatch.Param>, hs: seq<Handler<R>>, t: seq<nat>, k: nat)
    requires HandlersOk(ps, hs) && TupleOk(ps, t) && k < |hs|
    requires Best(ps, hs, k, t)
    ensures Resolve(ps, hs, t) == Some(hs[k].result)
  {
    var r := BestFrom(ps, hs, t, 0);
    BestIsUnique(ps, hs, t, k, r.value);
  }

  /** The overload set called with arguments of runtime ids `t`, as a total selection function for `visit`. */
  function Call<R>(ps: seq<Dispatch.Param>, hs: seq<Handler<R>>, t: seq<nat>): Option<R> {
    if HandlersOk(ps, hs) && TupleOk(ps, t) then Resolve(ps, hs, t) else None
  }
}
