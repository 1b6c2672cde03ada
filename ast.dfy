/**
 * The syntax tree the example interpreters build. `AST_LIST` registers
 * thirteen node classes with the library in declaration order; each node
 * holds its runtime id, the members of its class and the vector of owned
 * children, any of which may be null. Nodes are never changed after they
 * are built, so a node is a value here. The children a constructor pushes
 * are the child sequence of the resulting value.
 */
module Ast {
  import opened Wrappers
  import opened Hierarchy
  import Dispatch

  const ASTNode: nat := 0
  const Expr: nat := 1
  const Identifier: nat := 2
  const Literal: nat := 3
  const BinaryExpr: nat := 4
  const UnaryExpr: nat := 5
  const CallExpr: nat := 6
  const Statement: nat := 7
  const EmptyStatement: nat := 8
  const VarDecl: nat := 9
  const InstrStatement: nat := 10
  const ExprStatement: nat := 11
  const Program: nat := 12

  /** `AST_LIST` expanded into one `CSP_DEFINE` per node class. */
  const AstList := Registry([
    Decl(None, Abstract),
    Decl(Some(ASTNode), Abstract),
    Decl(Some(Expr), Concrete),
    Decl(Some(Expr), Concrete),
    Decl(Some(Expr), Concrete),
    Decl(Some(Expr), Concrete),
    Decl(Some(Expr), Concrete),
    Decl(Some(ASTNode), Abstract),
    Decl(Some(Statement), Concrete),
    Decl(Some(Statement), Concrete),
    Decl(Some(Statement), Concrete),
    Decl(Some(Statement), Concrete),
    Decl(Some(ASTNode), Concrete)
  ])

  /** `BinaryExpr::Operator`; the standalone example's copy has no `Pow`. */
  datatype BinaryOperator = Add | Sub | Mul | Div | Pow

  datatype UnaryOperator = Promote | Negate

  datatype Instruction = Print | Quit

  /** The data members of the node's own class; a literal keeps the digits it was read from. */
  datatype Payload =
    | NoPayload
    | Name(value: string)
    | Number(digits: string)
    | BinaryOp(bop: BinaryOperator)
    | UnaryOp(uop: UnaryOperator)
    | Instr(instr: Instruction)

  /** An `ASTNode`: its runtime id, its class's members and `m_children` (None for a null pointer). */
  datatype Node = Node(id: nat, payload: Payload, children: seq<Option<Node>>)

  lemma AstWellFormed()
    ensures WellFormed(AstList)
  {
    AstRootsShallow();
    AstRootsDeep(Expr, Identifier, CallExpr);
    AstRootsDeep(Statement, EmptyStatement, ExprStatement);
    forall id | 0 <= id < |AstList.decls| ensures ReachesRoot(AstList, id, |AstList.decls|) {
      assert id in {ASTNode, Expr, Statement, Program} || Identifier <= id <= CallExpr || EmptyStatement <= id <= ExprStatement;
    }
  }

  /** `ASTNode` and the classes derived from it directly reach the root within two steps. */
  lemma AstRootsShallow()
    ensures Closed(AstList)
    ensures ReachesRoot(AstList, ASTNode, 13) && ReachesRoot(AstList, Expr, 13)
    ensures ReachesRoot(AstList, Statement, 13) && ReachesRoot(AstList, Program, 13)
  {
    DepthWithinMono(AstList, ASTNode, 1, 13);
    DepthWithinMono(AstList, Expr, 2, 13);
    DepthWithinMono(AstList, Statement, 2, 13);
    DepthWithinMono(AstList, Program, 2, 13);
  }

  /** The classes `lo` to `hi`, all derived from `base`, reach the root within three steps. */
  lemma AstRootsDeep(base: nat, lo: nat, hi: nat)
    requires (base, lo, hi) == (Expr, Identifier, CallExpr) || (base, lo, hi) == (Statement, EmptyStatement, ExprStatement)
    ensures Closed(AstList)
    ensures forall id :: lo <= id <= hi ==> ReachesRoot(AstList, id, 13)
  {
    forall id | lo <= id <= hi ensures ReachesRoot(AstList, id, 13) {
      DepthWithinMono(AstList, id, 3, 13);
    }
  }

  /** The whole `isa` relation of the node classes. */
  lemma AstIsa(a: nat, b: nat)
    requires a < 13 && b < 13
    ensures WellFormed(AstList)
    ensures CtIsa(AstList, a, b) <==>
      a == b || a == ASTNode || (a == Expr && Identifier <= b <= CallExpr) || (a == Statement && EmptyStatement <= b <= ExprStatement)
  {
    AstWellFormed();
    if Identifier <= b <= CallExpr {
      assert CtIsa(AstList, a, b) == (a == b || CtIsa(AstList, a, Expr));
    } else if EmptyStatement <= b <= ExprStatement {
      assert CtIsa(AstList, a, b) == (a == b || CtIsa(AstList, a, Statement));
    }
    if b != ASTNode {
      assert CtIsa(AstList, a, Expr) == (a == Expr || CtIsa(AstList, a, ASTNode));
      assert CtIsa(AstList, a, Statement) == (a == Statement || CtIsa(AstList, a, ASTNode));
      assert CtIsa(AstList, a, Program) == (a == Program || CtIsa(AstList, a, ASTNode));
    }
    assert CtIsa(AstList, a, ASTNode) == (a == ASTNode);
  }

  /** The concrete node classes a visitor over `Expr` reaches, in id order. */
  lemma ExprKinds()
    ensures WellFormed(AstList)
    ensures Dispatch.Invocable(AstList, Expr) == [Identifier, Literal, BinaryExpr, UnaryExpr, CallExpr]
  {
    ExprScanFromIdentifier();
    AstIsa(Expr, 0);
    AstIsa(Expr, 1);
    assert Dispatch.InvocableFrom(AstList, Expr, 1) == [Identifier, Literal, BinaryExpr, UnaryExpr, CallExpr];
  }

  /** From `Identifier` on, the ids deriving from `Expr` are the five expression classes. */
  lemma ExprScanFromIdentifier()
    ensures WellFormed(AstList)
    ensures Dispatch.InvocableFrom(AstList, Expr, 2) == [Identifier, Literal, BinaryExpr, UnaryExpr, CallExpr]
  {
    ExprScanAboveCall();
    AstIsa(Expr, 2);
    AstIsa(Expr, 3);
    AstIsa(Expr, 4);
    AstIsa(Expr, 5);
    AstIsa(Expr, 6);
    assert Dispatch.InvocableFrom(AstList, Expr, 6) == [CallExpr];
    assert Dispatch.InvocableFrom(AstList, Expr, 5) == [UnaryExpr, CallExpr];
    assert Dispatch.InvocableFrom(AstList, Expr, 4) == [BinaryExpr, UnaryExpr, CallExpr];
    assert Dispatch.InvocableFrom(AstList, Expr, 3) == [Literal, BinaryExpr, UnaryExpr, CallExpr];
  }

  /** No id after `CallExpr` derives from `Expr`. */
  lemma ExprScanAboveCall()
    ensures WellFormed(AstList)
    ensures Dispatch.InvocableFrom(AstList, Expr, 7) == []
  {
    AstWellFormed();
    forall b | 7 <= b < 13 ensures !CtIsa(AstList, Expr, b) {
      AstIsa(Expr, b);
    }
    assert Dispatch.InvocableFrom(AstList, Expr, 13) == [];
    assert Dispatch.InvocableFrom(AstList, Expr, 12) == [];
    assert Dispatch.InvocableFrom(AstList, Expr, 11) == [];
    assert Dispatch.InvocableFrom(AstList, Expr, 10) == [];
    assert Dispatch.InvocableFrom(AstList, Expr, 9) == [];
    assert Dispatch.InvocableFrom(AstList, Expr, 8) == [];
    assert Dispatch.InvocableFrom(AstList, Expr, 7) == [];
  }

  /** The concrete node classes a visitor over `Statement` reaches, in id order. */
  lemma StatementKinds()
    ensures WellFormed(AstList)
    ensures Dispatch.Invocable(AstList, Statement) == [EmptyStatement, VarDecl, InstrStatement, ExprStatement]
  {
    AstWellFormed();
    forall b | 0 <= b < 13 ensures CtIsa(AstList, Statement, b) <==> b == Statement || EmptyStatement <= b <= ExprStatement {
      AstIsa(Statement, b);
    }
    assert Dispatch.InvocableFrom(AstList, Statement, 13) == [];
    assert Dispatch.InvocableFrom(AstList, Statement, 12) == [];
    assert Dispatch.InvocableFrom(AstList, Statement, 11) == [ExprStatement];
    assert Dispatch.InvocableFrom(AstList, Statement, 10) == [InstrStatement, ExprStatement];
    assert Dispatch.InvocableFrom(AstList, Statement, 9) == [VarDecl, InstrStatement, ExprStatement];
    assert Dispatch.InvocableFrom(AstList, Statement, 8) == [EmptyStatement, VarDecl, InstrStatement, ExprStatement];
    assert Dispatch.InvocableFrom(AstList, Statement, 7) == [EmptyStatement, VarDecl, InstrStatement, ExprStatement];
    assert Dispatch.InvocableFrom(AstList, Statement, 6) == [EmptyStatement, VarDecl, InstrStatement, ExprStatement];
    assert Dispatch.InvocableFrom(AstList, Statement, 5) == [EmptyStatement, VarDecl, InstrStatement, ExprStatement];
    assert Dispatch.InvocableFrom(AstList, Statement, 4) == [EmptyStatement, VarDecl, InstrStatement, ExprStatement];
    assert Dispatch.InvocableFrom(AstList, Statement, 3) == [EmptyStatement, VarDecl, InstrStatement, ExprStatement];
    assert Dispatch.InvocableFrom(AstList, Statement, 2) == [EmptyStatement, VarDecl, InstrStatement, ExprStatement];
    assert Dispatch.InvocableFrom(AstList, Statement, 1) == [EmptyStatement, VarDecl, InstrStatement, ExprStatement];
  }

  /** A child pointer that `csp::cast<T*>` accepts: null, or an object whose runtime id `isa<T>`. */
  predicate ChildIsa(c: Option<Node>, t: nat) {
    WellFormed(AstList) && t < 13 && (c.None? || (c.value.id < 13 && CtIsa(AstList, t, c.value.id)))
  }

  predicate AllChildrenIsa(cs: seq<Option<Node>>, t: nat) {
    forall i :: 0 <= i < |cs| ==> ChildIsa(cs[i], t)
  }

  /** The members and children each node class declares, with the class each accessor casts a child to. */
  predicate Layout(n: Node) {
    match n.id
    case 2 => n.payload.Name? && |n.children| == 0
    case 3 => n.payload.Number? && |n.children| == 0
    case 4 => n.payload.BinaryOp? && |n.children| == 2 && AllChildrenIsa(n.children, Expr)
    case 5 => n.payload.UnaryOp? && |n.children| == 1 && AllChildrenIsa(n.children, Expr)
    case 6 => n.payload.NoPayload? && |n.children| >= 1 && AllChildrenIsa(n.children, Expr)
    case 8 => n.payload.NoPayload? && |n.children| == 0
    case 9 => n.payload.NoPayload? && |n.children| == 2 && ChildIsa(n.children[0], Identifier) && ChildIsa(n.children[1], Expr)
    case 10 => n.payload.Instr? && AllChildrenIsa(n.children, Expr)
    case 11 => n.payload.NoPayload? && |n.children| == 1 && AllChildrenIsa(n.children, Expr)
    case 12 => n.payload.NoPayload? && AllChildrenIsa(n.children, Statement)
    case _ => false
  }

  /** Every node of the tree is of a concrete class with its class's layout. */
  predicate WellTyped(n: Node)
    decreases n
  {
    Layout(n) && forall i :: 0 <= i < |n.children| ==> n.children[i].Some? ==> WellTyped(n.children[i].value)
  }

  predicate WellTypedOpt(c: Option<Node>) {
    c.Some? ==> WellTyped(c.value)
  }

  /** No binary operator of the tree is `Pow`: the tree is also one of the standalone example's. */
  predicate PowFree(n: Node)
    decreases n
  {
    (n.payload.BinaryOp? ==> n.payload.bop != Pow) &&
    forall i :: 0 <= i < |n.children| ==> n.children[i].Some? ==> PowFree(n.children[i].value)
  }

  predicate PowFreeOpt(c: Option<Node>) {
    c.Some? ==> PowFree(c.value)
  }

  /** A well-typed node is a concrete descendant of its class's base. */
  lemma WellTypedIsConcrete(n: Node)
    requires WellTyped(n)
    ensures n.id < 13 && IsConcrete(AstList, n.id) && n.id != Expr && n.id != Statement && n.id != ASTNode
  {
  }

  /** `childAt<T>(index)`: asserts the index is in range; `csp::cast<T*>` asserts a non-null child `isa<T>`. */
  function ChildAt(n: Node, index: nat, t: nat): (r: Option<Node>)
    requires index < |n.children|
    requires ChildIsa(n.children[index], t)
    ensures r == n.children[index]
    ensures r.Some? ==> r.value.id < 13 && OnParentChain(AstList, t, r.value.id)
  {
    var c := n.children[index];
    if c.Some? then CtIsaIsOnParentChain(AstList, t, c.value.id); c else c
  }

  function NumChildren(n: Node): nat {
    |n.children|
  }

  /** The children from `from` on, each cast to `T*`. */
  function CastChildren(n: Node, from: nat, t: nat): (r: seq<Option<Node>>)
    requires from <= |n.children| && forall i :: from <= i < |n.children| ==> ChildIsa(n.children[i], t)
    ensures |r| == |n.children| - from
    ensures forall i :: 0 <= i < |r| ==> r[i] == n.children[from + i]
    decreases |n.children| - from
  {
    if from == |n.children| then [] else [ChildAt(n, from, t)] + CastChildren(n, from + 1, t)
  }

  /** `Identifier(value)` */
  function MakeIdentifier(value: string): (n: Node)
    ensures WellTyped(n) && PowFree(n) && NumChildren(n) == 0
  {
    Node(Identifier, Name(value), [])
  }

  /** `Literal(std::stod(digits))`, keeping the digits. */
  function MakeLiteral(digits: string): (n: Node)
    ensures WellTyped(n) && PowFree(n) && NumChildren(n) == 0
  {
    Node(Literal, Number(digits), [])
  }

  /** `BinaryExpr(op, lhs, rhs)`: the variadic base constructor pushes `lhs`, then `rhs`. */
  function MakeBinaryExpr(op: BinaryOperator, lhs: Option<Node>, rhs: Option<Node>): (n: Node)
    requires ChildIsa(lhs, Expr) && ChildIsa(rhs, Expr)
    ensures n.id == BinaryExpr && Layout(n) && NumChildren(n) == 2 && Lhs(n) == lhs && Rhs(n) == rhs
    ensures WellTypedOpt(lhs) && WellTypedOpt(rhs) ==> WellTyped(n)
    ensures PowFree(n) <==> op != Pow && PowFreeOpt(lhs) && PowFreeOpt(rhs)
  {
    Node(BinaryExpr, BinaryOp(op), [lhs, rhs])
  }

  function Lhs(n: Node): Option<Node>
    requires n.id == BinaryExpr && Layout(n)
  {
    ChildAt(n, 0, Expr)
  }

  function Rhs(n: Node): Option<Node>
    requires n.id == BinaryExpr && Layout(n)
  {
    ChildAt(n, 1, Expr)
  }

  /** `UnaryExpr(op, operand)` */
  function MakeUnaryExpr(op: UnaryOperator, operand: Option<Node>): (n: Node)
    requires ChildIsa(operand, Expr)
    ensures n.id == UnaryExpr && Layout(n) && NumChildren(n) == 1 && Operand(n) == operand
    ensures WellTypedOpt(operand) ==> WellTyped(n)
    ensures PowFree(n) <==> PowFreeOpt(operand)
  {
    Node(UnaryExpr, UnaryOp(op), [operand])
  }

  function Operand(n: Node): Option<Node>
    requires n.id == UnaryExpr && Layout(n)
  {
    ChildAt(n, 0, Expr)
  }

  /** `CallExpr(callee, arguments)`: `makeChildren` pushes the callee, then appends the arguments in order. */
  function MakeCallExpr(callee: Option<Node>, arguments: seq<Option<Node>>): (n: Node)
    requires ChildIsa(callee, Expr) && AllChildrenIsa(arguments, Expr)
    ensures n.id == CallExpr && Layout(n) && NumChildren(n) == |arguments| + 1
    ensures Callee(n) == callee && Arguments(n) == arguments
    ensures WellTypedOpt(callee) && (forall i :: 0 <= i < |arguments| ==> WellTypedOpt(arguments[i])) ==> WellTyped(n)
    ensures PowFreeOpt(callee) && (forall i :: 0 <= i < |arguments| ==> PowFreeOpt(arguments[i])) ==> PowFree(n)
  {
    var n := Node(CallExpr, NoPayload, [callee] + arguments);
    assert forall i :: 1 <= i < |n.children| ==> n.children[i] == arguments[i - 1];
    n
  }

  function Callee(n: Node): Option<Node>
    requires n.id == CallExpr && Layout(n)
  {
    ChildAt(n, 0, Expr)
  }

  /** `children() | drop(1) | transform(cast<Expr*>)` */
  function Arguments(n: Node): seq<Option<Node>>
    requires n.id == CallExpr && Layout(n)
  {
    CastChildren(n, 1, Expr)
  }

  function MakeEmptyStatement(): (n: Node)
    ensures WellTyped(n) && PowFree(n) && NumChildren(n) == 0
  {
    Node(EmptyStatement, NoPayload, [])
  }

  /** `VarDecl(name, initExpr)` */
  function MakeVarDecl(name: Option<Node>, initExpr: Option<Node>): (n: Node)
    requires ChildIsa(name, Identifier) && ChildIsa(initExpr, Expr)
    ensures n.id == VarDecl && Layout(n) && NumChildren(n) == 2 && DeclName(n) == name && InitExpr(n) == initExpr
    ensures WellTypedOpt(name) && WellTypedOpt(initExpr) ==> WellTyped(n)
    ensures PowFree(n) <==> PowFreeOpt(name) && PowFreeOpt(initExpr)
  {
    Node(VarDecl, NoPayload, [name, initExpr])
  }

  function DeclName(n: Node): Option<Node>
    requires n.id == VarDecl && Layout(n)
  {
    ChildAt(n, 0, Identifier)
  }

  function InitExpr(n: Node): Option<Node>
    requires n.id == VarDecl && Layout(n)
  {
    ChildAt(n, 1, Expr)
  }

  /** `InstrStatement(instr, operands)` */
  function MakeInstrStatement(instr: Instruction, operands: seq<Option<Node>>): (n: Node)
    requires AllChildrenIsa(operands, Expr)
    ensures n.id == InstrStatement && Layout(n) && Operands(n) == operands
    ensures (forall i :: 0 <= i < |operands| ==> WellTypedOpt(operands[i])) ==> WellTyped(n)
    ensures (forall i :: 0 <= i < |operands| ==> PowFreeOpt(operands[i])) ==> PowFree(n)
  {
    Node(InstrStatement, Instr(instr), operands)
  }

  /** `children() | transform(cast<Expr*>)` */
  function Operands(n: Node): seq<Option<Node>>
    requires n.id == InstrStatement && Layout(n)
  {
    CastChildren(n, 0, Expr)
  }

  /** `InstrStatement::initExpr()`: `childAt<Expr>(1)`, whose assert needs a second operand. */
  function InstrInitExpr(n: Node): (r: Option<Node>)
    requires n.id == InstrStatement && Layout(n) && NumChildren(n) > 1
    ensures r == Operands(n)[1]
  {
    ChildAt(n, 1, Expr)
  }

  /** `ExprStatement(expr)` */
  function MakeExprStatement(expr: Option<Node>): (n: Node)
    requires ChildIsa(expr, Expr)
    ensures n.id == ExprStatement && Layout(n) && NumChildren(n) == 1 && ExprOf(n) == expr
    ensures WellTypedOpt(expr) ==> WellTyped(n)
    ensures PowFree(n) <==> PowFreeOpt(expr)
  {
    Node(ExprStatement, NoPayload, [expr])
  }

  function ExprOf(n: Node): Option<Node>
    requires n.id == ExprStatement && Layout(n)
  {
    ChildAt(n, 0, Expr)
  }

  /** `Program(children)` */
  function MakeProgram(statements: seq<Option<Node>>): (n: Node)
    requires AllChildrenIsa(statements, Statement)
    ensures n.id == Program && Layout(n) && Statements(n) == statements
    ensures (forall i :: 0 <= i < |statements| ==> WellTypedOpt(statements[i])) ==> WellTyped(n)
    ensures (forall i :: 0 <= i < |statements| ==> PowFreeOpt(statements[i])) ==> PowFree(n)
  {
    Node(Program, NoPayload, statements)
  }

  /** `children() | transform(cast<Statement*>)` */
  function Statements(n: Node): seq<Option<Node>>
    requires n.id == Program && Layout(n)
  {
    CastChildren(n, 0, Statement)
  }

  /** The child a well-typed node's accessor reaches is itself well typed, so its own accessors' casts hold too. */
  lemma ChildrenWellTyped(n: Node, i: nat)
    requires WellTyped(n) && i < NumChildren(n) && n.children[i].Some?
    ensures WellTyped(n.children[i].value)
    ensures n.id != Program ==> CtIsa(AstList, Expr, n.children[i].value.id) || (n.id == VarDecl && n.children[i].value.id == Identifier)
    ensures n.id == Program ==> CtIsa(AstList, Statement, n.children[i].value.id)
  {
    var c := n.children[i].value;
    AstIsa(Identifier, c.id);
    if n.id == VarDecl && i == 0 {
      assert ChildIsa(n.children[0], Identifier);
    }
  }
}
