/**
 * The recursive-descent parser of the interpreter example. It keeps one
 * token of lookahead in `current`: `peek()` fills it from the lexer when it
 * is empty and returns it, `eat()` empties it, or reads a fresh token when
 * it was already empty. Binary operators all share one precedence level and
 * associate to the right, since the right operand is a whole expression.
 * The parser never produces `Pow`, so every tree it builds is also a tree
 * of the standalone example.
 *
 * Every parsing routine is specified by a function of the parser state
 * `State(current, text)`, where `text` is what the lexer has not read yet.
 * A thrown `std::runtime_error` is a `Failure`. After a failure the class
 * model promises nothing about the state, as nothing in the source reads it
 * after a throw.
 */
module Parsing {
  import opened Wrappers
  import opened Lexing
  import opened Hierarchy
  import Ast

  /** The three messages the parser throws: the lexer's, `"Expected " + kind` and `"Invalid token"`. */
  datatype ParseError = ScanFailed | Expected(what: string) | InvalidToken

  /** The lookahead token and the text the lexer still holds. */
  datatype State = State(current: Option<Token>, text: string)

  /** A value a parsing step produced and the state it left. */
  datatype Got<T> = Got(value: T, st: State)

  type Outcome<T> = Result<Got<T>, ParseError>

  /** A bound on the tokens still to come: the characters left, plus one for a pending token other than `End`. */
  function Measure(s: State): nat {
    |s.text| + (if s.current.Some? && s.current.value.kind != End then 1 else 0)
  }

  /** What a class method returns, compared with its specification: the same result and, on success, the same new state. */
  predicate Agrees<T(==)>(r: Result<T, ParseError>, st: State, o: Outcome<T>) {
    match o
    case Success(g) => r == Success(g.value) && st == g.st
    case Failure(e) => r == Failure(e)
  }

  /** `peek()`: the pending token, read from the lexer first when there is none; it stays pending. */
  function PeekOf(d: Dialect, s: State): (r: Outcome<Token>)
    ensures r.Success? ==> r.value.st.current == Some(r.value.value) && Measure(r.value.st) <= Measure(s)
    ensures r.Failure? ==> s.current.None? && r.error == ScanFailed
  {
    match s.current
    case Some(t) => Success(Got(t, s))
    case None =>
      ScanProgress(d, s.text);
      var sc := Scan(d, s.text);
      match sc.token
      case Success(t) => Success(Got(t, State(Some(t), sc.rest)))
      case Failure(_) => Failure(ScanFailed)
  }

  /** `eat()`: the pending token, or a freshly read one when none is pending; nothing is pending afterwards. */
  function EatOf(d: Dialect, s: State): (r: Outcome<Token>)
    ensures r.Success? ==> r.value.st.current.None?
    ensures r.Success? ==> Measure(r.value.st) + (if r.value.value.kind == End then 0 else 1) <= Measure(s)
    ensures r.Failure? ==> s.current.None? && r.error == ScanFailed
  {
    match s.current
    case Some(t) => Success(Got(t, State(None, s.text)))
    case None =>
      ScanProgress(d, s.text);
      var sc := Scan(d, s.text);
      match sc.token
      case Success(t) => Success(Got(t, State(None, sc.rest)))
      case Failure(_) => Failure(ScanFailed)
  }

  /** `expect(eat(), kind)`: the eaten token must be of `kind`. */
  function ExpectOf(d: Dialect, s: State, kind: TokenKind): (r: Outcome<Token>)
    ensures r.Success? ==> r.value.value.kind == kind && r.value.st.current.None?
    ensures r.Success? ==> Measure(r.value.st) + (if kind == End then 0 else 1) <= Measure(s)
    ensures r.Failure? ==> r.error in {ScanFailed, InvalidToken}
    ensures EatOf(d, s).Failure? ==> r == Failure(ScanFailed)
    ensures EatOf(d, s).Success? ==> (r.Success? <==> EatOf(d, s).value.value.kind == kind)
    ensures r.Success? ==> r == EatOf(d, s)
  {
    var t :- EatOf(d, s);
    if t.value.kind != kind then Failure(InvalidToken) else Success(t)
  }

  /** Peeking twice reads one token: the second `peek()` changes nothing. */
  lemma PeekTwice(d: Dialect, s: State)
    requires PeekOf(d, s).Success?
    ensures PeekOf(d, PeekOf(d, s).value.st) == PeekOf(d, s)
  {
  }

  /** `eat()` after `peek()` returns the peeked token, reads nothing more, and cannot fail. */
  lemma EatAfterPeek(d: Dialect, s: State)
    requires PeekOf(d, s).Success?
    ensures var p := PeekOf(d, s).value;
      EatOf(d, p.st) == Success(Got(p.value, State(None, p.st.text)))
  {
  }

  /** Without a pending token, `peek()` and `eat()` read the same token and leave the same text. */
  lemma PeekThenEatIsEat(d: Dialect, s: State)
    requires s.current.None?
    ensures PeekOf(d, s).Success? <==> EatOf(d, s).Success?
    ensures PeekOf(d, s).Success? ==>
      EatOf(d, PeekOf(d, s).value.st) == EatOf(d, s)
  {
  }

  /** `toBinOp`: `+ - * /`; `Pow` is never produced. */
  function BinOp(kind: TokenKind): Option<Ast.BinaryOperator> {
    match kind
    case Add => Some(Ast.Add)
    case Sub => Some(Ast.Sub)
    case Mul => Some(Ast.Mul)
    case Div => Some(Ast.Div)
    case _ => None
  }

  /** `toUnOp` */
  function UnOp(kind: TokenKind): Option<Ast.UnaryOperator> {
    match kind
    case Add => Some(Ast.Promote)
    case Sub => Some(Ast.Negate)
    case _ => None
  }

  /** `toInstr` */
  function InstrOf(kind: TokenKind): Option<Ast.Instruction> {
    match kind
    case Print => Some(Ast.Print)
    case Quit => Some(Ast.Quit)
    case _ => None
  }

  /** The class relations the parser's casts to `Expr*`, `Statement*` and `Identifier*` rely on. */
  predicate KindsHold() {
    WellFormed(Ast.AstList) &&
    CtIsa(Ast.AstList, Ast.Expr, Ast.Identifier) && CtIsa(Ast.AstList, Ast.Expr, Ast.Literal) &&
    CtIsa(Ast.AstList, Ast.Expr, Ast.BinaryExpr) && CtIsa(Ast.AstList, Ast.Expr, Ast.UnaryExpr) &&
    CtIsa(Ast.AstList, Ast.Expr, Ast.CallExpr) && CtIsa(Ast.AstList, Ast.Identifier, Ast.Identifier) &&
    CtIsa(Ast.AstList, Ast.Statement, Ast.EmptyStatement) && CtIsa(Ast.AstList, Ast.Statement, Ast.VarDecl) &&
    CtIsa(Ast.AstList, Ast.Statement, Ast.InstrStatement) && CtIsa(Ast.AstList, Ast.Statement, Ast.ExprStatement)
  }

  lemma NodeKinds()
    ensures KindsHold()
  {
    Ast.AstIsa(Ast.Expr, Ast.Identifier);
    Ast.AstIsa(Ast.Expr, Ast.Literal);
    Ast.AstIsa(Ast.Expr, Ast.BinaryExpr);
    Ast.AstIsa(Ast.Expr, Ast.UnaryExpr);
    Ast.AstIsa(Ast.Expr, Ast.CallExpr);
    Ast.AstIsa(Ast.Identifier, Ast.Identifier);
    Ast.AstIsa(Ast.Statement, Ast.EmptyStatement);
    Ast.AstIsa(Ast.Statement, Ast.VarDecl);
    Ast.AstIsa(Ast.Statement, Ast.InstrStatement);
    Ast.AstIsa(Ast.Statement, Ast.ExprStatement);
  }

  /** A `DynUniquePtr<Expr>` the parser returns: null, or a well-typed, `Pow`-free expression tree. */
  predicate IsExpr(c: Option<Ast.Node>) {
    Ast.ChildIsa(c, Ast.Expr) && Ast.WellTypedOpt(c) && Ast.PowFreeOpt(c)
  }

  /** A `DynUniquePtr<Statement>` the parser returns. */
  predicate IsStmt(c: Option<Ast.Node>) {
    Ast.ChildIsa(c, Ast.Statement) && Ast.WellTypedOpt(c) && Ast.PowFreeOpt(c)
  }

  /** An argument list: non-null expressions. */
  predicate AllExprs(cs: seq<Option<Ast.Node>>) {
    forall i :: 0 <= i < |cs| ==> cs[i].Some? && IsExpr(cs[i])
  }

  /** A statement list: non-null statements. */
  predicate AllStmts(cs: seq<Option<Ast.Node>>) {
    forall i :: 0 <= i < |cs| ==> cs[i].Some? && IsStmt(cs[i])
  }

  /** A statement appended to statements gives statements. */
  lemma AllStmtsAppend(acc: seq<Option<Ast.Node>>, x: Option<Ast.Node>)
    requires AllStmts(acc) && x.Some? && IsStmt(x)
    ensures AllStmts(acc + [x])
  {
  }

  /** Dropping the last element of a known prefix leaves a prefix. */
  lemma PrefixOfPrefix<T>(acc: seq<T>, x: T, all: seq<T>)
    requires |acc| + 1 <= |all| && all[..|acc| + 1] == acc + [x]
    ensures |acc| <= |all| && all[..|acc|] == acc
  {
    assert all[..|acc|] == all[..|acc| + 1][..|acc|];
  }

  /** A program of parsed statements is well typed and Pow-free. */
  lemma ProgramOf(acc: seq<Option<Ast.Node>>)
    requires AllStmts(acc)
    ensures var n := Ast.MakeProgram(acc);
      n.id == Ast.Program && Ast.WellTyped(n) && Ast.PowFree(n) && Ast.Statements(n) == acc
  {
    forall i | 0 <= i < |acc| ensures Ast.ChildIsa(acc[i], Ast.Statement) {
    }
  }

  /**
   * What a routine returning a node pointer promises: a node of the right
   * kind, a state no further along than its start, and real progress when
   * the pointer is not null.
   */
  predicate NodeResult(s: State, r: Outcome<Option<Ast.Node>>, stmt: bool) {
    r.Success? ==>
      (if stmt then IsStmt(r.value.value) else IsExpr(r.value.value)) &&
      Measure(r.value.st) <= Measure(s) &&
      (r.value.value.Some? ==> Measure(r.value.st) < Measure(s))
  }

  /** `parseIdentifier()`: an `Identifier` node when the next token is an identifier, otherwise null. */
  function IdentifierOpt(d: Dialect, s: State): (r: Outcome<Option<Ast.Node>>)
    ensures NodeResult(s, r, false)
    ensures r.Success? ==> Ast.ChildIsa(r.value.value, Ast.Identifier)
    ensures s.current.Some? ==> r.Success?
    ensures r.Success? && r.value.value.Some? ==>
      PeekOf(d, s).Success? && PeekOf(d, s).value.value.kind == Identifier &&
      r.value.value == Some(Ast.MakeIdentifier(PeekOf(d, s).value.value.id))
  {
    NodeKinds();
    var p :- PeekOf(d, s);
    if p.value.kind == Identifier then
      var e := EatOf(d, p.st).value;
      Success(Got(Some(Ast.MakeIdentifier(p.value.id)), e.st))
    else
      Success(Got(None, p.st))
  }

  /** `parseLiteral()`: a `Literal` node holding the digits when the next token is a number, otherwise null. */
  function LiteralOpt(d: Dialect, s: State): (r: Outcome<Option<Ast.Node>>)
    ensures NodeResult(s, r, false)
    ensures s.current.Some? ==> r.Success?
    ensures r.Success? && r.value.value.Some? ==>
      PeekOf(d, s).Success? && PeekOf(d, s).value.value.kind == NumericLiteral &&
      r.value.value == Some(Ast.MakeLiteral(PeekOf(d, s).value.value.id))
  {
    NodeKinds();
    var p :- PeekOf(d, s);
    if p.value.kind == NumericLiteral then
      var e := EatOf(d, p.st).value;
      Success(Got(Some(Ast.MakeLiteral(p.value.id)), e.st))
    else
      Success(Got(None, p.st))
  }

  /** `parseExpr()` */
  function Expression(d: Dialect, s: State): (r: Outcome<Option<Ast.Node>>)
    ensures NodeResult(s, r, false)
    decreases Measure(s), 5
  {
    BinaryExpression(d, s)
  }

  /**
   * `parseBinaryExpr()`: a unary expression, then, when an operator follows,
   * the operator and a whole expression as right operand. The left operand
   * is not checked, so `* 3` has a null left operand.
   */
  function BinaryExpression(d: Dialect, s: State): (r: Outcome<Option<Ast.Node>>)
    ensures NodeResult(s, r, false)
    decreases Measure(s), 4
  {
    NodeKinds();
    var lhs :- UnaryExpression(d, s);
    var p :- PeekOf(d, lhs.st);
    match BinOp(p.value.kind)
    case None => Success(Got(lhs.value, p.st))
    case Some(op) =>
      var e := EatOf(d, p.st).value;
      var rhs :- Expression(d, e.st);
      if rhs.value.None? then Failure(Expected("expression"))
      else Success(Got(Some(Ast.MakeBinaryExpr(op, lhs.value, rhs.value)), rhs.st))
  }

  /** `parseUnaryExpr()`: `+` or `-` applies to a whole expression; otherwise a call expression. */
  function UnaryExpression(d: Dialect, s: State): (r: Outcome<Option<Ast.Node>>)
    ensures NodeResult(s, r, false)
    decreases Measure(s), 3
  {
    NodeKinds();
    var p :- PeekOf(d, s);
    match UnOp(p.value.kind)
    case Some(op) =>
      var e := EatOf(d, p.st).value;
      var operand :- Expression(d, e.st);
      if operand.value.None? then Failure(Expected("expression"))
      else Success(Got(Some(Ast.MakeUnaryExpr(op, operand.value)), operand.st))
    case None => CallExpression(d, p.st)
  }

  /** `parseCallExpr()`: a primary expression, called when an opening parenthesis follows (the callee may be null). */
  function CallExpression(d: Dialect, s: State): (r: Outcome<Option<Ast.Node>>)
    ensures NodeResult(s, r, false)
    decreases Measure(s), 2
  {
    NodeKinds();
    var prim :- Primary(d, s);
    var p :- PeekOf(d, prim.st);
    if p.value.kind != OpenParen then Success(Got(prim.value, p.st))
    else
      var e := EatOf(d, p.st).value;
      var args :- Arguments(d, e.st, CloseParen, true, []);
      Success(Got(Some(Ast.MakeCallExpr(prim.value, args.value)), args.st))
  }

  /** `parsePrimary()`: a parenthesised expression, an identifier, a literal, or null. */
  function Primary(d: Dialect, s: State): (r: Outcome<Option<Ast.Node>>)
    ensures NodeResult(s, r, false)
    decreases Measure(s), 1
  {
    var p :- PeekOf(d, s);
    if p.value.kind == OpenParen then
      var e := EatOf(d, p.st).value;
      var inner :- Expression(d, e.st);
      var close :- ExpectOf(d, inner.st, CloseParen);
      Success(Got(inner.value, close.st))
    else
      var id := IdentifierOpt(d, p.st).value;
      if id.value.Some? then Success(id)
      else
        var lit := LiteralOpt(d, id.st).value;
        if lit.value.Some? then Success(lit)
        else Success(Got(None, lit.st))
  }

  /**
   * `parseArgumentList(delim)` from the point where `first` and the
   * arguments read so far are `acc`: comma-separated non-null expressions up
   * to and including `delim`.
   */
  function Arguments(d: Dialect, s: State, delim: TokenKind, first: bool, acc: seq<Option<Ast.Node>>)
    : (r: Outcome<seq<Option<Ast.Node>>>)
    requires AllExprs(acc)
    ensures r.Success? ==> AllExprs(r.value.value) && |acc| <= |r.value.value| && r.value.value[..|acc|] == acc
    ensures r.Success? ==> Measure(r.value.st) + (if delim == End then 0 else 1) <= Measure(s)
    decreases Measure(s), 6
  {
    var p :- PeekOf(d, s);
    if p.value.kind == delim then
      Success(Got(acc, EatOf(d, p.st).value.st))
    else
      var c := if first then Success(p) else ExpectOf(d, p.st, Comma);
      if c.Failure? then Failure(c.error)
      else
        var arg :- Expression(d, c.value.st);
        if arg.value.None? then Failure(Expected("expression"))
        else
          var r := Arguments(d, arg.st, delim, false, acc + [arg.value]);
          if r.Success? then PrefixOfPrefix(acc, arg.value, r.value.value); r else r
  }

  /** At the delimiter the list ends with the arguments read so far, and the delimiter is eaten. */
  lemma ArgumentsAtDelimiter(d: Dialect, s: State, delim: TokenKind, first: bool, acc: seq<Option<Ast.Node>>)
    requires AllExprs(acc) && PeekOf(d, s).Success? && PeekOf(d, s).value.value.kind == delim
    ensures Arguments(d, s, delim, first, acc) == Success(Got(acc, EatOf(d, PeekOf(d, s).value.st).value.st))
  {
  }

  /** The state an argument starts in: after the peeked token, and after a comma unless it is the first. */
  predicate ArgumentStart(d: Dialect, s: State, first: bool, c: State) {
    PeekOf(d, s).Success? &&
    if first then c == PeekOf(d, s).value.st
    else ExpectOf(d, PeekOf(d, s).value.st, Comma).Success? && c == ExpectOf(d, PeekOf(d, s).value.st, Comma).value.st
  }

  /** A missing comma between two arguments ends the list with the error of `expect(Comma)`. */
  lemma ArgumentsCommaMissing(d: Dialect, s: State, delim: TokenKind, acc: seq<Option<Ast.Node>>)
    requires AllExprs(acc) && PeekOf(d, s).Success? && PeekOf(d, s).value.value.kind != delim
    requires ExpectOf(d, PeekOf(d, s).value.st, Comma).Failure?
    ensures Arguments(d, s, delim, false, acc) == Failure(ExpectOf(d, PeekOf(d, s).value.st, Comma).error)
  {
  }

  /** An argument that fails to parse, or is null, ends the list with an error. */
  lemma ArgumentsExpressionMissing(d: Dialect, s: State, delim: TokenKind, first: bool, acc: seq<Option<Ast.Node>>, c: State)
    requires AllExprs(acc) && PeekOf(d, s).Success? && PeekOf(d, s).value.value.kind != delim
    requires ArgumentStart(d, s, first, c)
    requires Expression(d, c).Failure? || Expression(d, c).value.value.None?
    ensures Arguments(d, s, delim, first, acc) ==
      Failure(if Expression(d, c).Failure? then Expression(d, c).error else Expected("expression"))
  {
  }

  /** One more argument, after a comma unless it is the first, is appended and the list goes on after it. */
  lemma ArgumentsContinue(d: Dialect, s: State, delim: TokenKind, first: bool, acc: seq<Option<Ast.Node>>,
                          c: State, arg: Got<Option<Ast.Node>>)
    requires AllExprs(acc) && PeekOf(d, s).Success? && PeekOf(d, s).value.value.kind != delim
    requires ArgumentStart(d, s, first, c)
    requires Expression(d, c) == Success(arg) && arg.value.Some?
    ensures AllExprs(acc + [arg.value])
    ensures Arguments(d, s, delim, first, acc) == Arguments(d, arg.st, delim, false, acc + [arg.value])
  {
  }

  /** `parseVarDecl()`, called when the next token is `let`: `let name = expr;`. */
  function VarDeclStmt(d: Dialect, s: State): (r: Outcome<Option<Ast.Node>>)
    requires PeekOf(d, s).Success? && PeekOf(d, s).value.value.kind == Let
    ensures NodeResult(s, r, true)
    ensures r.Success? ==> r.value.value.Some? && r.value.value.value.id == Ast.VarDecl
  {
    NodeKinds();
    var p := PeekOf(d, s).value;
    var e := EatOf(d, p.st).value;
    var name :- IdentifierOpt(d, e.st);
    if name.value.None? then Failure(Expected("identifier"))
    else
      var assign :- ExpectOf(d, name.st, Assign);
      var init :- Expression(d, assign.st);
      if init.value.None? then Failure(Expected("expression"))
      else
        var semi :- ExpectOf(d, init.st, Semicolon);
        Success(Got(Some(Ast.MakeVarDecl(name.value, init.value)), semi.st))
  }

  /** `parseInstrStmt()`: `print` or `quit`, then arguments up to `;`. */
  function InstrStmt(d: Dialect, s: State): (r: Outcome<Option<Ast.Node>>)
    ensures NodeResult(s, r, true)
  {
    NodeKinds();
    var p :- PeekOf(d, s);
    match InstrOf(p.value.kind)
    case None => Success(Got(None, p.st))
    case Some(instr) =>
      var e := EatOf(d, p.st).value;
      var args :- Arguments(d, e.st, Semicolon, true, []);
      Success(Got(Some(Ast.MakeInstrStatement(instr, args.value)), args.st))
  }

  /** `parseExprStmt()`: an expression followed by `;`, or null when no expression starts here. */
  function ExprStmt(d: Dialect, s: State): (r: Outcome<Option<Ast.Node>>)
    ensures NodeResult(s, r, true)
  {
    NodeKinds();
    var expr :- Expression(d, s);
    if expr.value.None? then Success(Got(None, expr.st))
    else
      var semi :- ExpectOf(d, expr.st, Semicolon);
      Success(Got(Some(Ast.MakeExprStatement(expr.value)), semi.st))
  }

  /** `parseStmt()`: a declaration, an expression statement, an instruction, a lone `;`, or null. */
  function Stmt(d: Dialect, s: State): (r: Outcome<Option<Ast.Node>>)
    ensures NodeResult(s, r, true)
  {
    NodeKinds();
    var p :- PeekOf(d, s);
    if p.value.kind == Let then VarDeclStmt(d, p.st)
    else
      var es :- ExprStmt(d, p.st);
      if es.value.Some? then Success(es)
      else
        var ins :- InstrStmt(d, es.st);
        if ins.value.Some? then Success(ins)
        else
          var q :- PeekOf(d, ins.st);
          if q.value.kind == Semicolon then
            Success(Got(Some(Ast.MakeEmptyStatement()), EatOf(d, q.st).value.st))
          else Success(Got(None, q.st))
  }

  /** The loop of `parse()` once the statements `acc` have been read: statements until one is null. */
  function StatementList(d: Dialect, s: State, acc: seq<Option<Ast.Node>>): (r: Outcome<Ast.Node>)
    requires AllStmts(acc)
    ensures r.Success? ==> var n := r.value.value;
      n.id == Ast.Program && Ast.WellTyped(n) && Ast.PowFree(n) &&
      |acc| <= |Ast.Statements(n)| && Ast.Statements(n)[..|acc|] == acc && AllStmts(Ast.Statements(n))
    decreases Measure(s)
  {
    NodeKinds();
    var stmt :- Stmt(d, s);
    if stmt.value.None? then
      ProgramOf(acc);
      Success(Got(Ast.MakeProgram(acc), stmt.st))
    else
      AllStmtsAppend(acc, stmt.value);
      var r := StatementList(d, stmt.st, acc + [stmt.value]);
      if r.Success? then PrefixOfPrefix(acc, stmt.value, Ast.Statements(r.value.value)); r else r
  }

  /** `examples::parse(source)`: the program, or the message of the exception it throws. */
  function ParseSource(d: Dialect, source: string): (r: Result<Ast.Node, ParseError>)
    ensures r.Success? ==> r.value.id == Ast.Program && Ast.WellTyped(r.value) && Ast.PowFree(r.value)
    ensures r.Success? ==> AllStmts(Ast.Statements(r.value))
  {
    match StatementList(d, State(None, source), [])
    case Success(g) => Success(g.value)
    case Failure(e) => Failure(e)
  }

  /** Tokens that start no expression and are no binary operator. */
  predicate StartsNoExpression(kind: TokenKind) {
    kind in {CloseParen, Semicolon, Comma, Assign, End, Let, Print, Quit}
  }

  /** Before such a token an expression is null, and only the peeked token has been read. */
  lemma NoExpressionHere(d: Dialect, s: State)
    requires PeekOf(d, s).Success? && StartsNoExpression(PeekOf(d, s).value.value.kind)
    ensures Expression(d, s) == Success(Got(None, PeekOf(d, s).value.st))
  {
    var p := PeekOf(d, s).value;
    NoUnaryHere(d, s);
    assert PeekOf(d, p.st) == Success(p);
  }

  /** Before such a token the unary expression is null. */
  lemma NoUnaryHere(d: Dialect, s: State)
    requires PeekOf(d, s).Success? && StartsNoExpression(PeekOf(d, s).value.value.kind)
    ensures UnaryExpression(d, s) == Success(Got(None, PeekOf(d, s).value.st))
  {
    NoCallHere(d, s);
  }

  /** Before such a token the postfix expression is null. */
  lemma NoCallHere(d: Dialect, s: State)
    requires PeekOf(d, s).Success? && StartsNoExpression(PeekOf(d, s).value.value.kind)
    ensures CallExpression(d, PeekOf(d, s).value.st) == Success(Got(None, PeekOf(d, s).value.st))
  {
    var p := PeekOf(d, s).value;
    assert PeekOf(d, p.st) == Success(p);
    assert IdentifierOpt(d, p.st) == Success(Got(None, p.st));
    assert LiteralOpt(d, p.st) == Success(Got(None, p.st));
    assert Primary(d, p.st) == Success(Got(None, p.st));
  }

  /** Before `)`, `,`, `=` or the end, a statement is null and nothing more is read. */
  lemma NoStatementHere(d: Dialect, s: State)
    requires PeekOf(d, s).Success? && PeekOf(d, s).value.value.kind in {CloseParen, Comma, Assign, End}
    ensures Stmt(d, s) == Success(Got(None, PeekOf(d, s).value.st))
  {
    var p := PeekOf(d, s).value;
    assert PeekOf(d, p.st) == Success(p);
    NoExprStmtHere(d, p.st);
    NoInstrHere(d, p.st);
  }

  /** Before a token that starts no expression, the expression statement is null. */
  lemma NoExprStmtHere(d: Dialect, s: State)
    requires PeekOf(d, s).Success? && StartsNoExpression(PeekOf(d, s).value.value.kind)
    ensures ExprStmt(d, s) == Success(Got(None, PeekOf(d, s).value.st))
  {
    NoExpressionHere(d, s);
  }

  /** Before a token that names no instruction, the instruction statement is null. */
  lemma NoInstrHere(d: Dialect, s: State)
    requires PeekOf(d, s).Success? && InstrOf(PeekOf(d, s).value.value.kind).None?
    ensures InstrStmt(d, s) == Success(Got(None, PeekOf(d, s).value.st))
  {
  }

  /** A lone `;` is an empty statement. */
  lemma SemicolonIsEmptyStatement(d: Dialect, s: State)
    requires PeekOf(d, s).Success? && PeekOf(d, s).value.value.kind == Semicolon
    ensures Stmt(d, s) == Success(Got(Some(Ast.MakeEmptyStatement()), State(None, PeekOf(d, s).value.st.text)))
  {
    var p := PeekOf(d, s).value;
    assert PeekOf(d, p.st) == Success(p);
    NoExprStmtHere(d, p.st);
    NoInstrHere(d, p.st);
  }

  /**
   * The program ends at the first token that starts no statement, and
   * `parse()` returns without reading the rest: `x; )` is the program `x;`.
   */
  lemma ProgramEndsWhereStatementsEnd(d: Dialect, s: State, acc: seq<Option<Ast.Node>>)
    requires AllStmts(acc)
    requires PeekOf(d, s).Success? && PeekOf(d, s).value.value.kind in {CloseParen, Comma, Assign, End}
    ensures StatementList(d, s, acc) == Success(Got(Ast.MakeProgram(acc), PeekOf(d, s).value.st))
  {
    NoStatementHere(d, s);
  }

  /** A binary expression node over `lhs` and the outcome of parsing the right operand. */
  function WithRhs(op: Ast.BinaryOperator, lhs: Option<Ast.Node>, rhs: Outcome<Option<Ast.Node>>): Outcome<Option<Ast.Node>>
    requires IsExpr(lhs) && (rhs.Success? ==> IsExpr(rhs.value.value))
  {
    match rhs
    case Failure(e) => Failure(e)
    case Success(g) =>
      if g.value.None? then Failure(Expected("expression"))
      else Success(Got(Some(Ast.MakeBinaryExpr(op, lhs, g.value)), g.st))
  }

  /** The leaf node `parsePrimary()` makes of an identifier or number token. */
  function Leaf(t: Token): Option<Ast.Node> {
    if t.kind == Identifier then Some(Ast.MakeIdentifier(t.id))
    else if t.kind == NumericLiteral then Some(Ast.MakeLiteral(t.id))
    else None
  }

  /**
   * An identifier or number not followed by `(`: the expression is that
   * leaf, or, when an operator follows, the operator applied to the leaf and
   * to the whole expression after it, which makes operators associate to
   * the right.
   */
  lemma LeafThen(d: Dialect, s: State)
    requires PeekOf(d, s).Success? && PeekOf(d, s).value.value.kind in {Identifier, NumericLiteral}
    requires PeekOf(d, State(None, PeekOf(d, s).value.st.text)).Success?
    requires PeekOf(d, State(None, PeekOf(d, s).value.st.text)).value.value.kind != OpenParen
    ensures var p := PeekOf(d, s).value;
      var q := PeekOf(d, State(None, p.st.text)).value;
      IsExpr(Leaf(p.value)) &&
      (BinOp(q.value.kind).None? ==> Expression(d, s) == Success(Got(Leaf(p.value), q.st))) &&
      (BinOp(q.value.kind).Some? ==>
        Expression(d, s) == WithRhs(BinOp(q.value.kind).value, Leaf(p.value), Expression(d, State(None, q.st.text))))
  {
    NodeKinds();
    var q := PeekOf(d, State(None, PeekOf(d, s).value.st.text)).value;
    if BinOp(q.value.kind).None? {
      LeafThenNoOperator(d, s);
    } else {
      LeafThenOperator(d, s);
    }
  }

  /** The leaf, then a token that is no operator: the expression is the leaf. */
  lemma LeafThenNoOperator(d: Dialect, s: State)
    requires PeekOf(d, s).Success? && PeekOf(d, s).value.value.kind in {Identifier, NumericLiteral}
    requires PeekOf(d, State(None, PeekOf(d, s).value.st.text)).Success?
    requires PeekOf(d, State(None, PeekOf(d, s).value.st.text)).value.value.kind != OpenParen
    requires BinOp(PeekOf(d, State(None, PeekOf(d, s).value.st.text)).value.value.kind).None?
    ensures var p := PeekOf(d, s).value;
      Expression(d, s) == Success(Got(Leaf(p.value), PeekOf(d, State(None, p.st.text)).value.st))
  {
    var q := PeekOf(d, State(None, PeekOf(d, s).value.st.text)).value;
    LeafUnary(d, s);
    assert PeekOf(d, q.st) == Success(q);
  }

  /** The leaf, then an operator: the expression is the operator applied to the leaf and the expression after it. */
  lemma LeafThenOperator(d: Dialect, s: State)
    requires PeekOf(d, s).Success? && PeekOf(d, s).value.value.kind in {Identifier, NumericLiteral}
    requires PeekOf(d, State(None, PeekOf(d, s).value.st.text)).Success?
    requires PeekOf(d, State(None, PeekOf(d, s).value.st.text)).value.value.kind != OpenParen
    requires BinOp(PeekOf(d, State(None, PeekOf(d, s).value.st.text)).value.value.kind).Some?
    ensures var p := PeekOf(d, s).value;
      var q := PeekOf(d, State(None, p.st.text)).value;
      IsExpr(Leaf(p.value)) &&
      Expression(d, s) == WithRhs(BinOp(q.value.kind).value, Leaf(p.value), Expression(d, State(None, q.st.text)))
  {
    var p := PeekOf(d, s).value;
    var q := PeekOf(d, State(None, p.st.text)).value;
    LeafIsExpr(p.value);
    LeafUnary(d, s);
    assert PeekOf(d, q.st) == Success(q);
    assert EatOf(d, q.st) == Success(Got(q.value, State(None, q.st.text)));
    assert BinaryExpression(d, s) == WithRhs(BinOp(q.value.kind).value, Leaf(p.value), Expression(d, State(None, q.st.text)));
  }

  /** The leaf of an identifier or number token is an expression node. */
  lemma LeafIsExpr(t: Token)
    requires t.kind in {Identifier, NumericLiteral}
    ensures IsExpr(Leaf(t))
  {
    NodeKinds();
  }

  /** An identifier or number not followed by `(`, with no sign before it: the unary expression is the leaf. */
  lemma LeafUnary(d: Dialect, s: State)
    requires PeekOf(d, s).Success? && PeekOf(d, s).value.value.kind in {Identifier, NumericLiteral}
    requires PeekOf(d, State(None, PeekOf(d, s).value.st.text)).Success?
    requires PeekOf(d, State(None, PeekOf(d, s).value.st.text)).value.value.kind != OpenParen
    ensures var p := PeekOf(d, s).value;
      UnaryExpression(d, s) == Success(Got(Leaf(p.value), PeekOf(d, State(None, p.st.text)).value.st))
  {
    LeafCall(d, s);
  }

  /** The primary expression of an identifier or number token is its leaf; the next token is not yet read. */
  lemma LeafPrimary(d: Dialect, s: State)
    requires PeekOf(d, s).Success? && PeekOf(d, s).value.value.kind in {Identifier, NumericLiteral}
    ensures var p := PeekOf(d, s).value;
      Primary(d, p.st) == Success(Got(Leaf(p.value), State(None, p.st.text)))
  {
    NodeKinds();
    var p := PeekOf(d, s).value;
    var e := State(None, p.st.text);
    assert PeekOf(d, p.st) == Success(p);
    if p.value.kind == Identifier {
      assert IdentifierOpt(d, p.st) == Success(Got(Leaf(p.value), e));
    } else {
      assert IdentifierOpt(d, p.st) == Success(Got(None, p.st));
      assert LiteralOpt(d, p.st) == Success(Got(Leaf(p.value), e));
    }
  }

  /** An identifier or number not followed by `(` is no call: the postfix expression is the leaf. */
  lemma LeafCall(d: Dialect, s: State)
    requires PeekOf(d, s).Success? && PeekOf(d, s).value.value.kind in {Identifier, NumericLiteral}
    requires PeekOf(d, State(None, PeekOf(d, s).value.st.text)).Success?
    requires PeekOf(d, State(None, PeekOf(d, s).value.st.text)).value.value.kind != OpenParen
    ensures var p := PeekOf(d, s).value;
      CallExpression(d, p.st) == Success(Got(Leaf(p.value), PeekOf(d, State(None, p.st.text)).value.st))
  {
    var p := PeekOf(d, s).value;
    var q := PeekOf(d, State(None, p.st.text)).value;
    LeafPrimary(d, s);
    assert PeekOf(d, q.st) == Success(q);
  }

  /** The state once the token `peek()` returns has been eaten: nothing pending, the lexer past that token. */
  function PastPeek(d: Dialect, s: State): (r: State)
    requires PeekOf(d, s).Success?
    ensures r.current.None? && EatOf(d, PeekOf(d, s).value.st) == Success(Got(PeekOf(d, s).value.value, r))
  {
    State(None, PeekOf(d, s).value.st.text)
  }

  // ---- `let name = expr;` ----

  /** The declared name: an identifier token right after `let`. */
  predicate NameAfterLet(d: Dialect, s: State) {
    PeekOf(d, s).Success? && PeekOf(d, s).value.value.kind == Let &&
    PeekOf(d, PastPeek(d, s)).Success? && PeekOf(d, PastPeek(d, s)).value.value.kind == Identifier
  }

  /** The state after `let` and the name. */
  function AfterName(d: Dialect, s: State): State
    requires NameAfterLet(d, s)
  {
    PastPeek(d, PastPeek(d, s))
  }

  /** The name node `parseIdentifier()` makes after `let`. */
  function DeclaredName(d: Dialect, s: State): Option<Ast.Node>
    requires NameAfterLet(d, s)
  {
    Some(Ast.MakeIdentifier(PeekOf(d, PastPeek(d, s)).value.value.id))
  }

  /** `let`, an identifier, `=`, an expression and `;` give the declaration of that name with that initialiser. */
  lemma VarDeclParses(d: Dialect, s: State, init: Got<Option<Ast.Node>>)
    requires NameAfterLet(d, s)
    requires ExpectOf(d, AfterName(d, s), Assign).Success?
    requires Expression(d, ExpectOf(d, AfterName(d, s), Assign).value.st) == Success(init) && init.value.Some?
    requires ExpectOf(d, init.st, Semicolon).Success?
    ensures IsExpr(init.value)
    ensures VarDeclStmt(d, s) ==
      Success(Got(Some(Ast.MakeVarDecl(DeclaredName(d, s), init.value)), ExpectOf(d, init.st, Semicolon).value.st))
  {
    NodeKinds();
    var t1 := PastPeek(d, s);
    assert IdentifierOpt(d, t1) == Success(Got(DeclaredName(d, s), AfterName(d, s)));
  }

  /** Anything but an identifier after `let` throws "Expected identifier" (or the lexer's error). */
  lemma VarDeclNameMissing(d: Dialect, s: State)
    requires PeekOf(d, s).Success? && PeekOf(d, s).value.value.kind == Let
    requires PeekOf(d, PastPeek(d, s)).Failure? || PeekOf(d, PastPeek(d, s)).value.value.kind != Identifier
    ensures VarDeclStmt(d, s) ==
      Failure(if PeekOf(d, PastPeek(d, s)).Failure? then ScanFailed else Expected("identifier"))
  {
    var t1 := PastPeek(d, s);
    if PeekOf(d, t1).Success? {
      assert IdentifierOpt(d, t1) == Success(Got(None, PeekOf(d, t1).value.st));
    }
  }

  /** Anything but `=` after the name throws "Invalid token" (or the lexer's error). */
  lemma VarDeclAssignMissing(d: Dialect, s: State)
    requires NameAfterLet(d, s)
    requires EatOf(d, AfterName(d, s)).Failure? || EatOf(d, AfterName(d, s)).value.value.kind != Assign
    ensures VarDeclStmt(d, s) ==
      Failure(if EatOf(d, AfterName(d, s)).Failure? then ScanFailed else InvalidToken)
  {
    NodeKinds();
    var t1 := PastPeek(d, s);
    assert IdentifierOpt(d, t1) == Success(Got(DeclaredName(d, s), AfterName(d, s)));
  }

  /** A missing initialiser after `=` throws "Expected expression" (or the error of the expression). */
  lemma VarDeclExpressionMissing(d: Dialect, s: State)
    requires NameAfterLet(d, s)
    requires ExpectOf(d, AfterName(d, s), Assign).Success?
    requires var x := Expression(d, ExpectOf(d, AfterName(d, s), Assign).value.st); x.Failure? || x.value.value.None?
    ensures var x := Expression(d, ExpectOf(d, AfterName(d, s), Assign).value.st);
      VarDeclStmt(d, s) == Failure(if x.Failure? then x.error else Expected("expression"))
  {
    NodeKinds();
    var t1 := PastPeek(d, s);
    assert IdentifierOpt(d, t1) == Success(Got(DeclaredName(d, s), AfterName(d, s)));
  }

  /** Anything but `;` after the initialiser throws "Invalid token" (or the lexer's error). */
  lemma VarDeclSemicolonMissing(d: Dialect, s: State, init: Got<Option<Ast.Node>>)
    requires NameAfterLet(d, s)
    requires ExpectOf(d, AfterName(d, s), Assign).Success?
    requires Expression(d, ExpectOf(d, AfterName(d, s), Assign).value.st) == Success(init) && init.value.Some?
    requires EatOf(d, init.st).Failure? || EatOf(d, init.st).value.value.kind != Semicolon
    ensures VarDeclStmt(d, s) == Failure(if EatOf(d, init.st).Failure? then ScanFailed else InvalidToken)
  {
    NodeKinds();
    var t1 := PastPeek(d, s);
    assert IdentifierOpt(d, t1) == Success(Got(DeclaredName(d, s), AfterName(d, s)));
  }

  // ---- argument lists on token shapes ----

  /**
   * An identifier or number argument followed by a token that neither calls
   * it nor continues it with an operator is appended as its leaf, and the
   * list goes on at that token.
   */
  lemma ArgumentsLeaf(d: Dialect, s: State, delim: TokenKind, first: bool, acc: seq<Option<Ast.Node>>, c: State)
    requires AllExprs(acc) && PeekOf(d, s).Success? && PeekOf(d, s).value.value.kind != delim
    requires ArgumentStart(d, s, first, c)
    requires PeekOf(d, c).Success? && PeekOf(d, c).value.value.kind in {Identifier, NumericLiteral}
    requires PeekOf(d, PastPeek(d, c)).Success? && PeekOf(d, PastPeek(d, c)).value.value.kind != OpenParen
    requires BinOp(PeekOf(d, PastPeek(d, c)).value.value.kind).None?
    ensures AllExprs(acc + [Leaf(PeekOf(d, c).value.value)])
    ensures Arguments(d, s, delim, first, acc) ==
      Arguments(d, PeekOf(d, PastPeek(d, c)).value.st, delim, false, acc + [Leaf(PeekOf(d, c).value.value)])
  {
    var q := PeekOf(d, PastPeek(d, c)).value;
    LeafIsExpr(PeekOf(d, c).value.value);
    LeafThenNoOperator(d, c);
    ArgumentsContinue(d, s, delim, first, acc, c, Got(Leaf(PeekOf(d, c).value.value), q.st));
  }

  /** `print;` and `quit;`: an instruction with no operands. */
  lemma InstrWithoutOperands(d: Dialect, s: State)
    requires PeekOf(d, s).Success? && InstrOf(PeekOf(d, s).value.value.kind).Some?
    requires PeekOf(d, PastPeek(d, s)).Success? && PeekOf(d, PastPeek(d, s)).value.value.kind == Semicolon
    ensures InstrStmt(d, s) == Success(Got(
      Some(Ast.MakeInstrStatement(InstrOf(PeekOf(d, s).value.value.kind).value, [])),
      PastPeek(d, PastPeek(d, s))))
  {
    NodeKinds();
    ArgumentsAtDelimiter(d, PastPeek(d, s), Semicolon, true, []);
  }

  /** A comma, a leaf and the delimiter `;`: the last operand is appended and the list ends. */
  lemma ArgumentsLastLeaf(d: Dialect, t2: State, acc: seq<Option<Ast.Node>>)
    requires AllExprs(acc)
    requires PeekOf(d, t2).Success? && PeekOf(d, t2).value.value.kind == Comma &&
      var t3 := PastPeek(d, t2);
      PeekOf(d, t3).Success? && PeekOf(d, t3).value.value.kind in {Identifier, NumericLiteral} &&
      var t4 := PastPeek(d, t3);
      PeekOf(d, t4).Success? && PeekOf(d, t4).value.value.kind == Semicolon
    ensures var t3 := PastPeek(d, t2);
      Arguments(d, PeekOf(d, t2).value.st, Semicolon, false, acc) ==
        Success(Got(acc + [Leaf(PeekOf(d, t3).value.value)], PastPeek(d, PastPeek(d, t3))))
  {
    var t3 := PastPeek(d, t2);
    var t4 := PastPeek(d, t3);
    var s2 := PeekOf(d, t2).value.st;
    assert PeekOf(d, s2) == PeekOf(d, t2);
    assert ExpectOf(d, PeekOf(d, s2).value.st, Comma) == Success(Got(PeekOf(d, t2).value.value, t3));
    ArgumentsLeaf(d, s2, Semicolon, false, acc, t3);
    var s4 := PeekOf(d, t4).value.st;
    assert PeekOf(d, s4) == PeekOf(d, t4);
    ArgumentsAtDelimiter(d, s4, Semicolon, false, acc + [Leaf(PeekOf(d, t3).value.value)]);
  }

  /** The tokens `a , b ;` after an instruction keyword, with `a` and `b` identifiers or numbers. */
  predicate TwoOperands(d: Dialect, t1: State) {
    PeekOf(d, t1).Success? && PeekOf(d, t1).value.value.kind in {Identifier, NumericLiteral} &&
    var t2 := PastPeek(d, t1);
    PeekOf(d, t2).Success? && PeekOf(d, t2).value.value.kind == Comma &&
    var t3 := PastPeek(d, t2);
    PeekOf(d, t3).Success? && PeekOf(d, t3).value.value.kind in {Identifier, NumericLiteral} &&
    var t4 := PastPeek(d, t3);
    PeekOf(d, t4).Success? && PeekOf(d, t4).value.value.kind == Semicolon
  }

  /** The argument list `a , b ;` is `[a, b]`, and the `;` is eaten. */
  lemma ArgumentsTwoLeaves(d: Dialect, t1: State)
    requires TwoOperands(d, t1)
    ensures var t3 := PastPeek(d, PastPeek(d, t1));
      Arguments(d, t1, Semicolon, true, []) == Success(Got(
        [Leaf(PeekOf(d, t1).value.value), Leaf(PeekOf(d, t3).value.value)], PastPeek(d, PastPeek(d, t3))))
  {
    var t2 := PastPeek(d, t1);
    var c1 := PeekOf(d, t1).value.st;
    var a := Leaf(PeekOf(d, t1).value.value);
    assert PeekOf(d, c1) == PeekOf(d, t1) && PastPeek(d, c1) == t2;
    assert ArgumentStart(d, t1, true, c1);
    ArgumentsLeaf(d, t1, Semicolon, true, [], c1);
    assert [] + [a] == [a];
    assert Arguments(d, t1, Semicolon, true, []) == Arguments(d, PeekOf(d, t2).value.st, Semicolon, false, [a]);
    ArgumentsLastLeaf(d, t2, [a]);
    var t3 := PastPeek(d, t2);
    assert [a] + [Leaf(PeekOf(d, t3).value.value)] == [a, Leaf(PeekOf(d, t3).value.value)];
  }

  /** `print a, b;` (identifiers or numbers): an instruction whose operands are `a` and `b`, in order. */
  lemma InstrWithTwoOperands(d: Dialect, s: State)
    requires PeekOf(d, s).Success? && InstrOf(PeekOf(d, s).value.value.kind).Some?
    requires TwoOperands(d, PastPeek(d, s))
    ensures var t1 := PastPeek(d, s);
      var t3 := PastPeek(d, PastPeek(d, t1));
      var r := InstrStmt(d, s);
      r.Success? && r.value.value.Some? && r.value.st == PastPeek(d, PastPeek(d, t3)) &&
      var n := r.value.value.value;
      n.id == Ast.InstrStatement && n.payload == Ast.Instr(InstrOf(PeekOf(d, s).value.value.kind).value) &&
      Ast.Layout(n) && Ast.Operands(n) == [Leaf(PeekOf(d, t1).value.value), Leaf(PeekOf(d, t3).value.value)]
  {
    NodeKinds();
    var t1 := PastPeek(d, s);
    ArgumentsTwoLeaves(d, t1);
    var args := Arguments(d, t1, Semicolon, true, []).value;
    assert InstrStmt(d, s) ==
      Success(Got(Some(Ast.MakeInstrStatement(InstrOf(PeekOf(d, s).value.value.kind).value, args.value)), args.st));
  }

  /** `Parser`: the lexer and the pending token. */
  class Parser {
    const lexer: Lexer
    var current: Option<Token>

    /** The parser state the specification functions take. */
    ghost function St(): State
      reads this, lexer
    {
      State(current, lexer.text)
    }

    /** `Parser(std::string_view text)` */
    constructor(d: Dialect, text: string)
      ensures fresh(lexer) && lexer.dialect == d && St() == State(None, text)
    {
      lexer := new Lexer(d, text);
      current := None;
    }

    /** `peek()` */
    method Peek() returns (r: Result<Token, ParseError>)
      modifies this, lexer
      ensures Agrees(r, St(), PeekOf(lexer.dialect, old(St())))
    {
      if current.None? {
        var t := lexer.Next();
        if t.Failure? {
          return Failure(ScanFailed);
        }
        current := Some(t.value);
      }
      return Success(current.value);
    }

    /** `eat()` */
    method Eat() returns (r: Result<Token, ParseError>)
      modifies this, lexer
      ensures Agrees(r, St(), EatOf(lexer.dialect, old(St())))
    {
      if current.Some? {
        var t := current.value;
        current := None;
        return Success(t);
      }
      var t := lexer.Next();
      if t.Failure? {
        return Failure(ScanFailed);
      }
      return Success(t.value);
    }

    /** `expect(eat(), kind)` */
    method ExpectToken(kind: TokenKind) returns (r: Result<Token, ParseError>)
      modifies this, lexer
      ensures Agrees(r, St(), ExpectOf(lexer.dialect, old(St()), kind))
    {
      r := Eat();
      if r.Success? && r.value.kind != kind {
        r := Failure(InvalidToken);
      }
    }

    /** `parseIdentifier()` */
    method ParseIdentifier() returns (r: Result<Option<Ast.Node>, ParseError>)
      modifies this, lexer
      ensures Agrees(r, St(), IdentifierOpt(lexer.dialect, old(St())))
    {
      var tok := Peek();
      if tok.Failure? {
        return Failure(tok.error);
      }
      if tok.value.kind == Identifier {
        var eaten := Eat();
        return Success(Some(Ast.MakeIdentifier(tok.value.id)));
      }
      return Success(None);
    }

    /** `parseLiteral()` */
    method ParseLiteral() returns (r: Result<Option<Ast.Node>, ParseError>)
      modifies this, lexer
      ensures Agrees(r, St(), LiteralOpt(lexer.dialect, old(St())))
    {
      var tok := Peek();
      if tok.Failure? {
        return Failure(tok.error);
      }
      if tok.value.kind == NumericLiteral {
        var eaten := Eat();
        return Success(Some(Ast.MakeLiteral(tok.value.id)));
      }
      return Success(None);
    }

    /** `parseExpr()` */
    method ParseExpr() returns (r: Result<Option<Ast.Node>, ParseError>)
      modifies this, lexer
      ensures Agrees(r, St(), Expression(lexer.dialect, old(St())))
      decreases Measure(St()), 5
    {
      r := ParseBinaryExpr();
    }

    /** `parseBinaryExpr()`; its `while (true)` runs its body once. */
    method ParseBinaryExpr() returns (r: Result<Option<Ast.Node>, ParseError>)
      modifies this, lexer
      ensures Agrees(r, St(), BinaryExpression(lexer.dialect, old(St())))
      decreases Measure(St()), 4
    {
      NodeKinds();
      var lhs := ParseUnaryExpr();
      if lhs.Failure? {
        return Failure(lhs.error);
      }
      var tok := Peek();
      if tok.Failure? {
        return Failure(tok.error);
      }
      var op := BinOp(tok.value.kind);
      if op.Some? {
        var eaten := Eat();
        var rhs := ParseExpr();
        if rhs.Failure? {
          return Failure(rhs.error);
        }
        if rhs.value.None? {
          return Failure(Expected("expression"));
        }
        return Success(Some(Ast.MakeBinaryExpr(op.value, lhs.value, rhs.value)));
      }
      return lhs;
    }

    /** `parseUnaryExpr()` */
    method ParseUnaryExpr() returns (r: Result<Option<Ast.Node>, ParseError>)
      modifies this, lexer
      ensures Agrees(r, St(), UnaryExpression(lexer.dialect, old(St())))
      decreases Measure(St()), 3
    {
      NodeKinds();
      var tok := Peek();
      if tok.Failure? {
        return Failure(tok.error);
      }
      var op := UnOp(tok.value.kind);
      if op.Some? {
        var eaten := Eat();
        var operand := ParseExpr();
        if operand.Failure? {
          return Failure(operand.error);
        }
        if operand.value.None? {
          return Failure(Expected("expression"));
        }
        return Success(Some(Ast.MakeUnaryExpr(op.value, operand.value)));
      }
      r := ParseCallExpr();
    }

    /** `parseCallExpr()` */
    method ParseCallExpr() returns (r: Result<Option<Ast.Node>, ParseError>)
      modifies this, lexer
      ensures Agrees(r, St(), CallExpression(lexer.dialect, old(St())))
      decreases Measure(St()), 2
    {
      NodeKinds();
      var prim := ParsePrimary();
      if prim.Failure? {
        return Failure(prim.error);
      }
      var tok := Peek();
      if tok.Failure? {
        return Failure(tok.error);
      }
      if tok.value.kind != OpenParen {
        return prim;
      }
      var eaten := Eat();
      var arguments := ParseArgumentList(CloseParen);
      if arguments.Failure? {
        return Failure(arguments.error);
      }
      return Success(Some(Ast.MakeCallExpr(prim.value, arguments.value)));
    }

    /** `parsePrimary()` */
    method ParsePrimary() returns (r: Result<Option<Ast.Node>, ParseError>)
      modifies this, lexer
      ensures Agrees(r, St(), Primary(lexer.dialect, old(St())))
      decreases Measure(St()), 1
    {
      var tok := Peek();
      if tok.Failure? {
        return Failure(tok.error);
      }
      if tok.value.kind == OpenParen {
        var eaten := Eat();
        var expr := ParseExpr();
        if expr.Failure? {
          return Failure(expr.error);
        }
        var close := ExpectToken(CloseParen);
        if close.Failure? {
          return Failure(close.error);
        }
        return expr;
      }
      var id := ParseIdentifier();
      if id.value.Some? {
        return id;
      }
      var lit := ParseLiteral();
      if lit.value.Some? {
        return lit;
      }
      return Success(None);
    }

    /** `parseArgumentList(delim)` */
    method ParseArgumentList(delim: TokenKind) returns (r: Result<seq<Option<Ast.Node>>, ParseError>)
      modifies this, lexer
      ensures Agrees(r, St(), Arguments(lexer.dialect, old(St()), delim, true, []))
      decreases Measure(St()), 6
    {
      var arguments: seq<Option<Ast.Node>> := [];
      var first := true;
      while true
        invariant AllExprs(arguments) && Measure(St()) <= Measure(old(St()))
        invariant Arguments(lexer.dialect, St(), delim, first, arguments) ==
          Arguments(lexer.dialect, old(St()), delim, true, [])
        decreases Measure(St())
      {
        ghost var s0 := St();
        var tok := Peek();
        if tok.Failure? {
          return Failure(tok.error);
        }
        if tok.value.kind == delim {
          ArgumentsAtDelimiter(lexer.dialect, s0, delim, first, arguments);
          var eaten := Eat();
          return Success(arguments);
        }
        if !first {
          var comma := ExpectToken(Comma);
          if comma.Failure? {
            ArgumentsCommaMissing(lexer.dialect, s0, delim, arguments);
            return Failure(comma.error);
          }
        }
        ghost var c, wasFirst := St(), first;
        first := false;
        var arg := ParseExpr();
        if arg.Failure? {
          ArgumentsExpressionMissing(lexer.dialect, s0, delim, wasFirst, arguments, c);
          return Failure(arg.error);
        }
        if arg.value.None? {
          ArgumentsExpressionMissing(lexer.dialect, s0, delim, wasFirst, arguments, c);
          return Failure(Expected("expression"));
        }
        ArgumentsContinue(lexer.dialect, s0, delim, wasFirst, arguments, c, Got(arg.value, St()));
        arguments := arguments + [arg.value];
      }
    }

    /** `parseVarDecl()` */
    method ParseVarDecl() returns (r: Result<Option<Ast.Node>, ParseError>)
      requires PeekOf(lexer.dialect, St()).Success? && PeekOf(lexer.dialect, St()).value.value.kind == Let
      modifies this, lexer
      ensures Agrees(r, St(), VarDeclStmt(lexer.dialect, old(St())))
    {
      NodeKinds();
      var tok := Peek();
      var eaten := Eat();
      var name := ParseIdentifier();
      if name.Failure? {
        return Failure(name.error);
      }
      if name.value.None? {
        return Failure(Expected("identifier"));
      }
      var assign := ExpectToken(Assign);
      if assign.Failure? {
        return Failure(assign.error);
      }
      var initExpr := ParseExpr();
      if initExpr.Failure? {
        return Failure(initExpr.error);
      }
      if initExpr.value.None? {
        return Failure(Expected("expression"));
      }
      var semi := ExpectToken(Semicolon);
      if semi.Failure? {
        return Failure(semi.error);
      }
      return Success(Some(Ast.MakeVarDecl(name.value, initExpr.value)));
    }

    /** `parseInstrStmt()` */
    method ParseInstrStmt() returns (r: Result<Option<Ast.Node>, ParseError>)
      modifies this, lexer
      ensures Agrees(r, St(), InstrStmt(lexer.dialect, old(St())))
    {
      NodeKinds();
      var tok := Peek();
      if tok.Failure? {
        return Failure(tok.error);
      }
      var instr := InstrOf(tok.value.kind);
      if instr.Some? {
        var eaten := Eat();
        var args := ParseArgumentList(Semicolon);
        if args.Failure? {
          return Failure(args.error);
        }
        return Success(Some(Ast.MakeInstrStatement(instr.value, args.value)));
      }
      return Success(None);
    }

    /** `parseExprStmt()` */
    method ParseExprStmt() returns (r: Result<Option<Ast.Node>, ParseError>)
      modifies this, lexer
      ensures Agrees(r, St(), ExprStmt(lexer.dialect, old(St())))
    {
      NodeKinds();
      var expr := ParseExpr();
      if expr.Failure? {
        return Failure(expr.error);
      }
      if expr.value.None? {
        return Success(None);
      }
      var semi := ExpectToken(Semicolon);
      if semi.Failure? {
        return Failure(semi.error);
      }
      return Success(Some(Ast.MakeExprStatement(expr.value)));
    }

    /** `parseStmt()` */
    method ParseStmt() returns (r: Result<Option<Ast.Node>, ParseError>)
      modifies this, lexer
      ensures Agrees(r, St(), Stmt(lexer.dialect, old(St())))
    {
      NodeKinds();
      var tok := Peek();
      if tok.Failure? {
        return Failure(tok.error);
      }
      if tok.value.kind == Let {
        r := ParseVarDecl();
        return;
      }
      var exprStmt := ParseExprStmt();
      if exprStmt.Failure? {
        return Failure(exprStmt.error);
      }
      if exprStmt.value.Some? {
        return exprStmt;
      }
      var instrStmt := ParseInstrStmt();
      if instrStmt.Failure? {
        return Failure(instrStmt.error);
      }
      if instrStmt.value.Some? {
        return instrStmt;
      }
      var next := Peek();
      if next.Failure? {
        return Failure(next.error);
      }
      if next.value.kind == Semicolon {
        var eaten := Eat();
        return Success(Some(Ast.MakeEmptyStatement()));
      }
      return Success(None);
    }

    /** `parse()`: statements until `parseStmt()` returns null. */
    method Parse() returns (r: Result<Ast.Node, ParseError>)
      modifies this, lexer
      ensures r == match StatementList(lexer.dialect, old(St()), [])
        case Success(g) => Success(g.value)
        case Failure(e) => Failure(e)
    {
      NodeKinds();
      var statements: seq<Option<Ast.Node>> := [];
      while true
        invariant AllStmts(statements)
        invariant StatementList(lexer.dialect, St(), statements) == StatementList(lexer.dialect, old(St()), [])
        decreases Measure(St())
      {
        var stmt := ParseStmt();
        if stmt.Failure? {
          return Failure(stmt.error);
        }
        if stmt.value.None? {
          return Success(Ast.MakeProgram(statements));
        }
        statements := statements + [stmt.value];
      }
    }
  }

  /** `examples::parse(source)`: a fresh parser over the source, run once. */
  method Parse(d: Dialect, source: string) returns (r: Result<Ast.Node, ParseError>)
    ensures r == ParseSource(d, source)
  {
    var parser := new Parser(d, source);
    r := parser.Parse();
  }
}
