/**
 * How the interpreter's parser treats operators, signs and what follows a
 * statement, stated over any text whose next tokens are given; then worked
 * parses of small literal inputs, which read the tokens of their text one
 * at a time and apply those steps.
 */
module ParserExamples {
  import opened Wrappers
  import opened Lexing
  import opened Parsing
  import Ast

  function Ident(x: string): Option<Ast.Node> {
    Some(Ast.MakeIdentifier(x))
  }

  /** The state once `;` is pending and `rest` is left. */
  function SemicolonPending(rest: string): State {
    State(Some(Token(";", Semicolon)), rest)
  }

  // ---- steps over any text ----

  /** With nothing pending, `peek()` reads the token the lexer scans. */
  lemma PeekFresh(d: Dialect, t: string, x: Token, t': string)
    requires Scan(d, t) == Scanned(Success(x), t')
    ensures PeekOf(d, State(None, t)) == Success(Got(x, State(Some(x), t')))
  {
  }

  /** An operand followed by `;`: the expression is the operand, and `;` stays pending. */
  lemma LastOperandStep(d: Dialect, t0: string, t1: string, t2: string, x: Token)
    requires x.kind in {Identifier, NumericLiteral}
    requires Scan(d, t0) == Scanned(Success(x), t1)
    requires Scan(d, t1) == Scanned(Success(Token(";", Semicolon)), t2)
    ensures Expression(d, State(None, t0)) == Success(Got(Leaf(x), SemicolonPending(t2)))
  {
    PeekFresh(d, t0, x, t1);
    PeekFresh(d, t1, Token(";", Semicolon), t2);
    LeafThen(d, State(None, t0));
  }

  /** An operand followed by a binary operator: the operator takes the operand and the whole expression after it. */
  lemma OperandStep(d: Dialect, t0: string, t1: string, t2: string, x: Token, o: Token,
                    rhs: Option<Ast.Node>, after: State)
    requires x.kind in {Identifier, NumericLiteral} && BinOp(o.kind).Some?
    requires Scan(d, t0) == Scanned(Success(x), t1)
    requires Scan(d, t1) == Scanned(Success(o), t2)
    requires Expression(d, State(None, t2)) == Success(Got(rhs, after)) && rhs.Some?
    ensures KindsHold() && IsExpr(Leaf(x)) && IsExpr(rhs) && Expression(d, State(None, t0)) ==
      Success(Got(Some(Ast.MakeBinaryExpr(BinOp(o.kind).value, Leaf(x), rhs)), after))
  {
    NodeKinds();
    PeekFresh(d, t0, x, t1);
    PeekFresh(d, t1, o, t2);
    LeafThen(d, State(None, t0));
  }

  /** A `-` before an expression that ends at `;`: the negation of that whole expression. */
  lemma SignStep(d: Dialect, t0: string, t1: string, operand: Option<Ast.Node>, rest: string)
    requires Scan(d, t0) == Scanned(Success(Token("-", Sub)), t1)
    requires Expression(d, State(None, t1)) == Success(Got(operand, SemicolonPending(rest))) && operand.Some?
    ensures KindsHold() && IsExpr(operand) && Expression(d, State(None, t0)) ==
      Success(Got(Some(Ast.MakeUnaryExpr(Ast.Negate, operand)), SemicolonPending(rest)))
  {
    NodeKinds();
    PeekFresh(d, t0, Token("-", Sub), t1);
    var s := State(None, t0);
    var p := PeekOf(d, s).value;
    assert PeekOf(d, p.st) == Success(p);
    assert UnaryExpression(d, s) == Success(Got(Some(Ast.MakeUnaryExpr(Ast.Negate, operand)), SemicolonPending(rest)));
    assert PeekOf(d, SemicolonPending(rest)) == Success(Got(Token(";", Semicolon), SemicolonPending(rest)));
  }

  /**
   * Two operands, each followed by an operator, before an expression `z`:
   * `x o1 y o2 z` is `x o1 (y o2 z)`, so binary operators of every kind
   * associate to the right and none binds tighter than another.
   */
  lemma RightAssociative(d: Dialect, t0: string, t1: string, t2: string, t3: string, t4: string,
                         x: Token, o1: Token, y: Token, o2: Token, z: Option<Ast.Node>, after: State)
    requires x.kind in {Identifier, NumericLiteral} && BinOp(o1.kind).Some?
    requires y.kind in {Identifier, NumericLiteral} && BinOp(o2.kind).Some?
    requires Scan(d, t0) == Scanned(Success(x), t1)
    requires Scan(d, t1) == Scanned(Success(o1), t2)
    requires Scan(d, t2) == Scanned(Success(y), t3)
    requires Scan(d, t3) == Scanned(Success(o2), t4)
    requires Expression(d, State(None, t4)) == Success(Got(z, after)) && z.Some?
    ensures KindsHold() && IsExpr(Leaf(x)) && IsExpr(Leaf(y)) && IsExpr(z) && Expression(d, State(None, t0)) ==
      Success(Got(Some(Ast.MakeBinaryExpr(BinOp(o1.kind).value, Leaf(x),
        Some(Ast.MakeBinaryExpr(BinOp(o2.kind).value, Leaf(y), z)))), after))
  {
    OperandStep(d, t2, t3, t4, y, o2, z, after);
    OperandStep(d, t0, t1, t2, x, o1, Some(Ast.MakeBinaryExpr(BinOp(o2.kind).value, Leaf(y), z)), after);
  }

  /** `- x o y`: the sign applies to the whole binary expression after it, not to `x`. */
  lemma SignOverBinary(d: Dialect, t0: string, t1: string, t2: string, t3: string,
                       x: Token, o: Token, y: Option<Ast.Node>, rest: string)
    requires x.kind in {Identifier, NumericLiteral} && BinOp(o.kind).Some?
    requires Scan(d, t0) == Scanned(Success(Token("-", Sub)), t1)
    requires Scan(d, t1) == Scanned(Success(x), t2)
    requires Scan(d, t2) == Scanned(Success(o), t3)
    requires Expression(d, State(None, t3)) == Success(Got(y, SemicolonPending(rest))) && y.Some?
    ensures KindsHold() && IsExpr(Leaf(x)) && IsExpr(y) && Expression(d, State(None, t0)) ==
      Success(Got(Some(Ast.MakeUnaryExpr(Ast.Negate, Some(Ast.MakeBinaryExpr(BinOp(o.kind).value, Leaf(x), y)))),
        SemicolonPending(rest)))
  {
    OperandStep(d, t1, t2, t3, x, o, y, SemicolonPending(rest));
    SignStep(d, t0, t1, Some(Ast.MakeBinaryExpr(BinOp(o.kind).value, Leaf(x), y)), rest);
  }

  /**
   * A binary operator that is no sign (`*` or `/`) where an operand should
   * start: the operator with a null left operand, as `parseBinaryExpr` never
   * checks it.
   */
  lemma LeadingOperatorStep(d: Dialect, t0: string, t1: string, o: Token, rhs: Option<Ast.Node>, after: State)
    requires BinOp(o.kind).Some? && UnOp(o.kind).None?
    requires Scan(d, t0) == Scanned(Success(o), t1)
    requires Expression(d, State(None, t1)) == Success(Got(rhs, after)) && rhs.Some?
    ensures KindsHold() && IsExpr(rhs) && Expression(d, State(None, t0)) ==
      Success(Got(Some(Ast.MakeBinaryExpr(BinOp(o.kind).value, None, rhs)), after))
  {
    NodeKinds();
    PeekFresh(d, t0, o, t1);
    var s := State(None, t0);
    var p := PeekOf(d, s).value;
    assert PeekOf(d, p.st) == Success(p);
    assert Primary(d, p.st) == Success(Got(None, p.st)) by {
      assert IdentifierOpt(d, p.st) == Success(Got(None, p.st));
      assert LiteralOpt(d, p.st) == Success(Got(None, p.st));
    }
    assert CallExpression(d, p.st) == Success(Got(None, p.st));
    assert UnaryExpression(d, s) == Success(Got(None, p.st));
    assert EatOf(d, p.st).value.st == State(None, t1);
    assert BinaryExpression(d, s) == Success(Got(Some(Ast.MakeBinaryExpr(BinOp(o.kind).value, None, rhs)), after));
  }

  /** An operand whose lookahead cannot be scanned: the expression fails with a scan error. */
  lemma LeafThenFails(d: Dialect, s: State)
    requires PeekOf(d, s).Success? && PeekOf(d, s).value.value.kind in {Identifier, NumericLiteral}
    requires PeekOf(d, State(None, PeekOf(d, s).value.st.text)).Failure?
    ensures Expression(d, s) == Failure(ScanFailed)
  {
    NodeKinds();
    var p := PeekOf(d, s).value;
    var e := State(None, p.st.text);
    assert PeekOf(d, p.st) == Success(p);
    assert Primary(d, p.st) == Success(Got(Leaf(p.value), e)) by {
      if p.value.kind == Identifier {
        assert IdentifierOpt(d, p.st) == Success(Got(Leaf(p.value), e));
      } else {
        assert IdentifierOpt(d, p.st) == Success(Got(None, p.st));
        assert LiteralOpt(d, p.st) == Success(Got(Leaf(p.value), e));
      }
    }
    assert CallExpression(d, p.st) == Failure(ScanFailed);
    assert UnaryExpression(d, s) == Failure(ScanFailed);
  }

  /** An operand and `;`: the expression statement of that operand. */
  lemma ExprStatementStep(d: Dialect, t0: string, t1: string, t2: string, x: Token)
    requires x.kind in {Identifier, NumericLiteral}
    requires Scan(d, t0) == Scanned(Success(x), t1)
    requires Scan(d, t1) == Scanned(Success(Token(";", Semicolon)), t2)
    ensures KindsHold() && IsExpr(Leaf(x)) &&
      Stmt(d, State(None, t0)) == Success(Got(Some(Ast.MakeExprStatement(Leaf(x))), State(None, t2)))
  {
    NodeKinds();
    PeekFresh(d, t0, x, t1);
    PeekFresh(d, t1, Token(";", Semicolon), t2);
    var s := State(None, t0);
    var p := PeekOf(d, s).value;
    assert PeekOf(d, p.st) == Success(p);
    LeafThen(d, p.st);
    assert ExprStmt(d, p.st) == Success(Got(Some(Ast.MakeExprStatement(Leaf(x))), State(None, t2)));
  }

  /** One statement and then a token that starts none: the program of that one statement. */
  lemma SingleStatementStep(d: Dialect, t0: string, t1: string, t2: string, stmt: Option<Ast.Node>, stop: Token)
    requires Stmt(d, State(None, t0)) == Success(Got(stmt, State(None, t1))) && stmt.Some?
    requires Scan(d, t1) == Scanned(Success(stop), t2) && stop.kind in {CloseParen, Comma, Assign, End}
    ensures AllStmts([stmt]) && ParseSource(d, t0) == Success(Ast.MakeProgram([stmt]))
  {
    NodeKinds();
    PeekFresh(d, t1, stop, t2);
    ProgramEndsWhereStatementsEnd(d, State(None, t1), [stmt]);
    assert [] + [stmt] == [stmt];
    assert StatementList(d, State(None, t0), []) == StatementList(d, State(None, t1), [stmt]);
  }

  /** The tokens of each literal text below, one at a time, told by the characters they start with. */
  lemma TokSemi(d: Dialect, t: string)
    requires |t| > 0 && t[0] == ';'
    ensures Scan(d, t) == Scanned(Success(Token(";", Semicolon)), t[1..])
  {
    ScanPunctuationChar(d, t);
  }

  lemma TokMul(d: Dialect, t: string)
    requires |t| > 0 && t[0] == '*'
    ensures Scan(d, t) == Scanned(Success(Token("*", Mul)), t[1..])
  {
    ScanPunctuationChar(d, t);
  }

  lemma TokClose(d: Dialect, t: string)
    requires |t| > 0 && t[0] == ')'
    ensures Scan(d, t) == Scanned(Success(Token(")", CloseParen)), t[1..])
  {
    ScanPunctuationChar(d, t);
  }

  lemma Tok3(d: Dialect, t: string)
    requires |t| > 1 && t[0] == '3' && t[1] == ';'
    ensures Scan(d, t) == Scanned(Success(Token("3", NumericLiteral)), t[1..])
  {
    ScanDigit(d, t);
  }

  lemma TokX(d: Dialect, t: string)
    requires |t| > 1 && t[0] == 'x' && t[1] == ';'
    ensures Scan(d, t) == Scanned(Success(Token("x", Identifier)), t[1..])
  {
    ScanLetter(d, t);
  }

  // ---- *3; ----

  /** An operator that is no sign, then a number and `;`: the operator with a null left operand. */
  lemma ProductFromTokens(d: Dialect, t0: string, t1: string, t2: string, t3: string, o: Token, x: Token)
    requires BinOp(o.kind).Some? && UnOp(o.kind).None? && x.kind in {Identifier, NumericLiteral}
    requires Scan(d, t0) == Scanned(Success(o), t1)
    requires Scan(d, t1) == Scanned(Success(x), t2)
    requires Scan(d, t2) == Scanned(Success(Token(";", Semicolon)), t3)
    ensures KindsHold() && Expression(d, State(None, t0)) == Success(Got(
      Some(Ast.MakeBinaryExpr(BinOp(o.kind).value, None, Leaf(x))), SemicolonPending(t3)))
  {
    LastOperandStep(d, t1, t2, t3, x);
    LeadingOperatorStep(d, t0, t1, o, Leaf(x), SemicolonPending(t3));
  }

  /** The tokens of `*3;`. */
  lemma MulThreeSemiTokens(d: Dialect, text: string)
    requires text == "*3;"
    ensures Scan(d, text) == Scanned(Success(Token("*", Mul)), text[1..])
    ensures Scan(d, text[1..]) == Scanned(Success(Token("3", NumericLiteral)), text[2..])
    ensures Scan(d, text[2..]) == Scanned(Success(Token(";", Semicolon)), [])
  {
    assert text[0] == '*' && text[1..][0] == '3' && text[1..][1] == ';' && text[2..][0] == ';';
    assert text[1..][1..] == text[2..] && text[2..][1..] == [];
    TokMul(d, text);
    Tok3(d, text[1..]);
    TokSemi(d, text[2..]);
  }

  /** `*3;` at the level of its tokens. */
  lemma MulThreeProduct(d: Dialect, t0: string, t1: string, t2: string, t3: string)
    requires Scan(d, t0) == Scanned(Success(Token("*", Mul)), t1)
    requires Scan(d, t1) == Scanned(Success(Token("3", NumericLiteral)), t2)
    requires Scan(d, t2) == Scanned(Success(Token(";", Semicolon)), t3)
    ensures KindsHold() && Expression(d, State(None, t0)) == Success(Got(
      Some(Ast.MakeBinaryExpr(Ast.Mul, None, Some(Ast.MakeLiteral("3")))), SemicolonPending(t3)))
  {
    assert BinOp(Mul) == Some(Ast.Mul) && Leaf(Token("3", NumericLiteral)) == Some(Ast.MakeLiteral("3"));
    ProductFromTokens(d, t0, t1, t2, t3, Token("*", Mul), Token("3", NumericLiteral));
  }

  /** `*3;` parses although the left operand is missing: `parseBinaryExpr` never checks it. */
  lemma MissingLeftOperand(d: Dialect, text: string)
    requires text == "*3;"
    ensures KindsHold() && Expression(d, State(None, text)) == Success(Got(
      Some(Ast.MakeBinaryExpr(Ast.Mul, None, Some(Ast.MakeLiteral("3")))), SemicolonPending("")))
  {
    MulThreeSemiTokens(d, text);
    MulThreeProduct(d, text, text[1..], text[2..], []);
  }

  // ---- x;) ----

  /** Tokens `x ; )`: the program of the one statement `x;`. */
  lemma TrailingParenFromTokens(d: Dialect, t0: string, t1: string, t2: string, t3: string)
    requires Scan(d, t0) == Scanned(Success(Token("x", Identifier)), t1)
    requires Scan(d, t1) == Scanned(Success(Token(";", Semicolon)), t2)
    requires Scan(d, t2) == Scanned(Success(Token(")", CloseParen)), t3)
    ensures KindsHold() &&
      ParseSource(d, t0) == Success(Ast.MakeProgram([Some(Ast.MakeExprStatement(Ident("x")))]))
  {
    ExprStatementStep(d, t0, t1, t2, Token("x", Identifier));
    SingleStatementStep(d, t0, t2, t3, Some(Ast.MakeExprStatement(Ident("x"))), Token(")", CloseParen));
  }

  /** `x;)` parses as the program `x;` and no error is raised for the stray `)`. */
  lemma TrailingInputIgnored(d: Dialect, text: string)
    requires text == "x;)"
    ensures KindsHold() &&
      ParseSource(d, text) == Success(Ast.MakeProgram([Some(Ast.MakeExprStatement(Ident("x")))]))
  {
    var t1 := text[1..];
    var t2 := t1[1..];
    assert text[0] == 'x' && text[1] == ';' && t1[0] == ';' && t2[0] == ')';
    TokX(d, text);
    TokSemi(d, t1);
    TokClose(d, t2);
    TrailingParenFromTokens(d, text, t1, t2, t2[1..]);
  }

  // ---- a_b ----

  /** An identifier or number, then a token the lexer cannot scan: the statement fails with a scan error. */
  lemma StandaloneUnderscoreStep(d: Dialect, t0: string, t1: string, x: Token)
    requires x.kind in {Identifier, NumericLiteral}
    requires Scan(d, t0) == Scanned(Success(x), t1)
    requires Scan(d, t1).token.Failure?
    ensures Stmt(d, State(None, t0)) == Failure(ScanFailed)
  {
    NodeKinds();
    PeekFresh(d, t0, x, t1);
    var s := State(None, t0);
    var p := PeekOf(d, s).value;
    assert PeekOf(d, p.st) == Success(p);
    LeafThenFails(d, p.st);
  }

  /** An expression followed by a token other than `;`: the expression statement fails on that token. */
  lemma MissingSemicolonStep(d: Dialect, s: State, e: Option<Ast.Node>, after: State)
    requires Expression(d, s) == Success(Got(e, after)) && e.Some?
    requires after.current.Some? && after.current.value.kind != Semicolon
    ensures ExprStmt(d, s) == Failure(InvalidToken)
  {
  }

  /** A pending identifier or number, then the end of the input: the expression is that leaf, and the end is pending. */
  lemma LeafBeforeEnd(d: Dialect, t: string, x: Token)
    requires x.kind in {Identifier, NumericLiteral}
    requires Scan(d, t) == Scanned(Success(Token("", End)), t)
    ensures Expression(d, State(Some(x), t)) == Success(Got(Leaf(x), State(Some(Token("", End)), t)))
  {
    PeekFresh(d, t, Token("", End), t);
    var s := State(Some(x), t);
    assert PeekOf(d, s) == Success(Got(x, s));
    LeafThen(d, s);
  }

  /** A pending identifier or number, then the end of the input: the expression statement wants `;` and fails. */
  lemma LeafAtEnd(d: Dialect, t: string, x: Token)
    requires x.kind in {Identifier, NumericLiteral}
    requires Scan(d, t) == Scanned(Success(Token("", End)), t)
    ensures ExprStmt(d, State(Some(x), t)) == Failure(InvalidToken)
  {
    LeafBeforeEnd(d, t, x);
    MissingSemicolonStep(d, State(Some(x), t), Leaf(x), State(Some(Token("", End)), t));
  }

  /** An identifier or number, then the end of the input: the statement fails as its expression statement does. */
  lemma InterpreterUnderscoreStep(d: Dialect, t0: string, t1: string, x: Token)
    requires x.kind in {Identifier, NumericLiteral}
    requires Scan(d, t0) == Scanned(Success(x), t1)
    requires Scan(d, t1) == Scanned(Success(Token("", End)), t1)
    ensures Stmt(d, State(None, t0)) == Failure(InvalidToken)
  {
    PeekFresh(d, t0, x, t1);
    LeafAtEnd(d, t1, x);
  }

  /** A first statement that fails makes the whole parse fail with its error. */
  lemma FirstStatementFails(d: Dialect, source: string)
    requires Stmt(d, State(None, source)).Failure?
    ensures ParseSource(d, source) == Failure(Stmt(d, State(None, source)).error)
  {
  }

  /** `a_b`: the standalone parser fails to scan `_`, the interpreter's wants `;` after the identifier `a_b`. */
  lemma UnderscoreSplitsTheDialects(text: string)
    requires text == "a_b"
    ensures ParseSource(Standalone, text) == Failure(ScanFailed)
    ensures ParseSource(Interpreter, text) == Failure(InvalidToken)
  {
    StandaloneStopsAtUnderscore();
    StandaloneFailsOnUnderscore();
    StandaloneUnderscoreStep(Standalone, text, "_b", Token("a", Identifier));
    FirstStatementFails(Standalone, text);
    InterpreterReadsUnderscore();
    ScanNothing(Interpreter);
    InterpreterUnderscoreStep(Interpreter, text, [], Token("a_b", Identifier));
    FirstStatementFails(Interpreter, text);
  }
}
