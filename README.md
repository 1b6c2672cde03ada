# csp: closed-hierarchy RTTI and multiple dispatch, and its example clients

This project models the `csp` header library in Dafny and proves properties of the model. `csp` gives a closed class hierarchy its own run-time type information:
- every class has an id in `0..N-1`, registered with its parent and whether it is abstract or concrete, and the id `N` (`IDTraits::last`) stands for "no parent";
- on top of that it provides `isa`, `dyncast` and `cast`;
- it dispatches a visitor on the runtime types of one or more arguments through a compacted function table;
- `dyn_union<Base>` stores one object of any concrete descendant of `Base`.

The model also covers the clients shipped with the library:
- the lexer and recursive-descent parser of the two example interpreters (`examples/interpreter/parser.cpp` and `examples/parser.cpp`, which differ only in whether identifiers may contain `_`);
- the AST hierarchy both of them build;
- the line editor of the interactive interpreter (`examples/interpreter/terminal.cpp`).

How the model is organised:
- The registry is abstract. A `Hierarchy.Registry` holds a parent id and a concrete flag for every id. Nothing in the library checks that parent chains end, so `WellFormed` (every chain reaches the sentinel within `N` steps) is a precondition, and the depth it bounds is the termination measure of the ancestry walk.
- The enum-range scan tests validity with a predicate given as a parameter.
- A visitor is a selection function from a tuple of concrete ids to a result. `Overload` states the "unique most-derived viable handler" rule that C++ overload resolution applies to the handler sets the tests use.
- The imperative parts are classes and loops over the same state as the source. This covers `flattenIndex`/`expandIndex`, the table-filling loop, the `dyn_union` lifecycle, `Lexer`, `Parser`, `InputHistory` and `Terminal`. Each method is proved against a function on values, and the properties that matter are proved about those functions.

Some behaviours of the source are kept exactly as written:
- The parser treats every binary operator at one precedence level and makes it right-associative.
- A unary sign applies to the whole expression after it.
- A leading binary operator, as in `*3;`, gives a `BinaryExpr` whose first child is null.
- Anything after the last statement that parses is ignored.
- The copy assignment of `dyn_union` ends its self-assignment branch with `return;` in a function that returns `dyn_union&` (include/csp.hpp:1225). The model gives it the evident meaning, returning the union unchanged.

## Model

| member | source | states |
|---|---|---|
| TypeList.Filter | include/csp.hpp:258-275 | every element of the result is an element of the input that satisfies the test, and every element that satisfies it is kept; FilterAppend and FilterSingleton fix the result exactly |
| TypeList.FilterAppend | include/csp.hpp:258-275 | filtering a concatenation is the concatenation of the filtered parts, so each occurrence is kept or dropped on its own and in place |
| TypeList.FilterSingleton | include/csp.hpp:258-275 | a one-element list is kept exactly when its element satisfies the test |
| TypeList.FilterKeepsAll | include/csp.hpp:258-275 | when every element satisfies the test the whole list is kept, repeats included |
| TypeList.FilterPreservesOrder | include/csp.hpp:258-275 | elements kept by the filter appear in the same relative order as in the input |
| TypeList.SeqMin | include/csp.hpp:176-186 | the smallest element: it belongs to the list and no element is smaller |
| TypeList.SeqMax | include/csp.hpp:188-198 | the result is an element of the list and no element is larger |
| EnumRange.Bound | include/csp.hpp:84-93 | the scan stops at the first valid value in its direction, or at the end value; no valid value is skipped |
| EnumRange.First | include/csp.hpp:95-99 | the first valid value scanning up from Min (-64 by default), or Max when there is none |
| EnumRange.Last | include/csp.hpp:101-105 | one past the last valid value scanning down from Max (128 by default), or Min + 1 when there is none |
| EnumRange.Count | include/csp.hpp:107-110 | last - first as a 64-bit size, wrapping modulo 2^64 when last < first |
| EnumRange.IdTraits | include/csp.hpp:323-332 | id traits exist exactly when the scanned first value is 0; then last is the scanned last, and when 0 is valid the count equals last |
| EnumRange.ContiguousScan | include/csp.hpp:84-110 | for valid values forming [lo, hi) within the range, first is lo, last is hi and count is hi - lo |
| EnumRange.EmptyScanWraps | include/csp.hpp:84-110 | with no valid value the count is not 0 but wraps to 2^64 - (Max - Min - 1) |
| EnumRange.TestEnumScan | test/csp.t.cpp:53-63 | TestEnum scans to first 0, last 3, count 3 |
| EnumRange.TestEnumNegativeScan | test/csp.t.cpp:78-91 | TestEnumNegative with Min -128 scans to first -3, last 0, count 3 |
| Hierarchy.Parent | include/csp.hpp:356-364 | the parent is the sentinel N exactly when the id has no parent, otherwise an id below N |
| Hierarchy.Depth | include/csp.hpp:455-470 | the number of parent steps to the sentinel is at most N, and is 0 exactly for the sentinel |
| Hierarchy.DepthOfParent | include/csp.hpp:455-470 | one parent step lowers the depth by exactly 1, so the ancestry walk terminates |
| Hierarchy.CtIsaIsOnParentChain | include/csp.hpp:455-470 | ctIsaImpl(test, actual) holds exactly when test is actual or one of its ancestors, in both directions |
| Hierarchy.CtIsaTransitive | include/csp.hpp:455-470 | isa is transitive |
| Hierarchy.CtIsaDepth | include/csp.hpp:455-470 | a type is never shallower than an ancestor of it |
| Hierarchy.CtIsaStrictDepth | include/csp.hpp:455-470 | a proper ancestor is strictly shallower, so isa is antisymmetric |
| Hierarchy.RootHasNoProperAncestor | include/csp.hpp:356-364 | the only ancestor of a root (an id declared with parent void) is the root itself |
| Hierarchy.IsaTable | include/csp.hpp:472-481 | the per-test table has one entry per id |
| Hierarchy.IsaId | include/csp.hpp:483-486 | the table entry for an id equals ctIsaImpl(test, id), and holds exactly when test is on the id's parent chain |
| Downcast.IsaPtr | include/csp.hpp:488-495 | isa on a null pointer is false; otherwise it tests the runtime id of the object |
| Downcast.IsaRef | include/csp.hpp:496-499 | isa on a reference tests the runtime id of the object |
| Downcast.IsaHandle | include/csp.hpp:517-521 | isa on a smart pointer tests the object it points to, or is false when it is null |
| Downcast.DyncastPtr | include/csp.hpp:532-538 | the result is the same object exactly when isa holds, and null otherwise |
| Downcast.DyncastRef | include/csp.hpp:540-547 | the same object exactly when isa holds, otherwise the bad_cast failure |
| Downcast.CastPtr | include/csp.hpp:580-585 | demands that the pointer is null or isa holds, and returns the pointer unchanged |
| Downcast.CastRef | include/csp.hpp:586-590 | demands isa and returns the same object |
| Downcast.DyncastHandleAsWritten | include/csp.hpp:566-577 | the source handle is always released; the result holds the pointer dyncast of the argument, so it owns the argument's object exactly when isa holds and is empty otherwise |
| Downcast.FailedHandleDyncastLeaks | include/csp.hpp:566-577 | after a failed smart-pointer dyncast as written, no handle owns the object any more |
| Downcast.DyncastHandle | include/csp.hpp:566-577 | corrected: the result points where the pointer dyncast points, and a failed cast leaves the object with exactly one owner |
| Downcast.FilterIsa | include/csp.hpp:1371-1381 | every pointer filter returns comes from the input and isa the target type, and every input pointer that isa it is returned; FilterIsaAppend and FilterIsaSingleton fix the result exactly |
| Downcast.FilterIsaAppend | include/csp.hpp:1371-1381 | filter over a concatenation is the concatenation of the filtered parts |
| Downcast.FilterIsaSingleton | include/csp.hpp:1371-1381 | one pointer is kept exactly when it is not null and isa the target type |
| Downcast.FilterIsaKeepsAll | include/csp.hpp:1371-1381 | when every pointer isa the target type, filter returns all of them, repeats included and in order |
| Downcast.FilterIsaKeepsOrder | include/csp.hpp:1371-1381 | filter keeps the relative order of the objects it keeps |
| MultiIndex.Product | include/csp.hpp:651-663 | the product of positive bounds is positive |
| MultiIndex.Expanded | include/csp.hpp:667-681 | the expansion has one digit per bound |
| MultiIndex.FlattenIndex | include/csp.hpp:651-663 | the loop computes the mixed-radix value of the index, and it is below the product of the bounds |
| MultiIndex.ExpandIndex | include/csp.hpp:667-681 | the loop computes the mixed-radix digits of the flat index |
| MultiIndex.FlatBelowProduct | include/csp.hpp:651-663 | an in-bounds index flattens to a value below the product of the bounds |
| MultiIndex.ExpandFlat | include/csp.hpp:651-681 | expanding the flattened in-bounds index gives the index back |
| MultiIndex.FlatExpanded | include/csp.hpp:651-681 | flattening the expansion of a value below the product gives the value back |
| MultiIndex.FlatInjective | include/csp.hpp:651-663 | distinct in-bounds indices flatten to distinct values |
| Dispatch.InvocableFrom | include/csp.hpp:684-702 | every id returned is concrete, is-a the static type and lies in [start, N), and the list is strictly increasing |
| Dispatch.InvocableFromComplete | include/csp.hpp:684-702 | every concrete id from the start on that is-a the static type is returned |
| Dispatch.Invocable | include/csp.hpp:704-712 | the invocable ids of a type, strictly increasing |
| Dispatch.InvocableIsConcreteDescendants | include/csp.hpp:684-712 | an id is invocable exactly when it is concrete and the static type is on its parent chain |
| Dispatch.Bounds | include/csp.hpp:372-375 | one bound per argument, each the number of ids of that argument's hierarchy |
| Dispatch.InvocableLists | include/csp.hpp:846-849 | one invocable list per argument, each the invocable ids of that argument's static type |
| Dispatch.SignatureCaseSpace | include/csp.hpp:800-849 | every invocable id is below its argument's bound, and every list is strictly increasing |
| Dispatch.DispatchableInSpace | include/csp.hpp:943-956 | a tuple of concrete descendants of the static types lies in the case space |
| Dispatch.Sizes | include/csp.hpp:800-801 | the list of per-argument case counts; their product is the number of cases |
| Dispatch.StructuredIndex | include/csp.hpp:714-739 | the tuple of a case number picks one invocable id per argument |
| Dispatch.FlatCaseIndices | include/csp.hpp:810-836 | there is one flat index per case |
| Dispatch.StructuredIndexInjective | include/csp.hpp:714-739 | distinct case numbers give distinct id tuples |
| Dispatch.CasesCover | include/csp.hpp:714-739 | every tuple in the case space is the tuple of some case |
| Dispatch.FlatCaseIndicesDistinct | include/csp.hpp:810-836 | distinct cases have distinct flat indices |
| Dispatch.SignatureIndicesDistinct | include/csp.hpp:810-849 | the flat case indices of a signature are pairwise distinct |
| Dispatch.Assigned | include/csp.hpp:903-911 | filing the cases leaves the table at its length |
| Dispatch.AssignedAt | include/csp.hpp:903-911 | with distinct flat indices each case sits in the slot flat - offset, and a slot no index maps to keeps its old entry |
| Dispatch.AssignDispatchArray | include/csp.hpp:903-911 | the loop leaves the array equal to the specification of the filled table |
| Dispatch.NullTable | include/csp.hpp:916 | the initial table has max - min + 1 null slots |
| Dispatch.CaseNumbers | include/csp.hpp:918 | the case numbers 0..count-1 in order |
| Dispatch.AssignedCases | include/csp.hpp:903-918 | for distinct flat indices, case k sits at slot indices[k] - min and no other slot is set |
| Dispatch.VisitorTable.constructor | include/csp.hpp:868-926 | the table has max - min + 1 slots with every case at flat - min, and is valid |
| Dispatch.VisitorTable.Impl | include/csp.hpp:929-940 | the entry reached is not null, and the case chosen has exactly the given flat index |
| Dispatch.CaseSlot | include/csp.hpp:929-940 | the slot of every case is in range and holds that case |
| Dispatch.UnusedSlotIsNull | include/csp.hpp:903-926 | a slot whose flat index belongs to no case stays null |
| Dispatch.MakeVisitorTable | include/csp.hpp:868-926 | builds a valid table over the flat case indices of the signature |
| Dispatch.Dispatch | include/csp.hpp:943-956 | for runtime ids in the case space, the case invoked is the one for exactly those ids |
| Dispatch.Visit | include/csp.hpp:943-1003 | visiting arguments whose runtime ids are concrete descendants of their static types invokes the handler for exactly those ids |
| Overload.BestFrom | include/csp.hpp:1348-1357 | a handler found from a position on is the best one, and when none is found no handler from there on is best |
| Overload.Resolve | include/csp.hpp:1348-1357 | there is a result exactly when some handler is best, and it is that handler's result |
| Overload.AtLeastAsDerivedAntisymmetric | include/csp.hpp:1348-1357 | two handlers each at least as derived as the other have identical parameter lists |
| Overload.BestIsUnique | include/csp.hpp:1348-1357 | at most one handler is best |
| Overload.ResolveIsBest | include/csp.hpp:1348-1357 | when a handler is best, resolution returns its result |
| DynUnion.AllIds | include/csp.hpp:1127-1135 | the ids 0..N-1 in order |
| DynUnion.Alternatives | include/csp.hpp:1137-1147 | every alternative is a concrete descendant of Base, and every concrete descendant is an alternative |
| DynUnion.FilterFromIsInvocableFrom | include/csp.hpp:1127-1147 | filtering the ids from a start for concrete descendants gives the invocable ids from that start |
| DynUnion.AlternativesAreInvocable | include/csp.hpp:1137-1147 | the alternatives are exactly the invocable ids of Base |
| DynUnion.AlternativesIncreasing | include/csp.hpp:1137-1147 | the alternatives are strictly increasing |
| DynUnion.UnionFind | include/csp.hpp:1084-1096 | the position of the first alternative that is-a the target type, or none when no alternative does |
| DynUnion.GetFindsMember | include/csp.hpp:1101-1125 | for a target the active id is-a, the first-match search succeeds at an alternative that is-a the target and is no later than the active id |
| DynUnion.SignatureHasCases | include/csp.hpp:1190-1208 | visiting a union of Base has at least one case |
| DynUnion.MakeUnionTable | include/csp.hpp:1190-1208 | builds a valid visitor table for the union's one-argument signature |
| DynUnion.DynUnion.constructor | include/csp.hpp:1210-1214 | a union built from an object of a concrete descendant of Base is live, holds that id and state, and records one construction |
| DynUnion.DynUnion.Copy | include/csp.hpp:1217-1221 | a copy has the same active id and state, and records a copy construction |
| DynUnion.DynUnion.Move | include/csp.hpp:1230-1235 | a move has the same active id and the moved state, and the source keeps its id with the leftover state |
| DynUnion.DynUnion.Visit | include/csp.hpp:1190-1208 | visiting the union invokes the case for its active id |
| DynUnion.DynUnion.Get | include/csp.hpp:1264-1279 | demands that the active id is-a the target, and gives the live object, which is-a both the target and Base |
| DynUnion.DynUnion.BaseObject | include/csp.hpp:1254-1259 | the base object carries the active id, which is a concrete descendant of Base |
| DynUnion.DynUnion.Destroy | include/csp.hpp:1249-1251 | the union is no longer live, a destroy event of its id is recorded, and id and state are kept |
| DynUnion.DynUnion.ReconstructCopy | include/csp.hpp:1226-1227 | the union takes the other union's id and state and records a copy construction |
| DynUnion.DynUnion.ReconstructMove | include/csp.hpp:1245-1246 | the union takes the other union's id and state, recording a move construction, and the source keeps the leftover state |
| DynUnion.DynUnion.CopyAssign | include/csp.hpp:1222-1229 | self-assignment changes nothing; otherwise the old object is destroyed, then the other is copied in, and the active id becomes the other's |
| DynUnion.DynUnion.AssignInPlace | include/csp.hpp:1241-1243 | move assignment between equal ids takes the state and keeps the id |
| DynUnion.DynUnion.MoveAssign | include/csp.hpp:1236-1248 | self-assignment changes nothing; equal ids assign in place; different ids destroy then move-construct; in every other case the active id becomes rhs's |
| Ast.AstWellFormed | examples/interpreter/ast.hpp:18-53 | the 13-id AST hierarchy as registered is well formed |
| Ast.AstIsa | examples/interpreter/ast.hpp:18-53 | a is-a b exactly when a is b, a is ASTNode, a is Expr and b one of the five expression classes, or a is Statement and b one of the four statement classes |
| Ast.ExprKinds | examples/interpreter/ast.hpp:18-31 | the concrete descendants of Expr are Identifier, Literal, BinaryExpr, UnaryExpr and CallExpr |
| Ast.StatementKinds | examples/interpreter/ast.hpp:18-31 | the concrete descendants of Statement are EmptyStatement, VarDecl, InstrStatement and ExprStatement |
| Ast.WellTypedIsConcrete | examples/parser.hpp:30-61 | a well-typed node has a concrete id, never ASTNode, Expr or Statement |
| Ast.ChildAt | examples/interpreter/ast.hpp:62-66 | demands i below the child count and a child the cast accepts, and gives child i, which is null or is-a the requested type |
| Ast.CastChildren | examples/interpreter/ast.hpp:70-74 | the children from a position on, in order, each accepted by the cast |
| Ast.MakeIdentifier | examples/interpreter/ast.hpp:93-102 | a well-typed Identifier node with no children |
| Ast.MakeLiteral | examples/interpreter/ast.hpp:104-112 | a well-typed Literal node with no children |
| Ast.MakeBinaryExpr | examples/interpreter/ast.hpp:114-131 | a BinaryExpr with two children whose lhs and rhs are the arguments, either of which may be null; well typed when they are, and free of Pow exactly when the operator is not Pow and the operands are free of it |
| Ast.MakeUnaryExpr | examples/interpreter/ast.hpp:133-146 | a UnaryExpr whose one child is the operand, well typed when the operand is |
| Ast.MakeCallExpr | examples/interpreter/ast.hpp:148-173 | a CallExpr with arguments + 1 children, whose callee and arguments are the ones given, in order |
| Ast.MakeEmptyStatement | examples/interpreter/ast.hpp:180-183 | a well-typed EmptyStatement with no children |
| Ast.MakeVarDecl | examples/interpreter/ast.hpp:185-194 | a VarDecl with two children whose name and init expression are the arguments |
| Ast.MakeInstrStatement | examples/interpreter/ast.hpp:196-215 | an InstrStatement whose operands are the given expressions in order, well typed when they are |
| Ast.InstrInitExpr | examples/interpreter/ast.hpp:211 | demands a second child, and gives operand 1 |
| Ast.MakeExprStatement | examples/interpreter/ast.hpp:217-223 | an ExprStatement whose one child is the expression |
| Ast.MakeProgram | examples/interpreter/ast.hpp:225-233 | a Program whose statements are the given ones in order, well typed when they are |
| Ast.ChildrenWellTyped | examples/parser.hpp:88-91 | every child of a well-typed node is well typed, and is an Expr (or the Identifier name of a VarDecl), or a Statement for a Program |
| Lexing.Span | examples/interpreter/parser.cpp:73-89 | where the run of characters of a class starting at index i ends: an index between i and the end of the text |
| Lexing.SpanStops | examples/interpreter/parser.cpp:73-89 | the span ends at the end of the text or before a character outside the class |
| Lexing.SpanWhole | examples/interpreter/parser.cpp:73-89 | a text all of whose characters are in the class is spanned whole |
| Lexing.SpanAll | examples/interpreter/parser.cpp:73-89 | every character of the span is in the class |
| Lexing.SkipSpace | examples/interpreter/parser.cpp:35-39 | the remainder is a suffix of the text and is empty or starts with a non-space |
| Lexing.SkipSpaceDropsSpace | examples/interpreter/parser.cpp:35-39 | everything white space skips is space |
| Lexing.ScanFrom | examples/interpreter/parser.cpp:67-117 | a token's lexeme followed by the rest is the scanned text, so the lexeme is the slice consumed; a failure leaves the text as it was |
| Lexing.ScanEnd | examples/interpreter/parser.cpp:67-71 | End with an empty lexeme is returned exactly when only white space is left, and then nothing is left |
| Lexing.EndRepeats | examples/interpreter/parser.cpp:67-71 | once End is returned, every later call returns End again |
| Lexing.ScanWord | examples/interpreter/parser.cpp:59-83 | a letter (or _ in the interpreter copy) starts the longest identifier run, and let, print and quit are keywords |
| Lexing.ScanNumber | examples/interpreter/parser.cpp:84-89 | a digit starts the longest digit run, a NumericLiteral |
| Lexing.ScanPunctuation | examples/interpreter/parser.cpp:90-116 | each of the nine punctuation characters is a one-character token of its kind, and any other character fails |
| Lexing.ScanProgress | examples/interpreter/parser.cpp:67-117 | every token but End consumes at least one character |
| Lexing.ScanLetter | examples/interpreter/parser.cpp:73-83 | a letter not followed by an identifier character is a one-letter Identifier token |
| Lexing.ScanDigit | examples/interpreter/parser.cpp:84-89 | a digit not followed by a digit is a one-digit NumericLiteral token |
| Lexing.ScanPunctuationChar | examples/interpreter/parser.cpp:90-116 | a punctuation character is a one-character token of its kind, whatever follows it |
| Lexing.ScanWholeWord | examples/interpreter/parser.cpp:73-83 | a text that is one identifier run and no keyword is read whole as an Identifier, leaving nothing |
| Lexing.ScanStray | examples/interpreter/parser.cpp:90-117 | a character that starts no word, number or punctuation fails without consuming anything |
| Lexing.WordKindKeyword | examples/interpreter/parser.cpp:78-83 | a word is an Identifier exactly when the keyword table lacks it, and otherwise has the table's kind |
| Lexing.ScanNothing | examples/interpreter/parser.cpp:67-71 | the empty text gives End with an empty lexeme |
| Lexing.InterpreterReadsUnderscore | examples/interpreter/parser.cpp:59-65 | in the interpreter copy a_b is read whole as one Identifier |
| Lexing.StandaloneStopsAtUnderscore | examples/parser.cpp:69-79 | in the standalone copy an identifier ends before _ |
| Lexing.StandaloneFailsOnUnderscore | examples/parser.cpp:80-112 | in the standalone copy a leading _ fails to scan |
| Lexing.StandaloneWordsAreInterpreterWords | examples/parser.cpp:69-79 | every standalone identifier is also an interpreter identifier |
| Lexing.Lexer.constructor | examples/interpreter/parser.cpp:57 | the lexer holds the whole text |
| Lexing.Lexer.Inc | examples/interpreter/parser.cpp:41-44 | demands a non-empty text and drops its first character |
| Lexing.Lexer.SkipWhitespace | examples/interpreter/parser.cpp:35-39 | the text becomes its white-space-free remainder |
| Lexing.Lexer.ReadWord | examples/interpreter/parser.cpp:73-83 | the loop leaves the token and rest the scanning specification gives for a word |
| Lexing.Lexer.ReadNumber | examples/interpreter/parser.cpp:84-89 | the loop leaves the NumericLiteral token and rest the scanning specification gives for a digit run |
| Lexing.Lexer.Next | examples/interpreter/parser.cpp:67-117 | the token and remaining text are those of the scanning specification, and a failure is the thrown error |
| Parsing.PeekOf | examples/interpreter/parser.cpp:318-323 | the token returned stays pending and no input is gained; reading fails only when nothing was pending |
| Parsing.EatOf | examples/interpreter/parser.cpp:325-330 | nothing is pending afterwards, and every token but End lowers the input measure; reading fails only when nothing was pending |
| Parsing.ExpectOf | examples/interpreter/parser.cpp:306-316 | the eaten token is returned exactly when it has the expected kind; a token of another kind gives Invalid token and a scan error is passed on |
| Parsing.PeekTwice | examples/interpreter/parser.cpp:318-323 | a second peek returns the same token and leaves the state unchanged |
| Parsing.EatAfterPeek | examples/interpreter/parser.cpp:318-330 | eat after peek returns the peeked token without reading more text |
| Parsing.PeekThenEatIsEat | examples/interpreter/parser.cpp:318-330 | peek then eat ends where a single eat would |
| Parsing.NodeKinds | examples/interpreter/ast.hpp:18-53 | the class relations the parser's casts to Expr, Statement and Identifier rely on hold in the registered hierarchy |
| Parsing.IdentifierOpt | examples/interpreter/parser.cpp:233-240 | on success the node is null or a well-typed, Pow-free expression, and a non-null node consumed input; a node is the Identifier of the peeked lexeme; with a token pending it cannot fail |
| Parsing.LiteralOpt | examples/interpreter/parser.cpp:242-249 | on success the node is null or a well-typed, Pow-free expression, and a non-null node consumed input; a node is the Literal of the peeked digits; with a token pending it cannot fail |
| Parsing.Expression | examples/interpreter/parser.cpp:145 | on success the node is null or a well-typed, Pow-free expression, and a non-null node consumed input |
| Parsing.BinaryExpression | examples/interpreter/parser.cpp:157-168 | on success the node is null or a well-typed, Pow-free expression, and a non-null node consumed input |
| Parsing.UnaryExpression | examples/interpreter/parser.cpp:178-186 | on success the node is null or a well-typed, Pow-free expression, and a non-null node consumed input |
| Parsing.CallExpression | examples/interpreter/parser.cpp:207-215 | on success the node is null or a well-typed, Pow-free expression, and a non-null node consumed input |
| Parsing.Primary | examples/interpreter/parser.cpp:217-231 | on success the node is null or a well-typed, Pow-free expression, and a non-null node consumed input |
| Parsing.Arguments | examples/interpreter/parser.cpp:188-205 | on success the list extends the arguments read so far with non-null expressions, and the closing token was consumed |
| Parsing.ArgumentsAtDelimiter | examples/interpreter/parser.cpp:193-196 | at the delimiter the list is the arguments read so far and the delimiter is eaten |
| Parsing.ArgumentsContinue | examples/interpreter/parser.cpp:197-203 | a non-null argument, after a comma unless it is the first, is appended and the list goes on after it |
| Parsing.ArgumentsCommaMissing | examples/interpreter/parser.cpp:197-199 | a missing comma between two arguments fails the list with the error of expect(Comma) |
| Parsing.ArgumentsExpressionMissing | examples/interpreter/parser.cpp:200-201 | an argument that fails, or is null, fails the list with that error or with Expected expression |
| Parsing.VarDeclStmt | examples/interpreter/parser.cpp:268-278 | called at let; on success the node is a well-typed, Pow-free VarDecl and input was consumed; the rule itself is stated by VarDeclParses and the four failure lemmas |
| Parsing.VarDeclParses | examples/interpreter/parser.cpp:268-278 | let, an identifier, =, an expression and ; give the VarDecl of that name and that initialiser, with the ; eaten |
| Parsing.VarDeclNameMissing | examples/interpreter/parser.cpp:271-272 | a token other than an identifier after let throws Expected identifier, and a scan error is passed on |
| Parsing.VarDeclAssignMissing | examples/interpreter/parser.cpp:273 | a token other than = after the name throws Invalid token, and a scan error is passed on |
| Parsing.VarDeclExpressionMissing | examples/interpreter/parser.cpp:274-275 | a missing initialiser throws Expected expression, and an error inside it is passed on |
| Parsing.VarDeclSemicolonMissing | examples/interpreter/parser.cpp:276 | a token other than ; after the initialiser throws Invalid token, and a scan error is passed on |
| Parsing.InstrStmt | examples/interpreter/parser.cpp:288-295 | on success the node is null or a well-typed, Pow-free statement, and a non-null node consumed input |
| Parsing.ArgumentsLeaf | examples/interpreter/parser.cpp:197-203 | an identifier or number argument followed by neither ( nor an operator is appended as its leaf, and the list goes on at the next token |
| Parsing.ArgumentsLastLeaf | examples/interpreter/parser.cpp:192-204 | a comma, a leaf and ; append that leaf and end the list, eating the ; |
| Parsing.ArgumentsTwoLeaves | examples/interpreter/parser.cpp:192-204 | the tokens a , b ; give the argument list [a, b] in order |
| Parsing.InstrWithoutOperands | examples/interpreter/parser.cpp:288-295 | print ; and quit ; give an instruction with no operands |
| Parsing.InstrWithTwoOperands | examples/interpreter/parser.cpp:288-295 | print a , b ; gives that instruction with operands [a, b] in order, and the ; is eaten |
| Parsing.ExprStmt | examples/interpreter/parser.cpp:297-304 | on success the node is null or a well-typed, Pow-free statement, and a non-null node consumed input |
| Parsing.Stmt | examples/interpreter/parser.cpp:251-266 | on success the node is null or a well-typed, Pow-free statement, and a non-null node consumed input |
| Parsing.StatementList | examples/interpreter/parser.cpp:132-142 | on success the result is a well-typed, Pow-free Program whose statements extend those read so far with non-null statements |
| Parsing.ParseSource | examples/interpreter/parser.cpp:338-340 | on success a well-typed, Pow-free Program of non-null statements |
| Parsing.ProgramOf | examples/interpreter/parser.cpp:132-142 | a Program of parsed statements is well typed, Pow-free and has exactly those statements |
| Parsing.NoExpressionHere | examples/interpreter/parser.cpp:145-231 | before a token that starts no expression and is no operator, the expression is null and only that token has been read |
| Parsing.NoCallHere | examples/interpreter/parser.cpp:207-249 | before a token that starts no expression, the postfix expression is null |
| Parsing.NoInstrHere | examples/interpreter/parser.cpp:288-295 | before a token that names no instruction, the instruction statement is null and only that token has been read |
| Parsing.NoStatementHere | examples/interpreter/parser.cpp:251-266 | before ), a comma, = or End the statement is null and only that token has been read |
| Parsing.SemicolonIsEmptyStatement | examples/interpreter/parser.cpp:251-266 | a lone ; is an EmptyStatement, and the ; is consumed |
| Parsing.ProgramEndsWhereStatementsEnd | examples/interpreter/parser.cpp:132-142 | before ), a comma, = or End, the statement loop stops with the statements read so far |
| Parsing.LeafThen | examples/interpreter/parser.cpp:157-231 | an identifier or number not followed by ( is that leaf alone, or, before a binary operator, the operator over the leaf and the whole expression after it |
| Parsing.LeafPrimary | examples/interpreter/parser.cpp:217-249 | the primary expression of an identifier or number token is its Identifier or Literal leaf, and the next token is not yet read |
| Parsing.LeafCall | examples/interpreter/parser.cpp:207-215 | an identifier or number not followed by ( is no call: the postfix expression is the leaf |
| Parsing.LeafThenOperator | examples/interpreter/parser.cpp:157-168 | a leaf followed by a binary operator is the operator over the leaf and the whole expression after it |
| Parsing.LeafThenNoOperator | examples/interpreter/parser.cpp:157-168 | a leaf followed by a token that is no binary operator is the leaf alone, with that token pending |
| Parsing.Parser.constructor | examples/interpreter/parser.cpp:128-130 | the parser has no pending token and a lexer over the whole text |
| Parsing.Parser.Peek | examples/interpreter/parser.cpp:318-323 | the result agrees with the peek specification, and on success so does the new state |
| Parsing.Parser.Eat | examples/interpreter/parser.cpp:325-330 | the result agrees with the eat specification, and on success so does the new state |
| Parsing.Parser.ExpectToken | examples/interpreter/parser.cpp:306-316 | the result agrees with the expect specification, and on success so does the new state |
| Parsing.Parser.ParseIdentifier | examples/interpreter/parser.cpp:233-240 | the result agrees with the identifier specification, and on success so does the new state |
| Parsing.Parser.ParseLiteral | examples/interpreter/parser.cpp:242-249 | the result agrees with the literal specification, and on success so does the new state |
| Parsing.Parser.ParseExpr | examples/interpreter/parser.cpp:145 | the result agrees with the expression specification, and on success so does the new state |
| Parsing.Parser.ParseBinaryExpr | examples/interpreter/parser.cpp:157-168 | the result agrees with the binary-expression specification, and on success so does the new state |
| Parsing.Parser.ParseUnaryExpr | examples/interpreter/parser.cpp:178-186 | the result agrees with the unary-expression specification, and on success so does the new state |
| Parsing.Parser.ParseCallExpr | examples/interpreter/parser.cpp:207-215 | the result agrees with the call specification, and on success so does the new state |
| Parsing.Parser.ParsePrimary | examples/interpreter/parser.cpp:217-231 | the result agrees with the primary specification, and on success so does the new state |
| Parsing.Parser.ParseArgumentList | examples/interpreter/parser.cpp:188-205 | the loop's result agrees with the argument-list specification, and on success so does the new state |
| Parsing.Parser.ParseVarDecl | examples/interpreter/parser.cpp:268-278 | the result agrees with the VarDecl specification, and on success so does the new state |
| Parsing.Parser.ParseInstrStmt | examples/interpreter/parser.cpp:288-295 | the result agrees with the instruction specification, and on success so does the new state |
| Parsing.Parser.ParseExprStmt | examples/interpreter/parser.cpp:297-304 | the result agrees with the expression-statement specification, and on success so does the new state |
| Parsing.Parser.ParseStmt | examples/interpreter/parser.cpp:251-266 | the result agrees with the statement specification, and on success so does the new state |
| Parsing.Parser.Parse | examples/interpreter/parser.cpp:132-142 | the loop's result is the Program of the statement-list specification, or its error |
| Parsing.Parse | examples/interpreter/parser.cpp:338-340 | a fresh parser over the text returns what ParseSource specifies |
| ParserExamples.LastOperandStep | examples/interpreter/parser.cpp:157-231 | an operand followed by ; is that leaf alone, with the ; left pending |
| ParserExamples.OperandStep | examples/interpreter/parser.cpp:157-168 | an operand followed by a binary operator is that operator over the leaf and the whole expression after it |
| ParserExamples.SignStep | examples/interpreter/parser.cpp:178-186 | a sign before an operand applies to the whole expression after it |
| ParserExamples.RightAssociative | examples/interpreter/parser.cpp:157-168 | a op b op' rest parses as a op (b op' rest) |
| ParserExamples.SignOverBinary | examples/interpreter/parser.cpp:157-186 | -a op b parses as -(a op b) |
| ParserExamples.LeadingOperatorStep | examples/interpreter/parser.cpp:157-164 | a binary operator with no left operand gives a BinaryExpr whose lhs is null |
| ParserExamples.LeafThenFails | examples/interpreter/parser.cpp:157-231 | an operand whose next token cannot be scanned makes the expression fail with the scan error |
| ParserExamples.ExprStatementStep | examples/interpreter/parser.cpp:251-304 | an expression followed by ; is an ExprStatement |
| ParserExamples.SingleStatementStep | examples/interpreter/parser.cpp:132-142 | a statement followed by ), a comma, = or End makes the whole text the program of that one statement |
| ParserExamples.ProductFromTokens | examples/interpreter/parser.cpp:157-168 | a binary operator, then an identifier or number, then ; parse to a BinaryExpr of that operator with a null lhs and the leaf, with the ; left pending |
| ParserExamples.MulThreeSemiTokens | examples/interpreter/parser.cpp:80-112 | the text *3; scans as the tokens *, 3 and ; and then nothing |
| ParserExamples.MulThreeProduct | examples/interpreter/parser.cpp:157-168 | the tokens *, 3, ; parse to BinaryExpr(Mul) of null and the Literal 3, with the ; left pending |
| ParserExamples.MissingLeftOperand | examples/interpreter/parser.cpp:157-164 | the text *3; parses as an expression to BinaryExpr(Mul) whose lhs is null and whose rhs is 3, with the ; left pending |
| ParserExamples.TrailingParenFromTokens | examples/interpreter/parser.cpp:132-142 | the tokens of x;) give the one statement x; |
| ParserExamples.TrailingInputIgnored | examples/interpreter/parser.cpp:132-142 | the text x;) parses to the one statement x; and the ) is ignored |
| ParserExamples.StandaloneUnderscoreStep | examples/interpreter/parser.cpp:157-231 | an identifier or number followed by text that cannot be scanned makes the statement fail with the scan error |
| ParserExamples.MissingSemicolonStep | examples/interpreter/parser.cpp:297-316 | an expression followed by a token other than ; makes the expression statement fail with Invalid token |
| ParserExamples.LeafBeforeEnd | examples/interpreter/parser.cpp:157-231 | a pending identifier or number followed by the end is that leaf alone, with End left pending |
| ParserExamples.LeafAtEnd | examples/interpreter/parser.cpp:297-316 | a pending identifier or number followed by the end makes the expression statement fail with Invalid token, for the missing ; |
| ParserExamples.InterpreterUnderscoreStep | examples/interpreter/parser.cpp:251-316 | an identifier or number followed by the end makes the statement fail with Invalid token, for the missing ; |
| ParserExamples.FirstStatementFails | examples/interpreter/parser.cpp:132-142 | a failing first statement makes the whole parse fail |
| ParserExamples.UnderscoreSplitsTheDialects | examples/parser.cpp:80-112 | a_b fails with the scan error in the standalone copy, and with Invalid token for the missing ; in the interpreter copy |
| Terminal.EmptyHistory | examples/interpreter/terminal.cpp:44-45 | a history holding one empty line, at index 0, which satisfies the history invariant |
| Terminal.SetCurrentOf | examples/interpreter/terminal.cpp:20-22 | only the last line is replaced; the index and the invariant are kept |
| Terminal.PushOf | examples/interpreter/terminal.cpp:24-28 | the last line is replaced, an empty line is appended, and the index points to the new last slot |
| Terminal.LastOf | examples/interpreter/terminal.cpp:30-35 | the index moves back unless it is 0, and the line there is returned |
| Terminal.PrevOf | examples/interpreter/terminal.cpp:37-42 | the index moves forward unless it is at the last slot, and the line there is returned |
| Terminal.LastThenPrev | examples/interpreter/terminal.cpp:30-42 | going back then forward from a non-zero index returns to that index |
| Terminal.PushThenLast | examples/interpreter/terminal.cpp:24-35 | after push(line), getLast returns line |
| Terminal.InputHistory.constructor | examples/interpreter/terminal.cpp:44-45 | lines is [""] and index is 0 |
| Terminal.InputHistory.SetCurrent | examples/interpreter/terminal.cpp:20-22 | the new state is that of the setCurrent specification |
| Terminal.InputHistory.Push | examples/interpreter/terminal.cpp:24-28 | the new state is that of the push specification |
| Terminal.InputHistory.GetLast | examples/interpreter/terminal.cpp:30-35 | the line and new state are those of the getLast specification |
| Terminal.InputHistory.GetPrev | examples/interpreter/terminal.cpp:37-42 | the line and new state are those of the getPrev specification |
| Terminal.InitialEditor | examples/interpreter/terminal.cpp:170-173 | an empty buffer, cursor 0 and no escape pending, which satisfies the editor invariant |
| Terminal.Step | examples/interpreter/terminal.cpp:106-162 | every byte keeps 0 <= position <= buffer length, the escape counter in 0..2 and the history invariant; a line is submitted exactly for Enter outside an escape sequence, and it is the old buffer, leaving an empty buffer at cursor 0; ESC sets the counter to 2 and every other byte counts it down |
| Terminal.Run | examples/interpreter/terminal.cpp:106-162 | a run of bytes, with complete returning false, keeps the editor invariant |
| Terminal.PrintableInserts | examples/interpreter/terminal.cpp:112-115 | a byte in 32..126 is inserted at the cursor, the cursor advances, and the buffer is mirrored to the history |
| Terminal.BackspaceDeletes | examples/interpreter/terminal.cpp:116-118 | Backspace with the cursor past 0 deletes the byte before it; the history is not updated |
| Terminal.BackspaceUndoesInsert | examples/interpreter/terminal.cpp:112-118 | inserting a byte then deleting it restores the buffer and cursor |
| Terminal.EnterSubmits | examples/interpreter/terminal.cpp:119-125 | Enter submits the old buffer, pushes it to the history and leaves an empty buffer at cursor 0 |
| Terminal.TabCompletes | examples/interpreter/terminal.cpp:126-129 | Tab with a successful completion mirrors the buffer to history and moves the cursor to its end, and otherwise changes nothing |
| Terminal.EscapeArms | examples/interpreter/terminal.cpp:107-110 | ESC sets the escape counter to 2 and changes nothing else |
| Terminal.SecondByteDropped | examples/interpreter/terminal.cpp:132-135 | the byte after ESC is discarded, whatever it is |
| Terminal.OtherByteIgnored | examples/interpreter/terminal.cpp:111-131 | with no escape pending, a byte that is not printable and none of ESC, Backspace, Enter or Tab leaves the editor unchanged and submits nothing |
| Terminal.UnknownFinalByteIgnored | examples/interpreter/terminal.cpp:136-161 | a final byte that is no arrow key only clears the counter |
| Terminal.LeftArrowSequence | examples/interpreter/terminal.cpp:141-145 | ESC x D moves the cursor left unless it is at 0 |
| Terminal.RightArrowSequence | examples/interpreter/terminal.cpp:146-150 | ESC x C moves the cursor right unless it is at the end |
| Terminal.UpArrowSequence | examples/interpreter/terminal.cpp:151-154 | ESC x A recalls the previous history line with the cursor at its end |
| Terminal.DownArrowSequence | examples/interpreter/terminal.cpp:155-158 | ESC x B recalls the next history line with the cursor at its end |
| Terminal.RunThree | examples/interpreter/terminal.cpp:106-162 | a run of three bytes is three steps in order |
| Terminal.UpRecallsSubmittedLine | examples/interpreter/terminal.cpp:119-125 | right after Enter, ESC x A brings the submitted line back with the cursor at its end |
| Terminal.HistoryKeepsDeletedByte | examples/interpreter/terminal.cpp:112-158 | after typing ab and Backspace the buffer is a, yet the up arrow then the down arrow bring back ab, because Backspace does not update the history |
| Terminal.TypeTwoDeleteOne | examples/interpreter/terminal.cpp:111-118 | typing a, b and Backspace leaves a, the cursor at 1, and ab as the current history line |
| Terminal.RunConcat | examples/interpreter/terminal.cpp:106-162 | running two inputs in a row is running their concatenation |
| Terminal.Terminal.constructor | examples/interpreter/terminal.cpp:170-173 | the editor starts in the initial state |
| Terminal.Terminal.HandleInput | examples/interpreter/terminal.cpp:106-162 | the fields change as the Step specification says, and the editor invariant is kept |
| Terminal.Terminal.HandlePlain | examples/interpreter/terminal.cpp:111-130 | outside an escape sequence the fields change as the Step specification says, and the editor invariant is kept |
| Terminal.Terminal.HandleArrow | examples/interpreter/terminal.cpp:135-161 | on the last byte of an arrow sequence the fields change as the Step specification says, and the editor invariant is kept |
| InternalsTest.FlatVectors | test/csp.t.cpp:117-174 | the flat values of every index vector the test lists, among them ({1,1},{2,3}) = 4, ({1,1,1},{3,2,3}) = 10 and ({0,1,2},{3,2,3}) = 5 |
| InternalsTest.ExpandVectors | test/csp.t.cpp:117-174 | the expansions of every flat value the test lists, among them 4 over {2,3} = {1,1} and 10 over {3,2,3} = {1,1,1} |
| InternalsTest.TestFlatten | test/csp.t.cpp:117-174 | the flattening loop computes all eleven flat values the test checks |
| InternalsTest.TestExpand | test/csp.t.cpp:117-174 | the expansion loop computes all eleven index vectors the test checks |
| AnimalsTest.AnimalsWellFormed | test/csp.t.cpp:180-195 | the animal hierarchy is well formed |
| AnimalsTest.AnimalsIsa | test/csp.t.cpp:180-195 | a is-a b exactly when a is b, a is Animal, or a is Cetacea and b is Whale or Dolphin |
| AnimalsTest.TestIsaAndDyncast | test/csp.t.cpp:217-246 | a Whale is-a Animal, Cetacea and Whale and not Leopard or Dolphin, by pointer, by reference and by id, and its pointer dyncasts to the first three give it back |
| AnimalsTest.AnimalSignatures | test/csp.t.cpp:263-300 | the invocable ids are Whale, Dolphin, Leopard for Animal, Whale, Dolphin for Cetacea, and Leopard for Leopard |
| AnimalsTest.UnionAlternatives | test/csp.t.cpp:777-800 | dyn_union of Animal holds Whale, Dolphin or Leopard, and dyn_union of Cetacea holds Whale or Dolphin |
| AnimalsTest.DolphinFound | test/csp.t.cpp:263-276 | both handler sets of the Dolphin tests pick the Dolphin handler for a Dolphin seen as Cetacea |
| AnimalsTest.TestVisitDolphin | test/csp.t.cpp:322-333 | visiting a Dolphin as a Cetacea runs the Dolphin handler |
| AnimalsTest.CetaceaLeopardResolves | test/csp.t.cpp:277-288 | for (Dolphin, Leopard) the (Cetacea, Leopard) handler is the best one |
| AnimalsTest.CetaceaLeopardBest | test/csp.t.cpp:277-288 | the (Cetacea, Leopard) handler takes (Dolphin, Leopard) and is more derived than the other two |
| AnimalsTest.TwoArgsCases | test/csp.t.cpp:277-300 | the two-argument visit has six cases, and (Dolphin, Leopard) is one of them |
| AnimalsTest.TestVisitTwoArguments | test/csp.t.cpp:335-347 | visiting a Dolphin and a Leopard returns 1 |
| AnimalsTest.TestVisitMostDerivedClass | test/csp.t.cpp:819-821 | visiting a Leopard as a Leopard reaches the Leopard case |
| AnimalsTest.UnionHandlersResolve | test/csp.t.cpp:777-800 | the Leopard handler is chosen for a Leopard seen as Animal, and the Whale handler for a Whale seen as Cetacea, each returning 1 |
| AnimalsTest.TestDynUnion | test/csp.t.cpp:777-789 | a union of Animal built from a Leopard visits the Leopard handler, and its copy and move keep id Leopard |
| AnimalsTest.TestPartialUnion | test/csp.t.cpp:791-800 | a union of Cetacea built from a Whale visits the Whale handler, and get of Cetacea reports id Whale |
| AnimalsTest.TestRanges | test/csp.t.cpp:802-817 | filtering a Dolphin, a Whale and a Leopard for Dolphin keeps only the Dolphin |
| AnimalsTest.WhaleToLeopardHandle | include/csp.hpp:566-577 | a smart-pointer dyncast of a Whale to Leopard leaves the Whale without an owner as written, and with its own handle when corrected |
| TypesTest.TypesWellFormed | test/csp.t.cpp:359-412 | the Type hierarchy is well formed |
| TypesTest.TypesIsa | test/csp.t.cpp:359-412 | a is-a b exactly when a is b, a is Base, a is LDerivedA and b is LDerivedB or LDerivedC, or a is LDerivedB and b is LDerivedC |
| TypesTest.TypesSignatures | test/csp.t.cpp:419-543 | the invocable ids of Base are LDerivedA, LDerivedB, LDerivedC, RDerived, and those of LDerivedA the first three |
| TypesTest.BaseSignature | test/csp.t.cpp:419-543 | the invocable ids of Base are LDerivedA, LDerivedB, LDerivedC and RDerived |
| TypesTest.LDerivedASignature | test/csp.t.cpp:419-543 | the invocable ids of LDerivedA are LDerivedA, LDerivedB and LDerivedC |
| TypesTest.TestVisit | test/csp.t.cpp:419-424 | visiting an LDerivedA through Base reports the runtime id LDerivedA |
| TypesTest.AbstractResolves | test/csp.t.cpp:426-439 | for an LDerivedA seen as Base, the LDerivedA handler, returning 1, is chosen |
| TypesTest.TestVisitAbstract | test/csp.t.cpp:426-439 | a generic visitor over Base holding an LDerivedA reaches only the LDerivedA case |
| TypesTest.SubtreeResolves | test/csp.t.cpp:494-507 | handlers {A -> 0, C -> 1} give A -> 0, B -> 0, C -> 1 |
| TypesTest.TestVisitSubtree | test/csp.t.cpp:494-507 | visiting A, B and C returns 0, 0 and 1 |
| TypesTest.Subtree2Resolves | test/csp.t.cpp:509-522 | handlers {A -> 0, B -> 1} give A -> 0, B -> 1, C -> 1 |
| TypesTest.TestVisitSubtree2 | test/csp.t.cpp:509-522 | visiting A, B and C returns 0, 1 and 1 |
| TypesTest.MdCases | test/csp.t.cpp:524-543 | the two-argument visit has 12 cases, and every pair of LDerivedA, LDerivedB, LDerivedC is one of them |
| TypesTest.MdHandlersOk | test/csp.t.cpp:524-543 | the four handlers fit the two-argument signature |
| TypesTest.MdViable | test/csp.t.cpp:524-543 | handler j is viable for (x, y) exactly when its first parameter is Base or x derives from LDerivedB, and its second is LDerivedA or y derives from LDerivedB |
| TypesTest.MdBetter | test/csp.t.cpp:524-543 | handler k is better than handler j exactly when they differ and j is the (Base, A) handler or k the (B, B) one |
| TypesTest.MdResolves | test/csp.t.cpp:524-543 | (a,a)=0, (a,b)=1, (a,c)=1, (b,a)=2, (b,b)=3, (b,c)=3 |
| TypesTest.TestMDVisit | test/csp.t.cpp:524-543 | the two-argument visit returns those six values |
| TypesTest.TestIsaAndDyncast2 | test/csp.t.cpp:545-643 | an LDerivedA is-a Base and LDerivedA only; dyncasts to LDerivedB give null or bad_cast, and so do those from an RDerived seen as Base |
| TypesTest.SmallFacts | test/csp.t.cpp:649-668 | SHType is well formed, SHDerived is-a SHBase but not conversely, and SHDerived is the one invocable id of SHBase |
| TypesTest.SmallCases | test/csp.t.cpp:670-678 | the visit over SHBase has a case, and SHDerived is dispatchable |
| TypesTest.SmallResolves | test/csp.t.cpp:670-678 | for SHDerived the SHDerived handler is the best one |
| TypesTest.TestSmallHierarchy | test/csp.t.cpp:670-678 | visiting an SHDerived returns 1 |

## Left out

- The compiler-specific `__PRETTY_FUNCTION__` scan that decides whether an enum value is named (include/csp.hpp:60-83) is left out. Validity is a predicate given as a parameter to the enum-range scan.
- Type-level C++ machinery does not translate to values. This covers concepts and constraints, `copy_cvref` and `remove_ref_ptr_cv`, `std::common_reference` return types, `RebindSmartPtr`, and the `overload`/`toFunction` combinator.
- C++ overload resolution itself is not modelled. `Overload` states the most-derived rule it yields for the handler sets of the tests.
- Handlers are a selection function from id tuples to results. The side effects handlers have in the tests are returned as results.
- Memory layout is not modelled. This covers placement `construct_at`/`destroy_at`, `UnionImpl` storage and the base-subobject address computation, `dyn_deleter`, `dyn_destructor`, `make_unique`, and `base_helper`. A union holds an active id and an abstract state, and logs its lifetime events.
- DynUnion.DynUnion.Move: a moved-from object's state is unspecified in C++, so the leftover state is a parameter. The same holds for `DynUnion.DynUnion.MoveAssign`, `DynUnion.DynUnion.AssignInPlace` and `DynUnion.DynUnion.ReconstructMove`.
- Smart pointers are modelled only as owner counts. `Downcast` tracks how many handles own an object, not deletion or the deleter.
- Debug, print and attribute macros (include/csp.hpp:112-158) have no behaviour to model.
- The width of `int` and `size_t` is not modelled, except for the wrap-around of `enumCount`. Cursor positions and indices are unbounded naturals.
- `std::stod` in `parseLiteral` is not modelled. A Literal node keeps its digit string.
- Both interpreters are floating-point evaluators with output. This covers examples/interpreter/interpreter.cpp and the `Interpreter` class of examples/parser.cpp.
- `debugPrint` and `main` of examples/parser.cpp are printing only.
- The terminal's I/O is left out: the constructor and destructor (termios), `run`, `beginInput`, `clearLine`, `runTerminal`, utils.cpp and main.cpp.
- The terminal delegate is not called. The line `Enter` hands to `onInput` is returned as `submitted`. The outcome of `complete` is a parameter, and a false outcome is taken to leave the buffer unchanged.
- AST nodes are values. The in-place construction of `m_children` is modelled as a sequence of children built in constructor-argument order.
- Parsing.Expression: the contracts of the grammar functions (`Parsing.BinaryExpression`, `Parsing.UnaryExpression`, `Parsing.CallExpression`, `Parsing.Primary`, `Parsing.InstrStmt`, `Parsing.ExprStmt`, `Parsing.Stmt`, `Parsing.VarDeclStmt`) state only the node class, well-typedness and progress. Their grammar is their bodies, and what it implies is stated by the `Parsing` and `ParserExamples` lemmas on every input of a shape: right associativity, signs over whole expressions, the null left operand, ignored trailing input, the `let` rule and its four errors, and operand lists such as `print;` and `print a, b;`. Operand lists are stated for identifiers and numbers as operands, not for every list length.
- Parsing.Parser: after a thrown error the parser's state is not specified, because the source never reads it again.
- The animal demos of examples/animals* use randomness and printing, so they are left out. test/fastvis.t.cpp exercises a header that is not part of this model.
- `fastvis.hpp` is not part of this model. The standalone parser's use of its `cast` is modelled with the `csp` semantics.

## Findings

| source | as written | input that shows it | evidently intended | confidence | as-written member | corrected member |
|---|---|---|---|---|---|---|
| include/csp.hpp:566-577 | the smart-pointer `dyncast` calls `release()` on its argument before testing the type, and wraps the raw `dyncast` result in a new smart pointer | a `unique_ptr<Animal>` owning a Whale, cast to `Leopard`: the raw cast gives null, so the new pointer is empty, and the released Whale has no owner and is never deleted | on a failed cast the argument keeps ownership (or the object is deleted) | not executed | Downcast.DyncastHandleAsWritten (shown by Downcast.FailedHandleDyncastLeaks and AnimalsTest.WhaleToLeopardHandle) | Downcast.DyncastHandle |
