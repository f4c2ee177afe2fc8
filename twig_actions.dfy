/**
 * The semantic actions of the generated Twig parser: one function per
 * production, the production table as data, and `Reduction`, the dispatch on
 * the action number that reads its arguments off the parse stack by `top`.
 */
module TwigActions {

  import opened Wrappers
  import opened JavaInt
  import opened TwigAst

  /** One row of the production table: left-hand side symbol index and right-hand side length. */
  datatype Production = Production(lhs: nat, rhsLength: nat)

  /** The production table, row `i` describing the production of action `i`. */
  const ProductionTable: seq<Production> := [
    Production(1, 1),  //  0  module ::= top_statement_list
    Production(0, 2),  //  1  $START ::= module EOF
    Production(4, 2),  //  2  top_statement_list ::= top_statement_list top_statement
    Production(4, 0),  //  3  top_statement_list ::=
    Production(5, 1),  //  4  top_statement ::= statement
    Production(5, 1),  //  5  top_statement ::= var
    Production(5, 1),  //  6  top_statement ::= block
    Production(3, 3),  //  7  var ::= TWIG_VAR_OPEN inner_statement_list TWIG_VAR_CLOSE
    Production(2, 4),  //  8  block ::= TWIG_STMT_OPEN T_BLOCK_NAME inner_statement_list TWIG_STMT_CLOSE
    Production(6, 2),  //  9  inner_statement_list ::= inner_statement_list inner_statement
    Production(6, 0),  // 10  inner_statement_list ::=
    Production(7, 1),  // 11  inner_statement ::= statement
    Production(7, 1),  // 12  inner_statement ::= function
    Production(9, 4),  // 13  function ::= T_VARIABLE T_OPEN_PARENTHESE inner_statement_list T_CLOSE_PARENTHESE
    Production(8, 1),  // 14  statement ::= T_VARIABLE
    Production(8, 1)   // 15  statement ::= T_CONSTANT_ENCAPSED_STRING
  ]

  const InvalidActionMessage: string := "Invalid action number found in internal parse table"

  predicate IsCallValue(v: Value) {
    v.NullValue? || (v.Node? && v.stmt.TwigCallExpression?)
  }

  predicate IsBlockValue(v: Value) {
    v.NullValue? || (v.Node? && v.stmt.BlockStatement?)
  }

  predicate IsPrintValue(v: Value) {
    v.NullValue? || (v.Node? && v.stmt.PrintStatement?)
  }

  predicate IsModuleValue(v: Value) {
    v.NullValue? || v.ModuleRef?
  }

  /**
   * What the casts of action `act` demand of the stack entries it reads:
   * enough entries below `top`, and values of the classes the action casts to.
   * The runtime only pushes values of the declared types, so this always holds there.
   */
  predicate Fits(act: int, stack: seq<Symbol>, top: int) {
    0 <= top < |stack| &&
    match act
    case 15 => stack[top].value.Text?
    case 14 => stack[top].value.Text?
    case 13 => 3 <= top && stack[top - 3].value.Text? && stack[top - 1].value.List?
    case 12 => IsCallValue(stack[top].value)
    case 11 => IsStatementValue(stack[top].value)
    case 10 => true
    case 9 => 1 <= top && stack[top - 1].value.List? && IsStatementValue(stack[top].value)
    case 8 => 3 <= top && stack[top - 2].value.Text? && stack[top - 1].value.List?
    case 7 => 2 <= top && stack[top - 1].value.List?
    case 6 => IsBlockValue(stack[top].value)
    case 5 => IsPrintValue(stack[top].value)
    case 4 => IsStatementValue(stack[top].value)
    case 3 => true
    case 2 => 1 <= top && stack[top - 1].value.List? && IsStatementValue(stack[top].value)
    case 1 => 1 <= top && IsModuleValue(stack[top - 1].value)
    case 0 => stack[top].value.List?
    case _ => true
  }

  /** Action 15, `statement ::= T_CONSTANT_ENCAPSED_STRING`. */
  function ActStringStatement(str: Symbol): Symbol
    requires str.value.Text?
  {
    Symbol(NonTerm(StatementNT), str.left, str.right,
           Node(StringLiteral(str.left, str.right, str.value.s)))
  }

  /** Action 14, `statement ::= T_VARIABLE`. */
  function ActVariableStatement(stmt: Symbol): Symbol
    requires stmt.value.Text?
  {
    Symbol(NonTerm(StatementNT), stmt.left, stmt.right,
           Node(Variable(stmt.left, stmt.right, stmt.value.s)))
  }

  /**
   * Action 13, `function ::= T_VARIABLE T_OPEN_PARENTHESE inner_statement_list T_CLOSE_PARENTHESE`.
   * The call node starts at the open parenthesis; the grammar symbol starts at the name.
   */
  function ActFunction(id: Symbol, open: Symbol, stmt: Symbol, close: Symbol): Symbol
    requires id.value.Text? && stmt.value.List?
  {
    Symbol(NonTerm(FunctionNT), id.left, close.right,
           Node(TwigCallExpression(open.left, close.right, id.value.s, stmt.value.stmts)))
  }

  /** Action 12, `inner_statement ::= function`. */
  function ActInnerFunction(fn: Symbol): Symbol {
    Symbol(NonTerm(InnerStatement), fn.left, fn.right, fn.value)
  }

  /** Action 11, `inner_statement ::= statement`. */
  function ActInnerStatement(statement: Symbol): Symbol {
    Symbol(NonTerm(InnerStatement), statement.left, statement.right, statement.value)
  }

  /** Action 10, `inner_statement_list ::=`: a fresh empty list, zero-width at the end of the symbol below. */
  function ActEmptyInnerList(below: Symbol): Symbol {
    Symbol(NonTerm(InnerStatementList), below.right, below.right, List([]))
  }

  /** `list.add(statement)` guarded by `statement != null`, shared by actions 9 and 2. */
  function AppendNonNull(list: seq<Stmt>, statement: Value): (r: seq<Stmt>)
    requires IsStatementValue(statement)
    ensures |r| == |list| + (if statement.Node? then 1 else 0)
    ensures r[..|list|] == list
    ensures statement.Node? ==> r[|list|] == statement.stmt
  {
    if statement.Node? then list + [statement.stmt] else list
  }

  /** Action 9, `inner_statement_list ::= inner_statement_list inner_statement`. */
  function ActAppendInner(statementList: Symbol, statement: Symbol): Symbol
    requires statementList.value.List? && IsStatementValue(statement.value)
  {
    Symbol(NonTerm(InnerStatementList), statementList.left, statement.right,
           List(AppendNonNull(statementList.value.stmts, statement.value)))
  }

  /** Action 8, `block ::= TWIG_STMT_OPEN T_BLOCK_NAME inner_statement_list TWIG_STMT_CLOSE`. */
  function ActBlock(start: Symbol, name: Symbol, inner: Symbol, end: Symbol): Symbol
    requires name.value.Text? && inner.value.List?
  {
    Symbol(NonTerm(BlockNT), start.left, end.right,
           Node(BlockStatement(start.left, end.right, name.value.s, inner.value.stmts)))
  }

  /** Action 7, `var ::= TWIG_VAR_OPEN inner_statement_list TWIG_VAR_CLOSE`. */
  function ActVar(start: Symbol, inner: Symbol, end: Symbol): Symbol
    requires inner.value.List?
  {
    Symbol(NonTerm(VarNT), start.left, end.right,
           Node(PrintStatement(start.left, end.right, inner.value.stmts)))
  }

  /** Action 6, `top_statement ::= block`. */
  function ActTopBlock(b: Symbol): Symbol {
    Symbol(NonTerm(TopStatement), b.left, b.right, b.value)
  }

  /** Action 5, `top_statement ::= var`. */
  function ActTopVar(v: Symbol): Symbol {
    Symbol(NonTerm(TopStatement), v.left, v.right, v.value)
  }

  /** Action 4, `top_statement ::= statement`. */
  function ActTopStatement(statement: Symbol): Symbol {
    Symbol(NonTerm(TopStatement), statement.left, statement.right, statement.value)
  }

  /** Action 3, `top_statement_list ::=`. */
  function ActEmptyTopList(below: Symbol): Symbol {
    Symbol(NonTerm(TopStatementList), below.right, below.right, List([]))
  }

  /** Action 2, `top_statement_list ::= top_statement_list top_statement`. */
  function ActAppendTop(sList: Symbol, statement: Symbol): Symbol
    requires sList.value.List? && IsStatementValue(statement.value)
  {
    Symbol(NonTerm(TopStatementList), sList.left, statement.right,
           List(AppendNonNull(sList.value.stmts, statement.value)))
  }

  /** Action 1, `$START ::= module EOF` (the accepting production). */
  function ActStart(startVal: Symbol, eof: Symbol): Symbol {
    Symbol(NonTerm(Start), startVal.left, eof.right, startVal.value)
  }

  /** Action 0, `module ::= top_statement_list`: the result carries the parser's module declaration. */
  function ActModule(sList: Symbol, decl: TwigModuleDeclaration): Symbol {
    Symbol(NonTerm(ModuleNT), sList.left, sList.right, ModuleRef(decl))
  }

  /** The grammar symbol action `act` produces from the top entries of `stack`. */
  function Reduction(act: int, stack: seq<Symbol>, top: int, decl: TwigModuleDeclaration): Result<Symbol, string>
    requires Fits(act, stack, top)
  {
    match act
    case 15 => Success(ActStringStatement(stack[top]))
    case 14 => Success(ActVariableStatement(stack[top]))
    case 13 => Success(ActFunction(stack[top - 3], stack[top - 2], stack[top - 1], stack[top]))
    case 12 => Success(ActInnerFunction(stack[top]))
    case 11 => Success(ActInnerStatement(stack[top]))
    case 10 => Success(ActEmptyInnerList(stack[top]))
    case 9 => Success(ActAppendInner(stack[top - 1], stack[top]))
    case 8 => Success(ActBlock(stack[top - 3], stack[top - 2], stack[top - 1], stack[top]))
    case 7 => Success(ActVar(stack[top - 2], stack[top - 1], stack[top]))
    case 6 => Success(ActTopBlock(stack[top]))
    case 5 => Success(ActTopVar(stack[top]))
    case 4 => Success(ActTopStatement(stack[top]))
    case 3 => Success(ActEmptyTopList(stack[top]))
    case 2 => Success(ActAppendTop(stack[top - 1], stack[top]))
    case 1 => Success(ActStart(stack[top - 1], stack[top]))
    case 0 => Success(ActModule(stack[top], decl))
    case _ => Failure(InvalidActionMessage)
  }

  /** Number of stack entries action `act` reads: its right-hand side, and at least the entry on top. */
  function Window(act: int): nat
    requires 0 <= act < |ProductionTable|
  {
    if ProductionTable[act].rhsLength == 0 then 1 else ProductionTable[act].rhsLength
  }

  /**
   * Every action number of the table reduces to a non-terminal whose index is
   * the production's left-hand side; any other number fails with the
   * "invalid action number" error.
   */
  lemma {:induction false} ReductionMatchesTable(act: int, stack: seq<Symbol>, top: int, decl: TwigModuleDeclaration)
    requires Fits(act, stack, top)
    ensures 0 <= act < |ProductionTable| ==>
      && Reduction(act, stack, top, decl).Success?
      && Reduction(act, stack, top, decl).value.kind.NonTerm?
      && NonTerminalIndex(Reduction(act, stack, top, decl).value.kind.n) == ProductionTable[act].lhs
    ensures !(0 <= act < |ProductionTable|) ==> Reduction(act, stack, top, decl) == Failure(InvalidActionMessage)
  {
  }

  /**
   * Span rule: a reduced symbol runs from the `left` of the first right-hand
   * side entry (`top - rhsLength + 1`) to the `right` of the entry on top; an
   * empty production is zero-width at the `right` of the entry on top.
   */
  lemma {:induction false} ReductionSpan(act: int, stack: seq<Symbol>, top: int, decl: TwigModuleDeclaration)
    requires 0 <= act < |ProductionTable| && Fits(act, stack, top)
    ensures ProductionTable[act].rhsLength <= top + 1
    ensures Reduction(act, stack, top, decl).Success?
    ensures var r := Reduction(act, stack, top, decl).value;
            var k := ProductionTable[act].rhsLength;
            if k == 0 then r.left == stack[top].right && r.right == stack[top].right
            else r.left == stack[top - k + 1].left && r.right == stack[top].right
  {
  }

  /**
   * The five node-building actions: the node's span is the symbol's span,
   * except the call expression, which starts at the open parenthesis
   * (`top - 2`) while its symbol starts at the callee name (`top - 3`).
   */
  lemma {:induction false} NodeSpan(act: int, stack: seq<Symbol>, top: int, decl: TwigModuleDeclaration)
    requires act in {7, 8, 13, 14, 15} && Fits(act, stack, top)
    ensures Reduction(act, stack, top, decl).Success?
    ensures var r := Reduction(act, stack, top, decl).value;
            && r.value.Node?
            && r.value.stmt.end == r.right
            && (if act == 13 then r.value.stmt.start == stack[top - 2].left && r.left == stack[top - 3].left
                else r.value.stmt.start == r.left)
  {
  }

  /** The unit productions (4, 5, 6, 11, 12) pass their only entry's value and span through. */
  lemma {:induction false} UnitPassThrough(act: int, stack: seq<Symbol>, top: int, decl: TwigModuleDeclaration)
    requires act in {4, 5, 6, 11, 12} && Fits(act, stack, top)
    ensures Reduction(act, stack, top, decl).Success?
    ensures var r := Reduction(act, stack, top, decl).value;
            r.value == stack[top].value && r.left == stack[top].left && r.right == stack[top].right
  {
  }

  /**
   * The list productions: the empty ones (3, 10) make an empty list, the
   * append ones (2, 9) keep the list and add the new statement at the end
   * when it is not null.
   */
  lemma {:induction false} ListReduction(act: int, stack: seq<Symbol>, top: int, decl: TwigModuleDeclaration)
    requires act in {2, 3, 9, 10} && Fits(act, stack, top)
    ensures Reduction(act, stack, top, decl).Success?
    ensures var r := Reduction(act, stack, top, decl).value;
            && r.value.List?
            && (act in {3, 10} ==> r.value.stmts == [])
            && (act in {2, 9} ==>
                  r.value.stmts == stack[top - 1].value.stmts
                                   + (if stack[top].value.Node? then [stack[top].value.stmt] else []))
  {
  }

  /**
   * Each action reads nothing below its window: reducing on the top
   * `Window(act)` entries alone gives the same symbol as on the whole stack.
   */
  lemma {:induction false} ReductionReadsWindow(act: int, stack: seq<Symbol>, top: int, decl: TwigModuleDeclaration)
    requires 0 <= act < |ProductionTable| && Fits(act, stack, top)
    ensures Window(act) <= top + 1
    ensures var window := stack[top + 1 - Window(act)..top + 1];
            Fits(act, window, Window(act) - 1)
            && Reduction(act, stack, top, decl) == Reduction(act, window, Window(act) - 1, decl)
  {
    if act in {0, 3, 4, 5, 6, 10, 11, 12, 14, 15} {
      SingleEntryWindow(act, stack, top, decl);
    } else if act in {1, 2, 9} {
      PairWindow(act, stack, top, decl);
    } else if act == 7 {
      VarWindow(stack, top, decl);
    } else if act == 8 {
      BlockWindow(stack, top, decl);
    } else {
      FunctionWindow(stack, top, decl);
    }
  }

  /** `ReductionReadsWindow` for the actions that read the top entry only. */
  lemma {:induction false} SingleEntryWindow(act: int, stack: seq<Symbol>, top: int, decl: TwigModuleDeclaration)
    requires act in {0, 3, 4, 5, 6, 10, 11, 12, 14, 15} && Fits(act, stack, top)
    ensures Window(act) <= top + 1
    ensures var window := stack[top + 1 - Window(act)..top + 1];
            Fits(act, window, Window(act) - 1)
            && Reduction(act, stack, top, decl) == Reduction(act, window, Window(act) - 1, decl)
  {
    var window := stack[top..top + 1];
    assert window[0] == stack[top];
  }

  /** `ReductionReadsWindow` for the actions with a two-symbol right-hand side. */
  lemma {:induction false} PairWindow(act: int, stack: seq<Symbol>, top: int, decl: TwigModuleDeclaration)
    requires act in {1, 2, 9} && Fits(act, stack, top)
    ensures Window(act) <= top + 1
    ensures var window := stack[top + 1 - Window(act)..top + 1];
            Fits(act, window, Window(act) - 1)
            && Reduction(act, stack, top, decl) == Reduction(act, window, Window(act) - 1, decl)
  {
    var window := stack[top - 1..top + 1];
    assert window[0] == stack[top - 1] && window[1] == stack[top];
  }

  /** `ReductionReadsWindow` for action 7, `var`. */
  lemma {:induction false} VarWindow(stack: seq<Symbol>, top: int, decl: TwigModuleDeclaration)
    requires Fits(7, stack, top)
    ensures Window(7) == 3 <= top + 1
    ensures var window := stack[top - 2..top + 1];
            Fits(7, window, 2)
            && Reduction(7, stack, top, decl) == Reduction(7, window, 2, decl)
  {
    var window := stack[top - 2..top + 1];
    assert window[0] == stack[top - 2] && window[1] == stack[top - 1] && window[2] == stack[top];
  }

  /** `ReductionReadsWindow` for action 8, `block`. */
  lemma {:induction false} BlockWindow(stack: seq<Symbol>, top: int, decl: TwigModuleDeclaration)
    requires Fits(8, stack, top)
    ensures Window(8) == 4 <= top + 1
    ensures var window := stack[top - 3..top + 1];
            Fits(8, window, 3)
            && Reduction(8, stack, top, decl) == Reduction(8, window, 3, decl)
  {
    var window := stack[top - 3..top + 1];
    assert window[0] == stack[top - 3] && window[1] == stack[top - 2] && window[2] == stack[top - 1] && window[3] == stack[top];
  }

  /** `ReductionReadsWindow` for action 13, `function`. */
  lemma {:induction false} FunctionWindow(stack: seq<Symbol>, top: int, decl: TwigModuleDeclaration)
    requires Fits(13, stack, top)
    ensures Window(13) == 4 <= top + 1
    ensures var window := stack[top - 3..top + 1];
            Fits(13, window, 3)
            && Reduction(13, stack, top, decl) == Reduction(13, window, 3, decl)
  {
    var window := stack[top - 3..top + 1];
    assert window[0] == stack[top - 3] && window[1] == stack[top - 2] && window[2] == stack[top - 1] && window[3] == stack[top];
  }
}
