/**
 * The grammar symbols and AST nodes of the Twig parser.
 *
 * A `Symbol` is what the CUP runtime keeps on its parse stack: a symbol kind,
 * the `left`/`right` positions the scanner attached to it and a semantic value.
 * Statements are a closed sum of the five node classes the parser builds.
 */
module TwigAst {

  import opened Wrappers
  import opened JavaInt

  /** Terminals of the grammar (the scanner's token kinds). */
  datatype Terminal =
    | Eof                      // EOF, symbol index 0
    | ErrorSym                 // CUP's `error` terminal, symbol index 1
    | TwigVarOpen              // {{
    | TwigVarClose             // }}
    | TwigStmtOpen             // {%
    | TwigStmtClose            // %}
    | BlockName                // T_BLOCK_NAME
    | VariableTok              // T_VARIABLE
    | ConstantEncapsedString   // T_CONSTANT_ENCAPSED_STRING
    | OpenParenthese           // T_OPEN_PARENTHESE
    | CloseParenthese          // T_CLOSE_PARENTHESE

  /** Non-terminals, in the order of their CUP symbol indexes 0..9. */
  datatype NonTerminal =
    | Start | ModuleNT | BlockNT | VarNT | TopStatementList | TopStatement
    | InnerStatementList | InnerStatement | StatementNT | FunctionNT

  /** The CUP symbol index of a non-terminal, as written in the generated actions. */
  function NonTerminalIndex(n: NonTerminal): (i: nat)
    ensures i < 10
  {
    match n
    case Start => 0
    case ModuleNT => 1
    case BlockNT => 2
    case VarNT => 3
    case TopStatementList => 4
    case TopStatement => 5
    case InnerStatementList => 6
    case InnerStatement => 7
    case StatementNT => 8
    case FunctionNT => 9
  }

  datatype SymKind = Term(t: Terminal) | NonTerm(n: NonTerminal)

  /** AST statement nodes; `start`/`end` are the node's source span. */
  datatype Stmt =
    | StringLiteral(start: int, end: int, text: string)
    | Variable(start: int, end: int, name: string)
    | TwigCallExpression(start: int, end: int, name: string, args: seq<Stmt>)
    | BlockStatement(start: int, end: int, name: string, inner: seq<Stmt>)
    | PrintStatement(start: int, end: int, inner: seq<Stmt>)

  /** The module declaration the parser owns; the `module` action overwrites its statements. */
  class TwigModuleDeclaration {
    var statements: seq<Stmt>

    constructor ()
      ensures statements == []
    {
      statements := [];
    }

    method SetStatements(list: seq<Stmt>)
      modifies this
      ensures statements == list
    {
      statements := list;
    }
  }

  /** Semantic values carried by stack symbols (Java `Object`). */
  datatype Value =
    | NullValue                          // null
    | Text(s: string)                    // a String (identifier, string literal, block name)
    | Node(stmt: Stmt)                   // a Statement
    | List(stmts: seq<Stmt>)             // a java.util.List of statements
    | ModuleRef(decl: TwigModuleDeclaration)

  datatype Symbol = Symbol(kind: SymKind, left: Int32, right: Int32, value: Value)

  /** Value is a (possibly null) Statement, what a `(Statement)` cast accepts. */
  predicate IsStatementValue(v: Value) {
    v.NullValue? || v.Node?
  }

  /** The statement a `(Statement)` cast yields, `None` standing for null. */
  function StatementOf(v: Value): Option<Stmt>
  {
    if v.Node? then Some(v.stmt) else None
  }
}
