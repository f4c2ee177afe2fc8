/**
 * A parser for exactly the Twig grammar of the generated parser, written as
 * recursive descent (a `T_VARIABLE` followed by `T_OPEN_PARENTHESE` starts a
 * `function`, otherwise it is a `statement`). Every grammar symbol is built by
 * the production action functions of `TwigActions`, given the same stack
 * entries the LR parser would hold when it reduces that production.
 *
 * Its results are checked against an independent reference: `Render`, the
 * terminal sequence a statement tree stands for.
 */
module TwigGrammar {

  import opened Wrappers
  import opened JavaInt
  import opened TwigAst
  import opened TwigActions

  /** A scanner token: a terminal; identifiers, strings and block names carry their text. */
  predicate TokenOk(t: Symbol) {
    t.kind.Term? && (t.kind.t in {VariableTok, ConstantEncapsedString, BlockName} ==> t.value.Text?)
  }

  /** The scanner's output: tokens that end with EOF. */
  predicate ValidTokens(toks: seq<Symbol>) {
    && |toks| > 0
    && toks[|toks| - 1].kind == Term(Eof)
    && forall i :: 0 <= i < |toks| ==> TokenOk(toks[i])
  }

  function TerminalOf(t: Symbol): Terminal {
    if t.kind.Term? then t.kind.t else ErrorSym
  }

  /** The terminal kinds of a token sequence. */
  function Terms(toks: seq<Symbol>): (r: seq<Terminal>)
    ensures |r| == |toks| && forall i :: 0 <= i < |toks| ==> r[i] == TerminalOf(toks[i])
  {
    seq(|toks|, i requires 0 <= i < |toks| => TerminalOf(toks[i]))
  }

  predicate StartsInner(t: Symbol) {
    t.kind == Term(VariableTok) || t.kind == Term(ConstantEncapsedString)
  }

  predicate StartsTop(t: Symbol) {
    StartsInner(t) || t.kind == Term(TwigVarOpen) || t.kind == Term(TwigStmtOpen)
  }

  /** A grammar symbol and the position of the first token after it. */
  datatype Parsed = Parsed(sym: Symbol, next: nat)

  // ---------------------------------------------------------------------
  // Reference: the terminals a statement tree derives

  function Render(s: Stmt): seq<Terminal> {
    match s
    case StringLiteral(_, _, _) => [ConstantEncapsedString]
    case Variable(_, _, _) => [VariableTok]
    case TwigCallExpression(_, _, _, args) => [VariableTok, OpenParenthese] + RenderList(args) + [CloseParenthese]
    case BlockStatement(_, _, _, inner) => [TwigStmtOpen, BlockName] + RenderList(inner) + [TwigStmtClose]
    case PrintStatement(_, _, inner) => [TwigVarOpen] + RenderList(inner) + [TwigVarClose]
  }

  function RenderList(ss: seq<Stmt>): seq<Terminal> {
    if |ss| == 0 then [] else Render(ss[0]) + RenderList(ss[1..])
  }

  /** Statements an `inner_statement` derives: literals, variables and calls of those. */
  predicate InnerForm(s: Stmt) {
    match s
    case StringLiteral(_, _, _) => true
    case Variable(_, _, _) => true
    case TwigCallExpression(_, _, _, args) => forall a <- args :: InnerForm(a)
    case BlockStatement(_, _, _, _) => false
    case PrintStatement(_, _, _) => false
  }

  /** Statements a `top_statement` derives: literals, variables, prints and blocks of inner statements. */
  predicate TopForm(s: Stmt) {
    match s
    case StringLiteral(_, _, _) => true
    case Variable(_, _, _) => true
    case TwigCallExpression(_, _, _, _) => false
    case BlockStatement(_, _, _, inner) => forall a <- inner :: InnerForm(a)
    case PrintStatement(_, _, inner) => forall a <- inner :: InnerForm(a)
  }

  /**
   * Node `s` was built from the tokens `toks[pos..pos + |Render(s)|]`: it ends
   * where its last token ends, starts where its first token starts (a call:
   * where its open parenthesis starts), carries its token's text, and so do
   * all its children, each at its own position.
   */
  predicate BuiltTree(s: Stmt, toks: seq<Symbol>, pos: nat)
    requires pos + |Render(s)| <= |toks|
    decreases s, 1
  {
    var next := pos + |Render(s)|;
    && s.end == toks[next - 1].right
    && match s
       case StringLiteral(start, _, text) => start == toks[pos].left && toks[pos].value == Text(text)
       case Variable(start, _, name) => start == toks[pos].left && toks[pos].value == Text(name)
       case TwigCallExpression(start, _, name, args) =>
         && start == toks[pos + 1].left && toks[pos].value == Text(name)
         && BuiltList(args, toks, pos + 2)
       case BlockStatement(start, _, name, inner) =>
         && start == toks[pos].left && toks[pos + 1].value == Text(name)
         && BuiltList(inner, toks, pos + 2)
       case PrintStatement(start, _, inner) =>
         && start == toks[pos].left
         && BuiltList(inner, toks, pos + 1)
  }

  predicate BuiltList(ss: seq<Stmt>, toks: seq<Symbol>, pos: nat)
    requires pos + |RenderList(ss)| <= |toks|
    decreases ss, 0
  {
    |ss| == 0 || (BuiltTree(ss[0], toks, pos) && BuiltList(ss[1..], toks, pos + |Render(ss[0])|))
  }

  // ---------------------------------------------------------------------
  // The parser

  /** `statement ::= T_VARIABLE | T_CONSTANT_ENCAPSED_STRING` (actions 14 and 15). */
  function Statement(t: Symbol): Symbol
    requires TokenOk(t) && StartsInner(t)
  {
    if t.kind == Term(VariableTok) then ActVariableStatement(t) else ActStringStatement(t)
  }

  /** `inner_statement ::= statement | function`, starting at `toks[pos]`. */
  function ParseInnerStatement(toks: seq<Symbol>, pos: nat): (r: Result<Parsed, Symbol>)
    requires ValidTokens(toks) && pos < |toks| && StartsInner(toks[pos])
    ensures r.Success? ==> pos < r.value.next < |toks| && r.value.sym.value.Node?
    ensures r.Failure? ==> r.error in toks[pos..]
    decreases |toks| - pos, 0
  {
    if toks[pos].kind == Term(VariableTok) && toks[pos + 1].kind == Term(OpenParenthese) then
      var list :- ParseInnerItems(toks, pos + 2, ActEmptyInnerList(toks[pos + 1]));
      if toks[list.next].kind != Term(CloseParenthese) then Failure(toks[list.next])
      else
        var f := ActFunction(toks[pos], toks[pos + 1], list.sym, toks[list.next]);
        Success(Parsed(ActInnerFunction(f), list.next + 1))
    else
      Success(Parsed(ActInnerStatement(Statement(toks[pos])), pos + 1))
  }

  /**
   * The remaining `inner_statement`s of a list, appended to the list symbol
   * `acc` by action 9, up to the first token that cannot start one.
   */
  function ParseInnerItems(toks: seq<Symbol>, pos: nat, acc: Symbol): (r: Result<Parsed, Symbol>)
    requires ValidTokens(toks) && pos < |toks| && acc.value.List?
    ensures r.Success? ==> pos <= r.value.next < |toks| && r.value.sym.value.List?
    ensures r.Failure? ==> r.error in toks[pos..]
    decreases |toks| - pos, 1
  {
    if StartsInner(toks[pos]) then
      var item :- ParseInnerStatement(toks, pos);
      ParseInnerItems(toks, item.next, ActAppendInner(acc, item.sym))
    else
      Success(Parsed(acc, pos))
  }

  /**
   * `top_statement ::= statement | var | block`, starting at `toks[pos]`. A
   * variable at the top level is always a `statement`: `function` is only
   * reachable inside `{{ }}` and `{% %}`.
   */
  function ParseTopStatement(toks: seq<Symbol>, pos: nat): (r: Result<Parsed, Symbol>)
    requires ValidTokens(toks) && pos < |toks| && StartsTop(toks[pos])
    ensures r.Success? ==> pos < r.value.next < |toks| && r.value.sym.value.Node?
    ensures r.Failure? ==> r.error in toks[pos..]
  {
    if toks[pos].kind == Term(TwigVarOpen) then
      var list :- ParseInnerItems(toks, pos + 1, ActEmptyInnerList(toks[pos]));
      if toks[list.next].kind != Term(TwigVarClose) then Failure(toks[list.next])
      else Success(Parsed(ActTopVar(ActVar(toks[pos], list.sym, toks[list.next])), list.next + 1))
    else if toks[pos].kind == Term(TwigStmtOpen) then
      if toks[pos + 1].kind != Term(BlockName) then Failure(toks[pos + 1])
      else
        var list :- ParseInnerItems(toks, pos + 2, ActEmptyInnerList(toks[pos + 1]));
        if toks[list.next].kind != Term(TwigStmtClose) then Failure(toks[list.next])
        else Success(Parsed(ActTopBlock(ActBlock(toks[pos], toks[pos + 1], list.sym, toks[list.next])), list.next + 1))
    else
      Success(Parsed(ActTopStatement(Statement(toks[pos])), pos + 1))
  }

  /** The remaining `top_statement`s, appended to `acc` by action 2, up to the first token that cannot start one. */
  function ParseTopItems(toks: seq<Symbol>, pos: nat, acc: Symbol): (r: Result<Parsed, Symbol>)
    requires ValidTokens(toks) && pos < |toks| && acc.value.List?
    ensures r.Success? ==> pos <= r.value.next < |toks| && r.value.sym.value.List?
    ensures r.Failure? ==> r.error in toks[pos..]
    decreases |toks| - pos
  {
    if StartsTop(toks[pos]) then
      var item :- ParseTopStatement(toks, pos);
      ParseTopItems(toks, item.next, ActAppendTop(acc, item.sym))
    else
      Success(Parsed(acc, pos))
  }

  /**
   * The whole input as a `top_statement_list` followed by EOF. `bottom` is the
   * entry at the bottom of the parse stack, below the empty list of action 3.
   * On a syntax error the result is the first token that cannot be shifted.
   */
  function ParseTopList(toks: seq<Symbol>, bottom: Symbol): (r: Result<Parsed, Symbol>)
    requires ValidTokens(toks)
    ensures r.Success? ==> r.value.next < |toks| && toks[r.value.next].kind == Term(Eof) && r.value.sym.value.List?
    ensures r.Failure? ==> r.error in toks
  {
    var items :- ParseTopItems(toks, 0, ActEmptyTopList(bottom));
    if toks[items.next].kind != Term(Eof) then Failure(toks[items.next]) else Success(items)
  }

  // ---------------------------------------------------------------------
  // Soundness: what the parser builds derives exactly the tokens it consumed

  lemma {:induction false} TermsSplit(toks: seq<Symbol>, a: nat, b: nat, c: nat)
    requires a <= b <= c <= |toks|
    ensures Terms(toks)[a..c] == Terms(toks)[a..b] + Terms(toks)[b..c]
  {
  }

  /** A bracketed construct: `open`, then the part at `mid`, then the closing terminal at `close`. */
  lemma {:induction false} EnclosedTerms(ts: seq<Terminal>, pos: nat, n: nat, close: nat, open: seq<Terminal>, mid: seq<Terminal>, closing: Terminal)
    requires pos + n <= close < |ts| && |open| == n
    requires ts[pos..pos + n] == open && ts[pos + n..close] == mid && ts[close] == closing
    ensures ts[pos..close + 1] == open + mid + [closing]
  {
    assert ts[pos..close + 1] == ts[pos..close] + [ts[close]];
    assert ts[pos..close] == ts[pos..pos + n] + ts[pos + n..close];
  }

  /** A list that extends `before + [x]` extends `before`, with `x` first among the additions. */
  lemma {:induction false} ExtendedTail(before: seq<Stmt>, x: Stmt, all: seq<Stmt>)
    requires |before| + 1 <= |all| && all[..|before| + 1] == before + [x]
    ensures all[..|before|] == before
    ensures all[|before|..] == [x] + all[|before| + 1..]
  {
    assert all[..|before|] == all[..|before| + 1][..|before|];
  }

  /**
   * One step of a list loop: the node `x` built over `toks[pos..mid]`, then
   * the rest of the additions built over `toks[mid..next]`.
   */
  lemma {:induction false} ListStep(toks: seq<Symbol>, pos: nat, mid: nat, next: nat, before: seq<Stmt>, x: Stmt, all: seq<Stmt>)
    requires pos <= mid <= next <= |toks|
    requires |before| + 1 <= |all| && all[..|before| + 1] == before + [x]
    requires Terms(toks)[pos..mid] == Render(x) && BuiltTree(x, toks, pos)
    requires Terms(toks)[mid..next] == RenderList(all[|before| + 1..])
    requires BuiltList(all[|before| + 1..], toks, mid)
    ensures all[..|before|] == before && all[|before|..] == [x] + all[|before| + 1..]
    ensures Terms(toks)[pos..next] == RenderList(all[|before|..])
    ensures BuiltList(all[|before|..], toks, pos)
  {
    ExtendedTail(before, x, all);
    TermsSplit(toks, pos, mid, next);
    ConsBuilt(x, all[|before| + 1..], toks, pos);
  }

  /** Prepending a node built at `pos` to a list built right after it. */
  lemma {:induction false} ConsBuilt(s: Stmt, rest: seq<Stmt>, toks: seq<Symbol>, pos: nat)
    requires pos + |Render(s)| + |RenderList(rest)| <= |toks|
    requires BuiltTree(s, toks, pos) && BuiltList(rest, toks, pos + |Render(s)|)
    ensures RenderList([s] + rest) == Render(s) + RenderList(rest)
    ensures BuiltList([s] + rest, toks, pos)
  {
    assert ([s] + rest)[1..] == rest;
  }

  /** A `statement` (actions 14 and 15) is a one-token node carrying that token's positions and text. */
  lemma {:induction false} StatementSound(toks: seq<Symbol>, pos: nat)
    requires ValidTokens(toks) && pos < |toks| && StartsInner(toks[pos])
    ensures var sym := Statement(toks[pos]);
      && sym.value.Node? && InnerForm(sym.value.stmt) && TopForm(sym.value.stmt)
      && sym.left == toks[pos].left && sym.right == toks[pos].right
      && pos + 1 <= |toks| && Terms(toks)[pos..pos + 1] == Render(sym.value.stmt)
      && BuiltTree(sym.value.stmt, toks, pos)
  {
    assert TokenOk(toks[pos]);
    assert Terms(toks)[pos..pos + 1] == [TerminalOf(toks[pos])];
  }

  lemma {:induction false} InnerStatementSound(toks: seq<Symbol>, pos: nat, p: Parsed)
    requires ValidTokens(toks) && pos < |toks| && StartsInner(toks[pos])
    requires ParseInnerStatement(toks, pos) == Success(p)
    ensures p.sym.kind == NonTerm(InnerStatement)
    ensures p.sym.left == toks[pos].left && p.sym.right == toks[p.next - 1].right
    ensures InnerForm(p.sym.value.stmt)
    ensures Terms(toks)[pos..p.next] == Render(p.sym.value.stmt)
    ensures BuiltTree(p.sym.value.stmt, toks, pos)
    decreases |toks| - pos, 1
  {
    if toks[pos].kind == Term(VariableTok) && toks[pos + 1].kind == Term(OpenParenthese) {
      var list := InnerCallParts(toks, pos, p);
      InnerCallSound(toks, pos, list);
    } else {
      assert p == Parsed(ActInnerStatement(Statement(toks[pos])), pos + 1);
      StatementSound(toks, pos);
    }
  }

  /** How a `function` parse is made: the argument list after the parenthesis, then the closing one. */
  lemma {:induction false} InnerCallParts(toks: seq<Symbol>, pos: nat, p: Parsed) returns (list: Parsed)
    requires ValidTokens(toks) && pos + 1 < |toks|
    requires toks[pos].kind == Term(VariableTok) && toks[pos + 1].kind == Term(OpenParenthese)
    requires ParseInnerStatement(toks, pos) == Success(p)
    ensures ParseInnerItems(toks, pos + 2, ActEmptyInnerList(toks[pos + 1])) == Success(list)
    ensures list.next < |toks| && toks[list.next].kind == Term(CloseParenthese)
    ensures p == Parsed(ActInnerFunction(ActFunction(toks[pos], toks[pos + 1], list.sym, toks[list.next])), list.next + 1)
    decreases |toks| - pos, 0
  {
    list := ParseInnerItems(toks, pos + 2, ActEmptyInnerList(toks[pos + 1])).value;
  }

  /** The `function` case of `InnerStatementSound`, given the argument list parsed after the parenthesis. */
  lemma {:induction false} InnerCallSound(toks: seq<Symbol>, pos: nat, list: Parsed)
    requires ValidTokens(toks) && pos + 1 < |toks|
    requires toks[pos].kind == Term(VariableTok) && toks[pos + 1].kind == Term(OpenParenthese)
    requires ParseInnerItems(toks, pos + 2, ActEmptyInnerList(toks[pos + 1])) == Success(list)
    requires toks[list.next].kind == Term(CloseParenthese)
    ensures var sym := ActInnerFunction(ActFunction(toks[pos], toks[pos + 1], list.sym, toks[list.next]));
      && sym.kind == NonTerm(InnerStatement)
      && sym.left == toks[pos].left && sym.right == toks[list.next].right
      && InnerForm(sym.value.stmt)
      && Terms(toks)[pos..list.next + 1] == Render(sym.value.stmt)
      && BuiltTree(sym.value.stmt, toks, pos)
    decreases |toks| - pos, 0
  {
    var f := ActFunction(toks[pos], toks[pos + 1], list.sym, toks[list.next]);
    InnerListSound(toks, pos + 2, toks[pos + 1], list);
    assert TokenOk(toks[pos]) && TokenOk(toks[pos + 1]) && TokenOk(toks[list.next]);
    CallBuilt(toks, pos, list.next, f.value.stmt);
  }

  /** A call node over `T_VARIABLE T_OPEN_PARENTHESE <args> T_CLOSE_PARENTHESE` ending at `close`. */
  lemma {:induction false} CallBuilt(toks: seq<Symbol>, pos: nat, close: nat, s: Stmt)
    requires pos + 2 <= close < |toks| && s.TwigCallExpression?
    requires TerminalOf(toks[pos]) == VariableTok && TerminalOf(toks[pos + 1]) == OpenParenthese
    requires TerminalOf(toks[close]) == CloseParenthese
    requires Terms(toks)[pos + 2..close] == RenderList(s.args) && BuiltList(s.args, toks, pos + 2)
    requires s.start == toks[pos + 1].left && s.end == toks[close].right && toks[pos].value == Text(s.name)
    ensures Terms(toks)[pos..close + 1] == Render(s)
    ensures BuiltTree(s, toks, pos)
  {
    EnclosedTerms(Terms(toks), pos, 2, close, [VariableTok, OpenParenthese], RenderList(s.args), CloseParenthese);
  }

  lemma {:induction false} InnerItemsSound(toks: seq<Symbol>, pos: nat, acc: Symbol, p: Parsed)
    requires ValidTokens(toks) && pos < |toks| && acc.value.List?
    requires ParseInnerItems(toks, pos, acc) == Success(p)
    ensures |acc.value.stmts| <= |p.sym.value.stmts| && p.sym.value.stmts[..|acc.value.stmts|] == acc.value.stmts
    ensures var added := p.sym.value.stmts[|acc.value.stmts|..];
      && (forall s <- added :: InnerForm(s))
      && Terms(toks)[pos..p.next] == RenderList(added)
      && BuiltList(added, toks, pos)
    decreases |toks| - pos, 2
  {
    if StartsInner(toks[pos]) {
      var item := ParseInnerStatement(toks, pos).value;
      var acc' := ActAppendInner(acc, item.sym);
      assert ParseInnerItems(toks, item.next, acc') == Success(p);
      InnerStatementSound(toks, pos, item);
      var x := item.sym.value.stmt;
      assert acc'.value.stmts == acc.value.stmts + [x];
      InnerItemsSound(toks, item.next, acc', p);
      ListStep(toks, pos, item.next, p.next, acc.value.stmts, x, p.sym.value.stmts);
    } else {
      assert acc.value.stmts[|acc.value.stmts|..] == [];
    }
  }

  /** A whole inner list, started empty after the token `below`, derives exactly the tokens it consumed. */
  lemma {:induction false} InnerListSound(toks: seq<Symbol>, pos: nat, below: Symbol, list: Parsed)
    requires ValidTokens(toks) && pos < |toks|
    requires ParseInnerItems(toks, pos, ActEmptyInnerList(below)) == Success(list)
    ensures pos <= list.next < |toks| && list.sym.value.List?
    ensures forall a <- list.sym.value.stmts :: InnerForm(a)
    ensures Terms(toks)[pos..list.next] == RenderList(list.sym.value.stmts)
    ensures BuiltList(list.sym.value.stmts, toks, pos)
    decreases |toks| - pos, 3
  {
    InnerItemsSound(toks, pos, ActEmptyInnerList(below), list);
    assert list.sym.value.stmts == list.sym.value.stmts[0..];
  }

  /** The list symbol ends at the last token it consumed (or stays where it was), before a token that cannot continue it. */
  lemma {:induction false} InnerItemsSpan(toks: seq<Symbol>, pos: nat, acc: Symbol, p: Parsed)
    requires ValidTokens(toks) && pos < |toks| && acc.value.List?
    requires acc.kind == NonTerm(InnerStatementList)
    requires ParseInnerItems(toks, pos, acc) == Success(p)
    ensures !StartsInner(toks[p.next])
    ensures p.sym.kind == NonTerm(InnerStatementList) && p.sym.left == acc.left
    ensures p.sym.right == (if p.next == pos then acc.right else toks[p.next - 1].right)
    decreases |toks| - pos
  {
    if StartsInner(toks[pos]) {
      var item := ParseInnerStatement(toks, pos).value;
      InnerStatementSound(toks, pos, item);
      InnerItemsSpan(toks, item.next, ActAppendInner(acc, item.sym), p);
    }
  }

  /** A print node over `TWIG_VAR_OPEN <inner> TWIG_VAR_CLOSE` ending at `close`. */
  lemma {:induction false} PrintBuilt(toks: seq<Symbol>, pos: nat, close: nat, s: Stmt)
    requires pos + 1 <= close < |toks| && s.PrintStatement?
    requires TerminalOf(toks[pos]) == TwigVarOpen && TerminalOf(toks[close]) == TwigVarClose
    requires Terms(toks)[pos + 1..close] == RenderList(s.inner) && BuiltList(s.inner, toks, pos + 1)
    requires s.start == toks[pos].left && s.end == toks[close].right
    ensures Terms(toks)[pos..close + 1] == Render(s)
    ensures BuiltTree(s, toks, pos)
  {
    EnclosedTerms(Terms(toks), pos, 1, close, [TwigVarOpen], RenderList(s.inner), TwigVarClose);
  }

  /** A block node over `TWIG_STMT_OPEN T_BLOCK_NAME <inner> TWIG_STMT_CLOSE` ending at `close`. */
  lemma {:induction false} BlockBuilt(toks: seq<Symbol>, pos: nat, close: nat, s: Stmt)
    requires pos + 2 <= close < |toks| && s.BlockStatement?
    requires TerminalOf(toks[pos]) == TwigStmtOpen && TerminalOf(toks[pos + 1]) == BlockName
    requires TerminalOf(toks[close]) == TwigStmtClose
    requires Terms(toks)[pos + 2..close] == RenderList(s.inner) && BuiltList(s.inner, toks, pos + 2)
    requires s.start == toks[pos].left && s.end == toks[close].right && toks[pos + 1].value == Text(s.name)
    ensures Terms(toks)[pos..close + 1] == Render(s)
    ensures BuiltTree(s, toks, pos)
  {
    EnclosedTerms(Terms(toks), pos, 2, close, [TwigStmtOpen, BlockName], RenderList(s.inner), TwigStmtClose);
  }

  lemma {:induction false} TopStatementSound(toks: seq<Symbol>, pos: nat, p: Parsed)
    requires ValidTokens(toks) && pos < |toks| && StartsTop(toks[pos])
    requires ParseTopStatement(toks, pos) == Success(p)
    ensures p.sym.kind == NonTerm(TopStatement)
    ensures p.sym.left == toks[pos].left && p.sym.right == toks[p.next - 1].right
    ensures TopForm(p.sym.value.stmt)
    ensures Terms(toks)[pos..p.next] == Render(p.sym.value.stmt)
    ensures BuiltTree(p.sym.value.stmt, toks, pos)
  {
    if toks[pos].kind == Term(TwigVarOpen) {
      var list := TopPrintParts(toks, pos, p);
      TopPrintSound(toks, pos, list);
    } else if toks[pos].kind == Term(TwigStmtOpen) {
      var list := TopBlockParts(toks, pos, p);
      TopBlockSound(toks, pos, list);
    } else {
      assert p == Parsed(ActTopStatement(Statement(toks[pos])), pos + 1);
      StatementSound(toks, pos);
    }
  }

  /** How a `var` parse is made: the inner list after `{{`, then `}}`. */
  lemma {:induction false} TopPrintParts(toks: seq<Symbol>, pos: nat, p: Parsed) returns (list: Parsed)
    requires ValidTokens(toks) && pos < |toks| && toks[pos].kind == Term(TwigVarOpen)
    requires ParseTopStatement(toks, pos) == Success(p)
    ensures ParseInnerItems(toks, pos + 1, ActEmptyInnerList(toks[pos])) == Success(list)
    ensures list.next < |toks| && toks[list.next].kind == Term(TwigVarClose)
    ensures p == Parsed(ActTopVar(ActVar(toks[pos], list.sym, toks[list.next])), list.next + 1)
  {
    list := ParseInnerItems(toks, pos + 1, ActEmptyInnerList(toks[pos])).value;
  }

  /** How a `block` parse is made: the block name, the inner list, then `%}`. */
  lemma {:induction false} TopBlockParts(toks: seq<Symbol>, pos: nat, p: Parsed) returns (list: Parsed)
    requires ValidTokens(toks) && pos < |toks| && toks[pos].kind == Term(TwigStmtOpen)
    requires ParseTopStatement(toks, pos) == Success(p)
    ensures pos + 1 < |toks| && toks[pos + 1].kind == Term(BlockName)
    ensures ParseInnerItems(toks, pos + 2, ActEmptyInnerList(toks[pos + 1])) == Success(list)
    ensures list.next < |toks| && toks[list.next].kind == Term(TwigStmtClose)
    ensures p == Parsed(ActTopBlock(ActBlock(toks[pos], toks[pos + 1], list.sym, toks[list.next])), list.next + 1)
  {
    list := ParseInnerItems(toks, pos + 2, ActEmptyInnerList(toks[pos + 1])).value;
  }

  /** The `var` case of `TopStatementSound`, given the list parsed after `{{`. */
  lemma {:induction false} TopPrintSound(toks: seq<Symbol>, pos: nat, list: Parsed)
    requires ValidTokens(toks) && pos < |toks| && toks[pos].kind == Term(TwigVarOpen)
    requires ParseInnerItems(toks, pos + 1, ActEmptyInnerList(toks[pos])) == Success(list)
    requires toks[list.next].kind == Term(TwigVarClose)
    ensures var sym := ActTopVar(ActVar(toks[pos], list.sym, toks[list.next]));
      && sym.kind == NonTerm(TopStatement)
      && sym.left == toks[pos].left && sym.right == toks[list.next].right
      && TopForm(sym.value.stmt)
      && Terms(toks)[pos..list.next + 1] == Render(sym.value.stmt)
      && BuiltTree(sym.value.stmt, toks, pos)
  {
    var v := ActVar(toks[pos], list.sym, toks[list.next]);
    InnerListSound(toks, pos + 1, toks[pos], list);
    assert TokenOk(toks[pos]) && TokenOk(toks[list.next]);
    PrintBuilt(toks, pos, list.next, v.value.stmt);
  }

  /** The `block` case of `TopStatementSound`, given the list parsed after the block name. */
  lemma {:induction false} TopBlockSound(toks: seq<Symbol>, pos: nat, list: Parsed)
    requires ValidTokens(toks) && pos + 1 < |toks| && toks[pos].kind == Term(TwigStmtOpen)
    requires toks[pos + 1].kind == Term(BlockName)
    requires ParseInnerItems(toks, pos + 2, ActEmptyInnerList(toks[pos + 1])) == Success(list)
    requires toks[list.next].kind == Term(TwigStmtClose)
    ensures var sym := ActTopBlock(ActBlock(toks[pos], toks[pos + 1], list.sym, toks[list.next]));
      && sym.kind == NonTerm(TopStatement)
      && sym.left == toks[pos].left && sym.right == toks[list.next].right
      && TopForm(sym.value.stmt)
      && Terms(toks)[pos..list.next + 1] == Render(sym.value.stmt)
      && BuiltTree(sym.value.stmt, toks, pos)
  {
    var b := ActBlock(toks[pos], toks[pos + 1], list.sym, toks[list.next]);
    var inner := list.sym.value.stmts;
    InnerListSound(toks, pos + 2, toks[pos + 1], list);
    assert TokenOk(toks[pos]) && TokenOk(toks[pos + 1]) && TokenOk(toks[list.next]);
    var s := BlockStatement(toks[pos].left, toks[list.next].right, toks[pos + 1].value.s, inner);
    assert ActTopBlock(b).value.stmt == s;
    BlockBuilt(toks, pos, list.next, s);
  }

  lemma {:induction false} TopItemsSound(toks: seq<Symbol>, pos: nat, acc: Symbol, p: Parsed)
    requires ValidTokens(toks) && pos < |toks| && acc.value.List?
    requires ParseTopItems(toks, pos, acc) == Success(p)
    ensures |acc.value.stmts| <= |p.sym.value.stmts| && p.sym.value.stmts[..|acc.value.stmts|] == acc.value.stmts
    ensures var added := p.sym.value.stmts[|acc.value.stmts|..];
      && (forall s <- added :: TopForm(s))
      && Terms(toks)[pos..p.next] == RenderList(added)
      && BuiltList(added, toks, pos)
    decreases |toks| - pos
  {
    if StartsTop(toks[pos]) {
      var item := ParseTopStatement(toks, pos).value;
      var acc' := ActAppendTop(acc, item.sym);
      assert ParseTopItems(toks, item.next, acc') == Success(p);
      TopStatementSound(toks, pos, item);
      var x := item.sym.value.stmt;
      assert acc'.value.stmts == acc.value.stmts + [x];
      TopItemsSound(toks, item.next, acc', p);
      ListStep(toks, pos, item.next, p.next, acc.value.stmts, x, p.sym.value.stmts);
    } else {
      assert acc.value.stmts[|acc.value.stmts|..] == [];
    }
  }

  lemma {:induction false} TopItemsSpan(toks: seq<Symbol>, pos: nat, acc: Symbol, p: Parsed)
    requires ValidTokens(toks) && pos < |toks| && acc.value.List?
    requires acc.kind == NonTerm(TopStatementList)
    requires ParseTopItems(toks, pos, acc) == Success(p)
    ensures !StartsTop(toks[p.next])
    ensures p.sym.kind == NonTerm(TopStatementList) && p.sym.left == acc.left
    ensures p.sym.right == (if p.next == pos then acc.right else toks[p.next - 1].right)
    decreases |toks| - pos
  {
    if StartsTop(toks[pos]) {
      var item := ParseTopStatement(toks, pos).value;
      TopStatementSound(toks, pos, item);
      TopItemsSpan(toks, item.next, ActAppendTop(acc, item.sym), p);
    }
  }

  /** No statement derives EOF. */
  lemma {:induction false} RenderListHasNoEof(ss: seq<Stmt>)
    ensures Eof !in RenderList(ss)
    decreases ss, 0
  {
    if |ss| > 0 {
      RenderHasNoEof(ss[0]);
      RenderListHasNoEof(ss[1..]);
    }
  }

  lemma {:induction false} RenderHasNoEof(s: Stmt)
    ensures Eof !in Render(s)
    decreases s, 1
  {
    match s
    case TwigCallExpression(_, _, _, args) => RenderListHasNoEof(args);
    case BlockStatement(_, _, _, inner) => RenderListHasNoEof(inner);
    case PrintStatement(_, _, inner) => RenderListHasNoEof(inner);
    case _ =>
  }

  /**
   * A successful parse: the module's statements derive exactly the tokens
   * before the first EOF, each node carries the positions and text of its
   * own tokens, and the list spans them (zero-width after `bottom` when empty).
   */
  lemma {:induction false} ParseTopListSound(toks: seq<Symbol>, bottom: Symbol, p: Parsed)
    requires ValidTokens(toks)
    requires ParseTopList(toks, bottom) == Success(p)
    ensures toks[p.next].kind == Term(Eof) && Eof !in Terms(toks)[..p.next]
    ensures p.sym.kind == NonTerm(TopStatementList) && p.sym.left == bottom.right
    ensures p.sym.right == (if p.next == 0 then bottom.right else toks[p.next - 1].right)
    ensures forall s <- p.sym.value.stmts :: TopForm(s)
    ensures Terms(toks)[..p.next] == RenderList(p.sym.value.stmts)
    ensures BuiltList(p.sym.value.stmts, toks, 0)
  {
    var acc := ActEmptyTopList(bottom);
    assert ParseTopItems(toks, 0, acc) == Success(p);
    TopItemsSound(toks, 0, acc, p);
    TopItemsSpan(toks, 0, acc, p);
    assert p.sym.value.stmts[0..] == p.sym.value.stmts;
    RenderListHasNoEof(p.sym.value.stmts);
  }

  // ---------------------------------------------------------------------
  // Completeness: every token sequence the grammar derives is parsed, to its end

  lemma {:induction false} SliceSplit(ts: seq<Terminal>, a: nat, c: nat, x: seq<Terminal>, y: seq<Terminal>)
    requires a <= c <= |ts| && ts[a..c] == x + y
    ensures a + |x| <= c && ts[a..a + |x|] == x && ts[a + |x|..c] == y
  {
    assert ts[a..a + |x|] == ts[a..c][..|x|];
    assert ts[a + |x|..c] == ts[a..c][|x|..];
  }

  /** The converse of `EnclosedTerms`: a bracketed construct splits into its opening terminals, its middle and its closing terminal. */
  lemma {:induction false} Unenclosed(ts: seq<Terminal>, pos: nat, close: nat, open: seq<Terminal>, mid: seq<Terminal>, closing: Terminal)
    requires pos + |open| + |mid| == close < |ts| && ts[pos..close + 1] == open + mid + [closing]
    ensures forall i :: 0 <= i < |open| ==> ts[pos + i] == open[i]
    ensures ts[pos + |open|..close] == mid && ts[close] == closing
  {
    SliceSplit(ts, pos, close + 1, open + mid, [closing]);
    SliceSplit(ts, pos, close, open, mid);
    forall i | 0 <= i < |open|
      ensures ts[pos + i] == open[i]
    {
      assert ts[pos..pos + |open|][i] == ts[pos + i];
    }
  }

  /** Every statement derives at least one terminal; an inner statement starts with a variable or a string. */
  lemma {:induction false} RenderStart(s: Stmt)
    ensures |Render(s)| >= 1
    ensures InnerForm(s) ==> Render(s)[0] in {VariableTok, ConstantEncapsedString}
    ensures TopForm(s) ==> Render(s)[0] in {VariableTok, ConstantEncapsedString, TwigVarOpen, TwigStmtOpen}
  {
  }

  /** The terminals of a non-empty list: its head's, then its tail's, which start like its second element. */
  lemma {:induction false} ListHead(ts: seq<Terminal>, pos: nat, ss: seq<Stmt>)
    requires |ss| > 0 && pos + |RenderList(ss)| <= |ts| && ts[pos..pos + |RenderList(ss)|] == RenderList(ss)
    ensures var m := pos + |Render(ss[0])|;
      && m <= pos + |RenderList(ss)|
      && ts[pos..m] == Render(ss[0]) && ts[m..pos + |RenderList(ss)|] == RenderList(ss[1..])
      && (|ss| > 1 ==> m < |ts| && ts[m] == Render(ss[1])[0])
  {
    SliceSplit(ts, pos, pos + |RenderList(ss)|, Render(ss[0]), RenderList(ss[1..]));
    if |ss| > 1 {
      RenderStart(ss[1]);
      assert RenderList(ss[1..])[0] == Render(ss[1])[0];
    }
  }

  lemma {:induction false} InnerStatementComplete(toks: seq<Symbol>, pos: nat, s: Stmt)
    requires ValidTokens(toks) && InnerForm(s)
    requires pos + |Render(s)| < |toks| && Terms(toks)[pos..pos + |Render(s)|] == Render(s)
    requires toks[pos + |Render(s)|].kind != Term(OpenParenthese)
    ensures StartsInner(toks[pos])
    ensures ParseInnerStatement(toks, pos).Success?
    ensures ParseInnerStatement(toks, pos).value.next == pos + |Render(s)|
    decreases s, 1
  {
    RenderStart(s);
    assert Terms(toks)[pos] == Render(s)[0];
    if s.TwigCallExpression? {
      InnerCallComplete(toks, pos, s);
    }
  }

  /** The `function` case of `InnerStatementComplete`. */
  lemma {:induction false} InnerCallComplete(toks: seq<Symbol>, pos: nat, s: Stmt)
    requires ValidTokens(toks) && s.TwigCallExpression? && InnerForm(s)
    requires pos + |Render(s)| < |toks| && Terms(toks)[pos..pos + |Render(s)|] == Render(s)
    ensures ParseInnerStatement(toks, pos).Success?
    ensures ParseInnerStatement(toks, pos).value.next == pos + |Render(s)|
    decreases s, 0
  {
    var n := |RenderList(s.args)|;
    var ts := Terms(toks);
    Unenclosed(ts, pos, pos + 2 + n, [VariableTok, OpenParenthese], RenderList(s.args), CloseParenthese);
    assert toks[pos].kind == Term(VariableTok) && toks[pos + 1].kind == Term(OpenParenthese) by {
      assert ts[pos] == VariableTok && ts[pos + 1] == OpenParenthese;
      assert TokenOk(toks[pos]) && TokenOk(toks[pos + 1]);
    }
    assert toks[pos + 2 + n].kind == Term(CloseParenthese) by {
      assert TokenOk(toks[pos + 2 + n]);
    }
    var empty := ActEmptyInnerList(toks[pos + 1]);
    InnerItemsComplete(toks, pos + 2, pos + 2 + n, empty, s.args);
  }

  /**
   * The first statement of a list derived by `toks[pos..end]` is parsed where
   * the list starts, and the rest of the list is derived by what remains.
   */
  lemma {:induction false} InnerItemsHead(toks: seq<Symbol>, pos: nat, end: nat, acc: Symbol, ss: seq<Stmt>) returns (item: Parsed)
    requires ValidTokens(toks) && acc.value.List? && |ss| > 0 && forall s <- ss :: InnerForm(s)
    requires pos <= end < |toks| && end - pos == |RenderList(ss)| && Terms(toks)[pos..end] == RenderList(ss)
    requires !StartsInner(toks[end]) && toks[end].kind != Term(OpenParenthese)
    ensures IsStatementValue(item.sym.value) && pos < item.next <= end
    ensures end - item.next == |RenderList(ss[1..])| && Terms(toks)[item.next..end] == RenderList(ss[1..])
    ensures forall t <- ss[1..] :: InnerForm(t)
    ensures ParseInnerItems(toks, pos, acc) == ParseInnerItems(toks, item.next, ActAppendInner(acc, item.sym))
    decreases ss, 1
  {
    var s := ss[0];
    var m := pos + |Render(s)|;
    ListHead(Terms(toks), pos, ss);
    assert toks[m].kind != Term(OpenParenthese) by {
      if |ss| > 1 {
        RenderStart(ss[1]);
        assert TerminalOf(toks[m]) in {VariableTok, ConstantEncapsedString};
      }
    }
    InnerStatementComplete(toks, pos, s);
    item := ParseInnerStatement(toks, pos).value;
  }

  /** A list of inner statements derived by `toks[pos..end]`, followed by a token that cannot continue it, is parsed up to `end`. */
  lemma {:induction false} InnerItemsComplete(toks: seq<Symbol>, pos: nat, end: nat, acc: Symbol, ss: seq<Stmt>)
    requires ValidTokens(toks) && acc.value.List? && forall s <- ss :: InnerForm(s)
    requires pos <= end < |toks| && end - pos == |RenderList(ss)| && Terms(toks)[pos..end] == RenderList(ss)
    requires !StartsInner(toks[end]) && toks[end].kind != Term(OpenParenthese)
    ensures ParseInnerItems(toks, pos, acc).Success? && ParseInnerItems(toks, pos, acc).value.next == end
    decreases ss, 2
  {
    if |ss| > 0 {
      var item := InnerItemsHead(toks, pos, end, acc, ss);
      InnerItemsComplete(toks, item.next, end, ActAppendInner(acc, item.sym), ss[1..]);
    } else {
      assert ParseInnerItems(toks, pos, acc) == Success(Parsed(acc, pos));
    }
  }

  lemma {:induction false} TopStatementComplete(toks: seq<Symbol>, pos: nat, s: Stmt)
    requires ValidTokens(toks) && TopForm(s)
    requires pos + |Render(s)| < |toks| && Terms(toks)[pos..pos + |Render(s)|] == Render(s)
    ensures StartsTop(toks[pos])
    ensures ParseTopStatement(toks, pos).Success?
    ensures ParseTopStatement(toks, pos).value.next == pos + |Render(s)|
  {
    RenderStart(s);
    assert Terms(toks)[pos] == Render(s)[0];
    if s.PrintStatement? {
      TopPrintComplete(toks, pos, s);
    } else if s.BlockStatement? {
      TopBlockComplete(toks, pos, s);
    }
  }

  /** The `var` case of `TopStatementComplete`. */
  lemma {:induction false} TopPrintComplete(toks: seq<Symbol>, pos: nat, s: Stmt)
    requires ValidTokens(toks) && s.PrintStatement? && TopForm(s)
    requires pos + |Render(s)| < |toks| && Terms(toks)[pos..pos + |Render(s)|] == Render(s)
    ensures ParseTopStatement(toks, pos).Success?
    ensures ParseTopStatement(toks, pos).value.next == pos + |Render(s)|
  {
    var n := |RenderList(s.inner)|;
    var ts := Terms(toks);
    Unenclosed(ts, pos, pos + 1 + n, [TwigVarOpen], RenderList(s.inner), TwigVarClose);
    assert toks[pos].kind == Term(TwigVarOpen) && toks[pos + 1 + n].kind == Term(TwigVarClose) by {
      assert ts[pos] == TwigVarOpen;
      assert TokenOk(toks[pos]) && TokenOk(toks[pos + 1 + n]);
    }
    var empty := ActEmptyInnerList(toks[pos]);
    InnerItemsComplete(toks, pos + 1, pos + 1 + n, empty, s.inner);
  }

  /** The `block` case of `TopStatementComplete`. */
  lemma {:induction false} TopBlockComplete(toks: seq<Symbol>, pos: nat, s: Stmt)
    requires ValidTokens(toks) && s.BlockStatement? && TopForm(s)
    requires pos + |Render(s)| < |toks| && Terms(toks)[pos..pos + |Render(s)|] == Render(s)
    ensures ParseTopStatement(toks, pos).Success?
    ensures ParseTopStatement(toks, pos).value.next == pos + |Render(s)|
  {
    var n := |RenderList(s.inner)|;
    var ts := Terms(toks);
    Unenclosed(ts, pos, pos + 2 + n, [TwigStmtOpen, BlockName], RenderList(s.inner), TwigStmtClose);
    assert toks[pos].kind == Term(TwigStmtOpen) && toks[pos + 1].kind == Term(BlockName) by {
      assert ts[pos] == TwigStmtOpen && ts[pos + 1] == BlockName;
      assert TokenOk(toks[pos]) && TokenOk(toks[pos + 1]);
    }
    assert toks[pos + 2 + n].kind == Term(TwigStmtClose) by {
      assert TokenOk(toks[pos + 2 + n]);
    }
    var empty := ActEmptyInnerList(toks[pos + 1]);
    InnerItemsComplete(toks, pos + 2, pos + 2 + n, empty, s.inner);
  }

  /**
   * The first statement of a list derived by `toks[pos..end]` is parsed where
   * the list starts, and the rest of the list is derived by what remains.
   */
  lemma {:induction false} TopItemsHead(toks: seq<Symbol>, pos: nat, end: nat, acc: Symbol, ss: seq<Stmt>) returns (item: Parsed)
    requires ValidTokens(toks) && acc.value.List? && |ss| > 0 && forall s <- ss :: TopForm(s)
    requires pos <= end < |toks| && end - pos == |RenderList(ss)| && Terms(toks)[pos..end] == RenderList(ss)
    ensures IsStatementValue(item.sym.value) && pos < item.next <= end
    ensures end - item.next == |RenderList(ss[1..])| && Terms(toks)[item.next..end] == RenderList(ss[1..])
    ensures forall t <- ss[1..] :: TopForm(t)
    ensures ParseTopItems(toks, pos, acc) == ParseTopItems(toks, item.next, ActAppendTop(acc, item.sym))
  {
    var s := ss[0];
    ListHead(Terms(toks), pos, ss);
    TopStatementComplete(toks, pos, s);
    item := ParseTopStatement(toks, pos).value;
  }

  /** A list of top statements derived by `toks[pos..end]`, followed by a token that cannot continue it, is parsed up to `end`. */
  lemma {:induction false} TopItemsComplete(toks: seq<Symbol>, pos: nat, end: nat, acc: Symbol, ss: seq<Stmt>)
    requires ValidTokens(toks) && acc.value.List? && forall s <- ss :: TopForm(s)
    requires pos <= end < |toks| && end - pos == |RenderList(ss)| && Terms(toks)[pos..end] == RenderList(ss)
    requires !StartsTop(toks[end])
    ensures ParseTopItems(toks, pos, acc).Success? && ParseTopItems(toks, pos, acc).value.next == end
    decreases |ss|
  {
    if |ss| > 0 {
      var item := TopItemsHead(toks, pos, end, acc, ss);
      TopItemsComplete(toks, item.next, end, ActAppendTop(acc, item.sym), ss[1..]);
    } else {
      assert ParseTopItems(toks, pos, acc) == Success(Parsed(acc, pos));
    }
  }

  /** Tokens that a list of top statements derives, then EOF, are parsed up to that EOF. */
  lemma {:induction false} ParseTopListComplete(toks: seq<Symbol>, bottom: Symbol, ss: seq<Stmt>)
    requires ValidTokens(toks) && forall s <- ss :: TopForm(s)
    requires |RenderList(ss)| < |toks| && Terms(toks)[..|RenderList(ss)|] == RenderList(ss)
    requires toks[|RenderList(ss)|].kind == Term(Eof)
    ensures ParseTopList(toks, bottom).Success?
    ensures ParseTopList(toks, bottom).value.next == |RenderList(ss)|
  {
    assert Terms(toks)[0..|RenderList(ss)|] == Terms(toks)[..|RenderList(ss)|];
    TopItemsComplete(toks, 0, |RenderList(ss)|, ActEmptyTopList(bottom), ss);
  }

  /** The parser accepts exactly the inputs whose tokens before an EOF form a list of top statements. */
  lemma {:induction false} ParseTopListAccepts(toks: seq<Symbol>, bottom: Symbol)
    requires ValidTokens(toks)
    ensures ParseTopList(toks, bottom).Success? <==>
      exists ss :: && (forall s <- ss :: TopForm(s))
                   && |RenderList(ss)| < |toks| && Terms(toks)[..|RenderList(ss)|] == RenderList(ss)
                   && toks[|RenderList(ss)|].kind == Term(Eof)
  {
    var r := ParseTopList(toks, bottom);
    if r.Success? {
      ParseTopListSound(toks, bottom, r.value);
      var ss := r.value.sym.value.stmts;
      assert |RenderList(ss)| == r.value.next;
    } else if ss :| && (forall s <- ss :: TopForm(s))
                    && |RenderList(ss)| < |toks| && Terms(toks)[..|RenderList(ss)|] == RenderList(ss)
                    && toks[|RenderList(ss)|].kind == Term(Eof) {
      ParseTopListComplete(toks, bottom, ss);
    }
  }

  // ---------------------------------------------------------------------
  // Examples

  function Tok(t: Terminal, left: Int32, right: Int32): Symbol {
    Symbol(Term(t), left, right, NullValue)
  }

  /** An input that is only EOF yields the empty list, zero-width after the bottom entry. */
  lemma {:induction false} EmptyInputExample(bottom: Symbol)
    ensures ParseTopList([Tok(Eof, 0, 0)], bottom) == Success(Parsed(ActEmptyTopList(bottom), 0))
  {
  }

  /** `{{  }}`: one print statement with no inner statements, spanning both delimiters. */
  lemma {:induction false} EmptyPrintExample(bottom: Symbol)
    ensures var toks := [Tok(TwigVarOpen, 0, 2), Tok(TwigVarClose, 4, 6), Tok(Eof, 6, 6)];
      && ParseTopList(toks, bottom).Success?
      && ParseTopList(toks, bottom).value.sym.value == List([PrintStatement(0, 6, [])])
  {
    var toks := [Tok(TwigVarOpen, 0, 2), Tok(TwigVarClose, 4, 6), Tok(Eof, 6, 6)];
    var inner := ParseInnerItems(toks, 1, ActEmptyInnerList(toks[0]));
    assert inner == Success(Parsed(ActEmptyInnerList(toks[0]), 1));
    var top := ParseTopStatement(toks, 0);
    assert top.Success? && top.value.next == 2;
    var items := ParseTopItems(toks, 0, ActEmptyTopList(bottom));
    assert items == ParseTopItems(toks, 2, ActAppendTop(ActEmptyTopList(bottom), top.value.sym));
  }

  /** `{% %}`: a statement tag without a block name is a syntax error at its closing delimiter. */
  lemma {:induction false} EmptyControlStatementExample(bottom: Symbol)
    ensures var toks := [Tok(TwigStmtOpen, 0, 2), Tok(TwigStmtClose, 3, 5), Tok(Eof, 5, 5)];
      ParseTopList(toks, bottom) == Failure(toks[1])
  {
    var toks := [Tok(TwigStmtOpen, 0, 2), Tok(TwigStmtClose, 3, 5), Tok(Eof, 5, 5)];
    assert ParseTopStatement(toks, 0) == Failure(toks[1]);
  }

  /** The tokens of `{{ foo(bar) }}`. */
  function CallTokens(): (toks: seq<Symbol>)
    ensures ValidTokens(toks) && |toks| == 7
  {
    [Tok(TwigVarOpen, 0, 2), Symbol(Term(VariableTok), 3, 6, Text("foo")),
     Tok(OpenParenthese, 6, 7), Symbol(Term(VariableTok), 7, 10, Text("bar")),
     Tok(CloseParenthese, 10, 11), Tok(TwigVarClose, 12, 14), Tok(Eof, 14, 14)]
  }

  /** In `{{ foo(bar) }}`, the argument list after the parenthesis is the one variable `bar`. */
  lemma {:induction false} CallArgumentsExample()
    ensures var args := ParseInnerItems(CallTokens(), 3, ActEmptyInnerList(CallTokens()[2]));
      args.Success? && args.value.next == 4 && args.value.sym.value.stmts == [Variable(7, 10, "bar")]
  {
    var toks := CallTokens();
    var bar := ParseInnerStatement(toks, 3);
    assert bar == Success(Parsed(ActInnerStatement(ActVariableStatement(toks[3])), 4));
    var acc := ActAppendInner(ActEmptyInnerList(toks[2]), bar.value.sym);
    assert ParseInnerItems(toks, 3, ActEmptyInnerList(toks[2])) == ParseInnerItems(toks, 4, acc);
    assert ParseInnerItems(toks, 4, acc) == Success(Parsed(acc, 4));
  }

  /** In `{{ foo(bar) }}`, the call node starts at its parenthesis and ends at the closing one. */
  lemma {:induction false} CallNodeExample()
    ensures var call := ParseInnerStatement(CallTokens(), 1);
      && call.Success? && call.value.next == 5
      && call.value.sym.value == Node(TwigCallExpression(6, 11, "foo", [Variable(7, 10, "bar")]))
  {
    var toks := CallTokens();
    CallArgumentsExample();
    var args := ParseInnerItems(toks, 3, ActEmptyInnerList(toks[2])).value;
    var f := ActFunction(toks[1], toks[2], args.sym, toks[4]);
    assert ParseInnerStatement(toks, 1) == Success(Parsed(ActInnerFunction(f), 5));
  }

  /** `{{ foo(bar) }}`: one print statement holding the call, whose argument is the variable. */
  lemma {:induction false} CallExample(bottom: Symbol)
    ensures ParseTopList(CallTokens(), bottom).Success?
    ensures ParseTopList(CallTokens(), bottom).value.sym.value.stmts ==
              [PrintStatement(0, 14, [TwigCallExpression(6, 11, "foo", [Variable(7, 10, "bar")])])]
  {
    var toks := CallTokens();
    CallNodeExample();
    var call := ParseInnerStatement(toks, 1).value;
    var acc := ActAppendInner(ActEmptyInnerList(toks[0]), call.sym);
    var list := ParseInnerItems(toks, 1, ActEmptyInnerList(toks[0]));
    assert list == ParseInnerItems(toks, 5, acc);
    assert ParseInnerItems(toks, 5, acc) == Success(Parsed(acc, 5));
    var top := ParseTopStatement(toks, 0);
    assert top == Success(Parsed(ActTopVar(ActVar(toks[0], acc, toks[5])), 6));
    var tacc := ActAppendTop(ActEmptyTopList(bottom), top.value.sym);
    assert ParseTopItems(toks, 0, ActEmptyTopList(bottom)) == ParseTopItems(toks, 6, tacc);
    assert ParseTopItems(toks, 6, tacc) == Success(Parsed(tacc, 6));
  }
}
