/**
 * The parser object: the module declaration the actions fill in, the
 * `done_parsing` flag the accepting action sets, the action dispatcher and the
 * error reporters.
 */
module TwigParser {

  import opened Wrappers
  import opened JavaInt
  import opened TwigAst
  import opened TwigActions
  import opened TwigErrors
  import opened TwigGrammar

  class TwigAstParser {
    /** The declaration `getModuleDeclaration()` hands to action 0. */
    const moduleDeclaration: TwigModuleDeclaration
    /**
     * Set by `done_parsing()`, which the accepting action 1 calls, and which
     * the driver calls after a syntax error it cannot recover from.
     */
    var doneParsing: bool

    constructor(decl: TwigModuleDeclaration)
      ensures moduleDeclaration == decl && !doneParsing
    {
      moduleDeclaration := decl;
      doneParsing := false;
    }

    /**
     * `do_action`: the symbol of action `act` for the stack entries below
     * `top`, or the exception for an action number outside the table.
     * Action 0 stores the statement list in the module declaration; action 1
     * ends the parse.
     */
    method DoAction(act: int, stack: seq<Symbol>, top: int) returns (r: Result<Symbol, string>)
      requires Fits(act, stack, top)
      modifies this, moduleDeclaration
      ensures r == Reduction(act, stack, top, moduleDeclaration)
      ensures r.Failure? <==> !(0 <= act < |ProductionTable|)
      ensures moduleDeclaration.statements ==
        (if act == 0 then stack[top].value.stmts else old(moduleDeclaration.statements))
      ensures doneParsing == (old(doneParsing) || act == 1)
    {
      ReductionMatchesTable(act, stack, top, moduleDeclaration);
      if act == 0 {
        moduleDeclaration.SetStatements(stack[top].value.stmts);
      } else if act == 1 {
        doneParsing := true;
      }
      r := Reduction(act, stack, top, moduleDeclaration);
    }

    /**
     * `report_error`: the line written to standard error, "Error", the
     * position when `info` is a symbol, " : " and the message, then the
     * parser's own " tralala" marker.
     */
    method ReportError(message: string, info: Info) returns (line: string)
      ensures line == ErrorText(message, info) + " tralala"
    {
      var m := "Error";
      if info.SymbolInfo? {
        var s := info.sym;
        if s.left >= 0 {
          var line := IntToString(AddInt32(s.left, 1));
          LineAppended(line);
          m := m + (" in line " + line);
          if s.right >= 0 {
            var column := IntToString(AddInt32(s.right, 1));
            PartAppended(m, ", column ", column);
            m := m + (", column " + column);
          }
        }
      }
      assert m == ErrorHead(info);
      PartAppended(m, " : ", message);
      m := m + (" : " + message);
      line := m + " tralala";
    }

    /** `report_fatal_error`: reports like `report_error` and does not stop anything itself. */
    method ReportFatalError(message: string, info: Info) returns (line: string)
      ensures line == ErrorText(message, info) + " tralala"
    {
      line := ReportError(message, info);
    }

    /**
     * A whole parse of `toks`: the statement list is reduced to `module`
     * (action 0), which fills the module declaration, and then accepted with
     * EOF (action 1). On a syntax error the offending token comes back, the
     * declaration keeps the statements it had, and parsing is marked done:
     * the grammar has no `error` productions, so the error is not recovered,
     * and `report_fatal_error` returns instead of throwing.
     */
    method Parse(toks: seq<Symbol>, bottom: Symbol) returns (r: Result<Symbol, Symbol>)
      requires ValidTokens(toks)
      modifies this, moduleDeclaration
      ensures r.Success? <==> ParseTopList(toks, bottom).Success?
      ensures r.Success? ==>
        && moduleDeclaration.statements == ParseTopList(toks, bottom).value.sym.value.stmts
        && doneParsing
        && r.value.kind == NonTerm(Start) && r.value.value == ModuleRef(moduleDeclaration)
        && r.value.right == toks[ParseTopList(toks, bottom).value.next].right
      ensures r.Failure? ==>
        && r == Failure(ParseTopList(toks, bottom).error)
        && moduleDeclaration.statements == old(moduleDeclaration.statements)
        && doneParsing
    {
      var list := ParseTopList(toks, bottom);
      if list.Failure? {
        doneParsing := true;
        return Failure(list.error);
      }
      var reduced := DoAction(0, [bottom, list.value.sym], 1);
      var eof := toks[list.value.next];
      var accepted := DoAction(1, [bottom, reduced.value, eof], 2);
      r := Success(accepted.value);
    }
  }

  /** A parse that succeeds leaves in the module exactly the statements the tokens before EOF derive. */
  lemma {:induction false} ParsedModuleDerivesInput(toks: seq<Symbol>, bottom: Symbol)
    requires ValidTokens(toks) && ParseTopList(toks, bottom).Success?
    ensures var p := ParseTopList(toks, bottom).value;
      && (forall s <- p.sym.value.stmts :: TopForm(s))
      && Terms(toks)[..p.next] == RenderList(p.sym.value.stmts)
  {
    ParseTopListSound(toks, bottom, ParseTopList(toks, bottom).value);
  }
}
