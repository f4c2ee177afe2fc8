# Twig editor support: AST parser and completion context

This project models two sequential components of the Twig editor plug-in and
proves properties about them.

**`TwigAstParser`** is the parser for Twig templates that builds the AST.
- Its grammar is the one in the semantic-action comments: `module`,
  `top_statement_list`, `top_statement`, `var`, `block`,
  `inner_statement_list`, `inner_statement`, `function`, `statement`.
- Each of its sixteen actions builds a grammar symbol, `Symbol(kind, left,
  right, value)`, from the symbols on the parse stack.
- Depending on the action, that symbol holds one of:
  - an AST node: `StringLiteral`, `Variable`, `TwigCallExpression`,
    `BlockStatement` or `PrintStatement`;
  - a statement list;
  - the module declaration.
- `report_error` formats the diagnostic line.

The model is built from these modules:
- `TwigAst` holds the symbols, terminals and statements, and the mutable
  module declaration (`twig_ast.dfy`).
- `TwigActions` has one function per production and the dispatch over action
  numbers (`twig_actions.dfy`). It is checked against the production table
  (left-hand side and right-hand-side length).
- `TwigGrammar` is a recursive-descent parser for exactly this grammar
  (`twig_grammar.dfy`). `T_VARIABLE` and `T_VARIABLE (` are left-factored, and
  every symbol is built through the action functions.
- `JavaInt` holds Java's 32-bit `int` range and its wrapping addition
  (`java_int.dfy`). The symbol positions of the parser and the loop bound of
  `getPreviousWord(int)` use it.
- `TwigErrors` is the error-text formatter (`twig_errors.dfy`), including the
  32-bit `left + 1`.
- `TwigParser.TwigAstParser` is the parser object (`twig_parser.dfy`).

**`TwigCompletionContext`** resolves the Twig script region under the cursor
of a structured document, then answers lexical queries.
- Its region lookup works like this:
  - it scans backwards from the offset for a document region, with a special
    case at the end of the document;
  - it descends at most one container level;
  - it accepts only a Twig script region.
- Its text queries work on the statement text before the cursor:
  - whitespace before the cursor;
  - the prefix being typed;
  - the previous word, including the skip-the-partial-word asymmetry.
- Its token queries work on the script region's tokens:
  - the token under an absolute offset;
  - the prefix end;
  - the next token, skipping whitespace and comments;
  - the next word and the next character.

The model is built from these modules:
- `StructuredText` holds documents, document regions, text regions, tokens and
  the lookups on them (`structured_text.dfy`).
- `TextScan` holds the backward scanners `readBackwardSpaces` and
  `readIdentifierStartIndex`, and the text queries over the statement text
  (`text_scan.dfy`).
- `TwigCompletion` holds the class `TwigCompletionContext`
  (`twig_completion.dfy`):
  - its fields are those the source assigns;
  - `isValid` and `determineTwigRegion` update them;
  - the loops of the source are methods with loop invariants.

`Wrappers` (`wrappers.dfy`) holds `Option` and `Result`. Exceptions, `null`
results and null dereferences of the source are `Failure` values:
- `Fault.NoContext` is a field still `null`;
- `Fault.NoToken` is a region without tokens, or a `null` token;
- `Fault.BadLocation` is the `BadLocationException` of a document or token
  lookup.

## Model

Paths are relative to the repository root.

| member | source | states |
|---|---|---|
| TwigAst.TwigModuleDeclaration.SetStatements | com.dubture.twig.core/src/com/dubture/twig/core/parser/ast/TwigAstParser.java:454-455 | the module's statements become exactly the given list |
| TwigAst.NonTerminalIndex | com.dubture.twig.core/src/com/dubture/twig/core/parser/ast/TwigAstParser.java:32-39 | every non-terminal has a left-hand-side number below 10, as in the production table |
| TwigActions.AppendNonNull | com.dubture.twig.core/src/com/dubture/twig/core/parser/ast/TwigAstParser.java:294-310 | appending keeps the old list as a prefix; it adds exactly the one item when it is a node, and nothing when it is null |
| TwigActions.ReductionMatchesTable | com.dubture.twig.core/src/com/dubture/twig/core/parser/ast/TwigAstParser.java:32-39 | each action 0–15 succeeds and yields the non-terminal the production table names; any other action number fails with the "Invalid action number" error |
| TwigActions.ReductionSpan | com.dubture.twig.core/src/com/dubture/twig/core/parser/ast/TwigAstParser.java:204-461 | each reduction's symbol runs from the left of its first right-hand-side entry to the right of the top entry; empty productions are zero-width at `stack[top].right` |
| TwigActions.NodeSpan | com.dubture.twig.core/src/com/dubture/twig/core/parser/ast/TwigAstParser.java:204-250 | `statement`, `var` and `block` nodes span exactly their symbol; the call node starts at the open parenthesis, while the `function` symbol starts at the callee name |
| TwigActions.UnitPassThrough | com.dubture.twig.core/src/com/dubture/twig/core/parser/ast/TwigAstParser.java:255-282 | the unit productions (`inner_statement`, `top_statement`) pass the value and span of their one entry through unchanged |
| TwigActions.ListReduction | com.dubture.twig.core/src/com/dubture/twig/core/parser/ast/TwigAstParser.java:283-310 | empty list productions give a fresh empty list; append productions give the old list followed by the item when it is a node |
| TwigActions.ReductionReadsWindow | com.dubture.twig.core/src/com/dubture/twig/core/parser/ast/TwigAstParser.java:100-110 | a reduction depends only on the top right-hand-side-length entries of the stack (at least one, for the empty productions' `top.right`) |
| JavaInt.AddInt32 | com.dubture.twig.core/src/com/dubture/twig/core/parser/ast/TwigAstParser.java:149 | Java `int` addition: the mathematical sum, wrapped by 2^32 when it leaves the 32-bit range |
| TwigErrors.NatToString | com.dubture.twig.core/src/com/dubture/twig/core/parser/ast/TwigAstParser.java:149 | the decimal rendering is non-empty, all digits, with no leading zero |
| TwigErrors.IntToStringRoundTrip | com.dubture.twig.core/src/com/dubture/twig/core/parser/ast/TwigAstParser.java:149-155 | the rendering of an `int` in a string concatenation reads back as the same number |
| TwigErrors.ErrorTextFrame | com.dubture.twig.core/src/com/dubture/twig/core/parser/ast/TwigAstParser.java:131-162 | every error text starts with "Error" and ends with " : " and the message |
| TwigErrors.ErrorTextWithoutPosition | com.dubture.twig.core/src/com/dubture/twig/core/parser/ast/TwigAstParser.java:131-162 | with non-symbol info, or a negative `left`, the text is exactly "Error : " and the message |
| TwigErrors.ErrorTextPosition | com.dubture.twig.core/src/com/dubture/twig/core/parser/ast/TwigAstParser.java:146-155 | with `0 <= left < Integer.MAX_VALUE` the text is "Error in line ", the line, the column part and " : " with the message; the line reads back as `left + 1`; the column part is empty when `right < 0`, and otherwise ", column " followed by digits that read back as Java's `right + 1` |
| TwigErrors.ColumnPartShown | com.dubture.twig.core/src/com/dubture/twig/core/parser/ast/TwigAstParser.java:150-155 | the column text is empty for `right < 0`, and otherwise ", column " followed by digits that read back as Java's `right + 1` |
| TwigErrors.ErrorTextLineWraps | com.dubture.twig.core/src/com/dubture/twig/core/parser/ast/TwigAstParser.java:146-155 | at `left == Integer.MAX_VALUE` the line shown wraps to `Integer.MIN_VALUE`; the column part follows as for any other `left >= 0` |
| TwigParser.TwigAstParser.DoAction | com.dubture.twig.core/src/com/dubture/twig/core/parser/ast/TwigAstParser.java:100-110 | dispatches to the action's production; only action 0 changes the module's statements (to the top list) and only action 1 marks parsing done |
| TwigParser.TwigAstParser.ReportError | com.dubture.twig.core/src/com/dubture/twig/core/parser/ast/TwigAstParser.java:131-166 | the line written is the error text followed by " tralala" |
| TwigParser.TwigAstParser.ReportFatalError | com.dubture.twig.core/src/com/dubture/twig/core/parser/ast/TwigAstParser.java:173-176 | writes the same line as `report_error`, and does not abort |
| TwigParser.TwigAstParser.Parse | com.dubture.twig.core/src/com/dubture/twig/core/parser/ast/TwigAstParser.java:433-457 | acceptance happens exactly when the statement list parses up to EOF; the module then holds exactly that list; on a syntax error the offending token is returned, the module is unchanged and parsing is marked done |
| TwigParser.ParsedModuleDerivesInput | com.dubture.twig.core/src/com/dubture/twig/core/parser/ast/TwigAstParser.java:402-457 | the module's statements are top-level statements whose terminals are exactly the input before EOF |
| TwigGrammar.StatementSound | com.dubture.twig.core/src/com/dubture/twig/core/parser/ast/TwigAstParser.java:204-227 | a `statement` is a `StringLiteral` or a `Variable` whose start, end and text are its token's `left`, `right` and value |
| TwigGrammar.InnerStatementSound | com.dubture.twig.core/src/com/dubture/twig/core/parser/ast/TwigAstParser.java:232-282 | an inner statement spans exactly its tokens and its node derives exactly those tokens |
| TwigGrammar.InnerItemsSound | com.dubture.twig.core/src/com/dubture/twig/core/parser/ast/TwigAstParser.java:294-310 | the inner list loop keeps the old list as a prefix; the added nodes derive exactly the tokens consumed, in order |
| TwigGrammar.InnerListSound | com.dubture.twig.core/src/com/dubture/twig/core/parser/ast/TwigAstParser.java:283-310 | an inner list started empty holds only inner statements, which derive exactly the tokens it consumed |
| TwigGrammar.InnerItemsSpan | com.dubture.twig.core/src/com/dubture/twig/core/parser/ast/TwigAstParser.java:283-310 | the list stops at a token that cannot start an inner statement; its symbol ends at the last token consumed |
| TwigGrammar.TopStatementSound | com.dubture.twig.core/src/com/dubture/twig/core/parser/ast/TwigAstParser.java:315-400 | a top statement spans exactly its tokens and its node derives exactly those tokens |
| TwigGrammar.TopPrintSound | com.dubture.twig.core/src/com/dubture/twig/core/parser/ast/TwigAstParser.java:339-355 | `var` builds `PrintStatement(open.left, close.right, inner)`, and its symbol span equals the node span |
| TwigGrammar.TopBlockSound | com.dubture.twig.core/src/com/dubture/twig/core/parser/ast/TwigAstParser.java:315-334 | `block` builds `BlockStatement(open.left, close.right, name, inner)`, and its symbol span equals the node span |
| TwigGrammar.InnerCallSound | com.dubture.twig.core/src/com/dubture/twig/core/parser/ast/TwigAstParser.java:232-250 | the call node keeps the callee name and argument list and spans from the open to the close parenthesis |
| TwigGrammar.TopItemsSound | com.dubture.twig.core/src/com/dubture/twig/core/parser/ast/TwigAstParser.java:413-428 | the top list loop keeps the old list as a prefix; the added nodes derive exactly the tokens consumed, in order |
| TwigGrammar.TopItemsSpan | com.dubture.twig.core/src/com/dubture/twig/core/parser/ast/TwigAstParser.java:402-428 | the top list stops at a token that cannot start a top statement |
| TwigGrammar.ParseTopListSound | com.dubture.twig.core/src/com/dubture/twig/core/parser/ast/TwigAstParser.java:402-428 | a successful parse stops at the first EOF; its nodes derive exactly the tokens before it; the list spans them, zero-width after the bottom entry when empty |
| TwigGrammar.InnerItemsComplete | com.dubture.twig.core/src/com/dubture/twig/core/parser/ast/TwigAstParser.java:283-310 | tokens that a list of inner statements derives are parsed exactly up to its end |
| TwigGrammar.TopItemsComplete | com.dubture.twig.core/src/com/dubture/twig/core/parser/ast/TwigAstParser.java:402-428 | tokens that a list of top statements derives are parsed exactly up to its end |
| TwigGrammar.ParseTopListComplete | com.dubture.twig.core/src/com/dubture/twig/core/parser/ast/TwigAstParser.java:402-447 | every list of top statements, followed by EOF, is accepted |
| TwigGrammar.ParseTopListAccepts | com.dubture.twig.core/src/com/dubture/twig/core/parser/ast/TwigAstParser.java:402-447 | the parser accepts exactly the inputs whose tokens before an EOF derive from a list of top statements |
| TwigGrammar.RenderListHasNoEof | com.dubture.twig.core/src/com/dubture/twig/core/parser/ast/TwigAstParser.java:433-446 | no statement derives EOF, so acceptance happens only at `$START ::= module EOF` |
| TwigGrammar.EmptyInputExample | com.dubture.twig.core/src/com/dubture/twig/core/parser/ast/TwigAstParser.java:402-408 | an input of only EOF gives the empty list, zero-width at the bottom entry's `right` |
| TwigGrammar.EmptyPrintExample | com.dubture.twig.test/src/com/dubture/twig/test/testcases/TwigParserTest.java:120-124 | `{{ }}` gives one `PrintStatement` with no inner statements, spanning both delimiters |
| TwigGrammar.EmptyControlStatementExample | com.dubture.twig.core/src/com/dubture/twig/core/parser/ast/TwigAstParser.java:315 | `{% %}` is a syntax error at `%}`, because `block` requires a block name |
| TwigGrammar.CallExample | com.dubture.twig.core/src/com/dubture/twig/core/parser/ast/TwigAstParser.java:232-250 | `{{ foo(bar) }}` gives one print statement holding the call `foo`, which starts at `(`, ends at `)` and has the variable `bar` as its argument |
| TextScan.ReadBackwardSpaces | org.eclipse.twig.core/src/org/eclipse/twig/core/codeassist/TwigCompletionContext.java:367-369 | a non-positive start comes back unchanged; otherwise the result lies in `[0, start]` |
| TextScan.BackwardSpacesRun | org.eclipse.twig.core/src/org/eclipse/twig/core/codeassist/TwigCompletionContext.java:367-369 | the skipped text is all whitespace, and the scan stops at text start or at a non-whitespace character |
| TextScan.BackwardSpacesStopAt | org.eclipse.twig.core/src/org/eclipse/twig/core/codeassist/TwigCompletionContext.java:367-369 | the whitespace scan result is the unique maximal whitespace run |
| TextScan.IdentifierRun | org.eclipse.twig.core/src/org/eclipse/twig/core/codeassist/TwigCompletionContext.java:504-505 | the identifier run is all identifier characters and maximal |
| TextScan.IdentifierRunStopsAt | org.eclipse.twig.core/src/org/eclipse/twig/core/codeassist/TwigCompletionContext.java:504-505 | the identifier scan result is the unique maximal run |
| TextScan.ReadIdentifierStartIndex | org.eclipse.twig.core/src/org/eclipse/twig/core/codeassist/TwigCompletionContext.java:504-505 | a non-positive start comes back unchanged; otherwise the result lies in `[0, start]` |
| TextScan.IdentifierStartShape | org.eclipse.twig.core/src/org/eclipse/twig/core/codeassist/TwigCompletionContext.java:504-505 | the scanned text is an identifier with an optional leading `$`, and nothing more of one precedes it |
| TextScan.HasWhitespaceBeforeCursor | org.eclipse.twig.core/src/org/eclipse/twig/core/codeassist/TwigCompletionContext.java:362-370 | true exactly when the statement text ends in a whitespace character |
| TextScan.Prefix | org.eclipse.twig.core/src/org/eclipse/twig/core/codeassist/TwigCompletionContext.java:496-507 | empty after whitespace; otherwise a suffix of the statement text, shaped like an identifier, and maximal |
| TextScan.PrefixIsTypedWord | org.eclipse.twig.core/src/org/eclipse/twig/core/codeassist/TwigCompletionContext.java:496-507 | without whitespace before the cursor, the prefix is the whole identifier being typed |
| TextScan.PrefixExample | org.eclipse.twig.core/src/org/eclipse/twig/core/codeassist/TwigCompletionContext.java:496-507 | the prefix of `foo.b` is `b` |
| TextScan.PrefixAfterSpaceExample | org.eclipse.twig.core/src/org/eclipse/twig/core/codeassist/TwigCompletionContext.java:496-507 | the prefix of `foo. ` is empty |
| TextScan.WordBetween | org.eclipse.twig.core/src/org/eclipse/twig/core/codeassist/TwigCompletionContext.java:418-421 | bounds with `0 <= wordStart <= wordEnd` give exactly the text between them; any other bounds give "" |
| TextScan.WordBeforeShape | org.eclipse.twig.core/src/org/eclipse/twig/core/codeassist/TwigCompletionContext.java:399-403 | the word bounds enclose an identifier followed only by whitespace up to the start |
| TextScan.PreviousWord | org.eclipse.twig.core/src/org/eclipse/twig/core/codeassist/TwigCompletionContext.java:396-424 | the result is empty or a slice of the statement text shaped like an identifier |
| TextScan.PreviousWordAfterSpace | org.eclipse.twig.core/src/org/eclipse/twig/core/codeassist/TwigCompletionContext.java:396-424 | with whitespace before the cursor, the previous word is the last word |
| TextScan.PreviousWordSkipsTypedWord | org.eclipse.twig.core/src/org/eclipse/twig/core/codeassist/TwigCompletionContext.java:410-423 | without whitespace before the cursor, the partial word (possibly empty, right after the separator) and one separator are skipped, and the word before them is returned |
| TextScan.PreviousWordAfterSeparatorExample | org.eclipse.twig.core/src/org/eclipse/twig/core/codeassist/TwigCompletionContext.java:396-424 | the previous word of `foo.`, with the cursor right after the dot, is `foo` |
| TextScan.PreviousWordExample | org.eclipse.twig.core/src/org/eclipse/twig/core/codeassist/TwigCompletionContext.java:396-424 | the previous word of `foo bar` is `foo`, not the partial `bar` |
| TextScan.ExtraSteps | org.eclipse.twig.core/src/org/eclipse/twig/core/codeassist/TwigCompletionContext.java:440 | the loop runs `times - 1` times for `Integer.MIN_VALUE < times`, none when that is not positive, and `Integer.MAX_VALUE` times at `Integer.MIN_VALUE`, where Java's `times - 1` wraps |
| TextScan.PreviousWordTimes | org.eclipse.twig.core/src/org/eclipse/twig/core/codeassist/TwigCompletionContext.java:431-468 | the loop steps back `ExtraSteps(times)` words, the Java `int` bound `times - 1`, and then finishes as `getPreviousWord()` does |
| TextScan.PreviousWordTimesOne | org.eclipse.twig.core/src/org/eclipse/twig/core/codeassist/TwigCompletionContext.java:431-468 | `getPreviousWord(t)` for `Integer.MIN_VALUE < t <= 1` equals `getPreviousWord()` |
| TextScan.SecondPreviousWord | org.eclipse.twig.core/src/org/eclipse/twig/core/codeassist/TwigCompletionContext.java:431-468 | with whitespace before the cursor, one loop step lands on the bounds of the word before the last, and `getPreviousWord(2)` is that word |
| TextScan.BoundsStayAtStart | org.eclipse.twig.core/src/org/eclipse/twig/core/codeassist/TwigCompletionContext.java:440-447 | once the word bounds reach the text start, every further loop step leaves them at (0, 0) |
| TextScan.PreviousWordTimesWraps | org.eclipse.twig.core/src/org/eclipse/twig/core/codeassist/TwigCompletionContext.java:431-468 | on two words followed by whitespace, `getPreviousWord(2)` is the first word while `getPreviousWord(Integer.MIN_VALUE)` is "" because of the wrapped bound |
| StructuredText.RegionAt | org.eclipse.twig.core/src/org/eclipse/twig/core/codeassist/TwigCompletionContext.java:218-219 | the region found covers the offset; none is found exactly when no region covers it |
| StructuredText.LastRegion | org.eclipse.twig.core/src/org/eclipse/twig/core/codeassist/TwigCompletionContext.java:215-216 | the last region of the collection, and none exactly when it is empty |
| StructuredText.DocumentRegionAt | org.eclipse.twig.core/src/org/eclipse/twig/core/codeassist/TwigCompletionContext.java:176-178 | the document region found contains the offset; none exactly when no region contains it |
| StructuredText.DocumentGet | org.eclipse.twig.core/src/org/eclipse/twig/core/codeassist/TwigCompletionContext.java:574-588 | the text slice of the given start and length, or a bad location exactly when that slice is out of range |
| StructuredText.TokenIndexAt | org.eclipse.twig.core/src/org/eclipse/twig/core/codeassist/TwigCompletionContext.java:480-484 | the token covering a local offset (the last token at its end); no token for an empty region; a bad location outside the region |
| StructuredText.TokenIndexUnique | org.eclipse.twig.core/src/org/eclipse/twig/core/codeassist/TwigCompletionContext.java:480-484 | an offset inside a token always finds that token |
| StructuredText.TokenAtEnd | org.eclipse.twig.core/src/org/eclipse/twig/core/codeassist/TwigCompletionContext.java:535 | looking up a token's end finds the next token, or the same token when it is the last |
| StructuredText.NextFromFinds | org.eclipse.twig.core/src/org/eclipse/twig/core/codeassist/TwigCompletionContext.java:534-540 | the search passes only whitespace and comments, and stops at the first other token or at the last token |
| StructuredText.NextSignificantSkipsOnlyNoise | org.eclipse.twig.core/src/org/eclipse/twig/core/codeassist/TwigCompletionContext.java:534-540 | the next token lies after the start token (unless that is the last), every token between is whitespace or comment, and the result is neither unless it is the last |
| StructuredText.IterateNextMonotone | org.eclipse.twig.core/src/org/eclipse/twig/core/codeassist/TwigCompletionContext.java:549-564 | each further round of the search never moves backwards |
| StructuredText.IterateNextShift | org.eclipse.twig.core/src/org/eclipse/twig/core/codeassist/TwigCompletionContext.java:549-564 | `k + 1` rounds from a token are `k` rounds from the token the first round finds |
| TwigCompletion.LastRegionAtOrBeforeFinds | org.eclipse.twig.core/src/org/eclipse/twig/core/codeassist/TwigCompletionContext.java:176-183 | the backward scan finds the region at the largest probe in `[0, offset]` that has one, and finds none exactly when no probe does |
| TwigCompletion.TwigRegionOf | org.eclipse.twig.core/src/org/eclipse/twig/core/codeassist/TwigCompletionContext.java:139-148 | the text region is kept exactly when it is a Twig script region |
| TwigCompletion.LocateFindsCoveringRegion | org.eclipse.twig.core/src/org/eclipse/twig/core/codeassist/TwigCompletionContext.java:82-123 | the resolved region is at most one container level down and covers the offset (the last region at the end of the document); in a well-formed document its tokens tile it |
| TwigCompletion.TokenIndexIn | org.eclipse.twig.core/src/org/eclipse/twig/core/codeassist/TwigCompletionContext.java:480-484 | the token found covers absolute offset `o - 1` after subtracting collection and region starts; there is no token in an empty region, and a bad location outside the region |
| TwigCompletion.TokenEndRoundTrip | org.eclipse.twig.core/src/org/eclipse/twig/core/codeassist/TwigCompletionContext.java:561-562 | converting a token's end to an absolute offset and looking it up again finds the same token |
| TwigCompletion.TwigCompletionContext.IsValid | org.eclipse.twig.core/src/org/eclipse/twig/core/codeassist/TwigCompletionContext.java:82-123 | the request fields are set first; the result is true exactly when a document is found and a Twig script region is resolved; an exception gives false; each field holds what its step determined |
| TwigCompletion.TwigCompletionContext.DetermineTwigRegion | org.eclipse.twig.core/src/org/eclipse/twig/core/codeassist/TwigCompletionContext.java:126-149 | stores and returns the text region exactly when it is a Twig script region, and null otherwise; no other field changes; in a well-formed collection the stored region keeps the object's invariant (its tokens tile it) |
| TwigCompletion.TwigCompletionContext.DetermineStructuredDocumentRegion | org.eclipse.twig.core/src/org/eclipse/twig/core/codeassist/TwigCompletionContext.java:162-184 | the loop returns the region at the largest probe that has one, after at most `offset + 1` probes and none for a negative offset |
| TwigCompletion.TwigCompletionContext.DetermineRegionCollection | org.eclipse.twig.core/src/org/eclipse/twig/core/codeassist/TwigCompletionContext.java:193-203 | the text region when it is a container, else the document region itself: at most one level down |
| TwigCompletion.TwigCompletionContext.DetermineTextRegion | org.eclipse.twig.core/src/org/eclipse/twig/core/codeassist/TwigCompletionContext.java:211-221 | the last region at the end of the document, and the covering region elsewhere; none exactly when there is no such region |
| TwigCompletion.TwigCompletionContext.TwigTokenIndex | org.eclipse.twig.core/src/org/eclipse/twig/core/codeassist/TwigCompletionContext.java:480-484 | the lookup on the resolved region, or no context while a field is null |
| TwigCompletion.TwigCompletionContext.TwigToken | org.eclipse.twig.core/src/org/eclipse/twig/core/codeassist/TwigCompletionContext.java:480-484 | the token is one of the script region's tokens, and it fails exactly when the index lookup does |
| TwigCompletion.TwigCompletionContext.PrefixEnd | org.eclipse.twig.core/src/org/eclipse/twig/core/codeassist/TwigCompletionContext.java:515-523 | the absolute text end of the cursor's token (collection start, region start and the token's text end), one less for a quoted string; it lies within the token, and it fails exactly as the token lookup does |
| TwigCompletion.TwigCompletionContext.AdvanceToken | org.eclipse.twig.core/src/org/eclipse/twig/core/codeassist/TwigCompletionContext.java:534-540 | the do-while loop ends at the next significant token after the given one |
| TwigCompletion.TwigCompletionContext.NextTwigTokenAt | org.eclipse.twig.core/src/org/eclipse/twig/core/codeassist/TwigCompletionContext.java:550-560 | one round: the token at the offset, then the next significant token after it, failing exactly when the lookup does |
| TwigCompletion.TwigCompletionContext.NextTwigToken | org.eclipse.twig.core/src/org/eclipse/twig/core/codeassist/TwigCompletionContext.java:531-544 | the next significant token after the cursor's token, failing exactly when the cursor's token lookup does |
| TwigCompletion.TwigCompletionContext.NextTwigTokenTimes | org.eclipse.twig.core/src/org/eclipse/twig/core/codeassist/TwigCompletionContext.java:546-567 | null when `times <= 0`; otherwise `times` rounds of the search, each from the absolute end of the token before; it fails only when the first lookup does |
| TwigCompletion.TwigCompletionContext.LaterRounds | org.eclipse.twig.core/src/org/eclipse/twig/core/codeassist/TwigCompletionContext.java:549-564 | the rounds after the first never fail and reach the `k`-th iterated next token |
| TwigCompletion.TwigCompletionContext.TokenText | org.eclipse.twig.core/src/org/eclipse/twig/core/codeassist/TwigCompletionContext.java:576-579 | the document text at the token's absolute start, with its text length |
| TwigCompletion.TwigCompletionContext.NextWord | org.eclipse.twig.core/src/org/eclipse/twig/core/codeassist/TwigCompletionContext.java:574-580 | the document text of the next significant token |
| TwigCompletion.TwigCompletionContext.NextWordTimes | org.eclipse.twig.core/src/org/eclipse/twig/core/codeassist/TwigCompletionContext.java:582-588 | the document text of the token `getNextTwigToken(times)` finds; with `times <= 0` that token is null, which fails |
| TwigCompletion.TwigCompletionContext.NextChar | org.eclipse.twig.core/src/org/eclipse/twig/core/codeassist/TwigCompletionContext.java:595-602 | a space at the end of the document, the character at the offset inside it, and a bad location elsewhere |

## Left out

- The CUP runtime is not part of this model:
  - the packed action and reduce-goto tables;
  - the `lr_parser` driver;
  - `unpackFromStrings`;
  - error recovery.
  The grammar is parsed by recursive descent from the production comments. The production table serves only as (left-hand side, right-hand-side length) data.
- The runtime's bottom-of-stack entry, whose `right` the first empty list reads, is a parameter (`bottom`).
- Console output is not modelled:
  - `report_error` returns the line it would print instead of printing it;
  - the `System.err.println` calls of `isValid`, `determineStructuredDocumentRegion` and `getStatementText` are dropped.
- `report_error` is followed as written: it shows `left + 1` and `right + 1` as "line" and "column". In this parser they are character offsets, not a computed line and column.
- `determineDocument` reads the workspace, files and the structured model manager. Its outcome is an input, `DocumentLookup`: a document, `null`, or an exception.
- `getStatementText` and `TwigTextSequenceUtilities` are not part of this model: the statement text is an input string.
- `readBackwardSpaces` and `readIdentifierStartIndex` belong to PDT, whose source is not part of this model. They are given concrete bodies with an ASCII character model:
  - whitespace is space, 9–13 and 28–31;
  - identifier characters are letters, digits and `_`.
  Unicode classes are not modelled.
- `partitionType`, `companion`, the plain getters, `init` and `isExclusive` are not modelled: they only store or return fields.
- `phpVersion` is not modelled. Every `readIdentifierStartIndex` call passes it, but the class never assigns it, and the ASCII scanners of this model do not depend on a PHP version.
- The token lookup of the script region and the document lookups are foreign. They are modelled over tokens that tile the region: contiguous, non-empty, text length at most length.
- TwigParser.TwigAstParser.Parse: on a syntax error it returns the token at which parsing stopped, where the CUP driver returns the last symbol it reduced (or null), which depends on its tables. The driver's own reports of the error through `report_error` and `report_fatal_error` are not produced.
- TwigGrammar.ValidTokens: assumes the scanner gives every `T_VARIABLE`, `T_CONSTANT_ENCAPSED_STRING` and `T_BLOCK_NAME` token a string value, and `TwigActions.Fits` assumes the same of the stack entries those actions read. The `(String)` casts of actions 15, 14, 13 and 8 also accept `null`, which would build a `StringLiteral`, `Variable`, call or block with a null name; that case is not modelled.
- TwigCompletion.TwigCompletionContext.IsValid: requires a well-formed document (tokens that tile each script region). The source assumes this of the editor's model.
- Two source branches are not modelled separately:
  - `regionCollection != null` in `isValid` always holds, because `determineRegionCollection` never returns null;
  - `twigToken == null` in `getNextTwigToken(int)` is dead: a null token from the lookup is dereferenced by `twigToken.getEnd()` in the do-while before the test is reached, which is the `NoToken` failure of the model.
- Statement lists are values; the module declaration is a class whose `statements` field the parser sets. The aliasing of the shared `LinkedList` between a list symbol and its reductions is not modelled.
- The test expectations that target `SourceParserUtil` are not modelled, because its parser is not part of this model. For example, `{% %}` giving 0 statements does not follow from this grammar (see `TwigGrammar.EmptyControlStatementExample`).
