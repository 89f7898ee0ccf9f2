# A verified model of the Squirrel lexer, parser and formatter utilities

This project is a Dafny model of the front end of a toolchain for the Squirrel scripting language and its Respawn dialect. The model covers the following parts:

- **The lexer**
  - The `ParseStr` cursor.
  - The recognisers for literals, comments, identifiers and symbols.
  - The `TokenIter` state machine, which attaches comments and line breaks to tokens.
  - `tokenize`, which links every opening bracket to the token that closes it.
- **The parser kernel**
  - The `TokenList` cursor and terminal matching, including compound operators whose parts must touch.
  - The soft and fatal error combinators, list parsers, error contexts and parse-result transforms.
  - The precedence table and the precedence-climbing expression parser.
  - Statement dispatch.
  - The parts of control statements and function argument lists that the dispatch relies on.
- **The older parser's shared parsers.** These are the `nom`-based terminal, adjacency and separated-list parsers of `sqparse`.
- **Diagnostics geometry.**
  - Mapping a character offset to its line and line start.
  - The single-line and multi-line display data of a highlight.
  - The 120-column window of a long line.
  - Choosing which lines of a long highlight are printed.
- **The formatter's utilities.**
  - Word wrapping of comment text (`TextWrapIter`).
  - The `Writer` output buffer and its column accounting.
  - How a token's text is printed, including integer radix printing.
  - How the blank lines before a token are collapsed.

Each source file is one module. Code that computes a value is modelled as functions and lemmas. Code that changes state step by step is modelled as methods with loops:

- the token iterator;
- the bracket-layer stack;
- the list loops;
- the expression loop;
- the namespace loop of constructor declarations;
- the line-printing loops of multi-line annotations;
- the legacy separated-list loops;
- the word-wrap iterator;
- the writer;
- the blank-line loop.

Each such method is proved equal to a specification function. The properties the source promises are proved about that function. For the writer, that function is `Writers.RunAll` over the writer's fields taken as a value (`Writers.WriterState`). A writer whose action failed is left as it stands and must not be used again; the source drops it.

Grammar rules that belong to files outside this model are parameters of the parsers that call them. These cover types, function and class declarations, table slots, array values and the other statement forms. Each such rule is assumed only to read at least one token when it succeeds. Integer and float parsing are parameters too. They come from library calls.

## Model

| member | source | states |
|---|---|---|
| Tokens.IdentifierTable | src/token.rs:79-126 | every IDENTIFIERS entry is a reserved word; the untagged entries come first and are supported in both flavors, the tagged ones only in Respawn |
| Tokens.SymbolTable | src/token.rs:128-177 | every SYMBOLS entry is a symbol supported in every flavor, whose text has the length of its section (three, two, one) |
| Tokens.AsStr | src/token.rs:59-65 | every terminal has a non-empty text, the identifier or symbol spelling of the tables |
| Tokens.SymbolsByNonIncreasingLength | src/token.rs:128-177 | SYMBOLS is ordered by non-increasing text length, so a longer symbol is matched before its prefix |
| Tokens.TokenTypeDisplayShape | src/token.rs:411-431 | the display of a token type is non-empty, backticked exactly for terminals and identifiers, shows a terminal's table text inside the backticks, and is `<empty>` exactly for the empty token |
| ParseStrs.New | src/lexer/parse_str.rs:8-10 | a new cursor holds the whole text and spans offsets 0 to its length |
| ParseStrs.From | src/lexer/parse_str.rs:16-21 | the cursor from `idx` holds the text after the first `idx` chars, starts `idx` further on and ends where the original ends |
| ParseStrs.End | src/lexer/parse_str.rs:23-28 | the end cursor is empty and sits at the original's end offset |
| ParseStrs.EndIsFromLength | src/lexer/parse_str.rs:16-28 | `end` is the same cursor as `from` at the length |
| ParseStrs.SplitAt | src/lexer/parse_str.rs:46-51 | the two halves concatenate to the text, the second starts where the first stops, and with no `mid` the first half is everything and the rest is ended |
| ParseStrs.TrimStart | src/lexer/parse_str.rs:53-58 | trimming drops only non-newline whitespace from the front, moves the start offset by what it drops, and stops at a newline or a visible char |
| ParseStrs.TrimStartIdempotent | src/lexer/parse_str.rs:53-58 | trimming twice trims nothing more |
| ParseStrs.StripPrefix | src/lexer/parse_str.rs:60-65 | succeeds exactly when the text starts with the prefix; then the prefix and the rest make the text, and the start offset moves by the prefix length |
| Literals.StartsWithOctal | src/lexer/literal.rs:19-29 | true exactly when the text is a `0` followed by an ASCII digit |
| Literals.NumberBase | src/lexer/literal.rs:35-41 | hexadecimal exactly after `0x`, octal exactly when `starts_with_octal` holds, and a prefix of at most two chars that decimal does not have |
| Literals.TryInteger | src/lexer/literal.rs:35-70 | an integer is read in the base its prefix gives, lies in the i64 range, consumes input, and is kept only when no `.` follows it |
| ParseStrs.FromTwiceConsumes | src/lexer/literal.rs:35-70 | skipping a prefix and then more chars, at least one in all, consumes input and leaves the rest of the text |
| Literals.TryFloat | src/lexer/literal.rs:73-91 | a float consumes input and stops before anything other than `.` or a digit |
| Literals.TryNumber | src/lexer/literal.rs:31-93 | a number is an integer or a float that consumes input; an integer is in the i64 range, has its prefix's base, and is not followed by `.` |
| Literals.DigitNumber | src/lexer/literal.rs:34-71 | the same as `TryNumber` for a text that starts with a digit |
| Literals.FloatNumber | src/lexer/literal.rs:73-92 | the float fallback yields a float that consumes input |
| Literals.Scan | src/lexer/literal.rs:105-148 | the scan stops at an unescaped delimiter, or, outside verbatim strings, at a raw newline |
| Literals.StringVal | src/lexer/literal.rs:95-149 | a string value that is read consumes input |
| Literals.TryStringVal | src/lexer/literal.rs:95-149 | the loop over the chars after the opening delimiter computes `StringVal` |
| Literals.ScanClosedIsWellFormed | src/lexer/literal.rs:105-148 | a scan that closes has read a well-formed body, and a verbatim closer is not doubled |
| Literals.WellFormedBodyCloses | src/lexer/literal.rs:105-148 | a well-formed body followed by an undoubled delimiter closes right there |
| Literals.StringValRoundTrip | src/lexer/literal.rs:95-149 | delimiter, well-formed body and delimiter read back as that body, with the rest after it at the right offset |
| Literals.StringValIsWellFormed | src/lexer/literal.rs:95-149 | a successful read is delimiter, well-formed body and delimiter, and the rest starts two chars past the body |
| Literals.StringValErrors | src/lexer/literal.rs:108-124 | the errors are end of input, at the end offset, or a raw newline outside a verbatim string, at the newline; both point at an empty range |
| Literals.StringValNone | src/lexer/literal.rs:100-102 | nothing is read exactly when the text does not start with the delimiter |
| Literals.TryString | src/lexer/literal.rs:153-165 | `@` makes a verbatim string and `$` an asset string; nothing is read exactly when no `"` follows the optional prefix |
| Literals.TryLiteral | src/lexer/literal.rs:6-17 | a literal consumes input, and it is a char literal exactly when no number is read and the text starts with `'` |
| CommentLexer.GetRestOfLine | src/lexer/comment.rs:29-31 | the text splits into a first part without `'\n'` and a rest that is empty or starts at the `'\n'`, with the offsets kept |
| CommentLexer.BlockComment | src/lexer/comment.rs:6-13 | a block comment holds the text up to the first `*/`, which is skipped, or all of the text when it is never closed |
| CommentLexer.LineComment | src/lexer/comment.rs:16-24 | a `#` or `//` comment holds the rest of the line, without the `'\n'`, which stays in the input |
| CommentLexer.TryComment | src/lexer/comment.rs:5-27 | never fails; reads nothing exactly when no comment marker starts the text; otherwise `/*` gives a multi-line comment and `#` a script-style one, and input is consumed |
| CommentLexer.BlockCommentRoundTrip | src/lexer/comment.rs:5-13 | `/*`, a text without `*/` and `*/` read back as that text, with the rest after it |
| CommentLexer.LineCommentRoundTrip | src/lexer/comment.rs:16-24 | a marker and a text without `'\n'` read back as that text, as a script-style comment for `#` and a single-line one for `//` |
| IdentifierLexer.TryIdentifierStr | src/lexer/identifier.rs:20-27 | an identifier is read exactly when the text starts with `_` or a letter; it is the longest run of identifier chars |
| IdentifierLexer.LookupIdentifier | src/lexer/identifier.rs:29-42 | the first IDENTIFIERS entry spelt as the text, or none when no entry is |
| IdentifierLexer.IdentifierAsToken | src/lexer/identifier.rs:29-42 | a reserved word is returned only when it is spelt as the text and supported in the flavor; otherwise the text is not in the table or its entry is not supported |
| IdentifierLexer.RespawnWordIsIdentifierInSquirrel3 | src/lexer/identifier.rs:29-42 | a Respawn-only word is a plain identifier in Squirrel 3 and a reserved word in Respawn |
| IdentifierLexer.TryIdentifier | src/lexer/identifier.rs:7-14 | a read identifier is the terminal spelt as it, when supported, and an identifier otherwise |
| IdentifierLexer.BreakIsTerminal | src/lexer/identifier.rs:7-14 | `break` followed by a non-identifier char reads as the `break` terminal |
| SymbolLexer.FindSymbol | src/lexer/symbol.rs:5-10 | the first supported SYMBOLS entry the text starts with, or none when there is none |
| SymbolLexer.TrySymbol | src/lexer/symbol.rs:5-10 | nothing is read exactly when no supported symbol starts the text; a read symbol is supported, and its text and the rest make the input |
| SymbolLexer.TrySymbolIsLongest | src/lexer/symbol.rs:5-10 | the symbol read is at least as long as any symbol that matches: the longest match wins |
| SymbolLexer.ThreeWayWins | src/lexer/symbol.rs:5-10 | `<=>` is read as one three-way symbol, not as `<=` or `<` |
| TokenIters.TryTokenTy | src/lexer/token_iter.rs:123-138 | a token read is a literal, then a supported symbol, then an identifier or reserved word; it is never the empty token and consumes input; its only errors are the string errors |
| TokenIters.LiteralErrors | src/lexer/literal.rs:6-17 | the literal reader fails only with end of input or end of line inside a string |
| TokenIters.Start | src/lexer/token_iter.rs:28-36 | a new iterator is at the start of the text with no pending token, lines or comments |
| TokenIters.AtEnd | src/lexer/token_iter.rs:105-119 | at the end of input a pending token is yielded unchanged and only it leaves the state; otherwise, when lines or comments are left, one Empty token at the end offset carries exactly those lines and comments and the state is drained; nothing is yielded exactly when nothing is pending, and then the state is unchanged |
| TokenIters.NextRound | src/lexer/token_iter.rs:44-103 | one round moves forward and keeps the iterator coherent; a newline yields the pending token with the current line's comments as its line break, or else appends that line to the pending lines, clearing the line's comments either way; a comment is appended to the current line's comments; a new token takes and clears the pending lines and comments, covers the text from the cursor to the rest, is held back, and the token it replaces is the one yielded; input that is none of these is an InvalidInput error with the empty range at the cursor; a round that goes on consumes input |
| TokenIters.RoundKeepsComments | src/lexer/token_iter.rs:53-95 | a round loses no comment: the comments held before it, followed by the comment it reads, are those of the token it yields followed by those held after it |
| TokenIters.NextSpecKeepsComments | src/lexer/token_iter.rs:42-120 | `next` loses no comment and yields none twice: the comments held before the call, followed by those the call reads, are exactly those of the yielded token followed by those still held |
| TokenIters.NextSpecMovesRight | src/lexer/token_iter.rs:42-120 | `next` only moves forward through the text and keeps its end |
| TokenIters.NextSpecEndsDrained | src/lexer/token_iter.rs:105-119 | once `next` returns nothing, the input is used up and nothing is pending |
| TokenIters.NextSpecLowersMeasure | src/lexer/token_iter.rs:42-120 | each token yielded makes progress, so the iteration ends |
| TokenIters.NextSpecCoherent | src/lexer/token_iter.rs:42-120 | `next` keeps the iterator coherent (a held-back token has no line break and no whole lines are pending beside it), and each token yielded has a range within the text |
| TokenIters.NewLineReleasesToken | src/lexer/token_iter.rs:53-66 | a newline yields the pending token, with the line's comments as its new line, and clears those comments |
| TokenIters.NewLineRound | src/lexer/token_iter.rs:53-66 | the loop round that meets the newline stops with that token |
| TokenIters.BlankInputEnds | src/lexer/token_iter.rs:44-51 | input of spaces only yields no token |
| TokenIters.TokenIter.constructor | src/lexer/token_iter.rs:28-36 | the iterator starts in the state `Start` describes |
| TokenIters.TokenIter.FinishAtEnd | src/lexer/token_iter.rs:105-119 | the end-of-input step changes the state and yields as `AtEnd` says |
| TokenIters.TokenIter.Round | src/lexer/token_iter.rs:44-103 | one loop round changes the state as `NextRound` says |
| TokenIters.TokenIter.Next | src/lexer/token_iter.rs:42-120 | `next` changes the state and yields as `NextSpec` says |
| Lexers.ClosingToken | src/lexer/mod.rs:23-39 | only terminals open a tree, and they are closed by terminals |
| Lexers.ClosersAreNotOpeners | src/lexer/mod.rs:23-39 | a closing token never opens a tree, and different openers have different closers |
| Lexers.ClosingTokenPairs | src/lexer/mod.rs:23-39 | `{`, `[`, `(` and the attribute opener `</` are the openers, each paired with exactly one closer: `}`, `]`, `)` and `/>` respectively; no other token opens a group |
| Lexers.Step | src/lexer/mod.rs:54-73 | each token is appended once with no closer of its own, and earlier tokens keep their tokens |
| Lexers.MatchAll | src/lexer/mod.rs:50-74 | the items carry the tokens in order, and the open layers point inside the items |
| Lexers.AppendKeepsNested | src/lexer/mod.rs:63-73 | appending a token, pushing a layer when it opens one, keeps the nesting invariant |
| Lexers.CloseKeepsNested | src/lexer/mod.rs:54-60 | closing the top layer, recording the closer's index at its opener, keeps the nesting invariant |
| Lexers.StepKeepsNested | src/lexer/mod.rs:54-73 | one step of the loop keeps the nesting invariant |
| Lexers.MatchAllNested | src/lexer/mod.rs:50-74 | after all tokens, closers point forward and nest properly, and open layers are the still unmatched openers |
| Lexers.StreamWellShaped | src/lexer/mod.rs:50-51 | every token the iterator yields has a range within the text |
| Lexers.StreamUnfold | src/lexer/mod.rs:50-51 | the token stream is the first token of `next` followed by the rest, ending at the first error or at the end |
| Lexers.MatchOk | src/lexer/mod.rs:78-80 | on success, the items carry the tokens, exactly the openers have a closer, closers point forward and trees nest |
| Lexers.MatchUnmatched | src/lexer/mod.rs:78-90 | on failure, the error names the innermost unmatched opener with its closer and range; that opener has no closer and every later opener has one |
| Lexers.Place | src/lexer/mod.rs:54-73 | one loop body, in place, does what `Step` says |
| Lexers.PrependContinue | src/lexer/mod.rs:50-51 | the tokens seen so far followed by the next result is the stream of the rest, or the error |
| Lexers.Pull | src/lexer/mod.rs:50-51 | one call of the iterator takes one result off the stream and makes progress |
| Lexers.Tokenize | src/lexer/mod.rs:46-91 | `tokenize` returns the token stream matched into trees, or the first lexer error, or the unmatched-opener error |
| TokenLists.NewTokenList | src/parser/token_list.rs:10-12 | a new list is at index 0 with every token remaining |
| TokenLists.Previous | src/parser/token_list.rs:14-20 | none exactly at the start; otherwise the token just before the index |
| TokenLists.Next | src/parser/token_list.rs:22-24 | none exactly when the list is ended; otherwise the token at the index |
| TokenLists.SplitFirst | src/parser/token_list.rs:40-50 | none exactly when ended; otherwise the first token and the list one further on, with one token less remaining |
| TokenLists.SplitAt | src/parser/token_list.rs:52-64 | the first half stops at `index` and the second starts there; the halves share out the remaining tokens |
| TokenLists.SplitFirstThenPrevious | src/parser/token_list.rs:14-50 | after taking one token it is the previous one, and the list is at a newline exactly when that token ends a line |
| TokenLists.LexedTokensNest | src/lexer/mod.rs:46-91 | the tokens the lexer matches have every closer inside the list, as `split_at` needs |
| Contexts.EnumDisplayLeadingSpace | src/parser/context.rs:122-124 | the enum statement's description alone starts with a space, unlike its neighbours |
| Contexts.Description | src/parser/context.rs:102-168 | each context's description, with the enum statement's leading space removed, so that no description is empty or starts with a space |
| Contexts.Display | src/parser/context.rs:102-168 | every context has a non-empty description, and as written the enum statement's is the only one that starts with a space |
| ParseErrors.New | src/parser/error.rs:56-63 | a new error has the given type, index and affinity, no context, and is not fatal |
| ParseErrors.Error | src/parser/token_list_ext.rs:12-20 | an error at the list's index, placed before the token at the end of input and inline otherwise |
| ParseErrors.ErrorBefore | src/parser/token_list_ext.rs:22-28 | an error at the list's index, placed before the token |
| ParseErrors.WithContext | src/parser/error.rs:65-81 | a useful context is kept as it is; a missing one is set; a not useful one is replaced by the new type over the union of the two ranges; type, index and fatality never change |
| ParseErrors.IntoFatal | src/parser/error.rs:83-86 | the error with only its fatal flag set |
| ParseErrors.IntoNonFatal | src/parser/error.rs:88-91 | the error with only its fatal flag cleared |
| ParseErrors.UsefulContextSticks | src/parser/error.rs:65-81 | once an error has a useful context, later contexts change nothing |
| ParseErrors.BlockContextIsReplaced | src/parser/context.rs:78-99 | a block statement context is replaced by the useful context around it, whose range covers the block's |
| ParseErrors.FatalFlagRoundTrip | src/parser/error.rs:83-91 | setting and clearing the fatal flag undo each other |
| ParseErrors.TokenSrcRange | src/parser/error.rs:171-176 | the range of the token at the index, or the empty range at the end of the source past the last token |
| TerminalParsers.MatchTerminalItem | src/parser/token.rs:12-23 | succeeds exactly at that terminal, taking one token; otherwise an inline `expected` error at the index |
| TerminalParsers.MatchTerminal | src/parser/token.rs:25-28 | the same as `terminal_item`, giving the token |
| TerminalParsers.MatchTerminal2 | src/parser/token.rs:30-47 | succeeds exactly on the two terminals with no gap between them, taking two tokens; when both are there with a gap, the compound error at the start |
| TerminalParsers.MatchTerminal3 | src/parser/token.rs:49-68 | succeeds exactly on the three terminals with no gaps, taking three tokens; when all are there with a gap, the compound error at the start |
| TerminalParsers.TerminalsExclusive | src/parser/token.rs:12-23 | one token matches at most one terminal |
| TerminalParsers.CompoundShadowedByPrefix | src/parser/token.rs:30-68 | where a compound matches, its first part matches too and takes fewer tokens |
| Combinators.Definitely | src/parser/combinator.rs:6-18 | an error of the determinant is passed on; an error after it becomes fatal with the context over the tokens read; a non-fatal error comes only from the determinant |
| Combinators.Commit | src/parser/combinator.rs:14-17 | an error becomes fatal, with the context from the start to just past the error |
| Combinators.FirstOfPicksFirstDecisive | src/parser/combinator.rs:20-33 | `first_of` returns the result of the first parser that does not fail softly, or the default after every parser failed softly |
| Combinators.FirstOf | src/parser/combinator.rs:20-33 | the loop over the parsers computes `FirstOfSpec` |
| Combinators.SpanOpen | src/parser/combinator.rs:42-48 | at the opening terminal with a closer, the inner list runs from just after it to the closer and the outer one starts at the closer; otherwise a soft error at the index, internal when the opener has no closer |
| Combinators.SpanError | src/parser/combinator.rs:50-59 | errors inside a span become fatal and keep their type and index |
| Combinators.SpanClose | src/parser/combinator.rs:50-53 | the closing terminal is taken, or a fatal error |
| Combinators.SpanFinish | src/parser/combinator.rs:55-69 | the inner parser must use up the inner list, or a fatal `expected` closer error at where it stopped |
| Combinators.Span | src/parser/combinator.rs:35-70 | a non-fatal error comes only from opening; success ends just past the opener's closer |
| Combinators.SpanReadsBetweenBrackets | src/parser/combinator.rs:35-70 | a successful span opens at the terminal, closes at the matching closer, consumes tokens, and the inner parser sees exactly the tokens between |
| Combinators.Opt | src/parser/combinator.rs:72-78 | success is wrapped in Some; a soft failure is None without consuming; only a fatal error fails |
| Combinators.Map | src/parser/combinator.rs:80-82 | the value mapped, the tokens and any error kept |
| Combinators.Alt | src/parser/combinator.rs:84-90 | none exactly on a soft failure; otherwise the result itself |
| Combinators.AltMap | src/parser/combinator.rs:92-94 | none exactly on a soft failure |
| Combinators.PreventEndingLine | src/parser/combinator.rs:96-109 | a result that consumed tokens and ends at a line break is replaced by an illegal line break error at its last token; other results pass through |
| Combinators.OptAltAgree | src/parser/combinator.rs:72-90 | `alt` gives none exactly when `opt` gives None without consuming |
| SeparatedLists.Values | src/ast/list.rs:6-9 | the values of a list: each item's value in order, then the last item |
| SeparatedLists.Separators | src/ast/list.rs:6-9 | the separators of a list, one per item before the last |
| SeparatedLists.IntoTrailing | src/ast/list.rs:32-38 | the same items and last item, with the trailing separator given |
| SeparatedLists.Pushed | src/ast/list.rs:25-30 | pushing appends the item to the values and the separator to the separators |
| SeparatedLists.PushAllAppends | src/ast/list.rs:25-30 | pushing pairs one by one appends their items to the values and their separators to the separators |
| SeparatedLists.PushAllKeeps | src/ast/list.rs:25-30 | a property of every value holds after pushing pairs whose items have it |
| SeparatedLists.ListBuilder.constructor | src/parser/list.rs:29-32 | a new list holds the first item alone |
| SeparatedLists.ListBuilder.Push | src/ast/list.rs:25-30 | `push`, in place: the old last item moves into the items with the separator and the new item is last |
| SeparatedLists.ListBuilder.InsertFirst | src/parser/expression.rs:600 | the comma expression puts its left operand and first comma in front of the list, the last item staying |
| ListParsers.PrependTwice | src/parser/list.rs:6-21 | putting values in front of a result's values composes, and putting none changes nothing |
| ListParsers.ManyStopsAtSoftFailure | src/parser/list.rs:6-21 | `many` stops where the item fails softly, never moving back; its errors are fatal; a first soft failure gives no items without consuming |
| ListParsers.Many | src/parser/list.rs:6-21 | the loop computes `ManySpec` |
| ListParsers.SeparatedTailEnds | src/parser/list.rs:34-44 | the separator loop stops where the separator fails softly; an item failing after a separator is the result's error |
| ListParsers.SeparatedList1Values | src/parser/list.rs:23-45 | the list's values are the first item and then the item after each separator, and its separators are those read |
| ListParsers.SeparatedList1 | src/parser/list.rs:23-45 | the loop computes `SeparatedList1Spec` |
| ListParsers.TrailingTailEnds | src/parser/list.rs:58-73 | the loop's errors are fatal; it ends where the separator fails softly, or after a trailing separator where the item fails softly |
| ListParsers.SeparatedListTrailing0Absent | src/parser/list.rs:76-85 | the list is absent exactly when its first item fails softly, and then nothing is consumed; errors are fatal |
| ListParsers.SeparatedListTrailing1Init | src/parser/token_list_ext.rs:195-220 | the loop computes `SeparatedListTrailing1InitSpec` |
| ListParsers.SeparatedListTrailing1 | src/parser/list.rs:47-74 | the loop computes `SeparatedListTrailing1Spec` |
| ListParsers.SeparatedListTrailing0 | src/parser/list.rs:76-85 | the parser computes `SeparatedListTrailing0Spec` |
| TokenListExts.EndedOr | src/parser/token_list_ext.rs:30-36 | at the end of the list the result stays; elsewhere it becomes definite; success is unchanged either way |
| TokenListExts.EmptyToken | src/parser/token_list_ext.rs:38-47 | some exactly when the next token is the empty token, which is taken |
| TokenListExts.TerminalItem | src/parser/token_list_ext.rs:49-60 | succeeds exactly at that terminal, taking one token; otherwise the list's error for it |
| TokenListExts.TerminalOf | src/parser/token_list_ext.rs:62-65 | the same as `terminal_item`, giving the token |
| TokenListExts.TerminalOfAgrees | src/parser/token_list_ext.rs:49-65 | the list method and the plain terminal parser agree except in the error's affinity |
| TokenListExts.Terminal2 | src/parser/token_list_ext.rs:67-80 | succeeds exactly on the two terminals with no gap; when both are there with a gap, the compound error after them |
| TokenListExts.Terminal3 | src/parser/token_list_ext.rs:82-99 | succeeds exactly on the three terminals with no gaps; when all are there with a gap, the compound error after them |
| TokenListExts.CompoundMatchesAgree | src/parser/token_list_ext.rs:67-99 | the list methods and the plain compound parsers succeed on the same input with the same result; only the error index differs |
| TokenListExts.ManyUntilSpec | src/parser/token_list_ext.rs:114-131 | success ends where the condition holds; an error comes from an item; when the condition holds at once there are no items |
| TokenListExts.ManyUntil | src/parser/token_list_ext.rs:114-131 | the loop computes `ManyUntilSpec` |
| TokenListExts.ManyUntilEnded | src/parser/token_list_ext.rs:133-138 | a success reads every token, and an ended list gives no items |
| ParseResultExts.Maybe | src/parser/parse_result_ext.rs:11-17 | success wrapped in Some, a fatal error kept, a soft failure is None at the given list |
| ParseResultExts.MaybeIsOpt | src/parser/parse_result_ext.rs:11-17 | `maybe` is `opt` |
| ParseResultExts.NotDefinite | src/parser/parse_result_ext.rs:19-21 | an error made non-fatal, success unchanged |
| ParseResultExts.Definite | src/parser/parse_result_ext.rs:23-25 | an error made fatal, success unchanged |
| ParseResultExts.DefiniteFlagOnly | src/parser/parse_result_ext.rs:19-25 | `definite` and `not_definite` change only the fatal flag and undo each other |
| ParseResultExts.NotLineEnding | src/parser/parse_result_ext.rs:27-34 | a success fails exactly when it ends at a line break, with an illegal line break error at that list |
| ParseResultExts.MapVal | src/parser/parse_result_ext.rs:36-38 | the value mapped, the tokens and any error kept |
| ParseResultExts.OrTry | src/parser/parse_result_ext.rs:40-46 | the fallback runs exactly on a soft failure |
| ParseResultExts.OrError | src/parser/parse_result_ext.rs:48-50 | a soft failure becomes the given error; anything else is kept |
| ParseResultExts.WithContextResult | src/parser/parse_result_ext.rs:52-54 | an error gets the context, success is unchanged |
| ParseResultExts.ReplaceContextFrom | src/parser/parse_result_ext.rs:56-81 | an error keeps its type and index, and one without context gets the context from the list's start to the error |
| ParseResultExts.Determines | src/parser/parse_result_ext.rs:83-89 | an error of the first part is made non-fatal; the rest's result is made definite; an error is fatal exactly when the first part succeeded |
| ParseResultExts.DeterminesLikeDefinitely | src/parser/parse_result_ext.rs:83-89 | `determines` and `definitely` succeed together and agree on fatality |
| ParseResultExts.SpanRange | src/parser/parse_result_ext.rs:103-104 | the span runs from the opener to just past its closer |
| ParseResultExts.CloseUntilError | src/parser/parse_result_ext.rs:112-127 | the closing parser is rerun over the leftover inner tokens until it fails, and that error, with the context, is returned |
| ParseResultExts.OpensReadsSpan | src/parser/parse_result_ext.rs:91-130 | on success the closer parses at the closer's index, the inner parser uses up exactly the tokens inside, and the value is the inner one; every error has a context |
| ParseResultExts.Opens | src/parser/parse_result_ext.rs:91-130 | `opens` passes on an error of the opener, and otherwise computes `OpensSpec` |
| ParseResultExts.CloseUntil | src/parser/parse_result_ext.rs:112-126 | the loop after unread inner tokens ends with the first error of the closing parser, `CloseUntilError` |
| ParseResultExts.DeterminesAndOpens | src/parser/parse_result_ext.rs:132-147 | an opener's error made non-fatal; otherwise `OpensSpec` made definite |
| Precedences.Rank | src/ast/precedence.rs:15-66 | each precedence's discriminant, from 0 for None to 16 for Property |
| Precedences.RankIsPosition | src/ast/precedence.rs:15-66 | the seventeen precedences listed in declaration order sit at their discriminant |
| Precedences.TotalOrder | src/ast/precedence.rs:14 | the derived order is total and antisymmetric |
| Precedences.OrderedIncreases | src/ast/precedence.rs:15-66 | a precedence declared later binds more tightly |
| Precedences.Extremes | src/ast/precedence.rs:16-65 | None is the lowest precedence and Property the highest |
| Operators.BinaryTerminals | src/ast/operator.rs:5-69 | every binary operator is one to three terminals: two for `<-`, `<<` and `>>`, three exactly for `>>>` |
| Operators.BinaryTokens | src/ast/operator.rs:5-69 | an operator carries one token per terminal it is written with |
| Operators.BinaryPrecedence | src/ast/operator.rs:99-139 | every binary operator binds tighter than the comma and looser than a prefix, and tighter than the ternary except for assignment |
| Operators.AssignmentGroup | src/ast/operator.rs:101-108 | assignment precedence exactly for `=`, `<-` and the compound assignments |
| Operators.TestGroup | src/ast/operator.rs:111-114 | test precedence exactly for `&&`, `in` and `instanceof` |
| Operators.BitshiftGroup | src/ast/operator.rs:127-130 | shift precedence exactly for the three shifts, which are the operators of several terminals other than `<-` |
| Operators.MultiplicativeGroup | src/ast/operator.rs:134-136 | multiplicative precedence exactly for `*`, `/` and `%` |
| OperatorParsers.TerminalAt | src/parser/token_list.rs:22-24 | the terminal the next token is, if it is one |
| OperatorParsers.Chain | src/parser/operator.rs:8-48 | an `or_try` chain of single terminals: the first result kept unless it fails softly; then success exactly at one of the terminals, taking that token |
| OperatorParsers.ChainFrom | src/parser/operator.rs:8-48 | a chain of single terminals succeeds exactly at one of them, taking that token, and otherwise fails softly |
| OperatorParsers.PrefixOperatorOf | src/parser/operator.rs:8-48 | the prefix operator built from a terminal is written with that terminal and token |
| OperatorParsers.ParsePrefixOperator | src/parser/operator.rs:8-48 | succeeds exactly at one of the eight prefix terminals, taking one token; otherwise the `expected prefix operator` error |
| OperatorParsers.PostfixOperatorOf | src/parser/operator.rs:50-60 | the postfix operator built from a terminal is written with that terminal and token |
| OperatorParsers.ParsePostfixOperator | src/parser/operator.rs:50-60 | succeeds exactly at `++` or `--`, taking one token; otherwise the `expected postfix operator` error |
| OperatorParsers.OrTerminal2 | src/parser/operator.rs:62-84 | one step of the chain with a two-terminal operator |
| OperatorParsers.CompoundBinary | src/parser/operator.rs:62-84 | the operators of several terminals match exactly when one of `<-`, `<<`, `>>>`, `>>` does; failure is soft |
| OperatorParsers.CompoundPicks | src/parser/operator.rs:62-84 | `<-` is tried first, then `<<`, then `>>>`, then `>>`, and the first that matches is the result |
| OperatorParsers.NewSlotReads | src/parser/operator.rs:63-65 | `<-` reads as the new-slot operator over the tokens it takes |
| OperatorParsers.ShiftLeftReads | src/parser/operator.rs:66-70 | `<<` reads as the left shift over the tokens it takes |
| OperatorParsers.ShiftRightReads | src/parser/operator.rs:80-84 | `>>` reads as the right shift over the tokens it takes |
| OperatorParsers.Terminal3Reads | src/parser/operator.rs:71-79 | `>>>` reads as the unsigned right shift over the tokens it takes |
| OperatorParsers.ShiftRightThreeReads | src/parser/operator.rs:71-79 | three touching `>` tokens held by an unsigned right shift are read as that operator |
| OperatorParsers.CompoundReads | src/parser/operator.rs:62-84 | a compound operator is written with the terminals it took, more than one |
| OperatorParsers.SingleBinaryOfReads | src/parser/operator.rs:85-209 | the operator built from a single terminal is written with that terminal and token |
| OperatorParsers.SingleBinary | src/parser/operator.rs:85-209 | the single-terminal operators match exactly at one of their terminals, taking it; failure is soft |
| OperatorParsers.ParseBinaryOperator | src/parser/operator.rs:62-211 | succeeds exactly at a binary terminal, reading an operator written with the tokens it takes; otherwise the `expected binary operator` error |
| OperatorParsers.NewSlotBeforeLess | src/parser/operator.rs:62-65 | `<` `-` with no gap is read as `<-`, not as `<` |
| OperatorParsers.ShiftLeftBeforeLess | src/parser/operator.rs:66-70 | `<` `<` with no gap is read as `<<` |
| OperatorParsers.UnsignedShiftBeforeShift | src/parser/operator.rs:71-79 | three touching `>` are read as `>>>`, not `>>` |
| OperatorParsers.ShiftRightBeforeGreater | src/parser/operator.rs:80-84 | two touching `>` not followed by a third are read as `>>` |
| OperatorParsers.LoneLessIsComparison | src/parser/operator.rs:150-154 | a `<` that starts no compound is the comparison |
| IdentifierParsers.ParseIdentifier | src/parser/identifier.rs:9-26 | succeeds exactly at an identifier token, taking it with its name; otherwise `expected identifier` at the index |
| IdentifierParsers.ParseMethodIdentifier | src/parser/identifier.rs:28-34 | `constructor` or an identifier, taking one token; otherwise `expected identifier` |
| Expressions.SpanRest | src/parser/combinator.rs:48-69 | after the opener, a span succeeds only when the inner parser uses up the inner tokens and the closer follows; it consumes tokens and its errors are fatal |
| Expressions.ParseLiteral | src/parser/expression.rs:87-104 | succeeds exactly at a literal token, taking it; otherwise `expected literal` at the index |
| Expressions.ParseVar | src/parser/expression.rs:106-109 | a variable is exactly an identifier, taking one token |
| Expressions.ParseRootVar | src/parser/expression.rs:111-122 | fails softly exactly when not at `::`; a success takes `::` and a name |
| Expressions.ParseTable | src/parser/expression.rs:143-171 | fails softly only when no `{` span opens; a success consumes tokens |
| Expressions.ParseTableValue | src/parser/expression.rs:143-145 | a table value consumes tokens |
| Expressions.ParseArray | src/parser/expression.rs:185-205 | fails softly only when no `[` span opens; a success consumes tokens |
| Expressions.FunctionHead | src/parser/expression.rs:289-313 | the part of a function expression that decides it consumes tokens and fails only softly |
| Expressions.ParseFunction | src/parser/expression.rs:289-313 | fails softly exactly when the head does not match; a success consumes tokens |
| Expressions.ParseClass | src/parser/expression.rs:173-183 | fails softly exactly when not at `class`; a success consumes tokens |
| Expressions.ParseParens | src/parser/expression.rs:67-85 | fails softly only when no `(` span opens; a success consumes tokens and is a value, not an operation |
| Expressions.ParsePrefix | src/parser/expression.rs:124-141 | fails softly exactly when no prefix operator is next; otherwise a prefix expression that consumes tokens, whose operand `PrefixOperand` reads |
| Expressions.PrefixOperand | src/parser/expression.rs:130-139 | the operand after a prefix operator is parsed at prefix precedence, consuming tokens, and its failure is fatal |
| Expressions.ParseDelegate | src/parser/expression.rs:207-228 | fails softly exactly when not at `delegate`; the delegate's value binds above the comma |
| Expressions.ParseVector | src/parser/expression.rs:230-257 | fails softly exactly when not at `<`; x and y bind above the comma and z above the shifts, so `>` closes the vector |
| Expressions.VectorTail | src/parser/expression.rs:236-255 | the three components are parsed at those precedences |
| Expressions.ParseExpect | src/parser/expression.rs:259-287 | fails softly exactly when not at `expect`; a success consumes tokens |
| Expressions.ParseValue | src/parser/expression.rs:40-65 | a value consumes tokens and is not an operation |
| Expressions.ValueIsNoOperation | src/parser/expression.rs:40-65 | prefix, delegate, vector and `expect` expressions are values, never operations that a later operator could extend |
| Expressions.FunctionValueFirst | src/parser/expression.rs:44-45 | a function expression that does not fail softly is the value, ahead of every other form |
| Expressions.NoValueMatches | src/parser/expression.rs:57-63 | when every value form fails softly the value fails with `ExpectedExpression` at the cursor |
| Expressions.ExpressionSpec | src/parser/expression.rs:24-38 | an expression consumes tokens and binds at the precedence it was asked for |
| Expressions.Fold | src/parser/expression.rs:27-37 | the operator loop keeps the left operand or builds an operation binding at the precedence |
| Expressions.OperatorStep | src/parser/expression.rs:329-381 | one operator applied to the left operand consumes tokens and binds at the precedence |
| Expressions.LaterOperator | src/parser/expression.rs:341-374 | the operators after the property one, tried in order |
| Expressions.ParseProperty | src/parser/expression.rs:383-410 | refused at property precedence or above; takes `.` and a name, with the left operand as base |
| Expressions.ParseTernary | src/parser/expression.rs:412-443 | refused above the ternary's precedence; the condition is the left operand and the false branch binds at ternary precedence, so it is right-associative |
| Expressions.BinaryOperatorAbove | src/parser/expression.rs:445-458 | a binary operator is taken only when it binds tighter than the precedence asked for |
| Expressions.ParseBinary | src/parser/expression.rs:445-475 | the left operand is kept and the right operand binds at the operator's precedence, so operators are left-associative |
| Expressions.ParseIndex | src/parser/expression.rs:477-506 | refused at postfix precedence or above; the base is the left operand |
| Expressions.ParsePostfix | src/parser/expression.rs:508-526 | refused at postfix precedence or above; otherwise succeeds exactly on a postfix operator, taking it |
| Expressions.PostInitializer | src/parser/expression.rs:563-568 | no post-initializer table after a line break; otherwise an optional table |
| Expressions.ParseCall | src/parser/expression.rs:528-578 | refused at postfix precedence or above; the callee is the left operand and every argument binds above the comma |
| Expressions.Arguments | src/parser/expression.rs:549-553 | the arguments, each parsed above the comma |
| Expressions.ArgumentTail | src/parser/expression.rs:549-553 | the arguments after the first, each parsed above the comma |
| Expressions.ParseComma | src/parser/expression.rs:580-605 | refused at comma precedence or above; the left operand comes first and every later value binds above the comma |
| Expressions.CommaTail | src/parser/expression.rs:593-599 | the values after the first comma, each parsed above the comma |
| Expressions.ParseExpression | src/parser/expression.rs:24-38 | the loop computes `ExpressionSpec` |
| Statements.ParseEmptyStatement | src/parser/statement.rs:123-139 | succeeds exactly on an `Empty` token, taking just that token; otherwise the internal `Empty` error at the index |
| Statements.NamespacesSpec | src/parser/statement.rs:631-639 | the `name ::` loop stops softly where no identifier follows; when it takes nothing the names are unchanged; a missing `::` after a name is the failure |
| Statements.NamespacesKeepEarlier | src/parser/statement.rs:631-639 | the loop only pushes: earlier namespace pairs are kept as a prefix |
| Statements.NamespacesSeparated | src/parser/statement.rs:630-639 | every collected pair and the final pair end in a `::` token |
| Statements.ParseNamespaces | src/parser/statement.rs:631-639 | the `while` loop computes `NamespacesSpec` |
| Statements.ParseConstructorHead | src/parser/statement.rs:627-646 | the head starts at `function`, consumes tokens, ends on `constructor` and fails only softly |
| Statements.ConstructorHeadRest | src/parser/statement.rs:633-646 | after the first `name ::`, further pairs and then `constructor` are read, consuming tokens, and failure is soft |
| Statements.ParseConstructorDeclaration | src/parser/statement.rs:621-663 | fails softly exactly when the head fails; once the head matched, an error carries a context |
| Statements.ParseFunctionHead | src/parser/statement.rs:671-677 | the head consumes tokens and ends on `function`; a return type that does not parse is left out |
| Statements.ParseFunctionDeclaration | src/parser/statement.rs:665-695 | a success has at least one name; once the head matched, any error is fatal |
| Statements.WithFirstDeclaration | src/parser/statement.rs:712-730 | inserting the first declaration in front keeps it first, followed by the rest's values and trailing comma |
| Statements.ParseVarHead | src/parser/statement.rs:705-709 | consumes tokens; a type that does not parse is a soft failure |
| Statements.VarDeclarationsAfter | src/parser/statement.rs:711-741 | without a comma the list is just the first declaration with no trailing comma; the first declaration stays first; errors are fatal |
| Statements.ParseVarDeclaration | src/parser/statement.rs:697-745 | fails softly exactly when the head does |
| Statements.DanglingCommaDeclaration | src/parser/statement.rs:723-728 | a comma followed by no declaration gives a one-item list with that trailing comma |
| Statements.ReturnValue | src/parser/statement.rs:405-431 | no value when a new line follows; a value consumes tokens; errors are fatal |
| Statements.ParseReturn | src/parser/statement.rs:405-431 | fails softly exactly when not at `return`; `return` followed by a new line has no value |
| Statements.ParseYield | src/parser/statement.rs:433-459 | fails softly exactly when not at `yield`; `yield` followed by a new line has no value |
| Statements.TypedConst | src/parser/statement.rs:546-562 | a typed const has a type; when the type does not parse, its error is returned |
| Statements.UntypedConst | src/parser/statement.rs:564-579 | an untyped const has no type and takes the identifier that follows as its name |
| Statements.ParseConst | src/parser/statement.rs:534-544 | fails softly exactly when not at `const` |
| Statements.TypedConstFirst | src/parser/statement.rs:534-544 | the typed form is tried first and the untyped one only after a soft failure |
| Statements.ParseExpressionStatement | src/parser/statement.rs:611-619 | an expression statement consumes tokens |
| Statements.ParseOther | src/parser/statement.rs:45-121 | a statement form outside the model is whatever its grammar rule gives |
| Statements.ParseModelled | src/parser/statement.rs:45-121 | each modelled form produces a statement of its own kind |
| Statements.FormParser | src/parser/statement.rs:45-121 | each form in the list produces a statement of its own kind |
| Statements.FormParsers | src/parser/statement.rs:47-117 | one parser per form, in the source's order |
| Statements.NoStatement | src/parser/statement.rs:113-118 | the fallback always fails with `ExpectedStatement` at the start index |
| Statements.ParseStatementType | src/parser/statement.rs:45-121 | the loop over the forms computes `StatementTypeSpec` |
| Statements.StatementTypeFirstDecisive | src/parser/statement.rs:45-121 | every form before the first decisive one failed softly; the result is that form's, or `ExpectedStatement` when there is none |
| Statements.NoFormMatches | src/parser/statement.rs:113-118 | when every form fails softly the result is `ExpectedStatement` |
| Statements.FirstDecisiveStops | src/parser/statement.rs:45-121 | the form found is one that did not fail softly |
| Statements.ConstructorBeforeFunction | src/parser/statement.rs:50-58 | a constructor declaration wins over the function declaration form |
| Statements.FirstTwoForms | src/parser/statement.rs:48-58 | empty statements are tried first, constructor declarations second |
| Statements.ModelledFormParsers | src/parser/statement.rs:48-58 | the empty and constructor forms are parsed by their own parsers |
| Statements.SecondDecides | src/parser/statement.rs:45-121 | a soft failure of the first form hands over to the second |
| Statements.OnlyLastProducesExpression | src/parser/statement.rs:111-112 | only the last form gives an expression statement |
| Statements.ExpressionLast | src/parser/statement.rs:111-112 | an expression statement means every other form failed softly |
| Statements.StatementSpec | src/parser/statement.rs:28-43 | a leading `;` is an empty statement ending there; otherwise the statement type's result, with its error passed through |
| ControlParsers.ParseElse | src/parser/control.rs:15-31 | fails softly exactly when not at `else`, and keeps the `else` token |
| ControlParsers.ParseSwitchCaseCondition | src/parser/control.rs:47-67 | `default` gives a default case; neither `default` nor `case` is `expected case` at the index; after `case` every error is fatal |
| ControlParsers.ParseForDeclaration | src/parser/control.rs:69-88 | a variable declaration wins; its fatal error passes through; an expression is tried only after its soft failure, and when both fail softly the declaration's error is kept |
| ControlParsers.TypedBinding | src/parser/control.rs:94-107 | fails only softly; a success has a type and ends on the separator asked for |
| ControlParsers.UntypedBinding | src/parser/control.rs:109-120 | succeeds exactly on an identifier followed by the separator, taking those two tokens, with no type |
| ControlParsers.ParseBinding | src/parser/control.rs:90-92 | the typed form when it succeeds, otherwise the untyped one |
| ControlParsers.ParseForeachIndex | src/parser/control.rs:90-120 | an index binding ends on `,`; a typed index that parses is taken with its type |
| ControlParsers.ParseForeachValue | src/parser/control.rs:122-138 | a value binding ends on `in`; a typed value that parses is taken with its type |
| FunctionParsers.TypedArg | src/parser/function.rs:102-115 | a typed argument is the type's result followed by a name; a type error passes through |
| FunctionParsers.UntypedArg | src/parser/function.rs:117-129 | succeeds exactly on an identifier whose optional initializer does not fail fatally; it has no type and takes that name |
| FunctionParsers.ParseFunctionArg | src/parser/function.rs:98-100 | the typed form unless it fails softly, then the untyped one; consumes tokens |
| FunctionParsers.ArgParser | src/parser/function.rs:98-100 | the argument parser consumes tokens whenever it succeeds |
| FunctionParsers.ParseFunctionArgs | src/parser/function.rs:64-96 | never fails softly; a list of arguments with no trailing comma, or with one but no `...` after it, is that list, not variadic; the other cases are `NoArguments` and `VarargPlacement` |
| FunctionParsers.NoArguments | src/parser/function.rs:64-96 | with no first argument: `...` alone gives an empty vararg list, anything else no arguments, with nothing taken |
| FunctionParsers.VarargPlacement | src/parser/function.rs:64-96 | a list ending in a comma has no `...` after it; a vararg after arguments keeps the list's trailing comma and ends on `...`; an empty vararg list means no argument came first |
| Annotations.NewlinesBefore | src/annotation/mod.rs:261-265 | the number of new lines before an index is at most the index |
| Annotations.NewlinesBetween | src/annotation/mod.rs:261-265 | the new-line count never decreases, and stays the same between two indices exactly when no new line lies between them |
| Annotations.LineStart | src/annotation/mod.rs:263 | the start of the line holding an index follows a new line or is 0, and no new line lies between it and the index |
| Annotations.LineContaining | src/annotation/mod.rs:261-265 | the line number is at least 1 and the line start is where the line of the index begins |
| Annotations.LineNumberCounts | src/annotation/mod.rs:262 | the line number is one more than the new lines before the line start |
| Annotations.SameLine | src/annotation/mod.rs:261-265 | two indices have the same line number exactly when no new line lies between them; line numbers never decrease |
| Annotations.LineStartsOrdered | src/annotation/mod.rs:261-265 | line starts never decrease as the index grows |
| Annotations.LineEnd | src/annotation/mod.rs:219 | the end of a line is the next new line or the end of the text, with no new line before it |
| Annotations.NewSingleLine | src/annotation/mod.rs:215-230 | the single line is the text of the highlight's line with no new line in it, numbered by `LineContaining`; a highlight on that line maps to the same text inside the line |
| Annotations.HighlightInLine | src/annotation/mod.rs:219-225 | a highlight with no new line lies inside its line, and the line's slice at the shifted highlight is the highlighted text |
| Annotations.NewMultiLine | src/annotation/mod.rs:232-258 | the line numbers are those of the first and last highlighted characters, the visible numbers those of the visible range, and the lines are the text from the first line's start to the last line's end |
| Annotations.NewFormatData | src/annotation/mod.rs:188-196 | the multi-line form is chosen exactly when the highlight contains a new line, and its line numbers are in order |
| Annotations.MultiLineSpansLines | src/annotation/mod.rs:188-196 | a highlight not ending in a new line contains one exactly when its first and last characters are on different lines |
| Annotations.MaxLineNumber | src/annotation/mod.rs:67-71 | the largest last line number of all annotations, 0 when there are none |
| AnnotationFormats.LongLineWindow | src/annotation/formats.rs:19-39 | a 120-wide window inside the line, centred on the highlight's middle where the line allows; an edge is elided exactly when it is more than four characters from the line's edge; a highlight inside the window is shifted to window columns |
| AnnotationFormats.DisplayedLine | src/annotation/formats.rs:19-63 | a line of at most 120 characters is printed whole; a longer one as exactly 120 characters: the window's characters, with `"... "` or `" ..."` over an elided edge |
| AnnotationFormats.Later | src/annotation/formats.rs:130 | at most two ranges follow the first |
| AnnotationFormats.PrintedRangesAsWritten | src/annotation/formats.rs:97-119 | the range choice as written; printing starts at the line after the first |
| AnnotationFormats.PrintedRanges | src/annotation/formats.rs:93-119 | the corrected range choice; printing starts at the line after the first |
| AnnotationFormats.CorrectedFits | src/annotation/formats.rs:93-119 | the corrected ranges lie within the highlighted lines, in order, with at least two lines between printed ranges |
| AnnotationFormats.CorrectedCovers | src/annotation/formats.rs:93-96 | the corrected ranges print the second line, the last two lines and every must-be-visible line |
| AnnotationFormats.AsWrittenDropsLines | src/annotation/formats.rs:97-119 | with lines 1 to 10 and only line 1 visible, the as-written choice never prints line 2; with only line 10 visible it never prints line 9; the corrected choice prints both |
| AnnotationFormats.RunRows | src/annotation/formats.rs:122-127 | a run of printed lines holds the numbered lines from `low` up to `high` with their text |
| AnnotationFormats.ShownAppend | src/annotation/formats.rs:121-143 | the line numbers shown by two row lists are those of each list, concatenated |
| AnnotationFormats.ShownRun | src/annotation/formats.rs:122-127 | a run shows exactly the lines from `low` up to `high` |
| AnnotationFormats.ShownLater | src/annotation/formats.rs:130-143 | the later ranges show exactly the lines inside one of them |
| AnnotationFormats.LayoutShows | src/annotation/formats.rs:81-143 | the printed layout shows a line exactly when it is the first line or falls in a printed range |
| AnnotationFormats.LaterNumbered | src/annotation/formats.rs:130-143 | every line row of the later ranges carries the text of its own line |
| AnnotationFormats.LayoutNumbered | src/annotation/formats.rs:81-143 | every line row of the layout carries the text of its own line |
| AnnotationFormats.LaterSkipsAtLeastTwo | src/annotation/formats.rs:131-132 | with ranges at least two lines apart, every skip row elides at least two lines |
| AnnotationFormats.SkipsAtLeastTwo | src/annotation/formats.rs:93-143 | with the corrected ranges, no skip marker stands for fewer than two lines |
| AnnotationFormats.TakeLines | src/annotation/formats.rs:122-128 | the loop prints the next `count` lines as numbered rows and advances the line number and the iterator by `count` |
| AnnotationFormats.RunExtend | src/annotation/formats.rs:135-141 | a run one line longer is the shorter run plus that line |
| AnnotationFormats.PrintRange | src/annotation/formats.rs:131-142 | a range prints one skip row for the gap, then its lines, and moves the line number to its end |
| AnnotationFormats.LaterRowsStep | src/annotation/formats.rs:130-143 | the later ranges print the first one's skip row and lines, then the rest |
| AnnotationFormats.PrintLines | src/annotation/formats.rs:121-143 | the loops produce exactly the rows of `Layout` |
| AnnotationFormats.PrintLater | src/annotation/formats.rs:130-143 | the loop over the second and third ranges produces exactly the rows `LaterRows` gives for them |
| LegacyShared.Rest | sqparse/src/parser/shared.rs:42-63 | dropping `n` tokens shortens the list by `n` and moves the offset by `n` |
| LegacyShared.Consumed | sqparse/src/parser/shared.rs:149-153 | the consumed part followed by the rest gives back the input, at the same offset |
| LegacyShared.LegacyTerminal | sqparse/src/parser/shared.rs:42-63 | succeeds exactly when the first token is the terminal, taking it; an empty list is incomplete by one token; otherwise a recoverable `expected terminal` at the offset |
| LegacyShared.Adjacent2 | sqparse/src/parser/shared.rs:111-125 | succeeds exactly on the two terminals with no gap between them, taking both; with a gap it is a recoverable `expected compound` |
| LegacyShared.Adjacent3 | sqparse/src/parser/shared.rs:127-147 | succeeds exactly on the three terminals with no gap between each pair, taking all three; with a gap it is a recoverable `expected compound` |
| LegacyShared.ManySeparatedSpec | sqparse/src/parser/shared.rs:178-224 | the result leaves a suffix of the input; a recoverable value error stops the loop with the values so far |
| LegacyShared.ManySeparatedKeeps | sqparse/src/parser/shared.rs:192-221 | values are only appended: the earlier ones stay a prefix |
| LegacyShared.LineEndSeparates | sqparse/src/parser/shared.rs:199-207 | a value that ends its line needs no separator: it is kept without one and the loop goes on after it |
| LegacyShared.ManySeparated | sqparse/src/parser/shared.rs:178-224 | the loop computes `ManySeparatedSpec` |
| LegacyShared.TillSpec | sqparse/src/parser/shared.rs:226-270 | the terminator is tried first and ends the list with the values so far; a terminator error that is not recoverable is returned; when neither the terminator nor a value parses the value's error is returned |
| LegacyShared.AfterValue | sqparse/src/parser/shared.rs:242-263 | after a value the terminator ends the list with that value appended, without a separator |
| LegacyShared.TillEndsWithTerminator | sqparse/src/parser/shared.rs:226-270 | a successful list always ends with a terminator parsed at some suffix of the input |
| LegacyShared.AfterValueEndsWithTerminator | sqparse/src/parser/shared.rs:242-263 | after a value, a successful list also ends with a terminator |
| LegacyShared.SuffixTransitive | sqparse/src/parser/shared.rs:226-270 | a suffix of a suffix is a suffix |
| LegacyShared.ManySeparatedTill | sqparse/src/parser/shared.rs:226-270 | the loop computes `TillSpec` |
| CommentWrap.TrimmedLength | sqfmt-lib/src/comment.rs:99 | the trimmed length is where the trailing run of whitespace before `upto` begins |
| CommentWrap.TrimEnd | sqfmt-lib/src/comment.rs:99 | a prefix of the text ending in a non-whitespace character, with only whitespace cut off |
| CommentWrap.LineSpaceEnd | sqfmt-lib/src/comment.rs:147 | the end of the run of non-newline whitespace starting at `from` |
| CommentWrap.TrimLineSpace | sqfmt-lib/src/comment.rs:147 | a suffix of the text not starting with non-newline whitespace, with only such whitespace cut off |
| CommentWrap.TrimLineStart | sqfmt-lib/src/comment.rs:143-148 | a suffix of the line: one leading new line and then non-newline whitespace are cut off, and nothing else |
| CommentWrap.RemoveDocLineStart | sqfmt-lib/src/comment.rs:150-154 | a suffix of the trimmed line |
| CommentWrap.DocLineStart | sqfmt-lib/src/comment.rs:150-154 | after trimming, `* ` or a lone `*` is removed from the front, and anything else is left alone |
| CommentWrap.FindLineOrText | sqfmt-lib/src/comment.rs:158 | the first character that is a new line or not whitespace; everything before it is non-newline whitespace |
| CommentWrap.StripDocPrefix | sqfmt-lib/src/comment.rs:156-160 | a doc comment exactly when the text starts with `*` and only non-newline whitespace lies between it and a new line; the doc text is what follows that new line |
| CommentWrap.FirstNewline | sqfmt-lib/src/comment.rs:109 | the first new line in the range, or its end when there is none |
| CommentWrap.LastWhitespace | sqfmt-lib/src/comment.rs:117-118 | the last whitespace before `upto`, or none when there is no whitespace there |
| CommentWrap.FirstWhitespace | sqfmt-lib/src/comment.rs:120-123 | the first whitespace from `from` on, or the end of the text |
| CommentWrap.Window | sqfmt-lib/src/comment.rs:107 | the window is `columns + 1` characters, or the whole text when shorter |
| CommentWrap.FindBreak | sqfmt-lib/src/comment.rs:107-126 | the break lies inside the text, and a new-line break is at a new line |
| CommentWrap.BreakChosen | sqfmt-lib/src/comment.rs:107-126 | a new line in the window wins; text that fits is taken whole; otherwise the last whitespace in the window, or else the first whitespace after it, or else the end; no new line lies before the break |
| CommentWrap.Remainder | sqfmt-lib/src/comment.rs:129-133 | what is left after the break is a suffix, and a leading new line or space is always removed |
| CommentWrap.NextLine | sqfmt-lib/src/comment.rs:104-136 | the rest after a line is a suffix of the text after the break |
| CommentWrap.SplitAtBreak | sqfmt-lib/src/comment.rs:128-135 | the text kept after a break is a suffix of the text after the break position |
| CommentWrap.SuffixOfSuffix | sqfmt-lib/src/comment.rs:128-133 | a suffix of the text after the break is a suffix of the text |
| CommentWrap.LineBeforeBreak | sqfmt-lib/src/comment.rs:128-135 | the line is a prefix of the text before the break, with no new line, and without whitespace when none was there |
| CommentWrap.NextLineShape | sqfmt-lib/src/comment.rs:104-136 | each line is a prefix of the text that does not end in whitespace and either fits the columns or is a single word |
| CommentWrap.NextLineShortens | sqfmt-lib/src/comment.rs:104-136 | each line taken shortens the remaining text, so wrapping ends |
| CommentWrap.InitialText | sqfmt-lib/src/comment.rs:93-99 | the starting text is no longer than the input and does not end in whitespace |
| CommentWrap.InitialTextKeeps | sqfmt-lib/src/comment.rs:93-99 | text with no whitespace at either end is kept whole |
| CommentWrap.TextWrapIter.constructor | sqfmt-lib/src/comment.rs:93-102 | the iterator starts on the trimmed text, in the mode asked for |
| CommentWrap.TextWrapIter.Next | sqfmt-lib/src/comment.rs:104-136 | a finished iterator gives nothing; otherwise the next line of `NextLine`, and the iterator is done exactly when nothing is left |
| CommentWrap.WrapStep | sqfmt-lib/src/comment.rs:104-136 | wrapping gives the next line, then the wrapping of the rest |
| CommentWrap.PrependWellWrapped | sqfmt-lib/src/comment.rs:104-136 | a well-wrapped line in front of well-wrapped lines keeps them well wrapped |
| CommentWrap.WrappedLinesFit | sqfmt-lib/src/comment.rs:104-136 | every wrapped line fits the columns unless it is a single word longer than them |
| CommentWrap.TrimEndKeeps | sqfmt-lib/src/comment.rs:135 | a line with no trailing whitespace is kept whole |
| CommentWrap.TrimLineStartSpace | sqfmt-lib/src/comment.rs:143-154 | one space before a word is removed; in a doc comment a `*` after it is removed too |
| CommentWrap.FillsLine | sqfmt-lib/src/comment.rs:104-136 | a line that fits, followed by a word that would overflow it, is taken whole and the word starts the rest |
| CommentWrap.LastLine | sqfmt-lib/src/comment.rs:111 | a last line that fits is taken whole, leaving nothing |
| CommentWrap.WordAlone | sqfmt-lib/src/comment.rs:117-124 | with no columns, each word is a line of its own |
| CommentWrap.LastWordAlone | sqfmt-lib/src/comment.rs:120-123 | with no columns, a last word is a line of its own |
| CommentWrap.JoinWords | sqfmt-lib/src/comment.rs:177-198 | space-joined words start with the first word and end with the last |
| CommentWrap.HeadTail | sqfmt-lib/src/comment.rs:177-198 | a non-empty list is its head followed by its tail |
| CommentWrap.OneWordPerLine | sqfmt-lib/src/comment.rs:104-136 | with no columns, wrapping space-joined words gives back the words |
| CommentWrap.GreedyHead | sqfmt-lib/src/comment.rs:104-136 | when the next line's first word does not fit after the first line, the first line is taken whole |
| CommentWrap.GreedyLines | sqfmt-lib/src/comment.rs:104-136 | lines that each fit, where no line has room for the next one's first word, wrap back to themselves |
| CommentWrap.JoinedKeeps | sqfmt-lib/src/comment.rs:93-99 | space-joined words with no whitespace at either end are kept whole at the start |
| CommentWrap.TestLinesFull | sqfmt-lib/src/comment.rs:176-182 | each expected line of the wrapping test fits 17 columns |
| CommentWrap.TestLinesGreedy | sqfmt-lib/src/comment.rs:176-182 | no expected line of the wrapping test has room for the next one's first word |
| CommentWrap.SingleLineWrapping | sqfmt-lib/src/comment.rs:176-182 | the test's text wraps at 17 columns into its four expected lines |
| CommentWrap.SingleLineNoColumn | sqfmt-lib/src/comment.rs:192-198 | with no columns, the test's text wraps one word per line |
| Writers.Repeat | sqfmt-lib/src/writer.rs:106 | the indent repeated `n` times is `n` times as long |
| Writers.Writer.constructor | sqfmt-lib/src/writer.rs:32-47 | a new writer has no lines, an empty current line, every column left, and line breaks allowed at depth 0 |
| Writers.Writer.RemainingColumns | sqfmt-lib/src/writer.rs:53-55 | the columns left, never negative: the limit less the current line, or 0 once the line is at or past the limit |
| Writers.Writer.NewLine | sqfmt-lib/src/writer.rs:99-112 | fails, changing nothing, exactly on a single-line writer; otherwise the current line is finished and a new one starts with the indentation, its columns counted |
| Writers.Writer.EmptyLine | sqfmt-lib/src/writer.rs:89-97 | a blank current line is left as it is and succeeds; otherwise it behaves as `NewLine` |
| Writers.Writer.Space | sqfmt-lib/src/writer.rs:114-120 | one space is added, taking one column, unless the line is empty or already ends in whitespace |
| Writers.Writer.Put | sqfmt-lib/src/writer.rs:122-143 | the text is appended and its length taken from the columns; it fails exactly when a single-line writer overflows |
| Writers.Writer.WithConfig | sqfmt-lib/src/writer.rs:65-71 | the body runs under the new configuration; it succeeds exactly when `RunWith` does, and then the fields are `RunWith`'s state, with the original configuration back; finished lines are only ever added to |
| Writers.Writer.Perform | sqfmt-lib/src/writer.rs:65-133 | one action succeeds exactly when `RunOne` does, and then the fields are `RunOne`'s state: `with_single_line` and `with_indent` restore the configuration, lines are only added to, and the column count stays right |
| Writers.Writer.PerformAll | sqfmt-lib/src/writer.rs:65-133 | the actions run in order and stop at the first failure; the loop succeeds exactly when `RunAll` does, and then the fields are `RunAll`'s state |
| Writers.RunAllStep | sqfmt-lib/src/writer.rs:65-133 | the actions from position `i` on are the action at `i`, then, if it succeeds, the ones after it |
| Writers.RunOneKeeps | sqfmt-lib/src/writer.rs:65-133 | an action that succeeds keeps the configuration, only appends finished lines, and keeps the column count in step with the current line |
| Writers.RunAllKeeps | sqfmt-lib/src/writer.rs:65-71 | the same for a sequence of actions, so a nested piece under `with_config` gives back the original configuration |
| Writers.Writer.ToString | sqfmt-lib/src/writer.rs:146-156 | the loop computes `Render` |
| Writers.AppendAssociates | sqfmt-lib/src/writer.rs:146-156 | appending to a string is associative |
| Writers.RenderStep | sqfmt-lib/src/writer.rs:149-152 | rendering from line `i` is that line right-trimmed, a new line, then the rest |
| Writers.TrimAll | sqfmt-lib/src/writer.rs:150 | each line right-trimmed, in order |
| Writers.SplitLines | sqfmt-lib/src/writer.rs:146-156 | splitting at new lines gives at least one piece |
| Writers.SplitFirst | sqfmt-lib/src/writer.rs:146-156 | a line with no new line, then a new line, splits off as the first piece |
| Writers.TrimEndNoNewline | sqfmt-lib/src/writer.rs:150 | trimming a line with no new line leaves none |
| Writers.SplitHead | sqfmt-lib/src/writer.rs:146-156 | the rendered output splits into the first line, trimmed, then the split of the rest |
| Writers.RenderSplits | sqfmt-lib/src/writer.rs:146-156 | splitting the output at new lines gives back every line and the current line, each right-trimmed |
| TokenFormat.DigitCharValue | sqfmt-lib/src/token.rs:104-110 | every digit below the base prints as a digit of that base that reads back as itself |
| TokenFormat.Digits | sqfmt-lib/src/token.rs:104-110 | the digits of a number are non-empty, in the base, and a positive number has no leading zero |
| TokenFormat.ValueOfAppend | sqfmt-lib/src/token.rs:104-110 | one more digit multiplies the value by the base and adds the digit |
| TokenFormat.QuotientRemainder | sqfmt-lib/src/token.rs:104-110 | quotient times base plus remainder gives the number back in each base used |
| TokenFormat.DigitsRoundTrip | sqfmt-lib/src/token.rs:104-110 | the printed digits read back as the number |
| TokenFormat.Unsigned | sqfmt-lib/src/token.rs:107-108 | the two's-complement bits of a 64-bit value: itself when non-negative, otherwise the value plus 2^64, at least 2^63 |
| TokenFormat.IntToBaseString | sqfmt-lib/src/token.rs:104-110 | decimal is signed exactly when the value is negative; octal starts with `0` and hexadecimal with `0x`; `TokenFormat.IntToBaseStringReadsBack` proves that the digits read back as the value |
| TokenFormat.IntToBaseStringReadsBack | sqfmt-lib/src/token.rs:104-110 | decimal is a minus sign and the magnitude, or the value, with no leading zero; octal is `0` and the bits in base 8; hexadecimal is `0x` and the bits in base 16 |
| TokenFormat.IntToBaseStringExamples | sqfmt-lib/src/token.rs:156-169 | 123 prints as `123`, `0x7b` and `0173` |
| TokenFormat.StringText | sqfmt-lib/src/token.rs:118-120 | a string literal ends in `"` and starts with one exactly when it is a plain literal (`@` and `$` come first otherwise); `TokenFormat.StringTextRoundTrip` proves it reads back |
| TokenFormat.StringTextRoundTrip | sqfmt-lib/src/token.rs:118-120 | a printed string literal reads back as the same kind of string with the same text |
| TokenFormat.TokenText | sqfmt-lib/src/token.rs:89-123 | only the empty token prints nothing; a terminal prints its text, an identifier its name, and a string literal text that reads back as it |
| TokenFormat.WriteTokenType | sqfmt-lib/src/token.rs:89-102 | the empty token changes nothing and succeeds; any other token's text is appended, its length taken from the columns, failing exactly when a single-line writer overflows |
| TokenFormat.TerminalTexts | sqfmt-lib/src/token.rs:140-154 | `throw` and `<=>` print as themselves |
| TokenFormat.LeadingEmpty | sqfmt-lib/src/token.rs:54 | the number of leading lines without comments: all before it have none, the one at it has some |
| TokenFormat.LeadingEmptyStep | sqfmt-lib/src/token.rs:54 | skipping a line without comments counts one more |
| TokenFormat.LeadingEmptyStop | sqfmt-lib/src/token.rs:54 | skipping stops at a line with comments |
| TokenFormat.CollapseStep | sqfmt-lib/src/token.rs:57-68 | one round of the loop emits for its line, then the rest follows with that line's emptiness |
| TokenFormat.TokenBeforeLines | sqfmt-lib/src/token.rs:52-72 | the loops compute `BeforeLines` |
| TokenFormat.CollapseFrom | sqfmt-lib/src/token.rs:57-68 | the collapsing loop computes `Collapse` on the lines after the skipped ones |
| TokenFormat.CollapseAdvance | sqfmt-lib/src/token.rs:57-68 | one turn of the loop appends what its line prints, keeping the loop invariant |
| TokenFormat.CollapseNoDoubleBlank | sqfmt-lib/src/token.rs:57-68 | the output never has two line breaks in a row, and starts with comments after an empty line |
| TokenFormat.CollapseKeepsComments | sqfmt-lib/src/token.rs:57-68 | every line's comments are printed, in order |
| TokenFormat.SkippedHoldNoComments | sqfmt-lib/src/token.rs:54 | the skipped leading lines hold no comments |
| TokenFormat.BeforeLinesShape | sqfmt-lib/src/token.rs:52-72 | all comments are printed in order, the output does not start with a line break, and no two line breaks are consecutive |
| TokenFormat.BeforeLinesExample | sqfmt-lib/src/token.rs:334-360 | the test's lines print as the first comment, one line break, then the other two comments |

## Left out

- Float literals. The source parses and prints them with a floating-point library. Parsing is a parameter that reports only how many characters a float takes, so the lexer's control flow is kept. A successful parse is assumed to take at least one character, as a partial float parse that reads nothing is an error. Printing is a `floatText` parameter of `TokenFormat.TokenText`.
- The integer value of a number literal. It comes from a library call and is a parameter whose result must lie in the text it read.
- The keyword `HashMap` in `src/lexer/identifier.rs`. It is modelled as a lookup over the `IDENTIFIERS` table, which gives the same answers.
- The grammar rules of `class.rs`, `table.rs`, `slot.rs`, `global.rs`, `type_.rs`, `struct_.rs`, `enum_.rs`, `array.rs` and `variable.rs`. Their parsers are parameters that read at least one token when they succeed. Function declarations are parameters in the same way.
- The statement forms other than empty, constructor, function and variable declarations, `return`, `yield`, `const` and expression statements. They keep their place in the dispatch order, and their rules are parameters.
- The affinity of a parse error. `src/parser/error.rs` defines a two-argument `ParseError::new`. `src/parser/token_list_ext.rs` calls a three-argument one that takes a `TokenAffinity`. The model carries the affinity and uses `Inline` at every two-argument call site.
- `replace_context` and `ContextType::Span`. They are used in `src/parser/parse_result_ext.rs` and `src/parser/combinator.rs` but defined in no source file. `ParseResultExts.ReplaceContextFrom` applies the merge rule of `with_context` instead.
- `alternative`. It is used by `src/parser/statement.rs` but not defined in `src/parser/combinator.rs`. The model reads it as `definitely`: the first part decides, and errors after it are fatal with the construct's context.
- `LexerError::new`. `src/lexer/literal.rs` passes the range first and `src/lexer/token_iter.rs` passes the error type first. The model gives every error its type and range.
- Byte offsets. Offsets count characters, which equal the source's byte offsets for ASCII text. Multi-byte UTF-8 characters are not modelled.
- Unicode whitespace. `char::is_whitespace` is the Unicode White_Space set, kept as a set of characters. Case mapping and normalisation do not arise.
- Coloured rendering. This covers the gutter, the line printer, the terminal colours and the `Display` implementations of errors. Annotation printing is modelled as a list of rows: numbered lines and skip markers.
- Iterator exhaustion in the multi-line printer. `AnnotationFormats.PrintLines` requires the ranges to lie within the highlighted lines, so the source's `lines_iter` never runs out.
- `with_single_line`, `with_indent` and the formatter combinators take closures in the source. The model runs them over a small language of writer actions (`Writers.Action`).
- The comment printers `comment`, `multi_line_comment`, `doc_comment` and `single_line_comment` in `sqfmt-lib/src/comment.rs`. They are closure plumbing around `TextWrapIter`, which is modelled. So are the comment-list printers and `token` in `sqfmt-lib/src/token.rs`.
- `discard_token`. The comment lists it prints go through the comment printers above. Its guard, which refuses a token ending a line on a single-line writer before writing anything, is the failure condition of `Writers.Writer.NewLine` and is not modelled apart from it.
- LegacyShared.ManySeparatedSpec: requires a value parser that reads at least one token when it succeeds, and so do `LegacyShared.ManySeparated`, `LegacyShared.TillSpec`, `LegacyShared.ManySeparatedTill` and their lemmas. `many_separated` and `many_separated_till` in `sqparse/src/parser/shared.rs` have no such guard. The source loops forever only when the value parser and then the separator both succeed without reading a token. A value that reads nothing never ends a line, since `end_of_line` is false on an empty token list (`sqparse/src/parser/mod.rs:41-46`), so the separator is always asked. The requires is stronger than that: it also leaves out a value parser that reads nothing and is followed by a separator that reads a token, on which the source still ends.
- AnnotationFormats.PrintedRanges: requires, like `PrintedRangesAsWritten`, `CorrectedFits`, `CorrectedCovers` and `SkipsAtLeastTwo`, that the must-be-visible line numbers are in order. `new_multi_line` in `src/annotation/mod.rs` guarantees this for a non-empty visible range. An empty visible range just after a line break makes its last line number one less than its first, and the model leaves that input out.
- `println!` diagnostics and `debug_assert!` are left out.
- The source's tests. They are stated as lemmas over their inputs and expected lines. The comment-wrapping tests are stated on the wrapped lines rather than on the `// ` prefixes the comment printer adds.
- Out-of-range slices, on which the source panics. Preconditions exclude them: highlights that do not lie in the text, and windows of lines no longer than 120 characters.
- TokenFormat.TokenText: an integer literal outside the 64-bit range cannot come from the lexer, whose values are `i64`. The model prints it as the empty string.
- Expressions.ParseValue: its contract states progress and that a value is not an operation. The order of the value forms and the `ExpectedExpression` fallback are stated by `Expressions.FunctionValueFirst` and `Expressions.NoValueMatches`.

## Findings

| source | as written | input that shows it | evidently intended | confidence | as-written member | corrected member |
|---|---|---|---|---|---|---|
| src/annotation/formats.rs:97-119 | merging two ranges keeps the start of the first and the end of the second, and can drop lines that should be printed | highlight over lines 1 to 10 with only line 1 visible: line 2 is never printed; with only line 10 visible, line 9 is never printed | a merge keeps the union of both ranges, so the first two and last two highlighted lines are always printed | high, not executed | AnnotationFormats.PrintedRangesAsWritten | AnnotationFormats.PrintedRanges |
| src/parser/context.rs:122-124 | the description of the enum statement context starts with a space | the `EnumStatement` context | the description without the leading space, like every other context | medium, not executed | Contexts.EnumDisplayLeadingSpace | Contexts.Description |
