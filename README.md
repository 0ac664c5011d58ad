# MCCS front end in Dafny

MCCS compiles a small language to Minecraft datapacks. This project models
its front end and proves properties of the model:

- **The tokenizer** (`Lexer`). It is a cursor over the source characters, with
  one sentinel line break appended. It emits words, symbols and line breaks.
  It recurses into `{...}` blocks and into `(...)` groups, which are split at
  commas.
- **The token tree** it builds (`Tokens`), with `get_scope`, the `new_*`
  constructors and the debugging printer.
- **The diagnostics** (`Errors`): offset to line number, line bounds, the
  gutter, the caret row, and the two fatal reports.
- **The declaration parser** (`Parser`). It collects modifiers, records the
  `datapack` name and turns every `fn <name> {...}` into a parsed function. It
  also has the `elems_to_string` list printer.
- **The source registry** (`Sources`) and the rendering of a source range.

The original stops the process on a rogue closing brace, an unterminated
block or group, or an illegal top-level token. Here each of those paths
returns an error value:

- `LexSpec.LexError` for the tokenizer;
- `Parser.ParseError` for the parser.

`LexSpec.Report`, `Parser.Report`, `Errors.IllegalToken` and
`Errors.MissingClosingBrace` give the lines the original prints for these
errors, without colours.

How the operations are specified:

- **The tokenizer's methods** promise that their tokens are well formed over
  the character sequence (`LexSpec.TokenWF`). A word is a maximal run of word
  characters equal to the text under its scope. Symbols and line breaks are
  one character wide. A block or group encloses a tiling of the text between
  its braces, and a token sequence tiles its range up to blanks
  (`LexSpec.TokensWF`, `LexSpec.ElemsWF`).
- **The tokenizer's errors** are the first failure the scan meets
  (`LexSpec.ErrorWF`, `LexSpec.LexErrorWF`). Reading fails at a position
  either right there, on a `}` or `)` or on an opener whose contents tile
  up to the sentinel, or after an opener whose contents tile up to a
  character other than its closer, where reading fails in turn. Tilings
  and these errors are unique, so the error a method returns is
  determined by the text.
- **The parser's loop** is proved equal to a pure reference function,
  `Parser.ParseFrom`. The parser's properties are then lemmas about that
  function.
- **`get_line` and `get_line_src`** are loops proved equal to counting
  functions, `Errors.LineOf` and `Errors.LineBounds`.

Modules:

| file | module |
|---|---|
| wrappers.dfy | `Wrappers`: `Option`, `Result` |
| strings.dfy | `Strings`: decimal numerals, padding, joining, concatenation lemmas |
| tokens.dfy | `Tokens`: the token tree and its printer |
| lexspec.dfy | `LexSpec`: character classes, lexer errors, well-formed token trees |
| lexer.dfy | `Lexer`: the `Lexer` class |
| errors.dfy | `Errors`: line arithmetic and the reports |
| parser.dfy | `Parser`: the `Parser` class, its reference function, list printing |
| sources.dfy | `Sources`: the registry class and `SourceRef` |

## Model

| member | source | states |
|---|---|---|
| Lexer.Lexer.constructor | src/lexer.rs:16-27 | `chars` is the source followed by exactly one `'\n'`. `size` is the source length plus one, `index` is 0 and `tokens` is empty. |
| Lexer.Lexer.NewScope | src/lexer.rs:168-173 | The scope is in the lexer's own file and has the given start and end. |
| LexSpec.IsSepChar | src/lexer.rs:176-183 | A character is a separator exactly when it is one of the twelve characters of `LexSpec.SeparatorChars`: the four parentheses and braces, the two square brackets, semicolon, comma, full stop, exclamation mark, vertical bar and colon. |
| Lexer.Lexer.Lex | src/lexer.rs:29-40 | `lex` terminates and leaves the cursor on the sentinel. Earlier tokens are kept. On success the new tokens tile the text from the start position up to the sentinel: they are in order, do not overlap, leave only blanks unclaimed and never cover the sentinel. `lex` succeeds exactly when such a tiling exists (`LexSpec.Tileable`), so an error means none does. The error is the one the scan meets (`LexSpec.LexErrorWF`): the text tiles up to a position where reading a token fails, and the error is the one met there. That error is unique (`LexSpec.LexErrorUnique`). |
| Lexer.Lexer.Next | src/lexer.rs:42-79 | On a non-blank character, `next` consumes at least one character. Its token is well formed, starts at the old cursor and ends at the new one. On an error no well-formed token starts at the old cursor (`LexSpec.NoTokenAt`). The error is the one reading from there meets (`LexSpec.ErrorWF`): a `}` or `)` right at the cursor, an opener at the cursor whose contents tile up to the sentinel, or the error met after an opener's contents at a character that is not its closer. |
| Lexer.Lexer.NextSymbol | src/lexer.rs:81-88 | The symbol is the character under the cursor, with a scope one character wide. The cursor moves by one. |
| Lexer.Lexer.NextGroup | src/lexer.rs:90-132 | The group is well formed. Each comma closes an element with that comma as its separator, even an empty element. `)` adds a final element with no separator only when tokens are pending. On an error no well-formed token starts at the `(`, and the error is the one the scan from the `(` meets (`LexSpec.ErrorWF`). When the contents tile up to the sentinel it is the missing brace at this `(`. Otherwise it is the error met where the contents stop at a character other than `)`. |
| LexSpec.GroupSeparate | src/lexer.rs:114-122 | A comma closes the pending element, even an empty one, with the comma as its separator. A new empty element starts after it. |
| LexSpec.GroupGrow | src/lexer.rs:123-126 | A token read inside a group extends the pending element, and that element still holds no bare comma. |
| LexSpec.GroupSkip | src/lexer.rs:127-129 | Blanks inside a group extend the pending element. |
| LexSpec.GroupClose | src/lexer.rs:98-113 | At `)`, the pending tokens become a final element only if there are any. The group token is then well formed and spans from `(` to `)`. |
| LexSpec.BlockWF | src/lexer.rs:140-147 | At `}`, the tokens read since `{` form a well-formed block spanning from `{` to `}`. |
| Lexer.Lexer.NextBlock | src/lexer.rs:133-158 | The block is well formed and spans from `{` to the matching `}`. On an error no well-formed token starts at the `{`, and the error is the one the scan from the `{` meets (`LexSpec.ErrorWF`). When the contents tile up to the sentinel it is the missing brace at this `{`. Otherwise it is the error met where the contents stop at a character other than `}`. |
| LexSpec.StartChar | src/lexer.rs:47-66 | The first character of a well-formed token decides its kind. It is never a blank, `}` or `)`. It is `{` exactly for a block, `(` exactly for a group, and a word character exactly for a word. |
| LexSpec.WordRun | src/lexer.rs:68-78 | A lexed word covers only word characters, and the character after it is not one. |
| LexSpec.TokenUnique | src/lexer.rs:42-79 | Two well-formed tokens that start at the same position end at the same position, so what `next` reads from a position is determined. |
| LexSpec.TilingNotPast | src/lexer.rs:138-156 | A tiling that stops at a `}` or `)` cannot be extended past it by another tiling from the same start. |
| LexSpec.TilingMeet | src/lexer.rs:29-40 | If one tiling from a start reaches a non-blank position at which a shorter tiling stops, a token of the longer tiling starts exactly there. |
| LexSpec.TokensConcat | src/lexer.rs:29-40 | A tiling up to a position followed by a tiling from it is a tiling of the whole range. |
| LexSpec.ElemsFlat | src/lexer.rs:96-130 | A group's contents, commas included, tile the text between its brackets. |
| LexSpec.CloserNoToken | src/lexer.rs:55-58 | No well-formed token starts at a `}` or `)`. |
| LexSpec.ContentsMeet | src/lexer.rs:138-156 | When a bracket's contents tile up to its closer, consider another tiling from the same start that stops at a non-blank character other than that closer. It stops before the closer, at a position where a well-formed token starts. |
| LexSpec.NoTokenAtOpener | src/lexer.rs:90-158 | Suppose an opener's contents tile up to a non-blank position other than its own kind of closer. If that position starts no well-formed token, or is the sentinel, the opener starts none either. |
| LexSpec.ErrorInside | src/lexer.rs:123-152 | An error met by `next` where an opener's contents stop at a character other than its closer is the error met from the opener, and no well-formed token starts at that opener. |
| LexSpec.MissingAtEnd | src/lexer.rs:131-157 | Contents that tile up to the sentinel give the missing-brace error at the opener, and no well-formed token starts at that opener. |
| LexSpec.ErrorAtTop | src/lexer.rs:29-40 | An error met by `next` after a tiling from the start position is the lexer's error from that start, and then no tiling reaches the sentinel. |
| LexSpec.ErrorNoToken | src/lexer.rs:55-157 | A position where the scan meets an error is before the sentinel and holds an opener, `}` or `)`, and no well-formed token starts there. |
| LexSpec.TilingStopsAtError | src/lexer.rs:29-40 | A tiling from a start that the scan takes to an error never runs past that error's position. |
| LexSpec.HereOnly | src/lexer.rs:131-157 | When an error is met right at a position, every error the scan meets from there is met right there too. |
| LexSpec.ErrorUnique | src/lexer.rs:42-158 | Reading one token from a position meets at most one error: two errors the scan meets from the same position are equal. |
| LexSpec.LexErrorUnique | src/lexer.rs:29-40 | `lex` from a position can fail in only one way: two errors it meets from the same start are equal. |
| LexSpec.RogueFirstExample | src/lexer.rs:29-58 | For `} (`, the only error `lex` can give is the rogue `}` at 0, not the unclosed `(` after it. |
| LexSpec.InnerRogueExample | src/lexer.rs:133-158 | For `{ ) (`, reading at 0 can only give the rogue `)` at 2, not the unclosed `(` after it. |
| LexSpec.TokenSame | src/lexer.rs:42-79 | Two well-formed tokens that start at the same position are the same token, children and elements included. |
| LexSpec.TilingSame | src/lexer.rs:29-40 | A range has at most one tiling: two tilings of the same range are equal. |
| LexSpec.FlattenInjective | src/lexer.rs:96-130 | A group's contents, commas included, determine its elements: two element lists over the same range with the same flattened tokens are equal. |
| LexSpec.TokenSpan | src/lexer.rs:42-79 | Every well-formed token covers at least one character. |
| LexSpec.TokensSpan | src/lexer.rs:138-156 | A tiling runs forwards, and a non-empty tiling covers some text. Scopes therefore never overlap. |
| LexSpec.ElemsSpan | src/lexer.rs:96-130 | A group's elements run forwards, and a group with an element encloses some text. |
| LexSpec.EmptyGroup | src/lexer.rs:96-113 | `()` has no elements. |
| LexSpec.ScopeWithin | src/lexer/tokens.rs:13-21 | `get_scope` (`Tokens.GetScope`) of a lexed token is in its file and starts at the token's first position. It is non-empty and lies within the token and the text. For a word it is the word's text, and otherwise it is a single character. |
| LexSpec.PrintedLines | src/lexer/tokens.rs:39-76 | A lexed token prints as one line per node of its tree, counting a group's elements as nodes. |
| LexSpec.TokensAppend | src/lexer.rs:32-35 | Appending a well-formed token that starts where the tiling ends extends the tiling to the token's end. |
| LexSpec.TokensExtend | src/lexer.rs:36-38 | Blanks after a tiling extend it. |
| Lexer.Lexer.SkipWhitespace | src/lexer.rs:160-166 | Only blanks are skipped. The cursor stops on a non-blank or on the sentinel, and it moves at least once when started on a blank before the sentinel. |
| LexSpec.Report | src/lexer.rs:55-58 | A rogue brace is reported as an illegal `Symbol` token, underlined with the note "unexpected rougue closing-brace". A missing brace has the first line `MCCS ERROR: missing closing brace on line ` followed by the decimal of the line where input ran out. Its excerpt underlines the opening symbol with the fixed hint. |
| Tokens.NewWord | src/lexer/tokens.rs:23-25 | The word token keeps its value, and its scope is the given one. |
| Tokens.NewSymbol | src/lexer/tokens.rs:26-28 | The symbol token keeps its character, and its scope is the given one. |
| Tokens.NewLineBreak | src/lexer/tokens.rs:29-31 | The line-break token's scope is the given one. |
| Tokens.NewBlock | src/lexer/tokens.rs:32-34 | The block keeps its opening symbol, its closing symbol and its children. `get_scope` of the block is the opening symbol's scope. |
| Tokens.NewGroup | src/lexer/tokens.rs:35-37 | The group keeps its opening symbol, its closing symbol and its elements. `get_scope` of the group is the opening symbol's scope. |
| Tokens.WordLineSingle | src/lexer/tokens.rs:42-44 | `Word '<value>'` is a single line when the value is. |
| Tokens.DisplayChildrenAppend | src/lexer/tokens.rs:51-59 | Children are printed in order. One more child adds `"\n\t"` and its indented display at the end. |
| Tokens.SingleChildDisplay | src/lexer/tokens.rs:51-59 | A block with one child prints `Block`, `"\n\t"`, and the child's display with every line break followed by a tab. |
| Tokens.NestedDisplay | src/lexer/tokens.rs:51-59 | Each nesting level adds one tab: a word two blocks deep prints as `Block\n\tBlock\n\t\tWord '<value>'`. |
| Tokens.UnindentIndent | src/lexer/tokens.rs:57 | The `"\n"` to `"\n\t"` replacement loses nothing: undoing it gives the text back. |
| Tokens.IndentLength | src/lexer/tokens.rs:57 | The replacement adds exactly one tab per line break and keeps the number of lines. |
| Tokens.IndentConcat | src/lexer/tokens.rs:57 | The replacement distributes over concatenation. |
| Tokens.IndentSingleLine | src/lexer/tokens.rs:57 | The replacement leaves single-line text unchanged. |
| Tokens.DisplayElemsAppend | src/lexer/tokens.rs:61-72 | Group elements are printed in order, each under its own `"\n:Elem:"` line, empty ones included. Separators are not printed. |
| Tokens.DisplayBreaks | src/lexer/tokens.rs:39-76 | The printer `Tokens.Display` starts a new line for every child of a block, every element of a group and every token in an element, and adds no other line break. Indenting a child keeps its lines. |
| Errors.GetLine | src/errors.rs:119-128 | `get_line` is 1 plus the number of `'\n'` at indices up to and including `pos`. |
| Errors.LineOfMonotone | src/errors.rs:119-128 | The line number never decreases as the offset grows. The same holds for `Errors.LineAt`. |
| Errors.LineOfFirstLine | src/errors.rs:119-128 | An offset with no line break up to and including it is on line 1. |
| Errors.LineOfAgrees | src/errors.rs:119-128 | Away from a line break, `get_line` agrees with `Errors.LineAt`, which counts only the line breaks strictly before the offset. |
| Errors.LineOfAtNewlineOverruns | src/errors.rs:119-128 | At a line break, `get_line` gives the next line, which starts one past the offset. |
| Errors.ColumnUnderflowExample | src/errors.rs:77 | For `"datapack d\nfn main\n"` at offset 18, `scope.start - line_start` as written is -1. |
| Errors.NextNewline | src/errors.rs:133-138 | This is the first `'\n'` at or after `from`, or the end of the text. The range up to it holds no line break. |
| Errors.StartOfLine | src/errors.rs:139-141 | A line starts at 0 or just after a line break. |
| Errors.StartOfLineCount | src/errors.rs:129-142 | Line `n` starts after exactly `n-1` line breaks. When the text has fewer, it starts after all of them. |
| Errors.GetLineSrc | src/errors.rs:129-145 | The scan returns `Errors.LineBounds`: where line `line` starts, and its terminating `'\n'` or the text's end. |
| Errors.LineBoundsAreALine | src/errors.rs:129-145 | The range is ordered and inside the text. It holds no line break, starts at 0 or after a `'\n'`, and ends at a `'\n'` or at the text's end. |
| Errors.LineBoundsIsNthLine | src/errors.rs:129-142 | For an existing line number `n`, exactly `n-1` line breaks precede the range. |
| Errors.LineBoundsPastEnd | src/errors.rs:143 | Past the last line, and for line 0, the range ends at the text's end (`unwrap_or(src.len())`). |
| Errors.StartOfLineSaturates | src/errors.rs:133-143 | Past the last line break, every line number starts at the same place. |
| Errors.LineAtInsideLine | src/errors.rs:60-61 | With line breaks counted strictly before the offset, the line found starts at or before the offset. Inside the text it also ends at or after it. |
| Errors.Locate | src/errors.rs:60-63 | This gives the line number, the line's bounds and the column. The line is preceded by `line-1` line breaks, `lineStart + column` is the offset, the line holds no break, and the offset lies on it. |
| Errors.Gutter | src/errors.rs:101-117 | The gutter ends in a blank, a vertical bar and a blank. For `None` it is 8 characters and blank before the bar. For a number, its decimal digits come right before the ` \| `, with only blanks before them, and the whole is the wider of 5 and the digits plus 3 characters: 8 below 100000. |
| Errors.CaretRow | src/errors.rs:64-70 | The row is `indent` blanks, then exactly `width` carets, then a blank and the note. |
| Errors.SourceRowText | src/errors.rs:82-89 | Past the 8-column gutter, the source row holds the line's text. |
| Errors.MarkRowCarets | src/errors.rs:64-70 | Past the gutter, the mark row is blanks up to the indent and then `end - start` carets. |
| Errors.RowAlignment | src/errors.rs:58-90 | The carets sit under the scope. The scope's first character is at column `8 + column` of the source row. The mark row has blanks before that column and carets from it for the scope's width. |
| Errors.UnderlineLayout | src/errors.rs:58-90 | `underline_word` (`Errors.UnderlineWord`) is the optional `-->` header naming the path, line and column that `Errors.Locate` gives at the scope's start, then a blank gutter line, the numbered source row of that line, a line break and the mark row. |
| Errors.UnderlineSourceRow | src/errors.rs:60-63 | In `underline_word`, the column is the scope's offset on its line. Below line 100000, the source row is the 8-column gutter plus the line's text, and a scope starting on that text has its first character at offset `8 + column`. |
| Errors.UnderlineMarkRow | src/errors.rs:64-70 | In `underline_word`, the mark row is blank from the gutter up to offset `8 + column`, then has one caret per character of the scope, then a blank and the note. |
| Errors.ShowCode | src/errors.rs:91-100 | For every line number the excerpt is a blank gutter, a line break, the gutter numbered with that line, the code, a line break and a blank gutter, each at the offset that the numbered gutter's width gives. Below line 100000 these offsets are fixed. |
| Errors.MissingClosingBrace | src/errors.rs:12-29 | The title is `MCCS ERROR: missing closing brace on line ` followed by the decimal of the line where input ran out, which reads back as that number. The excerpt underlines the opening scope with the hint `help: missing paired closing brace`. |
| Errors.IllegalToken | src/errors.rs:31-55 | The title shows the token. The excerpt underlines `get_scope` of the token with the note. The help message and code excerpt follow only when help is given, with the code labelled by `help.line`. |
| Parser.Parser.constructor | src/parser.rs:13-22 | The parser starts at index 0 with the given tokens, no datapack name and no functions. |
| Parser.IdentAt | src/parser.rs:24-31 | It succeeds exactly on a word, giving that word. Otherwise it is "expected identifier" at the token, or out of tokens. |
| Parser.Parser.NextIdent | src/parser.rs:24-31 | The method returns `Parser.IdentAt` at the old cursor. The cursor moves past the token whether or not it is a word. |
| Parser.Parser.NextToken | src/parser.rs:32-36 | The method returns the token under the cursor and moves past it. At the end it reports running out of tokens. |
| Parser.LineBreakAt | src/parser.rs:38-42 | It succeeds exactly on a line break. Otherwise it is "expected end of line" at the token, or out of tokens. |
| Parser.Parser.ExpectLineBreak | src/parser.rs:38-42 | The method returns `Parser.LineBreakAt` at the cursor and consumes nothing. |
| Parser.StepAt | src/parser.rs:47-99 | One pass of the loop always moves forward and stays within the tokens. |
| Parser.ParseFrom | src/parser.rs:44-101 | A successful parse only appends functions: those recorded before are kept, in order. |
| Parser.DatapackItem | src/parser.rs:62-65 | A `datapack <name>` line sets the name and the parse goes on after the line break. |
| Parser.ExpectedItemAt | src/parser.rs:93-98 | Any top-level token that is not a line break, a modifier, `datapack` or `fn` stops the parse with "expected item declaration" at that token. |
| Parser.ModifiersThenFn | src/parser.rs:51-91 | After modifier words and line breaks, `fn <name> {...}` gets the pending modifiers followed by those words, in source order. The parse goes on after the block with none pending. |
| Parser.FinalDatapack | src/parser.rs:62-65 | After a successful parse the datapack name is the one from the last `datapack` line, or the starting one when there is none. |
| Parser.Parser.Parse | src/parser.rs:44-101 | `parse` succeeds exactly when `Parser.ParseFrom` does, and fails with the same error. On success the cursor is at the end, and the datapack name and functions are those `ParseFrom` computes. |
| Parser.LineBreaksSkipped | src/parser.rs:51 | A top-level line break is skipped and leaves the state unchanged. |
| Parser.ModifiersGoToNextFunction | src/parser.rs:55-60 | A modifier word goes to the next function only: in `inline fn f {..} fn g {..}`, `f` gets `inline` and `g` gets none. |
| Parser.DatapackOverwrites | src/parser.rs:62-65 | A second `datapack` line replaces the first name. The line break is checked without being consumed and is then skipped. |
| Parser.FnBeforeDatapack | src/parser.rs:67-76 | `fn` before any `datapack` fails at the `fn` with "must declare datapack first" and the help for line 1. |
| Parser.StepShape | src/parser.rs:77-90 | A step either records no function and passes over no block, or it reads `fn`, a word and a block and records one function. That function is named by the word, takes the pending modifiers and has the block as its body. |
| Parser.BlockTaken | src/parser.rs:79-89 | Recording a function whose body is the block two tokens on accounts for exactly that block. |
| Parser.StepBlocks | src/parser.rs:79-90 | A step takes up exactly the blocks it adds as function bodies. |
| Parser.ParseBlocks | src/parser.rs:85-90 | After a successful parse, the function bodies are exactly the top-level blocks, in source order. None is dropped and none is invented. |
| Parser.ParseCount | src/parser.rs:85-90 | A successful parse adds one function per top-level block. |
| Parser.StepConsistent | src/parser.rs:55-92 | One step keeps pending and recorded modifiers as modifier words, and never forgets the datapack name. |
| Parser.ParseConsistent | src/parser.rs:55-92 | After a successful parse, the datapack name is kept once given, and functions were added only if a datapack was named. All recorded modifiers are modifier words. |
| Parser.Report | src/parser.rs:69-97 | An illegal token is reported with its display in the title and its scope underlined with the note. The report has four lines with help and two without. Running out of tokens has no report. |
| Parser.MapStrings | src/parser.rs:116 | Item `k` of the mapped list is `to_string` of element `k`. |
| Parser.Parser.ElemsToString | src/parser.rs:122-137 | `elems_to_string` builds `"["`, the items joined by `", "`, then `"]"`. For an empty vector this is `"[]"`. |
| Parser.SplitJoin | src/parser.rs:122-137 | Splitting the joined text at each `", "` gives back items that contain no comma. |
| Parser.DisplayedModifiers | src/parser.rs:112-120 | A parsed function displays (`Parser.Display`) as its modifier list, then `" function "`, then its name. When the modifiers are modifier words, none included, the text between the brackets reads back as those words. |
| Sources.Sources.constructor | src/sources.rs:18-20 | The registry starts empty. |
| Sources.Sources.PushSource | src/sources.rs:21-23 | The entry is appended at the end, and earlier entries are unchanged. |
| Sources.LookupAfterPush | src/sources.rs:21-23 | After a push, a name that was found before is found as before. A new name is found only if it is the pushed one. |
| Sources.Sources.SourceByName | src/sources.rs:24-31 | The linear search with early return gives `Sources.Lookup`. |
| Sources.LookupFirst | src/sources.rs:25-28 | What is found is the text of the earliest entry with the name, so with duplicate names the earliest wins. |
| Sources.LookupNone | src/sources.rs:24-31 | Nothing is found exactly when no entry has the name. |
| Sources.DisplayShape | src/sources.rs:10 | `Display for SourceRef` (`Sources.Display`) is `{file '<file>', <start>-><end>}`. |
| Sources.ParseShape | src/sources.rs:10 | Each field is read back from its place in such a rendering. |
| Sources.ParseDisplay | src/sources.rs:10 | Rendering a range and reading it back gives the same file, start and end, provided the file name has no quote. |

## Left out

- Colours: ANSI colour escapes are dropped from every rendered line. They come from src/bash_tools.rs, which is not part of this model.
- Output: `println!` and `exit(1)` are replaced by returned values. The reports are returned as lines, and a fatal error is an error result.
- src/input.rs is not part of this model. A `SourceFile` is a plain path and text value, instead of a raw pointer to the text.
- src/main.rs is not part of this model. It does not use the front end.
- Byte offsets: text is a sequence of characters. The original slices lines by bytes and falls back on the byte length, and that only differs for non-ASCII text.
- Lexer.Lexer.NextGroup: the separator and closing characters are fixed as `,` and `)`. That is the only pair `next` passes.
- Group-count examples: `(1,2,3)` with three elements and `(1,)` with one are not proved. The model states only the general element rule of `LexSpec.ElemsWF`, which `Lexer.Lexer.NextGroup` guarantees. `()` with none is `LexSpec.EmptyGroup`.
- Parser.ModifiersThenFn: covers a run of modifiers and line breaks with no `datapack` line inside it. A `datapack` line in between is the separate step `Parser.DatapackItem`.
- Parser.Parser.Parse: on an error, the cursor and fields are not specified. The original exits the process at that point.
- Out of tokens: the original indexes past the end and panics, with no report. Here reading past the last token is the error `OutOfTokens`.
- Lexer.Lexer.Lex: the original's abort leaves no tokens to inspect. On an error, the model states only the error, not the tokens pushed before it.
- Line lookup in reports: the model's `underline_word` locates the scope with the corrected line count `Errors.LineAt` (see Findings). The title of `missing_closing_brace` keeps `get_line` as written (`Errors.LineOf`). The two agree at the sentinel, where the lexer detects a missing brace.
- Integer width: `usize` arithmetic is unbounded here. The one place where wrap-around matters, `scope.start - line_start`, is the finding below.

## Findings

| source | as written | input that shows it | evidently intended | confidence | as-written member | corrected member |
|---|---|---|---|---|---|---|
| src/errors.rs:119-128, 77 | `get_line` counts a `'\n'` at `pos` itself. A diagnostic anchored at a line-break token gets the next line, whose start is `pos + 1`, so the column `scope.start - line_start` underflows `usize`. | `"datapack d\nfn main\n"`: the parser reports "expected block" at the line break at offset 18. | The line that the line break ends, with column `pos - line_start >= 0`. | not executed | Errors.LineOfAtNewlineOverruns, Errors.ColumnUnderflowExample | Errors.LineAt, Errors.LineAtInsideLine, Errors.Locate |
