# calcrs: line editor, tokenizer and expression parser

calcrs is a terminal calculator. This project models three parts of it in Dafny and proves
properties of the model.

- **The prompt's line editor** (`src/prompt.rs`). A `KeyHandler` holds the cursor position,
  the index of the line in view and a private draft. It reads the history of committed lines
  but never changes it. `line_pos == |history|` means the draft is in view. Every edit first
  copies a recalled entry into the draft ("fork on write"). `LinesIter::next` feeds keys to
  the handler until Enter. Enter returns the line in view and appends it to the history only
  when it is the draft.
  - `Editor` states the behaviour as a pure state machine over `EditState`.
  - `Prompt` holds the classes `KeyHandler`, `Prompter` and `LinesIter`. Each of their
    methods is proved to leave exactly the state the matching `Editor` function computes.
  - `EditorProps` and `EditorScenarios` hold lemmas about whole key sequences.
- **The tokenizer** (`src/parse/token.rs`).
  - Each character is classified as a letter, digit, punctuation, whitespace or unknown.
  - The characters are folded into `Identifier`, `WholeNumber`, `Operator` and `Space`
    tokens.
  - `Tokenizer` holds the fold and the loop that computes it.
  - `TokenizerProps` proves that the output is well formed and spells the input with
    whitespace runs collapsed. It also proves that this characterizes the output uniquely.
  - `TokenizerTests` restates the unit tests.
- **The expression parser** (`src/parse.rs`). It runs passes that rewrite a list of `Parse`
  elements in place:
  - parentheses, recursively and right to left;
  - numerals;
  - unary signs;
  - left-associative sums and differences;
  - space trimming;
  - extraction of the result or of a syntax error.

  The modules are:
  - `ParseSpec` gives each pass as a function of the loop's position and loop variables.
  - `Parser` holds the index loops, each proved equal to its function.
  - `ParseProps` proves what the passes guarantee.
  - `ParsePlain` composes the tokenizer with the passes for input without numerals or
    parentheses, and derives the error message `parse` returns for it.
  - `ParseTests` and `ParseTestTokens` derive the unit tests' expected outcomes, from the
    input string to the value.

The repository is in the middle of a refactor, so some pieces the parser relies on are missing.
The model fills each gap as follows:
- `tokenize` returns a plain vector and panics on an unknown character, but `parse`
  calls it with `?`. Here tokenization returns a `Result`, `Err(TokenizeError(c))`, as the
  error type (src/parse/error.rs:3) intends.
- `Expression` declares only `Constant` (src/parse/expr.rs:2-4). `UnaryPlus`, `UnaryMinus`,
  `Sum` and `Difference` are added with the evaluation that the tests imply (`module
  Expressions`).
- `Token::to_str` is not defined. It is modelled as `Tokenizer.ToStr`: the token's text, with
  a single blank for `Space`.

Every panic the parser can reach is an extra error value, `Panic(message)`, with the message
Rust would print. The panics are:
- a `let_match!` mismatch;
- a `Temp` that persists;
- `unreachable!()`;
- an overflowing numeral, or (in a debug build) an overflowing nesting counter or a failed
  `debug_assert!`.

## Model

| member | source | states |
|---|---|---|
| `Prompt.ScanWordLeft` | src/prompt.rs:149-161 | The reversed scan returns the word-left boundary: 0, or a word start strictly left of a non-zero cursor, with no word start in between. |
| `Prompt.ScanWordRight` | src/prompt.rs:162-174 | The forward scan returns the word-right boundary: the end of the line, or a word end strictly right of a cursor below the end, with no word end in between. |
| `Prompt.KeyHandler.constructor` | src/prompt.rs:92-94 | A new handler has the cursor at 0 and the empty draft in view (the line index equals the history length), and satisfies the bounds invariant. |
| `Prompt.KeyHandler.GetDisplayedLine` | src/prompt.rs:96-98 | The displayed line is `history[linePos]` while that exists, otherwise the draft. |
| `Prompt.KeyHandler.PrepareForEdit` | src/prompt.rs:100-105 | Fork on write: a recalled entry is copied into the draft and the draft comes into view. The cursor and the displayed text are unchanged, and a draft already in view is left alone. |
| `Prompt.KeyHandler.HandleChar` | src/prompt.rs:107-111 | Keeps the invariant and leaves exactly `Editor.InsertChar` of the old state. |
| `Prompt.KeyHandler.HandleBackspace` | src/prompt.rs:112-118 | Keeps the invariant and leaves exactly `Editor.DeleteBefore` of the old state. |
| `Prompt.KeyHandler.HandleLeft` | src/prompt.rs:119-123 | Keeps the invariant and leaves exactly `Editor.MoveLeft` of the old state. |
| `Prompt.KeyHandler.HandleRight` | src/prompt.rs:124-128 | Keeps the invariant and leaves exactly `Editor.MoveRight` of the old state. |
| `Prompt.KeyHandler.HandleUp` | src/prompt.rs:129-138 | Keeps the invariant and leaves exactly `Editor.RecallUp` of the old state. |
| `Prompt.KeyHandler.HandleDown` | src/prompt.rs:139-148 | Keeps the invariant and leaves exactly `Editor.RecallDown` of the old state. |
| `Prompt.KeyHandler.HandleWordLeft` | src/prompt.rs:149-161 | Keeps the invariant and leaves exactly `Editor.MoveWordLeft` of the old state. |
| `Prompt.KeyHandler.HandleWordRight` | src/prompt.rs:162-174 | Keeps the invariant and leaves exactly `Editor.MoveWordRight` of the old state. |
| `Prompt.KeyHandler.HandleLineLeft` | src/prompt.rs:175-177 | Keeps the invariant and leaves exactly `Editor.MoveLineLeft` of the old state. |
| `Prompt.KeyHandler.HandleLineRight` | src/prompt.rs:178-180 | Keeps the invariant and leaves exactly `Editor.MoveLineRight` of the old state. |
| `Prompt.KeyHandler.HandleWordBackspace` | src/prompt.rs:181-195 | Keeps the invariant and leaves exactly `Editor.DeleteWordBefore` of the old state. |
| `Prompt.KeyHandler.HandleLineBackspace` | src/prompt.rs:196-200 | Keeps the invariant and leaves exactly `Editor.DeleteLineBefore` of the old state. |
| `Prompt.KeyHandler.Dispatch` | src/prompt.rs:72-85 | A key other than Enter runs its bound handler, or does nothing when unbound. The new state is `Editor.Step` of the old one. |
| `Prompt.Prompter.constructor` | src/prompt.rs:15-17 | The prompt is `"> "` and the history starts empty. |
| `Prompt.Prompter.Lines` | src/prompt.rs:19-23 | A fresh iterator over this prompter and the given key stream. |
| `Prompt.LinesIter.Next` | src/prompt.rs:54-88 | One round from a fresh handler. On Enter it returns the committed line, sets the history `Editor.Round` computes, and keeps the keys after Enter. When the stream ends first it returns `None` and leaves the history unchanged. |
| `Editor.Initial` | src/prompt.rs:92-94 | A round starts valid, with the draft in view, an empty displayed line and the cursor at 0. |
| `Editor.Fork` | src/prompt.rs:100-105 | After a fork the draft is in view and holds the previously displayed line, and the cursor is unchanged. A draft already in view is kept as it is. |
| `Editor.LastWordStart` | src/prompt.rs:152-158 | The greatest position at or left of k that is 0 or a word start. |
| `Editor.FirstWordEnd` | src/prompt.rs:165-171 | The least position at or right of k that is the end of the line or a word end. |
| `Editor.WordLeftBoundary` | src/prompt.rs:149-161 | 0 from column 0. Otherwise a position strictly left of the cursor that is 0 or a word start (non-alphanumeric, then alphanumeric), with no word start between it and the cursor. |
| `Editor.WordRightBoundary` | src/prompt.rs:162-174 | At or right of the cursor, and strictly right of it below the end of the line. It is the end of the line or a word end (alphanumeric, then non-alphanumeric), with no word end between. |
| `Editor.InsertChar` | src/prompt.rs:107-111 | Forks. The draft becomes `line[..cursor] + [c] + line[cursor..]` of the displayed line, and the cursor moves up by exactly one. |
| `Editor.DeleteBefore` | src/prompt.rs:112-118 | Forks even at column 0, and at column 0 does nothing else. Elsewhere it removes exactly the character left of the cursor and moves the cursor down by one. |
| `Editor.MoveLeft` | src/prompt.rs:119-123 | The cursor moves down by one, stopping at 0. The line in view and the draft are unchanged. |
| `Editor.MoveRight` | src/prompt.rs:124-128 | The cursor moves up by one, stopping at the displayed line's length. The line in view and the draft are unchanged. |
| `Editor.Recall` | src/prompt.rs:129-148 | Moving the view to line `to`: a cursor at the old line's end snaps to the new line's end, and any other cursor is clamped to the new line's length. The draft is unchanged. |
| `Editor.RecallUp` | src/prompt.rs:129-138 | At line 0 nothing changes. Otherwise the view moves to the previous line under the cursor rule, and the draft is unchanged. |
| `Editor.RecallDown` | src/prompt.rs:139-148 | With the draft in view nothing changes. Otherwise the view moves to the next line under the cursor rule, and the draft is unchanged. |
| `Editor.MoveWordLeft` | src/prompt.rs:149-161 | The cursor lands on the word-left boundary of the displayed line. The line in view and the draft are unchanged. |
| `Editor.MoveWordRight` | src/prompt.rs:162-174 | The cursor lands on the word-right boundary of the displayed line. The line in view and the draft are unchanged. |
| `Editor.MoveLineLeft` | src/prompt.rs:175-177 | The cursor goes to column 0; nothing else changes. |
| `Editor.MoveLineRight` | src/prompt.rs:178-180 | The cursor goes to the end of the displayed line; nothing else changes. |
| `Editor.DeleteWordBefore` | src/prompt.rs:181-195 | Forks, then the draft is `line[..b] + line[cursor..]` and the cursor is `b`, where `b` is the word-left boundary of the forked line. |
| `Editor.DeleteLineBefore` | src/prompt.rs:196-200 | Forks, then the draft is `line[cursor..]` and the cursor is 0. |
| `Editor.Step` | src/prompt.rs:72-85 | Every key other than Enter keeps the bounds invariant. Non-ASCII characters and unbound keys change nothing. |
| `Editor.Commit` | src/prompt.rs:64-71 | Enter returns the displayed line. With the draft in view the history becomes `history + [draft]`; with a recalled entry in view the history is unchanged. |
| `EditorProps.NavigationKeepsDraft` | src/prompt.rs:119-180 | The cursor and recall keys never change the draft. All of them except Up and Down also keep the line in view. |
| `EditorProps.EditsFork` | src/prompt.rs:181-200 | Backspace, word-backspace and line-backspace always leave the draft in view. |
| `EditorProps.WordLeftBoundaryUnique` | src/prompt.rs:149-161 | Only one position has the word-left boundary's defining properties. |
| `EditorProps.WordRightBoundaryUnique` | src/prompt.rs:162-174 | Only one position has the word-right boundary's defining properties. |
| `EditorProps.RunKeysStopsAtFirstEnter` | src/prompt.rs:58-71 | A round commits at the first Enter and leaves exactly the keys after it unread. |
| `EditorProps.RunKeysHistory` | src/prompt.rs:64-70 | A commit either appends the returned line, or returns an entry already in history and leaves the history unchanged. Either way the old history is a prefix of the new one, so entries are never modified. |
| `EditorProps.RunKeysEndsIffNoEnter` | src/prompt.rs:58-62 | A round ends without a line exactly when no key is Enter. |
| `EditorProps.RoundOutcome` | src/prompt.rs:54-88 | For a round from the initial state: it ends without a line iff there is no Enter, and every commit only appends to history or reuses an entry. |
| `EditorScenarios.Steps` | src/prompt.rs:72-85 | Feeding any keys other than Enter keeps the bounds invariant. |
| `EditorScenarios.RunThrough` | src/prompt.rs:58-87 | Keys read before Enter act one at a time, so a round over `keys + rest` continues from the state they leave. |
| `EditorScenarios.TypingAppends` | src/prompt.rs:107-111 | Typing printable ASCII text with the cursor at the end of the draft appends exactly that text and leaves the cursor at the new end. |
| `EditorScenarios.UpsRecall` | src/prompt.rs:129-138 | n presses of Up from line k, with the cursor at the line's end, reach line k - n with the cursor at that line's end. |
| `EditorScenarios.RecallRoundTrip` | src/prompt.rs:64-70 | n presses of Up and then Enter return the n-th newest entry and leave the history unchanged. |
| `EditorScenarios.EnterOnEmptyHistory` | src/prompt.rs:64-70 | Enter on a fresh round commits the empty draft, and the history becomes `[""]`. |
| `EditorScenarios.TypeFirst` | src/prompt.rs:107-111 | After printable text is typed, a round continues from the draft holding exactly that text, with the cursor at its end. |
| `EditorScenarios.TypeAndCommit` | src/prompt.rs:64-70 | Typing printable text and Enter commits that text as a new history entry, and the keys after Enter stay unread. |
| `EditorScenarios.TwoRounds` | src/prompt.rs:54-88 | Two typed lines, each ended by Enter, become two history entries in order. |
| `EditorScenarios.LastWordStart` | src/prompt.rs:149-161 | At the end of `before + w`, where `w` is alphanumeric and `before` does not end in one, the word-left boundary is the length of `before`. |
| `EditorScenarios.DeleteLastWord` | src/prompt.rs:181-195 | Ctrl-W at the end of the draft `before + w` leaves the draft `before`, with the cursor at its end (for example "hi you" gives "hi "). |
| `EditorScenarios.WordBackspace` | src/prompt.rs:181-195 | Typing `before + w`, then Ctrl-W and Enter, commits `before`. |
| `EditorScenarios.LineBackspace` | src/prompt.rs:196-200 | Typing text, then Ctrl-U and Enter, commits the empty line. |
| `EditorScenarios.InsertBeforeCursor` | src/prompt.rs:107-123 | "h", Left, "i", Enter commits "ih": the insert happens at the cursor, not at the end. |
| `EditorScenarios.RecallWithoutEdit` | src/prompt.rs:64-70 | Recalling an entry and pressing Enter returns it without a duplicate entry. |
| `EditorScenarios.RecallAndEdit` | src/prompt.rs:100-111 | Editing a recalled entry commits a new entry, and the original stays in history unchanged. |
| `EditorScenarios.BackspaceAtStartForks` | src/prompt.rs:112-118 | Backspace at column 0 of a recalled entry still forks, so Enter then appends a copy of that entry. |
| `EditorScenarios.StreamEndsBeforeEnter` | src/prompt.rs:60-62 | A key stream of typed text without Enter ends the round with no line. |
| `Tokenizer.Classify` | src/parse/token.rs:18-30 | Letter iff ASCII alphabetic, digit iff ASCII digit, symbol iff ASCII punctuation, blank iff ASCII whitespace, unknown iff none of them. |
| `Tokenizer.Tokenize` | src/parse/token.rs:33-48 | The loop that pushes and extends tokens returns the left fold of the per-character arms over the input. |
| `TokenizerProps.TextAppend` | src/parse/token.rs:35-47 | The spelling of the concatenation of two token lists is the concatenation of their spellings. |
| `TokenizerProps.ExtendText` | src/parse/token.rs:40-42 | Appending a character to the last token appends it to the spelling. |
| `TokenizerProps.AbsorbText` | src/parse/token.rs:36-46 | Each known character adds itself to the spelling. A blank character adds one blank after a non-Space token and nothing after a Space. |
| `TokenizerProps.AbsorbWellFormed` | src/parse/token.rs:36-46 | Each known character keeps the token list well formed: valid token texts, and no two neighbours the tokenizer would have merged. |
| `TokenizerProps.ExtendWellFormed` | src/parse/token.rs:40-42 | Extending an identifier by a letter or digit, or a number by a digit, keeps the list well formed. |
| `TokenizerProps.FoldOkIff` | src/parse/token.rs:37 | Tokenizing from any tokens succeeds exactly when no character is unknown. |
| `TokenizerProps.FoldFirstUnknown` | src/parse/token.rs:37 | Tokenizing fails with the first unknown character of the input. |
| `TokenizerProps.FoldText` | src/parse/token.rs:35-47 | The tokens' spelling is the input with every whitespace run collapsed to one blank, so every non-whitespace character lands in a token, in input order. |
| `TokenizerProps.FoldWellFormed` | src/parse/token.rs:35-47 | Tokenizing keeps a well-formed list well formed. |
| `TokenizerProps.FirstTokenDetermined` | src/parse/token.rs:38-45 | Two well-formed lists with the same spelling start with the same token. |
| `TokenizerProps.Unique` | src/parse/token.rs:38-45 | Two well-formed lists with the same spelling are equal. |
| `TokenizerProps.TokenizeFails` | src/parse/token.rs:37 | tokenize succeeds iff the input has no unknown character, and otherwise fails with `TokenizeError` of the first unknown one. |
| `TokenizerProps.TokenizeSound` | src/parse/token.rs:33-48 | Every token is valid: an identifier is a letter followed by letters and digits, a number is digits, and an operator is one punctuation character. No two Spaces are adjacent, and no identifier or number could be extended by its neighbour. The spelling is the input with whitespace runs collapsed. |
| `TokenizerProps.TokenizeCharacterized` | src/parse/token.rs:33-48 | On input without unknown characters, a token list is the output iff it is well formed and spells the collapsed input. |
| `TokenizerProps.FoldAppend` | src/parse/token.rs:35-47 | Tokenizing `s + t` is tokenizing `s` and then continuing with `t`. |
| `TokenizerProps.IdentifierRun` | src/parse/token.rs:40-44 | A letter followed by letters and digits, not after an identifier, becomes one Identifier token. |
| `TokenizerProps.NumberRun` | src/parse/token.rs:42-43 | A run of digits, not after an identifier or number, becomes one WholeNumber token. |
| `TokenizerProps.BlankRun` | src/parse/token.rs:38-39 | A run of whitespace adds one Space token, or none after a Space. |
| `TokenizerProps.OperatorChar` | src/parse/token.rs:45 | A punctuation character always becomes an Operator token of its own. |
| `TokenizerProps.FoldToken` | src/parse/token.rs:38-45 | The text of a valid token that does not merge with the last one tokenizes to exactly that token. |
| `TokenizerProps.FoldTokens` | src/parse/token.rs:35-47 | The spelling of a well-formed list, placed after tokens it does not merge with, tokenizes back to that list. |
| `TokenizerProps.TokenizeText` | src/parse/token.rs:33-48 | Round trip: tokenizing the spelling of any well-formed list gives that list back. |
| `TokenizerTests.Identifiers` | src/parse/token.rs:57-60 | "x", "xy", "z23" and "ffff23wwww" are single identifiers. |
| `TokenizerTests.Underscore` | src/parse/token.rs:61 | "_" is an operator, not an identifier. |
| `TokenizerTests.DigitThenLetter` | src/parse/token.rs:62 | "4a" and "1a" are a number followed by an identifier. |
| `TokenizerTests.Numbers` | src/parse/token.rs:67-68 | "1" and "01234" are single whole numbers, with the leading zero kept. |
| `TokenizerTests.SignsAndPoints` | src/parse/token.rs:70-71 | "-2" is an operator and a number, and "3.14" is number, operator, number. |
| `TokenizerTests.Operators` | src/parse/token.rs:76-79 | "+", "+-", "((" and "." give one operator per character. |
| `TokenizerTests.Spaces` | src/parse/token.rs:84-86 | " ", "\n" and "   \n\t" each give a single Space. |
| `TokenizerTests.Mixed` | src/parse/token.rs:92 | "3.14  -x2" gives 3, ".", 14, Space, "-", "x2". |
| `ParseSpec.TrimSpaces` | src/parse.rs:49-56 | Removes at most one trailing and at most one leading Space and changes nothing else. On a list without adjacent Spaces, the result neither starts nor ends with a Space. |
| `ParseSpec.ParseI64` | src/parse.rs:61 | Some exactly for non-empty digit strings whose value fits in i64, and then it is that decimal value. |
| `ParseSpec.WholeNumbers` | src/parse.rs:58-65 | Fails exactly when some numeral overflows i64. Otherwise the length is preserved, numerals become constants of their value, and every other element is unchanged. |
| `ParseSpec.Group` | src/parse.rs:76-85 | An empty group (after trimming) fails with `empty parentheses`. On success the group from "(" to ")" is replaced by one expression and the rest is unchanged. |
| `ParseSpec.NonSpace` | src/parse.rs:108 | The filter keeps no Space and is never longer than its input. |
| `ParseSpec.Before` | src/parse.rs:105 | The `saturating_sub` window: the two elements before j, or fewer near the start. |
| `ParseSpec.SpliceUnary` | src/parse.rs:108-116 | On success the sign through its operand is replaced by one expression and the rest is unchanged. |
| `ParseSpec.SpliceBinary` | src/parse.rs:145-154 | On success the left operand through the right operand is replaced by one expression and the rest is unchanged. |
| `Parser.ParseImpl` | src/parse.rs:21-28 | The passes in order, stopping at the first error: returns `ParseSpec.Impl` (with the corrected get_result, see Findings). |
| `Parser.ParseParens` | src/parse.rs:67-93 | The right-to-left loop with the pending ")" and the u8 nesting count returns `ParseSpec.Parens`. |
| `Parser.SpliceGroup` | src/parse.rs:76-85 | The splice and recursive parse of one group returns `ParseSpec.Group`. |
| `Parser.ParseWholeNumbers` | src/parse.rs:58-65 | The in-place loop returns `ParseSpec.WholeNumbers`. |
| `Parser.ParseUnaryOps` | src/parse.rs:95-124 | The right-to-left loop with the pending expression index returns `ParseSpec.Unary`. |
| `Parser.FoldUnary` | src/parse.rs:108-116 | The splice, the two `let_match!`s and the debug assertion return `ParseSpec.SpliceUnary`. |
| `Parser.ParseSumsDifferences` | src/parse.rs:126-163 | The left-to-right loop that resets `i` to the folded operand returns `ParseSpec.Sums`. |
| `Parser.FoldBinary` | src/parse.rs:144-158 | The splice, the three `let_match!`s and the debug assertion return `ParseSpec.SpliceBinary`. |
| `Parser.GetResult` | src/parse.rs:30-47 | Returns the corrected `ParseSpec.Final` (see Findings). |
| `Parser.Parse` | src/parse.rs:17-19 | Tokenize, wrap and run the passes: returns `ParseSpec.ParseOf` (with the corrected get_result, see Findings). |
| `ParsePlain.ToksRunText` | src/parse.rs:18 | Wrapping the tokens as Tok elements puts no Temp in the list, and the run of tokens from any position spells exactly the tokens from there on. |
| `ParsePlain.PlainPasses` | src/parse.rs:21-25 | On tokens with no numeral and no parenthesis, the parenthesis, numeral, unary and sum passes each return the list unchanged. |
| `ParsePlain.ToksTrim` | src/parse.rs:49-56 | trim_spaces on wrapped tokens gives the wrapped tokens with one trailing and then one leading Space dropped. |
| `ParsePlain.TextTrim` | src/parse.rs:42 | Dropping those Spaces does not change the trimmed text that the error message quotes. |
| `ParsePlain.TrimTokensEmpty` | src/parse.rs:49-56 | A well-formed token list trims to nothing exactly when it is empty or a lone Space. |
| `ParsePlain.PlainFinal` | src/parse.rs:21-27 | On such tokens, parse_impl is get_result on the trimmed tokens. |
| `ParsePlain.FinalToks` | src/parse.rs:30-46 | get_result on a nonempty list of bare tokens fails with `invalid syntax` quoting their whole text, trimmed (with the corrected get_result, see Findings). |
| `ParsePlain.PlainImpl` | src/parse.rs:21-46 | On well-formed tokens with no numeral and no parenthesis, parse_impl reaches `unreachable!()` for a blank list and otherwise fails quoting the trimmed text (with the corrected get_result, see Findings). |
| `ParsePlain.ParsePlain` | src/parse.rs:17-46 | parse on input whose tokens hold no numeral and no parenthesis: a blank line reaches `unreachable!()`, and anything else is `invalid syntax` quoting the input with its whitespace runs collapsed and its ends trimmed (with the corrected get_result, see Findings). |
| `ParsePlain.BlankLine` | src/parse.rs:17-46 | A line holding one blank, which the read loop of src/main.rs:6 does not stop at, reaches `unreachable!()`. |
| `ParseProps.DecimalRoundTrip` | src/parse.rs:61 | Reading back the shortest numeral of n gives n. |
| `ParseProps.LeadingZero` | src/parse.rs:61 | A leading zero does not change a numeral's value. |
| `ParseProps.ParensFromFlat` | src/parse.rs:67-93 | From any point of the scan, success leaves no "(" or ")" and no Temp. |
| `ParseProps.GroupFlat` | src/parse.rs:76-85 | The Temp spliced in for a group has been overwritten by an expression. |
| `ParseProps.ParensFlat` | src/parse.rs:67-93 | A successful parentheses pass leaves no parenthesis operator and no Temp. |
| `ParseProps.ParensSkip` | src/parse.rs:86 | A stretch without parentheses passes through the scan unchanged. |
| `ParseProps.UnmatchedOpen` | src/parse.rs:73 | A "(" with no ")" to its right fails with `unmatched "("`. |
| `ParseProps.ParensFromWithoutOpen` | src/parse.rs:72-91 | Over a stretch without "(": success when there is no ")", the debug-build u8 overflow panic past 255 nested ")", and otherwise `unmatched ")"`. |
| `ParseProps.UnmatchedClose` | src/parse.rs:89-91 | A list without "(" but with a ")" fails with `unmatched ")"`, or with the debug-build overflow panic past 256 of them. |
| `ParseProps.EmptyInside` | src/parse.rs:80-82 | A group that holds only Spaces fails with `empty parentheses`. |
| `ParseProps.EmptyGroup` | src/parse.rs:80-82 | The last group of the list, when empty after trimming, fails the whole pass with `empty parentheses`. |
| `ParseProps.ScanFails` | src/parse.rs:36-46 | The loop of `get_result` never succeeds. |
| `ParseProps.FinalOk` | src/parse.rs:30-35 | `get_result` returns Ok exactly when one Expr remains, and then returns that expression. |
| `ParseProps.ScanRun` | src/parse.rs:37-42 | Once a run of tokens has started, the loop reports it trimmed, behind `invalid syntax`. |
| `ParseProps.ScanToRun` | src/parse.rs:37-42 | Expressions before the first token are skipped, and the run starting at that token is reported. |
| `ParseProps.FinalReports` | src/parse.rs:30-45 | A list holding a Tok fails with a SyntaxError starting `invalid syntax` and quoting the first run of tokens, trimmed (with the corrected get_result, see Findings). |
| `ParseProps.ScanExprs` | src/parse.rs:37-46 | A list of expressions only runs the loop to `unreachable!()`. |
| `ParseProps.FinalOnlyExprs` | src/parse.rs:36-46 | Zero, or two or more, expressions and no token (such as "(1)(1)") reach `unreachable!()`, modelled as a failure. |
| `ParseProps.LoneToken` | src/parse.rs:31-46 | A lone token reaches `unreachable!()` in `get_result` as written, while the corrected reading reports it as invalid syntax. |
| `ParseProps.FinalAgrees` | src/parse.rs:30-46 | Except for a lone token, `get_result` as written and corrected agree. |
| `ParseProps.NonSpaceAppend` | src/parse.rs:108 | The Space filter distributes over concatenation. |
| `ParseProps.FoldsSign` | src/parse.rs:100-116 | A sign in unary position folds with the pending expression, and the scan continues at the sign with the new expression pending. |
| `ParseProps.SpliceSign` | src/parse.rs:108-116 | A sign, an optional Space and an expression become the signed expression. |
| `ParseProps.SpacedChain` | src/parse.rs:95-124 | A chain of signs, each followed by a Space, in unary position folds right to left onto the operand, so the innermost sign is the last one. |
| `ParseProps.TightChain` | src/parse.rs:95-124 | The same holds when the last sign touches the operand. |
| `ParseProps.SignChain` | src/parse.rs:95-124 | A list of spaced signs and one expression becomes the single nested unary expression, as with "- - + 3". |
| `ParseProps.UnaryUnchanged` | src/parse.rs:95-124 | Without a sign in unary position before an expression, the unary pass changes nothing. |
| `ParseProps.UnaryKeepsSuffix` | src/parse.rs:95-124 | The unary scan never changes what lies right of its position and of the pending expression. |
| `ParseProps.Blocked` | src/parse.rs:106 | A sign directly after an operator never folds, and the scan forgets the pending expression. |
| `ParseProps.LinkNonSpace` | src/parse.rs:145 | Filtering the Spaces out of `lhs [Space] sign [Space] rhs` leaves exactly those three elements. |
| `ParseProps.SpliceLink` | src/parse.rs:145-154 | `lhs sign rhs`, with optional Spaces, becomes one Sum or Difference. |
| `ParseProps.LinkStep` | src/parse.rs:140-158 | One fold of the sums pass, after which the scan resumes right of the folded expression. |
| `ParseProps.SumsChainFrom` | src/parse.rs:126-163 | A chain `e op1 e1 op2 e2 ...` folds from the left, so it is left-associative. |
| `ParseProps.SumsChain` | src/parse.rs:126-163 | The sums pass turns such a chain into the single left-nested expression, so "1 - 2 - 3" is (1 - 2) - 3. |
| `ParseTests.Passes` | src/parse.rs:21-28 | When each pass succeeds, parse_impl is the corrected get_result of the trimmed output. |
| `ParseTests.FinalQuotes` | src/parse.rs:42 | The SyntaxError quotes the first run of tokens. |
| `ParseTests.OneMinusTwoMinusThreeParses` | src/parse.rs:263 | "1 - 2 - 3" parses to (1 - 2) - 3. |
| `ParseTests.OneMinusTwoMinusThreeValue` | src/parse.rs:263 | which evaluates to -4. |
| `ParseTests.OneMinusTwoPlusThreeParses` | src/parse.rs:264 | "1 - 2 + 3" parses to (1 - 2) + 3. |
| `ParseTests.OneMinusTwoPlusThreeValue` | src/parse.rs:264 | which evaluates to 2. |
| `ParseTests.OnePlusMinusThreeParses` | src/parse.rs:247 | "1 + - 3" parses to 1 + (-3): a sign after an operator and a Space is unary. |
| `ParseTests.OnePlusMinusThreeValue` | src/parse.rs:247 | which evaluates to -2. |
| `ParseTests.PlusPlusMinusThreeParses` | src/parse.rs:280 | "+ + -3" parses to +(+(-3)). |
| `ParseTests.PlusPlusMinusThreeValue` | src/parse.rs:280 | which evaluates to -3. |
| `ParseTests.OnePlusPlusThreeParses` | src/parse.rs:250 | "1++3" is a syntax error quoting "++". |
| `ParseTests.OneMinusMinusThreeParses` | src/parse.rs:271 | "1--3" is a syntax error quoting "--". |
| `ParseTests.PlusPlusThreeParses` | src/parse.rs:282 | "++3" is a syntax error quoting "++". |
| `ParseTests.SpacedOneParses` | src/parse.rs:208 | " ( 1 ) " parses to the constant 1. |
| `ParseTests.SpacedOneValue` | src/parse.rs:208 | which evaluates to 1. |
| `ParseTests.NegatedSumParses` | src/parse.rs:213 | "-(1 + 2)" parses to -(1 + 2). |
| `ParseTests.NegatedSumValue` | src/parse.rs:213 | which evaluates to -3. |
| `ParseTests.NestedGroupsParses` | src/parse.rs:214 | "(10+2)-(-5 + (3 - 2))" parses to (10 + 2) - (-5 + (3 - 2)). |
| `ParseTests.NestedGroupsValue` | src/parse.rs:214 | which evaluates to 16. |
| `ParseTests.AdjacentGroupsParses` | src/parse.rs:36-46 | "(1)(1)" leaves two expressions and no token, so it reaches `unreachable!()`. |
| `ParseTests.EmptyParensParses` | src/parse.rs:200 | "()" fails with `empty parentheses`. |
| `ParseTests.SpacedEmptyParensParses` | src/parse.rs:201 | "( )" fails with `empty parentheses`. |
| `ParseTests.CloseThenOpenParses` | src/parse.rs:221 | ")(" fails with `unmatched "("`. |
| `ParseTests.OpenOneParses` | src/parse.rs:217 | "(1" fails with `unmatched "("`. |
| `ParseTests.OneCloseParses` | src/parse.rs:215 | "1)" fails with `unmatched ")"`. |
| `ParseTests.LoneXFinal` | src/parse.rs:30-46 | For the lone identifier "x", get_result as written reaches `unreachable!()`, while the corrected one reports `invalid syntax "x"`. |
| `ParseTests.LoneXParses` | src/parse.rs:30-45 | Under the corrected get_result, "x" is a syntax error quoting "x". |

## Left out

- Terminal I/O is not modelled: raw mode, the stdin key stream, the `write` and
  `set_input_state` redraws, and the cursor-column computation (src/prompt.rs:20-21, 39-49,
  56, 65, 86). Keys are a datatype and the key stream a sequence.
- Prompt.Prompter.Lines: states only that the iterator is fresh over this prompter and the
  given keys, because terminal and stdin acquisition is not modelled.
- src/main.rs, the REPL loop and its printing, is I/O glue and is not part of this model.
- The `let_match` macro crate is compile-time code generation over foreign crates. Its uses are
  modelled as a match that fails with `Panic("let_match error: pattern failed to match")`.
- `Display` for `Error` and `minimal_panic_hook` (std formatting and panic payloads) are not
  modelled. `Error` is a plain datatype.
- Machine integers and the build profile. A numeral above i64::MAX is the panic of `expect`
  at src/parse.rs:61. The model follows a debug build for the rest: the u8 nesting counter
  (src/parse.rs:69,74) panics at 256 nested ")", and the `debug_assert!`s of
  src/parse.rs:111,149 are checked. In a release build the counter wraps to 0 and the
  assertions are compiled out; that behaviour is not modelled. Evaluation uses unbounded
  integers, so i64 overflow in `eval` of the added variants is not modelled.
- Unicode is not modelled: characters are ASCII (non-ASCII keys are ignored, as
  src/prompt.rs:72 does), and a byte index is a character index.
- Iterators' laziness and the in-place `Vec` are modelled as sequence values. Each pass takes
  the list and returns the list it leaves, so aliasing of the vector is not modelled.
- The literal test cases of src/parse.rs:197-295 not listed in the Model table are not restated
  one by one. Their shapes are covered by the general lemmas on sign chains, sum chains,
  groups and errors.

## Findings

| source | as written | input that shows it | evidently intended | confidence | as-written member | corrected member |
|---|---|---|---|---|---|---|
| src/parse.rs:31-35 | When one element remains, `get_result` pops it before checking that it is an `Expr`. A lone token is therefore discarded, the loop sees an empty list and reaches `unreachable!()`. | "x" (or "+", or "(x)") | A lone token is reported like any other run: `SyntaxError("invalid syntax \"x\"")` | not executed | `ParseProps.LoneToken` | `ParseProps.FinalOk` |

`ParseSpec.FinalAsWritten` models the code as written, and `ParseProps.LoneToken` and
`ParseTests.LoneXFinal` show it reaching `unreachable!()` on a lone token. The rest of the
model uses the corrected `ParseSpec.Final`, which inspects the element in place. For it,
`ParseProps.FinalOk` and `ParseProps.FinalReports` prove the property:
- Ok exactly when a single expression remains;
- otherwise a syntax error quoting the first run of tokens.

`ParseProps.FinalAgrees` shows that the two agree on every other list.
