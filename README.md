# ultramark block pipeline in Dafny

This project models the block-level Markdown pipeline of ultramark in its two
revisions: the current one (`src/index.ts`) and an earlier, broader one (`old.ts`).
Each revision has four parts:

- **Tokenizer.** It splits the input into maximal runs of characters of one kind.
  Kinds come from the `TOKEN` table, and the character after a backslash is always
  literal.
- **Line classifier.** `processBlock` decides a block's type from its first one or two
  tokens.
- **Block assembler.** This is the part of `tokenize` that decides when the open block
  is pushed onto the list of blocks.
- **Renderer.** `RENDER`, `renderInline` and `parse` turn each block into a string
  followed by a line break.

Modules and files:

- `block_kinds.dfy` (`BlockKinds`): the block-type constants and an `Option` type.
- `text.dfy` (`Text`): the JavaScript string operations the code relies on. These are
  `trimStart`, `slice` with a negative start, number printing in a template literal,
  ASCII lower-casing and substring search.
- `lexer.dfy` (`Lexer`): token kinds as a datatype, tokens, and the independent
  reference definition of "the maximal runs of a string" (`Runs`).
- `run_scan.dfy` (`RunScan`): the part of the tokenizer loop both revisions share.
  It tracks `p`, `prevTokenType` and the flushed tokens.
- Current revision:
  - `current_block.dfy`: the `TOKEN` table, `append`, `processBlock` and the `Block`
    class.
  - `current_scan.dfy`: the tokenizer loop as a state machine.
  - `current_tokenize.dfy`: the proofs about the loop, and the imperative `Tokenize`.
  - `current_render.dfy`: rendering and `parse`.
- Older revision: the same four parts, prefixed `old_`.

Each block is a `class` whose `Append` and `ProcessBlock` methods update its fields in
place. Each of these methods is proved against a pure function on a block value
(`Appended`/`Classified`, `OldAppended`/`Processed`).

`tokenize` and `parse` are methods with loops. Their results are proved equal to a fold
of a one-character step function (`Scan`, `OldScanOf`) and to `RenderAll`/`OldRenderAll`.
The lemmas then relate that fold to the reference `Runs`, and prove the block-level
invariants each revision keeps.

`RENDER` has no entry for some block types, and `parse` throws on those. The model
returns `None` there.

The tokenizer starts with a sentinel previous kind (`Initial`) and `p = -1`.
`input.slice(-1, 0)` is the empty string, so the first change of kind flushes nothing.

## Model

| member | source | states |
|---|---|---|
| Lexer.NextKind | src/index.ts:92-93 | after a backslash the next character is literal (`Any`); otherwise it gets the table's kind |
| Lexer.KindsOf | src/index.ts:90-93 | the kind of every input character, left to right, as the loop computes it; one kind per character |
| Lexer.Runs | src/index.ts:90-100 | the reference tokenization: the maximal runs of equal kind, defined independently of the loop |
| Lexer.KindsOfEscapeClosed | src/index.ts:93 | in the kind sequence of any string, a backslash is always followed by a literal |
| Lexer.GroupLossless | src/index.ts:90-100 | grouping characters into runs loses no character: the texts concatenate back to the string |
| Lexer.GroupShape | src/index.ts:92-95 | every run is non-empty, neighbouring runs differ in kind, and the last run has the last character's kind |
| Lexer.GroupBackslash | src/index.ts:93 | when a backslash is always followed by a literal, every backslash run is one character long |
| Lexer.GroupUniform | src/index.ts:92-99 | grouping loses no kind: every character inside a run has that run's kind, and the runs' kinds, spread over their texts, are the sequence of kinds |
| Lexer.RunsUniform | src/index.ts:90-100 | every token of the reference tokenization is uniform: read character by character, the runs give back the kind of each character |
| Lexer.RunsWellFormed | src/index.ts:90-100 | the runs of a string concatenate to it, are non-empty, never carry the sentinel kind, alternate in kind, and hold one backslash each at most |
| Lexer.RunsExtend | src/index.ts:96-99 | flushing `input.slice(p, i)` when the kind changes at `i` gives the runs of the first `i` characters |
| Lexer.LastRunStart | src/index.ts:96-98 | the start of the last run is unique: it is the one position after which all kinds are equal and before which the kind differs |
| Text.JsSlice | src/index.ts:96 | `slice` with in-range bounds is the subsequence; with end 0 (the first flush from `p = -1`) it is empty |
| Text.TrimStart | src/index.ts:170 | `trimStart` gives a suffix of its argument, every dropped character is whitespace, and the result does not start with whitespace |
| Text.NatToStringValue | src/index.ts:176 | the decimal digits a template literal prints for a level read back as that level |
| Text.NatToString | src/index.ts:176 | a printed number is a non-empty string of digits without a leading zero |
| Text.AsciiLowerString | old.ts:165 | the case-insensitive match lowers exactly the ASCII capitals, character by character |
| CurrentBlock.TokenOf | src/index.ts:54-79 | the `TOKEN` table never gives the sentinel or `!`; whitespace, line endings and backslash get their kinds exactly for their characters |
| CurrentBlock.TokenOfProper | src/index.ts:86 | no character gets the sentinel kind that `prevTokenType` starts with |
| CurrentBlock.Appended | src/index.ts:113-118 | `append`: the token is added last and the flag raised for an inline kind |
| CurrentBlock.MarkerAt | src/index.ts:143-163 | what one of the first two tokens decides: a thematic marker (break or paragraph after the scan), a `#` run shorter than 7, a fence of 3 or more |
| CurrentBlock.Classify | src/index.ts:130-167 | the decision of `processBlock` on a token list: blank, indented code, the first token's marker, the second token's marker, else paragraph |
| CurrentBlock.Classified | src/index.ts:130-167 | `processBlock` on a block value: the type always, the level only for a heading |
| CurrentBlock.AppendedInline | src/index.ts:113-118 | after `append`, `hasInline` is set exactly when some token of the block has an inline kind: asterisk, underscore, tilde, backtick, open bracket or backslash |
| CurrentBlock.OnlyMarksFrom | src/index.ts:146-151 | the thematic-break scan answers true exactly when every token from the marker on is a line ending, whitespace or the same marker |
| CurrentBlock.ClassifySpec | src/index.ts:130-167 | `processBlock` gives blank exactly for no tokens and indented code exactly for a leading whitespace run longer than 3. Otherwise it gives only thematic break, ATX heading (level equal to a `#` run among the first two tokens, at most 6), fenced code (a backtick or tilde run of 3 or more there) or paragraph. It never gives setext, HTML or link reference. A thematic break has only whitespace, line endings and its marker from the marker on; a line opening with a thematic marker is a break when that scan succeeds and a paragraph when it fails |
| CurrentBlock.ClassifyFirstToken | src/index.ts:154-162 | a `#` run shorter than 7 as the first token makes a heading of that level; a fence as the first token makes fenced code |
| CurrentBlock.ClassifySecondToken | src/index.ts:143-166 | when the first token decides nothing, a `#` run, a fence or a thematic marker at the second token decides the same way, and a line with no marker in either is a paragraph; a thematic marker at the second token gives a break when the scan succeeds and a paragraph when it fails |
| CurrentBlock.ClassifyExtend | src/index.ts:130-167 | reclassifying a held-back block that has grown gives the same decision, except that a thematic break can be demoted to a paragraph |
| CurrentBlock.Block.constructor | src/index.ts:89 | a new block record is empty, of type blank line |
| CurrentBlock.Block.Append | src/index.ts:113-118 | `append` puts the token last and raises the flag for inline kinds |
| CurrentBlock.Block.ProcessBlock | src/index.ts:130-167 | the in-place classification loop leaves the record equal to the specified classification of its old value |
| CurrentScan.HeldBack | src/index.ts:104 | the hold-back rule: not the input's last character, the classified block is a paragraph and so is the last pushed block |
| CurrentScan.Step | src/index.ts:91-107 | one iteration of the tokenizer loop on `p`, `prevTokenType`, the pushed blocks and the open block |
| CurrentScan.Scan | src/index.ts:90-108 | the loop's variables after the first `n` characters |
| CurrentScan.BlocksOf | src/index.ts:84-111 | what `tokenize` returns: the pushed blocks once every character is read |
| CurrentTokenize.ScanRuns | src/index.ts:90-108 | after every iteration, `p` starts the run in progress, `prevTokenType` is its kind, and the tokens of all blocks are exactly the runs before it |
| CurrentTokenize.BlocksFollowRuns | src/index.ts:90-110 | the tokens of the returned blocks are a prefix of the input's runs, and never all of them: the final run is never flushed |
| CurrentTokenize.BlockTokensWellFormed | src/index.ts:92-99 | the returned tokens concatenate to a prefix of the input, are non-empty, alternate in kind, and each backslash token is one character long |
| CurrentTokenize.StepBlocks | src/index.ts:102-106 | one iteration either leaves the pushed blocks alone or appends one block, and only at a line-ending character |
| CurrentTokenize.ScanSettled | src/index.ts:102-106 | every pushed block has the type its own tokens give it and an exact `hasInline` flag |
| CurrentTokenize.ScanGrows | src/index.ts:105 | a pushed block is never modified again: earlier block lists are prefixes of later ones |
| CurrentTokenize.LaterBlocksStartWithLineEnding | src/index.ts:98-106 | every returned block after the first starts with a line-ending token, so it is never blank and never indented code |
| CurrentTokenize.ParagraphsApart | src/index.ts:104 | two paragraphs are neighbours in the output only as the last two blocks, and only when the input ends with a line ending |
| CurrentTokenize.Tokenize | src/index.ts:84-111 | the imperative tokenizer returns records whose values are exactly the specified blocks |
| CurrentTokenize.Advance | src/index.ts:91-100 | one loop iteration moves the variables from the state after `i` characters to the state after `i + 1` |
| CurrentTokenize.Flush | src/index.ts:96-107 | a change of kind appends the non-empty chunk and, at a line ending, closes the line as the step function does |
| CurrentTokenize.EndLine | src/index.ts:102-107 | at a line ending the block is classified, then kept open when the hold-back rule applies, and pushed with a fresh empty record opened otherwise |
| CurrentRender.RenderInline | src/index.ts:169-172 | the rendered inline text is the block's text with its leading whitespace removed |
| CurrentRender.RenderInlineIgnoresFlag | src/index.ts:169-172 | the `hasInline` flag does not affect the output |
| CurrentRender.RenderBlock | src/index.ts:174-179 | a renderer exists exactly for thematic breaks, ATX headings, paragraphs and blank lines |
| CurrentRender.HeadingIgnoresTokens | src/index.ts:176 | a heading renders as an empty element that depends only on its level |
| CurrentRender.HeadingLevelReadBack | src/index.ts:176 | the opening tag of a rendered heading holds the decimal level |
| CurrentRender.ParagraphShape | src/index.ts:177 | a paragraph is `<p>` and `</p>` around a suffix of its text that lacks only leading whitespace |
| CurrentRender.RenderAll | src/index.ts:192-195 | the output is defined exactly when every block has a renderer, and is at least as long as the number of blocks |
| CurrentRender.RenderAllLineBreaks | src/index.ts:192-195 | a defined output holds at least one line break per block |
| CurrentRender.RenderAllAppend | src/index.ts:192-195 | rendering a list of blocks distributes over concatenation |
| CurrentRender.RenderAllFails | src/index.ts:194 | one block without a renderer makes `parse` fail |
| CurrentRender.ParseDefinedIff | src/index.ts:189-198 | `parse` is defined exactly when no returned block is indented or fenced code |
| CurrentRender.Parse | src/index.ts:189-198 | the imperative `parse` returns the specified rendering of the specified blocks |
| CurrentRender.RenderBlocks | src/index.ts:192-197 | the output loop concatenates each block's rendering and a line break, in order |
| OldBlock.OldTokenOf | old.ts:59-81 | the older table maps `!` to its own kind and agrees with the current table on every other character |
| OldBlock.OldTokenOfProper | old.ts:88 | no character gets the sentinel kind |
| OldBlock.OldAppended | old.ts:127-132 | `append`: the token is added last and `data.inline` raised for an inline kind |
| OldBlock.HtmlOpens | old.ts:154-163 | the six HTML start conditions on the token list, in order |
| OldBlock.OldMarkerAt | old.ts:191-227 | what one of the first two tokens decides: the current revision's markers, then `<` with a start condition, then `>` |
| OldBlock.OldClassify | old.ts:175-231 | the decision of `processBlock`: blank, indented code, a short leading whitespace token skipped, the first and second tokens' markers, else paragraph |
| OldBlock.Processed | old.ts:175-231 | `processBlock` on a block value: untouched when already typed, otherwise the type with its level or start condition |
| OldBlock.OldAppendedSpec | old.ts:127-132 | `append` keeps the earlier tokens and fields, puts the token last, and keeps `data.inline` exact |
| OldBlock.FirstOpenFrom | old.ts:154-163 | the stored start condition is the first of the six that holds, and none before it holds |
| OldBlock.FindHtmlOpen | old.ts:213-222 | the start-condition loop returns the first condition that holds |
| OldBlock.OldClassifySpec | old.ts:175-231 | blank exactly for no tokens and indented code exactly for a leading whitespace run longer than 3. Every other type comes from one of the first two tokens: an ATX level of at most 6 from a `#` run; HTML from `<` with the first matching start condition; a block quote from `>`. Never setext, link reference or list |
| OldBlock.OldClassifyBreaksAndFences | old.ts:194-212 | a thematic break comes only from a marker among the first two tokens followed only by itself, whitespace and line endings; fenced code only from a backtick or tilde run of 3 or more there |
| OldBlock.OldClassifyFirstToken | old.ts:191-226 | a first token that is not whitespace decides: a `#` run shorter than 7 gives a heading of that level, a fence gives fenced code, `>` a block quote, `<` with a start condition HTML with the first matching one, a thematic marker a break when the scan succeeds and a paragraph when it fails |
| OldBlock.OldClassifySecondToken | old.ts:178-230 | when the first token decides nothing (a leading whitespace token of at most 3 is skipped), the second token decides the same way, and a line with no marker in either is a paragraph; a thematic marker at the second token gives a break when the scan succeeds and a paragraph when it fails |
| OldBlock.RevisionsAgree | old.ts:175-231 | on lines whose first two tokens hold neither `<` nor `>`, the older classification equals the current one, level included |
| OldBlock.ProcessedOnce | old.ts:176 | a processed block always has a type, processing again changes nothing, an already typed block is left alone, and tokens and flag are kept |
| OldBlock.ProcessedHtmlHasTokens | old.ts:175-180 | a block made HTML by processing has tokens, so the fallback of `canExit` can read its last token |
| OldBlock.OldBlock.constructor | old.ts:91 | a new block record is empty, of the unknown type, with no level or start condition |
| OldBlock.OldBlock.Append | old.ts:127-132 | `append` puts the token last and raises the flag for inline kinds |
| OldBlock.OldBlock.ProcessBlock | old.ts:175-231 | the in-place classification loop leaves the record equal to the specified processing of its old value |
| OldBlock.OldBlock.SetVerdict | old.ts:195-225 | a decision sets the type, and the level or start condition that goes with it, and nothing else |
| OldBlock.CheckMarker | old.ts:194-226 | the marker tests on token `i` give the specified decision |
| OldScan.CanExit | old.ts:114-125 | every non-HTML block may end. An HTML block with a standard tag ends exactly when its last token is a line ending. An HTML comment ends exactly when its text contains `-->` |
| OldScan.CloseTest | old.ts:164-173 | `BLOCK_HTML_CLOSE_RE[condition].test(text)`: a result exactly for the five conditions that have a pattern |
| OldScan.CloseTestIgnoresCase | old.ts:165 | the `pre`-group close pattern gives the same answer for texts that differ only in ASCII case |
| OldScan.CloseTestExamples | old.ts:164-173 | an upper-case `</PRE>` closes a `pre`-group block; a text without `>` does not close condition 3 |
| OldScan.OldOpened | old.ts:98-99 | the open block once the run that ended is appended, unless that run is empty |
| OldScan.AtLastCodeUnit | old.ts:105 | `i === input.length - 1` with the length in UTF-16 code units: the last character, and only when it is a single code unit |
| OldScan.Pushes | old.ts:105 | the push test: the last code unit, or a line ending at which `canExit` holds |
| OldScan.OldStep | old.ts:93-108 | one iteration of the older loop: flush, process at a line ending, push when the push test holds |
| OldScan.OldScanOf | old.ts:92-109 | the loop's variables after the first `n` characters |
| OldScan.OldBlocksOf | old.ts:86-112 | what `tokenize` returns |
| OldTokenize.OldScanRuns | old.ts:92-108 | after every iteration, `p`, `prevTokenType` and the tokens of all blocks follow the runs of the input under the older table |
| OldTokenize.OldBlocksFollowRuns | old.ts:92-112 | the tokens of the returned blocks are a prefix of the input's runs, and never all of them |
| OldTokenize.OldBlockTokensWellFormed | old.ts:92-102 | the returned tokens concatenate to a prefix of the input, are non-empty, alternate in kind, and each backslash token is one character long |
| OldTokenize.SurrogatePairEndNoPush | old.ts:92-108 | a dash followed by an emoji (a surrogate pair) yields no block: the last code unit never starts a new kind |
| OldTokenize.OldScanGrows | old.ts:106 | a pushed block is never modified again |
| OldTokenize.OldBlocksWellBuilt | old.ts:104-108 | every returned block is unknown, blank, indented code, thematic break, ATX heading, fenced code, HTML, block quote or paragraph. Each heading has a level, each HTML block has tokens and a start condition, and each flag is exact |
| OldTokenize.StandardHtmlOnlyLast | old.ts:105-119 | an HTML block opened by a standard tag can only be the last block: at a line ending its last token is never a line ending, so it is pushed only at the input's last code unit |
| OldTokenize.OldTokenizeBlocks | old.ts:86-112 | the imperative tokenizer returns records whose values are exactly the specified blocks |
| OldTokenize.OldAdvance | old.ts:93-102 | one loop iteration moves the variables from the state after `i` characters to the state after `i + 1` |
| OldTokenize.OldFlush | old.ts:98-108 | a change of kind appends the non-empty chunk, processes the block at a line ending, and pushes it as the step function does |
| OldTokenize.OldPush | old.ts:106-107 | pushing appends the block's value and opens a fresh empty record |
| OldRender.OldRenderInline | old.ts:233-236 | the rendered inline text is the block's text with its leading whitespace removed |
| OldRender.LevelText | old.ts:240-241 | a level prints as its digits, and a missing level as `undefined` |
| OldRender.OldRenderBlock | old.ts:238-246 | a renderer exists exactly for thematic breaks, ATX and setext headings, paragraphs, HTML, blank lines and the unknown type |
| OldRender.HeadingKeepsMarker | old.ts:240 | a heading renders its whole text, the `#` marker included, when the text does not start with whitespace |
| OldRender.HtmlVerbatim | old.ts:243 | an HTML block renders as a suffix of its own text that lacks only leading whitespace; nothing is escaped or added |
| OldRender.RevisionsRenderAlike | old.ts:238-246 | thematic breaks, paragraphs and blank lines render identically in both revisions |
| OldRender.OldRenderAll | old.ts:258-261 | the output is defined exactly when every block has a renderer |
| OldRender.OldRenderAllLineBreaks | old.ts:258-261 | a defined output holds at least one line break per block |
| OldRender.OldRenderAllFails | old.ts:260 | one block without a renderer makes `parse` fail |
| OldRender.OldParseDefinedIff | old.ts:255-264 | `parse` is defined exactly when no returned block is indented code, fenced code or a block quote |
| OldRender.OldParse | old.ts:255-264 | the imperative `parse` returns the specified rendering of the specified blocks |
| OldRender.OldRenderBlocks | old.ts:258-261 | the output loop concatenates each block's rendering and a line break, in order |

## Left out

- The `FLAG_*` and `DIALECT_*` constants and the `Options` argument: they are never read.
- The regular-expression engine:
  - The whitespace and line-ending tests are character sets.
  - The HTML close patterns are substring searches.
  - The case-insensitive close pattern lowers ASCII letters only. Its group is written
    out as four alternatives.
- Strings are sequences of Unicode scalar values, and positions count characters.
  JavaScript counts UTF-16 code units. The two agree wherever the code compares a
  length, because `#`, whitespace, backticks, tildes and dashes are single code units.
  The current revision's test of `input.length - 1` is made at a line ending, which is
  one code unit. The older push test at `input.length - 1` is the one place the two
  indexings differ, and `AtLastCodeUnit` translates it. A string holding a lone surrogate cannot be given.
- The JavaScript exception when `RENDER` has no entry for a type: modelled as `None`.
- Negative `slice` indices are modelled only as far as the first, empty chunk needs.
- Token kinds are a datatype. The source uses the predicate functions themselves as
  identity tags.
- `CanExit`: the source would throw on an HTML block without tokens. The model gives
  `false` there instead. Such a block never arises (`ProcessedHtmlHasTokens`,
  `OldBlocksWellBuilt`).
- `CanExit`: the contract states the outcome for the comment and standard-tag
  conditions only. The other close patterns are in its body.
- OldBlock.OldBlock.ProcessBlock: the thematic-break scan, the marker tests and the
  start-condition loop are factored into `OnlyMarksFrom`, `CheckMarker` and
  `FindHtmlOpen`. The loop over the tokens, its whitespace skip and its early returns
  stay in the method.
- `data.level` and `data.condition`:
  - In the older revision they are `Option` values, `None` while never set.
  - In the current revision the level is a `nat` that starts at 0. Only ATX headings
    read it, and they always set it first.
- The block-quote branch of `canExit` is empty in the source: block quotes always exit.
- Inline span parsing, link references, list and block-quote nesting, and entity
  decoding are not in these files.
