# STEM Notebook core, modelled in Dafny

This project models the logic at the centre of the STEM Notebook application.

- **Math evaluator** (`lib/math-evaluator.ts`). A typed expression is trimmed and tokenized. The shunting-yard algorithm turns the tokens into postfix order, and a stack machine evaluates the postfix form into a value with a display string, or the exact error message the application shows.
- **Notebook store** (`lib/notebook-utils.ts`). This is the metadata list of all notebooks and each notebook's pages, kept in the browser's key-value store. The model covers creating, updating, deleting and duplicating notebooks, and creating, deleting, renaming, switching and filling pages. It also covers migrating an old flat block array to the one-page format.
- **Canvas block list** (`components/notebook-canvas.tsx`). Blocks can be added, edited and deleted. Dragging a block over another moves it to that block's index and renumbers every block's `order`.
- **Todo item list** (`components/blocks/todo-block.tsx`). The list starts from its initial items and is edited by toggling an item, changing its text, adding an item or deleting one.

## How the model is built

**Modules.** There is one module per stage:
- `Basics` holds shared helpers.
- `MathTokens` holds tokens, tables and character classes.
- `MathTokenizer`, `MathShuntingYard`, `MathRpn` and `MathEvaluator` hold the evaluator stages.
- `NotebookUtils`, `NotebookCanvas` and `TodoBlock` hold the rest.

**The three evaluator stages are written imperatively, as in the source.** `Tokenize`, `ShuntingYard` and `EvaluateRpn` are methods with loops. Each is proved equal to a specification function: `Tokens`, `Postfix` and `RpnOutcome`. The properties are lemmas about those functions. `RunPostfixOf` is an independent reference: it evaluates expression trees directly and proves that the stack machine computes a tree's value from the tree's postfix form.

**Numbers.**
- A number token holds the exact `real` value of its literal.
- Stack values are `Double`s: a finite real, either infinity or NaN.
- Arithmetic, the library functions (`Math.sin` and the rest), `**` and the `toFixed(10)`/`parseFloat` display string are taken as parameters (`NumberOps`). Every lemma holds for any choice of them.
- Unary minus, the finiteness check and the snap of values below `1e-10` to 0 are concrete.

**Notebook store.** The store is the class `NotebookStore`. Its field is a map from keys to the shape each stored text parses to. Reads of `Date.now()` are parameters:
- `loadNow` is the reading taken while a notebook's content is loaded;
- `now` is the operation's own reading.

The page edits are pure functions on `NotebookContent`. The methods load, edit and save as the source does.

**Canvas.** Its React state is the class `NotebookCanvas`, kept in the order the handlers leave it; the render's sort by `order` is not modelled (see "## Left out"). The drag reorder is the method `Reorder`.

## Model

| member | source | states |
|---|---|---|
| Basics.FirstIndex | lib/notebook-utils.ts:82 | `findIndex`: -1 exactly when no element matches, otherwise the first matching index |
| Basics.Filter | lib/notebook-utils.ts:96 | `filter`: every kept element comes from the list and satisfies the predicate, and every element satisfying it is kept |
| Basics.FilterAppend | lib/notebook-utils.ts:96 | filtering a concatenation filters each part |
| Basics.NatToString | lib/notebook-utils.ts:65 | `Date.now()` rendered in decimal: non-empty, digits only, no leading zero except for 0 |
| Basics.DigitsValueOfNatToString | lib/notebook-utils.ts:65 | the decimal rendering reads back to the number |
| Basics.NatToStringInjective | lib/notebook-utils.ts:65 | different clock readings give different ids |
| MathTokens.AliasesNameFunctions | lib/math-evaluator.ts:36-48 | every alias names a function of the function table |
| MathTokens.Lower | lib/math-evaluator.ts:105 | `toLowerCase` on identifiers keeps the length and lowercases each ASCII or Greek capital |
| MathTokens.TrimStart | lib/math-evaluator.ts:305 | removes exactly the leading whitespace, a suffix of the input |
| MathTokens.TrimEnd | lib/math-evaluator.ts:305 | removes exactly the trailing whitespace, a prefix of the input |
| MathTokens.TrimEmptyIffAllWhitespace | lib/math-evaluator.ts:305-306 | trim is empty exactly when every character is whitespace; otherwise it is a slice with no whitespace at either end |
| MathTokens.ResolveIdentifierOutcomes | lib/math-evaluator.ts:105-122 | an identifier becomes a number exactly when it or its lowercase form is a constant, checked exact-first; otherwise it becomes a function with a canonical name from the table, or fails with `Unknown identifier` naming it |
| MathTokens.ConstantLookupAsWritten | lib/math-evaluator.ts:107-109 | the source's lookup also finds members inherited by every object; it misses only where own-key resolution also finds no constant |
| MathTokens.InheritedMembersFoundAsWritten | lib/math-evaluator.ts:107-113 | "valueOf" and "Constructor" find inherited members as written, yet resolve to `Unknown identifier` in the corrected lookup |
| MathTokens.OwnKeysOnly | lib/math-evaluator.ts:50-56 | a constant resolves to pi, tau or e only; every inherited member name is an unknown identifier |
| MathTokenizer.NumeralEnd | lib/math-evaluator.ts:84-87 | the end of the maximal run of digits and dots |
| MathTokenizer.IdentifierEnd | lib/math-evaluator.ts:100-103 | the end of the maximal run of identifier characters |
| MathTokenizer.ReadNumeral | lib/math-evaluator.ts:81-87 | the numeral loop reads exactly the maximal run |
| MathTokenizer.ReadIdentifier | lib/math-evaluator.ts:97-103 | the identifier loop reads exactly the maximal run |
| MathTokenizer.Tokenize | lib/math-evaluator.ts:68-160 | the cursor loop yields exactly `Tokens` of the input |
| MathTokenizer.StepAt | lib/math-evaluator.ts:74-156 | one pass of the loop skips exactly at a space, tab or newline, and a pushed token always moves the cursor forward, never past the end |
| MathTokenizer.NextToken | lib/math-evaluator.ts:74-156 | the loop body returns exactly the step `StepAt` describes for the cursor and the last token's kind |
| MathTokenizer.PushRespectsTags | lib/math-evaluator.ts:139-151 | a pushed `u-` comes at the start or after an operator, `(` or function; a pushed binary `-` never does; a pushed function is in the table |
| MathTokenizer.StepErrors | lib/math-evaluator.ts:88-156 | a failing pass reports an invalid maximal numeral, an unknown maximal identifier or an unsupported character, each taken from the input |
| MathTokenizer.AppendKeepsTagged | lib/math-evaluator.ts:139-151 | pushing a token chosen by the minus rule keeps every minus correctly tagged |
| MathTokenizer.ScanPreserves | lib/math-evaluator.ts:139-149 | scanning only appends, at most one token per character, and keeps minus tags and function names correct |
| MathTokenizer.TokensWellFormed | lib/math-evaluator.ts:139-149 | a `-` is unary exactly when it opens an operand (start, after an operator, `(` or a function); every function token has a known name; no more tokens than characters |
| MathTokenizer.ScanErrors | lib/math-evaluator.ts:89-91 | a failing scan reports an invalid maximal numeral, an unknown maximal identifier or an unsupported character, each taken from the input |
| MathTokenizer.TokensErrors | lib/math-evaluator.ts:122-156 | the tokenizer's only errors are those three, each naming text of the input |
| MathTokenizer.ScanOfBlank | lib/math-evaluator.ts:76-79 | scanning adds nothing exactly when the rest is spaces, tabs and newlines |
| MathTokenizer.ScanLengthGrows | lib/math-evaluator.ts:92 | scanning never drops tokens |
| MathTokenizer.TokensOfBlank | lib/math-evaluator.ts:73-79 | no tokens exactly when the input is only spaces, tabs and newlines |
| MathTokenizer.ScanDigit | lib/math-evaluator.ts:81-94 | a lone digit becomes a number token with its value |
| MathTokenizer.ScanOperator | lib/math-evaluator.ts:139-153 | an operator character becomes the operator the minus rule picks |
| MathTokenizer.ScanParen | lib/math-evaluator.ts:125-137 | a parenthesis becomes its token |
| MathTokenizer.ScanIdentifier | lib/math-evaluator.ts:97-120 | a resolved identifier becomes its token and scanning resumes after it |
| MathTokenizer.ScanNumeral | lib/math-evaluator.ts:81-94 | a maximal numeral becomes its value, or fails with `Invalid number` naming the run |
| MathTokenizer.ScanSkipped | lib/math-evaluator.ts:76-79 | whitespace is skipped |
| MathTokenizer.ScanUnknownIdentifier | lib/math-evaluator.ts:122 | an unresolved identifier stops the scan with its name |
| MathTokenizer.ScanUnsupported | lib/math-evaluator.ts:156 | a character no rule accepts stops the scan, naming that character |
| MathShuntingYard.ConvertErrorSticks | lib/math-evaluator.ts:214-216 | once a prefix fails, the whole conversion fails with the same error |
| MathShuntingYard.ShuntingYard | lib/math-evaluator.ts:162-233 | the nested loops yield exactly `Postfix` of the tokens |
| MathShuntingYard.PopOperatorsKeeps | lib/math-evaluator.ts:183-200 | popping before an operator moves tokens from stack to output without losing any or touching a parenthesis |
| MathShuntingYard.CloseParenKeeps | lib/math-evaluator.ts:204-216 | `)` fails with "Mismatched parentheses" exactly when no `(` is on the stack; otherwise it drops one `(` and loses nothing else |
| MathShuntingYard.PopFunctionKeeps | lib/math-evaluator.ts:217-220 | popping the function after `)` loses nothing |
| MathShuntingYard.PushKeeps | lib/math-evaluator.ts:180-203 | pushing a function, operator or `(` keeps the stack invariant |
| MathShuntingYard.ShiftKeeps | lib/math-evaluator.ts:177-222 | one token fails exactly when it is a `)` with no open `(`, and otherwise keeps the invariant |
| MathShuntingYard.ConvertFits | lib/math-evaluator.ts:177-222 | the token loop succeeds exactly when no prefix closes more parentheses than it opens |
| MathShuntingYard.DrainKeeps | lib/math-evaluator.ts:224-230 | the final drain fails exactly when a `(` is left, and otherwise outputs everything without parentheses |
| MathShuntingYard.PostfixFailsIffUnbalanced | lib/math-evaluator.ts:204-230 | conversion fails exactly when the parentheses are unbalanced, and then with "Mismatched parentheses" |
| MathShuntingYard.PostfixKeepsOperands | lib/math-evaluator.ts:162-233 | the postfix output has no parentheses and is a permutation of the input's numbers, operators and functions |
| MathShuntingYard.StackNeverHoldsRightParen | lib/math-evaluator.ts:226 | a `)` is never on the stack, so that half of the drain check never fires |
| MathShuntingYard.ConvertSnoc | lib/math-evaluator.ts:177 | the token loop processes one token after another |
| MathShuntingYard.PowerGroupsRight | lib/math-evaluator.ts:175-191 | `a^b^c` is `a^(b^c)` |
| MathShuntingYard.MinusGroupsLeft | lib/math-evaluator.ts:188-191 | `a-b-c` is `(a-b)-c` |
| MathShuntingYard.TimesBeforePlus | lib/math-evaluator.ts:166-191 | `a+b*c` is `a+(b*c)` |
| MathShuntingYard.NegateBeforePower | lib/math-evaluator.ts:172-191 | `u- a ^ b` is `(-a)^b`, since unary minus has the highest precedence |
| MathShuntingYard.FunctionTakesParenthesised | lib/math-evaluator.ts:217-220 | `f(a+b)` applies f to the whole parenthesised sum |
| MathShuntingYard.FunctionBeforeOperator | lib/math-evaluator.ts:195-197 | `f a + b` applies f to a alone |
| MathShuntingYard.PostfixDrainOne | lib/math-evaluator.ts:224-230 | a conversion left with one operator on the stack outputs it last |
| MathShuntingYard.PostfixDrainTwo | lib/math-evaluator.ts:224-230 | the drain outputs stacked operators top first |
| MathShuntingYard.OperandFromInput | lib/math-evaluator.ts:162-233 | every token the conversion outputs comes from its input |
| MathRpn.Negated | lib/math-evaluator.ts:247 | unary minus negates finite values and keeps the non-finite class |
| MathRpn.Snapped | lib/math-evaluator.ts:294 | values strictly between -1e-10 and 1e-10 show as 0; others unchanged |
| MathRpn.EvaluateRpn | lib/math-evaluator.ts:235-302 | the stack loop yields exactly the reported `RpnOutcome` |
| MathRpn.RunAccepts | lib/math-evaluator.ts:238-283 | evaluation succeeds exactly when no token finds too few operands; the final height is fixed by the tokens; errors are only stack errors |
| MathRpn.RpnOutcomeErrors | lib/math-evaluator.ts:285-292 | a failure is a stack error from the loop, "Unable to resolve expression" or the non-finite check |
| MathRpn.RunKnownFunctions | lib/math-evaluator.ts:277-280 | with only known function names, "Unsupported function" never occurs |
| MathRpn.UnknownFunctionNeedsOperand | lib/math-evaluator.ts:273-280 | for an unknown name, the empty-stack check comes before the name check |
| MathRpn.RunAppend | lib/math-evaluator.ts:238 | running a concatenation runs the parts in turn, stopping at the first error |
| MathRpn.RunPostfixOf | lib/math-evaluator.ts:238-283 | the stack machine evaluates an expression tree's postfix form to the tree's value; binary operators pop right then left |
| MathRpn.OutcomeOfPostfix | lib/math-evaluator.ts:285-302 | a tree with a finite value succeeds with that value and the snapped display; otherwise it fails with the "infinite result" message |
| MathRpn.TinyValuesDisplayAsZero | lib/math-evaluator.ts:294-295 | a result closer to 0 than 1e-10 is displayed as 0 but keeps its value |
| MathRpn.TwoValuesUnresolvable | lib/math-evaluator.ts:285-287 | two values left on the stack fail with "Unable to resolve expression" |
| MathEvaluator.EvaluateMathExpression | lib/math-evaluator.ts:304-321 | the whole evaluation equals `Evaluation`: trim, blank check, then each stage, with the first failure returned unchanged |
| MathEvaluator.AfterTokensErrors | lib/math-evaluator.ts:310-318 | after tokenizing, "No expression" never appears and "Mismatched parentheses" appears exactly for unbalanced tokens |
| MathEvaluator.AfterKnownTokens | lib/math-evaluator.ts:277-280 | tokens whose functions all have table entries never fail with "Unsupported function" |
| MathEvaluator.NoExpressionIffBlank | lib/math-evaluator.ts:305-308 | "No expression to evaluate." exactly when the input is all whitespace |
| MathEvaluator.MismatchIffUnbalanced | lib/math-evaluator.ts:310-318 | "Mismatched parentheses" exactly when the trimmed input tokenizes to unbalanced tokens |
| MathEvaluator.NeverUnsupportedFunction | lib/math-evaluator.ts:115-120 | "Unsupported function" is never returned, because the tokenizer admits only known names |
| MathEvaluator.ExpectedOfPostfix | lib/math-evaluator.ts:310-320 | an input whose postfix form is a tree's postfix form evaluates to that tree's value |
| MathEvaluator.PowerExample | lib/math-evaluator.ts:304-321 | for any digits a, b, c, "a^b^c" evaluates as a^(b^c) |
| MathEvaluator.NegativeBaseExample | lib/math-evaluator.ts:139-149 | for any digits a, b, "-a^b" evaluates as (-a)^b |
| MathEvaluator.PrecedenceExample | lib/math-evaluator.ts:166-173 | for any digits a, b, c, "a+b*c" evaluates as a+(b*c) |
| MathEvaluator.AliasExample | lib/math-evaluator.ts:115-118 | for any digits a, b, "sine(a+b)" evaluates as sin applied to a+b |
| MathEvaluator.UnclosedParenExample | lib/math-evaluator.ts:224-228 | for any digits a, b, "(a+b" fails with "Mismatched parentheses" |
| MathEvaluator.UnknownIdentifierExample | lib/math-evaluator.ts:122 | for any digit a, "foo(a)" fails with `Unknown identifier "foo"` |
| MathEvaluator.InvalidNumberExample | lib/math-evaluator.ts:88-91 | for any digits a, b, c, "a.b.c" fails with `Invalid number "a.b.c"` |
| MathEvaluator.UnsupportedCharacterExample | lib/math-evaluator.ts:156 | for any digits a, b, "a@b" fails with `Unsupported character "@"` |
| MathEvaluator.TwoNumbersExample | lib/math-evaluator.ts:285-287 | for any digits a, b, "a b" fails with "Unable to resolve expression" |
| MathEvaluator.InheritedMemberExample | lib/math-evaluator.ts:107-122 | with own-key lookup, "valueOf" fails with `Unknown identifier "valueOf"` |
| NotebookUtils.ContentKey | lib/notebook-utils.ts:139 | the content key `notebook-<id>` never collides with the notebook list's key |
| NotebookUtils.ContentKeyInjective | lib/notebook-utils.ts:100 | different notebooks have different content keys |
| NotebookUtils.FindNotebook | lib/notebook-utils.ts:51-54 | `getNotebook`: none exactly when no entry has the id, otherwise the first entry with that id |
| NotebookUtils.Merge | lib/notebook-utils.ts:84-88 | each of `id`, `title`, `subject`, `description`, `createdAt` and `colorTheme` is the patch's value when given and the old one otherwise; `updatedAt` is the time, whatever the patch says; an empty patch only restamps |
| NotebookUtils.UpdatedList | lib/notebook-utils.ts:80-92 | nothing written exactly when no entry has the id; otherwise only the first such entry is merged and the rest are kept |
| NotebookUtils.ListWithout | lib/notebook-utils.ts:94-97 | every entry with the id is removed and every other entry kept |
| NotebookUtils.DeleteAfterCreate | lib/notebook-utils.ts:56-101 | deleting a notebook just created under a fresh id restores the list |
| NotebookUtils.LoadedContentSpec | lib/notebook-utils.ts:137-188 | a missing key yields one empty current "Page 1"; stored content is returned as is; a flat block array becomes one current "Page 1" holding it and is written back; unreadable text, or a metadata list found under a content key, yields null; other keys are untouched |
| NotebookUtils.LoadIsStable | lib/notebook-utils.ts:160-175 | after a migration, loading again returns the migrated content |
| NotebookUtils.Renamed | lib/notebook-utils.ts:253-263 | refused exactly when no page has the id; otherwise only the first such page's title changes |
| NotebookUtils.WithPageBlocks | lib/notebook-utils.ts:279-288 | refused exactly when no page has the id; otherwise only the first such page's blocks change, and `getPageBlocks` then returns them |
| NotebookUtils.SumBlocksCountsAll | lib/notebook-utils.ts:123-129 | the block count is the number of blocks across all pages |
| NotebookUtils.SumBlocksAppend | lib/notebook-utils.ts:128 | the block count adds up over a split of the pages |
| NotebookUtils.CreatePageSpec | lib/notebook-utils.ts:203-220 | one empty page is appended and made current, titled as given or "Page n" with n the new count; old pages and the block count are unchanged |
| NotebookUtils.DeletePageSpec | lib/notebook-utils.ts:225-248 | refused exactly on a one-page notebook or an unknown id; otherwise only the first page with the id goes, the rest keep their order, and the first remaining page becomes current only if the deleted one was; a valid current page stays valid |
| NotebookUtils.DeleteCreatedPage | lib/notebook-utils.ts:203-248 | deleting the page just created under a fresh id gives back the old pages, with the first of them current |
| NotebookUtils.RenameBack | lib/notebook-utils.ts:253-263 | renaming back to the old title restores the content |
| NotebookUtils.SaveBlocksCount | lib/notebook-utils.ts:279-288 | saving a page's blocks changes the block count by that page's difference |
| NotebookUtils.SumBlocksUpdate | lib/notebook-utils.ts:128 | replacing one page changes the block count by the difference in that page |
| NotebookUtils.SwitchSpec | lib/notebook-utils.ts:293-303 | switching succeeds exactly when a page has the id; it changes only the current page, which is then valid |
| NotebookUtils.SameInstantPagesShareId | lib/notebook-utils.ts:203-220 | a page created in the same millisecond as a fresh notebook's default page shares its id; deleting by that id removes the default page |
| NotebookUtils.SavedSpec | lib/notebook-utils.ts:193-198 | saving writes the content (which then loads back), touches no other notebook and only re-stamps this notebook's `updatedAt` |
| NotebookUtils.NotebookStore.constructor | lib/notebook-utils.ts:37-49 | the store starts empty |
| NotebookUtils.NotebookStore.Notebook | lib/notebook-utils.ts:51-54 | `getNotebook` over the stored list |
| NotebookUtils.NotebookStore.CreateNotebook | lib/notebook-utils.ts:56-78 | appends a new entry with a clock id, the given fields and both timestamps set to the clock; subject, description and theme default to "General", "" and "default" |
| NotebookUtils.NotebookStore.UpdateNotebook | lib/notebook-utils.ts:80-92 | the store becomes `Updated` of the old store |
| NotebookUtils.NotebookStore.DeleteNotebook | lib/notebook-utils.ts:94-101 | the list loses every entry with the id and the content key is removed |
| NotebookUtils.NotebookStore.DuplicateNotebook | lib/notebook-utils.ts:103-121 | null and no change exactly when no entry has the id; otherwise a new entry titled "<title> (Copy)" whose content is the stored content, when there is one |
| NotebookUtils.NotebookStore.GetNotebookContent | lib/notebook-utils.ts:137-188 | returns `LoadedContent` and leaves the store as `AfterLoad` |
| NotebookUtils.NotebookStore.SaveNotebookContent | lib/notebook-utils.ts:193-198 | the store becomes `Saved` |
| NotebookUtils.NotebookStore.NotebookBlockCount | lib/notebook-utils.ts:123-129 | the reduce loop returns the block count of the loaded content, or 0 |
| NotebookUtils.NotebookStore.CreatePage | lib/notebook-utils.ts:203-220 | throws "Notebook not found" when nothing loads; otherwise returns the new page and saves the content with it |
| NotebookUtils.NotebookStore.DeletePage | lib/notebook-utils.ts:225-248 | true exactly when `WithoutPage` succeeds, and then that content is saved |
| NotebookUtils.NotebookStore.RenamePage | lib/notebook-utils.ts:253-263 | true exactly when `Renamed` succeeds, and then that content is saved |
| NotebookUtils.NotebookStore.GetPageBlocks | lib/notebook-utils.ts:268-274 | the blocks of the first page with the id, or none |
| NotebookUtils.NotebookStore.SavePageBlocks | lib/notebook-utils.ts:279-288 | saves `WithPageBlocks` when it succeeds, and otherwise only the load's write-back happens |
| NotebookUtils.NotebookStore.SwitchToPage | lib/notebook-utils.ts:293-303 | true exactly when `SwitchedTo` succeeds, and then that content is saved |
| NotebookUtils.NotebookStore.GetPageCount | lib/notebook-utils.ts:308-311 | the number of pages, or 0 |
| NotebookCanvas.Appended | components/notebook-canvas.tsx:31-39 | one block with the clock id and empty content, numbered by the old length, after the unchanged others |
| NotebookCanvas.WithContent | components/notebook-canvas.tsx:41-43 | only the content of blocks with the id changes |
| NotebookCanvas.LastUpdateWins | components/notebook-canvas.tsx:41-43 | two updates leave only the second content |
| NotebookCanvas.Without | components/notebook-canvas.tsx:45-47 | every block with the id is removed and every other block kept |
| NotebookCanvas.DeleteAfterAdd | components/notebook-canvas.tsx:31-47 | deleting the block just added under a fresh id restores the list |
| NotebookCanvas.Moved | components/notebook-canvas.tsx:62-64 | the two splices give a permutation with the dragged block at the target index and the others in their relative order |
| NotebookCanvas.Renumbered | components/notebook-canvas.tsx:66-69 | every `order` becomes the index and nothing else changes |
| NotebookCanvas.RenumberedIsIdempotent | components/notebook-canvas.tsx:66-69 | renumbering twice is renumbering once |
| NotebookCanvas.Reorder | components/notebook-canvas.tsx:62-69 | the copy, two splices and the renumbering loop give `Renumbered(Moved(...))` |
| NotebookCanvas.DragOverNoOpIffIgnored | components/notebook-canvas.tsx:53-72 | the list is left alone exactly when nothing is dragged, the target is the dragged block or either id is missing |
| NotebookCanvas.DragOverMoves | components/notebook-canvas.tsx:57-69 | otherwise the dragged block lands at the target's index, the others keep their relative order, and every `order` is its index |
| NotebookCanvas.NotebookCanvas.constructor | components/notebook-canvas.tsx:21-29 | starts with the welcome block and nothing dragged |
| NotebookCanvas.NotebookCanvas.AddBlock | components/notebook-canvas.tsx:31-39 | the blocks become `Appended` |
| NotebookCanvas.NotebookCanvas.UpdateBlock | components/notebook-canvas.tsx:41-43 | the blocks become `WithContent` |
| NotebookCanvas.NotebookCanvas.DeleteBlock | components/notebook-canvas.tsx:45-47 | the blocks become `Without` |
| NotebookCanvas.NotebookCanvas.HandleDragStart | components/notebook-canvas.tsx:49-51 | records the dragged id |
| NotebookCanvas.NotebookCanvas.HandleDragOver | components/notebook-canvas.tsx:53-72 | the blocks become `DraggedOver`; the dragged id is kept |
| NotebookCanvas.NotebookCanvas.HandleDragEnd | components/notebook-canvas.tsx:74-76 | clears the dragged id and leaves the blocks |
| TodoBlock.InitialItems | components/blocks/todo-block.tsx:33 | never empty: the given items, or one blank item with id "1" |
| TodoBlock.Toggled | components/blocks/todo-block.tsx:131-136 | flips `checked` only on items with the id; ids, texts and length are kept |
| TodoBlock.ToggleTwice | components/blocks/todo-block.tsx:131-136 | toggling the same id twice restores the list |
| TodoBlock.TogglesCommute | components/blocks/todo-block.tsx:131-136 | toggles of two ids commute |
| TodoBlock.WithText | components/blocks/todo-block.tsx:138-143 | replaces only the text of items with the id |
| TodoBlock.TextRestored | components/blocks/todo-block.tsx:138-143 | putting back the old text of a uniquely identified item restores the list |
| TodoBlock.WithNewItem | components/blocks/todo-block.tsx:145-148 | appends exactly one unchecked, empty item with the clock id after the unchanged others |
| TodoBlock.Deleted | components/blocks/todo-block.tsx:150-154 | no change on a one-item list; otherwise every item with the id is removed and the rest kept |
| TodoBlock.DeleteAfterAdd | components/blocks/todo-block.tsx:145-154 | deleting the item just added to a non-empty list under a fresh id restores the list |
| TodoBlock.SharedIdEmptiesList | components/blocks/todo-block.tsx:150-154 | with two items sharing an id, deleting that id empties the list |
| TodoBlock.DistinctIdsKeepOne | components/blocks/todo-block.tsx:150-154 | with distinct ids, deleting from two or more items leaves at least one |

## Left out

- **Floating point.** Number literals are exact decimals; rounding to the nearest double is not modelled. `+ - * / **`, the `Math` functions and the `toFixed(10)`/`parseFloat` display are parameters (`NumberOps`), not IEEE arithmetic. A result is a `Double` (a finite real, either infinity, or NaN), and the `Number.isFinite` test on the final result is the fixed check that it is a finite real. Signed zero is not distinguished.
- **Invalid number literals.** `ValidNumeral` accepts a run with at most one dot and at least one digit. This is where `Number()` on such a run is not NaN; the lone `"."` is rejected.
- **Text encoding.** Strings are sequences of code points. JavaScript strings are UTF-16, so characters outside the Basic Multilingual Plane are one element here and two in the source. `toLowerCase` is modelled for the ASCII and Greek capitals the identifier grammar admits.
- **NaN results.** A NaN result (e.g. `sqrt` of a negative under a real `NumberOps`) fails with the "infinite result" message, as the source's single `isFinite` check does.
- **Inherited-member lookup, as written.** The source's `CONSTANT_MAP[...]` lookup is modelled by `MathTokens.ConstantLookupAsWritten` only. The rest of the pipeline uses own-key lookup (see Findings). What the source does next with a function value on the stack (string concatenation and the like) is not modelled.
- NotebookUtils.NotebookList: a stored value under the list key that is not a metadata list is read as `[]`. The source returns whatever `JSON.parse` yields. For paged content (an object), `getNotebook`, `createNotebook`, `updateNotebook` and `deleteNotebook` throw a TypeError, because `find`, `push`, `findIndex` and `filter` are not functions on it. For a legacy block array, the source uses the blocks as the list: `createNotebook` appends to them and writes them back. Here the lookups give none and the writes start from `[]`. The model's own writes never put such a value under the list key, because a content key never equals it.
- **JSON text.** The store holds what each stored text parses to: a metadata list, paged content, a legacy block array, or unparsable text. Other shapes are not modelled. A metadata list found under a content key loads as null, where the source would treat any array as legacy blocks. A stored empty string, which the source treats as missing, is not modelled.
- NotebookUtils.Merge: a patch field that is present but `undefined` is not modelled. In the source's spread it overwrites the old value with `undefined`; here a field is either given (`Some`) or absent (`None`), and absent keeps the old value.
- **Clock.** `Date.now()` readings are parameters. Within one operation the same reading is used for an id and its timestamps, although the source reads the clock separately for each.
- **Other browser effects.** The `typeof window` guard (server rendering), `console` logging and exceptions from a full store are left out.
- **Aliasing in the drag reorder.** The source copies the array but mutates the shared block objects when renumbering, so the old state's blocks are renumbered as well. Blocks here are values.
- NotebookCanvas.NotebookCanvas: the render's in-place `blocks.sort((a, b) => a.order - b.order)` (components/notebook-canvas.tsx:97-98) is not modelled. In the source it reorders the state array itself, so every later handler sees the blocks sorted by `order`. Here the list stays in the order the handlers leave it. That is insertion order, because `AddBlock` numbers a block by the old length and `DeleteBlock` does not renumber, so after a delete and an add the two orders can differ. A drag after that moves a different index than the source would.
- **Rendering.** React rendering, pointer handling, block positions and scaling are left out. So is the `onUpdate` callback that `updateItems` passes the new todo list to; the model only computes the list.

## Findings

| source | as written | input that shows it | evidently intended | confidence | as-written member | corrected member |
|---|---|---|---|---|---|---|
| lib/math-evaluator.ts:107-109 | `CONSTANT_MAP[identifier]` on a plain object also finds members every object inherits | `valueOf` (or `Constructor`, `toString`, …) becomes a number token holding a function, and the evaluation ends with "Expression evaluates to an infinite result" | only the table's own keys are constants, so `valueOf` fails with `Unknown identifier "valueOf"` | not executed | MathTokens.ConstantLookupAsWritten, MathTokens.InheritedMembersFoundAsWritten | MathTokens.ResolveIdentifier, MathTokens.OwnKeysOnly, MathEvaluator.InheritedMemberExample |
