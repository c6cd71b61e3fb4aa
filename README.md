# BlueJ / Greenfoot core, modelled in Dafny

This project models the sequential core of the BlueJ and Greenfoot code base
and proves properties of it:

- **The hand-written Java tokenizer** (`BlueJJavaLexer`).
  - `lexer_rules.dfy` holds the pure rules: character categories, comment
    detection, the token-end rule `isComplete`, and the classification of
    words, numbers and operators.
  - `lexer.dfy` holds the lexer object. It keeps a column, a line, one
    character read ahead, deferred tab and newline flags, and the text buffer
    of the token being built. The reader is a sequence of characters, read at
    position `col - 1`, as the source does.
- **The Java text generated from a Stride frame** (`JavaSource`),
  in `java_source.dfy`.
  - The line list is changed in place. Source lines are shared objects, so
    indenting one list indents every list that holds the same line.
  - The text assembly records the offset, line and column of each fragment.
  - The compile-error locator `findError` is modelled with the fragment's
    `checkCompileError` as a function parameter.
- **The Stride parameter list** (`FormalParameters`), in
  `formal_parameters.dfy`: insertion and deletion by index, the
  backspace/delete editing rules, and the header-slot interleaving.
- **Greenfoot world bookkeeping.**
  - `world.dfy` models `World`: one membership set plus optional paint-order
    and act-order sets that may be the very same object, pixel/cell
    conversion, and bounds checks.
  - `greenfoot_world.dfy` models the early `GreenfootWorld`: a 2-D grid of
    per-class object lists, and the clamped window scan of `getObjectsAt`.
- **Speed clamping** of `Simulation`, in `simulation.dfy`.
- **Export filtering** of `JarCreator`, with jar-name and class-path
  building, in `jar_creator.dfy`.
- **Documentation path rewriting** of `DocuGenerator`, in
  `docu_generator.dfy`.
- **The lifts scenario**: the call `Button` and the `Building` floor layout,
  in `lifts.dfy`.
- `strings.dfy` holds the string helpers (`startsWith`, `endsWith`,
  `indexOf`) that the Java code takes from `String`.

Behaviour of the code that the model keeps, as written:

- **The slash escapes never fire.** A buffer starting with `/` is ended by
  any following letter (the category changes from "other" to "letter"). So
  the buffer is never `/n...` or `/t...`. The deferred newline and tab flags
  are therefore never raised, and the line counter never advances
  (`Lexer.FlagsNeverRaised`; `Lexer.BlueJJavaLexer.NextToken` ensures the
  line is unchanged).
- **A stale read-ahead character repeats.** A token that started from the
  read-ahead character and runs into the end of the input leaves that
  character in place. The next call starts a token with it again
  (`Lexer.StaleLookaheadRepeats`). The end token is stated only for the case
  with no read-ahead (`Lexer.EndTokenRepeats`).
- **A tab skips reading positions.** The read offset is the column minus one,
  so a tab, which moves the column by the tab size, also skips reading
  positions.
- **Some keywords are missing.** The word table has no `static`, `return` or
  `import`, so those words are identifiers
  (`LexerRules.UnlistedKeywordsAreIdentifiers`).
- **`findError` excludes the last line unless forced.** It treats a start
  line at or past the number of lines as out of range. That includes the
  last real line, because the list is indexed with `startLine - 1` only
  afterwards. The model follows the code here.
- **A new simulation's delay is out of step.** `initialize` leaves speed and
  delay at 0, and the `Simulation` object is built that way
  (`Simulation.Simulation.constructor`). Its delay comes into step with the
  speed only at the first `setSpeed` that changes the speed
  (`Simulation.Simulation.SetSpeed`). The corrected start, with the delay of
  speed 0, is stated on values (`Simulation.EveryPaceConsistent`; see
  Findings).
- **`setSize` keeps the object list.** `GreenfootWorld.setSize` replaces the
  grid but keeps the object list, despite its comment.

## Model

| member | source | states |
|---|---|---|
| LexerRules.CharTypeOf | bluej/src/bluej/parser/ast/gen/BlueJJavaLexer.java:148-155 | a digit is DIGIT, a letter that is not a digit is LETTER, everything else OTHER |
| LexerRules.IsComplete | bluej/src/bluej/parser/ast/gen/BlueJJavaLexer.java:652-693 | inside an open comment, or for a glued pair (letter/`_`, letter then digit, digits, digit then f/d/l or `.`, `.` then digit, quote next to letter), never complete; otherwise complete exactly when the category changes or the next character is a bracket |
| LexerRules.OperatorRunsStayTogether | bluej/src/bluej/parser/ast/gen/BlueJJavaLexer.java:687-692 | outside comments, two non-bracket OTHER characters never split, so a run such as `=-` stays one token |
| LexerRules.BracketStartsToken | bluej/src/bluej/parser/ast/gen/BlueJJavaLexer.java:637-645 | outside comments and glued pairs, a bracket always ends the token before it |
| LexerRules.WordType | bluej/src/bluej/parser/ast/gen/BlueJJavaLexer.java:434-609 | a one-letter word is the char-literal kind; a listed reserved word gets its own kind; it is an identifier exactly when it is neither |
| LexerRules.ReservedWordsRoundTrip | bluej/src/bluej/parser/ast/gen/BlueJJavaLexer.java:434-609 | each listed word of two or more letters is classified as that reserved word |
| LexerRules.UnlistedKeywordsAreIdentifiers | bluej/src/bluej/parser/ast/gen/BlueJJavaLexer.java:434-609 | `static` and `return`, absent from the table, are identifiers |
| LexerRules.ImportIsIdentifier | bluej/src/bluej/parser/ast/gen/BlueJJavaLexer.java:434-609 | `import`, absent from the table, is an identifier |
| LexerRules.NumberType | bluej/src/bluej/parser/ast/gen/BlueJJavaLexer.java:611-623 | FLOAT iff the text holds `f`; else LONG iff `l`; else DOUBLE iff `d` or `.`; else INT |
| LexerRules.UpperCaseSuffixesIgnored | bluej/src/bluej/parser/ast/gen/BlueJJavaLexer.java:611-623 | `1F`, `1L` and `1D` are integers: only lower-case suffixes count |
| LexerRules.AndType | bluej/src/bluej/parser/ast/gen/BlueJJavaLexer.java:277-287 | `&`, `&&`, `&=` get their kinds, anything else is invalid |
| LexerRules.OrType | bluej/src/bluej/parser/ast/gen/BlueJJavaLexer.java:289-298 | `\|`, `\|\|`, `\|=` get their kinds, anything else is invalid |
| LexerRules.PlusType | bluej/src/bluej/parser/ast/gen/BlueJJavaLexer.java:300-309 | `+`, `++`, `+=` get their kinds, anything else is invalid |
| LexerRules.MinusType | bluej/src/bluej/parser/ast/gen/BlueJJavaLexer.java:311-320 | `-`, `--`, `-=` get their kinds, anything else is invalid |
| LexerRules.EqualType | bluej/src/bluej/parser/ast/gen/BlueJJavaLexer.java:322-329 | `=` and `==` get their kinds, anything else is invalid |
| LexerRules.StarType | bluej/src/bluej/parser/ast/gen/BlueJJavaLexer.java:331-340 | `*`, `*=` and a buffer closing a comment get their kinds, anything else is invalid |
| LexerRules.ModType | bluej/src/bluej/parser/ast/gen/BlueJJavaLexer.java:342-349 | `%` and `%=` get their kinds, anything else is invalid |
| LexerRules.SlashType | bluej/src/bluej/parser/ast/gen/BlueJJavaLexer.java:351-370 | `/`, `//`, `/*`, `/=` get their kinds; `/n` and `/t` are char literals; anything else is invalid |
| LexerRules.GreaterType | bluej/src/bluej/parser/ast/gen/BlueJJavaLexer.java:372-392 | `>`, `>=`, `>>`, `>>=`, `>>>`, `>>>=` get their kinds, anything else is invalid |
| LexerRules.LessType | bluej/src/bluej/parser/ast/gen/BlueJJavaLexer.java:394-408 | `<`, `<=`, `<<`, `<<=` get their kinds, anything else is invalid |
| LexerRules.ExclamationType | bluej/src/bluej/parser/ast/gen/BlueJJavaLexer.java:410-416 | `!` and `!=` get their kinds, anything else is invalid |
| LexerRules.DotType | bluej/src/bluej/parser/ast/gen/BlueJJavaLexer.java:418-423 | `.` alone is DOT; a longer buffer is typed by the number rule, so one starting with `.` is a double, float or long |
| LexerRules.XorType | bluej/src/bluej/parser/ast/gen/BlueJJavaLexer.java:425-431 | `^` and `^=` get their kinds, anything else is invalid |
| LexerRules.ShiftOperatorSpellings | bluej/src/bluej/parser/ast/gen/BlueJJavaLexer.java:372-408 | the six `>` spellings and four `<` spellings map to GT, GE, SR, SR_ASSIGN, BSR, BSR_ASSIGN, LT, LE, SL, SL_ASSIGN |
| LexerRules.ShiftOperatorMisspellings | bluej/src/bluej/parser/ast/gen/BlueJJavaLexer.java:372-408 | `>>-`, `>>>>` and `<<<` are invalid tokens |
| LexerRules.DispatchByFirstCharacter | bluej/src/bluej/parser/ast/gen/BlueJJavaLexer.java:215-274 | for every buffer, the first character picks its operator family's helper (`&`, `\|`, `+`, `-`, `=`, `*`, `/`, `!`, `.`, `^`, `>`, `<`) or its fixed kind (quotes, `?`, `,`, `;`, `:`, `~`, `@`, brackets); `%` dispatches again; any other first character is invalid |
| LexerRules.ShiftTokensByFamily | bluej/src/bluej/parser/ast/gen/BlueJJavaLexer.java:215-274 | a buffer starting with `>` or `<` is typed by the `>` or `<` helper |
| LexerRules.GetTypeAsWritten | bluej/src/bluej/parser/ast/gen/BlueJJavaLexer.java:215-274 | a `%` buffer dispatches again to getType, and only a `%` buffer does |
| LexerRules.PercentNeverTyped | bluej/src/bluej/parser/ast/gen/BlueJJavaLexer.java:259-260 | however many times a `%` buffer is dispatched again, it is never typed |
| LexerRules.GetType | bluej/src/bluej/parser/ast/gen/BlueJJavaLexer.java:215-274 | the corrected getType: `%` goes through the `%` helper, every other buffer as written |
| LexerRules.GetTypeTotal | bluej/src/bluej/parser/ast/gen/BlueJJavaLexer.java:215-274 | `%` and `%=` are typed MOD and MOD_ASSIGN, a bracket gets a bracket kind, and a buffer whose first character has no entry in the chain is invalid |
| LexerRules.TokenType | bluej/src/bluej/parser/ast/gen/BlueJJavaLexer.java:206-213 | letter-initial buffers are typed by the word rule, digit-initial ones by the number rule, the rest by getType |
| Lexer.Fill | bluej/src/bluej/parser/ast/gen/BlueJJavaLexer.java:157-195 | filling extends the buffer by the first character and moves the column forward |
| Lexer.FillAdvance | bluej/src/bluej/parser/ast/gen/BlueJJavaLexer.java:93-115 | the column advances by one per consumed character, by the tab size per tab, plus one for a space that ended the token |
| Lexer.FillNoCut | bluej/src/bluej/parser/ast/gen/BlueJJavaLexer.java:157-195 | no character inside a token would have ended it: none is a space outside a comment, and isComplete held at none |
| Lexer.FillEnd | bluej/src/bluej/parser/ast/gen/BlueJJavaLexer.java:170-186 | the read-ahead is unchanged only at the end of input, cleared exactly when a space outside a comment ended the token, and otherwise the completing character read at the new column |
| Lexer.FlagsNeverRaised | bluej/src/bluej/parser/ast/gen/BlueJJavaLexer.java:361-368 | a token's text never starts with `/n` or `/t`, so neither flag is ever raised |
| Lexer.SpaceInsideComment | bluej/src/bluej/parser/ast/gen/BlueJJavaLexer.java:179-184 | inside an open comment a space is consumed into the token like any other character |
| Lexer.TokenColumns | bluej/src/bluej/parser/ast/gen/BlueJJavaLexer.java:40-45 | a token starts at the column and line where it began, ends on that line as many columns on as its characters take, and the lexer stands at its end or one past it after a space |
| Lexer.EndTokenRepeats | bluej/src/bluej/parser/ast/gen/BlueJJavaLexer.java:77-82 | with nothing read ahead at the end of input, the token is EOF with text "EOF" and equal start and end column, and the state does not move |
| Lexer.StaleLookaheadRepeats | bluej/src/bluej/parser/ast/gen/BlueJJavaLexer.java:172-176 | a read-ahead character whose token hits the end of input stays read ahead, and the next token starts with it again |
| Lexer.BlueJJavaLexer.constructor | bluej/src/bluej/parser/ast/gen/BlueJJavaLexer.java:28-32 | column is the reader position plus one, line 1, nothing read ahead, tab size 8 |
| Lexer.BlueJJavaLexer.SetTabSize | bluej/src/bluej/parser/ast/gen/BlueJJavaLexer.java:58-60 | sets the tab size and nothing else |
| Lexer.BlueJJavaLexer.ReadChar | bluej/src/bluej/parser/ast/gen/BlueJJavaLexer.java:62-73 | a character exactly for positions inside the input, none otherwise |
| Lexer.BlueJJavaLexer.NextToken | bluej/src/bluej/parser/ast/gen/BlueJJavaLexer.java:75-86 | the token, column, read-ahead and buffer are those of NextTokenOf; the line never changes |
| Lexer.BlueJJavaLexer.Consume | bluej/src/bluej/parser/ast/gen/BlueJJavaLexer.java:93-115 | appends the character and moves the column by one, or by the tab size for a tab |
| Lexer.BlueJJavaLexer.CreateToken | bluej/src/bluej/parser/ast/gen/BlueJJavaLexer.java:122-129 | the token of Fill, typed by TokenType, ending one column before the lexer's when a space ended it |
| Lexer.BlueJJavaLexer.MakeToken | bluej/src/bluej/parser/ast/gen/BlueJJavaLexer.java:34-47 | the end column is one less than the given column exactly when a space ended the token |
| Lexer.BlueJJavaLexer.GetTokenType | bluej/src/bluej/parser/ast/gen/BlueJJavaLexer.java:206-213 | the kind is TokenType of the buffer; a `/n` or `/t` buffer raises the newline or tab flag |
| Lexer.BlueJJavaLexer.AdjustColLineNums | bluej/src/bluej/parser/ast/gen/BlueJJavaLexer.java:131-141 | a raised tab flag moves the column to col - 1 + tabsize, a raised newline flag adds a line, and both are lowered |
| Lexer.BlueJJavaLexer.ProcessEndOfReader | bluej/src/bluej/parser/ast/gen/BlueJJavaLexer.java:143-146 | empties the buffer and returns the EOF token at the current column and line |
| Lexer.BlueJJavaLexer.PopulateTextBuffer | bluej/src/bluej/parser/ast/gen/BlueJJavaLexer.java:157-195 | the loop leaves the buffer, column, whitespace flag and read-ahead that Fill describes |
| JavaSource.SourceLine.Checked | bluej/src/bluej/stride/framedjava/ast/JavaSource.java:51-67 | a line is built exactly when indent and content are present and no fragment is missing |
| JavaSource.JavaSource.constructor | bluej/src/bluej/stride/framedjava/ast/JavaSource.java:76-87 | one fresh unindented line with the fragments and handler |
| JavaSource.JavaSource.Copy | bluej/src/bluej/stride/framedjava/ast/JavaSource.java:71-74 | the copy holds the very same line objects |
| JavaSource.JavaSource.AppendLine | bluej/src/bluej/stride/framedjava/ast/JavaSource.java:89-92 | one fresh unindented line at the end, the others kept |
| JavaSource.JavaSource.PrependLine | bluej/src/bluej/stride/framedjava/ast/JavaSource.java:94-97 | one fresh unindented line at the front, the others kept |
| JavaSource.JavaSource.Prepend | bluej/src/bluej/stride/framedjava/ast/JavaSource.java:99-102 | the other source's lines, then the own lines |
| JavaSource.JavaSource.Appened | bluej/src/bluej/stride/framedjava/ast/JavaSource.java:104-107 | the own lines, then the other source's lines |
| JavaSource.JavaSource.AddIndented | bluej/src/bluej/stride/framedjava/ast/JavaSource.java:114-120 | appends the other source's lines in order, each indented by four spaces per occurrence in that source |
| JavaSource.JavaSource.IndentLine | bluej/src/bluej/stride/framedjava/ast/JavaSource.java:115-117 | one step of the indenting loop: every line's indent is four spaces beyond its original per occurrence so far |
| JavaSource.JavaSource.AppendIndentedLine | bluej/src/bluej/stride/framedjava/ast/JavaSource.java:339-341 | one fresh line holding the footer, indented four spaces, appended with the given handler |
| JavaSource.JavaSource.PrependJavadoc | bluej/src/bluej/stride/framedjava/ast/JavaSource.java:366-371 | one plain line per javadoc line in front, in the original order |
| JavaSource.JavaSource.CreateMethod | bluej/src/bluej/stride/framedjava/ast/JavaSource.java:288-301 | javadoc lines, the header, `{`, every body line in order, `}` with the method's handler; each body line is indented four spaces per occurrence |
| JavaSource.JavaSource.CreateCompoundStatement | bluej/src/bluej/stride/framedjava/ast/JavaSource.java:310-343 | header plus ` {`, every body line in order, `}`, then the optional footer indented with the header's handler |
| JavaSource.JavaSource.CompoundHead | bluej/src/bluej/stride/framedjava/ast/JavaSource.java:327-329 | one fresh unindented line: the header fragments, then ` {`, with the header's handler |
| JavaSource.JavaSource.CloseBlock | bluej/src/bluej/stride/framedjava/ast/JavaSource.java:333-338 | the earlier lines are kept and no existing line's indent changes; then a fresh plain `}` line with the given handler and, when there is a footer, a fresh line holding it indented four spaces |
| JavaSource.JavaSource.IndentAll | bluej/src/bluej/stride/framedjava/ast/JavaSource.java:293-295 | the builders' loop appends all body lines in order, each indented once per occurrence among them |
| JavaSource.JavaSource.RegisterBreakpoints | bluej/src/bluej/stride/framedjava/ast/JavaSource.java:278-286 | reports exactly the 1-based numbers of the breakpoint lines, in increasing order |
| JavaSource.JavaSource.ToJavaCodeString | bluej/src/bluej/stride/framedjava/ast/JavaSource.java:152-173 | without line breaks in fragments, the text is each line's indent and code plus a newline, with a record per fragment; otherwise an error after recording up to the first breaking fragment |
| JavaSource.JavaSource.Assemble | bluej/src/bluej/stride/framedjava/ast/JavaSource.java:155-172 | the loop over the lines gives the text and records of all lines when no fragment breaks, otherwise the records up to the first breaking fragment |
| JavaSource.JavaSource.AssembleNext | bluej/src/bluej/stride/framedjava/ast/JavaSource.java:156-171 | one line: without a break the text and records grow by that line's; with one, the records so far are those of all lines up to their first breaking fragment |
| JavaSource.BreakInLine | bluej/src/bluej/stride/framedjava/ast/JavaSource.java:164-166 | when no earlier line breaks, the first breaking fragment of all lines is line i's first |
| JavaSource.JavaSource.AssembleLine | bluej/src/bluej/stride/framedjava/ast/JavaSource.java:158-170 | one line's text and records, stopping at its first fragment with a line break |
| JavaSource.RecordsLocateCode | bluej/src/bluej/stride/framedjava/ast/JavaSource.java:161-163 | every record's offset, line and column point at its fragment's code in the text |
| JavaSource.RecordsFollowFragments | bluej/src/bluej/stride/framedjava/ast/JavaSource.java:161-163 | the k-th record belongs to the k-th fragment of the lines and spans its code's length |
| JavaSource.JavaSource.FindError | bluej/src/bluej/stride/framedjava/ast/JavaSource.java:190-247 | the line past the end moves onto the last; out of range without force gives none; forced, the last showable fragment of all lines; in range, the choice of InLine |
| JavaSource.InLine | bluej/src/bluej/stride/framedjava/ast/JavaSource.java:221-246 | the chosen fragment is in the line and can show the error; none exactly when no fragment can |
| JavaSource.LastShowableInLines | bluej/src/bluej/stride/framedjava/ast/JavaSource.java:203-218 | the chosen fragment is in the source and can show the error; none exactly when no fragment can |
| JavaSource.JavaSource.ScanLine | bluej/src/bluej/stride/framedjava/ast/JavaSource.java:221-246 | the loop with its running `last` computes InLine |
| JavaSource.JavaSource.LastShowableIndex | bluej/src/bluej/stride/framedjava/ast/JavaSource.java:209-216 | the backward loop finds the last showable fragment of a line |
| JavaSource.JavaSource.LastShowableLine | bluej/src/bluej/stride/framedjava/ast/JavaSource.java:204-216 | the backward loop over the lines finds LastShowableInLines, or none |
| JavaSource.NeverCannotShow | bluej/src/bluej/stride/framedjava/ast/JavaSource.java:210 | no chosen fragment has the CANNOT_SHOW relation |
| JavaSource.BeforeOnlyWithoutEarlierShowable | bluej/src/bluej/stride/framedjava/ast/JavaSource.java:227-230 | a BEFORE fragment is chosen only when no earlier fragment of the line can show the error |
| FormalParameters.Position | bluej/src/bluej/stride/slots/FormalParameters.java:226 | the first index of an element, or -1 exactly when absent |
| FormalParameters.RemoveUndoesInsert | bluej/src/bluej/stride/slots/FormalParameters.java:224-236 | removing at the index just inserted at gives the list back |
| FormalParameters.InsertAddsOne | bluej/src/bluej/stride/slots/FormalParameters.java:224-236 | insertion adds exactly one copy of the new parameter |
| FormalParameters.RemoveDropsOne | bluej/src/bluej/stride/slots/FormalParameters.java:445 | removing drops exactly one copy of the parameter |
| FormalParameters.FindFormal | bluej/src/bluej/stride/slots/FormalParameters.java:95-98 | the first parameter owning the slot, or -1 exactly when none does |
| FormalParameters.FoundFormalIsFirstOccurrence | bluej/src/bluej/stride/slots/FormalParameters.java:375-386 | the parameter found for a slot sits at its own first position, so removing it by identity removes that index |
| FormalParameters.HeaderSlots | bluej/src/bluej/stride/slots/FormalParameters.java:481-494 | `(`, a spacer only without parameters, the slots, `)`: three items for no parameters, 3n+1 items for n ≥ 1 parameters |
| FormalParameters.InterleavedLayout | bluej/src/bluej/stride/slots/FormalParameters.java:481-494 | parameter i's slots are interleaved items 3i and 3i+1 with a comma at 3i+2 |
| FormalParameters.HeaderLayout | bluej/src/bluej/stride/slots/FormalParameters.java:481-494 | parameter i's type and name are items 3i+1 and 3i+2, and a comma is item 3i+3 between parameters |
| FormalParameters.FormalParameters.AddFormal | bluej/src/bluej/stride/slots/FormalParameters.java:209-212 | appends without telling the editor |
| FormalParameters.FormalParameters.InsertBefore | bluej/src/bluej/stride/slots/FormalParameters.java:224-229 | inserts at 0 for no parameter, else at its index; fails unchanged for a parameter not in the list |
| FormalParameters.FormalParameters.InsertAfter | bluej/src/bluej/stride/slots/FormalParameters.java:231-236 | inserts at 0 for no parameter (or one not in the list), else just after it |
| FormalParameters.FormalParameters.EnsureAtLeastOneParameter | bluej/src/bluej/stride/slots/FormalParameters.java:242-253 | adds exactly one parameter and answers true iff the list was empty |
| FormalParameters.FormalParameters.DeleteFormal | bluej/src/bluej/stride/slots/FormalParameters.java:436-450 | removes the first occurrence and tells the editor |
| FormalParameters.FormalParameters.BackSpacePressedAtStart | bluej/src/bluej/stride/slots/FormalParameters.java:358-394 | nothing at the first type or at a name; at a later type, that parameter if both slots are almost blank, else the one before |
| FormalParameters.BackspaceDeletesOne | bluej/src/bluej/stride/slots/FormalParameters.java:380-390 | either backspace deletion removes exactly one parameter |
| FormalParameters.FormalParameters.DeletePressedAtEnd | bluej/src/bluej/stride/slots/FormalParameters.java:417-434 | at a name, the following parameter goes iff there is one; at a type nothing |
| FormalParameters.FormalParameters.CheckForEmptySlot | bluej/src/bluej/stride/slots/FormalParameters.java:452-457 | removes the sole parameter only when it is empty and unfocused |
| FormalParameters.FormalParameters.DeleteFirstParam | bluej/src/bluej/stride/slots/FormalParameters.java:618-622 | removes index 0 when there is one, silently |
| FormalParameters.FormalParameters.IsEmpty | bluej/src/bluej/stride/slots/FormalParameters.java:503-506 | true exactly when there is no parameter |
| World.World.AddObject | greenfoot/src/greenfoot/World.java:388-402 | an actor already present changes nothing; otherwise it joins the membership set at (x, y) in this world, and every ordering set with it |
| World.World.AddInPaintOrder | greenfoot/src/greenfoot/World.java:411-416 | adds to the paint ordering when there is one |
| World.World.AddInActOrder | greenfoot/src/greenfoot/World.java:404-409 | adds to the act ordering when there is one |
| World.World.RemoveInPaintOrder | greenfoot/src/greenfoot/World.java:425-430 | removes from the paint ordering when there is one |
| World.World.RemoveInActOrder | greenfoot/src/greenfoot/World.java:418-423 | removes from the act ordering when there is one |
| World.World.RemoveObject | greenfoot/src/greenfoot/World.java:437-446 | the actor leaves every set, and its world is cleared whether or not it was present |
| World.World.SetPaintOrder | greenfoot/src/greenfoot/World.java:305-331 | none drops the paint ordering and resets the dropped set's class order to empty (the membership set's too, when it was the ordering); the membership set's order is untouched when it is neither the old nor the new ordering; otherwise the existing set, the membership set, or a fresh copy when the act ordering holds the membership set, ordered reversed |
| World.World.SetActOrder | greenfoot/src/greenfoot/World.java:351-377 | the act-order counterpart, with the same reset and untouched order of the membership set, never sharing the paint ordering's set |
| World.World.NeverBothOnMembershipSet | greenfoot/src/greenfoot/World.java:317-331 | the two orderings never both use the membership set |
| World.World.constructor | greenfoot/src/greenfoot/World.java:111-139 | the given size and cell size, an empty membership set and no orderings |
| World.World.NumberOfObjects | greenfoot/src/greenfoot/World.java:492-495 | the number of actors in either ordering list |
| World.World.GetObjectsListInPaintOrder | greenfoot/src/greenfoot/World.java:834-844 | the paint ordering when present, else the membership set; same members either way |
| World.World.GetObjectsListInActOrder | greenfoot/src/greenfoot/World.java:850-860 | the act ordering when present, else the membership set; same members either way |
| World.World.GetWidthInPixels | greenfoot/src/greenfoot/World.java:666-669 | the last pixel falls in the last column and the pixel count rounds up to the width |
| World.World.GetHeightInPixels | greenfoot/src/greenfoot/World.java:658-661 | the last pixel falls in the last row and the pixel count rounds up to the height |
| World.World.ToCellFloor | greenfoot/src/greenfoot/World.java:682-685 | the cell whose pixel range holds the pixel |
| World.World.ToCellCeil | greenfoot/src/greenfoot/World.java:674-677 | the least cell count whose pixels reach the pixel |
| World.World.FloorCeilAgreeOnCellEdges | greenfoot/src/greenfoot/World.java:674-685 | the two roundings agree exactly on multiples of the cell size |
| World.World.CellOfLastPixel | greenfoot/src/greenfoot/World.java:658-685 | the last pixel of n cells lies in cell n - 1, and n cells of pixels round up to n |
| World.World.EnsureWithinXBounds | greenfoot/src/greenfoot/World.java:778-789 | no error exactly for 0 <= x < width; the two error messages |
| World.World.EnsureWithinYBoundsAsWritten | greenfoot/src/greenfoot/World.java:795-806 | no error exactly for 0 <= y < height |
| World.World.NegativeYReportedAsX | greenfoot/src/greenfoot/World.java:803-804 | a row of -1 is reported as an x-coordinate |
| World.World.EnsureWithinYBounds | greenfoot/src/greenfoot/World.java:795-806 | the corrected check: the negative-row message names y |
| GreenfootWorld.GreenfootWorld.constructor | greenfoot/src/greenfoot/GreenfootWorld.java:69-72 | an empty grid of the given size and no objects |
| GreenfootWorld.GreenfootWorld.GetWidth | greenfoot/src/greenfoot/GreenfootWorld.java:156-159 | the number of columns |
| GreenfootWorld.GreenfootWorld.GetHeight | greenfoot/src/greenfoot/GreenfootWorld.java:166-169 | the number of rows, failing exactly in a world without columns |
| GreenfootWorld.GreenfootWorld.SetSize | greenfoot/src/greenfoot/GreenfootWorld.java:175-181 | a fresh empty grid of the new size, the object list kept; fails for a negative size |
| GreenfootWorld.BucketIndex | greenfoot/src/greenfoot/GreenfootWorld.java:210-221 | the bucket of a class in a cell, or -1 exactly when the class has none |
| GreenfootWorld.AddToCell | greenfoot/src/greenfoot/GreenfootWorld.java:210-221 | the object joins the end of its class's list; other classes unchanged |
| GreenfootWorld.RemoveFromCell | greenfoot/src/greenfoot/GreenfootWorld.java:343-350 | the first occurrence leaves its class's list; other classes unchanged |
| GreenfootWorld.RemoveFirst | greenfoot/src/greenfoot/GreenfootWorld.java:347-351 | one occurrence fewer of the object, the list unchanged when it is absent |
| GreenfootWorld.BucketsKeepClasses | greenfoot/src/greenfoot/GreenfootWorld.java:210-221 | replacing a bucket's objects moves no class to another bucket |
| GreenfootWorld.GreenfootWorld.AddObject | greenfoot/src/greenfoot/GreenfootWorld.java:192-228 | fails outside the grid; an object already listed changes nothing; otherwise it joins its cell's class list and the object list |
| GreenfootWorld.GreenfootWorld.RemoveObject | greenfoot/src/greenfoot/GreenfootWorld.java:341-353 | it leaves its cell's class list and the object list; its world is cleared only when its class had a list there |
| GreenfootWorld.GreenfootWorld.TakeFromCell | greenfoot/src/greenfoot/GreenfootWorld.java:343-349 | the cell's list of the object's class loses its first entry of the object; other classes and other cells are unchanged |
| GreenfootWorld.GreenfootWorld.GetObjects | greenfoot/src/greenfoot/GreenfootWorld.java:359-366 | a copy of the object list |
| GreenfootWorld.GreenfootWorld.UpdateLocation | greenfoot/src/greenfoot/GreenfootWorld.java:379-402 | the entry leaves the old cell's class list and joins the new cell's |
| GreenfootWorld.GreenfootWorld.SetCell | greenfoot/src/greenfoot/GreenfootWorld.java:381-400 | stores one cell and leaves every other cell as it was |
| GreenfootWorld.GreenfootWorld.MoveMovesEntry | greenfoot/src/greenfoot/GreenfootWorld.java:379-402 | the moved class list loses the object at the old cell and gains it at the new; all else stays |
| GreenfootWorld.GreenfootWorld.GetObjectsWithLocation | greenfoot/src/greenfoot/GreenfootWorld.java:254-270 | every object of every class in the cell |
| GreenfootWorld.GreenfootWorld.ClassListInCell | greenfoot/src/greenfoot/GreenfootWorld.java:254-270 | each class list's objects are among the cell's objects |
| GreenfootWorld.CellObjectsMembers | greenfoot/src/greenfoot/GreenfootWorld.java:254-270 | an object stands in a cell exactly when one of the cell's class lists holds it |
| GreenfootWorld.GreenfootWorld.GetObjectsAt | greenfoot/src/greenfoot/GreenfootWorld.java:290-332 | fails only without columns; scans the window clamped to the grid and returns the objects of those cells covering the point |
| GreenfootWorld.GreenfootWorld.ScanColumn | greenfoot/src/greenfoot/GreenfootWorld.java:318-329 | the inner loops find ColumnHits |
| GreenfootWorld.GreenfootWorld.ScanWindow | greenfoot/src/greenfoot/GreenfootWorld.java:317-330 | the outer loop over the columns finds WindowHits |
| GreenfootWorld.FilterMembers | greenfoot/src/greenfoot/GreenfootWorld.java:322-327 | the filter keeps exactly the objects covering the point |
| GreenfootWorld.GreenfootWorld.ColumnHitsMembers | greenfoot/src/greenfoot/GreenfootWorld.java:318-329 | a column scan finds exactly the objects of its rows covering the point |
| GreenfootWorld.GreenfootWorld.WindowHitsMembers | greenfoot/src/greenfoot/GreenfootWorld.java:317-330 | a window scan finds exactly the objects of its columns covering the point |
| GreenfootWorld.GreenfootWorld.GetObjectsAtMembers | greenfoot/src/greenfoot/GreenfootWorld.java:317-330 | an object is found exactly when it stands in a scanned cell and covers the point |
| Simulation.Clamp | greenfoot/src/greenfoot/core/Simulation.java:186-191 | the speed forced into 0..100 |
| Simulation.DelayFor | greenfoot/src/greenfoot/core/Simulation.java:195 | delay (100 - speed) * 4, between 0 and 400, zero only at full speed |
| Simulation.DelayFallsAsSpeedRises | greenfoot/src/greenfoot/core/Simulation.java:195 | a faster speed has a strictly shorter delay |
| Simulation.AfterSetSpeed | greenfoot/src/greenfoot/core/Simulation.java:184-198 | the speed is the clamped request; no change when equal, else the matching delay |
| Simulation.SetSpeedKeepsConsistent | greenfoot/src/greenfoot/core/Simulation.java:193-197 | a delay that matches the speed keeps matching |
| Simulation.SetSpeedIdempotent | greenfoot/src/greenfoot/core/Simulation.java:193 | the same request twice is the same as once |
| Simulation.AfterSetSpeeds | greenfoot/src/greenfoot/core/Simulation.java:184-198 | after a series of requests the speed is the last request clamped |
| Simulation.InitialPaceAsWrittenIsInconsistent | greenfoot/src/greenfoot/core/Simulation.java:34-37 | the initial speed 0 with delay 0 does not match, and setSpeed(0) leaves it so |
| Simulation.EveryPaceConsistent | greenfoot/src/greenfoot/core/Simulation.java:184-198 | from the corrected start, every series of requests leaves delay and speed matching |
| Simulation.Simulation.SetSpeed | greenfoot/src/greenfoot/core/Simulation.java:184-198 | the new pace is AfterSetSpeed, the speed stays in range; a delay out of step with the speed comes back in step exactly when the clamped speed differs; one event exactly when the speed changed |
| Simulation.Simulation.SetPaused | greenfoot/src/greenfoot/core/Simulation.java:148-152 | sets the pause flag and nothing else, from any state including the initial one |
| Simulation.Simulation.GetSpeed | greenfoot/src/greenfoot/core/Simulation.java:205-208 | the stored speed, within 0..100, and matching the delay whenever the delay is in step |
| Simulation.Simulation.constructor | greenfoot/src/greenfoot/core/Simulation.java:45-63 | a paused simulation at speed 0 and delay 0, as initialize leaves it, so the delay is out of step with the speed; no events |
| JarCreator.JarCreator.constructor | greenfoot/src/greenfoot/util/JarCreator.java:74-83 | the skip directories start as "CVS" and the export directory |
| JarCreator.JarCreator.New | greenfoot/src/greenfoot/util/JarCreator.java:74-83 | an exporter exactly for a writable export directory |
| JarCreator.JarCreator.SkipFile | greenfoot/src/greenfoot/util/JarCreator.java:285-302 | the loop with early returns decides FileSkipped; the skipSource argument is ignored |
| JarCreator.JarCreator.SkipDir | greenfoot/src/greenfoot/util/JarCreator.java:266-278 | the loop decides DirSkipped |
| JarCreator.JarCreator.BackupFileAlwaysSkipped | greenfoot/src/greenfoot/util/JarCreator.java:287-288 | `bluej.pkh` is always skipped |
| JarCreator.JarCreator.RegisteredSuffixSkipped | greenfoot/src/greenfoot/util/JarCreator.java:290-293 | a name with a registered suffix is skipped |
| JarCreator.JarCreator.SourceFileRule | greenfoot/src/greenfoot/util/JarCreator.java:295-296 | a `.java` name is skipped iff sources are excluded |
| JarCreator.JarCreator.MetaFileRule | greenfoot/src/greenfoot/util/JarCreator.java:298-299 | a `bluej.pk*` or `.ctxt` name is skipped iff meta files are excluded |
| JarCreator.JarCreator.OtherFilesKept | greenfoot/src/greenfoot/util/JarCreator.java:301 | every other name is kept |
| JarCreator.JarCreator.SeededDirsSkipped | greenfoot/src/greenfoot/util/JarCreator.java:76-77 | paths ending with "CVS" or the export directory are skipped |
| JarCreator.NormalizeJarName | greenfoot/src/greenfoot/util/JarCreator.java:93-94 | the name ends with ".jar", starts with the given name, and is unchanged when it already ended so |
| JarCreator.NormalizeJarNameIdempotent | greenfoot/src/greenfoot/util/JarCreator.java:93-94 | normalising twice equals normalising once |
| JarCreator.ClassPath | greenfoot/src/greenfoot/util/JarCreator.java:142-147 | empty exactly for no jars |
| JarCreator.ClassPathAppend | greenfoot/src/greenfoot/util/JarCreator.java:142-147 | the class path of two lists is their class paths concatenated |
| JarCreator.ClassPathRoundTrip | greenfoot/src/greenfoot/util/JarCreator.java:142-147 | jar names without spaces are read back from the class path unchanged |
| JarCreator.ClassPathSplitsSpacedName | greenfoot/src/greenfoot/util/JarCreator.java:142-147 | a jar name with a space reads back as two entries |
| JarCreator.JarCreator.CreateManifest | greenfoot/src/greenfoot/util/JarCreator.java:139-156 | version 1.0, the main class, and the class path of the extra jars |
| JarCreator.JarCreator.Create | greenfoot/src/greenfoot/util/JarCreator.java:89-100 | the normalised jar name and the manifest |
| JarCreator.JarCreator.AddJar | greenfoot/src/greenfoot/util/JarCreator.java:200-203 | appends the jar; the class path grows by " " and its name |
| JarCreator.JarCreator.AddDir | greenfoot/src/greenfoot/util/JarCreator.java:205-208 | appends the directory |
| JarCreator.JarCreator.AddSkipDir | greenfoot/src/greenfoot/util/JarCreator.java:214-217 | what was skipped stays skipped, and paths ending with the entry are now skipped |
| JarCreator.JarCreator.AddSkipFile | greenfoot/src/greenfoot/util/JarCreator.java:219-222 | what was skipped stays skipped, and names ending with the entry are now skipped |
| JarCreator.JarCreator.IncludeSource | greenfoot/src/greenfoot/util/JarCreator.java:158-161 | sets the flag and nothing else |
| JarCreator.JarCreator.IncludeMetaFiles | greenfoot/src/greenfoot/util/JarCreator.java:166-169 | sets the flag and nothing else |
| JarCreator.JarCreator.SetMainClass | greenfoot/src/greenfoot/util/JarCreator.java:177-180 | sets the main class and nothing else |
| DocuGenerator.StripProjectDir | bluej/src/bluej/pkgmgr/DocuGenerator.java:118-119 | a leading project path is removed, other names kept |
| DocuGenerator.PageStem | bluej/src/bluej/pkgmgr/DocuGenerator.java:120-121 | a `.java` name is cut before its first ".java"; other names kept |
| DocuGenerator.GetDocuPath | bluej/src/bluej/pkgmgr/DocuGenerator.java:116-123 | the doc directory, the stem, ".html" |
| DocuGenerator.FirstJavaIsSuffix | bluej/src/bluej/pkgmgr/DocuGenerator.java:121 | in a name with one ".java", at its end, the first ".java" is that suffix |
| DocuGenerator.DocuPathOfPlainSource | bluej/src/bluej/pkgmgr/DocuGenerator.java:116-123 | a project file with one ".java" at its end maps to the doc directory, its relative name, ".html" |
| DocuGenerator.PageStemCutsAtFirstJava | bluej/src/bluej/pkgmgr/DocuGenerator.java:121 | "X.javax.java" is cut at the first ".java" |
| DocuGenerator.GetLinkParam | bluej/src/bluej/pkgmgr/DocuGenerator.java:402-418 | "" unless the flag is exactly "true"; else " -link " and the URL, cut at "index.html" when it ends with it |
| DocuGenerator.LinkParamEmptyIffOff | bluej/src/bluej/pkgmgr/DocuGenerator.java:402-418 | the parameter is empty exactly when linking is off |
| DocuGenerator.NewParams | bluej/src/bluej/pkgmgr/DocuGenerator.java:305-308 | " -d " and the doc directory, " -sourcepath " and the project directory, the two titles |
| Lifts.ImageFor | greenfoot/scenarios/lifts/Button.java:58-68 | UpDown iff both flags, Up iff only up, Down iff only down, None iff neither |
| Lifts.ImageDeterminesFlags | greenfoot/scenarios/lifts/Button.java:58-68 | the picture determines both flags |
| Lifts.Button.constructor | greenfoot/scenarios/lifts/Button.java:19-30 | both flags off, the "none" picture |
| Lifts.Button.Change | greenfoot/scenarios/lifts/Button.java:47-56 | sets the flag of UP or DOWN, leaves the other, refreshes the picture even for another direction |
| Lifts.Button.Press | greenfoot/scenarios/lifts/Button.java:37-40 | raises the direction's flag, the other kept |
| Lifts.Button.Clear | greenfoot/scenarios/lifts/Button.java:42-45 | lowers the direction's flag, the other kept |
| Lifts.Button.UpdateImage | greenfoot/scenarios/lifts/Button.java:58-68 | the picture shows the flags, which are kept |
| Lifts.PressTwice | greenfoot/scenarios/lifts/Button.java:37-40 | pressing twice leaves what pressing once leaves |
| Lifts.FloorRow | greenfoot/scenarios/lifts/Building.java:65 | floor i of n stands at row (n-1-i)*72+40, inside the building |
| Lifts.FloorRowsDecrease | greenfoot/scenarios/lifts/Building.java:65 | higher floors stand at smaller rows |
| Lifts.WorldHeight | greenfoot/scenarios/lifts/Building.java:44 | a building with no negative story count is at least 40 pixels high (72 per story plus the 40-pixel margin) |
| Lifts.WorldWidth | greenfoot/scenarios/lifts/Building.java:44 | at least 240 pixels wide, 56 more per lift |
| Lifts.FloorsInsideWorld | greenfoot/scenarios/lifts/Building.java:44-65 | every floor row lies inside the world |
| Lifts.Building.constructor | greenfoot/scenarios/lifts/Building.java:41-55 | a (240 + lifts*56) by (stories*72 + 40) world with one floor per story |
| Lifts.Building.Default | greenfoot/scenarios/lifts/Building.java:33-36 | the default building is 408 by 472 |
| Lifts.Building.CreateFloors | greenfoot/scenarios/lifts/Building.java:58-67 | each floor i is placed at FloorRow |
| Lifts.Building.GetFloorAt | greenfoot/scenarios/lifts/Building.java:93-101 | the least floor at row y, or -1 |
| Lifts.Building.GetTopFloor | greenfoot/scenarios/lifts/Building.java:106-109 | the number of floors minus one |
| Lifts.IndexOfRow | greenfoot/scenarios/lifts/Building.java:93-101 | the first floor whose row is y, or -1 exactly when no floor stands there |
| Lifts.Building.FloorAtOwnRow | greenfoot/scenarios/lifts/Building.java:93-101 | the row of floor i gives back floor i |
| Lifts.Building.NoFloorOffRows | greenfoot/scenarios/lifts/Building.java:93-101 | a row off the 72-cell grid gives -1 |

## Left out

- The Unicode-escape reader is not part of this model. The input is a
  sequence of already decoded characters, and a read error is not modelled.
- Letters and digits are ASCII only. `Character.isLetter` and
  `Character.isDigit` also accept other Unicode letters and digits.
- Lexer.BlueJJavaLexer.SetTabSize: requires a tab size of at least one.
  With zero or less, the column can stand still or go back, and the model's
  filling of the buffer would not be known to stop.
- The lexer's `newline()` method, which nothing calls, and the unused
  `getPosition` call in `consume` are left out. So are `getTabSize`,
  `resetText`, `append` and `match`, whose effect is inlined.
- The token kinds are an enumeration of the kinds the lexer hands out. The
  numbers of `JavaTokenTypes` are not part of this model.
- LexerRules.GetType: a `%` buffer is typed through the `%` helper. As
  written, the dispatch calls itself forever; that behaviour is modelled only
  as a bounded number of re-dispatches (see Findings).
- JavaSource: `checkCompileError` and `getJavaCode` of a fragment are taken
  as given. The fragment holds its code, and the error relation is a function
  parameter. Debug handlers are opaque objects.
- JavaSource: `handleError`, `handleStop`, `handleException`,
  `createBreakpoint`, `internalGetDebugHandler` and the three
  `to*JavaCodeString` entry points are editor and debugger plumbing around
  the modelled methods. They are left out.
- JavaSource.JavaSource.FindError: the debug messages on failure are not
  modelled. A start line below 1 other than -1 is reported as an index
  error.
- FormalParameters: the JavaFX slots, focus requests, listeners,
  `createFormal`, `setParams`, `getVars` and the view code are left out. A
  slot is reduced to its empty, almost-blank and focused flags. The editor's
  `modifiedFrame` call is counted. A slot that belongs to no parameter makes
  the Java code throw; the model reports failure and changes nothing.
- World: TreeActorSet is modelled by its members and the class order last
  given to it. The iteration order is not modelled, nor are the collision
  checker, `addedToWorld`, images, backgrounds, `getObjects(Class)`,
  `getObjectsAt` and the locking.
- World.World.constructor: requires a cell size of at least one, as the
  pixel conversions divide by it.
- GreenfootWorld: the HashMap of a cell is an ordered list of per-class
  buckets. The bucket order stands in for the map's iteration order.
  `updateMaxSize` (a square root of image sizes) is replaced by `maxSize`
  given to `getObjectsAt`. Image coverage is a function parameter. The
  class-filtering overload of `getObjectsAt`, backgrounds, the canvas and
  delays are left out.
- GreenfootWorld.GreenfootWorld.constructor: requires a non-negative size.
  The Java code would throw for a negative size; `SetSize` models that case.
- Java's 32-bit `int` wrap-around is not modelled: the model's integers are
  unbounded, so results that overflow in Java for very large inputs are
  stated as the true values.
- World.World.GetWidthInPixels: `width * cellSize` is unbounded here; Java
  wraps it for a product above 2^31 - 1.
- World.World.GetHeightInPixels: `height * cellSize` is unbounded here, as
  for the width.
- Lifts.WorldHeight: `stories * 72 + 40` is unbounded here; Java wraps it
  for very many stories.
- Lifts.WorldWidth: `240 + lifts * 56` is unbounded here; Java wraps it for
  very many lifts.
- GreenfootWorld.GreenfootWorld.GetObjectsAt: `x - maxSize + 1` and the
  window bounds are unbounded here; Java wraps them for coordinates near the
  `int` limits.
- Simulation: the thread, `run`, `maybePause`, `runOnce`, `delay`, the
  listener list and the world handler are left out. Events are counted.
- JarCreator: writing the jar, copying libraries, the HTML skeleton,
  `putManifestEntry` and `setApplet` are left out. Files are named by
  strings, and a directory's canonical path is an input.
- DocuGenerator: running javadoc, the temporary directory, and reading the
  configuration are left out. The project and doc paths and the
  configuration values are inputs.
- Lifts: images are named by the picture shown. `createLifts`, the random
  choices, `act` and the scenario's other actors are left out.
- Lifts.Building.constructor: requires a non-negative number of stories,
  since the Java array allocation throws otherwise.

## Findings

| source | as written | input that shows it | evidently intended | confidence | as-written member | corrected member |
|---|---|---|---|---|---|---|
| bluej/src/bluej/parser/ast/gen/BlueJJavaLexer.java:259-260 | a buffer starting with `%` makes getType call getType again with the same buffer | the token `%` (or `%=`) | classify it with getModType as MOD or MOD_ASSIGN | high, not executed | LexerRules.PercentNeverTyped | LexerRules.GetType |
| greenfoot/src/greenfoot/core/Simulation.java:34-37 | a new simulation has speed 0 and delay 0, and setSpeed(0) changes nothing, so speed 0 runs with no delay | a new simulation, then setSpeed(0) | the delay of speed 0, (100 - 0) * 4 = 400 | medium, not executed | Simulation.InitialPaceAsWrittenIsInconsistent | Simulation.EveryPaceConsistent |
| greenfoot/src/greenfoot/World.java:803-804 | a negative row is reported as "The x-coordinate is: ..." | ensureWithinYBounds(-1) in a world of height 1 | the message names the y-coordinate | high, not executed | World.World.NegativeYReportedAsX | World.World.EnsureWithinYBounds |
