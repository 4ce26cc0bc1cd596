# A single-tape Turing machine interpreter, modelled in Dafny

The program reads a transition file and an input string, then runs a
single-tape Turing machine. Each rule line `state symbol new-symbol
direction new-state` registers its two symbols and two states. It is stored
in a transition table under the key `state symbol`. The input string is put
on a tape of cells, and the tape grows by a blank `_` cell whenever the
cursor steps past either end. The machine starts in state `0` on the first
cell and steps until no rule matches.

The model has six modules:

- `Wrappers` (`wrappers.dfy`) holds the `Option` type the others use.

- `Tokens` (`tokens.dfy`) holds the character loop that splits a rule line
  on single spaces and stops at the first `;`. It also holds the executor's
  loop that splits a stored rule string again. Both loops are methods. Each
  is proved equal to a specification function (`LineTokens`, `Split`). The
  round trip between storing and re-splitting a rule is proved too.
- `Table` (`table.dfy`) holds the three tables (known symbols, known states,
  transitions). They are filled in place by class `Loader`, one line at a
  time. The value-level `CheckLine`/`LoadAll` say what each line does, and
  lemmas prove that loading only grows the tables, never overwrites a rule,
  gives every rule line its own key and keeps every stored rule well formed.
- `TapeModel` (`tape.dfy`) holds the chain of cells. Class `Tape` keeps the
  cells as a sequence, first to last, and the cursor is an index into it.
  `Move` is stated against the unbounded tape seen from the cursor: a move
  shifts that view by one cell for `l` and `r` and by none otherwise, and it materialises exactly one
  blank cell, only when the cursor leaves the chain.
- `Executor` (`executor.dfy`) holds the step: validity checks, exact then
  wildcard lookup, write, move and state change. It also holds a run
  bounded by fuel, and the executor's loop `RunMachine`, proved equal to
  that run.
- `Machine` (`machine.dfy`) composes loading, tape initialisation and the
  run, and proves a few concrete consequences.

The model follows the code where the header comment of `main.go`
(lines 22-35) promises more than the code does:

- A state whose name starts with `halt` is not special. A run halts only
  when neither `state symbol` nor `state *` has a rule.
- A new state `*` is entered literally as the state `*`. It does not mean
  "no change".
- A new symbol `*` writes back the symbol read only when the wildcard rule
  fired. Under an exact rule a literal `*` is written.
- `*` as the current state of a rule is an ordinary state name. No
  state-wildcard lookup exists.
- `_` is never registered on its own. Reading a grown blank that no rule
  names aborts with an invalid symbol; it is not a halt
  (`InvalidSymbolIsBlank`, `UnnamedBlankAborts`).
- A `;` directly after the fifth field drops that field, so the line is a
  syntax error. A space before the `;` keeps it (`CommentNeedsSpace`).
- With a transition file that has no rule line, no symbol or state is known.
  A non-empty input is rejected before the run. An empty input leaves a tape
  without cells, where the source dereferences a nil start cell. The model
  returns `NoTape` there (`EmptyRuleFileNeverRuns`).
- A wildcard rule `q * x d q'` registers only `*` and `x` as symbols, not
  every symbol, so input symbols that no rule names are rejected
  (`UnnamedInputRejected`).

## Model

| member | source | states |
|---|---|---|
| `Tokens.Split` | main.go:118-131 | splitting a string at every single space gives at least one token, as the loop closes the token still open at the last character; an empty string, where the loop yields no token, is handled by `LineTokens` and `SplitRule` on their own |
| `Tokens.SplitSpaceFreeTokens` | main.go:118-131 | no token of a split holds a space |
| `Tokens.SplitCount` | main.go:118-131 | a split has exactly one token more than the string has spaces |
| `Tokens.CommentStart` | main.go:122-124 | the index of the first `;`, or the line's length: no `;` before it and a `;` at it |
| `Tokens.LineTokensClean` | main.go:115-132 | the rule-line tokens hold neither a space nor a `;` |
| `Tokens.Tokenize` | main.go:115-132 | the character loop of the rule-line tokenizer yields exactly `LineTokens(line)` |
| `Tokens.SplitRule` | main.go:345-359 | the executor's splitting loop yields exactly `Split` of the stored rule (nothing for an empty string) |
| `Tokens.SplitAtSpace` | main.go:118-131 | splitting at a space splits the two sides separately |
| `Tokens.RuleTextRoundTrip` | main.go:346-359 | re-splitting the joined five space-free tokens gives back exactly those tokens |
| `Tokens.RuleKeyInjective` | main.go:153 | for space-free states a key `state symbol` determines both the state and the symbol |
| `Tokens.CommentNeedsSpace` | main.go:118-131 | `rule;note` yields only the first four fields; `rule ;note` yields all five |
| `Table.CheckLine` | main.go:105-175 | empty and `;` lines change nothing; a syntax error exactly when a rule line does not give five tokens; a five-token line whose key is stored aborts with that key as a duplicate; no error exactly when the line is skipped or gives five tokens under a new key; a line that aborts stores no rule and registers no state; a five-token line registers exactly its two symbols, even when it is a duplicate; otherwise the rule text is stored under its new key and exactly its two states are registered; the tables only grow |
| `Table.Loader.constructor` | main.go:412-414 | the tables start empty |
| `Table.Loader.CheckLineSyntax` | main.go:105-175 | the in-place update of the three tables and the error are those of `CheckLine` |
| `Table.Loader.ReadLines` | main.go:93-96 | reading the lines in order, stopping at the first error, leaves the tables and error of `LoadAll` |
| `Table.LoadAllStops` | main.go:134-161 | once a prefix of the lines aborts the load, the remaining lines are never read |
| `Table.RuleTextIsRule` | main.go:105-137 | five tokens without spaces or `;`, joined as a line, are read back as those tokens under the key of their first two |
| `Table.LoadOneRule` | main.go:139-174 | a file with one rule registers its two symbols and two states and stores it under its key |
| `Table.SameKeyAborts` | main.go:158-161 | a second rule for the same state and symbol aborts the load, even when both rules agree |
| `Table.StoredRuleRoundTrip` | main.go:149-164 | the rule string stored for a line re-splits into exactly that line's tokens |
| `Table.CheckLineWellFormed` | main.go:139-174 | after one line, names stay space-free and every stored rule splits into five tokens matching its key, with registered states and symbols |
| `Table.LoadAllWellFormed` | main.go:93-96 | the same holds after any sequence of lines |
| `Table.LoadAllExtends` | main.go:139-174 | loading never forgets a symbol or state and never overwrites a stored rule, however the load ends |
| `Table.LoadAllStored` | main.go:134-164 | after a successful load every rule line has five tokens and its text is stored under its key, which was not stored before |
| `Table.LoadAllKeysDistinct` | main.go:158-164 | after a successful load no two rule lines share a key |
| `Table.LoadAllSucceeds` | main.go:134-164 | a load succeeds exactly when every rule line gives five tokens, under a key not stored before and shared with no other rule line |
| `Table.LoadAllNewKeys` | main.go:158-164 | every key a load adds, whether it succeeds or aborts, is the key of one of its rule lines |
| `TapeModel.Move` | main.go:204-231 | the unbounded tape seen from the cursor shifts by exactly the direction's step (none for anything but `l`/`r`); an interior move keeps the cells; a move past an edge adds exactly one blank cell at that end; the cursor moves to the neighbouring cell, which is index 0 after growing on the left |
| `TapeModel.KnownPrefix` | main.go:265-270 | the number of leading input characters that are known symbols: all before it known, the one at it unknown |
| `TapeModel.Tape.constructor` | main.go:177-179 | a new tape has no cells |
| `TapeModel.Tape.AddBox` | main.go:191-201 | a cell with the symbol is appended after the last one |
| `TapeModel.Tape.MoveBox` | main.go:204-231 | the new cells and cursor are those of `Move` on the old cells and cursor |
| `TapeModel.InitializeTape` | main.go:263-274 | succeeds exactly when every input character is a known symbol; the cells are the old ones plus one per character up to the first unknown one |
| `Executor.Lookup` | main.go:312-336 | nothing found exactly when neither the exact nor the wildcard key is stored; the exact rule is taken whenever it exists, the wildcard rule only otherwise |
| `Executor.Step` | main.go:289-393 | a step that continues leaves the cursor on a cell of the tape |
| `Executor.StepChecksValidity` | main.go:298-310 | a step aborts with an invalid state exactly when the state is unknown, and with an invalid symbol exactly when the state is known and the symbol read is not |
| `Executor.Run` | main.go:288-394 | a run ends on a configuration whose cursor is on the tape |
| `Executor.Execute` | main.go:281-286 | a run does not start exactly when the tape has no cell |
| `Executor.RunMachine` | main.go:276-395 | the outcome and the final tape of the in-place loop are those of `Execute` on the initial tape |
| `Executor.ApplyRule` | main.go:342-393 | the in-place write, move and state change of one iteration are those the rule prescribes: the current cell gets the written symbol, the tape and cursor are those of `Move` for `l` and `r` and unchanged otherwise, and the new state is the rule's fifth token |
| `Executor.LookupFindsOwnRule` | main.go:312-336 | the rule found was written for the current state and for the symbol read (exact) or `*` (wildcard) |
| `Executor.StepEffect` | main.go:361-393 | a step writes only the cursor cell (the rule's new symbol, or the symbol read for `*` under the wildcard rule), keeps every other cell, moves the cursor to the neighbouring cell for `l`/`r` (index 0 after growing on the left), adds a cell only at an edge, and enters the rule's new state verbatim |
| `Executor.ExactRuleWins` | main.go:312-368 | with an exact rule, that rule applies and its new symbol is written literally, even `*` |
| `Executor.WildcardPassThrough` | main.go:361-366 | without an exact rule the wildcard rule applies, and its `*` writes back the symbol read |
| `Executor.NoRuleHalts` | main.go:313-326 | a known state and symbol with no rule halt with tape, cursor and state unchanged |
| `Executor.HaltedIsStuck` | main.go:298-326 | a run halts only where the state and symbol are known and neither key is stored |
| `Executor.StepEntersKnownState` | main.go:370-393 | every state a step enters is a known state |
| `Executor.KnownStateStaysValid` | main.go:298-303 | from a known state a run never aborts for an invalid state |
| `Executor.InvalidStateOnlyAtStart` | main.go:282-303 | an invalid-state abort happens only on the first step, when `0` is not a known state |
| `Executor.StepKeepsKnownCells` | main.go:380-381 | a step writes only known symbols onto a tape of known symbols and blanks |
| `Executor.InvalidSymbolIsBlank` | main.go:305-310 | on a tape of known symbols an invalid-symbol abort happens only on a blank, and only because `_` is not registered |
| `Machine.RunProgram` | main.go:458-465 | loading, tape initialisation and the run, each stopping at its first error, give the report of `Simulate` |
| `Machine.SkippedLinesLoadNothing` | main.go:106-113 | empty and comment lines leave the tables empty |
| `Machine.EmptyRuleFileNeverRuns` | main.go:263-286 | without rule lines a non-empty input is rejected and an empty one leaves no tape to run on |
| `Machine.DuplicateRuleAborts` | main.go:158-161 | two rules for one state and symbol abort the program before the tape is built |
| `Machine.UnnamedInputRejected` | main.go:263-270 | with a single rule, an input character that is neither of its symbols is rejected |
| `Machine.UnnamedBlankAborts` | main.go:305-310 | with the rule `0 1 1 r 0` and input `11` the machine walks onto a grown blank and aborts with an invalid symbol |

## Left out

- Command-line flags, interactive prompting and the help text (main.go:397-456) are not modelled. The input string and the file's lines are parameters.
- Opening and scanning the file (main.go:81-103) is not modelled. The model takes the file as a sequence of lines, already split by the scanner, which also drops line endings.
- Printing is not modelled: the tape display, the verbose trace and the final report (main.go:181-189, 292-296, 338-340, 373-378, 320-324). None of it affects control flow.
- Process exits are typed results (`LoadError`, `BadInput`, `Fault`, `Halted`). The exit status is not modelled, including 0 after a duplicate rule and 0 on a halt.
- `moveLeft`, `moveRight`, `setCurrentSymbol` and `getCurrentSymbol` (main.go:233-261) are not modelled. The executor never calls the first three, and the one value the last returns is overwritten before use.
- The unused `tuples` slice passed through `read_file` is not modelled.
- Executor.RunMachine: runs at most `fuel` steps and reports `OutOfFuel` after them, because the source loop can run forever.
- Executor.RunMachine: on a tape without cells the source dereferences a nil start cell and the program crashes. The model returns `NoTape` instead.
- Bytes: the source indexes strings byte by byte and turns each byte into a one-character string. For bytes from 0x80 up, Go re-encodes the byte as a two-byte character. The model treats every character as one symbol of its own and does not model that re-encoding. The source re-encodes both when a line is tokenized (main.go:126) and when the executor re-splits a stored rule (main.go:353), so `Tokens.RuleTextRoundTrip`, `Table.StoredRuleRoundTrip` and the symbol a step writes describe the source only for ASCII text.
- Pointer identity: the chain of cells is a sequence and the current cell is an index. Aliasing between cells is not modelled. After a blank is added on the left, every index shifts by one where the source keeps its pointers.
- Indexing the re-split tokens (main.go:363-370) cannot go out of range, because every stored rule splits into five tokens (`Table.LoadAllWellFormed`). The source's panic on a shorter rule is therefore not modelled.
