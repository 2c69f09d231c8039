# The boot shell and its neighbours, verified

This project models the parts of U-Boot's `common` directory that have the most
behaviour in the fewest lines, in Dafny 4.11, and proves what they promise.

* **The hush shell.** The parser turns `if`/`elif`/`else`, `while`, `until`, `for`, `;`,
  `&&` and `||` into one flat list of pipes, each tagged with the section it belongs to;
  the interpreter walks that list with a handful of flags. `HushSyntax` has both forms of a
  program, `HushExec` the meaning of the structured form, `HushRun` the flat interpreter,
  `HushParse` the parser as a stack machine over tokens, `HushErrors` what becomes of its
  syntax errors, `HushExit` what becomes of an exit, `HushOuter` the loop that reads and
  runs a script line by line. `HushRunProof` proves that the two meanings agree, `HushShapes`
  exactly for which programs they do, since sections without a pipe leave nothing in the flat
  list, `HushPrint` that parsing a printed program gives its flat form, and
  `HushPrint.ShellPreservesMeaning` and `HushOuter.LinesPreserveMeaning` put all together. Commands, variables
  and `last_return_code` are an arbitrary state machine (`Machine`), so the results hold for
  every set of commands and, choosing a state that logs its commands, for every trace.
  Loops run under a bound on iterations per loop; `HushTheorems.RunMore` shows that a
  result within one bound is the result within every larger one. `HushExpand` and
  `HushVars` add variable expansion and the linked list of shell variables.
* **The line editor.** `LineEditor` has the buffer with its two indices and proves that it
  is a pair of texts left and right of the cursor; `History` has the ring of old lines;
  `LineScreen` proves that what is sent to the terminal keeps it showing the buffer.
* **The simple parser.** `SimpleCli` has the separator loop, the macro and quote machine
  and the in-place word splitter; `SimpleCliProof` the round trip through all three.
* **The sparse image writer.** `SparseImage` has the chunk loop on raw bytes and
  `SparseExpand` the expanded image it leaves on the device.
* **Smaller algorithms.** `CpuTemp` (hole quicksort, trimmed mean, calibration word),
  `Bootstage` (saving and restoring timing records), `AmlMmc` (byte-granular access to a
  block device), `Eeprom` (chunked transfers), `Autoboot` (key matching on a sliding
  window), `Bedbug` (PowerPC branch targets) and `BedbugStep` (the next instruction).

A function on values specifies what the code does; a method or class with the loops and
in-place updates of the code is proved equal to it; lemmas then say what that function
means. All source paths below are relative to the repository; only the `__U_BOOT__` branches
are modelled.

## Where the code does not do what one would expect

Each of these is proved, with the exact condition where the usual rule holds on part of the
inputs.

* The code given to `exit` inside a compound is lost: `last_return_code` becomes 0
  (`HushExit.NestedExitCodeLost`). It is kept exactly if the command of the outermost
  list that exits is a simple one, or the code is 0 (`HushExit.ExitCodeKeptIff`).
  `HushExit.ExitCodes` shows both.
* A syntax error that is reported need not stop anything. In `fi; x` the error is reported
  and x is run (`HushErrors.ErrorStillRuns`); a misplaced `done;` before `fi` is dropped
  (`HushErrors.MisplacedDone`, `HushErrors.MisplacedDoneRuns`). A list is run exactly if every
  error was ended by an operator or the end of the input (`HushErrors.RunDespiteErrorsIff`,
  `HushErrors.PendingFi`); if every operator follows a blank, a newline or another
  operator and the input ends in a newline, an error always stops the parser
  (`HushErrors.SpacedErrorsStop`).
* `run_command` runs only the first line of a script (`HushOuter.FirstLineOnly`), unless it
  is told to go on at newlines (`HushOuter.WholeAtOnce`).
* An `if` with empty sections may take one section for another. Behind an empty first `then`
  the `elif` is never looked at (`HushShapes.FirstThenEmpty`); behind an empty later `then`
  the next condition is run although the branch was taken (`HushShapes.LaterThenEmpty`); an
  `elif` without condition runs its `then` section after the one before
  (`HushShapes.ConditionEmpty`). `HushShapes.LegibleIff` is the exact condition, and
  `HushShapes.EmptyThenDropsElif`, `HushShapes.EmptyThenJoins` and
  `HushShapes.EmptyConditionJoins` say for all programs what is run instead.
* After a failed link of a mixed `&&`/`||` chain everything up to the next `;` is passed
  over, and the result of a list is the code of the last pipe that ran
  (`HushRunProof.FailedLink`, `HushExec`).
* A script of several lines that ends in a newline always reports success, because one more
  newline is added and the result is that of the empty line (`HushOuter.SeveralLinesSucceed`).
* An input that breaks off behind an opening word without a newline would hand the list of
  the still open compound to the interpreter (`HushParse.PendingWordRunsOpenCompound`,
  `HushParse.RunsOutermostIff`). All callers supply a final newline, so this input does not
  occur; `HushParse.RunOnlyWhenClosed` is the rule for those that do.
* Newlines in a word become spaces only when the word refers to a variable
  (`HushExpand.ExpandMeans`).
* Before a shell variable is set the environment is asked for the whole string NAME=VALUE, so
  no variable of the environment is ever protected by that check unless its own name holds an
  equals sign (`HushVars.Variables.Set`).
* The history gives up one of its 20 slots (`History.KthMostRecent`).
* A sparse image is read from the wrong place exactly if its file header is longer than the
  known one (`SparseExpand.SafeHeaderIff`), a CRC32 chunk goes through exactly if its total
  size does not count the checksum, which by the format it does
  (`SparseExpand.CrcAcceptedIff`), and a wrong block count reports failure and then success
  (`SparseImage.Flash`, `SparseExpand.FlashesImage`).
* `eeprom_write` returns 0 exactly when every transfer failed (`Eeprom.Write`), and the
  block numbers its comment promises work for block 0 only (`Eeprom.OnlyBlockZero`).
* A write to the block device goes where it was asked to exactly if its offset is aligned or
  it is empty; otherwise the offset is rounded down (`AmlMmc.WritesInPlaceIff`).
* An erase leaves the partition exactly if its end wraps around 64 bits
  (`AmlMmc.EraseInside`), and there are accepted ones that do (`AmlMmc.WrappingErase`).
* A branch with reserved BO bits set steps to the wrong address (`BedbugStep.TakenAgrees`), and
  so does one to an unaligned register (`BedbugStep.StepIsNextInstruction`).

## Model

| member | source | states |
|---|---|---|
| `HushPrint.ShellPreservesMeaning` | u-boot/common/cli_hush.c:3158-3190 | printing any legible program that has a text, parsing the tokens and running the list has exactly the structured outcome, for every machine, state and loop bound, and leaves the list as it was unless the program exited; on one line the newline flag does not matter |
| `HushOuter.LinesPreserveMeaning` | u-boot/common/cli_hush.c:3158-3226 | parsing and running a script line by line has the state of the whole script as one program and the result of its last line; an exit anywhere ends it with success, and a loop that does not end hangs both |
| `HushOuter.FirstLineOnly` | u-boot/common/cli_hush.c:3220-3221 | with the flag to leave the loop only the first line is run, whatever follows it, and its result returned |
| `HushOuter.WholeAtOnce` | u-boot/common/cli_hush.c:3173-3190 | with the flag to go on at newlines the whole script is run in one round, with the outcome of its program |
| `HushOuter.SeveralLinesSucceed` | u-boot/common/cli_hush.c:3232-3256 | a script of several lines ending in a newline has the effect of its program but always the result 0 |
| `HushOuter.RoundReadsLine` | u-boot/common/cli_hush.c:3167-3190 | whatever follows, one round parses exactly the first line and hands on its flat list |
| `HushOuter.ParseStreamOuter` | u-boot/common/cli_hush.c:3158-3226 | the loop over the rounds computes the specified ending for every token stream and both flags |
| `HushRunProof.RunIsExec` | u-boot/common/cli_hush.c:1740-1905 | for every machine, legible program, state and loop bound the flat list runs to the state and code of the structured program, or runs out of iterations exactly when it does; unless it exited, the list is unchanged and can be run again |
| `HushShapes.LegibleIff` | u-boot/common/cli_hush.c:1801-1804 | the flat lists of all `if` commands of a given shape, whatever programs stand in their sections, have the meaning of the command exactly if no `then` section without a pipe is followed by an `elif` that has one and no `elif` has a `then` section but no condition (without a first condition, only a following `then` section that has none is at fault) |
| `HushShapes.FirstThenEmpty` | u-boot/common/cli_hush.c:1801-1804 | an `if` with an empty `then` before `elif` whose condition fails: three commands are to be run, one is |
| `HushShapes.LaterThenEmpty` | u-boot/common/cli_hush.c:1801-1804 | an empty `then` between two `elif`s, taken: two commands are to be run, three are |
| `HushShapes.ConditionEmpty` | u-boot/common/cli_hush.c:1801-1804 | an `elif` without condition behind a branch that was taken: two commands are to be run, three are |
| `HushShapes.EmptyThenDropsElif` | u-boot/common/cli_hush.c:1801-1804 | for every program: with an empty first `then` section before an `elif` the whole command is just its condition |
| `HushShapes.EmptyThenJoins` | u-boot/common/cli_hush.c:2380-2425 | for every program: an empty `then` section between two `elif`s has the flat list of the command with both conditions in a row |
| `HushShapes.EmptyConditionJoins` | u-boot/common/cli_hush.c:2380-2425 | for every program: an empty `elif` condition has the flat list of the command with both `then` sections in a row |
| `HushRunProof.ListSim` | u-boot/common/cli_hush.c:1777-1903 | from the first pipe of any section that the flags enable, the interpreter does what the section's list means and goes on behind it with the flags that section leaves |
| `HushRunProof.SectionSim` | u-boot/common/cli_hush.c:1777-1903 | the same for a section that may be empty, except an empty `then` or `else`, which does not refresh if_code |
| `HushRunProof.ChainSim` | u-boot/common/cli_hush.c:1795-1798 | the same for one `&&`/`\|\|` chain with short-circuiting |
| `HushRunProof.FailedLink` | u-boot/common/cli_hush.c:1897-1899 | once a link fails, the rest of the chain up to and including its last pipe is passed over, whatever the operators between |
| `HushRunProof.CmdSim` | u-boot/common/cli_hush.c:1513-1657 | running a pipe that holds a nested list has the outcome of the command it came from and puts the list back |
| `HushRunProof.IfSim` | u-boot/common/cli_hush.c:1801-1804 | the flat list of a legible `if` with any number of `elif` sections, empty ones included, takes exactly the branch of the structured command |
| `HushRunProof.BranchSim` | u-boot/common/cli_hush.c:1801-1804 | a condition followed by its `then` section and the rest of the `if`: the double-buffered if_code selects the section that the condition's code asks for |
| `HushRunProof.LoopSim` | u-boot/common/cli_hush.c:1891-1896 | the jumps back from `done` run the condition and the body of `while` and `until` exactly as often as the structured loop |
| `HushRunProof.ForSim` | u-boot/common/cli_hush.c:1805-1838 | a `for` assigns the values made before its first iteration in order, runs the body once for each, and restores the loop variable's word |
| `HushTheorems.ListMore` | u-boot/common/cli_hush.c:1777-1903 | a structured outcome reached within a loop bound is the outcome within every larger bound |
| `HushTheorems.RunMore` | u-boot/common/cli_hush.c:1777-1903 | so is the result of the interpreter |
| `HushExit.ListExit` | u-boot/common/cli_hush.c:1882-1885 | if a list exits, it has executed one of its own commands in some state with the outcome of the list, and while that was executed a command was run that returned a code below -1 |
| `HushExit.ListEnds` | u-boot/common/cli_hush.c:1882-1885 | a command that is run anywhere while a list is executed, however deeply nested, and returns a code below -1 ends the list with -2; the state is that command's, with the code it gave recorded in its own list and 0 in every list around it |
| `HushExit.ExitsIff` | u-boot/common/cli_hush.c:1882-1885 | a list exits exactly if some command run while it is executed does, and then with code -2 |
| `HushExit.NestedExitCodeLost` | u-boot/common/cli_hush.c:1882-1886 | an exit inside a compound makes the enclosing list record 0, not the code given |
| `HushExit.ExitCodeKeptIff` | u-boot/common/cli_hush.c:1882-1886 | for every list, every command of it that is executed and every command run meanwhile that exits: the list ends with that command of its own, and the recorded code is the one given exactly if this is a simple command or the code is 0 |
| `HushExit.ExitCodes` | u-boot/common/cli_hush.c:1882-1886 | `exit 3` leaves 3, the same inside an `if` leaves 0 |
| `HushRun.CheckForSyntax` | u-boot/common/cli_hush.c:1755-1776 | the scan for misplaced `for` and `in` accepts exactly the lists in which every FOR pipe is followed by an IN pipe and every IN pipe by another pipe that is not an IN pipe with words |
| `HushRun.Visit` | u-boot/common/cli_hush.c:1778-1850 | the statements before a pipe is run compute the choice (pass over, stop, run) and the flags of the specification |
| `HushRun.VisitFor` | u-boot/common/cli_hush.c:1805-1838 | the statements at the head of a `for` compute the specified choice |
| `HushRun.RunListReal` | u-boot/common/cli_hush.c:1740-1905 | the loop over the pipes computes the specified run for every list, well formed or not |
| `HushRun.RunPipeReal` | u-boot/common/cli_hush.c:1513-1657 | running the program of a pipe, a command or a nested list, computes the specified run |
| `HushPrint.ParsePrintScript` | u-boot/common/cli_hush.c:2924-3119 | parsing a printed program of any number of lines gives exactly its flat list, with every nested group in place and correctly tagged, and leaves nothing open |
| `HushPrint.ParsePrintLine` | u-boot/common/cli_hush.c:2924-3119 | so does parsing a one-line program when a newline ends the input |
| `HushPrint.FeedsCmd` | u-boot/common/cli_hush.c:2380-2511 | from any context that may take a command, the tokens of a command put its flat form into the open pipe and change nothing else, nested compounds included |
| `HushPrint.FeedsList` | u-boot/common/cli_hush.c:2429-2577 | the tokens of a list append exactly its pipes, tagged with the section that is open |
| `HushParse.RunsOutermostIff` | u-boot/common/cli_hush.c:3178-3193 | for every token stream: a list is run exactly when the parser did not return 1 and no compound was open at the end, and it is the outermost list exactly when the input does not break off behind an opening word |
| `HushParse.RunOnlyWhenClosed` | u-boot/common/cli_hush.c:3178-3193 | for every token stream ending in a newline: old_flag is zero exactly when no compound is open, and a list is run exactly when every compound is closed and the parser did not return 1; it is the whole outermost list |
| `HushErrors.RunDespiteErrorsIff` | u-boot/common/cli_hush.c:3178-3190 | for every token stream, the word pending at its end included: a list is run exactly if every error reported, and every return to a context such an error has marked, was ended by an operator or the end of the input and no compound is open there; without a reported error there is nothing of either kind |
| `HushErrors.CodeIffIgnored` | u-boot/common/cli_hush.c:2953-2965 | from every state of the parser it returns 1 exactly if some error or return to a marked context was ended by anything but an operator |
| `HushErrors.SpacedErrorsStop` | u-boot/common/cli_hush.c:3044-3078 | if every operator follows a blank, a newline or another operator, the parser returns 1 exactly if an error was reported while reading, and a list is run exactly if none was and every compound is closed; with a final newline these are all errors of the round |
| `HushErrors.DoneWordFails` | u-boot/common/cli_hush.c:2450-2457 | done_word fails exactly if it reports an error or closes a compound back into a context marked by one |
| `HushErrors.FirstIsComplaint` | u-boot/common/cli_hush.c:2390-2405 | no context is marked before an error has been reported |
| `HushErrors.ErrorStillRuns` | u-boot/common/cli_hush.c:3044-3047 | `fi; x` reports an error and x is run with its usual outcome |
| `HushErrors.MisplacedDone` | u-boot/common/cli_hush.c:2400-2421 | whatever its sections, at the `done` of `if ... then ... done; fi` an error is reported, and the command is closed with one empty pipe more |
| `HushErrors.MisplacedDoneRuns` | u-boot/common/cli_hush.c:1777-1903 | for every machine, bound and state that list has the outcome of the `if` without `done` and is left as it was |
| `HushErrors.PendingFi` | u-boot/common/cli_hush.c:3184-3190 | `fi` without a newline reports an error only when the round ends it, and an empty list is run |
| `HushParse.PendingWordRunsOpenCompound` | u-boot/common/cli_hush.c:3178-3193 | a lone `if` at the end of an input without a final newline would have the list of its own open compound run |
| `HushParse.IdleAfterNewline` | u-boot/common/cli_hush.c:2955-2965 | after a stream that ends in a newline no word is pending, unless the parser returned 1 |
| `HushParse.ReservedWord` | u-boot/common/cli_hush.c:2380-2425 | every reserved word keeps the invariant of all reachable contexts: old_flag is zero exactly when the stack is empty, so `fi` and `done` never pop an empty stack |
| `HushParse.Pop` | u-boot/common/cli_hush.c:2413-2421 | the end of a compound returns to a suspended context that keeps the invariant, with no pipe the interpreter could misread |
| `HushParse.ParseStream` | u-boot/common/cli_hush.c:2924-3119 | every token stream keeps the invariant, and a return code of 0 means nothing is open or pending |
| `HushParse.ParseRound` | u-boot/common/cli_hush.c:3158-3226 | no list that is ever run holds a group where `for` or `in` expect words |
| `HushParse.Parser.FinishReserved` | u-boot/common/cli_hush.c:2380-2425 | the in-place update for a reserved word is the specified one; any other word changes nothing |
| `HushParse.Parser.FinishWord` | u-boot/common/cli_hush.c:2429-2511 | the in-place end of a word is the specified one |
| `HushParse.Parser.FinishPipe` | u-boot/common/cli_hush.c:2564-2577 | ending a pipe appends it with the open section and the given operator |
| `HushParse.Parser.Parse` | u-boot/common/cli_hush.c:2924-3119 | the token loop ends in the specified state with the specified code and unread tokens |
| `HushParse.Parser.Round` | u-boot/common/cli_hush.c:3158-3226 | one round hands on exactly the specified list |
| `HushExpand.ExpandMeans` | u-boot/common/cli_hush.c:3497-3559 | expanding a word is concatenating its literals and looked-up values, values not scanned again and unset ones empty; newlines become spaces exactly when there is a variable |
| `HushExpand.EveryPairedWord` | u-boot/common/cli_hush.c:3497-3559 | every word with paired markers is such a sequence of literals and variables |
| `HushExpand.InsertVarValueSub` | u-boot/common/cli_hush.c:3497-3559 | the single scan computes the specified expansion |
| `HushExpand.MakeList` | u-boot/common/cli_hush.c:3561-3599 | the nested loops compute the specified assignments |
| `HushExpand.MakeListInIsAllWords` | u-boot/common/cli_hush.c:3561-3599 | the assignments of a `for` are `name=word` for every nonempty space-separated word of all expanded arguments, in order |
| `HushExpand.WordsAreWords` | u-boot/common/cli_hush.c:3572-3594 | splitting gives only nonempty words without spaces and loses nothing but spaces |
| `HushExpand.WordsAcrossSpace` | u-boot/common/cli_hush.c:3572-3594 | splitting on both sides of a space and joining is splitting the whole |
| `HushExpand.WordsOfWord` | u-boot/common/cli_hush.c:3572-3594 | a nonempty text without spaces is one word |
| `HushVars.AssignIsUpdate` | u-boot/common/cli_hush.c:2138-2227 | setting a variable updates the map at that name only; it fails exactly for HUSH_VERSION with another value and then changes nothing |
| `HushVars.RemoveIsRemoval` | u-boot/common/cli_hush.c:2229-2257 | unsetting removes that name only; HUSH_VERSION stays |
| `HushVars.Variables.constructor` | u-boot/common/cli_hush.c:3291-3305 | the shell starts with the read-only HUSH_VERSION as its only variable |
| `HushVars.Variables.Get` | u-boot/common/cli_hush.c:2116-2133 | looking a name up in the linked list gives the value of the map, `$`-names go to the special parameters |
| `HushVars.Variables.Set` | u-boot/common/cli_hush.c:2138-2227 | setting NAME=VALUE on the linked list is the specified update, keeps the names distinct with HUSH_VERSION in front, and is refused for a bad first letter or if the whole string is the name of an environment variable |
| `HushVars.Variables.Unset` | u-boot/common/cli_hush.c:2229-2257 | unlinking the node is the specified removal; the search for its predecessor ends because the node is never the first |
| `LineEditor.Editor.ReadLine` | u-boot/common/cli_readline.c:261-467 | for every key sequence the buffer with its two indices behaves as the pair of texts left and right of the cursor, cursor <= end <= capacity with the final NUL inside the array, and the line, the history, the unread keys and all that is emitted are those of the specification |
| `LineEditor.Editor.ReadFrom` | u-boot/common/cli_readline.c:245-467 | the same from the start of the function, with the text that stood in the buffer inserted first |
| `LineEditor.ReadIsRun` | u-boot/common/cli_readline.c:261-467 | reading is running the keys before the one that ends or aborts the line: state, line, history, rest and emitted characters |
| `LineEditor.InitialText` | u-boot/common/cli_readline.c:255-259 | a text in the buffer that fits is there and shown as it is |
| `LineEditor.Editor.Press` | u-boot/common/cli_readline.c:275-459 | one key: insert, overwrite, delete, rub out, kill, cursor moves and history recall act as their operations on the two texts and emit the specified characters |
| `LineEditor.Editor.InsertChar` | u-boot/common/cli_readline.c:202-233 | inserting or overwriting one character, or only a bell when the buffer is full |
| `LineEditor.Editor.InsertText` | u-boot/common/cli_readline.c:235-243 | inserting a text is inserting its characters one by one |
| `LineEditor.Editor.DeleteChar` | u-boot/common/cli_readline.c:358-372 | takes out the character at the cursor and repaints the rest of the line |
| `LineEditor.Editor.RubChar` | u-boot/common/cli_readline.c:387-402 | takes out the character before the cursor and repaints the rest of the line |
| `LineEditor.Editor.RecallLine` | u-boot/common/cli_readline.c:403-432 | shows the line the history yields in place of the current one, or only a bell |
| `LineEditor.Editor.EndLine` | u-boot/common/cli_readline.c:460-467 | returns the text up to its first NUL and stores it unless it is empty or starts with `!` |
| `LineScreen.ScreenInStep` | u-boot/common/cli_readline.c:178-233 | for every run of keys that inserts only printable characters, what is emitted leaves the terminal showing exactly the buffer, blank after its end, with the cursor in place |
| `LineScreen.ReadOnScreen` | u-boot/common/cli_readline.c:261-467 | while the editor reads such keys, what it has emitted up to the end of the line shows exactly its buffer, and the line returned is the one shown |
| `LineScreen.KeyInStep` | u-boot/common/cli_readline.c:340-432 | every single key keeps the terminal in step |
| `LineScreen.TypedThenRecalled` | u-boot/common/cli_readline.c:403-467 | a typed line is returned as typed, and Up and Enter on the next line return it again |
| `History.KthMostRecent` | u-boot/common/cli_readline.c:114-134 | after any number n of lines the k-th Up shows the k-th most recent line for k <= min(n, 19); a further one shows nothing and does not move |
| `History.NextUndoesPrev` | u-boot/common/cli_readline.c:136-155 | Down undoes Up: it returns to the same position and shows what was there |
| `History.StepBack` | u-boot/common/cli_readline.c:114-134 | one index step back with wrap-around in the ring is one line back in the list, for every number of lines and every position |
| `History.Ring.Add` | u-boot/common/cli_readline.c:101-112 | storing into the ring appends to the list of all lines |
| `History.Ring.GoPrev` | u-boot/common/cli_readline.c:114-134 | the ring's step back is the list's |
| `History.Ring.GoNext` | u-boot/common/cli_readline.c:136-155 | the ring's step forward is the list's |
| `SimpleCliProof.PrintThenRun` | u-boot/common/cli_simple.c:209-248 | a plain name and single-quoted arguments that fit pass separator loop, macro pass and word splitter as one command with exactly that argument vector, whatever the environment |
| `SimpleCliProof.OneToken` | u-boot/common/cli_simple.c:209-226 | the separator loop does not split such a line |
| `SimpleCliProof.MacrosUnquote` | u-boot/common/cli_simple.c:60-164 | the macro pass removes the quotes and expands nothing inside them |
| `SimpleCliProof.SpacedWords` | u-boot/common/cli_simple.c:23-58 | the word splitter gives back words that were joined with blanks |
| `SimpleCli.RunCommand` | u-boot/common/cli_simple.c:174-257 | the commands run are those of the three passes on each token in order; the line is refused exactly if it is empty or over-long |
| `SimpleCli.FindSep` | u-boot/common/cli_simple.c:214-224 | the separator loop finds the first `;` outside quotes, past the first character of the token and not behind a backslash |
| `SimpleCli.TokensJoin` | u-boot/common/cli_simple.c:209-235 | joining the tokens with `;` gives the line back, but for one `;` at its very end |
| `SimpleCli.ProcessMacros` | u-boot/common/cli_simple.c:60-164 | for every input the macro pass stays inside the buffer, ends with a NUL and leaves the expansion cut to the buffer |
| `SimpleCli.ParseLine` | u-boot/common/cli_simple.c:23-58 | after the in-place NULs every returned offset holds the corresponding word, and there are as many as the line has words, up to the limit |
| `SparseExpand.WritesExpandedImage` | u-boot/common/aboot.c:96-229 | for every chunk list on a working device the run goes through exactly when every written chunk fits, and then the device holds the expanded image (raw data, repeated fill word, other blocks untouched); otherwise it stops at the first chunk that does not fit with everything before it written |
| `SparseExpand.FlashesImage` | u-boot/common/aboot.c:44-244 | the whole function on an encoded image: success is reported exactly if every written chunk fits, and then the partition holds the expanded image, with a failure reported first if the header has another block count; otherwise the failure is TooBig, and exactly the chunks before the first that does not fit have been written |
| `SparseExpand.SafeHeaderIff` | u-boot/common/aboot.c:64-72 | every proper image that fits is written, whatever its chunks, exactly if its file header is at most as long as the known one |
| `SparseExpand.BlocksConserved` | u-boot/common/aboot.c:96-229 | without CRC chunks the bytes of the blocks passed are the counted image blocks times their size |
| `SparseExpand.CrcAcceptedIff` | u-boot/common/aboot.c:211-222 | a CRC32 chunk goes through exactly if its total size is that of the chunk header; it then counts its blocks, skips as many bytes and writes nothing, and otherwise it is refused |
| `SparseExpand.ReadHead` | u-boot/common/aboot.c:98-124 | reading the little-endian chunk header of an encoded chunk gives back its type, count and size |
| `SparseImage.NeverOutside` | u-boot/common/aboot.c:96-229 | for every memory content and every driver behaviour no block outside the partition changes, with block numbers that do not wrap |
| `SparseImage.NoWrap64` | u-boot/common/aboot.c:120-140 | in 64 bits no block number wraps if the partition starts within the first 2^32 blocks |
| `SparseImage.WriteSparseImage` | u-boot/common/aboot.c:44-244 | the whole function computes the specified run and reports, and never changes a block outside the partition |
| `SparseImage.ChunkStep` | u-boot/common/aboot.c:98-229 | the loop body computes the specified step for every chunk, well formed or not |
| `SparseImage.FillLoop` | u-boot/common/aboot.c:185-197 | the fill loop writes block by block until a write fails |
| `CpuTemp.Quicksort` | u-boot/common/cmd_cpu_temp.c:139-160 | ends with the range sorted and a permutation of what it was, everything outside it unchanged |
| `CpuTemp.Partition` | u-boot/common/cmd_cpu_temp.c:143-156 | the two scans around the hole end with the pivot in place, nothing larger before it and nothing smaller after it |
| `CpuTemp.SortedUnique` | u-boot/common/cmd_cpu_temp.c:139-160 | a sorted sequence is determined by its multiset of values |
| `CpuTemp.TrimmedMean` | u-boot/common/cmd_cpu_temp.c:236-242 | the mean does not depend on the order of the samples and lies between the third smallest and the third largest |
| `CpuTemp.PackUnpack` | u-boot/common/cmd_cpu_temp.c:180-194 | unpacking a packed calibration word returns the reading exactly when it fits its field (10 bits, for GXL 12 bits rounded down to a multiple of 4), the 5-bit trim (16 for GXBB version 0x40) and a set flag |
| `Bootstage.RestoreOfSave` | u-boot/common/bootstage.c:391-457 | restoring a successful save yields exactly the records with a nonzero time, in order, with equal fields and resolved names, exactly when there is room |
| `Bootstage.FailedSaveRefused` | u-boot/common/bootstage.c:391-457 | a save that ran out of space after its header is always refused |
| `Bootstage.RecRoundTrip` | u-boot/common/bootstage.c:362-366 | the bytes of a record give the record back, but for its name pointer |
| `Bootstage.Stash` | u-boot/common/bootstage.c:334-389 | saving succeeds exactly when header, records and names fit, writes exactly them, and never writes behind the buffer |
| `Bootstage.AppendData` | u-boot/common/bootstage.c:323-332 | the position always advances; bytes are stored only if all of them fit |
| `Bootstage.Restore` | u-boot/common/bootstage.c:391-457 | accepted records are appended behind the existing ones; a refusal changes nothing |
| `AmlMmc.Write` | u-boot/common/cmd_aml_mmc.c:685-712 | success exactly if the device made all transfers, and then the request is written from the rounded offset on, the rest of the last block kept; failure leaves a prefix of the request written |
| `AmlMmc.Read` | u-boot/common/cmd_aml_mmc.c:592-613 | success means the requested bytes were delivered, partial last block included |
| `AmlMmc.WriteThenRead` | u-boot/common/cmd_aml_mmc.c:592-712 | a write and a read of the same request, whatever the device answers: if both succeed the data comes back, and from an aligned offset exactly its bytes have changed, partial last block included |
| `AmlMmc.WritesInPlaceIff` | u-boot/common/cmd_aml_mmc.c:136-138 | a successful write lands at its offset on every device and for all data exactly if the offset is aligned or there is nothing to write |
| `AmlMmc.GetOffSize` | u-boot/common/cmd_aml_mmc.c:121-144 | the offset lies in the first block of the span, and whole blocks and tail bytes add up to the size |
| `AmlMmc.EraseInside` | u-boot/common/cmd_aml_mmc.c:751-782 | an accepted erase of a block-aligned partition stays inside it exactly when offset plus size does not wrap |
| `AmlMmc.WrappingErase` | u-boot/common/cmd_aml_mmc.c:751-782 | an accepted erase of the 64-bit range from block 1 on leaves a partition of a gigabyte |
| `Eeprom.Write` | u-boot/common/cmd_eeprom.c:186-359 | the transfers are the specified chunks; if none fails exactly the requested bytes change although the chip wraps inside its pages, each byte is old or new if some fail, and the result is 0 exactly when all fail |
| `Eeprom.Read` | u-boot/common/cmd_eeprom.c:111-172 | the transfers are the specified chunks, and the result is 0 exactly when none fails, in which case the bytes are those of the chip |
| `Eeprom.WriteThenRead` | u-boot/common/cmd_eeprom.c:111-359 | data written with any page and transfer size is read back with any other |
| `Eeprom.ChunksTile` | u-boot/common/cmd_eeprom.c:206-256 | for every request the chunks cover it in order without gap or overlap, and none is empty, too long or across a page |
| `Eeprom.PageOffset` | u-boot/common/cmd_eeprom.c:241-247 | masking the offset with 0xFF first does not change its place in the page |
| `Eeprom.WordReaches` | u-boot/common/cmd_eeprom.c:344 | the byte-swapped word address makes the chip look exactly at the offset |
| `Eeprom.OnlyBlockZero` | u-boot/common/cmd_eeprom.c:176-184 | different offsets of a 64 KiB block have different word addresses exactly in block 0 |
| `Autoboot.AbortBootKeyed` | u-boot/common/autoboot.c:81-126 | the wait is aborted exactly at the first character that completes an occurrence of some key, and retrying is switched off exactly when a completed key is a stop key |
| `Autoboot.WindowSees` | u-boot/common/autoboot.c:87-88 | the last characters, as many as the longest key has, suffice to see every key |
| `Autoboot.Take` | u-boot/common/autoboot.c:99-108 | shifting a character in keeps the window equal to the last characters received |
| `Autoboot.Compare` | u-boot/common/autoboot.c:110-125 | comparing the window's end with every key finds exactly the completed ones |
| `Bedbug.AssembleDisassemble` | u-boot/common/bedbug.c:864-880 | for every field width, relative or absolute, disassembling an assembled target gives it back exactly when its displacement is a multiple of four that fits |
| `BedbugStep.TakenAgrees` | u-boot/common/bedbug.c:1161-1215 | the code agrees with the branch rule of Power ISA Book I section 2.4 on every counter and condition exactly for BO values with reserved bits zero |
| `BedbugStep.FindNextAddress` | u-boot/common/bedbug.c:1094-1234 | the step goes to the target exactly when the branch is taken and is not a call being stepped over |
| `BedbugStep.EvaluateBO` | u-boot/common/bedbug.c:1161-1215 | the switch over the BO field computes the specified decision |
| `BedbugStep.StepIsNextInstruction` | u-boot/common/bedbug.c:1094-1234 | for every instruction whose BO field is valid for its kind, the step address is the architecture's next instruction exactly when a register branched to is word-aligned |

## Left out

- Hush, characters: parse_stream is modelled on tokens; quotes, backslashes and comments have been resolved before.
- Hush, expansion while running: commands with pending `$` substitutions are parsed again in run_pipe_real; that path, the `${x:-y}` forms and the HUSH_NO_EVAL tags are not modelled. A command is an arbitrary state transformer instead.
- HushOuter.ParseStreamOuter: if the parser returned 1 and the loop is not to be left, the code reads through a null pointer to decide whether to go on; the model ends there with `Lost`. The interactive input, where an exit does not end the loop, is not modelled.
- Hush, interruption: Ctrl-C and the repeat flag.
- Hush, redirection, job control, globbing and everything else outside `__U_BOOT__`.
- HushPrint.ParsePrintScript, HushPrint.ParsePrintLine, HushPrint.ShellPreservesMeaning: ask that a simple command has at least one word and does not start with a reserved one, and that neither the variable nor the first value of a `for` is a reserved word; the parser would take such a word for syntax.
- HushVars.Variables.Set: a string without `=` is not modelled; the code writes through a null pointer there and every caller checks first.
- HushExpand.InsertVarValueSub: asks for paired markers, as parse_stream always leaves them.
- LineEditor.Editor.ReadLine: auto-completion, time-outs, the watchdog and the path without history are not modelled; an escape sequence is kept as a text.
- SimpleCli.RunCommand: ends where a command would be looked up; command results, repeat flags and Ctrl-C are not modelled. The environment and the line hold no NUL.
- SparseImage.WriteSparseImage: the block size test is a remainder, which is what the bit mask computes for a power of two; an image block size of zero, by which the code divides, is excluded. For a device block size that is no multiple of four the code leaves the last bytes of a fill block uninitialised; the model lets the word begin once more.
- SparseImage.NeverOutside: block numbers are unbounded. Where they have 32 bits, DONT_CARE chunks can wrap them below the start of the partition, and a raw chunk that follows is then written there; only the 64-bit case is proved not to wrap.
- CpuTemp.Quicksort: the read of the first element of an empty range, whose value is not used, is not modelled.
- CpuTemp: the floating-point trim computation and the ADC.
- Bootstage.Restore: the code compares sizes without the header, so the caller must have the records in memory; the model asks for that.
- AmlMmc: whole-card erase and the partition tables.
- Eeprom, chip: write protection registers, SPI and FRAM variants and delays. A transfer that fails leaves the chip alone.
- Autoboot.AbortBootKeyed: at least one key must be configured; without any, the window has length zero. Polling and time are a list of polls.
- Bedbug and BedbugStep: opcode and operand tables, and every operand that is not a branch target.
- bootm, board start-up, device tree, the API layer and all other commands: dispatch into hardware and libraries, or thin wrappers.
