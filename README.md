# Mini-Shell executor model

This project models the execution core of the Mini-Shell, `src/cmd.c`, in Dafny and states properties of that model. The core takes a command tree that a parser has already built, runs it, and returns an integer exit status. Three parts are covered:

- **the operator-tree executor** `parse_command`. It dispatches on the node's operator: a simple command, `;`, `||` (OP_CONDITIONAL_NZERO), `&&` (OP_CONDITIONAL_ZERO), the unimplemented parallel and pipe cases, and any unknown tag;
- **the simple-command executor** `parse_simple`. It tries `exit`, then `cd`, then an assignment, and otherwise runs an external program. The builtins `shell_exit` and `shell_cd` belong to this part;
- **the redirection planner**. These are the `open`/`dup2`/`close` choices made for the child and for the `cd` path. They are written as an ordered plan of abstract actions `Open(path, mode)`, `Dup(src, stdfd)` and `Close(src)`, where `src` is the file opened last or standard output. A small descriptor table gives each plan its meaning.

The operating system is replaced by a `World` value with three parts:
- `run` gives the exit status (0..255) of a child from what it was started with: program, argv, redirection plan, environment and directory;
- `chdir` gives the new working directory, or failure;
- `uninit` is whatever an unassigned `ret` holds.

The shell's own state is its environment map and working directory. The executor threads this state through the simple commands it runs and records a trace of them, so that ordering and short-circuiting can be stated.

Files:
- `wrappers.dfy`: `Option`.
- `words.dfy`: words made of literal and variable parts. `Resolve` (`get_word`), `Raw` (`word->string`).
- `command_tree.dfy`: simple commands, operators, the tree, and the constants `SHELL_EXIT`, `IO_OUT_APPEND` and `IO_ERR_APPEND`.
- `redirect.dfy`: open modes, plans for the child and for `cd`, and the descriptor table semantics.
- `simple.dfy`: `parse_simple`, `shell_cd` and `shell_exit` as functions, with lemmas.
- `executor.dfy`: `parse_command` as a function, a context-free reference meaning, and lemmas about whole runs.
- `shell.dfy`: class `Shell`. Its fields are updated in place. Its methods follow `parse_simple` and `parse_command` statement by statement and are proved equal to those functions.

Points where the model follows the code rather than usual shell behaviour:
- The builtin tests, the redirection paths, the out/err comparison, the `cd` directory, the assignment name and the executed program all use `word->string`. That is the raw text of a word's first part, not its resolved value (`Raw`). Only the `=` test, the assignment value and argv are resolved.
- In the `cd` path, `>>` opens the output file without `O_CREAT` (src/cmd.c:74). So `cd d >> f` does not create a missing `f`, while an external command does (src/cmd.c:119).
- In the `cd` path, output and error are opened separately even when they name the same file. The error descriptor is never closed.
- `cd` returns 1, not an arbitrary nonzero value, when `chdir` fails. `shell_cd` turns `chdir`'s -1 into `true`.
- Parallel and pipe nodes run neither child, and return an unassigned status.
- Only `exit` is recognised; `quit` is not.
- An assignment returns 0 even when `setenv` refuses the name (empty, or containing `=`). In that case the environment is unchanged.

`cmd.h`, `parser.h` and `utils.c` are not part of this model. `SHELL_EXIT` is taken as -100, and the lemmas rely only on it being negative. `IO_OUT_APPEND` is taken as the value 1 and `IO_ERR_APPEND` as the value 2.

## Model

| member | source | states |
|---|---|---|
| Words.ResolveAppend | src/cmd.c:93 | resolving a word is resolving its parts in order and concatenating the results |
| Words.Resolve | src/cmd.c:93 | `get_word`: a word whose first part is literal text starts with that text once resolved; its full meaning, part by part, is stated by ResolveAppend, VariableResolves and ResolveEmpty |
| Words.ResolveEmpty | src/cmd.c:93-95 | a word resolves to the empty string exactly when every part contributes nothing, so the `=` test can only succeed on a part that contributes text |
| Words.Raw | src/cmd.c:59-63 | `word->string`, the first part's text unexpanded; how it relates to the resolved word is stated by RawStartsResolution |
| Words.RawStartsResolution | src/cmd.c:59-63 | for a literal first part, the resolved word is the raw text followed by the resolution of the other parts, and for a one-part literal word it is the raw text itself |
| Words.VariableResolves | src/cmd.c:97 | a variable part resolves to the variable's value, or to "" when it is unset |
| Words.LiteralIgnoresEnv | src/cmd.c:93 | a word with no variable parts resolves the same in every environment |
| Words.AfterAssign | src/cmd.c:97 | `verb->next_part->next_part`: the resolved verb is the first part's value, the second part's value and then the resolution of these parts; with fewer than two parts they resolve to "" |
| Words.AssignmentSplit | src/cmd.c:93-97 | for a verb split into a literal name, an `=` part and the rest, the resolved verb is the name, `=` and the resolved rest, so it contains the `=` tested at line 95 and the value set at line 97 is exactly what follows it |
| Words.ResolveAll | src/cmd.c:110 | every parameter is resolved, one string per word, in order |
| Redirect.OutMode | src/cmd.c:114-120 | the child's output is write-only and always created; it is truncated iff IO_OUT_APPEND is clear, and appended iff it is set |
| Redirect.CdOutMode | src/cmd.c:69-75 | the output named on `cd` is write-only; it is created and truncated iff IO_OUT_APPEND is clear, and opened for append without create iff it is set |
| Redirect.ErrMode | src/cmd.c:133-142 | the error file is write-only and always created; it is truncated iff IO_ERR_APPEND is clear, and appended iff it is set |
| Redirect.ChildPlan | src/cmd.c:114-149 | the child's redirections never close fd 1, and copy fd 1 onto fd 2 exactly under the out/err collapse; what they bind and open is stated by ChildBindings, ChildOpens and ChildClosesWhatItOpens |
| Redirect.AppendCreatesOnlyForChild | src/cmd.c:71-75 | for a command with an output file, the first file the child's plan opens is that file with create set; the first file the `cd` plan opens is that file, with create set iff `>>` was not used |
| Redirect.RedirectOnto | src/cmd.c:114-124 | open, dup2 onto a standard fd, close: that fd refers to a new description of the file, and no extra descriptor stays open |
| Redirect.ChildBindings | src/cmd.c:114-149 | after the child's redirections: stdin is bound to `in` (read-only), stdout to `out` (OutMode) and stderr to `err` (ErrMode), each only when present and otherwise inherited; stderr shares stdout's single description iff out and err name the same path; no redirection descriptor is left open |
| Redirect.ChildOpens | src/cmd.c:114-148 | the child opens out (OutMode), then in (read-only), then err (ErrMode), each once; with the out/err collapse the error file is not opened a second time |
| Redirect.ChildClosesWhatItOpens | src/cmd.c:114-148 | the child's plan closes the newly opened descriptor exactly as many times as it opens a file, and never closes standard output, the collapse included |
| Redirect.CdPlan | src/cmd.c:69-88 | the `cd` redirections contain no `dup2` at all and never close fd 1; they close a descriptor exactly when an output file is named; what they open is stated by CdBindings and CdOpens |
| Redirect.CdBindings | src/cmd.c:69-88 | `cd`'s redirections rebind no standard stream; the output file is closed again; only the error file stays open, with ErrMode |
| Redirect.CdOpens | src/cmd.c:69-88 | `cd` opens out (CdOutMode: append or truncate, create only with truncate) then err (ErrMode), with no collapse, and never opens `in` |
| SimpleExec.Classify | src/cmd.c:59-106 | the priority order: raw verb `exit`, else raw verb `cd`, else resolved verb containing `=` (assignment), else an external command, each iff the earlier tests failed |
| SimpleExec.ShellExit | src/cmd.c:30-35 | the terminate status is negative, so no child status can equal it |
| SimpleExec.Chdir | src/cmd.c:24 | one `chdir` call returns 0 iff the directory change succeeds and -1 otherwise, together with the directory it leaves |
| SimpleExec.ShellCd | src/cmd.c:20-25 | `shell_cd` makes one `chdir` call and is true iff that change failed, with the new directory present exactly when it did not fail |
| SimpleExec.BoolToInt | src/cmd.c:90 | the bool returned as the status is 1 iff true, else 0 |
| SimpleExec.SetEnv | src/cmd.c:98 | `setenv` of a valid name maps it to the value; an invalid name changes nothing; every other name keeps its presence and value |
| SimpleExec.Argv | src/cmd.c:110 | argv is the resolved verb followed by the resolved parameters, one per parameter |
| SimpleExec.ParseSimple | src/cmd.c:41-167 | `parse_simple`: the status is the one its recorded effect yields, and only `cd` and an assignment change the shell's state; each case is stated by ExitFirst, CdWithoutDirectory, CdWithDirectory, AssignmentSetsOnlyName and ExternalSpawnsChild |
| SimpleExec.EffectExplainsOutcome | src/cmd.c:41-167 | the recorded effect of a simple command determines its status and the shell's new state |
| SimpleExec.ExitFirst | src/cmd.c:59-61 | raw verb `exit` returns SHELL_EXIT with nothing changed, whatever the parameters and redirections are |
| SimpleExec.CdWithoutDirectory | src/cmd.c:63-67 | `cd` with no parameters returns 0, opens nothing and changes nothing |
| SimpleExec.CdWithDirectory | src/cmd.c:63-91 | `cd dir` returns 0 iff chdir succeeds and 1 iff it fails; the directory moves only on success; the environment is kept; the cd redirection plan is recorded |
| SimpleExec.AssignmentSetsOnlyName | src/cmd.c:93-102 | an assignment spawns nothing and returns 0; it sets the raw name to the resolved value of the parts after `=`; every other variable and the directory are unchanged |
| SimpleExec.ExternalSpawnsChild | src/cmd.c:104-166 | otherwise one child runs: the raw verb, the resolved argv, the child redirection plan, and the current environment and directory. Its 0..255 status is the result, and the shell is unchanged |
| SimpleExec.TerminateOnlyByExit | src/cmd.c:59-166 | a simple command yields SHELL_EXIT iff it is `exit`; any other yields a status in 0..255 |
| SimpleExec.AssignmentChain | src/cmd.c:93-102 | `A=x` then `B=$A` leaves B set to x: the second resolution sees the first assignment |
| Executor.ParseCommandMeaning | src/cmd.c:194-256 | `parse_command` equals a context-free meaning written as one dispatch table, for every level and father |
| Executor.ParseCommand | src/cmd.c:194-256 | `parse_command`: a tree of implemented operators runs at least one simple command, and a run of none leaves the shell state as it was; its full meaning is ParseCommandMeaning |
| Executor.ContextIrrelevant | src/cmd.c:194-256 | `level` and `father` never change the status, the state or the trace |
| Executor.SimpleNode | src/cmd.c:199-203 | an OP_NONE node runs its simple command once and returns exactly its status and state |
| Executor.SequentialRunsBoth | src/cmd.c:206-213 | `a ; b` runs a fully, then b from a's final state; it returns b's status whatever a returned, SHELL_EXIT included |
| Executor.OrElse | src/cmd.c:219-230 | OP_CONDITIONAL_NZERO(a, b) runs b iff a's status is nonzero; otherwise it returns a's run unchanged, with status 0 |
| Executor.AndThen | src/cmd.c:232-243 | `a && b` runs b iff a's status is 0; otherwise it returns a's run unchanged, with its nonzero status |
| Executor.OrElseRunsRightIff | src/cmd.c:219-230 | for an implemented right operand, the trace goes past a's iff a's status is nonzero |
| Executor.AndThenRunsRightIff | src/cmd.c:232-243 | for an implemented right operand, the trace goes past a's iff a's status is 0 |
| Executor.UnknownOperator | src/cmd.c:251-252 | an unknown operator returns SHELL_EXIT, runs neither child and changes nothing |
| Executor.UnfinishedOperators | src/cmd.c:215-249 | parallel and pipe nodes run neither child, change nothing, and return the unassigned status |
| Executor.RunsLeftmostFirst | src/cmd.c:194-256 | a tree of implemented operators always runs its leftmost simple command first |
| Executor.RunsLeavesInOrder | src/cmd.c:194-256 | the commands run form a subsequence of the tree's leaves: left to right, none twice |
| Executor.StateIsReplay | src/cmd.c:194-256 | the final shell state is the recorded effects applied in order |
| Executor.OnlyBuiltinsChangeShell | src/cmd.c:194-256 | with no assignment in the trace the environment is unchanged; with no `cd` the directory is unchanged |
| Executor.StatusOfLastCommand | src/cmd.c:194-256 | over implemented operators, the result is the status of the last simple command that ran |
| Executor.TerminateOnlyByExitOrUnknown | src/cmd.c:194-256 | SHELL_EXIT comes back only from an `exit` that ran, an unknown operator, or an unassigned status; any other result is 0..255 or the unassigned value |
| Executor.SequentialAssociative | src/cmd.c:206-213 | `(a;b);c` and `a;(b;c)` give the same status, state and trace |
| Executor.AndThenAssociative | src/cmd.c:232-243 | ZERO(ZERO(a, b), c) and ZERO(a, ZERO(b, c)) give the same status, state and trace |
| Executor.OrElseAssociative | src/cmd.c:219-230 | NZERO(NZERO(a, b), c) and NZERO(a, NZERO(b, c)) give the same status, state and trace |
| Interpreter.Shell.ExecuteSimple | src/cmd.c:41-167 | the in-place `parse_simple` returns ParseSimple's status, leaves the fields in its new state, and logs exactly one entry |
| Interpreter.Shell.Execute | src/cmd.c:194-256 | the in-place recursive `parse_command` returns ParseCommand's status, leaves the fields in its new state, and logs its trace |
| Interpreter.AssignTwice | src/cmd.c:93-102 | running `A=x` then `B=$A` on a Shell object leaves B set to x, keeps the directory and logs two entries |

## Left out

- Process creation and waiting (`fork`, `execvp`, `waitpid`, `WIFEXITED`/`WEXITSTATUS`): a child is the `World.run` oracle on its invocation, and it is taken to exit normally.
- A child whose `execvp` fails falls through and runs on as a copy of the shell. A child killed by a signal leaves `ret` unassigned. Neither is modelled.
- Parallel and pipe execution: their cases in `parse_command` are empty. `run_in_parallel` and `run_on_pipe` are unused stubs. The model runs neither child and returns `World.uninit`.
- Real descriptor system calls: `open`, `dup2` and `close` are abstract actions. Open failures (fd -1) are not modelled, and neither are descriptor numbers. Opened descriptors are tracked as a stack, not as the lowest free numbers.
- `chdir` and `setenv` are modelled as an oracle and a map update. The model's working directory is a string given back by the oracle, with no path semantics.
- The oracle is deterministic: the same invocation always returns the same status. A file system that changes between commands is not represented.
- Freeing argv and the command strings (src/cmd.c:99-100, 104, 159-163): memory bookkeeping with no observable effect.
- `get_word` and `get_argv` (utils.c) are not part of this model. They are defined as the resolution the shell relies on: parts concatenated in order, an unset variable giving "".
- Words.AfterAssign: for a one-part verb containing `=` the source dereferences a missing part (src/cmd.c:97). The model resolves the missing parts to "" instead.
- Reading an unassigned `ret` is undefined in C. The model gives it one fixed value, `World.uninit`.
