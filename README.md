# ecctl process manager, modelled in Dafny

ecctl is a small command-line supervisor. `ecctl start <path>` starts the
program as a child process that ecctl does not wait for. `ecctl stop <name>` kills the processes whose
command line matches the name. `ecctl status <name>` says whether the program
is running. All three rest on one heuristic, `isRunning` in
`internal/program/manager.go`. It runs `pgrep -fl <name>`, then reads the
output line by line:

- blank lines are skipped, and so are lines with fewer than two
  white-space-separated fields;
- the first field is the process id, and the remaining fields joined by single
  spaces are the command;
- a line is dropped when its process id equals `string(rune(os.Getpid()))`;
- a line is also dropped when its command mentions both `ecctl` and `status`;
- the program counts as running at the first surviving line whose command
  contains the name.

If pgrep exits with status 1 (nothing found), the answer is "not running" with
no error. Any other failure is an error.

The model has four modules:

- `GoStrings` (`go_strings.dfy`) holds the parts of Go's `strings` package the
  heuristic uses. These are `unicode.IsSpace`, `TrimSpace`, `Fields`, `Join`,
  `Split` and `Contains`, over strings of Unicode code points. `Fields`, `Split`
  and `Join` come with round trips: `Fields` undoes a single-space `Join` of
  words, and `Split` and `Join` undo each other.
- `FilePath` (`filepath.dfy`) holds `filepath.Dir` and `filepath.Base` on the
  cleaned absolute paths that `filepath.Abs` returns. It proves that a path is
  its directory joined with its base.
- `Matcher` (`matcher.dfy`) holds:
  - `IsRunning`, the loop exactly as the source writes it, proved against the
    function `Running`;
  - the Go conversions it depends on: int to int32 wrap-around, and
    `string(rune(n))`;
  - lemmas about which lines can and cannot count as "running".
- `Manager` (`manager.dfy`) holds `Start`, `Stop` and `Status`. What the
  operating system answers (`filepath.Abs`, `os.Stat`, the pgrep run,
  `os.Getpid`, whether the spawn and pkill succeed) is an `Env` value given as
  input. Each operation returns the OS calls it made, in order, and the outcome
  it logs. `exec.Cmd` is the class `Command`, whose directory and output sinks
  `Start` sets before starting it.

The self-exclusion by process id is modelled as written. `string(rune(pid))`
in Go is the one-character string whose code point is the process id (or
U+FFFD), not the decimal text pgrep prints. So the test can only ever drop a
line whose first field is a single character (`PidTestNeedsOneCharacter`).
For any caller, its own pgrep line is never dropped by this test
(`OwnDecimalPidKept`): even a one-digit id is printed as the digit character,
whose code point is not the id. One consequence follows
when pgrep's listing shows full command lines, as BSD and macOS pgrep does
with `-fl`: `ecctl stop worker` or `ecctl start ./tools/worker` finds its own
command line in the listing and counts itself as a running `worker`
(`OwnInvocationCountsAsRunning`, `StartSeesItself`). When the listing shows
only process names, as procps pgrep on Linux does with `-l`, that line reads
`<pid> ecctl`, which names the program only when the name is part of `ecctl`. Conversely, a caller with
process id 49 drops the listing of process 1 (`RunePidLineDropped`,
`RuneStringOfFortyNine`). When pgrep lists full command lines, only the
`ecctl … status` exclusion reliably hides the controller's own query
(`StatusSelfCheckNotRunning`).

The command of a line is rebuilt from its fields with single spaces, so a
program whose name holds a tab (or any white space other than a space) or two
adjacent white-space characters is never found running, whatever pgrep lists
(`WideSpaceNameNeverRunning`); a second Start of such a program spawns it again.

The model follows the code, including where it departs from what one would
expect:

- The PID comparison is the character comparison above, not a numeric one.
- Start, Stop and Status return nothing. They only log, so a path error or a
  spawn error is a logged outcome (`PathError`, `SpawnError`), not a non-zero
  exit of the command.
- `os.Stat` only stops Start when its error satisfies `os.IsNotExist`. Any
  other stat error lets Start go on.

## Model

Helper lemmas that are only proof steps (facts about the literals `"status"`
and `"./"`, containment in longer text) have no row.

| member | source | states |
|---|---|---|
| GoStrings.TrimSpace | internal/program/manager.go:60 | strings.TrimSpace: the trimmed line is empty exactly when the line is all white space; otherwise it starts and ends with a non-space character |
| GoStrings.Fields | internal/program/manager.go:65 | strings.Fields: every field is a non-empty run without white space, and there are no fields exactly when the line is all white space |
| GoStrings.Split | internal/program/manager.go:57 | strings.Split on "\n": always at least one piece, and no piece contains a newline |
| GoStrings.IsSpace | internal/program/manager.go:60-65 | unicode.IsSpace, the white space under TrimSpace and Fields: U+0009 to U+000D, U+0020, U+0085, U+00A0, U+1680, U+2000 to U+200A, U+2028, U+2029, U+202F, U+205F and U+3000 (a definition) |
| GoStrings.Join | internal/program/manager.go:73 | strings.Join: the parts with the separator between each two (a definition, whose meaning JoinSplit, SplitJoin and FieldsJoin carry) |
| GoStrings.Contains | internal/program/manager.go:76-81 | strings.Contains: the substring occurs at some position, and the empty string occurs in every string (a definition) |
| GoStrings.FieldsJoin | internal/program/manager.go:65-73 | splitting a single-space join of words into fields gives back those words, so the command rebuilt on line 73 is the words after the process id |
| GoStrings.JoinSplit | internal/program/manager.go:57 | joining the pieces of Split with the separator restores the output |
| GoStrings.SplitJoin | internal/program/manager.go:57 | splitting a newline-join of newline-free lines gives back those lines |
| GoStrings.JoinSingleSpaced | internal/program/manager.go:73 | a command rebuilt from words with single spaces holds no white space but single spaces between two non-space characters |
| GoStrings.FieldsOfWordThen | internal/program/manager.go:65 | the fields of a word followed by white space are that word followed by the fields of the rest |
| GoStrings.FieldsSkipsSpace | internal/program/manager.go:65 | a leading white-space character does not change the fields |
| FilePath.Base | internal/program/manager.go:112 | filepath.Base of a cleaned absolute path: "/" for the root, otherwise the suffix after the last "/", a non-empty element without "/" that is neither "." nor ".." |
| FilePath.Dir | internal/program/manager.go:109 | filepath.Dir of a cleaned absolute path is again a cleaned absolute path, strictly shorter unless it is the root |
| FilePath.DirBase | internal/program/manager.go:109-114 | for every path but the root, the working directory joined with the program name is the absolute path again |
| FilePath.BaseDirOfJoin | internal/program/manager.go:109-112 | a directory joined with an element (not "." or "..") is a cleaned absolute path whose Dir is the directory and whose Base is the name |
| FilePath.WorkerPath | internal/program/manager.go:109-114 | for /opt/app/tools/worker, the working directory is /opt/app/tools and the program is "worker" |
| Matcher.Int32 | internal/program/manager.go:76 | the int32 conversion inside rune(currentPID) lies in the int32 range and agrees with the input modulo 2^32 |
| Matcher.RuneString | internal/program/manager.go:76 | string(rune(n)) is exactly one character: the int32 value's code point when it is a scalar value (so any process id below 0xD800 is its own code point), and U+FFFD when it is a surrogate, negative or above U+10FFFF |
| Matcher.IsRunning | internal/program/manager.go:26-89 | the answer is Running: exit status 1 gives "not running" without error, any other failure gives an error and never "running", and a listing gives "running" exactly when some newline-separated line survives the filters and its command contains the program |
| Matcher.LineOfWords | internal/program/manager.go:60-84 | a line of words matches exactly when it has two or more words, is not excluded, and its command contains the program |
| Matcher.FieldsAfterSpace | internal/program/manager.go:60-65 | white space before a line does not change its fields |
| Matcher.BlankOrSingleFieldNeverMatches | internal/program/manager.go:60-69 | a blank line, or one holding a single field, has at most one field and never matches, whatever the program |
| Matcher.StatusQueryLineExcluded | internal/program/manager.go:76 | a line whose command contains both "ecctl" and "status" never matches, even when it names the program |
| Matcher.PidTestNeedsOneCharacter | internal/program/manager.go:76 | a process-id field that is not exactly one character is excluded only by the ecctl-and-status test |
| Matcher.OwnDecimalPidKept | internal/program/manager.go:53-84 | a line showing the caller's own process id (any id) in decimal matches exactly when its command contains the program and does not mention both "ecctl" and "status" |
| Matcher.OwnInvocationCountsAsRunning | internal/program/manager.go:53-84 | the caller's own `<exe> <verb> <arg>` line, under any process id, with an argument containing the program and no "status", counts as the program running |
| Matcher.RunePidLineDropped | internal/program/manager.go:76 | a line whose first field is the character string(rune(currentPID)) is dropped, whatever its command |
| Matcher.RuneStringOfFortyNine | internal/program/manager.go:76 | process id 49 is compared with the field "1" |
| Matcher.EmptyProgramMatchesEveryLine | internal/program/manager.go:65-84 | with an empty program name, a line matches exactly when it has two or more fields and is not excluded |
| Matcher.CommandNeverContainsWideSpace | internal/program/manager.go:73-81 | a rebuilt command never contains a name holding a white-space character other than a space, or two white-space characters in a row |
| Matcher.WideSpaceNameNeverRunning | internal/program/manager.go:57-88 | for such a name the query never answers running, whatever pgrep reports |
| Matcher.EmptyOutputNotRunning | internal/program/manager.go:57-88 | an empty listing is "not running" with no error |
| Matcher.RunningOnLines | internal/program/manager.go:57-88 | for an output of newline-terminated lines, the answer is whether one of those lines matches; the empty last piece never matches |
| Matcher.RunningIgnoresLineOrder | internal/program/manager.go:57-88 | two outputs with the same lines in any order give the same answer |
| Matcher.MatchInLinesOf | internal/program/manager.go:58-84 | a match among some lines is still a match among any lines that include them |
| Matcher.StatusSelfCheckNotRunning | internal/program/manager.go:76 | the controller's own `<…ecctl…> status <program>` line, under any process id, never makes the program count as running |
| Manager.Command.constructor | internal/program/manager.go:114 | exec.Command("./" + program) records the name, with no working directory and no output sinks yet |
| Manager.Start | internal/program/manager.go:92-151 | Start resolves the path first, and on error its calls are just that. Otherwise it stats the absolute path, and when the file does not exist its calls end there; any other stat result goes on. It then asks pgrep about Base of the path, and on a query error or when the program is already running its calls end with that query. Only then does it spawn, exactly once, "./" + Base in Dir with both outputs sent to the log. The whole call trace is given for every outcome; it never signals, and pgrep always comes after stat |
| Manager.Stop | internal/program/manager.go:155-187 | Stop always queries first and never spawns. It issues `pkill -f <program>` exactly when the query answered running without error, and reports failures of that signal |
| Manager.Status | internal/program/manager.go:191-211 | Status makes exactly one query and never spawns or signals. It reports an error, running or not running exactly as the query answered |
| Manager.SpawnedChildIsSeen | internal/program/manager.go:114-135 | for a name without white space and whose `./<name>` does not mention both "ecctl" and "status", once pgrep lists the spawned `./<name>` under a process id of two or more digits, the query for `<name>` answers running, so a second Start spawns nothing |
| Manager.StartSeesItself | internal/program/manager.go:117-126 | when pgrep lists the caller's own `<exe> start <path>` line, under any process id, with a path naming the program, and the line does not mention "status", the query answers running, so Start reports it as already running |

## Left out

- The operating system itself is not modelled: running pgrep and pkill, process creation, `os.Stat`, `filepath.Abs` and `os.Getpid`. Their answers are inputs (`Env`, `PgrepRun`), because they lie outside the program.
- pgrep's and pkill's own pattern matching (regular expressions over process names or command lines) is not modelled, because pgrep's output is taken as given text. So is the race between the check and the spawn or signal.
- The goroutine that waits for the started child (manager.go:144-150) and logs its exit is not modelled. It is concurrent and its outcome never reaches the caller.
- Logging is not modelled: the logger calls and internal/logger/logger.go. Each outcome value stands for the log line that is reached, and the log text is not modelled.
- getProgramPath (manager.go:13-22) is modelled only as the `filepath.Abs` answer in `Env`. The calls to it that are commented out in isRunning, Stop and Status do nothing.
- The command wiring in internal/utils/root.go (each subcommand takes exactly one argument) and cmd/ecctl/main.go are not modelled, because they are argument parsing around the three operations.
- Strings are sequences of Unicode code points. The byte-level UTF-8 decoding Go applies to pgrep's output (an invalid byte read as U+FFFD) is not modelled.
- FilePath.Base: defined only on cleaned absolute paths (no `//`, no trailing `/`, no `.` or `..` element), the only kind `filepath.Abs` returns. The `filepath.Clean` rewriting of other inputs is not modelled.
- FilePath.Dir: defined only on cleaned absolute paths, for the same reason.
