# ralphex command helpers: a Dafny model

`ralphex` is a command that runs a coding agent against a plan file. Its entry point
is `cmd/ralphex/main.go`. Before the execution loop starts, the command makes several
deterministic decisions, and this project models and proves them:

- **Plan selection** (`selectPlan`, and the check `run` makes on its result). An
  explicit plan must exist. In review and codex-only runs the plan is optional.
  Otherwise the interactive picker chooses one, and a task run refuses an empty plan.
- **Branch creation** (`createBranchIfNeeded`). The current branch is read from git. If
  it is `main` or `master`, a branch named after the plan is created. The name is the
  plan's file name without `.md` and without a leading date made of digits and hyphens.
  If stripping the date leaves nothing, the whole name is kept.
- **Mode selection**. The mode is `codex-only`, `review` or `full`, and `--codex-only`
  takes precedence over `--review`. Any mode other than `full` adds a console suffix
  ` (<mode> mode)`.
- **Progress file name** (`getProgressFilename`). The name is
  `progress[-<stem>][-codex|-review].txt`.
- **Progress log text**. A header gives the title, plan, branch, mode, start time and a
  rule of 60 hyphens. A footer gives a second rule and the completion time with the
  elapsed duration.
- **Elapsed-time text** (`formatElapsed`). The duration is written as `Ns`, `NmNs` or
  `NhNmNs`.

Everything is written as pure functions and lemmas, which matches the source: these
parts of `main.go` are straight-line code without loops or mutable state. Each
operation is paired with something to check it against:

- **Elapsed time.** A reader (`Elapsed.ParseSeconds`) turns the text back into seconds,
  and a lemma proves the round trip.
- **Decimal numbers.** `Decimal.Value` turns digits back into a number, with its own
  round-trip lemma.
- **Log text.** A line splitter (`Strings.Lines`) reads the header and footer back line
  by line.
- **`.gitignore` coverage.** The predicate `Progress.IgnoredProgressFile` states what
  the line `progress-*.txt` matches. A lemma proves that every progress file a run can
  create is covered by it, provided the plan path names more than the root.
- **Whitespace, base names and branch names.** Characterisation lemmas pin down
  `TrimSpace`, `filepath.Base` and the branch name completely.

Modules: `Wrappers` (Option/Result), `Decimal` (Go's `%d`), `Strings` (the
`strings` functions used), `FilePath` (`filepath.Base` with `/` separators),
`Elapsed`, `Modes`, `PlanFile`, `Branch`, `Progress`, `Command` (`run`).

Facts about `main.go` that the model follows:

- The progress header has a title line `# Ralph Progress Log` before the `Plan:`,
  `Branch:`, `Mode:` and `Started:` lines.
- The mode strings are `full`, `review` and `codex-only`.
- No per-event lines are written between the header and the footer.
- The branch name is derived from the plan path inside `createBranchIfNeeded`.

## Model

| member | source | states |
|---|---|---|
| `Decimal.FormatNat` | cmd/ralphex/main.go:286 | `%d` of a non-negative number is a non-empty digit string that starts with `0` only for zero |
| `Decimal.FormatInt` | cmd/ralphex/main.go:286 | `%d` of an integer starts with `-` exactly when it is negative, followed by the digits of its magnitude |
| `Decimal.ValueOfFormatNat` | cmd/ralphex/main.go:286 | reading the printed digits back gives the number printed |
| `Decimal.FormatNatInjective` | cmd/ralphex/main.go:286 | different numbers print differently |
| `Strings.TrimSuffix` | cmd/ralphex/main.go:163 | the result is a prefix of the input; if the suffix was there, result plus suffix is the input; otherwise the input is unchanged |
| `Strings.TrimSuffixOfAppend` | cmd/ralphex/main.go:262 | trimming an appended suffix gives back the original |
| `Strings.TrimLeft` | cmd/ralphex/main.go:166 | the result is a suffix of the input that does not start with the cut character, and everything removed is that character |
| `Strings.TrimSpace` | cmd/ralphex/main.go:157 | the result has no white space at either end and is a slice of the input with only white space before and after it |
| `Strings.TrimSpaceOfPadded` | cmd/ralphex/main.go:157 | white space around a word is exactly what is removed, so the result is unique |
| `Strings.TrimSpaceKeepsOut` | cmd/ralphex/main.go:184 | trimming never introduces a character that was not in the input |
| `Strings.Repeat` | cmd/ralphex/main.go:217 | `n` copies of the character, and nothing else |
| `Strings.LinesOfUnlines` | cmd/ralphex/main.go:212-217 | splitting newline-terminated lines at the newlines gives the lines back, then one empty piece |
| `FilePath.Base` | cmd/ralphex/main.go:163 | the base is non-empty; it is `.` for the empty path; it is `/` exactly when the path is non-empty and made only of separators, and otherwise contains no separator |
| `FilePath.BaseOfJoin` | cmd/ralphex/main.go:262 | the base of `<dir>/<name>` is `<name>` |
| `FilePath.BaseIgnoresTrailingSeparator` | cmd/ralphex/main.go:262 | a trailing `/` does not change the base of a non-empty path |
| `FilePath.BaseIdempotent` | cmd/ralphex/main.go:262 | taking the base twice changes nothing |
| `FilePath.BaseHasNoSeparator` | cmd/ralphex/main.go:262 | a path with any character other than `/` has a base with no `/` |
| `Elapsed.WholeSeconds` | cmd/ralphex/main.go:284 | `int(d.Seconds())` is the whole number of seconds in `d` nanoseconds, truncated toward zero for both signs |
| `Elapsed.FormatSeconds` | cmd/ralphex/main.go:285-295 | the text ends in `s` and starts with `-` exactly for a negative input |
| `Elapsed.FormatSecondsFields` | cmd/ralphex/main.go:285-295 | the units are `s` below 60, `m s` below 3600 and `h m s` otherwise; a multi-unit form has a non-zero leading field; minute and second fields are below 60; the fields add up to the input |
| `Elapsed.ParseFormatSeconds` | cmd/ralphex/main.go:285-295 | reading the text back gives the seconds it was printed from |
| `Elapsed.FormatSecondsInjective` | cmd/ralphex/main.go:285-295 | different non-negative second counts give different texts |
| `Elapsed.FormatElapsed` | cmd/ralphex/main.go:283-296 | for a non-negative duration the text reads back as its whole seconds; it starts with `-` exactly when the duration is at most minus one second |
| `Elapsed.FormatElapsedAlphabet` | cmd/ralphex/main.go:283-296 | the text uses only digits, `-`, `h`, `m` and `s` |
| `Modes.SelectMode` | cmd/ralphex/main.go:192-197 | `codex-only` exactly when `--codex-only` is set; `review` exactly when `--review` is set without it; `full` exactly when neither is set |
| `Modes.NameOfSelectMode` | cmd/ralphex/main.go:192-197 | the mode string is `codex-only` when `--codex-only` is set, else `review` when `--review` is set, else `full` |
| `Modes.NameInjective` | cmd/ralphex/main.go:192-197 | the three mode strings are distinct |
| `Modes.ModeSuffix` | cmd/ralphex/main.go:219-222 | the suffix is empty exactly for `full`; otherwise it is ` (`, the mode and ` mode)` |
| `Modes.SuffixShownIffFlagSet` | cmd/ralphex/main.go:219-222 | the console suffix appears exactly when `--review` or `--codex-only` is set |
| `PlanFile.PlanStem` | cmd/ralphex/main.go:262 | the stem contains no separator unless it is `/` |
| `PlanFile.PlanStemOfPath` | cmd/ralphex/main.go:163 | the stem of `<dir>/<name>.md` is `<name>` |
| `PlanFile.SelectPlan` | cmd/ralphex/main.go:95-110 | a named plan is returned unchanged exactly when it exists, else the error reads `plan file not found: <path>`; an optional empty plan gives `""`; otherwise the picker's outcome is returned as is |
| `PlanFile.ResolvePlan` | cmd/ralphex/main.go:74-82 | a named plan is kept exactly when it exists, otherwise `PlanNotFound` of it; with no named plan a review or codex-only run goes on with `""`; otherwise a non-empty picked path is kept, a picker error is passed on, and an empty pick is `plan file required for task execution` (exactly in that case); a task run always continues with a non-empty plan |
| `Branch.DatePrefixLen` | cmd/ralphex/main.go:165 | the leading run of `[\d-]` characters is as long as possible |
| `Branch.StripDatePrefix` | cmd/ralphex/main.go:165-166 | the replacement leaves a suffix of the name |
| `Branch.TrimLeftAfterStripUnchanged` | cmd/ralphex/main.go:166 | the `TrimLeft "-"` after the replacement never removes anything |
| `Branch.BranchName` | cmd/ralphex/main.go:163-169 | the branch is a suffix of the plan stem, non-empty for a non-empty stem; either exactly the maximal run of digits and hyphens was removed and the result starts with another character, or the stem is kept because nothing could be removed or nothing would remain |
| `Branch.CreateBranchIfNeeded` | cmd/ralphex/main.go:150-177 | a failing git query gives `failed to get current branch: …`; a trimmed branch other than `main`/`master` changes nothing; a branch is created only from `main`/`master`, and it is the plan's branch name; on `main`/`master` a successful checkout creates exactly the plan's branch; a failed checkout gives `failed to create branch <name>: …` |
| `Branch.TrunkOutputCreatesBranch` | cmd/ralphex/main.go:157-160 | `main` or `master` (the two names `IsTrunk` accepts) with any surrounding white space creates the plan's branch |
| `Branch.FeatureOutputKeepsBranch` | cmd/ralphex/main.go:157-160 | any other branch name with any surrounding white space keeps the current branch |
| `Branch.DatedPlanBranch` | cmd/ralphex/main.go:163-169 | `<dir>/<date><words>.md` gives `<words>` when the date is digits and hyphens and the words start otherwise (as in `2024-01-15-feature` giving `feature`, `2024-01-15-12-30-my-feature` giving `my-feature`, `add-tests` giving `add-tests`) |
| `Branch.AllDatePlanBranch` | cmd/ralphex/main.go:167-169 | a stem made only of digits and hyphens is kept whole |
| `Progress.ProgressFilename` | cmd/ralphex/main.go:260-281 | every name starts with `progress` and ends with `.txt`; with a plan it starts with `progress-<stem>` |
| `Progress.ProgressFilenameCases` | cmd/ralphex/main.go:260-281 | the six names: `progress-<stem>-codex.txt`, `progress-<stem>-review.txt` and `progress-<stem>.txt` with a plan, and `progress-codex.txt`, `progress-review.txt` and `progress.txt` without one |
| `Progress.ProgressFilenamesDistinct` | cmd/ralphex/main.go:260-281 | runs of the same plan in different modes write different files |
| `Progress.ProgressFilenameIgnored` | cmd/ralphex/main.go:260-281 | every name with a plan, or without a plan in review or codex-only mode, matches the `.gitignore` line `progress-*.txt` |
| `Progress.PlainProgressFileNotIgnored` | cmd/ralphex/main.go:278-279 | `progress.txt` does not match `progress-*.txt` |
| `Progress.Rule` | cmd/ralphex/main.go:217 | the rule is exactly 60 hyphens |
| `Progress.PlanLabel` | cmd/ralphex/main.go:208-211 | the plan label is the plan itself when there is one and `(no plan - review only)` otherwise |
| `Progress.ProgressLogLines` | cmd/ralphex/main.go:208-234 | read line by line, the log is the title, `Plan:`, `Branch:`, `Mode:`, `Started:`, the rule, a blank line, the footer's blank line, the rule, `Completed: <ts> (<elapsed>)` and a final empty piece; for a non-negative duration the elapsed text reads back as the whole seconds |
| `Progress.HeaderReadsBack` | cmd/ralphex/main.go:212-217 | the header splits back at the newlines into its seven lines (title, `Plan:`, `Branch:`, `Mode:`, `Started:`, rule, blank) and one empty piece |
| `Progress.FooterReadsBack` | cmd/ralphex/main.go:233-234 | the footer splits back at the newlines into its three lines (blank, rule, `Completed: <ts> (<elapsed>)`) and one empty piece |
| `Progress.LogLines` | cmd/ralphex/main.go:208-234 | the header followed by the footer splits back at the newlines into the header's lines, then the footer's lines, then one empty piece |
| `Command.Run` | cmd/ralphex/main.go:74-92 | the plan-required error happens exactly as in `ResolvePlan`; a named plan is kept; without a plan no branch is created and the mode is not `full`; the mode is `codex-only` exactly when `--codex-only` is set; a branch is created only from `main`/`master` and is the plan's branch name; the progress path is `ProgressFilename` of the plan and the mode's string, so it starts with `progress` and ends with `.txt`; a plan error is passed on as `PlanFailed` of it and a branch error as `BranchFailed` of its text; the run goes ahead exactly when the plan resolves and, for a non-empty plan, `createBranchIfNeeded` succeeds, and then with the resolved plan and, for a non-empty plan, exactly the branch action `createBranchIfNeeded` returned |
| `Command.RunProgressFileIgnored` | cmd/ralphex/main.go:199-200 | every progress file a run can create is covered by the `progress-*.txt` line that `ensureGitignore` adds, provided the plan path names more than the root |
| `Command.ReviewWithoutPlan` | cmd/ralphex/main.go:74-82 | a review run without a plan goes ahead with no plan, no branch, the `review` mode and `progress-review.txt` |
| `Command.RunErrorTexts` | cmd/ralphex/main.go:73-87 | the error texts of a stopped run: `plan file not found: <path>` for a missing named plan, `plan file required for task execution` for a task run whose picker returned nothing, the picker's own error, `failed to get current branch: …` and `failed to create branch <name>: …` |
| `Command.LaunchFacts` | cmd/ralphex/main.go:74-92 | a launched run has the selected mode and the named plan, and has no plan only in a review or codex-only run |
| `Command.RunLogLines` | cmd/ralphex/main.go:207-234 | the text `RunLog` writes for a run has eleven lines; the `Plan:` line carries the plan, or `Plan: (no plan - review only)` without one; the `Branch:` line carries the trimmed git output; the `Mode:` line carries the run's mode |
| `Command.RunLogBranchLine` | cmd/ralphex/main.go:183-214 | for git output made of a branch name padded with white space, such as `feature` followed by a line break, the `Branch:` line is `Branch: ` and the name alone |

## Left out

- `main`, flag parsing and signal handling (cmd/ralphex/main.go:34-63) are command-line and process plumbing.
- The `exec.LookPath` checks for `claude` and `git` (cmd/ralphex/main.go:66-71) are not modelled. `Command.Run` starts at plan selection.
- `selectPlanWithFzf` (cmd/ralphex/main.go:112-148) globs the plans directory and runs `fzf`. Its outcome, a path or an error text, is an input of `PlanFile.SelectPlan`.
- Each git subprocess (cmd/ralphex/main.go:152, 172, 183) is replaced by its outcome, given as an input. The second `git branch --show-current` ignores errors, so its output is a plain string parameter.
- `ensureGitignore` and the creation of the progress file (cmd/ralphex/main.go:187-190, 201-205, 239-258) are file I/O. Their failures are not modelled, and the log is modelled as the text written.
- The console messages (cmd/ralphex/main.go:171, 223-225, 232) are printing. Only the mode suffix they use is modelled.
- `time.Now()` and its formatting are the wall clock. Start and completion times are string parameters, and durations are integers of nanoseconds.
- Elapsed.WholeSeconds: `d.Seconds()` goes through a float64. The model divides the integer nanoseconds exactly. `Seconds()` adds the whole seconds to the fraction `nsec/1e9` in float64. That sum can round up to the next whole second only from 2^24 seconds on, about 194 days.
- FilePath.Base: only `/` is treated as a separator. Windows volume names and `\` are not modelled.
- Strings.TrimSpace: the input is treated as a sequence of Unicode characters. Go's handling of invalid UTF-8 bytes is not modelled.
- The execution loop, reviews and codex integration are only `TODO` markers in the source (cmd/ralphex/main.go:227-229). There is no phase state machine, retry logic or signal scanning in the code to model.
