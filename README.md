# ike-prow-plugins core, modelled in Dafny

This project models four parts of ike-prow-plugins, a set of GitHub bots for the Prow CI
system, and proves properties of each.

- **Comment-command executor** (`command.dfy`, module `Command`). A command text is bound,
  through the `When` / `By` / `ThenDo` builder, to a list of bindings. Each binding holds
  comment actions, permission checks and an effect. When a pull-request comment's trimmed
  body is exactly the command, `Execute` runs the bindings in registration order. It stops
  at the first error. A binding whose action matches runs its effect when the user is
  approved and the permission check did not fail. When the user is denied and the check did
  not fail, it posts a denial comment unless the executor is in quiet mode. A failed check's
  error is returned with no effect and no comment.
- **Work-in-progress bot** (`work_in_progress.dfy`, module `WorkInProgress`). The bot looks
  for a work-in-progress marker at the start of any line of the pull request's title (the
  pattern is multi-line). The pattern is case-insensitive and may be bracketed. The bot keeps
  the work-in-progress label in step with the title and reports a Failure or Success commit
  status. When the label is removed, the bot removes the matched prefix text from the title,
  but only where the title as written begins with exactly that text: "[WIP] fix" and
  "wip: fix" stay as they are, and "WIP: fix" becomes ": fix".
- **File patterns of the test-keeper** (`file_pattern.dfy`, module `FilePatterns`).
  `ParseFilePatterns` turns a glob-like pattern into a regular expression. A
  `regex{{...}}` pattern is taken verbatim.
- **Changeset classification of the test-keeper** (`file_categories.dfy`, module
  `TestKeeper`). `FileCategoryCounter.Count` tallies the changed files of a pull request.
  Each file is excluded from the check, a test, or neither. `TestsExist` and
  `OnlySkippedFiles` are read off the tallies.

`wrappers.dfy` holds `Option` and the error type. `text.dfy` holds the ASCII string
functions the source takes from Go's `strings` package: `TrimSpace`, `ToLower`,
`TrimPrefix` and `Fields`.

Collaborators outside the core are modelled in one of two ways. Some are inputs to the
model: the permission service, the effect functions, the per-repository configuration and
regular-expression matching. The GitHub client is a recording object instead: the `Client`
class logs every call it receives and answers each one from a `respond` oracle.

The test-keeper's pattern parser (`ParseFilePatterns`) and counter (`Count`) are modelled
from their tests. Their implementation files are not part of this model.
- The patterns are translated as follows: `**` becomes `.*`, `*` becomes `[^/]*` and `.` becomes `\.`.
- A directory pattern ends in `.*` and every other glob ends in `$`.
- A single leading `*` in a pattern without `/` becomes `.*`. The test
  `pkg/plugin/test-keeper/file_pattern_test.go:26` requires this.

Exclusion takes precedence over inclusion, as the tests require:
- a test file under `vendor/` is not a test (`file_categories_test.go:81-94`);
- a file matching both configured patterns leaves only skipped files (`file_categories_test.go:211-231`).

The model follows the tests: a file counts as a test only when it is not excluded.

## Model

| member | source | states |
|---|---|---|
| Command.CommentActionsMatch | pkg/command/cmd_executor.go:43-51 | `Triggered` matches exactly "edited" and "created" and reads "used"; `Deleted` matches exactly "deleted" and reads "deleted" |
| Command.MatchingAction | pkg/command/cmd_executor.go:87-94 | none exactly when no action matches; otherwise a matching action taken from the list |
| Command.GetMatchingAction | pkg/command/cmd_executor.go:87-94 | the loop returns the first matching action, equal to `MatchingAction` |
| Command.RunBinding | pkg/command/cmd_executor.go:65-82 | one binding leaves at most one event, tagged with its own position |
| Command.RunBindingActsAtMostOnce | pkg/command/cmd_executor.go:65-82 | no matching action: no event and no error. The effect runs iff an action matches, the user is approved and the check did not fail; its error is the result. A denial comment (action verb, command, reason) is posted iff an action matches, the user is denied, the check did not fail and quiet mode is off; the comment service's error is the result. A failed check returns its error with no event, whatever the approval. A quiet denial returns nil with no event |
| Command.ExecuteBinding | pkg/command/cmd_executor.go:65-82 | the closure registered by `ThenDo`, step by step, agrees with `RunBinding` |
| Command.ExecuteFrom | pkg/command/cmd_executor.go:101-107 | running the bindings leaves events of later bindings after those of earlier ones, all in range |
| Command.ExecuteSucceedsIffNoBindingFails | pkg/command/cmd_executor.go:101-107 | the run returns nil exactly when no binding returns an error |
| Command.ExecuteReturnsFirstError | pkg/command/cmd_executor.go:101-106 | when binding k is the first to fail, its error is returned and no later binding leaves a trace |
| Command.ExecuteRecordsUpToFirstError | pkg/command/cmd_executor.go:101-106 | when binding k is the first to fail, the events of every binding up to and including k are recorded, the failing one's among them |
| Command.ExecuteTraceIsSound | pkg/command/cmd_executor.go:97-107 | every recorded event is exactly what its binding's own run does |
| Command.ExecuteTraceIsComplete | pkg/command/cmd_executor.go:97-107 | when nothing fails, every event of every binding is recorded |
| Command.QuietModeNeverComments | pkg/command/cmd_executor.go:77-81 | a quiet executor never posts a comment, only runs effects |
| Command.CommandGate | pkg/command/cmd_executor.go:97-100 | a body holding the command padded with white space passes the trimmed-body gate; a command that itself starts or ends with white space never passes it |
| Command.CmdExecutor.constructor | pkg/command/cmd_executor.go:18-22 | a new executor holds its command and quiet flag and no bindings |
| Command.CmdExecutor.Execute | pkg/command/cmd_executor.go:97-107 | a comment whose trimmed body is not the command does nothing and returns nil; otherwise the result is running all registered bindings |
| Command.DoFunctionProvider.ThenDo | pkg/command/cmd_executor.go:64-85 | appends one binding with the collected actions, checks and effect to the executor, leaving earlier bindings in place |
| WorkInProgress.PrefixesInUse | pkg/plugin/work-in-progress/event_handler.go:191-199 | a prefix is in use iff it is configured, or is a default while none are configured or `combine` is set; the defaults come first and the configured prefixes last |
| WorkInProgress.WipPrefixIsFirstMatch | pkg/plugin/work-in-progress/event_handler.go:190-211 | a marker is found iff some prefix in use matches the lower-cased title; the reported prefix is the first that matches; none gives "" |
| WorkInProgress.HasPrefix | pkg/plugin/work-in-progress/event_handler.go:203-211 | the loop finds a prefix iff one matches, returns the first match, and returns "" otherwise |
| WorkInProgress.HasWorkInProgressPrefix | pkg/plugin/work-in-progress/event_handler.go:191-201 | lower-cases the title and searches the prefixes in use |
| WorkInProgress.HasWorkInProgressLabel | pkg/plugin/work-in-progress/event_handler.go:181-188 | true iff some label has exactly the configured name |
| WorkInProgress.StatusReportsAreDistinct | pkg/plugin/work-in-progress/event_handler.go:22-31 | the two states are reported with different descriptions and different details pages, so either identifies the state |
| WorkInProgress.TitleCheckDecides | pkg/plugin/work-in-progress/event_handler.go:127-148 | Failure iff the title is marked. The label is added iff marked and missing, and removed iff unmarked and present. The title is never edited. The result is the status call's, whatever the label call answered |
| WorkInProgress.TitleCheckConverges | pkg/plugin/work-in-progress/event_handler.go:132-146 | with a one-word label, once the label calls go through, a second check makes no label call and reports the same status |
| WorkInProgress.MultiWordLabelIsAddedAgain | pkg/plugin/work-in-progress/event_handler.go:134-138 | a label of several words is added split into words, so the next check adds it again |
| WorkInProgress.TitleResetDecides | pkg/plugin/work-in-progress/event_handler.go:150-167 | a present label keeps Failure and the title. Otherwise a marked title loses the matched prefix and is sent; a failed edit's error is returned wrapped as "failed to update PR title", with no status. An unmarked title is kept and Success is reported, with the status call's result |
| WorkInProgress.BracketedTitleIsNotTrimmed | pkg/plugin/work-in-progress/event_handler.go:157-158 | "[WIP] fix" is marked, but trimming the matched prefix "WIP" leaves it unchanged; it is still sent and Success is reported |
| WorkInProgress.LabelCheckDecides | pkg/plugin/work-in-progress/event_handler.go:169-179 | exactly one status call, Failure iff a label has the configured name |
| WorkInProgress.DefaultMarkerMatches | pkg/plugin/work-in-progress/event_handler.go:203-211 | an optional opening bracket, "wip" in any case, an optional closing bracket, then `:` or a space, marks the title with the default prefix "WIP" |
| WorkInProgress.WipTitleExamples | pkg/plugin/work-in-progress/event_handler.go:203-211 | "[WIP] fix bug", "wip: fix bug" and "WIP fix bug" are marked by "WIP" |
| WorkInProgress.OneLineMatchesAtStart | pkg/plugin/work-in-progress/event_handler.go:205-206 | in a title without line breaks, the multi-line pattern can only match at the start |
| WorkInProgress.WordStartingWithWipIsNotMarked | pkg/plugin/work-in-progress/event_handler.go:205-206 | a one-line title whose first word only begins with "wip" is not marked by any default prefix |
| WorkInProgress.WipsterIsNotMarked | pkg/plugin/work-in-progress/event_handler.go:205-206 | "WIPster update" is not marked |
| WorkInProgress.RouteOf | pkg/plugin/work-in-progress/event_handler.go:48-101 | events of other types, unhandled pull-request actions and comment actions other than "created" are ignored. "labeled" goes to the label check and "unlabeled" to the title reset. The other handled pull-request actions go to the title check and created comments to the command handler |
| WorkInProgress.WipHandler.CheckTitleAndSetStatus | pkg/plugin/work-in-progress/event_handler.go:127-148 | the client receives exactly the title check's calls and the result is the check's |
| WorkInProgress.WipHandler.UpdateTitleAndResetStatus | pkg/plugin/work-in-progress/event_handler.go:150-167 | the client receives exactly the title reset's calls, and the pull request's title becomes the reset's title |
| WorkInProgress.WipHandler.CheckLabelAndSetStatus | pkg/plugin/work-in-progress/event_handler.go:169-179 | the client receives exactly the label check's status call |
| WorkInProgress.WipHandler.HandleEvent | pkg/plugin/work-in-progress/event_handler.go:48-118 | an ignored event makes no call and returns nil. A command comment either returns the command handler's result with no call, or runs the registered title check on the loaded pull request. Each pull-request route makes exactly its check's calls on the client. Only the title reset changes the pull request's title |
| FilePatterns.ParseFilePatterns | pkg/plugin/test-keeper/file_pattern_test.go:14-17 | one pattern out per pattern in, in order |
| FilePatterns.RegexFormIsVerbatim | pkg/plugin/test-keeper/file_pattern_test.go:32-41 | `regex{{x}}` parses to `x` for every `x` |
| FilePatterns.GlobAnchoring | pkg/plugin/test-keeper/file_pattern_test.go:21-30 | a directory glob ends in `.*`, every other glob ends in `$`, and no glob gains a leading `^` |
| FilePatterns.ParseFilePatternRoundTrip | pkg/plugin/test-keeper/file_pattern_test.go:21-30 | the glob can be read back from its regular expression; a leading-star name reads back with the implied extra `*` |
| FilePatterns.TranslateGlobRoundTrip | pkg/plugin/test-keeper/file_pattern_test.go:21-30 | translating a glob and reading it back gives the glob, for globs without `\` or `[` |
| FilePatterns.TranslateGlobAppend | pkg/plugin/test-keeper/file_pattern_test.go:21-30 | translation works piece by piece: the translation of `a + b` is that of `a` followed by that of `b`, when `a` does not end in `*` |
| FilePatterns.ParseAnyDepthName | pkg/plugin/test-keeper/file_pattern_test.go:24 | `**/*<stem>.<ext>` parses to `.*/[^/]*<stem>\.<ext>$` |
| FilePatterns.ParseOneLevelName | pkg/plugin/test-keeper/file_pattern_test.go:25 | `*/*<stem>.<ext>` parses to `[^/]*/[^/]*<stem>\.<ext>$` |
| FilePatterns.ParseLeadingStarName | pkg/plugin/test-keeper/file_pattern_test.go:26 | `*<stem>.<ext>` parses to `.*<stem>\.<ext>$` |
| FilePatterns.ParseUnderAnyDepth | pkg/plugin/test-keeper/file_pattern_test.go:27 | `<dir>/**/*<stem>.<ext>` parses to `<dir>/.*/[^/]*<stem>\.<ext>$` |
| FilePatterns.ParseDirectory | pkg/plugin/test-keeper/file_pattern_test.go:28 | `<dir>/` parses to `<dir>/.*` |
| FilePatterns.ParseUnderOneLevelAnyDepth | pkg/plugin/test-keeper/file_pattern_test.go:29 | `<dir>/*/**/*<stem>.<ext>` parses to `<dir>/[^/]*/.*/[^/]*<stem>\.<ext>$` |
| FilePatterns.ParseStarInName | pkg/plugin/test-keeper/file_pattern_test.go:30 | `<stem>*.<ext>` parses to `<stem>[^/]*\.<ext>$` |
| FilePatterns.ParsesAnyDepthJavaTest | pkg/plugin/test-keeper/file_pattern_test.go:24 | `**/*Test.java` parses to `.*/[^/]*Test\.java$` |
| FilePatterns.ParsesOneLevelJavaTest | pkg/plugin/test-keeper/file_pattern_test.go:25 | `*/*Test.java` parses to `[^/]*/[^/]*Test\.java$` |
| FilePatterns.ParsesJavaTestName | pkg/plugin/test-keeper/file_pattern_test.go:26 | `*Test.java` parses to `.*Test\.java$` |
| FilePatterns.ParsesGoTestUnderPkg | pkg/plugin/test-keeper/file_pattern_test.go:27 | `pkg/**/*_test.go` parses to `pkg/.*/[^/]*_test\.go$` |
| FilePatterns.ParsesDirectory | pkg/plugin/test-keeper/file_pattern_test.go:28 | `vendor/` parses to `vendor/.*` |
| FilePatterns.ParsesMixedLevels | pkg/plugin/test-keeper/file_pattern_test.go:29 | `pkg/*/**/*_test.go` parses to `pkg/[^/]*/.*/[^/]*_test\.go$` |
| FilePatterns.ParsesPythonTest | pkg/plugin/test-keeper/file_pattern_test.go:30 | `test_*.py` parses to `test_[^/]*\.py$` |
| FilePatterns.ExtractsRegexp | pkg/plugin/test-keeper/file_pattern_test.go:32-41 | `regex{{my-regexp}}` parses to `my-regexp` |
| TestKeeper.EffectivePatternsMatch | pkg/plugin/test-keeper/plugin/file_categories_test.go:111-127 | a name matches one effective pattern set iff it matches the user's pattern (when set) or a built-in pattern (when the user's is unset or combined) |
| TestKeeper.LoadMatcherMatches | pkg/plugin/test-keeper/plugin/file_categories_test.go:168-278 | the same for both sides of a loaded matcher: unset falls back to the defaults, set replaces them, and `combine` adds to them |
| TestKeeper.Tally | pkg/plugin/test-keeper/plugin/file_categories_test.go:96-109 | the total is the number of files, and tests plus excluded files never exceed it |
| TestKeeper.FileCategoryCounter.Count | pkg/plugin/test-keeper/plugin/file_categories_test.go:14-278 | the loop's tallies are those of `Tally`: excluded files counted first, then the remaining included ones, every file in the total |
| TestKeeper.TestsExistIff | pkg/plugin/test-keeper/plugin/file_categories_test.go:14-94 | tests exist iff some file is included and not excluded |
| TestKeeper.OnlySkippedFilesIff | pkg/plugin/test-keeper/plugin/file_categories_test.go:151-255 | only skipped files iff the changeset is not empty and every file is excluded, whether or not it is also included |
| TestKeeper.AllExcludedIff | pkg/plugin/test-keeper/plugin/file_categories_test.go:151-255 | every file is counted as excluded iff every file matches an exclusion pattern |
| TestKeeper.TallyAppend | pkg/plugin/test-keeper/plugin/file_categories_test.go:129-149 | the tallies of two changesets joined are the sums of their tallies, so a file listed twice counts twice |
| TestKeeper.ChangedFilesSet | pkg/plugin/test-keeper/plugin/file_categories_test.go:284-290 | one changed file per name, in order, each with status "added" |

## Left out

- Webhook payloads are taken as already decoded. JSON decoding and its errors (`event_handler.go:51-55`, `63-67`) are not modelled.
- Logging is not modelled (`pkg/log/log.go` and every `log.*` call).
- The comment command handler that `handlePrComment` registers with is outside the core. `HandleEvent` takes what it did as an input (`CommandRun`): it returned a result without running the registered effect, or it ran the title check on the pull request it loaded.
- WorkInProgress.WipHandler.HandleEvent: the command handler's own GitHub calls (the permission queries, loading the pull request, a denial comment) are not recorded in the client's log. When the effect runs, the handler's result is taken to be the title check's.
- `AllOf`, `constructMessage`, the permission service, the effect functions and the comment service are outside the core. The `Environment` gives their answers per binding. The denial message is a record of its three parts, not formatted text.
- `When` and `By` are modelled as plain record builders. They only collect their arguments, so they carry no contract.
- The status service, the GitHub client and the repository change are outside the core. Their calls are recorded as `Call` values and answered by an oracle.
- A status call records only its state. Its description and details page follow from the state (`StatusDescription`, `StatusDetailsPage`, `event_handler.go:23-31`). An add-label call records the configured label text. The text is split into words (`Fields`) when the call is applied to the labels.
- `LoadConfiguration` reads a per-repository file. Its result is an input.
- Go's regular-expression engine is not modelled. For the work-in-progress title, the one pattern shape the bot builds is written out. It assumes prefixes without regular-expression metacharacters. For the test-keeper, matching is the `RegexpMatch` oracle.
- Text is ASCII: `ToLower`, `TrimSpace` and `Fields` do not handle Unicode case folding or Unicode white space.
- The built-in test-keeper patterns (the per-language defaults) are a parameter of `LoadMatcher`. Their contents are not listed.
- TestKeeper.FileCategoryCounter.Count: does not model the error result of `Count`, because with matching left abstract no error can arise.
- TestKeeper.EffectivePatternsMatch: does not fix the order of the user's and the built-in patterns under `combine`, because only whether some pattern matches is observable.
- The comment-message formatting of the test-keeper and the plugin bootstrap (`plugin_init.go`) are outside the core.
- The implementations of `ParseFilePatterns`, `LoadMatcher` and `FileCategoryCounter.Count` are not part of this model. They are reconstructed from their tests. The glob translation escapes only `.`, because `.` is the only metacharacter the tests use.
