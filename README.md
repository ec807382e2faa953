# claude-auto-commit, modelled in Dafny

This project models the `ClaudeAutoCommit` class of `src/claude-auto-commit.js`. The class reads what changed in a git repository and asks a completion service for a commit message. It then commits the change with that message and can push it.

The model covers the behaviour of that class that decides what text is produced and which git commands are issued:

- **Change summary with a run cache** (`checkForChanges`, `getGitChanges`).
  - The status from `checkForChanges` is cached in `_gitCache` and reused by `getGitChanges`.
  - The branch is cached before the blank-status check.
  - The summary is built section by section.
  - A failed stat query becomes a placeholder instead of an error.
  - The summary is capped at 4000 characters, followed by a marker.
- **Prompt construction** (`buildPrompt`). The prompt is a sequence of instruction sentences, rendered in the Japanese or the English wording and followed by the change summary.
- **The retry controller** (`generateCommitMessage`).
  - It makes at most `maxRetries` attempts; the first reply wins.
  - Between attempts it waits min(1000·2^(k−1), 10000) ms.
  - After the last failure it raises an error built from the attempt count and the last cause.
- **Response extraction**: the first `result` event is consulted, then the first `assistant` event.
- **Smaller pieces**:
  - the commit-message escape in `createCommit`;
  - reuse of the cached branch in `pushChanges`;
  - the template file names and the `listTemplates` filter;
  - the time-to-live of the configuration cache in `loadConfig`, with the `||` merge;
  - the constructor's defaults;
  - option parsing in `parseArgs`, where `-t` implies the conventional format.

The outside world becomes inputs:

- `execAsync` results become `Exec` values (`Ran(stdout)` or `Failed(message)`), grouped in `GitOutputs`.
- The completion service becomes a sequence of `Attempt` outcomes, one per attempt.
- The clock becomes a `now: nat` parameter.
- The configuration file becomes a `ConfigFile` value, and the templates directory a map from file name to contents.
- The git commands issued are recorded in the ghost field `issued`.
- The backoff delays the loop waits come back as a ghost out-parameter.

Modules, one per file:

| module | file | models |
|---|---|---|
| `JsString` | js_string.dfy | `trim`, string truthiness and `||`, the decimal rendering of a count |
| `GitSummary` | git_summary.dfy | the functions that specify `getGitChanges` |
| `AutoCommit` | auto_commit.dfy | the class `ClaudeAutoCommit`, whose fields and methods follow the source |
| `Prompt` | prompt.dfy | `buildPrompt` |
| `Response` | response.dfy | the extraction at lines 249-263 |
| `Retry` | retry.dfy | the attempt outcome, backoff, the exhausted error, and a reference definition of the retry run |
| `Escaping` | escaping.dfy | the escape at line 339, and a reading of a double-quoted shell word |
| `Templates` | templates.dfy | template files, `loadTemplate`, `listTemplates` |
| `Config` | config.dfy | the cache freshness test and the configuration merge |
| `Cli` | cli.dfy | `parseArgs` |
| `Wrappers` | wrappers.dfy | `Option` and `Result` |

Three behaviours of the code that a reader might not expect, which the model follows:

- **Response extraction.** `messages.find` returns the FIRST event of a kind. If that event has an empty result, or its first content element has no text, the later events of that kind are not consulted (`Response.LaterResultIgnored`).
- **The configuration language never applies.** The constructor already sets the language to `'en'` when it is absent. So the `this.language || config.language` merge in `loadConfig` never reaches the file's value (`Config.FileLanguageNeverApplies`), although the help text (lines 552-559) shows a `config.json` that sets `"language": "ja"`.
- **Command-line limits.** `parseArgs` has no flag for `maxRetries` or `timeout`. From the command line both are always their defaults of 3 and 30000.

## Model

| member | source | states |
|---|---|---|
| JsString.TrimIsInfix | src/claude-auto-commit.js:136 | `trim` keeps one contiguous piece of the string and removes only whitespace before and after it; the piece neither starts nor ends with whitespace |
| JsString.TrimEmptyIff | src/claude-auto-commit.js:168 | a trimmed string is empty, and so falsy, exactly when the original is all whitespace |
| JsString.TrimIdempotent | src/claude-auto-commit.js:352 | trimming an already trimmed string changes nothing |
| JsString.OrElse | src/claude-auto-commit.js:13 | `a \|\| b` on strings is `a` when `a` is non-empty, otherwise `b`; it is non-empty exactly when one of them is |
| JsString.NatToString | src/claude-auto-commit.js:273 | a count renders as a non-empty run of decimal digits with no leading zero |
| JsString.NatToStringRoundTrip | src/claude-auto-commit.js:273 | reading the rendered digits back gives the count |
| Config.FreshUntilTtl | src/claude-auto-commit.js:50 | a cached configuration is used exactly while `now` is less than its load time plus 300000 ms; without a cache the file is read |
| Config.FreshnessMonotone | src/claude-auto-commit.js:50 | a configuration fresh at a later time is fresh at every earlier one, and is fresh when it was loaded |
| Config.CacheFresh | src/claude-auto-commit.js:50 | the freshness test of line 50; it has no contract of its own and is specified by `Config.FreshUntilTtl` and `Config.FreshnessMonotone` |
| Config.MergeLanguage | src/claude-auto-commit.js:69 | the language already set wins, then the file's, then "en"; the result is never empty |
| Config.MergeIdempotent | src/claude-auto-commit.js:69-72 | merging the same file a second time changes nothing |
| Config.FileLanguageNeverApplies | src/claude-auto-commit.js:69 | after the constructor's default (line 13), the merged language is the command-line language or "en", never the file's |
| Config.IntendedLanguage | src/claude-auto-commit.js:552-559 | corrected: the language the help text's `config.json` example promises, i.e. the command-line language, else the file's, else "en"; never empty |
| Config.FileJapaneseIgnored | src/claude-auto-commit.js:69 | without `-l`, a file naming "ja" gives "ja" under the intended merge but "en" as written |
| Templates.TemplateFile | src/claude-auto-commit.js:93 | a template is stored in its name followed by ".txt" |
| Templates.SaveTemplate | src/claude-auto-commit.js:93-94 | saving adds the template's file, which then holds the message exactly as given; every other file keeps its contents |
| Templates.LoadTemplate | src/claude-auto-commit.js:102-110 | loading succeeds exactly when the file exists and gives its contents trimmed; otherwise the error `Template "<name>" not found` |
| Templates.SaveThenLoad | src/claude-auto-commit.js:93-106 | loading a template just saved gives the saved message, trimmed |
| Templates.IndexOf | src/claude-auto-commit.js:116 | `indexOf` gives the first position where the pattern occurs, or none when it occurs nowhere |
| Templates.ListedNameNotLoadable | src/claude-auto-commit.js:116 | as written, the template saved as "a.txtb" is listed by `ListTemplates` as "ab.txt", a name under which it cannot be loaded |
| Templates.FirstSuffixInsideName | src/claude-auto-commit.js:116 | in "a.txtb.txt" the first ".txt" lies inside the name, so `replace` removes that one |
| Templates.AsWrittenAgrees | src/claude-auto-commit.js:116 | when ".txt" occurs in no file name before its end, the source's first-occurrence `replace` lists the same names as suffix removal |
| Templates.StripAgrees | src/claude-auto-commit.js:116 | for one such file name ending in ".txt", removing the first ".txt" is removing the suffix |
| Templates.ListedIffStored | src/claude-auto-commit.js:116 | corrected listing (`TemplateNames`, suffix removed): a name is listed exactly when its template file is in the listing |
| Templates.ListedNamesLoad | src/claude-auto-commit.js:116 | corrected listing: every name it lists loads with `loadTemplate` |
| Templates.TemplateNamesAsWritten | src/claude-auto-commit.js:116 | the filter and map of line 116 with first-occurrence `replace`; no contract of its own, specified by `Templates.ListedAsWritten`, `Templates.AsWrittenAgrees` and `Templates.ListedNameNotLoadable` |
| Templates.ListedAsWritten | src/claude-auto-commit.js:116 | as written, a name is listed exactly when it is some `.txt` file name with its first ".txt" removed |
| Templates.AsWrittenIffStored | src/claude-auto-commit.js:116 | as written, when no file name has ".txt" before its end, a name is listed exactly when its template file is in the listing |
| Templates.ListTemplates | src/claude-auto-commit.js:112-120 | `listTemplates` as written: no names when the directory cannot be read; otherwise exactly the `.txt` file names with their first ".txt" removed, which are the stored templates' names when no file name has ".txt" before its end |
| Templates.TemplateNames | src/claude-auto-commit.js:116 | corrected: the `.txt` file names with the suffix removed, at most one per file; specified by `Templates.ListedIffStored` |
| Templates.ListTemplatesBySuffix | src/claude-auto-commit.js:112-120 | corrected `listTemplates`: no names when the directory cannot be read; otherwise exactly the names whose template file is in the listing |
| GitSummary.Truncate | src/claude-auto-commit.js:213-215 | up to 4000 characters: unchanged; longer: exactly the first 4000 characters followed by the marker; never longer than 4000 plus the marker |
| GitSummary.StatSection | src/claude-auto-commit.js:196-207 | one stat section: the labelled output when the stat query ran, the placeholder when it failed; no contract of its own, specified by `GitSummary.StatFailureTextIrrelevant` and `GitSummary.SummaryLayout` |
| GitSummary.Summary | src/claude-auto-commit.js:172-209 | the summary before the cap; no contract of its own, specified by `GitSummary.SummaryLayout`, `GitSummary.StagedSectionFollowsHeader` and `GitSummary.StagedBeforeUnstaged` |
| GitSummary.CapIsExact | src/claude-auto-commit.js:213-215 | for a summary with a non-blank status: kept as it is when it has at most 4000 characters, otherwise cut to 4000 characters plus "\n... (truncated for brevity)" |
| GitSummary.StatKinds | src/claude-auto-commit.js:178-188 | a stat query is issued for each file list that is not blank after trimming, staged first |
| GitSummary.ChangeSummary | src/claude-auto-commit.js:168-215 | an error exactly when the status is blank, with "No changes detected"; otherwise a summary within the cap |
| GitSummary.StatSectionsInOrder | src/claude-auto-commit.js:191-209 | the stat sections are the staged one and then the unstaged one, each present exactly when its file list is not blank |
| GitSummary.SummaryLayout | src/claude-auto-commit.js:172-209 | header, staged list, unstaged list, staged stat section, unstaged stat section, each present exactly when its file list is not blank |
| GitSummary.HeaderShape | src/claude-auto-commit.js:172 | the summary opens with "Branch: ", the trimmed branch, "\n\nStatus:\n", the raw status, "\n\n" |
| GitSummary.FileListsAfterHeader | src/claude-auto-commit.js:172-188 | for any header and tail, text built this way starts with the header, and the staged list follows it exactly when present |
| GitSummary.StagedSectionFollowsHeader | src/claude-auto-commit.js:172-182 | right after the header, the summary continues with "Staged files:\n" if and only if the staged list is not blank |
| GitSummary.BothFileListsInOrder | src/claude-auto-commit.js:178-188 | for any header and tail, with both lists present, the staged list comes first and the unstaged list directly follows it |
| GitSummary.StagedBeforeUnstaged | src/claude-auto-commit.js:178-188 | in the summary itself, with both lists present, the staged list comes first and the unstaged list directly follows it |
| GitSummary.StatFailureTextIrrelevant | src/claude-auto-commit.js:202-207 | the error text of a failed stat query never reaches the summary: any two failures give the same result |
| GitSummary.FirstFailed | src/claude-auto-commit.js:153-158 | the index of the first failed query in issue order, or none exactly when all of them ran |
| GitSummary.FirstFailure | src/claude-auto-commit.js:153-158 | the awaited batch fails exactly when one of its queries did |
| GitSummary.StatCommands | src/claude-auto-commit.js:180-186 | one stat command per stat kind, in the same order |
| GitSummary.GitChanges | src/claude-auto-commit.js:142-221 | the reference result of `getGitChanges`; no contract of its own, specified by `GitSummary.GitChangesOutcome` and `GitSummary.CachedStatusReused`, and implemented by `AutoCommit.ClaudeAutoCommit.GetGitChanges` |
| GitSummary.GitChangesQueries | src/claude-auto-commit.js:145-187 | the reference list of git commands `getGitChanges` issues; no contract of its own, specified by `GitSummary.CachedStatusNotQueried` and `GitSummary.NoStatQueryWhenBlank` |
| GitSummary.GitChangesOutcome | src/claude-auto-commit.js:142-221 | `getGitChanges` fails exactly when one of the four queries fails or the status is blank; a blank status gives "Failed to get git changes: No changes detected"; every error carries that prefix, and a failed query gives the first failure's message after it; success gives the capped summary |
| GitSummary.CachedStatusNotQueried | src/claude-auto-commit.js:146-150 | with a cached status, no status query is issued |
| GitSummary.CachedStatusReused | src/claude-auto-commit.js:146-150 | with a cached status, what a fresh status query would answer does not affect the result |
| GitSummary.NoStatQueryWhenBlank | src/claude-auto-commit.js:168-170 | a blank status issues neither stat query |
| Prompt.Sentences | src/claude-auto-commit.js:287-317 | opens with the request and closes with output-only; conventional format exactly with `conventionalCommit`; the commit-type sentence exactly with it and a non-empty type, naming that type; emoji exactly with `useEmoji` |
| Prompt.SentenceOrder | src/claude-auto-commit.js:290-317 | the sentence count follows from the options; conventional format comes second, the type sentence third, the emoji sentence just before the closing one |
| Prompt.PromptIn | src/claude-auto-commit.js:284-323 | for any wording, the prompt opens with the request and ends with "\n\nChanges:\n" followed by the changes |
| Prompt.BuildPrompt | src/claude-auto-commit.js:284-323 | the prompt opens with the selected template's request and ends with "\n\nChanges:\n" followed by the changes |
| Prompt.LanguageSelectsTemplate | src/claude-auto-commit.js:287 | the prompt opens with the Japanese request exactly when the language is "ja", and with the English one exactly otherwise |
| Prompt.EnglishDistinct | src/claude-auto-commit.js:304-317 | the English fixed sentences are pairwise different, and none ends like the commit-type sentence |
| Prompt.JapaneseDistinct | src/claude-auto-commit.js:288-301 | the Japanese fixed sentences are pairwise different, and none ends like the commit-type sentence |
| Prompt.TemplatesDistinct | src/claude-auto-commit.js:287-317 | both templates have distinct sentences |
| Prompt.TextInjective | src/claude-auto-commit.js:287-317 | in such a template, two sentences with the same words are the same sentence, including the commit type they name |
| Prompt.SentenceInPrompt | src/claude-auto-commit.js:284-323 | the words of every selected sentence occur in the prompt |
| Prompt.FixTypeScenario | src/claude-auto-commit.js:306-310 | an English conventional prompt with type "fix" contains ` Use "fix" as the commit type.` and has no emoji sentence |
| Response.FindFirst | src/claude-auto-commit.js:249-255 | `find` gives the first event of the kind, or none exactly when there is none |
| Response.Extract | src/claude-auto-commit.js:249-263 | the reply of one call; no contract of its own, specified by `Response.ResultPreferred`, `Response.AssistantFallback`, `Response.NoReplyIff` and `Response.ReplyIsTrimmed` |
| Response.ResultPreferred | src/claude-auto-commit.js:249-252 | a non-empty result in the first result event is the reply, trimmed, ahead of any assistant event |
| Response.AssistantFallback | src/claude-auto-commit.js:249-261 | when the first result event, if any, has an empty result, the non-empty text of the first assistant event's first content element is the reply, trimmed |
| Response.LaterResultIgnored | src/claude-auto-commit.js:249-250 | only the first result event is consulted: an empty one hides a later non-empty one |
| Response.FallbackPastLaterResult | src/claude-auto-commit.js:249-261 | an empty first result event hands over to the assistant text even when a later result event has text |
| Response.NoReplyIff | src/claude-auto-commit.js:249-263 | there is no reply exactly when neither the first result event nor the first assistant event offers non-empty text |
| Response.ReplyIsTrimmed | src/claude-auto-commit.js:250-259 | a reply is the trimmed form of a non-empty text from one of the events; it is its own trim and may be empty |
| Retry.AttemptOutcome | src/claude-auto-commit.js:236-269 | a timeout or a failure is an error carrying its message; events give the extracted reply, or "No valid response received from Claude" when there is none |
| Retry.BackoffSchedule | src/claude-auto-commit.js:277-279 | after the k-th failed attempt, the k-th recorded delay is min(1000·2^(k−1), 10000) |
| Retry.Backoff | src/claude-auto-commit.js:277 | `Math.min(1000 * 2^(attempt - 1), 10000)`; no contract of its own, specified by `Retry.BackoffValues` and `Retry.BackoffBoundedMonotone` |
| Retry.BackoffValues | src/claude-auto-commit.js:277 | the delays are 1000, 2000, 4000 and 8000 ms, then 10000 ms from the fifth attempt on |
| Retry.BackoffBoundedMonotone | src/claude-auto-commit.js:277 | each delay lies between 1000 and 10000 ms, and no delay is shorter than the one before |
| Retry.ExhaustedMessage | src/claude-auto-commit.js:273 | the final error starts with "Failed to generate commit message after " and ends with the last cause |
| Retry.ExhaustedMessageInjective | src/claude-auto-commit.js:273 | the attempt count and the cause can be read back from the final error |
| Retry.FirstSuccess | src/claude-auto-commit.js:226-252 | the first successful attempt among the allowed ones, with every earlier one failed; none exactly when all of them failed |
| Retry.AttemptsMade | src/claude-auto-commit.js:226 | a run makes between 1 and `maxRetries` attempts |
| Retry.RetryOutcome | src/claude-auto-commit.js:226-274 | the reference outcome of a run; no contract of its own, specified by `Retry.RetrySucceedsIff` and `Retry.RetryUnfold`, and implemented by `AutoCommit.ClaudeAutoCommit.GenerateCommitMessage` |
| Retry.RetrySucceedsIff | src/claude-auto-commit.js:226-274 | a run succeeds exactly when one of its allowed attempts does, with that attempt's reply; otherwise it fails with the exhausted error carrying the last cause; later attempts never matter |
| Retry.RetryUnfold | src/claude-auto-commit.js:226-274 | a successful first attempt ends the run after one attempt; a failed first attempt ends it when it was the only one allowed, or leaves the rest of the run to the remaining attempts |
| Retry.DelaysOfRun | src/claude-auto-commit.js:272-279 | a run of k attempts waits k − 1 times, fewer than `maxRetries` times, only after failed attempts and never longer than the cap |
| Escaping.ReplaceAll | src/claude-auto-commit.js:339 | after a global replacement by text without that character, the character no longer occurs |
| Escaping.QuoteEscape | src/claude-auto-commit.js:339 | the escape as written; no contract of its own, specified by `Escaping.QuoteEscapePerCharacter` and `Escaping.UnescapeQuoteEscape` |
| Escaping.QuoteEscapePerCharacter | src/claude-auto-commit.js:339 | the two chained replacements put a backslash before each `"` and each `$` and keep every other character, backslashes included |
| Escaping.UnescapeQuoteEscape | src/claude-auto-commit.js:339 | removing the inserted backslashes gives back the message |
| Escaping.BacktickNotQuoted | src/claude-auto-commit.js:339-340 | as written, the message "`" (an unescaped backtick) opens a command substitution and does not reach git |
| Escaping.BackslashesCollapse | src/claude-auto-commit.js:339-340 | as written, the message of two backslashes reaches git as one |
| Escaping.ShellEscapeRoundTrip | src/claude-auto-commit.js:339-340 | once `\`, `"`, `$` and backtick are escaped, every message reads back exactly from the double-quoted word |
| Escaping.EscapeQuoteDollarRoundTrip | src/claude-auto-commit.js:339 | for a message without backslashes and backticks, the per-character escape reads back as the message from the double-quoted word |
| Escaping.CommitCommand | src/claude-auto-commit.js:340 | the source's command: "git commit -m ", a double quote, the message escaped as in line 339, a closing double quote |
| Escaping.CommitCommandPlainMessage | src/claude-auto-commit.js:339-340 | the source's command carries a message with no backslash and no backtick as its last word, `"` and `$` included |
| Escaping.CommitCommandBacktick | src/claude-auto-commit.js:339-340 | the source's command for the message "`" is not a literal word: the shell would run a command substitution |
| Escaping.ShellCommitCommand | src/claude-auto-commit.js:340 | corrected: the command built with `ShellEscape`, two characters longer than the prefix plus the escaped message |
| Escaping.ShellCommitCommandCarriesMessage | src/claude-auto-commit.js:339-340 | corrected: the last word of the command built with `ShellEscape` is the message itself, whatever it contains |
| Cli.ParseArgs | src/claude-auto-commit.js:467-567 | the loop, which moves past a flag's value inside its body, computes the command that the reference `ParseFrom` gives |
| Cli.ParseFrom | src/claude-auto-commit.js:471-564 | the reference effect of the arguments from an index on; no contract of its own, specified by `Cli.ParseKeepsConsistency`, `Cli.FlagsStayGiven`, `Cli.ValueTakesNextArgument` and `Cli.NonFlagIgnored`, and implemented by `Cli.ParseArgs` |
| Cli.ParseKeepsConsistency | src/claude-auto-commit.js:485-489 | whatever arguments follow, a run with a commit type has the conventional format, and the conventional format once on stays on |
| Cli.FlagsStayGiven | src/claude-auto-commit.js:477-501 | no later argument turns emoji, verbose, dry run or push back off |
| Cli.TypeFlagImpliesConventional | src/claude-auto-commit.js:485-489 | from the command line, a commit type comes with the conventional format, and a run started with `-t` or `--type` always has it |
| Cli.ValueTakesNextArgument | src/claude-auto-commit.js:473-504 | for every argument list and index: `-l`, `-t` and `--template` take the next argument as their value whatever it is, flags included, and parsing resumes after it; at the end of the list they set their option to the absent value, overriding an earlier one (`-t` still turns on the conventional format), and the parse ends |
| Cli.FlagAsValue | src/claude-auto-commit.js:473-489 | two instances: `-l -e` sets the language to "-e" and leaves emoji off; a lone `-t` sets no type but the conventional format |
| Cli.NonFlagIgnored | src/claude-auto-commit.js:505-507 | an argument that is not a flag, and `--save-template`, leave the options unchanged |
| AutoCommit.AppendFileLists | src/claude-auto-commit.js:178-188 | appends each non-blank file list to the header, staged first, and returns the stat kinds they call for |
| AutoCommit.AppendStatSections | src/claude-auto-commit.js:191-209 | the loop appends one stat section per kind, in issue order, so the text ends with exactly the specified stat sections |
| AutoCommit.AssembleChanges | src/claude-auto-commit.js:172-215 | the text built step by step is the capped summary, with its stat kinds |
| AutoCommit.DescribeStatus | src/claude-auto-commit.js:168-215 | a blank status is the "No changes detected" error with no stat query; otherwise the capped summary and the stat queries of its file lists |
| AutoCommit.ClaudeAutoCommit.constructor | src/claude-auto-commit.js:12-29 | each option or its default ("en", 3 attempts, 30000 ms), with both caches empty |
| AutoCommit.ClaudeAutoCommit.LoadConfig | src/claude-auto-commit.js:46-86 | a fresh cache is returned with nothing changed. A parsed file is returned, cached at `now` and merged into the options, an option already set winning. A missing or unreadable file gives nothing and changes nothing |
| AutoCommit.ClaudeAutoCommit.ApplyConfig | src/claude-auto-commit.js:65-72 | caches the configuration at `now` and sets the options to their merge with it |
| AutoCommit.ClaudeAutoCommit.CheckForChanges | src/claude-auto-commit.js:131-140 | issues one status query. On success it caches the output and reports changes exactly when the output is not blank. On failure it gives "Failed to check git status: " plus the cause and caches nothing |
| AutoCommit.ClaudeAutoCommit.GetGitChanges | src/claude-auto-commit.js:142-221 | the result is the specified one for the cached status; the commands issued are the specified ones; the branch is cached exactly when the four queries succeeded, blank status or not |
| AutoCommit.ClaudeAutoCommit.PromptFor | src/claude-auto-commit.js:224 | the prompt built from the object's options opens with its language's request and ends with the changes |
| AutoCommit.ClaudeAutoCommit.GenerateCommitMessage | src/claude-auto-commit.js:223-282 | the loop's result is the reference outcome of the run, after the specified number of attempts, having waited the backoff schedule |
| AutoCommit.ClaudeAutoCommit.PushChanges | src/claude-auto-commit.js:347-365 | with a branch cached, pushes to it trimmed without a branch query; otherwise queries the branch and pushes to the trimmed answer; failures are reported, not raised |
| AutoCommit.ClaudeAutoCommit.CreateCommit | src/claude-auto-commit.js:338-345 | issues one `git commit -m` with the message escaped as at line 339; a failure becomes an error with the "Failed to create commit: " prefix |
| AutoCommit.CheckDescribeCommitPush | src/claude-auto-commit.js:393-442 | in a run's order the status is queried once and the branch once. The git commands issued and the cache are stated on every path. A failed status query issues only that query and caches nothing. A blank status issues only the status query, caches it and ends with no changes. A failed batch query issues only `getGitChanges`'s queries and gives its prefixed error. A dry run adds nothing after them. Otherwise the escaped message is committed, and the push to the trimmed branch of that one query is issued only when the push option is set and the commit succeeded |

## Left out

- `run()` orchestration is modelled only as its git steps in `CheckDescribeCommitPush`.
  - `stageAllChanges` (`git add .`) runs between `checkForChanges` and `getGitChanges`, so the status `getGitChanges` reuses predates the staging. The model does not represent the staging.
  - The template/generation choice, `--save-template` handling in a dry run, `showStatistics`, the banner and the exit code are not modelled.
- AutoCommit.CheckDescribeCommitPush: returns `Ok("")` for a clean repository, where `run()` prints a notice and returns; it takes the commit message as a parameter instead of loading a template or calling `generateCommitMessage`, and leaves out `stageAllChanges`. A failed step ends the sequence with its error, where `run()` prints it and exits.
- `checkGitRepository` and `measure` are not modelled: one only probes for a repository, the other only times and logs.
- Process execution, the filesystem and `os.homedir()` become parameters. The configuration file is its parsed contents, the templates directory a map, and git's answers `Exec` values. `saveTemplate`'s `mkdir` and error printing, and path joining, are not modelled. A name with `/` or `..` is taken as a plain file name.
- Concurrency:
  - `Promise.all` is modelled as issuing its queries in order and failing with the first failure in that order. JavaScript rejects with the first failure in time.
  - `Promise.allSettled` keeps issue order, as the model does.
- `AbortController`, `setTimeout` and real waiting: a timeout is an `Attempt` outcome, and a wait is a delay recorded in a ghost sequence.
- `JSON.parse`: the file is given already parsed. A JSON value that is not an object, and truthy non-boolean values of the flags, are not modelled. The options are modelled as strings and booleans, so falsy values other than `""`, `false` and `0` do not arise.
- Strings are sequences of code points, not UTF-16 code units. `length`, `substring` and the 4000-character cap count characters.
- Console output, the help and version texts and `process.exit` are not modelled. The `--list-templates` branch of `parseArgs` is a separate outcome: in the source its listing runs concurrently with a `run()` started with default options, and that race is not modelled.
- Escaping.DoubleQuoted: reads an unescaped `$` as a possible expansion, without telling `$` followed by a non-name character apart.
- AutoCommit.ClaudeAutoCommit.GenerateCommitMessage:
  - requires at least `maxRetries` outcomes, one per attempt the loop may make;
  - does not pass the prompt to the completion service, which is an oracle of outcomes;
  - `maxRetries` is a natural number, so negative or fractional counts are not modelled.
- AutoCommit.ClaudeAutoCommit.LoadConfig: the configuration file's contents are modelled by the four fields the merge reads.
- Prompt.SentenceInPrompt: the presence of each selected sentence is stated on the prompt text. For an unselected sentence, absence is stated on the sentence sequence (`Prompt.Sentences`), and `Prompt.TextInjective` shows the texts tell sentences apart. It is not stated as a substring fact about the prompt.

## Findings

| source | as written | input that shows it | evidently intended | confidence | as-written member | corrected member |
|---|---|---|---|---|---|---|
| src/claude-auto-commit.js:339 | only `"` and `$` are escaped before the message is put between double quotes in a shell command | the message consisting of one backtick (command substitution), or of two backslashes (git receives one) | every message reaches git unchanged, which also needs `\` and backtick escaped | not executed | Escaping.CommitCommandBacktick | Escaping.ShellCommitCommandCarriesMessage |
| src/claude-auto-commit.js:116 | `replace('.txt', '')` removes the first ".txt", not the suffix | a template saved as "a.txtb" (file "a.txtb.txt") is listed as "ab.txt", which does not load | list the name under which the template was saved | not executed | Templates.ListedNameNotLoadable | Templates.ListTemplatesBySuffix |
| src/claude-auto-commit.js:13 | the constructor defaults the language to "en", so the merge at line 69 never reaches `config.language` | no `-l` flag and a `config.json` with `"language": "ja"`, as the help text at lines 552-559 shows: the prompt is in English | the command-line language, else the file's, else "en" | not executed | Config.FileLanguageNeverApplies | Config.IntendedLanguage |
