# CodeAgent webhook service — a Dafny model

CodeAgent is a GitHub webhook service written in Go.

- **Webhook handling.** It receives `issues`, `issue_comment`, `pull_request`, `pull_request_review_comment` and `ping` events. It finds the first slash command (`/code`, `/continue`, `/fix`, `/help`) in the Issue or comment text and answers with a comment on the Issue or pull request.
- **`/code` and the automatic fix pipeline.** `/code` on an Issue clones the repository and asks an AI command-line tool for a modification plan as JSON. It applies the plan to the working tree, commits and pushes on a fresh `auto-fix-issue-<n>-<time>` branch, opens a pull request and reports back. The cloned directory is always removed afterwards.
- **Workspace cache and rate limit.** Clones are rate-limited per URL and cached per URL and branch.
- **Other pieces.** There is a conventional-commit message builder, helpers for the AI CLI adapter, and an earlier "demo" variant of the service. The demo has its own webhook handler with HMAC signature checking, and its event processor only posts generated text.

The model is organised by source file:

| module | file | models |
|---|---|---|
| `Text` | text.dfy | byte strings, Go's `strings` helpers on ASCII, decimal and hexadecimal codecs |
| `Models` | models.dfy | the GitHub payload records (`internal/models/github.go`) |
| `Effects` | effects.dfy | the collaborators: every git, GitHub and AI call is a `Call` value appended to a log, and its outcome is an `Answer` drawn from a `World` function of the log so far |
| `CommitBuilder` | commit_builder.dfy | `internal/services/commit_builder.go` |
| `Commands` | commands.dfy | the routers, command extraction, reply target, project context and the text-only handlers, which both event processors share |
| `EventProcessor` | event_processor.dfy | `internal/services/event_processor.go`: the `/code` pipeline with its deferred cleanup |
| `Git` | git_service.dfy | `internal/services/git.go`: the `GitService` class with its two maps, and a `Workspace` class for the file map |
| `DemoEventProcessor` | demo_event_processor.dfy | `webhook-demo/internal/services/event_processor.go` |
| `Webhook` | webhook.dfy | `webhook-demo/internal/handlers/webhook.go` |
| `ClaudeCli` | claude_cli.dfy | the pure parts of `internal/services/claude_code_cli.go` |

Strings are byte sequences, because the source slices and measures strings in bytes. Go's whitespace and case helpers are modelled on ASCII. The clock is an integer nanosecond value passed in. Timestamps formatted as text are passed in as bytes.

The order in which the pipeline runs is stated through a stage number on every call:

> clone < file tree < configure < analyse < branch < plan < file writes < stage < status < commit < push < pull request < comment < cleanup

`Ordered(log)` says these stages never go down along a log.

## Model

| member | source | states |
|---|---|---|
| CommitBuilder.NameLetters | internal/services/commit_builder.go:14-26 | every named commit type is a non-empty run of lower-case letters |
| CommitBuilder.NamedTypePlain | internal/services/commit_builder.go:14-26 | every named type is plain: single-line, without `:` or `(`, not ending in `!` |
| CommitBuilder.TrimTrailingSlashes | internal/services/commit_builder.go:115 | the input with its trailing slashes removed, as `filepath.Base` does first; no slash is left at its end |
| CommitBuilder.CleanElemsConcat | internal/services/commit_builder.go:114 | `filepath.Clean`'s pass over two element lists in a row is the pass over the second, started from what the first kept |
| CommitBuilder.CleanKeepsRegular | internal/services/commit_builder.go:114 | elements other than empty, `.` and `..` are all kept, in order |
| CommitBuilder.CleanDropsVanishing | internal/services/commit_builder.go:114 | an empty or `.` element anywhere does not change what the pass keeps |
| CommitBuilder.CleanCancelsParent | internal/services/commit_builder.go:114 | a regular element followed by `..` does not change what the pass keeps |
| CommitBuilder.CleanOfClean | internal/services/commit_builder.go:114 | a relative path of regular elements is its own Clean, with or without a trailing `/` |
| CommitBuilder.CleanRepeatedSlash | internal/services/commit_builder.go:114 | Clean treats `//` as `/` |
| CommitBuilder.CleanDotElement | internal/services/commit_builder.go:114 | Clean drops a `/./` element |
| CommitBuilder.CleanParentElement | internal/services/commit_builder.go:114 | Clean cancels `e/..` for a regular element `e` |
| CommitBuilder.DirOfFile | internal/services/commit_builder.go:114 | `filepath.Dir` of `prefix/name` is Clean of `prefix/` |
| CommitBuilder.BaseOfFile | internal/services/commit_builder.go:115 | `filepath.Base` of `prefix/name` is `name` |
| CommitBuilder.DirBase | internal/services/commit_builder.go:114-115 | for a relative `d` of regular elements, `filepath.Dir` and `filepath.Base` of `d/name` give back `d` and `name` |
| CommitBuilder.RepeatedSlashSameDir | internal/services/commit_builder.go:114-115 | `a//b/name` has the directory and file name of `a/b/name` |
| CommitBuilder.RepeatedSlashSameScope | internal/services/commit_builder.go:113-152 | `a//b/name` has the scope of `a/b/name`, e.g. `internal//handlers/x.go` is `handlers` |
| CommitBuilder.ParentElementSameDir | internal/services/commit_builder.go:114-115 | `a/e/../b/name` has the directory and file name of `a/b/name` |
| CommitBuilder.ParentElementSameScope | internal/services/commit_builder.go:113-152 | `a/e/../b/name` has the scope of `a/b/name`, e.g. `internal/handlers/../services/x.go` is `services` |
| CommitBuilder.FirstRuleSkip | internal/services/commit_builder.go:117-151 | rules that do not hold before position k do not affect the first matching rule |
| CommitBuilder.FirstRuleHit | internal/services/commit_builder.go:117-151 | the first rule that holds gives the scope |
| CommitBuilder.FirstRuleNone | internal/services/commit_builder.go:117-151 | no scope iff no rule holds |
| CommitBuilder.FirstRuleAppend | internal/services/commit_builder.go:117-151 | a rule list tried after another is consulted only when the first gives no scope |
| CommitBuilder.DirectoryRulesFirst | internal/services/commit_builder.go:117-151 | the directory rules are tried before the file-name rules |
| CommitBuilder.RuleScopesNonEmpty | internal/services/commit_builder.go:117-151 | every rule names a non-empty scope |
| CommitBuilder.FileScopeNone | internal/services/commit_builder.go:113-152 | getFileScope gives "" iff no rule holds for the file |
| CommitBuilder.HandlersBeforeTest | internal/services/commit_builder.go:118-140 | a file in a clean relative directory containing `internal/handlers` has scope `handlers`, even when its name marks a test |
| CommitBuilder.DirPatternsLong | internal/services/commit_builder.go:118-135 | every directory pattern is a substring test longer than three bytes |
| CommitBuilder.ShortDirMissesDirRules | internal/services/commit_builder.go:118-135 | a directory of at most three bytes never matches a directory rule |
| CommitBuilder.TopLevelCmdFile | internal/services/commit_builder.go:114-151 | `cmd/<name>` has directory `cmd`, which does not contain `cmd/`, so only the file-name rules apply |
| CommitBuilder.TallyStep | internal/services/commit_builder.go:92-97 | one loop step adds one to the count of the file's scope and leaves the other counts unchanged |
| CommitBuilder.TallyPositive | internal/services/commit_builder.go:92-97 | a scope some file has is counted at least once |
| CommitBuilder.TallyZero | internal/services/commit_builder.go:92-97 | a scope no file has has count zero |
| CommitBuilder.TallyWitness | internal/services/commit_builder.go:92-97 | a positive count has a file with that scope |
| CommitBuilder.CountScopes | internal/services/commit_builder.go:90-97 | the map holds exactly the non-empty scopes, each with its count over the files |
| CommitBuilder.MostFrequent | internal/services/commit_builder.go:100-109 | "" iff the map is empty; otherwise a key whose count is at least every other key's |
| CommitBuilder.DetectScope | internal/services/commit_builder.go:89-110 | the result is a most frequent scope; it is "" iff no file has a scope, and otherwise some file has it |
| CommitBuilder.FirstGroupIsFirst | internal/services/commit_builder.go:155-218 | the first group with a keyword present decides the type |
| CommitBuilder.FirstGroupNone | internal/services/commit_builder.go:155-218 | no group decides iff no keyword of any group is present |
| CommitBuilder.FirstMatching | internal/services/commit_builder.go:155-218 | if some group matches, there is a first one that matches |
| CommitBuilder.GroupTypesDistinct | internal/services/commit_builder.go:161-217 | the keyword groups name different types, none of them `feat` |
| CommitBuilder.DetectCommitTypeOrder | internal/services/commit_builder.go:155-218 | the type is group k's iff group k matches and no earlier group does; it is `feat` iff no group matches |
| CommitBuilder.FixKeywordGivesFix | internal/services/commit_builder.go:156-166 | the type is `fix` iff a fix keyword occurs in the lower-cased title and body |
| CommitBuilder.KeywordIn | internal/services/commit_builder.go:162-214 | a keyword that occurs makes its group match |
| CommitBuilder.EarlyGroupWins | internal/services/commit_builder.go:155-218 | when group k matches, the type comes from group k or an earlier group |
| CommitBuilder.PerfPhraseShadowed | internal/services/commit_builder.go:161-197 | "优化性能" yields `refactor` (or `fix`), never `perf`, because the refactor group is tried first |
| CommitBuilder.DockerShadowed | internal/services/commit_builder.go:161-213 | "docker" yields docs-or-earlier, never `build`, because docs' "doc" keyword matches first |
| CommitBuilder.UpperCaseBugIsFix | internal/services/commit_builder.go:156-166 | every title that lower-cases to something starting with `bug` (e.g. "BUG: crash") is a fix |
| CommitBuilder.ToLowerIdempotent | internal/services/commit_builder.go:156 | lower-casing twice is lower-casing once |
| CommitBuilder.DetectIgnoresCase | internal/services/commit_builder.go:155-218 | texts that lower-case alike get the same type, and lower-casing them first changes nothing |
| CommitBuilder.CleanDescription | internal/services/commit_builder.go:222-231 | the cleaned title is trimmed |
| CommitBuilder.StripEmoji | internal/services/commit_builder.go:233-236 | the result of removing the three emoji is trimmed |
| CommitBuilder.BuildDescription | internal/services/commit_builder.go:221-244 | at most 50 bytes; the cleaned title unchanged when it fits; otherwise its first 47 bytes and `...` |
| CommitBuilder.NoEmojiByte | internal/services/commit_builder.go:234-236 | ASCII text contains none of the emoji |
| CommitBuilder.DescriptionDropsIssueToken | internal/services/commit_builder.go:223-231 | a leading `#token ` is dropped from an ASCII title |
| CommitBuilder.TrimThenDrop | internal/services/commit_builder.go:223-231 | trimming, then dropping the `#token`, leaves the rest of the title |
| CommitBuilder.StripEmojiAscii | internal/services/commit_builder.go:234-236 | removing the emoji changes nothing in trimmed ASCII text |
| CommitBuilder.DropTokenOf | internal/services/commit_builder.go:226-231 | dropping the token from `#tok rest` gives `rest` |
| CommitBuilder.RemovalKeeps | internal/services/commit_builder.go:234-236 | removing one emoji from trimmed ASCII text gives it back |
| CommitBuilder.Format | internal/services/commit_builder.go:247-279 | the builder's appends produce the rendered message |
| CommitBuilder.FirstLine | internal/services/commit_builder.go:250-264 | the first line is a prefix with no newline |
| CommitBuilder.ColonSpaceIndex | internal/services/commit_builder.go:251-264 | the first `: ` of a header sits right after its type and scope |
| CommitBuilder.BangSuffix | internal/services/commit_builder.go:259-261 | the header prefix ends in `!` iff the change is breaking |
| CommitBuilder.ParseBuiltHead | internal/services/commit_builder.go:251-261 | the header prefix parses back to type, scope and breaking flag |
| CommitBuilder.ParseBuiltKeyword | internal/services/commit_builder.go:251-257 | `type(scope)` parses back to the type and scope |
| CommitBuilder.ParseBuiltHeader | internal/services/commit_builder.go:251-264 | a composed header parses back to its four parts |
| CommitBuilder.HeaderRoundTrip | internal/services/commit_builder.go:250-264 | for a plain type and a scope without `:`, parsing the header recovers its type, scope, breaking flag and description |
| CommitBuilder.BangTypeReadsBreaking | internal/services/commit_builder.go:250-264 | a type `k!` without scope writes the first line of the breaking type `k` and reads back as that, so the round trip needs the type not to end in `!` |
| CommitBuilder.FirstLineIsHeader | internal/services/commit_builder.go:247-279 | when type, scope and description are single-line, the message's first line is its header |
| CommitBuilder.RenderShape | internal/services/commit_builder.go:250-270 | the message starts with the header, and a body follows a blank line |
| CommitBuilder.FooterLast | internal/services/commit_builder.go:273-276 | a footer ends the message after a blank line |
| CommitBuilder.UnscopedPrefix | internal/services/commit_builder.go:251-264 | without scope or `!`, the message starts with `type: ` |
| CommitBuilder.BuildManualCommit | internal/services/commit_builder.go:282-292 | any type text; never breaking; for a plain type, single-line scope and description and a scope without `:`, the first line parses back to the type, scope and description given |
| CommitBuilder.AutoFixFooterCloses | internal/services/commit_builder.go:61 | the footer starts with `Closes #<issue number>` |
| CommitBuilder.AutoFixBodyListsFiles | internal/services/commit_builder.go:58 | the body lists every modified file |
| CommitBuilder.RenderContainsBody | internal/services/commit_builder.go:267-270 | a non-empty body appears in the message |
| CommitBuilder.BuildAutoFixCommit | internal/services/commit_builder.go:47-72 | detected type and a most frequent scope; the message ends with the `Closes` footer and names every modified file |
| CommitBuilder.BuildPRCommit | internal/services/commit_builder.go:75-86 | no scope; starts with `type: `; ends with the `PR #n` footer |
| Commands.Route | internal/services/event_processor.go:33-156 | unknown types are ignored; `pull_request` and `ping` never run a command; a command is looked for iff the payload decodes and the action is `opened` (issues) or `created` (comments); a decode failure is the only rejection |
| Commands.RouteContexts | internal/services/event_processor.go:157-263 | the reply context carries the Issue unless the event is a review comment, and the pull request only then; the text inspected is the Issue body or the comment body |
| Commands.SkipRe2Space | internal/services/event_processor.go:28 | `\s*` consumes a maximal run of RE2 whitespace |
| Commands.SkipRe2Cut | internal/services/event_processor.go:28 | every byte skipped by `\s*` is RE2 whitespace |
| Commands.MatchName | internal/services/event_processor.go:28 | the regex alternative that matches is a command name the line starts with; none iff no name is a prefix |
| Commands.MatchNameOf | internal/services/event_processor.go:28 | a line starting with a command name matches that name |
| Commands.CommandLineArgs | internal/services/event_processor.go:28 | `/name rest` matches with `rest` after `\s*` |
| Commands.SkipThenTrim | internal/services/event_processor.go:269-274 | trimming the captured arguments gives the same result as trimming `rest` |
| Commands.CommandOnLine | internal/services/event_processor.go:264-280 | `/name args` parses into the command with those arguments; no separator is needed, so `/codex` is `/code` with argument `x` |
| Commands.FirstMatchNone | internal/services/event_processor.go:268-279 | the scan finds nothing iff no line parses |
| Commands.FirstMatchFirst | internal/services/event_processor.go:268-279 | what the scan finds is the first line that parses |
| Commands.FirstCommandNone | internal/services/event_processor.go:264-280 | extractCommand gives nil iff no line is a command |
| Commands.FirstCommandFirst | internal/services/event_processor.go:264-280 | the command found is the first command line; the earlier lines are not commands |
| Commands.FirstCommandWins | internal/services/event_processor.go:268-277 | later command lines are ignored |
| Commands.ExtractCommand | internal/services/event_processor.go:264-280 | the loop returns the first command line's command; its name is one of the four and its arguments are trimmed |
| Commands.ScanLines | internal/services/event_processor.go:268-279 | the loop returns the first line's parse that succeeds |
| Commands.ParsedCommandShape | internal/services/event_processor.go:270-276 | a parsed command has a known name and trimmed arguments |
| Commands.HandlerFor | internal/services/event_processor.go:283-300 | a handler exists iff the name is one of the four |
| Commands.ReplyTarget | internal/services/event_processor.go:452-470 | fails unless the full name splits into two parts; otherwise takes the Issue number, then the pull request number, else fails; the owner and repository are the two parts |
| Commands.ReplyTargetOwnerRepo | internal/services/event_processor.go:452-470 | `owner/repo` with an Issue or pull request gives that owner and repository |
| Commands.ReplyResultFailure | internal/services/event_processor.go:452-470 | replying fails only with a reply-target or GitHub error |
| Commands.CreateResponse | internal/services/event_processor.go:452-470 | exactly one comment is posted on the chosen target, or nothing and the target error |
| Commands.BuildProjectContext | internal/services/event_processor.go:473-511 | the builder's appends produce the project context |
| Commands.WriteRepository | internal/services/event_processor.go:476-480 | the repository section |
| Commands.WriteIssue | internal/services/event_processor.go:482-495 | the Issue section, labels joined by `, ` |
| Commands.WritePullRequest | internal/services/event_processor.go:497-504 | the pull request section |
| Commands.WriteUser | internal/services/event_processor.go:506-508 | the user section |
| Commands.ProjectContextSections | internal/services/event_processor.go:473-511 | starts with the repository section and ends with the user section; holds the Issue and pull request sections when present |
| Commands.ProjectContextLabels | internal/services/event_processor.go:489-494 | every Issue label's name appears in the context |
| Commands.TruncateString | internal/services/event_processor.go:650-655 | unchanged when it fits; otherwise the first maxLen bytes and `...` |
| Commands.TruncateForgetsTail | internal/services/event_processor.go:650-655 | truncated strings that agree on the kept bytes give the same result |
| Commands.HandleContinue | internal/services/event_processor.go:331-374 | asks the backend to continue with the project context, then replies with its answer or its error |
| Commands.HandleFix | internal/services/event_processor.go:375-419 | asks the backend to fix with the project context, then replies with its answer or its error |
| Commands.HandleHelp | internal/services/event_processor.go:420-451 | replies with the help text and calls nothing else |
| EventProcessor.BranchName | internal/services/event_processor.go:571-573 | the branch name is `auto-fix-issue-<n>-` followed by the time stamp |
| EventProcessor.IssueBranchInjective | internal/services/event_processor.go:638-639 | different Issue numbers give different branch prefixes |
| EventProcessor.DecimalInjective | internal/services/event_processor.go:572-573 | `%d` is injective |
| EventProcessor.JsonSpanUnique | internal/services/event_processor.go:755-762 | the JSON span runs from the first `{` to the last `}` |
| EventProcessor.ParseModificationResultSpan | internal/services/event_processor.go:753-770 | no span iff there is no `{`, no `}`, or the last `}` is not after the first `{`; otherwise the span's decoding decides the outcome |
| EventProcessor.PlanInProse | internal/services/event_processor.go:753-770 | a JSON object surrounded by prose without braces is found and decoded |
| EventProcessor.ModificationCall | internal/services/event_processor.go:773-782 | `create` and `modify` write the file, `delete` deletes it, any other action calls nothing |
| EventProcessor.ApplyFileModification | internal/services/event_processor.go:773-782 | an unsupported action is an error with no call; otherwise the one call's outcome |
| EventProcessor.AppliedLinesStep | internal/services/event_processor.go:719-726 | one loop step adds a change line iff the modification's call succeeded |
| EventProcessor.AppliedLinesFromPlan | internal/services/event_processor.go:718-726 | every change line comes from a supported modification of the plan, at most one per modification |
| EventProcessor.AppliedLinesByAnswers | internal/services/event_processor.go:718-726 | all file calls succeed ⇒ every supported modification is listed; all fail ⇒ none is |
| EventProcessor.SummaryListsChanges | internal/services/event_processor.go:732-733 | the summary states the count and lists every applied change |
| EventProcessor.ApplyAll | internal/services/event_processor.go:718-726 | the loop makes one call per supported modification, in order, and collects the lines of those that succeeded |
| EventProcessor.ApplyCodeModifications | internal/services/event_processor.go:658-736 | asks for a plan first; fails with the parse error, or with "nothing applied" iff no change succeeded; otherwise returns the summary |
| EventProcessor.CommitSubjectIsTitle | internal/services/event_processor.go:805-806 | the commit message's first line is the pull request title |
| EventProcessor.PullRequestOutcomeCases | internal/services/event_processor.go:865-874 | a GitHub error fails unless it says a pull request already exists, which reads as success |
| EventProcessor.CreatePullRequest | internal/services/event_processor.go:837-875 | one GitHub call from the branch to `main`, with the outcome above |
| EventProcessor.CommitRunFacts | internal/services/event_processor.go:785-834 | a commit happens only when the status shows changes; "no changes" iff the status was empty; a pull request is opened iff stage, status, commit and push succeed; the reply names the pushed branch |
| EventProcessor.CommitRunIgnoresPullRequest | internal/services/event_processor.go:821-833 | the pull request's result does not decide whether the step succeeds |
| EventProcessor.CommitAndPush | internal/services/event_processor.go:785-834 | stage, status, commit, push, pull request, stopping at the first failure or at an empty status |
| EventProcessor.CommitCallsOrdered | internal/services/event_processor.go:785-834 | the calls of a commit step keep the stage order |
| EventProcessor.AnalyzeRepository | internal/services/event_processor.go:543-569 | file tree, configure, then the analysis of the tree's text (a placeholder when the tree failed), whose answer is returned |
| EventProcessor.CommitAndReply | internal/services/event_processor.go:599-646 | the reply is a commit failure or the success report with the Issue's title, number and branch |
| EventProcessor.ModifyAndCommit | internal/services/event_processor.go:571-646 | branch, then plan; a modification failure never reaches staging |
| EventProcessor.RunPipeline | internal/services/event_processor.go:543-646 | the analysis failure replies after three calls; otherwise a branch named after the Issue is created; the stages keep their order |
| EventProcessor.ReplyIsOnly | internal/services/event_processor.go:611-646 | exactly one comment is posted |
| EventProcessor.ReplyAndClean | internal/services/event_processor.go:536-541 | the reply is posted, then `Cleanup(path)` is the last call and the only cleanup |
| EventProcessor.CleanupOnlyLast | internal/services/event_processor.go:536-541 | no call before the deferred one is a cleanup |
| EventProcessor.ReportCloneFailure | internal/services/event_processor.go:524-534 | a clone failure replies once and cleans nothing |
| EventProcessor.AutoAnalyzeAndModify | internal/services/event_processor.go:514-647 | clone first; on a clone failure, reply and no cleanup; after a clone, cleanup exactly once, last; one reply; stage order |
| EventProcessor.CodeRequestIssue | internal/services/event_processor.go:305-316 | same number, URL and labels; the title is the prefix and the arguments; the body is the original heading with the body, then the request heading with the arguments |
| EventProcessor.CodeRequestOrder | internal/services/event_processor.go:308-313 | the original body comes before the arguments in the combined body |
| EventProcessor.CodeRequestSameTarget | internal/services/event_processor.go:318-327 | the rebuilt Issue context replies where the command's context would |
| EventProcessor.HandleCode | internal/services/event_processor.go:301-328 | without an Issue, a nil-dereference error and no calls; otherwise the pipeline on the rebuilt Issue: clone first, ordered stages, a failed clone only answered, cleanup last after a clone, one reply on the Issue |
| EventProcessor.RepliedOnceFailure | internal/services/event_processor.go:452-470 | the pipeline fails only as replying fails |
| EventProcessor.ExecuteCommand | internal/services/event_processor.go:283-299 | the command's own handler runs: an unknown word is an error with no calls; `/code` runs the pipeline on the code request (or fails with nothing called without an Issue); `/continue` and `/fix` make their AI call and then reply with its answer, with that reply's error; `/help` only replies |
| EventProcessor.ExecutedReplies | internal/services/event_processor.go:283-328 | every known command but `/code` without an Issue posts exactly one reply on the Issue or pull request it came from, and fails only as replying does |
| EventProcessor.RunFirstCommand | internal/services/event_processor.go:157-174 | no command ⇒ nil and nothing called; otherwise the first command of the text is the one executed |
| EventProcessor.ProcessEvent | internal/services/event_processor.go:33-263 | ignored or command-free events call nothing; otherwise the first command of the routed text is executed on the routed context; the unknown-command error is unreachable; `/code` on a review comment fails with nothing called |
| Git.PathJoin | internal/services/git.go:68-70 | the joined path starts with the directory and ends with the name |
| Git.CacheKey | internal/services/git.go:540-544 | the key is the URL, `:` and the branch |
| Git.CacheKeyInjective | internal/services/git.go:540-544 | URLs without `:` identify a key's URL and branch |
| Git.CacheKeyCollision | internal/services/git.go:540-544 | `h:a`/`b` and `h`/`a:b` share a key |
| Git.RateLimit | internal/services/git.go:579-597 | an error iff the URL has a recorded clone less than 5 minutes old; the wait is positive |
| Git.NextClone | internal/services/git.go:54-65 | the rate limit is checked first; a usable cache entry is served only past it |
| Git.RecentCloneLimited | internal/services/git.go:75-76 | a clone recorded under 5 minutes ago rate-limits the URL |
| Git.CacheServesOnlyInWindow | internal/services/git.go:54-94 | after a clone, the cache serves only between 5 and 30 minutes later |
| Git.GitService.constructor | internal/services/git.go:36-51 | default work directory for ""; empty maps |
| Git.GitService.CheckRateLimit | internal/services/git.go:579-597 | the rate-limit decision on the current map |
| Git.GitService.RecordCloneTime | internal/services/git.go:600-604 | only the URL's time changes |
| Git.GitService.GetCachedRepo | internal/services/git.go:547-569 | the entry iff present, valid, at most 30 minutes old and on disk; no change |
| Git.GitService.CacheRepo | internal/services/git.go:572-576 | exactly one key is overwritten |
| Git.GitService.ClearCache | internal/services/git.go:644-656 | the cache is empty; the clone times are unchanged; every cached path is removed |
| Git.GitService.CloneRepository | internal/services/git.go:54-94 | rate limit, then cache, then record the time, then clone; a failed clone still limits the URL; an entry is cached only on success |
| Git.CachedPathsRemove | internal/services/git.go:647-652 | deleting one entry removes its path from the set to delete |
| Git.HasChangesTrimmed | internal/services/git.go:474-486 | changes iff the trimmed status is non-empty |
| Git.ModifiedFilesLines | internal/services/git.go:360-373 | the files are the lines of the trimmed output; none iff there are no changes |
| Git.TruncateDiff | internal/services/git.go:236-239 | unchanged up to 10000 bytes; otherwise the first 10000 bytes and the marker |
| Git.PullRequestDiff | internal/services/git.go:209-256 | a fetch failure falls back to the branch log; an empty diff gives the no-change message; otherwise the truncated diff |
| Git.TruncatedDiffsAgree | internal/services/git.go:236-239 | diffs agreeing on the first 10000 bytes truncate alike |
| Git.Workspace.constructor | internal/services/git.go:109-125 | the initial file map |
| Git.Workspace.WriteFile | internal/services/git.go:109-125 | the file at the joined path gets the content |
| Git.Workspace.DeleteFile | internal/services/git.go:489-503 | the file is gone and nothing else changes; deleting a missing file succeeds |
| Git.Workspace.FileContent | internal/services/git.go:408-435 | the size-limited read of the joined path |
| Git.Without | internal/services/git.go:489-503 | removes exactly one path |
| Git.DeleteIdempotent | internal/services/git.go:492-495 | deleting twice is deleting once; deleting a missing file changes nothing |
| Git.ReadLimited | internal/services/git.go:408-435 | the content iff the file exists and fits; a larger file is an error naming both sizes |
| Effects.AnswerError | internal/services/event_processor.go:773-782 | a failed call's error carries its message |
| Effects.Perform | internal/services/event_processor.go:514-647 | one call is appended and answered by the world |
| Effects.OrderedSnoc | internal/services/event_processor.go:514-647 | appending a call of a later stage keeps the order |
| Effects.OrderedBelowTop | internal/services/event_processor.go:514-647 | every call's stage is at most the last one's |
| Effects.OrderedPairwise | internal/services/event_processor.go:514-647 | earlier calls have earlier or equal stages |
| Effects.OrderedPrefix | internal/services/event_processor.go:514-647 | a prefix of an ordered log is ordered |
| DemoEventProcessor.HandleCode | webhook-demo/internal/services/event_processor.go:296-337 | asks for generated code with the project context, then replies with the code or the backend error |
| DemoEventProcessor.CommandCallsReply | webhook-demo/internal/services/event_processor.go:296-457 | every handler posts exactly one reply, last, when there is a reply target, or none with the target error; it fails only as replying fails |
| DemoEventProcessor.ExecutedReplies | webhook-demo/internal/services/event_processor.go:278-457 | an executed known command replies once, last, when a target exists, and its error is a reply failure |
| DemoEventProcessor.ExecuteCommand | webhook-demo/internal/services/event_processor.go:278-293 | `Executed`: an unknown word is the unknown-command error with no calls; a known word makes exactly its handler's backend call and then the reply, and returns exactly createResponse's error for that reply |
| DemoEventProcessor.RunFirstCommand | webhook-demo/internal/services/event_processor.go:260-293 | no command ⇒ nil and nothing called; otherwise the FIRST command of the text is the one `Executed`, which posts one reply as its last call when a reply target exists, and none with the target error otherwise |
| DemoEventProcessor.ProcessEvent | webhook-demo/internal/services/event_processor.go:31-242 | ignored or command-free events call nothing; a rejected event is its decode error; for an Inspect route the first command of the routed text is `Executed` in the routed context; errors come only from replying or decoding |
| Webhook.VerifySignature | webhook-demo/internal/handlers/webhook.go:80-107 | any request passes without a secret; otherwise iff the header is `sha256=` followed by the lower-case hex MAC |
| Webhook.VerifySignatureConstantTime | webhook-demo/internal/handlers/webhook.go:110-134 | any request passes without a secret; no prefix fails; otherwise iff the hex decodes to the MAC |
| Webhook.SignatureChecksAgree | webhook-demo/internal/handlers/webhook.go:80-134 | the plain check implies the decoding check; they agree on headers without upper-case hex |
| Webhook.SignatureBindsMac | webhook-demo/internal/handlers/webhook.go:98-106 | one header accepted for two bodies means equal MACs |
| Webhook.HandleWebhook | webhook-demo/internal/handlers/webhook.go:32-77 | 400 iff the body is unreadable; 401 iff verification fails, and then the processor is never called; an event without a command or ignored is 200 with nothing called, a rejected one 500; for a command, the calls are those of `Executed` on the first command and the answer is 200 iff that command's error (`CommandError`) is nil, else 500; 200 echoes the headers |
| ClaudeCli.MaskApiKey | internal/services/claude_code_cli.go:214-219 | `***` up to 8 bytes; otherwise the first 4, `***` and the last 4 |
| ClaudeCli.MaskHidesMiddle | internal/services/claude_code_cli.go:214-219 | keys agreeing on the first and last 4 bytes mask alike |
| ClaudeCli.CliArgs | internal/services/claude_code_cli.go:53-64 | starts with `--print`; `--model m` iff the model is set; ends with the prompt |
| ClaudeCli.CliEnv | internal/services/claude_code_cli.go:69-75 | the inherited environment, then the key and URL entries only when set |
| ClaudeCli.WrapInt64 | internal/services/claude_code_cli.go:130 | signed 64-bit wrap-around of the duration |
| ClaudeCli.CliTimeout | internal/services/claude_code_cli.go:130-133 | never zero; 0 gives 120 s; otherwise the seconds in nanoseconds while they fit |
| ClaudeCli.TimeoutWrapsToDefault | internal/services/claude_code_cli.go:130-133 | every multiple of 2^55 seconds wraps to 0 nanoseconds and so gets the default |
| ClaudeCli.CheckOutput | internal/services/claude_code_cli.go:149-155 | success is trimmed and non-empty; otherwise the no-output error |
| ClaudeCli.CheckOutputBlank | internal/services/claude_code_cli.go:149-155 | an error iff the output is all whitespace |
| ClaudeCli.Fill | internal/services/claude_code_cli.go:166-211 | the template filled with two inputs has the summed length |
| ClaudeCli.FillPlaces | internal/services/claude_code_cli.go:166-211 | each input sits at its place in the filled template |
| ClaudeCli.CodePromptHoldsInputs | internal/services/claude_code_cli.go:166-181 | the code prompt contains the requirement and the context, in place |
| ClaudeCli.ContinuePromptHoldsInputs | internal/services/claude_code_cli.go:184-196 | the continue prompt contains the instruction and the context, in place |
| ClaudeCli.FixPromptHoldsInputs | internal/services/claude_code_cli.go:199-211 | the fix prompt contains the problem and the code context, in place |
| ClaudeCli.FillInjective | internal/services/claude_code_cli.go:166-211 | equal prompts from first inputs of equal length have equal inputs |
| Text.TrimSpace | internal/services/git.go:485 | the result is trimmed |
| Text.TrimSpaceSlice | internal/services/git.go:485 | trimming removes whitespace only, at both ends |
| Text.TrimSpaceEmpty | internal/services/git.go:485 | the trim is empty iff the text is all whitespace |
| Text.TrimSpaceIdempotent | internal/services/event_processor.go:265-269 | trimming twice is trimming once |
| Text.ToLower | internal/services/commit_builder.go:156-157 | ASCII lowering, byte by byte |
| Text.Split | internal/services/event_processor.go:453-454 | a split has at least one part |
| Text.SplitPieces | internal/services/event_processor.go:453-454 | no part holds the separator |
| Text.JoinSplit | internal/services/git.go:367-372 | joining the parts of a split gives the text back |
| Text.SplitJoin | internal/services/git.go:367-372 | splitting a join of separator-free parts gives the parts back |
| Text.SplitConcat | internal/services/commit_builder.go:114 | splitting `x/y` splits `x` and `y` independently |
| Text.SplitTwoPieces | internal/services/commit_builder.go:114 | in `a/e/f/b` with separator-free `e` and `f`, those two come out as single elements |
| Text.JoinContains | internal/services/event_processor.go:489-494 | a join contains each part |
| Text.Index | internal/services/commit_builder.go:250-264 | the first occurrence, or -1 iff none |
| Text.IndexByte | internal/services/event_processor.go:755 | the first position of the byte, or -1 iff absent |
| Text.LastIndexByte | internal/services/event_processor.go:756 | the last position of the byte, or -1 iff absent |
| Text.Decimal | internal/services/event_processor.go:572-573 | `%d`: digits, with a `-` for negatives |
| Text.DigitsRoundTrip | internal/services/event_processor.go:572-573 | decimal digits parse back |
| Text.HexRoundTrip | webhook-demo/internal/handlers/webhook.go:103-124 | `hex.DecodeString(hex.EncodeToString(d)) == d` |
| Text.HexDecodeLower | webhook-demo/internal/handlers/webhook.go:103-124 | lower-case hex is the encoding of its decoding |
| Text.RemoveAllAbsent | internal/services/commit_builder.go:234-236 | removing an absent pattern changes nothing |

## Left out

- Subprocesses: `git clone`, `fetch`, `diff`, `log`, `add`, `status`, `commit`, `push`, `config`, `checkout` and the AI CLI are `Call` values answered by an abstract `World`. Their 60 s, 90 s and 120 s timeouts, pipes, goroutines and `Kill` are not modelled.
- `callClaudeCodeCLI`'s process handling is not modelled: the "not installed" check, start failures, the concurrent stdout and stderr readers and the timeout race. Only its argument list, environment, timeout value and output check are.
- The HTTP clients (`internal/services/claude.go`, `demo/webhook-demo/internal/services/github.go`) are `Call`s to the GitHub API and the AI backend.
- `internal/services/gemini.go` duplicates the CLI adapter and is not part of this model.
- The configuration loaders and the diagnostic tools are not part of this model.
- JSON decoding is an abstract partial decoder passed in, both for the webhook payloads and for the modification plan.
- HMAC-SHA256 is an uninterpreted function. The md5 of the cache key is taken as the identity, since only key equality matters.
- `subtle.ConstantTimeCompare`'s timing is not modelled; only its result is.
- Reading the request body is an `Option`: `None` stands for a read error.
- Locks: the maps of `GitService` are updated sequentially, and the mutexes are not modelled.
- The clock: `time.Now` and `time.Since` are integer nanosecond parameters. Formatted time stamps are byte parameters.
- Whether a path exists on disk is a predicate passed in. `os.RemoveAll`'s effect on disk is the set of paths `ClearCache` returns.
- `filepath.Join` does no cleaning (no `..` or duplicate-slash handling). `filepath.Dir` is modelled with `filepath.Clean` for `/`-separated paths; Windows volume names are not modelled.
- Directory walks (`ListFiles`, `GetFileTree`, `FindFilesByPattern`) are calls whose answers are text. `ReadFile`, `GetDiff`, `CreateBranch`, `AddFiles`, `Commit`, `Push`, `ConfigureGit` and `Cleanup` are one `Call` each; the `git diff --cached --name-only` that commitAndPush runs to see whether anything is staged is the `StagedNames` call.
- `getPullRequestDiffByBranch` is one call whose answer is either the log text or an error.
- `GetCacheStatus` is a reporting helper and is not part of this model.
- The reply texts and the log messages are not reproduced. A `Reply` value carries the data each Markdown template is filled with.
- The three prompt templates of `internal/services/claude_code_cli.go` are kept byte for byte. The analysis prompt (`internal/services/event_processor.go:556-557`) and the modification-plan prompt (`internal/services/event_processor.go:661-705`) are not reproduced: they are the `Analyze(title, body, tree)` and `RequestPlan(title, body, number, analysis)` calls, which carry the data each is filled with. Reply templates are not reproduced either.
- Unicode: `strings.ToLower` and `unicode.IsSpace` are modelled on ASCII. Non-ASCII keywords and emoji go through a UTF-8 encoder and are matched as bytes.
- `handleIssueEdited`, `handleIssueClosed`, `handlePullRequestOpened`, `handlePullRequestSynchronized` and `handlePullRequestClosed` only log. They are the `Ignore` outcome of `Route`.
- EventProcessor.HandleCode: on a review comment the source dereferences a nil Issue and panics. The model returns the `NilIssue` error with nothing called, instead of a crash.
- EventProcessor.AnalyzeRepository: `ConfigureGit`'s error is ignored, as in the source. A file-tree failure is replaced by the source's fixed placeholder text.
- EventProcessor.ModifyAndCommit: `CreateBranch`'s error is ignored, as in the source.
- Commands.Route serves both event processors, whose routers are the same switch. The demo's `ProcessEvent` also sets `event.Timestamp`, which nothing reads.
- CommitBuilder.DetectScope: Go's map iteration order is not modelled. The contract is the choice of some most frequent scope, not a particular tie-break.
- ClaudeCli.CliTimeout: the contract does not state the negative-seconds case. The function keeps the wrapped negative duration, which makes `time.After` fire at once.
- Git.Workspace.DeleteFile: always succeeds. An `os.Remove` failure on an existing file is not modelled, because the file map has no permissions or I/O errors. The pipeline's own `DeleteFile` call can still fail through its `World` answer.
- Git.Workspace.WriteFile: the `MkdirAll` and `os.WriteFile` failures are not modelled, for the same reason. The pipeline's `WriteFile` call can fail through its answer.
