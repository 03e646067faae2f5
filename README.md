# grgry, modelled in Dafny

grgry ("git rules, git rules yeah") is a command-line tool that drives git
over many repositories at once:

- `clone` lists a user's or a group's repositories at GitHub or GitLab and
  clones each one, or pulls it when it is already there.
- `mass` runs one git command in every local repository a pattern selects.
- `quick` commits and pushes every local repository that has changes, as
  the profile that serves its remote.
- `profile` keeps named profiles (host, user, token, target directory) in
  a TOML file.
- An unknown sub-command is rewritten into a `mass` call (`alias`).

The model covers the decision and argument-building logic around git,
HTTP and the file system. Each of those is an oracle:

- git: a function from argument vector to output.
- HTTP: a function from request to response.
- the file system: a finite tree, or a set of existing paths.
- the prompts: a sequence of typed answers.
- a regular expression: a predicate on strings.

Each workflow is a function from the world before it to its outcome and
the world after it (`Cmd.Step`). A method on `Cmd.Host` performs the same
steps in place and is proved to agree with that function. The lemmas state
the workflow's properties on the function. `Run` separates three outcomes:

- `Ok`, a normal result.
- `Exit`, the process ending with status 1 after an error message.
- `Panic`, an `unwrap`/`expect`/`unreachable!` failing.

Modules, one per source file:

| module | models |
|---|---|
| `Common` | shared value helpers |
| `Cmd` | `src/utils/cmd.rs` |
| `Helper` | `src/utils/helper.rs` |
| `Config` | `src/config/config.rs`; also `src/config.rs`, whose profile kind is stored under `managertype` |
| `GitApi` | `call_api` and decoding in `src/git_api/git_providers.rs` |
| `Github` | `src/git_api/github.rs` |
| `Gitlab` | `src/git_api/gitlab.rs` |
| `GitProviders` | `src/git_api/git_providers.rs` |
| `Clone` | `src/cli/clone.rs` |
| `Mass` | `src/cli/mass.rs` |
| `Quick` | `src/cli/quick.rs` |
| `Commands` | `Regex::get_regex_args` in `src/cli/commands.rs` |
| `Alias` | `src/cli/alias.rs` |
| `LegacyMain` | the first generation's `quick` and its helpers in `src/main.rs` |

Where the code does something surprising, the model follows the code:

- GitHub's page count is the first `page=` number at or after byte 3 of the
  `link` header. The pattern also matches inside `per_page=`. The probe asks
  for `per_page=100`, and a `next` link that repeats that query before its
  `page=` counts 100 pages (`Github.PageCountReadsPerPage`). A `next` link
  with `page=` alone gives the next page's number, so a three-page
  collection counts as two (`Github.PageCountTakesFirstLink`).
- In dry-run, branch resolution panics on `strip_prefix(...).unwrap()`.
- Answer `m` in `quick` skips the repository; it does not re-prompt.
- The `mass` argument vector repeats `-C path`.
- The first generation's `quick` looks for changes in the working
  directory, not in each repository.

## Model

| member | source | states |
|---|---|---|
| Cmd.RunCmdOResult | src/utils/cmd.rs:10-24 | dry-run yields "" without looking at git; a failed command exits, a spawn failure panics, success yields the trimmed stdout |
| Cmd.RunCmdOSoftResult | src/utils/cmd.rs:26-44 | never exits; dry-run yields ("", true); otherwise the trimmed stdout and the success flag |
| Cmd.RunCmdSResult | src/utils/cmd.rs:46-64 | reports true or ends the process, never false; true exactly in dry-run or on success |
| Cmd.DryRunIgnoresGit | src/utils/cmd.rs:11-14 | in dry-run all three runners give the same answer whatever git would have printed |
| Cmd.Host.RunCmdO | src/utils/cmd.rs:10-24 | the outcome is `RunCmdOResult` of git's output, and the command is appended to the issued log |
| Cmd.Host.RunCmdOSoft | src/utils/cmd.rs:26-44 | the outcome is `RunCmdOSoftResult`, and the command is logged |
| Cmd.Host.RunCmdS | src/utils/cmd.rs:46-64 | the outcome is `RunCmdSResult`, and the command is logged |
| Cmd.RemoveTree | src/cli/clone.rs:190-205 | the directory and everything below it leave the set of paths; every other path stays |
| Cmd.Host.RemoveDirAll | src/cli/clone.rs:47-49 | the paths lose the directory and everything below it; the log and the answers are untouched |
| Cmd.GitCmdNamesRepo | src/utils/cmd.rs:66-70 | a command built on `git -C path` starts with that prefix, and the prefix names exactly one repository |
| Cmd.ReadAnswer | src/cli/mass.rs:29-43 | reads answers until one is valid; an interrupt or the end of input gives none; the rest of the input is what follows |
| Cmd.AskSpec | src/cli/mass.rs:29-43 | a prompt issues no command and touches no path; a valid first line is the answer, an interrupt none, an invalid line is asked again |
| Helper.Owner | src/utils/helper.rs:55 | the worker of item i is below n and at most i |
| Helper.OwnerIsMod | src/utils/helper.rs:55 | the repeated subtraction is the remainder: `Owner(i, n) == i % n` |
| Helper.OwnerIsModulo | src/utils/helper.rs:50-59 | worker t gets item i exactly when i is below the length and i mod n is t |
| Helper.SchedulePermutes | src/utils/helper.rs:50-62 | the workers' index runs, one after another, are a permutation of 0..len |
| Helper.ScheduleResults | src/utils/helper.rs:64-74 | the collected results are as many as the items and form the multiset of task(i mod n, items[i]) |
| Helper.RunWorker | src/utils/helper.rs:54-60 | worker t sends task(t, items[i]) for i = t, t+n, ... in increasing order |
| Helper.RunInThreads | src/utils/helper.rs:38-75 | with n >= 1 workers every item is processed exactly once (result multiset); with 0 workers the result is empty |
| Helper.RunInThreadsDefault | src/utils/helper.rs:28-36 | uses the host's parallelism; when the host cannot report it the call panics |
| Config.LoadProfiles | src/config/config.rs:59-82 | loads exactly when every entry does, and then one profile per top-level key, each `LoadProfile` of its own entry; otherwise a panic |
| Config.LoadDefaults | src/config/config.rs:69-78 | a field present with a value of another type loads as false or "", for each of the eight fields; a missing field, or an entry that is not a table, panics |
| Config.LoadProfile | src/config/config.rs:69-78 | loads exactly when the entry is a table, standard or inline, holding all eight keys, and panics otherwise; then `active` exactly when the entry holds true, and every string field the entry holds as a string is that string |
| Config.LegacyEntryPanics | src/config/config.rs:76 | an entry written by the first generation, with `managertype` and no `provider`, panics when the current store loads it |
| Config.InlineReadAsTable | src/config/config.rs:69-78 | an inline table is read field by field exactly as a standard table with the same fields |
| Config.Merge | src/config/config.rs:106-138 | the merged document has exactly the profiles' keys |
| Config.MergeFields | src/config/config.rs:115-137 | every entry becomes a table with its profile's eight fields; other fields of an existing table are kept |
| Config.LoadAfterMerge | src/config/config.rs:98-141 | reloading the saved document succeeds and gives back the profiles |
| Config.LoadEvery | src/config/config.rs:67-81 | a document whose every entry loads to the profile of its key loads to those profiles |
| Config.ActivatedOnlyChoice | src/config/config.rs:85-90 | after activation a profile is active exactly when its key is the choice, and no other field changes |
| Config.Activated | src/config/config.rs:85-90 | activation keeps the keys of the profiles |
| Config.FirstActive | src/config/config.rs:143-158 | never panics; exits exactly when no profile is active; otherwise an active profile of the map |
| Config.ProvidersIn | src/config/config.rs:160-171 | the keys whose provider occurs in the URL, each once |
| Config.ActiveAfterActivate | src/config/config.rs:85-90 | once a key is activated, the active profile is that one, whatever the iteration order |
| Config.DeleteActive | src/config/config.rs:92-96 | deleting the only active profile makes the next active-profile query exit |
| Config.Store.constructor | src/config/config.rs:29-39 | over a document that loads, the store holds its loaded profiles |
| Config.Store.Open | src/config/config.rs:29-39 | a fresh store of the loaded profiles exactly when the document loads; a panic otherwise |
| Config.Store.ActiveProfile | src/config/config.rs:143-158 | an active stored profile, or exit exactly when none is active |
| Config.Store.FindProfilesByProvider | src/config/config.rs:160-171 | exactly the keys whose provider occurs in the URL, without repeats |
| Config.Store.SaveConfig | src/config/config.rs:99-141 | profiles unchanged; the document becomes the merge of the old document with the profiles |
| Config.Store.ActivateProfile | src/config/config.rs:85-90 | the profiles become `Activated(old, choice)` and the file is rewritten |
| Config.Store.DeleteProfile | src/config/config.rs:93-96 | only the chosen key goes, and the file is rewritten without it |
| Config.RemoveDeleted | src/config/config.rs:106-112 | exactly the entries whose key is still a profile are kept, unchanged |
| Config.UpdateOrCreate | src/config/config.rs:114-138 | the result is the merge, whatever order the keys are visited in |
| GitApi.CallApi | src/git_api/git_providers.rs:76-105 | a refused header value panics; a send failure exits; otherwise the oracle's response |
| GitApi.DecodeAll | src/git_api/git_providers.rs:49-60 | the array decodes exactly when every element does, element by element |
| Github.DecodeRepo | src/git_api/github.rs:12-31 | decodes `ssh_url`, `clone_url`, `full_name` as the SSH URL, HTTP URL and full path |
| Github.DecodeRepoObject | src/git_api/github.rs:19-31 | any object carrying the three fields decodes to that repository |
| Github.Segment | src/git_api/github.rs:44-54 | "user" exactly for the profile's own user with a token; otherwise "users/c" or "orgs/c" |
| Github.OrgEndpointInverse | src/git_api/github.rs:55-58 | the organisation is recovered from its unescaped endpoint |
| Github.Headers | src/git_api/github.rs:59-65 | with a token, Authorization and User-Agent; without, none |
| Github.PageMatchAt | src/git_api/github.rs:96-97 | a match of `page=(\d+)` at a position, and its maximal digit run |
| Github.FirstPageMatch | src/git_api/github.rs:96-97 | the leftmost match at or after the start offset, none before it |
| Github.PageCount | src/git_api/github.rs:94-107 | no `link` header gives 1; when the first `page=` match at or after byte 3 parses as an i32, that number; a non-ASCII header, no match or an out-of-range number panics |
| Github.PageCountTakesFirstLink | src/git_api/github.rs:94-107 | GitHub's three-page `link` header (next before last) counts as 2 pages |
| Github.PageCountSkipsStart | src/git_api/github.rs:97 | a `page=` at byte 0 is not seen, and the count panics |
| Github.PageCountReadsPerPage | src/git_api/github.rs:88-107 | a `next` link carrying `per_page=100` before `page=2` counts 100 pages, the per-page size |
| Gitlab.DecodeRepo | src/git_api/gitlab.rs:18-30 | decodes `ssh_url_to_repo`, `http_url_to_repo`, `path_with_namespace` |
| Gitlab.DecodeRepoObject | src/git_api/gitlab.rs:18-30 | any object carrying the three fields decodes to that project |
| Gitlab.CollectionType | src/git_api/gitlab.rs:39-42 | "users" exactly for a user, "groups" otherwise |
| Gitlab.Escape | src/git_api/gitlab.rs:47 | the escaped path contains no `/` |
| Gitlab.UnescapeEscape | src/git_api/gitlab.rs:47 | for a path without `%` the escaping is undone exactly |
| Gitlab.EndpointInverse | src/git_api/gitlab.rs:43-48 | kind and path are recovered from the endpoint |
| Gitlab.Headers | src/git_api/gitlab.rs:49-55 | with a token, Private-Token and User-Agent; without, none |
| Gitlab.PageCount | src/git_api/gitlab.rs:80-86 | the i32 in `x-total-pages`; a missing, non-ASCII or non-numeric header panics |
| Gitlab.PageCountOfTotal | src/git_api/gitlab.rs:80-86 | a decimal page total reads back as that total |
| GitProviders.GetProvider | src/git_api/git_providers.rs:107-116 | "gitlab" and "github" map to their clients; any other kind panics |
| GitProviders.PageParams | src/git_api/git_providers.rs:38-43 | the base query with ("page", p) appended last; no query stays no query |
| GitProviders.PageParamNumber | src/git_api/git_providers.rs:42 | the page parameter reads back as the page number |
| GitProviders.PageRequests | src/git_api/git_providers.rs:36-44 | one request per page 1..n, in page order |
| GitProviders.PageTotal | src/git_api/git_providers.rs:36 | pages <= 0 means no page at all |
| GitProviders.DecodePage | src/git_api/git_providers.rs:48-62 | never exits; an unknown kind reaches unreachable!; a known kind succeeds exactly when the body is an array whose every element decodes, and yields those repositories, element by element, in order |
| GitProviders.FetchPage | src/git_api/git_providers.rs:45-64 | exits exactly when sending exits; a refused header panics; a received response is decoded as `DecodePage` of its body |
| GitProviders.Collect | src/git_api/git_providers.rs:67-71 | succeeds exactly when every page task does; a failing first page is the outcome |
| GitProviders.CollectOk | src/git_api/git_providers.rs:67-71 | the listing succeeds exactly when every page does; no partial list |
| GitProviders.FirstFailureDecides | src/git_api/git_providers.rs:68-70 | the first failing page, in page order, decides the outcome |
| GitProviders.CollectConcatenates | src/git_api/git_providers.rs:67-73 | the listing is the concatenation of the pages in page order |
| GitProviders.GetReposParallel | src/git_api/git_providers.rs:27-74 | exactly the requests for pages 1..pages, and the collected outcome |
| GitProviders.GetRepos | src/git_api/github.rs:35-83 | a probe with the probe query comes first; a failed probe is the outcome; a header that does not count panics; otherwise one request per counted page to the same endpoint with the same headers and the page appended, and the outcome is the collection of those pages |
| GitProviders.ListingDecodesPages | src/git_api/github.rs:35-83 | when each page returns its repositories, the listing is their concatenation in page order |
| Clone.FilterRepos | src/cli/clone.rs:39-44 | a repository is kept exactly when the pattern matches its HTTP or SSH URL, XOR reverse; never more than the listing |
| Clone.FilterComplement | src/cli/clone.rs:42 | reversing the filter keeps exactly the other repositories |
| Clone.FilterAppend | src/cli/clone.rs:39-44 | filtering a concatenation filters each part and concatenates, so the kept repositories stay in listing order |
| Clone.FilterOne | src/cli/clone.rs:39-44 | one repository is kept once exactly when it is selected, and dropped otherwise |
| Clone.CloneUrl | src/cli/clone.rs:162-169 | the SSH URL exactly for pull option "ssh", the HTTP URL otherwise |
| Clone.CloneArgs | src/cli/clone.rs:171-188 | `clone url base/dir`, or `clone -b branch url base/dir` for a non-empty branch |
| Clone.CreatePullRequestArgs | src/cli/clone.rs:171-188 | the two inserts give `CloneArgs` |
| Clone.ResolveBranchSpec | src/cli/clone.rs:135-160 | a given branch is used with no git call; otherwise symbolic-ref: a failure gives Break (NoHead), a spawn failure panics, a successful output starting `origin/` gives that branch, and any other output panics (always in dry-run) |
| Clone.PullBranchSpec | src/cli/clone.rs:110-132 | a pull with a known branch never breaks |
| Clone.PullSpec | src/cli/clone.rs:100-133 | the pull breaks exactly when origin has no HEAD |
| Clone.PullStaysInside | src/cli/clone.rs:100-133 | every command a pull issues is `git -C dest ...`; no answer read, no path touched |
| Clone.PullChecksOutIffRemoteHasBranch | src/cli/clone.rs:110-132 | checkout then pull run exactly when ls-remote printed something; otherwise Continue and nothing more |
| Clone.DryRunPullOnlyAsks | src/cli/clone.rs:110-118 | in dry-run with a given branch only ls-remote is issued |
| Clone.CloneOneSpec | src/cli/clone.rs:61-91 | one repository's task only adds git commands to the world |
| Clone.CloneOrPull | src/cli/clone.rs:62-91 | an existing destination is only pulled; a missing one gets exactly one clone into the checked path |
| Clone.CloneEachSpec | src/cli/clone.rs:59-93 | one outcome per repository; only git commands are added |
| Clone.BreakDoesNotStop | src/cli/clone.rs:59-93 | a Break in one task does not stop the remaining repositories |
| Clone.Dispatched | src/cli/clone.rs:59-60 | the worker order is a permutation of the selected repositories |
| Clone.RemoveBase | src/cli/clone.rs:47-49 | a removable target directory goes with everything below it, and every other path stays; a missing directory, or a removal the file system refuses, changes nothing |
| Clone.CloneProcessesEverySelected | src/cli/clone.rs:31-93 | with force and a removable target the directory is gone before any task runs; without force the world is untouched before the tasks; the tasks are exactly those for the selected repositories, in worker order, one outcome each |
| Clone.CloneSpec | src/cli/clone.rs:19-98 | without an active profile the process exits and nothing is done; a success needs an active profile and a reported worker count; zero workers give no outcome; without force only git commands are added |
| Clone.ResolveBranch | src/cli/clone.rs:135-160 | behaves as `ResolveBranchSpec` on the host |
| Clone.Pull | src/cli/clone.rs:100-133 | behaves as `PullSpec` on the host |
| Clone.CloneOne | src/cli/clone.rs:61-91 | behaves as `CloneOneSpec` on the host |
| Clone.CloneEach | src/cli/clone.rs:59-93 | behaves as `CloneEachSpec` on the host |
| Clone.Clone | src/cli/clone.rs:19-98 | behaves as `CloneSpec` on the host |
| Mass.FoundIsVisibleRoots | src/cli/mass.rs:81-99 | the pruned walk finds exactly the repository roots with no `.git` directory above them |
| Mass.RepoHidesNested | src/cli/mass.rs:83-90 | a repository root hides every repository nested in it |
| Mass.Locate | src/cli/mass.rs:74-107 | a path is found exactly when it is a visible repository root and match XOR reverse |
| Mass.LocateComplement | src/cli/mass.rs:103 | reversed and plain filters split the visible repositories in two |
| Mass.ProcessReposSpec | src/cli/mass.rs:58-71 | at most one decision per repository; only the last can be Stop; without Stop every repository is visited |
| Mass.ProcessReposAppend | src/cli/mass.rs:64-70 | the loop over a + b is the loop over a, then over b, when a does not stop |
| Mass.ProcessReposAt | src/cli/mass.rs:64-70 | the decision at a repository reached without a stop: Execute exactly when its confirmation there answered true, with the command run in the prompt's world; Skip for false; Stop for a failed prompt, ending the loop in the world the prompt left |
| Mass.ProcessReposKeepsPaths | src/cli/mass.rs:58-71 | a loop whose steps only add git commands leaves the paths unchanged |
| Mass.ProcessRepos | src/cli/mass.rs:58-71 | the loop behaves as `ProcessReposSpec` |
| Mass.YesNoAnswers | src/cli/mass.rs:31-38 | the prompt accepts exactly y, Y, n, N |
| Mass.MassConfirmSpec | src/cli/mass.rs:19-44 | no git command; skip-interactive runs every repository; otherwise y runs, n skips, a failed prompt stops |
| Mass.MassArgs | src/cli/mass.rs:46-53 | `-C path -C path` then the command's words |
| Mass.MassArgsWords | src/cli/mass.rs:50 | a command of single-space-separated words splits back into those words |
| Mass.MassExecuteSpec | src/cli/mass.rs:45-54 | issues exactly the `mass` argument vector; succeeds exactly when run_cmd_s does |
| Mass.MassSkipInteractiveRunsAll | src/cli/mass.rs:25-27 | without prompting, the command runs in every repository in order and nothing else is issued |
| Mass.MassInterruptStops | src/cli/mass.rs:40-43 | an interrupted first prompt stops before any command runs |
| Mass.MassSpec | src/cli/mass.rs:15-56 | one decision per repository unless stopped; the paths are unchanged; every command issued is the `mass` command of a listed repository |
| Mass.MassRepos | src/cli/mass.rs:15-56 | one decision per repository unless stopped; only the last decision can be Stop |
| Mass.MassIssuesOwnCommands | src/cli/mass.rs:45-54 | at most one command per repository, each the `mass` command of a listed repository; the paths are unchanged |
| Mass.MassFirstWorld | src/cli/mass.rs:64-70 | one step leaves the prompt's world, with the command issued when the answer runs it, or goes on from there |
| Mass.MassTree | src/cli/mass.rs:58-71 | over any order of the located set, a loop that does not stop decides once per located repository; without prompting and with every command succeeding, each located repository gets its command |
| Mass.MassRunsEachFound | src/cli/mass.rs:25-27 | without prompting, over an enumeration of a set, one command per element, each element's among them |
| Mass.MassConfirm | src/cli/mass.rs:19-44 | behaves as `MassConfirmSpec` on the host |
| Mass.MassExecute | src/cli/mass.rs:45-54 | behaves as `MassExecuteSpec` on the whitespace-split command |
| Quick.YesNoMoreAnswers | src/cli/quick.rs:48-55 | the prompt accepts exactly y, n, m in either case |
| Quick.MoreInfoSpec | src/cli/quick.rs:61-76 | answer m never takes the repository and never stops the loop |
| Quick.QuickConfirmSpec | src/cli/quick.rs:24-81 | a clean status gives Ok(false) with only the status issued; paths never change; the issued log only grows |
| Quick.QuickConfirmAnswers | src/cli/quick.rs:44-81 | with changes and the prompt in use: y or Y takes the repository, n or N skips it, both in the prompt's world; a failed prompt stops the loop |
| Quick.QuickDryRunSkips | src/cli/quick.rs:26-34 | in dry-run the status looks clean and the repository is skipped unasked |
| Quick.QuickTakesOnlyChanged | src/cli/quick.rs:32-43 | a repository is taken only when it has changes; skip-interactive takes it without reading an answer |
| Quick.MoreSkips | src/cli/quick.rs:61-76 | answer m consumes one answer, runs diff, URL and branch, and skips |
| Quick.SelectProfileSpec | src/cli/quick.rs:106-116 | never panics; no git; a single match is that profile, unasked; no match gives the active profile; with several matches a chosen key gives its profile and a failed prompt the active profile |
| Quick.RunEachSpec | src/cli/quick.rs:119-139 | succeeds exactly when every command does, having issued exactly those commands |
| Quick.PushArgs | src/cli/quick.rs:166-172 | `push origin branch`, then `--set-upstream` when asked |
| Quick.CreatePushRequestArgs | src/cli/quick.rs:166-172 | the insert at index 3 gives `PushArgs` |
| Quick.ExecuteQuickActionsSpec | src/cli/quick.rs:118-164 | only git commands are added to the world |
| Quick.QuickActionsInOrder | src/cli/quick.rs:118-164 | pull, config name, config email, add, commit, branch, ls-remote, push (upstream exactly when ls-remote printed nothing), remote URL, in this order |
| Quick.DryRunPushSetsUpstream | src/cli/quick.rs:141-152 | in dry-run the push names the empty branch and sets the upstream |
| Quick.QuickExecuteSpec | src/cli/quick.rs:82-88 | paths never change; the issued log only grows |
| Quick.QuickExecuteAsSelected | src/cli/quick.rs:82-88 | once the remote URL is read, the actions run as the selected profile; when no profile can be selected the process exits |
| Quick.QuickExecuteNeedsUrl | src/cli/quick.rs:92-97 | a remote URL that cannot be read ends the step before any profile is chosen |
| Quick.QuickDryRunOnlyLooks | src/cli/quick.rs:21-89 | dry-run quick asks nothing and issues one status per repository |
| Quick.QuickSpec | src/cli/quick.rs:12-90 | one decision per repository unless stopped; the paths never change and the issued log only grows |
| Quick.QuickTree | src/cli/quick.rs:21-89 | over any order of the located set, a loop that does not stop decides once per located repository; a dry run issues one `status` in each located repository |
| Quick.QuickDryRunEachFound | src/cli/quick.rs:21-34 | a dry run over an enumeration of a set issues one `status` per element, each element's among them |
| Quick.QuickConfirm | src/cli/quick.rs:24-81 | behaves as `QuickConfirmSpec` on the host |
| Quick.SelectProfile | src/cli/quick.rs:106-116 | behaves as `SelectProfileSpec` with the store's profiles |
| Quick.ExecuteQuickActions | src/cli/quick.rs:118-164 | behaves as `ExecuteQuickActionsSpec` on the host |
| Quick.QuickExecute | src/cli/quick.rs:82-88 | behaves as `QuickExecuteSpec` on the host |
| Commands.GetRegexArgs | src/cli/commands.rs:161-170 | reverse exactly when rev-regex is given; rev-regex wins, then regex, then the default, each unchanged |
| Commands.GivenPattern | src/cli/commands.rs:146 | with at most one option given, the pattern is that option or the default |
| Commands.RevRegexComplements | src/cli/commands.rs:161-170 | `--rev-regex p` locates exactly the visible repositories `--regex p` leaves out |
| Alias.Rewrite | src/cli/alias.rs:1-28 | `grgry mass <command>`, then the options in input order |
| Alias.OptionsAndWordsPartition | src/cli/alias.rs:5-24 | every argument is copied as an option or becomes a word, exactly once |
| Alias.RewriteLength | src/cli/alias.rs:2-27 | the result is 3 + the options copied (switches and consumed regex values) long |
| Alias.WordsAreNotOptions | src/cli/alias.rs:8-16 | no option becomes a word, and the argument after a regex option is always taken as its value |
| Alias.CommandJoins | src/cli/alias.rs:17-22 | with no empty words, the command is the words joined by single spaces, "" when none |
| Alias.RewriteRoundTrip | src/cli/alias.rs:17-25 | `mass` splits the command back into exactly the words, and runs them in each repository |
| LegacyMain.MassVal | src/main.rs:288-292 | absent gives "false", a bare flag ".*", a value itself |
| LegacyMain.LegacyFind | src/main.rs:402-427 | "false" gives the root alone (default "."); otherwise every repository root of the tree whose path matches, unpruned |
| LegacyMain.WithoutMassOnlyHere | src/main.rs:288-294 | without `--mass`, only "." is visited |
| LegacyMain.FalsePatternIsSentinel | src/main.rs:404-407 | a user pattern spelled "false" also means no walk |
| LegacyMain.BareMassFindsAll | src/main.rs:290-294 | a bare `--mass` visits every repository root |
| LegacyMain.LegacyFindsWhatMassFinds | src/main.rs:410-426 | the first generation finds everything the pruned walk finds |
| LegacyMain.NestedRepositoryFound | src/main.rs:410-426 | a repository inside another is found here but not by the pruned walk |
| LegacyMain.HasChangesResult | src/main.rs:371-384 | true exactly when the status succeeded with non-empty output; an error when it failed |
| LegacyMain.HasChanges | src/main.rs:371-384 | runs `status --porcelain` with no `-C`, in the working directory |
| LegacyMain.PushToOrigin | src/main.rs:429-438 | `-C p push --set-upstream origin b`, or without the flag |
| LegacyMain.PushSameArguments | src/main.rs:429-438 | the same arguments as the current push, as a multiset |
| LegacyMain.PushFlagMoved | src/main.rs:433-436 | `--set-upstream` comes right after `push` here, last in the current push, so the vectors differ |
| LegacyMain.QuickRepoSpec | src/main.rs:295-315 | the status is always issued first; paths never change |
| LegacyMain.QuickSpec | src/main.rs:294-316 | the issued log only grows; paths never change |
| LegacyMain.AnyAnswerCommitsAndPushes | src/main.rs:298-311 | any valid answer, "no" included, leads to add, commit, branch and a push that sets the upstream |
| LegacyMain.NoActiveProfileExitsAfterAdd | src/main.rs:301-302 | without an active profile the files are added, then the process exits before committing |
| LegacyMain.CleanWorkingDirectorySkipsAll | src/main.rs:295-296 | with a clean working directory no repository is touched, whatever its own state |
| LegacyMain.QuickRepo | src/main.rs:295-315 | behaves as `QuickRepoSpec` on the host |
| LegacyMain.QuickRepos | src/main.rs:294-316 | behaves as `QuickSpec` on the host |

## Left out

- Real processes, HTTP, threads and the file system are oracles. There is no subprocess spawning, no reqwest or tokio, and no `mpsc`/`Arc`/`join`.
- `Helper.RunInThreads`: the workers run one after another. The result is stated as a multiset because the real arrival order on the channel is not determined.
- Clone.CloneSpec: clone tasks run one after another in worker order (`Clone.Dispatched`). Interleavings of concurrent tasks on the shared issued log are not modelled.
- Clone.CloneOneSpec: a successful `git clone` does not add its destination to the model's set of paths.
- `Cmd.Host.RunCmdS`: the `silent` flag (stdout and stderr to null) changes only what is printed, and is ignored.
- Printed messages, colours (`prntln`, `MessageType`) and `command_to_string` are presentation only.
- `Common.Lower`: only ASCII letters are lowered. This is exact for the single-letter answers the prompts accept.
- The inquire prompts are reduced to a re-asking reader of typed lines. `Cmd.ReadAnswer` accepts the first valid line; an interrupt or the end of input is an error.
- A regex that does not compile (an `expect` panic) is not modelled; the regex is a predicate.
- `Mass.Locate`: walk errors, symbolic links and entries that are not directories are not modelled; `current_dir` failing is not modelled.
- The parse, read and write of the TOML file (`Config::new` on a missing file, `create_empty_config_file`) are not modelled; the document is a map of items.
- `src/cli/profile.rs` and the first generation's profile prompts in `src/main.rs` only call the store operations modelled in `Config`.
- `src/cli/update.rs` (download, archive extraction, self-replacement) is network and file plumbing, and is not part of this model.
- `src/gitlab.rs` and `src/git_providers.rs`, the first generation's GitLab client, are network plumbing superseded by `src/git_api/`, and are not part of this model.
- The clap declarations in `src/commands.rs`, `src/cli/commands.rs` and `src/cli/mod.rs` are not modelled, except the one-of group on the regex options.
- LegacyMain.QuickRepoSpec: the first generation's `run_cmd_s` has no `silent` flag and its dry-run path is never used by `quick`, so only the non-dry-run branch is modelled.
- GitProviders.FirstFailureDecides: the page tasks are spawned at once and awaited in page order. A send failure exits inside its own task, so a later page's send failure can end the process before an earlier page's panic is awaited. The model takes each failure to happen when its page is awaited.
- Clone.RemoveBase: a failed `remove_dir_all` is modelled as removing nothing (`removable` false). A removal that stops part-way is not modelled.
- Config.LoadProfile: an entry is indexed as toml_edit indexes an `Item` by a string, which panics on a key the table lacks or on a value that is not a table; that library is not part of this model. Values nested inside an inline table are read only as booleans and strings, the types the loader asks for. Saving replaces an inline-table entry with a standard table (`Config.MergeEntry`).
- Mass.MassTree: the order the parallel walk yields the located repositories in is an input (`order`); any enumeration of the located set is allowed.
- Integer widths: `PageCount` checks the i32 range; page numbers and worker counts are otherwise unbounded.
