/** `src/cli/quick.rs`: for every repository the locator finds, check for
    uncommitted changes and ask; then pick the profile serving the
    repository's remote, commit everything as that profile, and push the
    current branch, setting its upstream when origin does not have it yet. */
module Quick {
  import opened Common
  import opened Cmd
  import Config
  import opened Mass

  function StatusArgs(path: string): Argv {
    GitCmd(path) + ["status", "--porcelain"]
  }

  function DiffArgs(path: string): Argv {
    GitCmd(path) + ["diff"]
  }

  /** `get_remote_url`. */
  function RemoteUrlArgs(path: string): Argv {
    GitCmd(path) + ["config", "--get", "remote.origin.url"]
  }

  /** `get_current_branch`. */
  function CurrentBranchArgs(path: string): Argv {
    GitCmd(path) + ["branch", "--show-current"]
  }

  function LsRemoteArgs(path: string, branch: string): Argv {
    GitCmd(path) + ["ls-remote", "--heads", "origin", branch]
  }

  // ---------------------------------------------------------------- confirmation

  /** The answers the `quick` prompt accepts, in any case. */
  predicate YesNoMore(s: string) {
    Lower(s) == "y" || Lower(s) == "n" || Lower(s) == "m"
  }

  lemma LowerOne(s: string)
    requires |s| == 1
    ensures Lower(s) == [LowerChar(s[0])]
  {
  }

  lemma YesNoMoreAnswers(s: string)
    ensures YesNoMore(s) <==> s in {"y", "Y", "n", "N", "m", "M"}
  {
    if |s| == 1 {
      LowerOne(s);
      assert s == [s[0]];
    }
  }

  /** Answer `m`: show the diff, the remote URL and the branch, then skip
      the repository. */
  function MoreInfoSpec(git: Argv -> Output, w: World, path: string, test: bool): (r: Step<Option<bool>>)
    ensures r.result != Ok(Some(true)) && r.result != Ok(None)
    ensures Extends(w, r.world)
  {
    var d := RunCmdSSpec(git, w, DiffArgs(path), test);
    if !d.result.Ok? then Fail(d)
    else
      var u := RunCmdOSpec(git, d.world, RemoteUrlArgs(path), test);
      if !u.result.Ok? then Fail(u)
      else
        var b := RunCmdOSpec(git, u.world, CurrentBranchArgs(path), test);
        if !b.result.Ok? then Fail(b) else Step(Ok(Some(false)), b.world)
  }

  /** The confirmation of `quick`: a repository without changes is skipped
      without asking; with `skip_interactive` one with changes is taken;
      otherwise the prompt asks until it gets `y`, `n` or `m` (any case). */
  function QuickConfirmSpec(git: Argv -> Output, w: World, path: string, skipInteractive: bool, test: bool)
    : (r: Step<Option<bool>>)
    ensures r.world.paths == w.paths && w.issued <= r.world.issued
    ensures RunCmdOResult(test, git(StatusArgs(path))) == Ok("") ==>
      r == Step(Ok(Some(false)), Issue(w, StatusArgs(path)))
  {
    var s := RunCmdOSpec(git, w, StatusArgs(path), test);
    if !s.result.Ok? then Fail(s)
    else if s.result.value == "" then Step(Ok(Some(false)), s.world)
    else if skipInteractive then Step(Ok(Some(true)), s.world)
    else
      var a := AskSpec(s.world, YesNoMore);
      if a.answer.None? then Step(Ok(None), a.world)
      else
        var choice := Lower(a.answer.value);
        if choice == "y" then Step(Ok(Some(true)), a.world)
        else if choice == "n" then Step(Ok(Some(false)), a.world)
        else MoreInfoSpec(git, a.world, path, test)
  }

  /** In dry-run the status looks clean, so `quick` never asks and never
      commits: each repository costs one `status`, and is skipped. */
  lemma QuickDryRunSkips(git: Argv -> Output, w: World, path: string, skipInteractive: bool)
    ensures QuickConfirmSpec(git, w, path, skipInteractive, true) == Step(Ok(Some(false)), Issue(w, StatusArgs(path)))
  {
  }

  /** A repository is taken only when it has changes; with
      `skip_interactive` every repository with changes is taken without
      reading an answer. */
  lemma QuickTakesOnlyChanged(git: Argv -> Output, w: World, path: string, skipInteractive: bool, test: bool)
    ensures QuickConfirmSpec(git, w, path, skipInteractive, test).result == Ok(Some(true)) ==>
      RunCmdOResult(test, git(StatusArgs(path))).Ok? && RunCmdOResult(test, git(StatusArgs(path))).value != ""
    ensures skipInteractive && RunCmdOResult(test, git(StatusArgs(path))).Ok? && RunCmdOResult(test, git(StatusArgs(path))).value != "" ==>
      QuickConfirmSpec(git, w, path, skipInteractive, test) == Step(Ok(Some(true)), Issue(w, StatusArgs(path)))
  {
  }

  /** With changes to report and the prompt in use, the answer decides: `y`
      takes the repository, `n` skips it, and a failed prompt (interrupted,
      or input exhausted) stops the loop; only `m` runs more git commands. */
  lemma QuickConfirmAnswers(git: Argv -> Output, w: World, path: string, test: bool)
    requires RunCmdOResult(test, git(StatusArgs(path))).Ok? && RunCmdOResult(test, git(StatusArgs(path))).value != ""
    ensures var a := AskSpec(Issue(w, StatusArgs(path)), YesNoMore);
      var r := QuickConfirmSpec(git, w, path, false, test);
      (r.result == Ok(None) <==> a.answer.None?)
      && (a.answer.None? ==> r.world == a.world)
      && (r.result == Ok(Some(true)) <==> a.answer.Some? && a.answer.value in {"y", "Y"})
      && (a.answer.Some? && a.answer.value in {"y", "Y", "n", "N"} ==>
            r == Step(Ok(Some(a.answer.value in {"y", "Y"})), a.world))
  {
    var a := AskSpec(Issue(w, StatusArgs(path)), YesNoMore);
    assert RunCmdOSpec(git, w, StatusArgs(path), test).world == Issue(w, StatusArgs(path));
    if a.answer.Some? {
      var v := a.answer.value;
      assert v in {"y", "Y", "n", "N", "m", "M"} by {
        YesNoMoreAnswers(v);
      }
      LowerOne(v);
      if v in {"y", "Y"} {
        assert Lower(v) == "y";
      } else if v in {"n", "N"} {
        assert Lower(v) == "n";
      } else {
        assert Lower(v) == "m";
      }
    }
  }

  /** Answer `m` does not ask again: it consumes one answer, shows diff,
      URL and branch, and skips the repository. */
  lemma MoreSkips(git: Argv -> Output, w: World, path: string, test: bool, answer: string)
    requires RunCmdOResult(test, git(StatusArgs(path))).Ok? && RunCmdOResult(test, git(StatusArgs(path))).value != ""
    requires w.input != [] && w.input[0] == Line(answer) && answer in {"m", "M"}
    requires RunCmdSResult(test, git(DiffArgs(path))).Ok? && RunCmdOResult(test, git(RemoteUrlArgs(path))).Ok?
      && RunCmdOResult(test, git(CurrentBranchArgs(path))).Ok?
    ensures var w2 := Issue(w, StatusArgs(path)).(input := w.input[1..]);
      QuickConfirmSpec(git, w, path, false, test)
      == Step(Ok(Some(false)), Issue(Issue(Issue(w2, DiffArgs(path)), RemoteUrlArgs(path)), CurrentBranchArgs(path)))
  {
    var w2 := Issue(w, StatusArgs(path)).(input := w.input[1..]);
    AnswerMore(git, w, path, test, answer);
    MoreInfoRuns(git, w2, path, test);
  }

  lemma AnswerMore(git: Argv -> Output, w: World, path: string, test: bool, answer: string)
    requires RunCmdOResult(test, git(StatusArgs(path))).Ok? && RunCmdOResult(test, git(StatusArgs(path))).value != ""
    requires w.input != [] && w.input[0] == Line(answer) && answer in {"m", "M"}
    ensures QuickConfirmSpec(git, w, path, false, test)
      == MoreInfoSpec(git, Issue(w, StatusArgs(path)).(input := w.input[1..]), path, test)
  {
    var w1 := Issue(w, StatusArgs(path));
    assert YesNoMore(answer) by {
      YesNoMoreAnswers(answer);
    }
    assert AskSpec(w1, YesNoMore) == Asked(Some(answer), w1.(input := w.input[1..]));
    assert Lower(answer) == "m" by {
      LowerOne(answer);
    }
  }

  lemma MoreInfoRuns(git: Argv -> Output, w: World, path: string, test: bool)
    requires RunCmdSResult(test, git(DiffArgs(path))).Ok? && RunCmdOResult(test, git(RemoteUrlArgs(path))).Ok?
      && RunCmdOResult(test, git(CurrentBranchArgs(path))).Ok?
    ensures MoreInfoSpec(git, w, path, test)
      == Step(Ok(Some(false)), Issue(Issue(Issue(w, DiffArgs(path)), RemoteUrlArgs(path)), CurrentBranchArgs(path)))
  {
  }

  // ---------------------------------------------------------------- profile selection

  /** The answers the profile prompt accepts: one of the listed keys. */
  function ListedKey(keys: seq<string>): string -> bool {
    (k: string) => k in keys
  }

  /** `select_profile`: the one profile whose provider occurs in the remote
      URL, without asking; otherwise the user picks among the matching
      ones (an empty list fails at once), and a failed prompt falls back to
      the active profile, which may end the process. */
  function SelectProfileSpec(w: World, order: seq<string>, profiles: map<string, Config.Profile>, url: string)
    : (r: Step<Config.Profile>)
    ensures r.result != Panic && r.world.issued == w.issued && r.world.paths == w.paths
    ensures r.result.Ok? ==> r.result.value in profiles.Values
    ensures r.result.Ok? ==> Contains(url, r.result.value.provider) || r.result.value.active
    ensures var keys := Config.ProvidersIn(order, profiles, url);
      |keys| == 1 ==> keys[0] in profiles && r == Step(Ok(profiles[keys[0]]), w)
    ensures Config.ProvidersIn(order, profiles, url) == [] ==> r == Step(Config.FirstActive(order, profiles), w)
    ensures var keys := Config.ProvidersIn(order, profiles, url);
      var a := AskSpec(w, ListedKey(keys));
      |keys| >= 2 && a.answer.Some? ==> a.answer.value in profiles && r == Step(Ok(profiles[a.answer.value]), a.world)
    ensures var keys := Config.ProvidersIn(order, profiles, url);
      var a := AskSpec(w, ListedKey(keys));
      |keys| >= 2 && a.answer.None? ==> r == Step(Config.FirstActive(order, profiles), a.world)
  {
    var keys := Config.ProvidersIn(order, profiles, url);
    if |keys| == 1 then
      assert keys[0] in keys;
      Step(Ok(profiles[keys[0]]), w)
    else if keys == [] then Step(Config.FirstActive(order, profiles), w)
    else
      var a := AskSpec(w, ListedKey(keys));
      if a.answer.Some? then
        assert ListedKey(keys)(a.answer.value);
        Step(Ok(profiles[a.answer.value]), a.world)
      else
        var active := Config.FirstActive(order, profiles);
        assert active.Ok? ==> active.value in profiles.Values;
        Step(active, a.world)
  }

  // ---------------------------------------------------------------- commit and push

  /** The commands that commit everything as `profile`. */
  function CommitCommands(path: string, profile: Config.Profile, message: string): seq<Argv> {
    [GitCmd(path) + ["pull", "--rebase"], GitCmd(path) + ["config", "user.name", profile.username],
     GitCmd(path) + ["config", "user.email", profile.email], GitCmd(path) + ["add", "."],
     GitCmd(path) + ["commit", "-m", message]]
  }

  /** The commands run one after another with `run_cmd_s`, the first
      failure ending the process. */
  function RunEachSpec(git: Argv -> Output, w: World, argvs: seq<Argv>, test: bool): (r: Step<()>)
    ensures r.result.Ok? <==> forall k :: 0 <= k < |argvs| ==> RunCmdSResult(test, git(argvs[k])).Ok?
    ensures r.result.Ok? ==> r.world == w.(issued := w.issued + argvs)
    ensures Extends(w, r.world)
    decreases |argvs|
  {
    if argvs == [] then
      assert w.(issued := w.issued + []) == w;
      Step(Ok(()), w)
    else
      var s := RunCmdSSpec(git, w, argvs[0], test);
      if !s.result.Ok? then Fail(s)
      else
        var rest := RunEachSpec(git, s.world, argvs[1..], test);
        assert w.issued + argvs == s.world.issued + argvs[1..];
        assert forall k :: 1 <= k < |argvs| ==> argvs[k] == argvs[1..][k - 1];
        rest
  }

  /** `create_push_request_args` as a value: push the branch to origin, with
      `--set-upstream` after it when asked. */
  function PushArgs(branch: string, setUpstream: bool): (r: Argv)
    ensures |r| == if setUpstream then 4 else 3
    ensures r[..3] == ["push", "origin", branch]
    ensures setUpstream ==> r[3] == "--set-upstream"
  {
    if setUpstream then ["push", "origin", branch, "--set-upstream"] else ["push", "origin", branch]
  }

  /** `create_push_request_args`: the three-element vector, and the flag
      inserted at index 3. */
  method CreatePushRequestArgs(branch: string, setUpstream: bool) returns (args: Argv)
    ensures args == PushArgs(branch, setUpstream)
  {
    args := ["push", "origin", branch];
    if setUpstream {
      args := Insert(args, 3, "--set-upstream");
    }
  }

  /** `execute_quick_actions`: commit, then find the current branch, ask
      origin whether it has it, push (setting the upstream when it does
      not), and read the remote URL for the report. */
  function ExecuteQuickActionsSpec(git: Argv -> Output, w: World, path: string, profile: Config.Profile,
                                   message: string, test: bool): (r: Step<()>)
    ensures Extends(w, r.world)
  {
    var c := RunEachSpec(git, w, CommitCommands(path, profile, message), test);
    if !c.result.Ok? then Fail(c)
    else
      var b := RunCmdOSpec(git, c.world, CurrentBranchArgs(path), test);
      ExtendsIssue(w, c.world, CurrentBranchArgs(path));
      if !b.result.Ok? then Fail(b)
      else
        var branch := b.result.value;
        var ls := RunCmdOSpec(git, b.world, LsRemoteArgs(path, branch), test);
        ExtendsIssue(w, b.world, LsRemoteArgs(path, branch));
        if !ls.result.Ok? then Fail(ls)
        else
          var push := GitCmd(path) + PushArgs(branch, ls.result.value == "");
          var p := RunCmdSSpec(git, ls.world, push, test);
          ExtendsIssue(w, ls.world, push);
          if !p.result.Ok? then Fail(p)
          else
            var u := RunCmdOSpec(git, p.world, RemoteUrlArgs(path), test);
            ExtendsIssue(w, p.world, RemoteUrlArgs(path));
            if !u.result.Ok? then Fail(u) else Step(Ok(()), u.world)
  }

  /** What the runner yields for a command that succeeds (or in dry-run). */
  function Printed(git: Argv -> Output, argv: Argv, test: bool): string {
    if test || git(argv).SpawnError? then "" else Trim(git(argv).stdout)
  }

  /** When every git command succeeds (or in dry-run), `quick` issues, in
      this order: `pull --rebase`, `config user.name`, `config user.email`,
      `add .`, `commit -m`, `branch --show-current`, `ls-remote` for that
      branch, the push of that branch, with `--set-upstream` exactly when
      `ls-remote` printed nothing, and the remote-URL query. */
  lemma QuickActionsInOrder(git: Argv -> Output, w: World, path: string, profile: Config.Profile, message: string, test: bool)
    requires test || forall a :: git(a).Output? && git(a).success
    ensures var branch := Printed(git, CurrentBranchArgs(path), test);
      var upstream := Printed(git, LsRemoteArgs(path, branch), test) == "";
      ExecuteQuickActionsSpec(git, w, path, profile, message, test)
        == Step(Ok(()), w.(issued := w.issued + CommitCommands(path, profile, message)
                          + [CurrentBranchArgs(path), LsRemoteArgs(path, branch),
                             GitCmd(path) + PushArgs(branch, upstream), RemoteUrlArgs(path)]))
  {
    var cs := CommitCommands(path, profile, message);
    assert forall k :: 0 <= k < |cs| ==> RunCmdSResult(test, git(cs[k])).Ok?;
    var w1 := w.(issued := w.issued + cs);
    var c := RunEachSpec(git, w, cs, test);
    assert c.result.Ok? && c.world == w1;
    assert c.result.value == ();
    var branch := Printed(git, CurrentBranchArgs(path), test);
    PrintedIsOutput(git, CurrentBranchArgs(path), test);
    var printed := Printed(git, LsRemoteArgs(path, branch), test);
    PrintedIsOutput(git, LsRemoteArgs(path, branch), test);
    var push := GitCmd(path) + PushArgs(branch, printed == "");
    assert RunCmdSResult(test, git(push)) == Ok(true);
    PrintedIsOutput(git, RemoteUrlArgs(path), test);
    var w2 := Issue(w1, CurrentBranchArgs(path));
    var w3 := Issue(w2, LsRemoteArgs(path, branch));
    var w4 := Issue(w3, push);
    var w5 := Issue(w4, RemoteUrlArgs(path));
    assert ExecuteQuickActionsSpec(git, w, path, profile, message, test) == Step(Ok(()), w5);
    AppendFour(w.issued + cs, CurrentBranchArgs(path), LsRemoteArgs(path, branch), push, RemoteUrlArgs(path));
  }

  /** When git succeeds (or in dry-run), `run_cmd_o` yields what `Printed`
      says. */
  lemma PrintedIsOutput(git: Argv -> Output, argv: Argv, test: bool)
    requires test || forall a :: git(a).Output? && git(a).success
    ensures RunCmdOResult(test, git(argv)) == Ok(Printed(git, argv, test))
  {
    if !test {
      assert git(argv).Output? && git(argv).success;
    }
  }

  lemma AppendFour<T>(s: seq<T>, a: T, b: T, c: T, d: T)
    ensures s + [a] + [b] + [c] + [d] == s + [a, b, c, d]
  {
  }

  /** In dry-run the branch and origin's answer both look empty, so the push
      names the empty branch and sets the upstream. */
  lemma DryRunPushSetsUpstream()
    ensures PushArgs(Printed(SpawnAlways, ["branch"], true), Printed(SpawnAlways, [], true) == "")
      == ["push", "origin", "", "--set-upstream"]
  {
  }

  /** A git that cannot be started (used to show that dry-run never looks at
      git). */
  function SpawnAlways(argv: Argv): Output {
    SpawnError
  }

  // ---------------------------------------------------------------- the loop

  /** The second closure of `quick`: the remote URL, the profile for it, and
      the commit and push. */
  function QuickExecuteSpec(git: Argv -> Output, w: World, path: string, order: seq<string>,
                            profiles: map<string, Config.Profile>, message: string, test: bool): (r: Step<()>)
    ensures r.world.paths == w.paths && w.issued <= r.world.issued
  {
    var u := RunCmdOSpec(git, w, RemoteUrlArgs(path), test);
    if !u.result.Ok? then Fail(u)
    else
      var p := SelectProfileSpec(u.world, order, profiles, u.result.value);
      if !p.result.Ok? then Fail(p)
      else ExecuteQuickActionsSpec(git, p.world, path, p.result.value, message, test)
  }

  /** Once the remote URL is read, the commit and push run as the profile
      `select_profile` picks for that URL, in the world the pick left; when
      no profile can be picked the process ends there. */
  lemma QuickExecuteAsSelected(git: Argv -> Output, w: World, path: string, order: seq<string>,
                               profiles: map<string, Config.Profile>, message: string, test: bool)
    requires RunCmdOResult(test, git(RemoteUrlArgs(path))).Ok?
    ensures var url := RunCmdOResult(test, git(RemoteUrlArgs(path))).value;
      var sel := SelectProfileSpec(Issue(w, RemoteUrlArgs(path)), order, profiles, url);
      var r := QuickExecuteSpec(git, w, path, order, profiles, message, test);
      (sel.result.Ok? ==> r == ExecuteQuickActionsSpec(git, sel.world, path, sel.result.value, message, test))
      && (!sel.result.Ok? ==> r == Step(Exit, sel.world))
  {
  }

  /** A remote URL that cannot be read ends `quick` before any profile is
      picked. */
  lemma QuickExecuteNeedsUrl(git: Argv -> Output, w: World, path: string, order: seq<string>,
                             profiles: map<string, Config.Profile>, message: string, test: bool)
    requires !RunCmdOResult(test, git(RemoteUrlArgs(path))).Ok?
    ensures QuickExecuteSpec(git, w, path, order, profiles, message, test)
      == Step(if git(RemoteUrlArgs(path)).SpawnError? then Panic else Exit, Issue(w, RemoteUrlArgs(path)))
  {
  }

  /** `quick` over the repositories in the order they come out of the
      locator. */
  function QuickSpec(git: Argv -> Output, w: World, repos: seq<string>, order: seq<string>,
                     profiles: map<string, Config.Profile>, message: string, skipInteractive: bool, test: bool)
    : (r: Step<seq<Decision>>)
    ensures r.result.Ok? && Stop !in r.result.value ==> |r.result.value| == |repos|
    ensures r.world.paths == w.paths && w.issued <= r.world.issued
  {
    ProcessReposKeepsPaths(w, repos, (w: World, p: string) => QuickConfirmSpec(git, w, p, skipInteractive, test),
                           (w: World, p: string) => QuickExecuteSpec(git, w, p, order, profiles, message, test));
    ProcessReposSpec(w, repos, (w: World, p: string) => QuickConfirmSpec(git, w, p, skipInteractive, test),
                     (w: World, p: string) => QuickExecuteSpec(git, w, p, order, profiles, message, test))
  }

  /** `quick` over a directory tree, the located set enumerated by
      `located` in the order the parallel walk produced: a loop that does
      not stop decides once per located repository, and a dry run looks at
      each located repository once, with one `status`. */
  function QuickTree(git: Argv -> Output, w: World, tree: Node, cwd: string, cwdParentHasGit: bool,
                     re: string -> bool, reverse: bool, located: seq<string>, order: seq<string>,
                     profiles: map<string, Config.Profile>, message: string, skipInteractive: bool, test: bool)
    : (r: Step<seq<Decision>>)
    requires Enumerates(located, Locate(tree, cwd, cwdParentHasGit, re, reverse))
    ensures r.result.Ok? ==> |r.result.value| <= |Locate(tree, cwd, cwdParentHasGit, re, reverse)|
    ensures r.result.Ok? && Stop !in r.result.value ==> |r.result.value| == |Locate(tree, cwd, cwdParentHasGit, re, reverse)|
    ensures test ==>
      r.result.Ok? && Stop !in r.result.value
      && |r.world.issued| == |w.issued| + |Locate(tree, cwd, cwdParentHasGit, re, reverse)|
      && forall p :: p in Locate(tree, cwd, cwdParentHasGit, re, reverse) ==> StatusArgs(p) in r.world.issued[|w.issued|..]
  {
    var found := Locate(tree, cwd, cwdParentHasGit, re, reverse);
    EnumeratesOnce(located, found);
    if test then
      QuickDryRunEachFound(git, w, located, found, order, profiles, message, skipInteractive);
      QuickSpec(git, w, located, order, profiles, message, skipInteractive, test)
    else QuickSpec(git, w, located, order, profiles, message, skipInteractive, test)
  }

  /** A dry run of `quick` over an enumeration of `found` issues one
      `status` per element, and each element's among them. */
  lemma QuickDryRunEachFound(git: Argv -> Output, w: World, located: seq<string>, found: set<string>, order: seq<string>,
                             profiles: map<string, Config.Profile>, message: string, skipInteractive: bool)
    requires Enumerates(located, found)
    ensures var r := QuickSpec(git, w, located, order, profiles, message, skipInteractive, true);
      r.result.Ok? && Stop !in r.result.value
      && |r.world.issued| == |w.issued| + |located|
      && forall p :: p in found ==> StatusArgs(p) in r.world.issued[|w.issued|..]
  {
    QuickDryRunOnlyLooks(git, w, located, order, profiles, message, skipInteractive);
    var looks := seq(|located|, k requires 0 <= k < |located| => StatusArgs(located[k]));
    var r := QuickSpec(git, w, located, order, profiles, message, skipInteractive, true);
    assert r.world.issued[|w.issued|..] == looks;
    assert Stop !in seq(|located|, k => Skip);
    forall p | p in found ensures StatusArgs(p) in looks {
      var k :| 0 <= k < |located| && located[k] == p;
      assert looks[k] == StatusArgs(p);
    }
  }

  /** Dry-run `quick` only looks: it asks nothing, commits nothing, and
      issues one `status` per repository. */
  lemma {:induction false} QuickDryRunOnlyLooks(git: Argv -> Output, w: World, repos: seq<string>, order: seq<string>,
                                                profiles: map<string, Config.Profile>, message: string, skipInteractive: bool)
    ensures QuickSpec(git, w, repos, order, profiles, message, skipInteractive, true)
      == Step(Ok(seq(|repos|, k => Skip)),
              w.(issued := w.issued + seq(|repos|, k requires 0 <= k < |repos| => StatusArgs(repos[k]))))
    decreases |repos|
  {
    var statuses := seq(|repos|, k requires 0 <= k < |repos| => StatusArgs(repos[k]));
    if repos == [] {
      assert w.(issued := w.issued + statuses) == w;
    } else {
      var w1 := Issue(w, StatusArgs(repos[0]));
      QuickDryRunFirst(git, w, repos, order, profiles, message, skipInteractive);
      QuickDryRunOnlyLooks(git, w1, repos[1..], order, profiles, message, skipInteractive);
      assert seq(|repos|, k => Skip) == [Skip] + seq(|repos[1..]|, k => Skip);
      assert statuses == [StatusArgs(repos[0])] + seq(|repos[1..]|, k requires 0 <= k < |repos[1..]| => StatusArgs(repos[1..][k]));
    }
  }

  lemma QuickDryRunFirst(git: Argv -> Output, w: World, repos: seq<string>, order: seq<string>,
                         profiles: map<string, Config.Profile>, message: string, skipInteractive: bool)
    requires repos != []
    ensures QuickSpec(git, w, repos, order, profiles, message, skipInteractive, true)
      == Prefixed([Skip], QuickSpec(git, Issue(w, StatusArgs(repos[0])), repos[1..], order, profiles, message, skipInteractive, true))
  {
    QuickDryRunSkips(git, w, repos[0], skipInteractive);
  }

  // ---------------------------------------------------------------- the same, on the host

  method QuickConfirm(h: Host, path: string, skipInteractive: bool, test: bool) returns (r: Run<Option<bool>>)
    modifies h
    ensures Step(r, h.State()) == QuickConfirmSpec(h.git, old(h.State()), path, skipInteractive, test)
  {
    var status := h.RunCmdO(StatusArgs(path), test);
    if !status.Ok? {
      return status.PropagateFailure();
    }
    if status.value == "" {
      return Ok(Some(false));
    }
    if skipInteractive {
      return Ok(Some(true));
    }
    var answer := h.Ask(YesNoMore);
    if answer.None? {
      return Ok(None);
    }
    var choice := Lower(answer.value);
    if choice == "y" {
      r := Ok(Some(true));
    } else if choice == "n" {
      r := Ok(Some(false));
    } else {
      var diff := h.RunCmdS(DiffArgs(path), test);
      if !diff.Ok? {
        return diff.PropagateFailure();
      }
      var url := h.RunCmdO(RemoteUrlArgs(path), test);
      if !url.Ok? {
        return url.PropagateFailure();
      }
      var branch := h.RunCmdO(CurrentBranchArgs(path), test);
      if !branch.Ok? {
        return branch.PropagateFailure();
      }
      r := Ok(Some(false));
    }
  }

  method SelectProfile(h: Host, store: Config.Store, url: string) returns (r: Run<Config.Profile>)
    requires store.Valid()
    modifies h
    ensures Step(r, h.State()) == SelectProfileSpec(old(h.State()), store.order, store.profiles, url)
  {
    var keys := store.FindProfilesByProvider(url);
    if |keys| == 1 {
      return Ok(store.profiles[keys[0]]);
    }
    if keys == [] {
      return store.ActiveProfile();
    }
    var selected := h.Ask(ListedKey(keys));
    if selected.Some? {
      r := Ok(store.profiles[selected.value]);
    } else {
      r := store.ActiveProfile();
    }
  }

  method ExecuteQuickActions(h: Host, path: string, profile: Config.Profile, message: string, test: bool) returns (r: Run<()>)
    modifies h
    ensures Step(r, h.State()) == ExecuteQuickActionsSpec(h.git, old(h.State()), path, profile, message, test)
  {
    var commits := CommitCommands(path, profile, message);
    var i := 0;
    while i < |commits|
      invariant 0 <= i <= |commits|
      invariant RunEachSpec(h.git, old(h.State()), commits, test) == RunEachSpec(h.git, h.State(), commits[i..], test)
    {
      assert commits[i..][0] == commits[i] && commits[i..][1..] == commits[i + 1..];
      var status := h.RunCmdS(commits[i], test);
      if !status.Ok? {
        return status.PropagateFailure();
      }
      i := i + 1;
    }
    assert commits[i..] == [];
    var branch := h.RunCmdO(CurrentBranchArgs(path), test);
    if !branch.Ok? {
      return branch.PropagateFailure();
    }
    var heads := h.RunCmdO(LsRemoteArgs(path, branch.value), test);
    if !heads.Ok? {
      return heads.PropagateFailure();
    }
    var push := CreatePushRequestArgs(branch.value, heads.value == "");
    var pushed := h.RunCmdS(GitCmd(path) + push, test);
    if !pushed.Ok? {
      return pushed.PropagateFailure();
    }
    var url := h.RunCmdO(RemoteUrlArgs(path), test);
    if !url.Ok? {
      return url.PropagateFailure();
    }
    r := Ok(());
  }

  method QuickExecute(h: Host, store: Config.Store, path: string, message: string, test: bool) returns (r: Run<()>)
    requires store.Valid()
    modifies h
    ensures Step(r, h.State()) == QuickExecuteSpec(h.git, old(h.State()), path, store.order, store.profiles, message, test)
  {
    var url := h.RunCmdO(RemoteUrlArgs(path), test);
    if !url.Ok? {
      return url.PropagateFailure();
    }
    var profile := SelectProfile(h, store, url.value);
    if !profile.Ok? {
      return profile.PropagateFailure();
    }
    r := ExecuteQuickActions(h, path, profile.value, message, test);
  }
}
