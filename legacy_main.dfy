/** The first generation's `quick` in `src/main.rs`: which repositories it
    visits (a walk from `.` that does not prune below repository roots, or
    only `.` itself), how it decides a repository has changes, and the
    commands it issues for one: add, commit with the active profile as
    author, read the branch, push with `--set-upstream`.

    Its `run_cmd_o` and `run_cmd_s` behave as `Cmd.RunCmdOResult` and
    `Cmd.RunCmdSResult`; `quick` always calls them outside dry-run. Its
    profile store is `Config.Store` with the kind stored under
    `Config.LegacyProviderKey`. */
module LegacyMain {
  import opened Common
  import opened Cmd
  import Config
  import Mass
  import Quick

  // ---------------------------------------------------------------- which repositories

  /** The `--mass` option: absent, given without a value, or given one. */
  function MassVal(mass: Option<Option<string>>): (r: string)
    ensures mass.None? ==> r == "false"
    ensures mass == Some(None) ==> r == ".*"
    ensures mass.Some? && mass.value.Some? ==> r == mass.value.value
  {
    match mass
    case Some(Some(v)) => v
    case Some(None) => ".*"
    case None => "false"
  }

  /** The walk's root: the one given, else `.`. */
  function RootOf(root: Option<string>): string {
    if root.Some? then root.value else "."
  }

  /** `find_git_repos_parallel(root, pattern)` over the tree `tree` at the
      root: the pattern `false` stands for the root alone, without a walk;
      any other pattern keeps every directory of the tree holding a `.git`
      directory whose path it matches, nested repositories included. */
  function LegacyFind(tree: Mass.Node, root: Option<string>, pattern: string,
                      compile: string -> (string -> bool)): (r: set<string>)
    ensures pattern == "false" ==> r == {RootOf(root)}
    ensures pattern != "false" ==> forall p :: p in r <==>
      (compile(pattern)(p) && exists e :: e in Mass.Entries(tree, RootOf(root), false) && Mass.IsRepo(e.node) && e.path == p)
  {
    if pattern == "false" then {RootOf(root)}
    else set p | p in Mass.AllRoots(Mass.Entries(tree, RootOf(root), false)) && compile(pattern)(p)
  }

  /** Without `--mass`, `quick` looks at the working directory only. */
  lemma WithoutMassOnlyHere(tree: Mass.Node, compile: string -> (string -> bool))
    ensures LegacyFind(tree, None, MassVal(None), compile) == {"."}
  {
  }

  /** A user pattern spelled `false` is taken for the sentinel: no walk. */
  lemma FalsePatternIsSentinel(tree: Mass.Node, compile: string -> (string -> bool))
    ensures LegacyFind(tree, None, MassVal(Some(Some("false"))), compile) == {"."}
  {
  }

  /** With `--mass` and no value, every repository below `.` is visited,
      given that `.*` matches every path. */
  lemma BareMassFindsAll(tree: Mass.Node, compile: string -> (string -> bool))
    requires forall p :: compile(".*")(p)
    ensures LegacyFind(tree, None, MassVal(Some(None)), compile) == Mass.AllRoots(Mass.Entries(tree, ".", false))
  {
  }

  /** Everything the pruned walk of `mass` finds with the same pattern (not
      reversed), the first generation finds too. */
  lemma LegacyFindsWhatMassFinds(tree: Mass.Node, root: string, pattern: string,
                                 compile: string -> (string -> bool))
    requires pattern != "false"
    ensures Mass.Locate(tree, root, false, compile(pattern), false) <= LegacyFind(tree, Some(root), pattern, compile)
  {
  }

  /** The `i`-th and later children of `n` are entries of `EntriesIn`. */
  lemma {:induction false} ChildEntry(n: Mass.Node, path: string, hidden: bool, i: nat, k: nat)
    requires i <= k < |n.children|
    ensures Mass.Entry(Mass.ChildPath(path, n.children[k].name), n.children[k], hidden)
      in Mass.EntriesIn(n, path, hidden, i)
    decreases k - i
  {
    if i < k {
      ChildEntry(n, path, hidden, i + 1, k);
    }
  }

  /** Unlike the pruned walk, the first generation does not stop at a
      repository root: a repository directly inside another is found, while
      `mass` finds only the outer one. */
  lemma NestedRepositoryFound(tree: Mass.Node, root: string, k: nat, compile: string -> (string -> bool), pattern: string)
    requires pattern != "false"
    requires Mass.IsRepo(tree) && k < |tree.children| && Mass.IsRepo(tree.children[k])
    requires compile(pattern)(Mass.ChildPath(root, tree.children[k].name))
    ensures Mass.ChildPath(root, tree.children[k].name) in LegacyFind(tree, Some(root), pattern, compile)
    ensures Mass.ChildPath(root, tree.children[k].name) !in Mass.Locate(tree, root, false, compile(pattern), false)
  {
    var c := tree.children[k];
    var p := Mass.ChildPath(root, c.name);
    ChildEntry(tree, root, Mass.HasGitDir(tree), 0, k);
    assert Mass.Entry(p, c, true) in Mass.Entries(tree, root, false);
    Mass.RepoHidesNested(tree, root);
    assert |p| > |root|;
  }

  // ---------------------------------------------------------------- has_changes

  /** `git status --porcelain`, run in the working directory: no `-C`. */
  const StatusArgs: Argv := ["status", "--porcelain"]

  /** `has_changes`: `Some(true)` when the status printed anything at all
      (untrimmed), `Some(false)` when it printed nothing, `None` (an error)
      when git could not be spawned or failed. */
  function HasChangesResult(o: Output): (r: Option<bool>)
    ensures r.None? <==> !(o.Output? && o.success)
    ensures r == Some(true) <==> o.Output? && o.success && o.stdout != ""
  {
    if o.Output? && o.success then Some(o.stdout != "") else None
  }

  method HasChanges(h: Host) returns (r: Option<bool>)
    modifies h
    ensures r == HasChangesResult(h.git(StatusArgs))
    ensures h.State() == Issue(old(h.State()), StatusArgs)
  {
    var o := h.RawOutput(StatusArgs);
    r := HasChangesResult(o);
  }

  // ---------------------------------------------------------------- push_to_origin

  /** `push_to_origin`: `git -C p push origin b`, with `--set-upstream`
      inserted after `push` when asked. */
  method PushToOrigin(repo: string, branch: string, setUpstream: bool) returns (args: Argv)
    ensures setUpstream ==> args == ["-C", repo, "push", "--set-upstream", "origin", branch]
    ensures !setUpstream ==> args == ["-C", repo, "push", "origin", branch]
    ensures args == PushOriginArgs(repo, branch, setUpstream)
  {
    args := ["-C", repo, "push", "origin", branch];
    if setUpstream {
      args := Insert(args, 3, "--set-upstream");
    }
  }

  function PushOriginArgs(repo: string, branch: string, setUpstream: bool): Argv {
    if setUpstream then ["-C", repo, "push", "--set-upstream", "origin", branch]
    else ["-C", repo, "push", "origin", branch]
  }

  /** The first generation's push and the current one carry the same
      arguments. */
  lemma PushSameArguments(repo: string, branch: string, setUpstream: bool)
    ensures multiset(PushOriginArgs(repo, branch, setUpstream)) == multiset(GitCmd(repo) + Quick.PushArgs(branch, setUpstream))
  {
    if setUpstream {
      var x, y, z := ["-C", repo, "push"], ["--set-upstream"], ["origin", branch];
      assert PushOriginArgs(repo, branch, true) == x + y + z;
      assert GitCmd(repo) + Quick.PushArgs(branch, true) == x + z + y;
      SwapMultiset(x, y, z);
    } else {
      assert PushOriginArgs(repo, branch, false) == GitCmd(repo) + Quick.PushArgs(branch, false);
    }
  }

  /** Only the place of `--set-upstream` differs: after `push` in the first
      generation, after the branch now. */
  lemma PushFlagMoved(repo: string, branch: string)
    ensures PushOriginArgs(repo, branch, true)[3] == "--set-upstream"
    ensures (GitCmd(repo) + Quick.PushArgs(branch, true))[5] == "--set-upstream"
    ensures PushOriginArgs(repo, branch, true) != GitCmd(repo) + Quick.PushArgs(branch, true)
  {
    var a, b := PushOriginArgs(repo, branch, true), GitCmd(repo) + Quick.PushArgs(branch, true);
    assert b[3] == "origin";
    assert a[3] != b[3];
  }

  /** Swapping two trailing pieces keeps the multiset. */
  lemma SwapMultiset<T>(x: seq<T>, y: seq<T>, z: seq<T>)
    ensures multiset(x + y + z) == multiset(x + z + y)
  {
    calc {
      multiset(x + y + z);
      multiset(x) + multiset(y) + multiset(z);
      multiset(x) + multiset(z) + multiset(y);
      multiset(x + z + y);
    }
  }

  // ---------------------------------------------------------------- quick

  /** The answers the `Confirm` prompt accepts: yes or no, in any case, or
      an empty line for the default. */
  predicate ConfirmValid(s: string) {
    Lower(s) in {"y", "yes", "n", "no", ""}
  }

  function AddArgs(repo: string): Argv {
    ["-C", repo, "add", "."]
  }

  /** The commit, authored by the active profile as `name <email>`. */
  function CommitArgs(repo: string, p: Config.Profile, message: string): Argv {
    ["-C", repo, "commit", "--author", p.username + " <" + p.email + ">", "-m", message]
  }

  /** The branch query, run in the working directory: no `-C`. */
  const BranchArgs: Argv := ["branch", "--show-current"]

  /** The body of `quick`'s loop for one repository. Any answer to the
      prompt, yes or no, goes on; only a failed prompt skips. The active
      profile is looked up after `add`, so a store without one ends the
      process between `add` and `commit`. `branch_exists` is fixed to
      false: the push always sets the upstream. */
  function QuickRepoSpec(git: Argv -> Output, w: World, order: seq<string>, profiles: map<string, Config.Profile>,
                         repo: string, message: string): (r: Step<()>)
    ensures w.issued < r.world.issued && r.world.paths == w.paths
    ensures r.world.issued[|w.issued|] == StatusArgs
  {
    var st := Issue(w, StatusArgs);
    if HasChangesResult(git(StatusArgs)) != Some(true) then Step(Ok(()), st)
    else
      var a := AskSpec(st, ConfirmValid);
      if a.answer.None? then Step(Ok(()), a.world)
      else
        var add := RunCmdSSpec(git, a.world, AddArgs(repo), false);
        if !add.result.Ok? then Fail(add)
        else
          var p := Config.FirstActive(order, profiles);
          if !p.Ok? then Step(p.PropagateFailure(), add.world)
          else
            var c := RunCmdSSpec(git, add.world, CommitArgs(repo, p.value, message), false);
            if !c.result.Ok? then Fail(c)
            else
              var b := RunCmdOSpec(git, c.world, BranchArgs, false);
              if !b.result.Ok? then Fail(b)
              else
                var push := RunCmdSSpec(git, b.world, PushOriginArgs(repo, b.result.value, true), false);
                if !push.result.Ok? then Fail(push) else Step(Ok(()), push.world)
  }

  /** `quick`'s loop: each repository in turn, until one ends the process. */
  function QuickSpec(git: Argv -> Output, w: World, order: seq<string>, profiles: map<string, Config.Profile>,
                     repos: seq<string>, message: string): (r: Step<()>)
    ensures w.issued <= r.world.issued && r.world.paths == w.paths
    decreases |repos|
  {
    if repos == [] then Step(Ok(()), w)
    else
      var s := QuickRepoSpec(git, w, order, profiles, repos[0], message);
      if !s.result.Ok? then s else QuickSpec(git, s.world, order, profiles, repos[1..], message)
  }

  /** `git(argv)` succeeds. */
  predicate Succeeds(git: Argv -> Output, argv: Argv) {
    git(argv).Output? && git(argv).success
  }

  /** With changes, a valid answer (even "no") and an active profile, and
      every command succeeding: status, add, commit, branch, and a push
      that sets the upstream, in this order. */
  lemma AnyAnswerCommitsAndPushes(git: Argv -> Output, w: World, order: seq<string>,
                                  profiles: map<string, Config.Profile>, repo: string, message: string, p: Config.Profile)
    requires git(StatusArgs).Output? && git(StatusArgs).success && git(StatusArgs).stdout != ""
    requires w.input != [] && w.input[0].Line? && ConfirmValid(w.input[0].text)
    requires Config.FirstActive(order, profiles) == Ok(p)
    requires Succeeds(git, AddArgs(repo)) && Succeeds(git, CommitArgs(repo, p, message)) && Succeeds(git, BranchArgs)
    requires Succeeds(git, PushOriginArgs(repo, Trim(git(BranchArgs).stdout), true))
    ensures QuickRepoSpec(git, w, order, profiles, repo, message) ==
      Step(Ok(()), World(w.issued + [StatusArgs, AddArgs(repo), CommitArgs(repo, p, message), BranchArgs,
        ["-C", repo, "push", "--set-upstream", "origin", Trim(git(BranchArgs).stdout)]], w.input[1..], w.paths))
  {
  }

  /** Without an active profile the repository is added to the index, then
      the process ends before the commit. */
  lemma NoActiveProfileExitsAfterAdd(git: Argv -> Output, w: World, order: seq<string>,
                                     profiles: map<string, Config.Profile>, repo: string, message: string)
    requires git(StatusArgs).Output? && git(StatusArgs).success && git(StatusArgs).stdout != ""
    requires w.input != [] && w.input[0].Line? && ConfirmValid(w.input[0].text)
    requires forall k :: k in order && k in profiles ==> !profiles[k].active
    requires Succeeds(git, AddArgs(repo))
    ensures QuickRepoSpec(git, w, order, profiles, repo, message) ==
      Step(Exit, World(w.issued + [StatusArgs, AddArgs(repo)], w.input[1..], w.paths))
  {
  }

  /** The status runs in the working directory whatever the repository: when
      the working directory is clean, no repository is touched, and only
      the status queries are issued, one per repository. */
  lemma {:induction false} CleanWorkingDirectorySkipsAll(git: Argv -> Output, w: World, order: seq<string>,
                                                         profiles: map<string, Config.Profile>, repos: seq<string>, message: string)
    requires git(StatusArgs) == Output("", true)
    ensures QuickSpec(git, w, order, profiles, repos, message) ==
      Step(Ok(()), w.(issued := w.issued + seq(|repos|, i => StatusArgs)))
    decreases |repos|
  {
    if repos != [] {
      var w1 := Issue(w, StatusArgs);
      CleanWorkingDirectorySkipsAll(git, w1, order, profiles, repos[1..], message);
      assert w1.issued + seq(|repos| - 1, i => StatusArgs) == w.issued + seq(|repos|, i => StatusArgs);
    } else {
      assert w.issued + seq(0, i => StatusArgs) == w.issued;
    }
  }

  /** One repository of `quick`. */
  method QuickRepo(h: Host, store: Config.Store, repo: string, message: string) returns (r: Run<()>)
    modifies h
    requires store.Valid()
    ensures Step(r, h.State()) == QuickRepoSpec(h.git, old(h.State()), store.order, store.profiles, repo, message)
  {
    var changes := HasChanges(h);
    if changes != Some(true) {
      return Ok(());
    }
    var answer := h.Ask(ConfirmValid);
    if answer.None? {
      return Ok(());
    }
    var _ :- h.RunCmdS(AddArgs(repo), false);
    var p :- store.ActiveProfile();
    var _ :- h.RunCmdS(CommitArgs(repo, p, message), false);
    var branch :- h.RunCmdO(BranchArgs, false);
    var push := PushToOrigin(repo, branch, true);
    var _ :- h.RunCmdS(push, false);
    r := Ok(());
  }

  /** `quick` over the repositories found. */
  method QuickRepos(h: Host, store: Config.Store, repos: seq<string>, message: string) returns (r: Run<()>)
    modifies h
    requires store.Valid()
    ensures Step(r, h.State()) == QuickSpec(h.git, old(h.State()), store.order, store.profiles, repos, message)
  {
    var i := 0;
    while i < |repos|
      invariant 0 <= i <= |repos|
      invariant QuickSpec(h.git, old(h.State()), store.order, store.profiles, repos, message)
        == QuickSpec(h.git, h.State(), store.order, store.profiles, repos[i..], message)
    {
      assert repos[i..][1..] == repos[i + 1..];
      var s := QuickRepo(h, store, repos[i], message);
      if !s.Ok? {
        return s;
      }
      i := i + 1;
    }
    assert repos[i..] == [];
    r := Ok(());
  }
}
