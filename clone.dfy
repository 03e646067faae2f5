/** The `clone` workflow of `src/cli/clone.rs`: list the active profile's
    collection at its provider, keep the repositories the pattern selects,
    optionally wipe the target directory, and then, for each repository,
    pull it when its destination exists or clone it otherwise.

    Each workflow step is a function from the world before it to a `Step`
    (outcome and world after), and a method on the `Host` is proved to
    behave exactly as that function. */
module Clone {
  import opened Common
  import opened Cmd
  import opened GitApi
  import GitProviders
  import Config
  import Helper

  /** `ControlFlow<()>`, the outcome of one repository's task. */
  datatype Flow = Continue | Break

  // ---------------------------------------------------------------- selection

  /** The filter in `clone`: the pattern matches the HTTP or the SSH URL,
      the whole test inverted by `reverse`. */
  predicate Selected(re: string -> bool, reverse: bool, repo: Repo) {
    (re(repo.httpUrl) || re(repo.sshUrl)) != reverse
  }

  function FilterRepos(re: string -> bool, reverse: bool, repos: seq<Repo>): (r: seq<Repo>)
    ensures forall x :: x in r <==> x in repos && Selected(re, reverse, x)
    ensures |r| <= |repos|
  {
    if repos == [] then []
    else
      var rest := FilterRepos(re, reverse, repos[1..]);
      assert forall x :: x in repos <==> x == repos[0] || x in repos[1..];
      if Selected(re, reverse, repos[0]) then [repos[0]] + rest else rest
  }

  /** The filter keeps order and multiplicity: filtering a concatenation
      filters each part. */
  lemma {:induction false} FilterAppend(re: string -> bool, reverse: bool, xs: seq<Repo>, ys: seq<Repo>)
    ensures FilterRepos(re, reverse, xs + ys) == FilterRepos(re, reverse, xs) + FilterRepos(re, reverse, ys)
    decreases |xs|
  {
    if xs != [] {
      assert (xs + ys)[1..] == xs[1..] + ys;
      FilterAppend(re, reverse, xs[1..], ys);
    } else {
      assert xs + ys == ys;
    }
  }

  /** A single repository is kept exactly when it is selected. */
  lemma FilterOne(re: string -> bool, reverse: bool, x: Repo)
    ensures FilterRepos(re, reverse, [x]) == if Selected(re, reverse, x) then [x] else []
  {
    assert [x][1..] == [];
  }

  /** Reversing the filter selects exactly the other repositories. */
  lemma FilterComplement(re: string -> bool, repos: seq<Repo>, x: Repo)
    requires x in repos
    ensures x in FilterRepos(re, false, repos) <==> x !in FilterRepos(re, true, repos)
  {
  }

  /** `get_clone_url`: the SSH URL for the pull option `ssh`, the HTTP URL
      for any other option. */
  function CloneUrl(pulloption: string, repo: Repo): (url: string)
    ensures pulloption == "ssh" ==> url == repo.sshUrl
    ensures pulloption != "ssh" ==> url == repo.httpUrl
  {
    if pulloption == "ssh" then repo.sshUrl else repo.httpUrl
  }

  /** Where a repository lives locally. */
  function Destination(targetbasepath: string, fullPath: string): string {
    targetbasepath + "/" + fullPath
  }

  /** The argument vector of `git clone`, with `-b <branch>` when a branch
      is requested. */
  function CloneArgs(branch: string, url: string, targetbasepath: string, dir: string): (args: Argv)
    ensures branch == "" ==> args == ["clone", url, Destination(targetbasepath, dir)]
    ensures branch != "" ==> args == ["clone", "-b", branch, url, Destination(targetbasepath, dir)]
  {
    if branch == "" then ["clone", url, Destination(targetbasepath, dir)]
    else ["clone", "-b", branch, url, Destination(targetbasepath, dir)]
  }

  /** `create_pull_request_args`: the three-element vector, and `-b` and the
      branch inserted after `clone` when a branch is requested. */
  method CreatePullRequestArgs(branch: string, url: string, targetbasepath: string, dir: string) returns (args: Argv)
    ensures args == CloneArgs(branch, url, targetbasepath, dir)
  {
    args := ["clone", url, targetbasepath + "/" + dir];
    if branch != "" {
      args := Insert(args, 1, "-b");
      args := Insert(args, 2, branch);
    }
  }

  // ---------------------------------------------------------------- branch resolution

  datatype Resolved = Branch(name: string) | NoHead

  function SymbolicRefArgs(dest: string): Argv {
    GitCmd(dest) + ["symbolic-ref", "refs/remotes/origin/HEAD", "--short"]
  }

  /** `get_current_pull_branch`: a requested branch is used as is, without
      asking git; otherwise origin's HEAD, without its `origin/` prefix. An
      origin without HEAD stops this repository; output without the prefix
      panics, which is always the case in dry-run, where the runner answers
      with empty output. */
  function ResolveBranchSpec(git: Argv -> Output, w: World, branch: string, dest: string, test: bool): (r: Step<Resolved>)
    ensures branch != "" ==> r == Step(Ok(Branch(branch)), w)
    ensures branch == "" ==> r.world == Issue(w, SymbolicRefArgs(dest))
    ensures branch == "" && test ==> r.result == Panic
    ensures r.result == Ok(NoHead) <==>
      branch == "" && !test && git(SymbolicRefArgs(dest)).Output? && !git(SymbolicRefArgs(dest)).success
    ensures branch == "" && r.result.Ok? && r.result.value.Branch? ==>
      !test && git(SymbolicRefArgs(dest)).Output? && git(SymbolicRefArgs(dest)).success
      && "origin/" + r.result.value.name == Trim(git(SymbolicRefArgs(dest)).stdout)
    ensures branch == "" && !test && git(SymbolicRefArgs(dest)).Output? && git(SymbolicRefArgs(dest)).success ==>
      if IsPrefix("origin/", Trim(git(SymbolicRefArgs(dest)).stdout)) then r.result.Ok? && r.result.value.Branch?
      else r.result == Panic
    ensures branch == "" && !test && git(SymbolicRefArgs(dest)).SpawnError? ==> r.result == Panic
    ensures r.result != Exit
  {
    if branch != "" then Step(Ok(Branch(branch)), w)
    else
      var s := RunCmdOSoftSpec(git, w, SymbolicRefArgs(dest), test);
      if !s.result.Ok? then Fail(s)
      else if !s.result.value.1 then Step(Ok(NoHead), s.world)
      else
        match StripPrefix(s.result.value.0, "origin/")
        case Some(b) => Step(Ok(Branch(b)), s.world)
        case None => Step(Panic, s.world)
  }

  // ---------------------------------------------------------------- pull

  function LsRemoteArgs(dest: string, branch: string): Argv {
    GitCmd(dest) + ["ls-remote", "--heads", "origin", branch]
  }

  function CheckoutArgs(dest: string, branch: string): Argv {
    GitCmd(dest) + ["checkout", branch]
  }

  function PullArgs(dest: string): Argv {
    GitCmd(dest) + ["pull"]
  }

  /** Every command issued between `w` and `w2` runs inside `dest`
      (`git -C dest ...`). */
  predicate Inside(w: World, w2: World, dest: string) {
    Extends(w, w2) && forall k :: |w.issued| <= k < |w2.issued| ==> GitCmd(dest) <= w2.issued[k]
  }

  lemma InsideIssue(w: World, w2: World, dest: string, argv: Argv)
    requires Inside(w, w2, dest) && GitCmd(dest) <= argv
    ensures Inside(w, Issue(w2, argv), dest)
  {
  }

  /** `pull` once the branch `b` is known: ask origin whether it has that
      branch; if it has, check it out and pull. */
  function PullBranchSpec(git: Argv -> Output, w: World, b: string, dest: string, test: bool): (r: Step<Flow>)
    ensures r.result != Ok(Break)
  {
    var s2 := RunCmdOSpec(git, w, LsRemoteArgs(dest, b), test);
    if !s2.result.Ok? then Fail(s2)
    else if s2.result.value == "" then Step(Ok(Continue), s2.world)
    else
      var s3 := RunCmdSSpec(git, s2.world, CheckoutArgs(dest, b), test);
      if !s3.result.Ok? then Fail(s3)
      else
        var s4 := RunCmdSSpec(git, s3.world, PullArgs(dest), test);
        if !s4.result.Ok? then Fail(s4) else Step(Ok(Continue), s4.world)
  }

  /** `pull`: resolve the branch, stopping this repository when origin has
      no HEAD, and go on with that branch. */
  function PullSpec(git: Argv -> Output, w: World, branch: string, dest: string, test: bool): (r: Step<Flow>)
    ensures r.result == Ok(Break) <==> ResolveBranchSpec(git, w, branch, dest, test).result == Ok(NoHead)
  {
    var s1 := ResolveBranchSpec(git, w, branch, dest, test);
    if !s1.result.Ok? then Fail(s1)
    else if s1.result.value.NoHead? then Step(Ok(Break), s1.world)
    else PullBranchSpec(git, s1.world, s1.result.value.name, dest, test)
  }

  lemma PullBranchStaysInside(git: Argv -> Output, w0: World, w: World, b: string, dest: string, test: bool)
    requires Inside(w0, w, dest)
    ensures Inside(w0, PullBranchSpec(git, w, b, dest, test).world, dest)
  {
    var w2 := Issue(w, LsRemoteArgs(dest, b));
    InsideIssue(w0, w, dest, LsRemoteArgs(dest, b));
    var w3 := Issue(w2, CheckoutArgs(dest, b));
    InsideIssue(w0, w2, dest, CheckoutArgs(dest, b));
    InsideIssue(w0, w3, dest, PullArgs(dest));
    var r := PullBranchSpec(git, w, b, dest, test);
    assert r.world == w2 || r.world == w3 || r.world == Issue(w3, PullArgs(dest));
  }

  /** A pull never leaves its repository: every command it issues is
      `git -C dest ...`, and it reads no answer and touches no path. */
  lemma PullStaysInside(git: Argv -> Output, w: World, branch: string, dest: string, test: bool)
    ensures Inside(w, PullSpec(git, w, branch, dest, test).world, dest)
  {
    var s1 := ResolveBranchSpec(git, w, branch, dest, test);
    assert Inside(w, s1.world, dest) by {
      if branch == "" {
        InsideIssue(w, w, dest, SymbolicRefArgs(dest));
      }
    }
    if s1.result.Ok? && s1.result.value.Branch? {
      PullBranchStaysInside(git, w, s1.world, s1.result.value.name, dest, test);
    }
  }

  /** Once the branch is known, `checkout` and then `pull` run exactly when
      `ls-remote` printed something; otherwise nothing more happens and the
      repository is left alone. */
  lemma PullChecksOutIffRemoteHasBranch(git: Argv -> Output, w: World, b: string, dest: string, test: bool)
    ensures var ls := RunCmdOResult(test, git(LsRemoteArgs(dest, b)));
      var w2 := Issue(w, LsRemoteArgs(dest, b));
      var r := PullBranchSpec(git, w, b, dest, test);
      (ls == Ok("") ==> r == Step(Ok(Continue), w2))
      && (ls.Ok? && ls.value != "" ==> |r.world.issued| > |w2.issued| && r.world.issued[|w2.issued|] == CheckoutArgs(dest, b))
      && (ls.Ok? && ls.value != "" && RunCmdSResult(test, git(CheckoutArgs(dest, b))).Ok? ==>
            r.world == Issue(Issue(w2, CheckoutArgs(dest, b)), PullArgs(dest)))
  {
  }

  /** In dry-run with a requested branch, `ls-remote` looks empty: only that
      one command is issued and nothing is checked out or pulled. */
  lemma DryRunPullOnlyAsks(git: Argv -> Output, w: World, branch: string, dest: string)
    requires branch != ""
    ensures PullSpec(git, w, branch, dest, true) == Step(Ok(Continue), Issue(w, LsRemoteArgs(dest, branch)))
  {
  }

  // ---------------------------------------------------------------- one repository

  /** The task for one repository: pull when the destination exists,
      otherwise clone it there. */
  function CloneOneSpec(git: Argv -> Output, w: World, profile: Config.Profile, branch: string, test: bool, repo: Repo)
    : (r: Step<Flow>)
    ensures Extends(w, r.world)
  {
    var dest := Destination(profile.targetbasepath, repo.fullPath);
    if dest in w.paths then PullStaysInside(git, w, branch, dest, test); PullSpec(git, w, branch, dest, test)
    else
      var s := RunCmdSSpec(git, w, CloneArgs(branch, CloneUrl(profile.pulloption, repo), profile.targetbasepath, repo.fullPath), test);
      if s.result.Ok? then Step(Ok(Continue), s.world) else Fail(s)
  }

  /** An existing destination is only pulled (every command runs inside it,
      so none is a `clone`); a missing one gets exactly one `git clone`, into
      the very path whose existence was checked. */
  lemma CloneOrPull(git: Argv -> Output, w: World, profile: Config.Profile, branch: string, test: bool, repo: Repo)
    ensures var dest := Destination(profile.targetbasepath, repo.fullPath);
      var r := CloneOneSpec(git, w, profile, branch, test, repo);
      (dest in w.paths ==> Inside(w, r.world, dest))
      && (dest !in w.paths ==>
            r.world.issued == w.issued + [CloneArgs(branch, CloneUrl(profile.pulloption, repo), profile.targetbasepath, repo.fullPath)])
  {
    var dest := Destination(profile.targetbasepath, repo.fullPath);
    if dest in w.paths {
      PullStaysInside(git, w, branch, dest, test);
    }
  }

  // ---------------------------------------------------------------- all repositories

  /** The tasks run one after another; each one's `ControlFlow` is dropped,
      so a `Break` goes on to the next repository; only ending the process
      stops the run. The value is the list of the tasks' outcomes. */
  function CloneEachSpec(git: Argv -> Output, w: World, profile: Config.Profile, branch: string, test: bool, repos: seq<Repo>)
    : (r: Step<seq<Flow>>)
    ensures r.result.Ok? ==> |r.result.value| == |repos|
    ensures Extends(w, r.world)
    decreases |repos|
  {
    if repos == [] then Step(Ok([]), w)
    else
      var s := CloneOneSpec(git, w, profile, branch, test, repos[0]);
      if !s.result.Ok? then Fail(s)
      else
        Prefixed([s.result.value], CloneEachSpec(git, s.world, profile, branch, test, repos[1..]))
  }

  /** A repository whose task ends in `Break` does not stop the others: the
      run goes on with the remaining repositories from where that task
      left the world. */
  lemma {:induction false} BreakDoesNotStop(git: Argv -> Output, w: World, profile: Config.Profile, branch: string, test: bool, repos: seq<Repo>)
    requires repos != [] && CloneOneSpec(git, w, profile, branch, test, repos[0]).result == Ok(Break)
    ensures var s := CloneOneSpec(git, w, profile, branch, test, repos[0]);
      var rest := CloneEachSpec(git, s.world, profile, branch, test, repos[1..]);
      CloneEachSpec(git, w, profile, branch, test, repos).world == rest.world
      && CloneEachSpec(git, w, profile, branch, test, repos).result.Ok? == rest.result.Ok?
      && (rest.result.Ok? ==> CloneEachSpec(git, w, profile, branch, test, repos).result == Ok([Break] + rest.result.value))
  {
  }

  /** The order in which `run_in_threads` with `n` workers hands the
      repositories out (worker after worker in the sequential model). */
  function Dispatched(n: nat, repos: seq<Repo>): (r: seq<Repo>)
    requires n >= 1
    ensures |r| == |repos| && multiset(r) == multiset(repos)
  {
    var pick := (t: nat, x: Repo) => x;
    Helper.ScheduleResults(n, repos, pick);
    ApplyPickIsIdentity(n, repos);
    Helper.Apply(n, repos, pick, Helper.Schedule(n, |repos|))
  }

  lemma {:induction false} ApplyPickIsIdentity(n: nat, repos: seq<Repo>)
    requires n >= 1
    ensures Helper.Apply(n, repos, (t: nat, x: Repo) => x, Helper.Range(|repos|)) == repos
  {
    var pick := (t: nat, x: Repo) => x;
    var idx := Helper.Range(|repos|);
    var a := Helper.Apply(n, repos, pick, idx);
    assert forall k :: 0 <= k < |idx| ==> a[k] == repos[k] by {
      forall k | 0 <= k < |idx|
        ensures a[k] == repos[k]
      {
        ApplyAt(n, repos, pick, idx, k);
      }
    }
  }

  lemma {:induction false} ApplyAt(n: nat, repos: seq<Repo>, pick: (nat, Repo) -> Repo, idx: seq<nat>, k: nat)
    requires n >= 1 && Helper.Below(idx, |repos|) && k < |idx|
    requires forall t, x :: pick(t, x) == x
    ensures Helper.Apply(n, repos, pick, idx)[k] == repos[idx[k]]
  {
    if k > 0 {
      ApplyAt(n, repos, pick, idx[1..], k - 1);
    }
  }

  // ---------------------------------------------------------------- the workflow

  /** `remove_directory_recursively`: the target directory goes, if it
      exists. `removable` says whether the file system lets `remove_dir_all`
      succeed; when it does not, the error is printed and the walk carries on
      with the directory in place. */
  function RemoveBase(w: World, path: string, removable: bool): (w': World)
    ensures w'.issued == w.issued && w'.input == w.input
    ensures removable ==> path !in w'.paths
    ensures removable ==> forall p :: p in w.paths && p != path && !IsPrefix(path + "/", p) ==> p in w'.paths
    ensures path !in w.paths || !removable ==> w' == w
  {
    if path in w.paths && removable then w.(paths := RemoveTree(w.paths, path)) else w
  }

  /** `clone`: the active profile (or the process ends), its provider (or a
      panic), the listing of `directory` with the profile's token, the
      filter, the optional wipe, and the tasks handed to as many workers as
      the host reports. */
  function CloneSpec(git: Argv -> Output, w: World, fetch: Request -> Fetched, order: seq<string>,
                     profiles: map<string, Config.Profile>, directory: string, force: bool, removable: bool, user: bool,
                     branch: string, re: string -> bool, reverse: bool, test: bool, parallelism: Option<nat>)
    : (r: Step<seq<Flow>>)
    ensures !Config.FirstActive(order, profiles).Ok? ==> r == Step(Exit, w)
    ensures r.result.Ok? ==> Config.FirstActive(order, profiles).Ok? && parallelism.Some?
    ensures parallelism == Some(0) && r.result.Ok? ==> r.result.value == []
    ensures !force ==> Extends(w, r.world)
  {
    var active := Config.FirstActive(order, profiles);
    if !active.Ok? then Step(active.PropagateFailure(), w)
    else
      var provider := GitProviders.GetProvider(active.value.provider);
      if !provider.Ok? then Step(provider.PropagateFailure(), w)
      else
        var listing := GitProviders.GetRepos(fetch, provider.value, Some(active.value.token), directory, user, active.value);
        if !listing.repos.Ok? then Step(listing.repos.PropagateFailure(), w)
        else
          var repos := FilterRepos(re, reverse, listing.repos.value);
          var w1 := if force then RemoveBase(w, active.value.targetbasepath, removable) else w;
          if parallelism.None? then Step(Panic, w1)
          else if parallelism.value == 0 then Step(Ok([]), w1)
          else CloneEachSpec(git, w1, active.value, branch, test, Dispatched(parallelism.value, repos))
  }

  /** Once the listing succeeds and the host reports workers: with `force`
      (and a removal the file system allows) the target directory is gone
      before any task runs, and the tasks are exactly those for the selected
      repositories, in worker order, one outcome each. */
  lemma CloneProcessesEverySelected(git: Argv -> Output, w: World, fetch: Request -> Fetched, order: seq<string>,
                                    profiles: map<string, Config.Profile>, directory: string, force: bool,
                                    removable: bool, user: bool,
                                    branch: string, re: string -> bool, reverse: bool, test: bool, n: nat)
    requires n >= 1
    requires Config.FirstActive(order, profiles).Ok?
    requires var active := Config.FirstActive(order, profiles).value;
      GitProviders.GetProvider(active.provider).Ok?
      && GitProviders.GetRepos(fetch, GitProviders.GetProvider(active.provider).value, Some(active.token), directory, user, active).repos.Ok?
    ensures var active := Config.FirstActive(order, profiles).value;
      var all := GitProviders.GetRepos(fetch, GitProviders.GetProvider(active.provider).value, Some(active.token), directory, user, active).repos.value;
      var w1 := if force then RemoveBase(w, active.targetbasepath, removable) else w;
      var r := CloneSpec(git, w, fetch, order, profiles, directory, force, removable, user, branch, re, reverse, test, Some(n));
      (force && removable ==> active.targetbasepath !in w1.paths)
      && (!force ==> w1 == w)
      && r == CloneEachSpec(git, w1, active, branch, test, Dispatched(n, FilterRepos(re, reverse, all)))
      && (r.result.Ok? ==> |r.result.value| == |FilterRepos(re, reverse, all)|)
  {
  }

  // ---------------------------------------------------------------- the same, on the host

  method ResolveBranch(h: Host, branch: string, dest: string, test: bool) returns (r: Run<Resolved>)
    modifies h
    ensures Step(r, h.State()) == ResolveBranchSpec(h.git, old(h.State()), branch, dest, test)
  {
    if branch != "" {
      return Ok(Branch(branch));
    }
    var soft := h.RunCmdOSoft(SymbolicRefArgs(dest), test);
    if !soft.Ok? {
      return soft.PropagateFailure();
    }
    var (out, ok) := soft.value;
    if !ok {
      return Ok(NoHead);
    }
    var stripped := StripPrefix(out, "origin/");
    if stripped.None? {
      return Panic;
    }
    r := Ok(Branch(stripped.value));
  }

  method Pull(h: Host, branch: string, dest: string, test: bool) returns (r: Run<Flow>)
    modifies h
    ensures Step(r, h.State()) == PullSpec(h.git, old(h.State()), branch, dest, test)
  {
    var resolved := ResolveBranch(h, branch, dest, test);
    if !resolved.Ok? {
      return resolved.PropagateFailure();
    }
    if resolved.value.NoHead? {
      return Ok(Break);
    }
    var b := resolved.value.name;
    var exists_ := h.RunCmdO(LsRemoteArgs(dest, b), test);
    if !exists_.Ok? {
      return exists_.PropagateFailure();
    }
    if exists_.value != "" {
      var checkedOut := h.RunCmdS(CheckoutArgs(dest, b), test);
      if !checkedOut.Ok? {
        return checkedOut.PropagateFailure();
      }
      var pulled := h.RunCmdS(PullArgs(dest), test);
      if !pulled.Ok? {
        return pulled.PropagateFailure();
      }
    }
    r := Ok(Continue);
  }

  method CloneOne(h: Host, profile: Config.Profile, branch: string, test: bool, repo: Repo) returns (r: Run<Flow>)
    modifies h
    ensures Step(r, h.State()) == CloneOneSpec(h.git, old(h.State()), profile, branch, test, repo)
  {
    var dest := profile.targetbasepath + "/" + repo.fullPath;
    var url := CloneUrl(profile.pulloption, repo);
    if dest in h.paths {
      r := Pull(h, branch, dest, test);
    } else {
      var args := CreatePullRequestArgs(branch, url, profile.targetbasepath, repo.fullPath);
      var status := h.RunCmdS(args, test);
      if !status.Ok? {
        return status.PropagateFailure();
      }
      r := Ok(Continue);
    }
  }

  method CloneEach(h: Host, profile: Config.Profile, branch: string, test: bool, repos: seq<Repo>) returns (r: Run<seq<Flow>>)
    modifies h
    ensures Step(r, h.State()) == CloneEachSpec(h.git, old(h.State()), profile, branch, test, repos)
  {
    var flows: seq<Flow> := [];
    var i := 0;
    assert repos[0..] == repos;
    PrefixedEmpty(CloneEachSpec(h.git, h.State(), profile, branch, test, repos));
    while i < |repos|
      invariant 0 <= i <= |repos|
      invariant CloneEachSpec(h.git, old(h.State()), profile, branch, test, repos)
        == Prefixed(flows, CloneEachSpec(h.git, h.State(), profile, branch, test, repos[i..]))
    {
      ghost var before := h.State();
      CloneEachUnfold(h.git, before, profile, branch, test, repos, i);
      var flow := CloneOne(h, profile, branch, test, repos[i]);
      if !flow.Ok? {
        return flow.PropagateFailure();
      }
      PrefixedStep(flows, flow.value, CloneEachSpec(h.git, h.State(), profile, branch, test, repos[i + 1..]));
      flows := flows + [flow.value];
      i := i + 1;
    }
    assert repos[i..] == [] && flows + [] == flows;
    r := Ok(flows);
  }

  lemma CloneEachUnfold(git: Argv -> Output, w: World, profile: Config.Profile, branch: string, test: bool,
                        repos: seq<Repo>, i: nat)
    requires i < |repos|
    ensures var s := CloneOneSpec(git, w, profile, branch, test, repos[i]);
      CloneEachSpec(git, w, profile, branch, test, repos[i..])
      == if !s.result.Ok? then Fail(s)
         else Prefixed([s.result.value], CloneEachSpec(git, s.world, profile, branch, test, repos[i + 1..]))
  {
    assert repos[i..][0] == repos[i] && repos[i..][1..] == repos[i + 1..];
  }

  /** `clone` on the host, with the store's profiles. */
  method Clone(h: Host, store: Config.Store, fetch: Request -> Fetched, directory: string, force: bool, removable: bool, user: bool,
               branch: string, re: string -> bool, reverse: bool, test: bool, parallelism: Option<nat>)
    returns (r: Run<seq<Flow>>)
    requires store.Valid()
    modifies h
    ensures Step(r, h.State()) == CloneSpec(h.git, old(h.State()), fetch, store.order, store.profiles, directory,
                                            force, removable, user, branch, re, reverse, test, parallelism)
  {
    var active :- store.ActiveProfile();
    var provider :- GitProviders.GetProvider(active.provider);
    var listing := GitProviders.GetRepos(fetch, provider, Some(active.token), directory, user, active);
    var all :- listing.repos;
    var repos := FilterRepos(re, reverse, all);
    if force && active.targetbasepath in h.paths && removable {
      h.RemoveDirAll(active.targetbasepath);
    }
    if parallelism.None? {
      return Panic;
    }
    var n := parallelism.value;
    if n == 0 {
      return Ok([]);
    }
    r := CloneEach(h, active, branch, test, Dispatched(n, repos));
  }
}
