/** `src/cli/mass.rs`: finding the git repositories below the working
    directory, the confirm/skip/stop loop over them (`process_repos`, shared
    with `quick`), and the `mass` command's confirmation and argument
    vector.

    The file system is a finite tree of `Node`s; a path is the walk's root
    path joined with `/` and each name on the way down. */
module Mass {
  import opened Common
  import opened Cmd

  // ---------------------------------------------------------------- the file tree

  /** A directory entry: its name, whether it is a directory, and what it
      holds. */
  datatype Node = Node(name: string, isDir: bool, children: seq<Node>)

  /** `p.join(".git").is_dir()`. */
  predicate HasGitDir(n: Node) {
    exists k :: 0 <= k < |n.children| && n.children[k].name == ".git" && n.children[k].isDir
  }

  /** A repository root: a directory holding a `.git` directory. */
  predicate IsRepo(n: Node) {
    n.isDir && HasGitDir(n)
  }

  function ChildPath(parent: string, name: string): string {
    parent + "/" + name
  }

  // ---------------------------------------------------------------- the pruned walk

  /** The repository roots the walk yields at and below `n`, whose path is
      `path`: an entry whose parent holds a `.git` directory is neither
      yielded nor entered (`filter_entry`); of the others, the directories
      holding a `.git` directory are kept. */
  function Found(n: Node, path: string, parentHasGit: bool): set<string>
    decreases n, |n.children| + 1
  {
    if parentHasGit then {}
    else (if IsRepo(n) then {path} else {}) + FoundIn(n, path, 0)
  }

  /** `Found` over the children of `n` from the `i`-th on. */
  function FoundIn(n: Node, path: string, i: nat): set<string>
    requires i <= |n.children|
    decreases n, |n.children| - i
  {
    if i == |n.children| then {}
    else Found(n.children[i], ChildPath(path, n.children[i].name), HasGitDir(n)) + FoundIn(n, path, i + 1)
  }

  // ---------------------------------------------------------------- reference: every entry

  /** An entry of the tree with its path, and whether some directory above
      it (the walk root's parent included) holds a `.git` directory. */
  datatype Entry = Entry(path: string, node: Node, hidden: bool)

  /** All entries at and below `n`, with no pruning. */
  function Entries(n: Node, path: string, hidden: bool): set<Entry>
    decreases n, |n.children| + 1
  {
    {Entry(path, n, hidden)} + EntriesIn(n, path, hidden || HasGitDir(n), 0)
  }

  function EntriesIn(n: Node, path: string, hidden: bool, i: nat): set<Entry>
    requires i <= |n.children|
    decreases n, |n.children| - i
  {
    if i == |n.children| then {}
    else Entries(n.children[i], ChildPath(path, n.children[i].name), hidden) + EntriesIn(n, path, hidden, i + 1)
  }

  /** The repository roots among `es` that nothing above hides. */
  function VisibleRoots(es: set<Entry>): set<string> {
    set e | e in es && !e.hidden && IsRepo(e.node) :: e.path
  }

  /** The repository roots among `es`, hidden or not. */
  function AllRoots(es: set<Entry>): set<string> {
    set e | e in es && IsRepo(e.node) :: e.path
  }

  lemma VisibleRootsUnion(a: set<Entry>, b: set<Entry>)
    ensures VisibleRoots(a + b) == VisibleRoots(a) + VisibleRoots(b)
  {
  }

  /** Below a hidden entry everything is hidden. */
  lemma {:induction false} HiddenBelow(n: Node, path: string)
    ensures VisibleRoots(Entries(n, path, true)) == {}
    decreases n, |n.children| + 1
  {
    HiddenBelowIn(n, path, 0);
    VisibleRootsUnion({Entry(path, n, true)}, EntriesIn(n, path, true, 0));
  }

  lemma {:induction false} HiddenBelowIn(n: Node, path: string, i: nat)
    requires i <= |n.children|
    ensures VisibleRoots(EntriesIn(n, path, true, i)) == {}
    decreases n, |n.children| - i
  {
    if i < |n.children| {
      var c := n.children[i];
      HiddenBelow(c, ChildPath(path, c.name));
      HiddenBelowIn(n, path, i + 1);
      VisibleRootsUnion(Entries(c, ChildPath(path, c.name), true), EntriesIn(n, path, true, i + 1));
    }
  }

  /** The pruned walk finds exactly the repository roots of the whole tree
      that have no `.git` directory in any directory above them. */
  lemma {:induction false} FoundIsVisibleRoots(n: Node, path: string, parentHasGit: bool)
    ensures Found(n, path, parentHasGit) == VisibleRoots(Entries(n, path, parentHasGit))
    decreases n, |n.children| + 1
  {
    if parentHasGit {
      HiddenBelow(n, path);
    } else {
      FoundInIsVisibleRoots(n, path, 0);
      VisibleRootsUnion({Entry(path, n, false)}, EntriesIn(n, path, HasGitDir(n), 0));
    }
  }

  lemma {:induction false} FoundInIsVisibleRoots(n: Node, path: string, i: nat)
    requires i <= |n.children|
    ensures FoundIn(n, path, i) == VisibleRoots(EntriesIn(n, path, HasGitDir(n), i))
    decreases n, |n.children| - i
  {
    if i < |n.children| {
      var c := n.children[i];
      FoundIsVisibleRoots(c, ChildPath(path, c.name), HasGitDir(n));
      FoundInIsVisibleRoots(n, path, i + 1);
      VisibleRootsUnion(Entries(c, ChildPath(path, c.name), HasGitDir(n)), EntriesIn(n, path, HasGitDir(n), i + 1));
    }
  }

  /** A repository root hides everything below it: nested repositories are
      never found. */
  lemma {:induction false} RepoHidesNested(n: Node, path: string)
    requires IsRepo(n)
    ensures Found(n, path, false) == {path}
  {
    NothingFoundBelowGit(n, path, 0);
  }

  lemma {:induction false} NothingFoundBelowGit(n: Node, path: string, i: nat)
    requires HasGitDir(n) && i <= |n.children|
    ensures FoundIn(n, path, i) == {}
    decreases |n.children| - i
  {
    if i < |n.children| {
      NothingFoundBelowGit(n, path, i + 1);
    }
  }

  /** `find_git_repos_parallel(None, pattern, reverse)`: the pruned walk from
      the working directory `cwd`, keeping the repository roots whose path
      the pattern matches, the test inverted by `reverse`. The collection
      order is the thread pool's, so the result is a set. */
  function Locate(tree: Node, cwd: string, cwdParentHasGit: bool, re: string -> bool, reverse: bool): (r: set<string>)
    ensures forall p :: p in r <==>
      (re(p) != reverse && exists e :: e in Entries(tree, cwd, cwdParentHasGit) && !e.hidden && IsRepo(e.node) && e.path == p)
  {
    FoundIsVisibleRoots(tree, cwd, cwdParentHasGit);
    set p | p in Found(tree, cwd, cwdParentHasGit) && re(p) != reverse
  }

  /** Reversing the filter finds exactly the other repositories. */
  lemma LocateComplement(tree: Node, cwd: string, cwdParentHasGit: bool, re: string -> bool)
    ensures Locate(tree, cwd, cwdParentHasGit, re, false) + Locate(tree, cwd, cwdParentHasGit, re, true)
      == Found(tree, cwd, cwdParentHasGit)
    ensures Locate(tree, cwd, cwdParentHasGit, re, false) * Locate(tree, cwd, cwdParentHasGit, re, true) == {}
  {
  }

  // ---------------------------------------------------------------- process_repos

  /** What happened to one repository: its command ran, it was skipped, or
      the prompt failed and the loop stopped there. */
  datatype Decision = Execute | Skip | Stop

  /** The loop over the repositories in the order given: the confirmation
      decides (`Some(true)` run, `Some(false)` skip, `None` a prompt error
      that stops the loop); the process may also end inside either step.
      The value is the decision for each repository visited. */
  function ProcessReposSpec(w: World, repos: seq<string>, confirm: (World, string) -> Step<Option<bool>>,
                            execute: (World, string) -> Step<()>): (r: Step<seq<Decision>>)
    ensures r.result.Ok? ==> |r.result.value| <= |repos|
    ensures r.result.Ok? ==> forall k :: 0 <= k < |r.result.value| - 1 ==> r.result.value[k] != Stop
    ensures r.result.Ok? && Stop !in r.result.value ==> |r.result.value| == |repos|
    decreases |repos|
  {
    if repos == [] then Step(Ok([]), w)
    else
      var c := confirm(w, repos[0]);
      if !c.result.Ok? then Fail(c)
      else if c.result.value.None? then Step(Ok([Stop]), c.world)
      else if !c.result.value.value then Prefixed([Skip], ProcessReposSpec(c.world, repos[1..], confirm, execute))
      else
        var e := execute(c.world, repos[0]);
        if !e.result.Ok? then Fail(e)
        else Prefixed([Execute], ProcessReposSpec(e.world, repos[1..], confirm, execute))
  }

  /** The loop over `a + b` is the loop over `a` followed by the loop over
      `b`, when nothing in `a` stops it. */
  lemma {:induction false} ProcessReposAppend(w: World, a: seq<string>, b: seq<string>,
                                              confirm: (World, string) -> Step<Option<bool>>, execute: (World, string) -> Step<()>)
    requires ProcessReposSpec(w, a, confirm, execute).result.Ok?
    requires Stop !in ProcessReposSpec(w, a, confirm, execute).result.value
    ensures var ra := ProcessReposSpec(w, a, confirm, execute);
      ProcessReposSpec(w, a + b, confirm, execute) == Prefixed(ra.result.value, ProcessReposSpec(ra.world, b, confirm, execute))
    decreases |a|
  {
    var ra := ProcessReposSpec(w, a, confirm, execute);
    if a == [] {
      assert a + b == b;
      PrefixedEmpty(ProcessReposSpec(w, b, confirm, execute));
    } else {
      assert (a + b)[0] == a[0] && (a + b)[1..] == a[1..] + b;
      var c := confirm(w, a[0]);
      var w1 := if c.result.value.value then execute(c.world, a[0]).world else c.world;
      var d := if c.result.value.value then Execute else Skip;
      var rest := ProcessReposSpec(w1, a[1..], confirm, execute);
      assert ra == Prefixed([d], rest);
      ProcessReposAppend(w1, a[1..], b, confirm, execute);
      PrefixedAssoc([d], rest.result.value, ProcessReposSpec(rest.world, b, confirm, execute));
    }
  }

  /** The decision at repository `x`, reached after the repositories `a`
      without a stop: `x` runs exactly when its confirmation, in the world
      the loop reached, answers `Some(true)`, and the command then runs in
      the world the prompt left; `Some(false)` skips it; `None` stops the
      loop in the world the failed prompt left, so nothing after `x` is
      asked or run; a confirmation or command that ends the process ends
      the loop there. */
  lemma ProcessReposAt(w: World, a: seq<string>, x: string, b: seq<string>,
                       confirm: (World, string) -> Step<Option<bool>>, execute: (World, string) -> Step<()>)
    requires ProcessReposSpec(w, a, confirm, execute).result.Ok?
    requires Stop !in ProcessReposSpec(w, a, confirm, execute).result.value
    ensures var ra := ProcessReposSpec(w, a, confirm, execute);
      var c := confirm(ra.world, x);
      c.result == Ok(None) ==>
        ProcessReposSpec(w, a + [x] + b, confirm, execute) == Step(Ok(ra.result.value + [Stop]), c.world)
    ensures var ra := ProcessReposSpec(w, a, confirm, execute);
      var c := confirm(ra.world, x);
      c.result == Ok(Some(false)) ==>
        ProcessReposSpec(w, a + [x] + b, confirm, execute)
          == Prefixed(ra.result.value + [Skip], ProcessReposSpec(c.world, b, confirm, execute))
    ensures var ra := ProcessReposSpec(w, a, confirm, execute);
      var c := confirm(ra.world, x);
      var e := execute(c.world, x);
      c.result == Ok(Some(true)) && e.result.Ok? ==>
        ProcessReposSpec(w, a + [x] + b, confirm, execute)
          == Prefixed(ra.result.value + [Execute], ProcessReposSpec(e.world, b, confirm, execute))
    ensures var ra := ProcessReposSpec(w, a, confirm, execute);
      var c := confirm(ra.world, x);
      var e := execute(c.world, x);
      c.result == Ok(Some(true)) && !e.result.Ok? ==>
        ProcessReposSpec(w, a + [x] + b, confirm, execute) == Step(e.result.PropagateFailure(), e.world)
    ensures var ra := ProcessReposSpec(w, a, confirm, execute);
      var c := confirm(ra.world, x);
      !c.result.Ok? ==>
        ProcessReposSpec(w, a + [x] + b, confirm, execute) == Step(c.result.PropagateFailure(), c.world)
  {
    var ra := ProcessReposSpec(w, a, confirm, execute);
    var ds := ra.result.value;
    assert a + [x] + b == a + ([x] + b);
    ProcessReposAppend(w, a, [x] + b, confirm, execute);
    assert ([x] + b)[0] == x && ([x] + b)[1..] == b;
    var c := confirm(ra.world, x);
    if c.result.Ok? && c.result.value.Some? {
      var w1 := if c.result.value.value then execute(c.world, x).world else c.world;
      var d := if c.result.value.value then Execute else Skip;
      PrefixedAssoc(ds, [d], ProcessReposSpec(w1, b, confirm, execute));
    }
  }

  /** A loop whose confirmation and command never touch the file system
      and only add git commands leaves the file system as it was. */
  lemma {:induction false} ProcessReposKeepsPaths(w: World, repos: seq<string>,
                                                  confirm: (World, string) -> Step<Option<bool>>, execute: (World, string) -> Step<()>)
    requires forall v: World, p: string :: confirm(v, p).world.paths == v.paths && v.issued <= confirm(v, p).world.issued
    requires forall v: World, p: string :: execute(v, p).world.paths == v.paths && v.issued <= execute(v, p).world.issued
    ensures var r := ProcessReposSpec(w, repos, confirm, execute);
      r.world.paths == w.paths && w.issued <= r.world.issued
    decreases |repos|
  {
    if repos != [] {
      var c := confirm(w, repos[0]);
      if c.result.Ok? && c.result.value.Some? {
        var w1 := if c.result.value.value then execute(c.world, repos[0]).world else c.world;
        ProcessReposKeepsPaths(w1, repos[1..], confirm, execute);
      }
    }
  }

  lemma PrefixedAssoc<T>(x: seq<T>, y: seq<T>, s: Step<seq<T>>)
    ensures Prefixed(x, Prefixed(y, s)) == Prefixed(x + y, s)
  {
    if s.result.Ok? {
      assert x + (y + s.result.value) == x + y + s.result.value;
    }
  }

  /** `process_repos` on a list of repositories. */
  method ProcessRepos(w0: World, repos: seq<string>, confirm: (World, string) -> Step<Option<bool>>,
                      execute: (World, string) -> Step<()>) returns (r: Run<seq<Decision>>, w: World)
    ensures Step(r, w) == ProcessReposSpec(w0, repos, confirm, execute)
  {
    var trace: seq<Decision> := [];
    w := w0;
    var i := 0;
    assert repos[0..] == repos;
    PrefixedEmpty(ProcessReposSpec(w0, repos, confirm, execute));
    while i < |repos|
      invariant 0 <= i <= |repos|
      invariant ProcessReposSpec(w0, repos, confirm, execute) == Prefixed(trace, ProcessReposSpec(w, repos[i..], confirm, execute))
    {
      assert repos[i..][0] == repos[i] && repos[i..][1..] == repos[i + 1..];
      var c := confirm(w, repos[i]);
      if !c.result.Ok? {
        return c.result.PropagateFailure(), c.world;
      }
      match c.result.value {
        case None =>
          return Ok(trace + [Stop]), c.world;
        case Some(go) =>
          if !go {
            PrefixedStep(trace, Skip, ProcessReposSpec(c.world, repos[i + 1..], confirm, execute));
            trace, w := trace + [Skip], c.world;
          } else {
            var e := execute(c.world, repos[i]);
            if !e.result.Ok? {
              return e.result.PropagateFailure(), e.world;
            }
            PrefixedStep(trace, Execute, ProcessReposSpec(e.world, repos[i + 1..], confirm, execute));
            trace, w := trace + [Execute], e.world;
          }
      }
      i := i + 1;
    }
    assert repos[i..] == [] && trace + [] == trace;
    r := Ok(trace);
  }

  // ---------------------------------------------------------------- mass

  /** The answers the `mass` prompt accepts, in any case. */
  predicate YesNo(s: string) {
    Lower(s) == "y" || Lower(s) == "n"
  }

  lemma YesNoAnswers(s: string)
    ensures YesNo(s) <==> s in {"y", "Y", "n", "N"}
  {
    if |s| == 1 {
      assert Lower(s) == [LowerChar(s[0])];
      assert s == [s[0]];
    }
  }

  /** The confirmation of `mass`: with `skip_interactive` every repository
      runs; otherwise the prompt asks until it gets `y` or `n` (any case),
      and a failed prompt stops the loop. It runs no git command. */
  function MassConfirmSpec(w: World, skipInteractive: bool): (r: Step<Option<bool>>)
    ensures r.result.Ok? && r.world.issued == w.issued && r.world.paths == w.paths
    ensures skipInteractive ==> r == Step(Ok(Some(true)), w)
    ensures !skipInteractive ==> var a := AskSpec(w, YesNo);
      r.world == a.world
      && (r.result.value.None? <==> a.answer.None?)
      && (r.result.value == Some(true) <==> a.answer.Some? && a.answer.value in {"y", "Y"})
  {
    if skipInteractive then Step(Ok(Some(true)), w)
    else
      var a := AskSpec(w, YesNo);
      if a.answer.None? then Step(Ok(None), a.world)
      else
        assert Lower(a.answer.value) == "y" <==> a.answer.value in {"y", "Y"} by {
          YesNoAnswers(a.answer.value);
          if Lower(a.answer.value) == "y" && a.answer.value in {"n", "N"} {
            assert Lower(a.answer.value)[0] == 'n';
          }
          if a.answer.value == "Y" {
            assert Lower("Y") == "y";
          }
        }
        Step(Ok(Some(Lower(a.answer.value) == "y")), a.world)
  }

  /** The command `mass` runs in a repository: `git -C path`, then `-C path`
      once more, then the words of the command. */
  function MassArgs(path: string, words: seq<string>): (r: Argv)
    ensures |r| == 4 + |words| && r[..4] == ["-C", path, "-C", path] && r[4..] == words
  {
    GitCmd(path) + ["-C", path] + words
  }

  /** A command written as words separated by single spaces is split back
      into exactly those words. */
  lemma MassArgsWords(path: string, words: seq<string>)
    requires forall k :: 0 <= k < |words| ==> words[k] != [] && NoWhitespace(words[k])
    ensures MassArgs(path, SplitWhitespace(JoinSpace(words))) == ["-C", path, "-C", path] + words
  {
    SplitJoin(words);
  }

  function MassExecuteSpec(git: Argv -> Output, w: World, path: string, words: seq<string>, test: bool): (r: Step<()>)
    ensures r.world == Issue(w, MassArgs(path, words))
    ensures r.result.Ok? <==> RunCmdSResult(test, git(MassArgs(path, words))).Ok?
  {
    var s := RunCmdSSpec(git, w, MassArgs(path, words), test);
    if s.result.Ok? then Step(Ok(()), s.world) else Fail(s)
  }

  /** `mass` over the repositories in the order they come out of the
      locator, with the command split into words (`split_whitespace`). */
  function MassSpec(git: Argv -> Output, w: World, repos: seq<string>, command: string, skipInteractive: bool, test: bool)
    : (r: Step<seq<Decision>>)
    ensures r.result.Ok? && Stop !in r.result.value ==> |r.result.value| == |repos|
    ensures w.issued <= r.world.issued && r.world.paths == w.paths
    ensures forall k :: |w.issued| <= k < |r.world.issued| ==> r.world.issued[k] in MassCommands(repos, SplitWhitespace(command))
  {
    MassIssuesOwnCommands(git, w, repos, SplitWhitespace(command), skipInteractive, test);
    MassRepos(git, w, repos, SplitWhitespace(command), skipInteractive, test)
  }

  /** `mass` with the command already split into words: one decision per
      repository visited, and no prompt or command touches the file
      system. */
  function MassRepos(git: Argv -> Output, w: World, repos: seq<string>, words: seq<string>, skipInteractive: bool, test: bool)
    : (r: Step<seq<Decision>>)
    ensures r.result.Ok? && Stop !in r.result.value ==> |r.result.value| == |repos|
    ensures r.result.Ok? ==> forall k :: 0 <= k < |r.result.value| - 1 ==> r.result.value[k] != Stop
  {
    ProcessReposSpec(w, repos, (w: World, p: string) => MassConfirmSpec(w, skipInteractive),
                     (w: World, p: string) => MassExecuteSpec(git, w, p, words, test))
  }

  /** `mass` issues only its own command, in listed repositories, at most
      once per repository, and leaves the file system as it was. */
  lemma {:induction false} MassIssuesOwnCommands(git: Argv -> Output, w: World, repos: seq<string>, words: seq<string>,
                                                 skipInteractive: bool, test: bool)
    ensures var r := MassRepos(git, w, repos, words, skipInteractive, test);
      w.issued <= r.world.issued && r.world.paths == w.paths
      && |r.world.issued| <= |w.issued| + |repos|
      && forall k :: |w.issued| <= k < |r.world.issued| ==> r.world.issued[k] in MassCommands(repos, words)
    decreases |repos|
  {
    if repos != [] {
      var r := MassRepos(git, w, repos, words, skipInteractive, test);
      var c := MassConfirmSpec(w, skipInteractive);
      var cmd := MassArgs(repos[0], words);
      assert MassCommands(repos, words) == [cmd] + MassCommands(repos[1..], words);
      MassFirstWorld(git, w, repos, words, skipInteractive, test);
      if c.result.value.Some? {
        var w1 := if c.result.value.value then Issue(c.world, cmd) else c.world;
        if r.world != w1 {
          MassIssuesOwnCommands(git, w1, repos[1..], words, skipInteractive, test);
          forall k | |w.issued| <= k < |r.world.issued|
            ensures r.world.issued[k] in MassCommands(repos, words)
          {
            if k >= |w1.issued| {
              assert r.world.issued[k] in MassCommands(repos[1..], words);
            } else {
              assert r.world.issued[k] == w1.issued[k] == cmd;
            }
          }
        }
      }
    }
  }

  /** Where one step of `mass` leaves the world: the prompt's world, with
      the command issued when the answer runs it, and from there the rest
      of the loop unless the step ended it. */
  lemma MassFirstWorld(git: Argv -> Output, w: World, repos: seq<string>, words: seq<string>, skipInteractive: bool, test: bool)
    requires repos != []
    ensures var c := MassConfirmSpec(w, skipInteractive);
      var r := MassRepos(git, w, repos, words, skipInteractive, test);
      (c.result.value.None? ==> r.world == c.world)
      && (c.result.value.Some? ==>
            var w1 := if c.result.value.value then Issue(c.world, MassArgs(repos[0], words)) else c.world;
            r.world == w1 || r.world == MassRepos(git, w1, repos[1..], words, skipInteractive, test).world)
  {
  }

  /** Every command of `mass` succeeds in every repository of `found`. */
  predicate CommandsSucceed(git: Argv -> Output, found: set<string>, words: seq<string>, test: bool) {
    forall p :: p in found ==> RunCmdSResult(test, git(MassArgs(p, words))).Ok?
  }

  /** `mass` over a directory tree: the locator's result, a set, comes out
      of its parallel walk in some order, which `order` enumerates. Every
      located repository is visited once: a loop that does not stop decides
      once per located repository; without prompting, and with every
      command succeeding, each located repository gets its command. */
  function MassTree(git: Argv -> Output, w: World, tree: Node, cwd: string, cwdParentHasGit: bool,
                    re: string -> bool, reverse: bool, order: seq<string>,
                    command: string, skipInteractive: bool, test: bool): (r: Step<seq<Decision>>)
    requires Enumerates(order, Locate(tree, cwd, cwdParentHasGit, re, reverse))
    ensures r.result.Ok? ==> |r.result.value| <= |Locate(tree, cwd, cwdParentHasGit, re, reverse)|
    ensures r.result.Ok? && Stop !in r.result.value ==> |r.result.value| == |Locate(tree, cwd, cwdParentHasGit, re, reverse)|
    ensures skipInteractive && CommandsSucceed(git, Locate(tree, cwd, cwdParentHasGit, re, reverse), SplitWhitespace(command), test) ==>
      r.result.Ok? && Stop !in r.result.value
      && |r.world.issued| == |w.issued| + |Locate(tree, cwd, cwdParentHasGit, re, reverse)|
      && forall p :: p in Locate(tree, cwd, cwdParentHasGit, re, reverse) ==>
           MassArgs(p, SplitWhitespace(command)) in r.world.issued[|w.issued|..]
  {
    var found := Locate(tree, cwd, cwdParentHasGit, re, reverse);
    EnumeratesOnce(order, found);
    if skipInteractive && CommandsSucceed(git, found, SplitWhitespace(command), test) then
      MassRunsEachFound(git, w, order, found, SplitWhitespace(command), test);
      MassSpec(git, w, order, command, skipInteractive, test)
    else MassSpec(git, w, order, command, skipInteractive, test)
  }

  /** Without prompting, `mass` over an enumeration of `found` issues one
      command per element, and each element's command among them. */
  lemma MassRunsEachFound(git: Argv -> Output, w: World, order: seq<string>, found: set<string>, words: seq<string>, test: bool)
    requires Enumerates(order, found) && CommandsSucceed(git, found, words, test)
    ensures var r := MassRepos(git, w, order, words, true, test);
      r.result.Ok? && Stop !in r.result.value
      && |r.world.issued| == |w.issued| + |order|
      && forall p :: p in found ==> MassArgs(p, words) in r.world.issued[|w.issued|..]
  {
    assert forall k :: 0 <= k < |order| ==> order[k] in found;
    MassSkipInteractiveRunsAll(git, w, order, words, test);
    var r := MassRepos(git, w, order, words, true, test);
    assert r.world.issued[|w.issued|..] == MassCommands(order, words);
    forall p | p in found ensures MassArgs(p, words) in MassCommands(order, words) {
      var k :| 0 <= k < |order| && order[k] == p;
      assert MassCommands(order, words)[k] == MassArgs(p, words);
    }
  }

  /** The commands `mass` issues for `repos`, one per repository. */
  function MassCommands(repos: seq<string>, words: seq<string>): seq<Argv> {
    seq(|repos|, k requires 0 <= k < |repos| => MassArgs(repos[k], words))
  }

  /** Without prompting (and with every command succeeding, as in dry-run),
      `mass` runs its command in every repository, in order, and nothing
      else. */
  lemma {:induction false} MassSkipInteractiveRunsAll(git: Argv -> Output, w: World, repos: seq<string>, words: seq<string>, test: bool)
    requires forall k :: 0 <= k < |repos| ==> RunCmdSResult(test, git(MassArgs(repos[k], words))).Ok?
    ensures MassRepos(git, w, repos, words, true, test)
      == Step(Ok(seq(|repos|, k => Execute)), w.(issued := w.issued + MassCommands(repos, words)))
    decreases |repos|
  {
    if repos == [] {
      assert w.(issued := w.issued + []) == w;
    } else {
      var w1 := Issue(w, MassArgs(repos[0], words));
      MassRunsFirst(git, w, repos, words, test);
      MassSkipInteractiveRunsAll(git, w1, repos[1..], words, test);
      assert seq(|repos|, k => Execute) == [Execute] + seq(|repos[1..]|, k => Execute);
      assert MassCommands(repos, words) == [MassArgs(repos[0], words)] + MassCommands(repos[1..], words);
      assert w.issued + MassCommands(repos, words) == w1.issued + MassCommands(repos[1..], words);
    }
  }

  lemma MassRunsFirst(git: Argv -> Output, w: World, repos: seq<string>, words: seq<string>, test: bool)
    requires repos != [] && RunCmdSResult(test, git(MassArgs(repos[0], words))).Ok?
    ensures MassRepos(git, w, repos, words, true, test)
      == Prefixed([Execute], MassRepos(git, Issue(w, MassArgs(repos[0], words)), repos[1..], words, true, test))
  {
  }

  /** A prompt that is interrupted at the first repository stops `mass`
      before any command runs. */
  lemma MassInterruptStops(git: Argv -> Output, w: World, repos: seq<string>, words: seq<string>, test: bool)
    requires repos != [] && w.input != [] && w.input[0] == Interrupt
    ensures MassRepos(git, w, repos, words, false, test) == Step(Ok([Stop]), w.(input := w.input[1..]))
  {
  }

  /** The confirmation of `mass` on the host. */
  method MassConfirm(h: Host, skipInteractive: bool) returns (r: Run<Option<bool>>)
    modifies h
    ensures Step(r, h.State()) == MassConfirmSpec(old(h.State()), skipInteractive)
  {
    if skipInteractive {
      return Ok(Some(true));
    }
    var answer := h.Ask(YesNo);
    match answer {
      case None => r := Ok(None);
      case Some(choice) => r := Ok(Some(Lower(choice) == "y"));
    }
  }

  /** The command of `mass` on the host. */
  method MassExecute(h: Host, path: string, command: string, test: bool) returns (r: Run<()>)
    modifies h
    ensures Step(r, h.State()) == MassExecuteSpec(h.git, old(h.State()), path, SplitWhitespace(command), test)
  {
    var words := SplitWhitespace(command);
    var status := h.RunCmdS(MassArgs(path, words), test);
    if !status.Ok? {
      return status.PropagateFailure();
    }
    r := Ok(());
  }
}
