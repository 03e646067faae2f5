/** The command runner of `src/utils/cmd.rs` and the program's view of the
    world outside it: git subprocesses (an oracle from argument vector to
    output), the answers typed at prompts, and the paths that exist on disk.

    Every git invocation is `git <argv>`; `issued` records each one the
    program asks for, in order, whether it was spawned or (in dry-run) only
    printed. */
module Cmd {
  import opened Common

  /** The arguments after the program name `git`. */
  type Argv = seq<string>

  /** What `Command::output`/`status` yield: the captured stdout and whether
      the exit status was success, or a failure to spawn `git` at all. */
  datatype Output = Output(stdout: string, success: bool) | SpawnError

  /** One line typed at a prompt, or an interrupted prompt (Ctrl-C, Esc). */
  datatype Answer = Line(text: string) | Interrupt

  datatype World = World(issued: seq<Argv>, input: seq<Answer>, paths: set<string>)

  /** A step of a workflow: its outcome and the world after it. */
  datatype Step<+T> = Step(result: Run<T>, world: World)

  /** A failed step, passed on unchanged as a step of another type. */
  function Fail<T, U>(s: Step<T>): Step<U>
    requires !s.result.Ok?
  {
    Step(s.result.PropagateFailure(), s.world)
  }

  /** The values `done` already gathered, in front of those of a later
      step. */
  function Prefixed<T>(done: seq<T>, s: Step<seq<T>>): (r: Step<seq<T>>)
    ensures r.world == s.world && r.result.Ok? == s.result.Ok?
    ensures r.result.Ok? ==> r.result.value == done + s.result.value
  {
    if s.result.Ok? then Step(Ok(done + s.result.value), s.world) else s
  }

  lemma PrefixedEmpty<T>(s: Step<seq<T>>)
    ensures Prefixed([], s) == s
  {
    if s.result.Ok? {
      assert [] + s.result.value == s.result.value;
    }
  }

  lemma PrefixedStep<T>(done: seq<T>, x: T, s: Step<seq<T>>)
    ensures Prefixed(done, Prefixed([x], s)) == Prefixed(done + [x], s)
  {
    if s.result.Ok? {
      assert done + ([x] + s.result.value) == done + [x] + s.result.value;
    }
  }

  /** `create_git_cmd(p)`: `git -C p`. */
  function GitCmd(path: string): Argv {
    ["-C", path]
  }

  /** A command built on `git -C path` names its repository: the same
      command prefix never stands for two repositories. */
  lemma GitCmdNamesRepo(path: string, other: string, rest: Argv)
    ensures GitCmd(path) <= GitCmd(path) + rest
    ensures GitCmd(other) <= GitCmd(path) + rest <==> other == path
  {
    if GitCmd(other) <= GitCmd(path) + rest {
      assert other == GitCmd(other)[1] == (GitCmd(path) + rest)[1];
    }
  }

  function Issue(w: World, argv: Argv): World {
    w.(issued := w.issued + [argv])
  }

  /** `w2` is `w` after more git commands, with the same input and paths. */
  predicate Extends(w: World, w2: World) {
    w.issued <= w2.issued && w2.input == w.input && w2.paths == w.paths
  }

  /** Issuing one more command keeps the extension. */
  lemma ExtendsIssue(w: World, w2: World, argv: Argv)
    requires Extends(w, w2)
    ensures Extends(w, Issue(w2, argv))
  {
    assert w2.issued <= Issue(w2, argv).issued;
  }

  /** `run_cmd_o`: dry-run (`test`) yields "" without looking at the process;
      otherwise a failed command ends the process and a successful one yields
      its trimmed stdout. */
  function RunCmdOResult(test: bool, o: Output): (r: Run<string>)
    ensures test ==> r == Ok("")
    ensures r == Exit <==> !test && o.Output? && !o.success
    ensures r == Panic <==> !test && o.SpawnError?
    ensures !test && r.Ok? ==> r.value == Trim(o.stdout)
  {
    if test then Ok("")
    else match o
      case SpawnError => Panic
      case Output(out, ok) => if ok then Ok(Trim(out)) else Exit
  }

  /** `run_cmd_o_soft`: never ends the process on a failed command; it reports
      the trimmed stdout and whether the command succeeded. Dry-run yields
      ("", true). */
  function RunCmdOSoftResult(test: bool, o: Output): (r: Run<(string, bool)>)
    ensures r != Exit
    ensures test ==> r == Ok(("", true))
    ensures !test && o.Output? ==> r == Ok((Trim(o.stdout), o.success))
  {
    if test then Ok(("", true))
    else match o
      case SpawnError => Panic
      case Output(out, ok) => Ok((Trim(out), ok))
  }

  /** `run_cmd_s`: either reports `true` or ends the process; it never
      reports `false`. */
  function RunCmdSResult(test: bool, o: Output): (r: Run<bool>)
    ensures r != Ok(false)
    ensures r == Ok(true) <==> test || (o.Output? && o.success)
    ensures r == Exit <==> !test && o.Output? && !o.success
  {
    if test then Ok(true)
    else match o
      case SpawnError => Panic
      case Output(_, ok) => if ok then Ok(true) else Exit
  }

  function RunCmdOSpec(git: Argv -> Output, w: World, argv: Argv, test: bool): Step<string> {
    Step(RunCmdOResult(test, git(argv)), Issue(w, argv))
  }

  function RunCmdOSoftSpec(git: Argv -> Output, w: World, argv: Argv, test: bool): Step<(string, bool)> {
    Step(RunCmdOSoftResult(test, git(argv)), Issue(w, argv))
  }

  function RunCmdSSpec(git: Argv -> Output, w: World, argv: Argv, test: bool): Step<bool> {
    Step(RunCmdSResult(test, git(argv)), Issue(w, argv))
  }

  /** A prompt that re-asks until `valid` accepts the line: the first valid
      line, or an error (`None`) on an interrupt or when input runs out.
      Only the answers read are consumed. */
  function ReadAnswer(input: seq<Answer>, valid: string -> bool): (r: (Option<string>, seq<Answer>))
    ensures |r.1| <= |input| && r.1 == input[|input| - |r.1|..]
    ensures r.0.Some? ==> valid(r.0.value) && |r.1| < |input|
    decreases |input|
  {
    if input == [] then (None, [])
    else match input[0]
      case Interrupt => (None, input[1..])
      case Line(s) => if valid(s) then (Some(s), input[1..]) else ReadAnswer(input[1..], valid)
  }

  datatype Asked = Asked(answer: Option<string>, world: World)

  function AskSpec(w: World, valid: string -> bool): (r: Asked)
    ensures r.world.issued == w.issued && r.world.paths == w.paths
    ensures r.answer.Some? ==> valid(r.answer.value) && |r.world.input| < |w.input|
    ensures |r.world.input| <= |w.input| && r.world.input == w.input[|w.input| - |r.world.input|..]
    ensures w.input != [] && w.input[0] == Interrupt ==> r == Asked(None, w.(input := w.input[1..]))
    ensures w.input != [] && w.input[0].Line? && valid(w.input[0].text) ==> r == Asked(Some(w.input[0].text), w.(input := w.input[1..]))
    ensures w.input != [] && w.input[0].Line? && !valid(w.input[0].text) ==> r.answer == ReadAnswer(w.input[1..], valid).0
    ensures w.input == [] ==> r.answer.None?
  {
    var (a, rest) := ReadAnswer(w.input, valid);
    Asked(a, w.(input := rest))
  }

  /** `remove_dir_all`: the directory and everything below it disappear. */
  function RemoveTree(paths: set<string>, root: string): (r: set<string>)
    ensures r <= paths && root !in r
    ensures forall p :: p in r ==> !IsPrefix(root + "/", p)
    ensures forall p :: p in paths && p != root && !IsPrefix(root + "/", p) ==> p in r
  {
    set p | p in paths && p != root && !IsPrefix(root + "/", p)
  }

  /** The outside world as the program sees it. */
  class Host {
    const git: Argv -> Output
    var issued: seq<Argv>
    var input: seq<Answer>
    var paths: set<string>

    function State(): World
      reads this
    {
      World(issued, input, paths)
    }

    constructor (git: Argv -> Output, input: seq<Answer>, paths: set<string>)
      ensures this.git == git && State() == World([], input, paths)
    {
      this.git := git;
      this.issued := [];
      this.input := input;
      this.paths := paths;
    }

    method RunCmdO(argv: Argv, test: bool) returns (r: Run<string>)
      modifies this
      ensures Step(r, State()) == RunCmdOSpec(git, old(State()), argv, test)
    {
      r := RunCmdOResult(test, git(argv));
      issued := issued + [argv];
    }

    method RunCmdOSoft(argv: Argv, test: bool) returns (r: Run<(string, bool)>)
      modifies this
      ensures Step(r, State()) == RunCmdOSoftSpec(git, old(State()), argv, test)
    {
      r := RunCmdOSoftResult(test, git(argv));
      issued := issued + [argv];
    }

    method RunCmdS(argv: Argv, test: bool) returns (r: Run<bool>)
      modifies this
      ensures Step(r, State()) == RunCmdSSpec(git, old(State()), argv, test)
    {
      r := RunCmdSResult(test, git(argv));
      issued := issued + [argv];
    }

    /** A bare `Command::output()`, outside the runner (used by the first
        generation's `has_changes`). */
    method RawOutput(argv: Argv) returns (o: Output)
      modifies this
      ensures o == git(argv) && State() == Issue(old(State()), argv)
    {
      o := git(argv);
      issued := issued + [argv];
    }

    method Ask(valid: string -> bool) returns (answer: Option<string>)
      modifies this
      ensures Asked(answer, State()) == AskSpec(old(State()), valid)
    {
      var r := ReadAnswer(input, valid);
      answer, input := r.0, r.1;
    }

    method RemoveDirAll(root: string)
      modifies this
      ensures State() == old(State()).(paths := RemoveTree(old(paths), root))
    {
      paths := RemoveTree(paths, root);
    }
  }

  /** In dry-run the runner's answers do not depend on git at all. */
  lemma DryRunIgnoresGit(o1: Output, o2: Output)
    ensures RunCmdOResult(true, o1) == RunCmdOResult(true, o2)
    ensures RunCmdOSoftResult(true, o1) == RunCmdOSoftResult(true, o2)
    ensures RunCmdSResult(true, o1) == RunCmdSResult(true, o2)
  {
  }
}
