/** `src/cli/alias.rs`: rewriting an unknown sub-command line into a `mass`
    invocation. The options `mass` understands are copied after the
    command; every other argument becomes a word of the command `mass`
    runs in each repository. */
module Alias {
  import opened Common
  import Mass

  /** An option copied on its own. */
  predicate IsSwitch(a: string) {
    a == "-s" || a == "--skip-interactive" || a == "--dry-run"
  }

  /** An option copied together with the argument after it. */
  predicate TakesValue(a: string) {
    a == "--regex" || a == "--rev-regex"
  }

  /** The arguments copied after the command, in input order: each switch,
      each regex option with the argument that follows it (whatever that
      argument looks like), or alone when it comes last. */
  function Options(args: seq<string>): seq<string>
    decreases |args|
  {
    if args == [] then []
    else if IsSwitch(args[0]) then [args[0]] + Options(args[1..])
    else if TakesValue(args[0]) then
      (if |args| == 1 then [args[0]] else [args[0], args[1]] + Options(args[2..]))
    else Options(args[1..])
  }

  /** The other arguments, in input order: the words of the command. */
  function Words(args: seq<string>): seq<string>
    decreases |args|
  {
    if args == [] then []
    else if IsSwitch(args[0]) then Words(args[1..])
    else if TakesValue(args[0]) then (if |args| == 1 then [] else Words(args[2..]))
    else [args[0]] + Words(args[1..])
  }

  /** Appending one word to the command being built: a space first unless
      it is still empty. */
  function AppendWord(command: string, word: string): string {
    (if command == "" then command else command + " ") + word
  }

  function AppendWords(command: string, words: seq<string>): string
    decreases |words|
  {
    if words == [] then command else AppendWords(AppendWord(command, words[0]), words[1..])
  }

  /** The command `mass` is given. */
  function MassCommand(args: seq<string>): string {
    AppendWords("", Words(args))
  }

  /** `alias`. */
  method Rewrite(command: seq<string>) returns (r: seq<string>)
    ensures r == ["grgry", "mass", MassCommand(command)] + Options(command)
  {
    var commandVec := ["grgry", "mass"];
    var massCommand := "";
    var i := 0;
    while i < |command|
      invariant 0 <= i <= |command|
      invariant |commandVec| >= 2 && commandVec[..2] == ["grgry", "mass"]
      invariant commandVec + Options(command[i..]) == ["grgry", "mass"] + Options(command)
      invariant AppendWords(massCommand, Words(command[i..])) == MassCommand(command)
      decreases |command| - i
    {
      var arg := command[i];
      ghost var rest := command[i..];
      assert rest[0] == arg && rest[1..] == command[i + 1..];
      i := i + 1;
      if IsSwitch(arg) {
        commandVec := commandVec + [arg];
      } else if TakesValue(arg) {
        commandVec := commandVec + [arg];
        if i < |command| {
          assert rest[2..] == command[i + 1..];
          commandVec := commandVec + [command[i]];
          i := i + 1;
        }
      } else {
        if massCommand != "" {
          massCommand := massCommand + " ";
        }
        massCommand := massCommand + arg;
      }
    }
    assert command[i..] == [];
    assert commandVec == ["grgry", "mass"] + Options(command);
    r := Insert(commandVec, 2, massCommand);
    assert r == commandVec[..2] + [massCommand] + commandVec[2..];
  }

  /** Every argument ends up in exactly one place: an option or a word. */
  lemma {:induction false} OptionsAndWordsPartition(args: seq<string>)
    ensures multiset(Options(args)) + multiset(Words(args)) == multiset(args)
    ensures |Options(args)| + |Words(args)| == |args|
    decreases |args|
  {
    if args == [] {
    } else if IsSwitch(args[0]) {
      PartitionStep(args, [args[0]], [], 1);
    } else if !TakesValue(args[0]) {
      PartitionStep(args, [], [args[0]], 1);
    } else if |args| == 1 {
    } else {
      PartitionStep(args, [args[0], args[1]], [], 2);
    }
  }

  /** One step of the partition: the first `n` arguments go to `opts` and
      `words`, the rest is partitioned recursively. */
  lemma {:induction false} PartitionStep(args: seq<string>, opts: seq<string>, words: seq<string>, n: nat)
    requires 0 < n <= |args| && opts + words == args[..n]
    requires Options(args) == opts + Options(args[n..]) && Words(args) == words + Words(args[n..])
    ensures multiset(Options(args)) + multiset(Words(args)) == multiset(args)
    ensures |Options(args)| + |Words(args)| == |args|
    decreases |args|, 0
  {
    OptionsAndWordsPartition(args[n..]);
    assert args == args[..n] + args[n..];
  }

  /** The rewritten line is three longer than the options it carries: the
      program, `mass` and the command. */
  lemma RewriteLength(args: seq<string>)
    ensures |["grgry", "mass", MassCommand(args)] + Options(args)| == 3 + |args| - |Words(args)|
  {
    OptionsAndWordsPartition(args);
  }

  /** No option ever becomes a word of the command: an option is copied,
      and an option right after a regex option is copied as its value. */
  lemma {:induction false} WordsAreNotOptions(args: seq<string>)
    ensures forall k :: 0 <= k < |Words(args)| ==> !IsSwitch(Words(args)[k]) && !TakesValue(Words(args)[k])
    decreases |args|
  {
    if args != [] {
      if IsSwitch(args[0]) || !TakesValue(args[0]) {
        WordsAreNotOptions(args[1..]);
      } else if |args| > 1 {
        WordsAreNotOptions(args[2..]);
      }
    }
  }

  /** Building the command word by word gives the words joined by single
      spaces, once the command is under way. */
  lemma {:induction false} AppendWordsJoin(command: string, words: seq<string>)
    requires command != []
    ensures AppendWords(command, words) == if words == [] then command else command + " " + JoinSpace(words)
    decreases |words|
  {
    if words != [] {
      var next := AppendWord(command, words[0]);
      assert next == command + " " + words[0];
      AppendWordsJoin(next, words[1..]);
      if |words| > 1 {
        assert JoinSpace(words) == words[0] + " " + JoinSpace(words[1..]);
      }
    }
  }

  /** With no empty words, the command is the words joined by single
      spaces; without words it is empty. */
  lemma CommandJoins(args: seq<string>)
    requires forall k :: 0 <= k < |Words(args)| ==> Words(args)[k] != []
    ensures MassCommand(args) == JoinSpace(Words(args))
  {
    var ws := Words(args);
    if ws != [] {
      assert AppendWord("", ws[0]) == ws[0];
      AppendWordsJoin(ws[0], ws[1..]);
      if |ws| > 1 {
        assert JoinSpace(ws) == ws[0] + " " + JoinSpace(ws[1..]);
      }
    }
  }

  /** The round trip through `mass`: when the words are non-empty and hold
      no whitespace, `mass` splits the command back into exactly those
      words and runs them in each repository. */
  lemma RewriteRoundTrip(args: seq<string>, path: string)
    requires forall k :: 0 <= k < |Words(args)| ==> Words(args)[k] != [] && NoWhitespace(Words(args)[k])
    ensures SplitWhitespace(MassCommand(args)) == Words(args)
    ensures Mass.MassArgs(path, SplitWhitespace(MassCommand(args))) == ["-C", path, "-C", path] + Words(args)
  {
    CommandJoins(args);
    SplitJoin(Words(args));
    Mass.MassArgsWords(path, Words(args));
  }
}
