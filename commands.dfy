/** The `--regex` / `--rev-regex` pair of `src/cli/commands.rs`: which
    pattern a command walks with and whether the match is reversed. */
module Commands {
  import opened Common
  import Mass

  /** The two options as the command line gave them. */
  datatype RegexOptions = RegexOptions(regex: Option<string>, revRegex: Option<string>)

  /** The options form a group that admits at most one of them. */
  predicate Exclusive(o: RegexOptions) {
    !(o.regex.Some? && o.revRegex.Some?)
  }

  /** `get_regex_args`: the pattern and the `reverse` flag. */
  function GetRegexArgs(o: RegexOptions, default: string): (r: (string, bool))
    ensures r.1 <==> o.revRegex.Some?
    ensures o.revRegex.Some? ==> r.0 == o.revRegex.value
    ensures o.revRegex.None? && o.regex.Some? ==> r.0 == o.regex.value
    ensures o.revRegex.None? && o.regex.None? ==> r.0 == default
  {
    if o.revRegex.Some? then (o.revRegex.value, true)
    else if o.regex.Some? then (o.regex.value, false)
    else (default, false)
  }

  /** Under the group's exclusivity, the pattern is the one option given
      (or the default) whatever the order of the checks. */
  lemma GivenPattern(o: RegexOptions, default: string)
    requires Exclusive(o)
    ensures o.regex.Some? ==> GetRegexArgs(o, default) == (o.regex.value, false)
    ensures GetRegexArgs(o, default).0 in
      (if o.regex.Some? then {o.regex.value} else {}) + (if o.revRegex.Some? then {o.revRegex.value} else {}) + {default}
  {
  }

  /** Giving a pattern with `--rev-regex` instead of `--regex` locates
      exactly the repositories the other spelling leaves out: together they
      cover every visible repository, and they share none. */
  lemma RevRegexComplements(tree: Mass.Node, cwd: string, cwdParentHasGit: bool,
                            compile: string -> (string -> bool), pattern: string, default: string)
    ensures
      var (p1, rev1) := GetRegexArgs(RegexOptions(Some(pattern), None), default);
      var (p2, rev2) := GetRegexArgs(RegexOptions(None, Some(pattern)), default);
      var kept := Mass.Locate(tree, cwd, cwdParentHasGit, compile(p1), rev1);
      var dropped := Mass.Locate(tree, cwd, cwdParentHasGit, compile(p2), rev2);
      kept + dropped == Mass.Found(tree, cwd, cwdParentHasGit) && kept * dropped == {}
  {
    Mass.LocateComplement(tree, cwd, cwdParentHasGit, compile(pattern));
  }
}
