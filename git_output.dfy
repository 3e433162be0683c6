/**
 * The git side of blog-updater/src/main.rs, reduced to its logic.  Running a
 * git command is an input: `Git` says what each command prints and with which
 * exit status.  What is modelled is what main.rs does with that output — the
 * filter closures passed to `get_git_command` (status check, `trim_end`,
 * `split('\n')`) — and the two wrappers that chain them.
 */
module GitOutput {
  import opened Wrappers
  import opened Text

  /** `exechelper::CommandOutput`: exit status and captured standard output. */
  datatype CommandOutput = CommandOutput(status: int, stdout: string)

  /**
   * What the repository answers to each git command main.rs runs.
   *   forEachRef:    git for-each-ref --format=... refs/heads/
   *   revListFirst:  git rev-list --max-parents=0 <ref>
   *   branch:        git branch <name> <from>
   *   diffNameOnly:  git diff <mainRef> <blogBranch> --name-only
   *   logDates:      git log <mainRef> ... -- <path>   (arguments: path, mainRef)
   */
  datatype Git = Git(
    forEachRef: CommandOutput,
    revListFirst: string -> CommandOutput,
    branch: (string, string) -> CommandOutput,
    diffNameOnly: (string, string) -> CommandOutput,
    logDates: (string, string) -> CommandOutput)

  const NoBranchesErr: string := "Failed to find any git branches. Are you sure you're in a git repository?"

  // ---------------------------------------------------------------------------
  // The filter closures

  /**
   * The closure of `get_all_git_branches` as main.rs writes it: split the raw
   * output on newlines, with no `trim_end` first, and ignore the status.  The
   * empty-list error can never be produced, since a split is never empty.
   */
  function BranchesFromOutputAsWritten(out: CommandOutput): (r: Result<seq<string>>)
    ensures r.Ok? && |r.value| >= 1
    ensures Join(r.value, '\n') == out.stdout
    ensures forall i :: 0 <= i < |r.value| ==> '\n' !in r.value[i]
  {
    var branches := Split(out.stdout, '\n');
    if |branches| == 0 then Err(NoBranchesErr) else Ok(branches)
  }

  /**
   * The same closure with trailing whitespace trimmed before the split, as in
   * git_commands.rs; the rest of the model reads branch lists with this one.
   */
  function BranchesFromOutput(out: CommandOutput): (r: Result<seq<string>>)
    ensures r.Ok? && |r.value| >= 1
    ensures Join(r.value, '\n') == TrimEnd(out.stdout)
    ensures forall i :: 0 <= i < |r.value| ==> '\n' !in r.value[i]
  {
    var branches := Split(TrimEnd(out.stdout), '\n');
    if |branches| == 0 then Err(NoBranchesErr) else Ok(branches)
  }

  /** The closure of `get_first_commit_of_branch`. */
  function FirstCommitFromOutput(out: CommandOutput, branchName: string): (r: Result<string>)
    ensures r.Ok? <==> out.status == 0
    ensures r.Err? ==> r.error == "Failed to get first commit of branch " + branchName
    ensures r.Ok? ==> r.value <= out.stdout && (r.value == [] || !IsWhitespace(r.value[|r.value| - 1]))
    ensures r.Ok? ==> forall i :: |r.value| <= i < |out.stdout| ==> IsWhitespace(out.stdout[i])
  {
    if out.status != 0 then Err("Failed to get first commit of branch " + branchName)
    else Ok(TrimEnd(out.stdout))
  }

  /** The closure of `make_git_branch`: only the status matters. */
  function MakeBranchFromOutput(out: CommandOutput, branchName: string): (r: Result<()>)
    ensures r.Ok? <==> out.status == 0
    ensures r.Err? ==> r.error == "Failed to make branch " + branchName
  {
    if out.status != 0 then Err("Failed to make branch " + branchName) else Ok(())
  }

  /** The closure of `get_all_files_changed_since_last_blog_update`: one path per line. */
  function FilesChangedFromOutput(out: CommandOutput, blogBranchName: string, mainRefBranchName: string)
    : (r: Result<seq<string>>)
    ensures r.Ok? <==> out.status == 0
    ensures r.Err? ==> r.error == "Failed to get files changed for revision between " + mainRefBranchName +
                                  " and " + blogBranchName
    ensures r.Ok? ==> |r.value| >= 1 && Join(r.value, '\n') == TrimEnd(out.stdout)
    ensures r.Ok? ==> forall i :: 0 <= i < |r.value| ==> '\n' !in r.value[i]
  {
    if out.status != 0 then
      Err("Failed to get files changed for revision between " + mainRefBranchName + " and " + blogBranchName)
    else Ok(Split(TrimEnd(out.stdout), '\n'))
  }

  /** The closure of `get_all_timestamps_of_file_commits`: one commit date per line. */
  function TimestampsFromOutput(out: CommandOutput, blogFilePath: string): (r: Result<seq<string>>)
    ensures r.Ok? <==> out.status == 0
    ensures r.Err? ==> r.error == "Failed to get timestamps of changes to " + blogFilePath
    ensures r.Ok? ==> |r.value| >= 1 && Join(r.value, '\n') == TrimEnd(out.stdout)
    ensures r.Ok? ==> forall i :: 0 <= i < |r.value| ==> '\n' !in r.value[i]
  {
    if out.status != 0 then Err("Failed to get timestamps of changes to " + blogFilePath)
    else Ok(Split(TrimEnd(out.stdout), '\n'))
  }

  // ---------------------------------------------------------------------------
  // The wrappers that run a command and filter it

  /** `get_first_commit_of_branch`. */
  function GetFirstCommitOfBranch(git: Git, branchName: string): (r: Result<string>)
    ensures r.Ok? <==> git.revListFirst(branchName).status == 0
    ensures r.Err? ==> r.error == "Failed to get first commit of branch " + branchName
    ensures r.Ok? ==> r.value == TrimEnd(git.revListFirst(branchName).stdout)
  {
    FirstCommitFromOutput(git.revListFirst(branchName), branchName)
  }

  /** `make_git_branch`. */
  function MakeGitBranch(git: Git, branchName: string, fromRef: string): (r: Result<()>)
    ensures r.Ok? <==> git.branch(branchName, fromRef).status == 0
    ensures r.Err? ==> r.error == "Failed to make branch " + branchName
  {
    MakeBranchFromOutput(git.branch(branchName, fromRef), branchName)
  }

  // ---------------------------------------------------------------------------
  // What `git for-each-ref` prints

  const RefnameAtom: string := "%(refname:short)"

  /** The format argument main.rs passes; no shell strips the quotes. */
  const ForEachRefFormatAsWritten: string := "'%(refname:short)'"

  /** The format argument git_commands.rs passes. */
  const ForEachRefFormat: string := "%(refname:short)"

  /** Git's expansion of a format for one ref: the atom becomes the name, other text stays. */
  function ExpandFormat(format: string, name: string): string {
    if format == [] then []
    else if |RefnameAtom| <= |format| && format[..|RefnameAtom|] == RefnameAtom then
      name + ExpandFormat(format[|RefnameAtom|..], name)
    else [format[0]] + ExpandFormat(format[1..], name)
  }

  /** `git for-each-ref` output: one expanded line per branch, each ended by a newline. */
  function ForEachRefStdout(format: string, names: seq<string>): string {
    if names == [] then [] else ExpandFormat(format, names[0]) + "\n" + ForEachRefStdout(format, names[1..])
  }

  lemma ExpandPlainFormat(name: string)
    ensures ExpandFormat(ForEachRefFormat, name) == name
  {
    assert ForEachRefFormat[..|RefnameAtom|] == RefnameAtom;
    assert ForEachRefFormat[|RefnameAtom|..] == [];
  }

  lemma ExpandQuotedFormat(name: string)
    ensures ExpandFormat(ForEachRefFormatAsWritten, name) == "'" + name + "'"
  {
    var f := ForEachRefFormatAsWritten;
    assert f[..|RefnameAtom|] != RefnameAtom by { assert f[0] != RefnameAtom[0]; }
    assert f[1..][..|RefnameAtom|] == RefnameAtom;
    assert f[1..][|RefnameAtom|..] == "'";
    assert ExpandFormat("'", name) == "'";
  }

  /** With the plain format, the output is the names joined by newlines, plus a final newline. */
  lemma {:induction false} PlainStdoutIsJoin(names: seq<string>)
    requires |names| >= 1
    ensures ForEachRefStdout(ForEachRefFormat, names) == Join(names, '\n') + "\n"
  {
    ExpandPlainFormat(names[0]);
    if |names| > 1 {
      PlainStdoutIsJoin(names[1..]);
    }
  }

  /**
   * Reading the plain format's output back yields exactly the branches, for
   * at least one branch, names without newlines, and a last name that does not
   * end in whitespace.  The last condition is needed because `trim_end` drops
   * any trailing Unicode whitespace, and git accepts non-ASCII whitespace
   * such as U+00A0 in branch names.
   */
  lemma BranchListRoundTrip(status: int, names: seq<string>)
    requires |names| >= 1
    requires forall i :: 0 <= i < |names| ==> '\n' !in names[i]
    requires names[|names| - 1] != [] && !IsWhitespace(names[|names| - 1][|names[|names| - 1]| - 1])
    ensures BranchesFromOutput(CommandOutput(status, ForEachRefStdout(ForEachRefFormat, names))) == Ok(names)
  {
    PlainStdoutIsJoin(names);
    var joined := Join(names, '\n');
    JoinEndsWithLast(names, '\n');
    TrimEndOfPadded(joined, "\n");
    SplitJoin(names, '\n');
  }

  /** A join ends with its last part. */
  lemma {:induction false} JoinEndsWithLast(parts: seq<string>, sep: char)
    requires |parts| >= 1
    ensures EndsWith(Join(parts, sep), parts[|parts| - 1])
  {
    if |parts| > 1 {
      JoinEndsWithLast(parts[1..], sep);
      var rest := Join(parts[1..], sep);
      var whole := parts[0] + [sep] + rest;
      assert whole[|whole| - |rest|..] == rest;
    }
  }

  // ---------------------------------------------------------------------------
  // The branch list main.rs actually reads

  /** Every name wrapped in single quotes, as the quoted format prints it. */
  function Quoted(names: seq<string>): seq<string> {
    if names == [] then [] else ["'" + names[0] + "'"] + Quoted(names[1..])
  }

  lemma {:induction false} QuotedStdoutIsJoin(names: seq<string>)
    ensures ForEachRefStdout(ForEachRefFormatAsWritten, names) == Join(Quoted(names) + [""], '\n')
  {
    if names != [] {
      ExpandQuotedFormat(names[0]);
      QuotedStdoutIsJoin(names[1..]);
      var parts := Quoted(names) + [""];
      assert parts[0] == "'" + names[0] + "'";
      assert parts[1..] == Quoted(names[1..]) + [""];
    }
  }

  lemma {:induction false} QuotedParts(names: seq<string>)
    requires forall i :: 0 <= i < |names| ==> '\n' !in names[i]
    ensures forall i :: 0 <= i < |Quoted(names)| ==>
              '\n' !in Quoted(names)[i] && |Quoted(names)[i]| > 0 && Quoted(names)[i][0] == '\''
  {
    if names != [] {
      QuotedParts(names[1..]);
      assert forall i :: 1 <= i < |Quoted(names)| ==> Quoted(names)[i] == Quoted(names[1..])[i - 1];
    }
  }

  /**
   * With main.rs's quoted format and no trimming, the branch list is every
   * branch name in quotes, followed by an empty name.
   */
  lemma QuotedBranchList(status: int, names: seq<string>)
    requires forall i :: 0 <= i < |names| ==> '\n' !in names[i]
    ensures BranchesFromOutputAsWritten(CommandOutput(status, ForEachRefStdout(ForEachRefFormatAsWritten, names)))
            == Ok(Quoted(names) + [""])
  {
    QuotedStdoutIsJoin(names);
    QuotedParts(names);
    var parts := Quoted(names) + [""];
    forall i | 0 <= i < |parts| ensures '\n' !in parts[i] {
      if i < |Quoted(names)| {
        assert parts[i] == Quoted(names)[i];
      }
    }
    SplitJoin(parts, '\n');
  }

  /** Without `trim_end`, the final newline of git's output becomes an empty branch name. */
  lemma UntrimmedSplitAddsEmptyBranch()
    ensures BranchesFromOutputAsWritten(CommandOutput(0, "main\n")) == Ok(["main", ""])
    ensures BranchesFromOutput(CommandOutput(0, "main\n")) == Ok(["main"])
  {
    assert TrimEnd("main\n") == "main";
    SplitNoSeparator("main", '\n');
    assert "main\n" == "main" + ['\n'] + "";
    SplitCons("main", "", '\n');
    assert Split("", '\n') == [""];
    assert ["main"] + [""] == ["main", ""];
  }
}
