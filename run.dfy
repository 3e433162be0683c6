/**
 * `run_cli` (blog-updater/src/main.rs:295-318): read the branches, choose the
 * main reference branch, settle the blog branch, then find the changed posts.
 * Each step's error ends the run.  The source discards the changed posts and
 * returns `()`; here the run returns what it settled on, so that it can be
 * stated.
 */
module Run {
  import opened Wrappers
  import opened Text
  import opened CliOptions
  import opened GitOutput
  import opened Reference
  import opened BlogBranch
  import opened ChangedPosts

  datatype RunSummary = RunSummary(
    mainRef: string, blogsBranch: string, createdBranch: Option<string>, updatedBlogs: seq<BlogFile>)

  /** The branch list read from `git for-each-ref`. */
  function BranchList(git: Git): seq<string> {
    BranchesFromOutput(git.forEachRef).value
  }

  method RunCli(cli: Cli, git: Git, prompts: Prompts) returns (r: Result<RunSummary>)
    ensures GetMainReferenceBranch(cli, BranchList(git), prompts.mainOrMaster).Err? ==>
              r == Err(GetMainReferenceBranch(cli, BranchList(git), prompts.mainOrMaster).error)
    // a failing blog-branch step ends the run with its error
    ensures var m := GetMainReferenceBranch(cli, BranchList(git), prompts.mainOrMaster);
            m.Ok? && BlogsBranch(cli, git, m.value, BranchList(git), prompts).result.Err? ==>
              r == Err(BlogsBranch(cli, git, m.value, BranchList(git), prompts).result.error)
    // so does a failing search for changed posts
    ensures var m := GetMainReferenceBranch(cli, BranchList(git), prompts.mainOrMaster);
            var b := if m.Ok? then BlogsBranch(cli, git, m.value, BranchList(git), prompts).result else Err("");
            m.Ok? && b.Ok? && BlogFilesChanged(git, b.value, m.value, cli.blogFileName).Err? ==>
              r == Err(BlogFilesChanged(git, b.value, m.value, cli.blogFileName).error)
    // and once every step succeeds, so does the run
    ensures var m := GetMainReferenceBranch(cli, BranchList(git), prompts.mainOrMaster);
            var b := if m.Ok? then BlogsBranch(cli, git, m.value, BranchList(git), prompts).result else Err("");
            m.Ok? && b.Ok? && BlogFilesChanged(git, b.value, m.value, cli.blogFileName).Ok? ==> r.Ok?
    ensures r.Ok? ==> r.value.mainRef in BranchList(git)
    ensures r.Ok? ==> r.value.mainRef == GetMainReferenceBranch(cli, BranchList(git), prompts.mainOrMaster).value
    ensures r.Ok? ==> r.value.blogsBranch in BranchList(git) || r.value.createdBranch == Some(r.value.blogsBranch)
    ensures r.Ok? ==> r.value.createdBranch.Some? ==> r.value.createdBranch.value !in BranchList(git)
    // the blog branch is the one the blog-branch step settled on
    ensures r.Ok? ==> BlogsBranch(cli, git, r.value.mainRef, BranchList(git), prompts) ==
                      BranchOutcome(Ok(r.value.blogsBranch), r.value.createdBranch)
    ensures r.Ok? ==>
              var changed := FilesChangedFromOutput(git.diffNameOnly(r.value.mainRef, r.value.blogsBranch),
                                                    r.value.blogsBranch, r.value.mainRef);
              changed.Ok? && Paths(r.value.updatedBlogs) == BlogPaths(changed.value, cli.blogFileName) &&
              Ok(r.value.updatedBlogs) == CollectBlogFiles(git, changed.value, r.value.mainRef, cli.blogFileName)
  {
    // the empty-list error of `get_all_git_branches` cannot occur
    var branchList := BranchesFromOutput(git.forEachRef).value;
    var mainRef := GetMainReferenceBranch(cli, branchList, prompts.mainOrMaster);
    if mainRef.Err? {
      return Err(mainRef.error);
    }
    var blogs := BlogsBranch(cli, git, mainRef.value, branchList, prompts);
    if blogs.result.Err? {
      return Err(blogs.result.error);
    }
    var updated := GetAllBlogFilesChanged(git, blogs.result.value, mainRef.value, cli.blogFileName);
    if updated.Err? {
      return Err(updated.error);
    }
    var changed := FilesChangedFromOutput(git.diffNameOnly(mainRef.value, blogs.result.value),
                                          blogs.result.value, mainRef.value);
    CollectedPaths(git, changed.value, mainRef.value, cli.blogFileName);
    r := Ok(RunSummary(mainRef.value, blogs.result.value, blogs.created, updated.value));
  }

  /**
   * As main.rs writes `get_all_git_branches`, with the quoted format and no
   * trimming, no reference branch is ever found: neither main nor master, nor
   * any name given with `--main-branch-name` that does not itself start with
   * a quote.
   */
  lemma QuotedFormatHidesReferenceBranch(cli: Cli, status: int, names: seq<string>, selected: Result<int>)
    requires forall i :: 0 <= i < |names| ==> '\n' !in names[i]
    requires cli.mainBranchName.Some? ==> cli.mainBranchName.value != [] && cli.mainBranchName.value[0] != '\''
    ensures var listed := BranchesFromOutputAsWritten(CommandOutput(status,
                            ForEachRefStdout(ForEachRefFormatAsWritten, names))).value;
            GetMainReferenceBranch(cli, listed, selected) == Err(RefBranchErr)
  {
    QuotedBranchList(status, names);
    NotListedUnquoted(names, "main");
    NotListedUnquoted(names, "master");
    if cli.mainBranchName.Some? {
      NotListedUnquoted(names, cli.mainBranchName.value);
    }
  }

  /**
   * With the declared default options, the blog branch is "blogs" when it is
   * listed and is otherwise settled by asking the user, and the reference
   * branch is main or master.
   */
  lemma DefaultOptionsSettleBranches(blogRenderer: string, homepageRenderer: string, git: Git, mainRef: string,
                                     branchList: seq<string>, prompts: Prompts)
    ensures var cli := DefaultCli(blogRenderer, homepageRenderer);
            ("blogs" in branchList ==> BlogsBranch(cli, git, mainRef, branchList, prompts) ==
                                         BranchOutcome(Ok("blogs"), None)) &&
            ("blogs" !in branchList ==> BlogsBranch(cli, git, mainRef, branchList, prompts) ==
                                          HandleBranchMissing(git, "blogs", mainRef, branchList,
                                                              prompts.branchMissing, prompts.branchWord))
    ensures var r := GetMainReferenceBranch(DefaultCli(blogRenderer, homepageRenderer), branchList, prompts.mainOrMaster);
            r.Ok? ==> r.value == "main" || r.value == "master"
  {
  }

  lemma NotListedUnquoted(names: seq<string>, b: string)
    requires forall i :: 0 <= i < |names| ==> '\n' !in names[i]
    requires b != [] && b[0] != '\''
    ensures b !in Quoted(names) + [""]
  {
    QuotedParts(names);
  }
}
