/**
 * Settling the blog branch (blog-updater/src/main.rs:177-220 and the check in
 * `run_cli`, main.rs:299-313).  When the configured blog branch does not
 * exist, the user may have it created, name another one (created if
 * missing), or exit.  The outcome records the branch to use and the branch
 * that `git branch` created, if any.
 */
module BlogBranch {
  import opened Wrappers
  import opened CliOptions
  import opened GitOutput

  const ExitingErr: string := "Exiting..."
  const BlogBranchErr: string := "Failed to find blog branch"

  /** The branch to use (or why not), and the branch created on the way. */
  datatype BranchOutcome = BranchOutcome(result: Result<string>, created: Option<string>)

  /** Both git steps that create `name` from the first commit of `mainRef` succeed. */
  predicate CreationSucceeds(git: Git, name: string, mainRef: string) {
    var first := GetFirstCommitOfBranch(git, mainRef);
    first.Ok? && MakeGitBranch(git, name, first.value).Ok?
  }

  /**
   * `get_first_commit_of_branch(mainRef)?` then `make_git_branch(name, commit)?`,
   * yielding `name`.
   */
  function CreateFromFirstCommit(git: Git, name: string, mainRef: string): (r: BranchOutcome)
    ensures r.result.Ok? <==> CreationSucceeds(git, name, mainRef)
    ensures r.result.Ok? ==> r == BranchOutcome(Ok(name), Some(name))
    ensures r.result.Err? ==> r.created.None?
    ensures GetFirstCommitOfBranch(git, mainRef).Err? ==> r.result == Err(GetFirstCommitOfBranch(git, mainRef).error)
    ensures GetFirstCommitOfBranch(git, mainRef).Ok? &&
            MakeGitBranch(git, name, GetFirstCommitOfBranch(git, mainRef).value).Err? ==>
              r.result == Err("Failed to make branch " + name)
  {
    match GetFirstCommitOfBranch(git, mainRef)
    case Err(e) => BranchOutcome(Err(e), None)
    case Ok(commit) =>
      match MakeGitBranch(git, name, commit)
      case Err(e) => BranchOutcome(Err(e), None)
      case Ok(_) => BranchOutcome(Ok(name), Some(name))
  }

  /**
   * `handle_branch_missing`, with the menu answer `selected` and the typed
   * branch name `word` as inputs (the word is asked for only on answer 2).
   */
  function HandleBranchMissing(git: Git, branchName: string, mainRef: string, branchList: seq<string>,
                               selected: Result<int>, word: Result<string>): (r: BranchOutcome)
    // the branch returned exists: it was listed, or it has just been created
    ensures r.result.Ok? ==> r.result.value in branchList || r.created == Some(r.result.value)
    // a branch is created only as the one returned
    ensures r.created.Some? ==> r.result == Ok(r.created.value)
    ensures selected.Err? ==> r == BranchOutcome(Err(selected.error), None)
    // 1: create the configured branch
    ensures selected == Ok(1) ==> r == CreateFromFirstCommit(git, branchName, mainRef)
    ensures selected == Ok(1) ==> r.result.Ok? ==> r.result.value == branchName
    ensures selected == Ok(1) ==> (r.created.Some? <==> CreationSucceeds(git, branchName, mainRef))
    // 2: use the typed name, creating it exactly when it is not listed
    ensures selected == Ok(2) && word.Err? ==> r == BranchOutcome(Err(word.error), None)
    ensures selected == Ok(2) && word.Ok? ==> r.result.Ok? ==> r.result.value == word.value
    ensures selected == Ok(2) && word.Ok? && word.value in branchList ==> r == BranchOutcome(Ok(word.value), None)
    ensures selected == Ok(2) && word.Ok? && word.value !in branchList ==>
              r == CreateFromFirstCommit(git, word.value, mainRef)
    ensures selected == Ok(2) && word.Ok? ==>
              (r.created.Some? <==> word.value !in branchList && CreationSucceeds(git, word.value, mainRef))
    // anything else: exit
    ensures selected.Ok? && selected.value != 1 && selected.value != 2 ==> r == BranchOutcome(Err(ExitingErr), None)
  {
    match selected
    case Err(e) => BranchOutcome(Err(e), None)
    case Ok(n) =>
      if n == 1 then CreateFromFirstCommit(git, branchName, mainRef)
      else if n == 2 then
        match word
        case Err(e) => BranchOutcome(Err(e), None)
        case Ok(branch) =>
          if branch !in branchList then CreateFromFirstCommit(git, branch, mainRef)
          else BranchOutcome(Ok(branch), None)
      else BranchOutcome(Err(ExitingErr), None)
  }

  /** The blog-branch step of `run_cli`. */
  function BlogsBranch(cli: Cli, git: Git, mainRef: string, branchList: seq<string>, prompts: Prompts)
    : (r: BranchOutcome)
    ensures cli.blogsBranchName in branchList ==> r == BranchOutcome(Ok(cli.blogsBranchName), None)
    ensures cli.blogsBranchName !in branchList && cli.noInteractive ==> r == BranchOutcome(Err(BlogBranchErr), None)
    ensures cli.blogsBranchName !in branchList && !cli.noInteractive ==>
              r == HandleBranchMissing(git, cli.blogsBranchName, mainRef, branchList,
                                       prompts.branchMissing, prompts.branchWord)
    ensures r.result.Ok? ==> r.result.value in branchList || r.created == Some(r.result.value)
    ensures r.created.Some? ==> r.created.value !in branchList
  {
    if cli.blogsBranchName !in branchList then
      if cli.noInteractive then BranchOutcome(Err(BlogBranchErr), None)
      else HandleBranchMissing(git, cli.blogsBranchName, mainRef, branchList, prompts.branchMissing, prompts.branchWord)
    else BranchOutcome(Ok(cli.blogsBranchName), None)
  }
}
