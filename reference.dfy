/**
 * Choosing the main reference branch (blog-updater/src/main.rs:222-293).
 * The decision in `get_main_reference_branch` depends on the branch list, the
 * optional `--main-branch-name` and `--no-interactive`; it ends in a branch,
 * an error, or a question to the user whose answer is an input here.
 */
module Reference {
  import opened Wrappers
  import opened CliOptions

  const RefBranchErr: string := "Failed to find reference branch"
  const BothBranchesMsg: string :=
    "Looks like you have both master and main branches\nThis program does not know which one you wish to use as the main reference branch"
  const NeitherBranchMsg: string := "Failed to find either master or main branch"
  const NeitherBranchDefensiveErr: string :=
    "Failed to find either master/main branch. try again with a --main-branch-name argument"

  function NamedBranchDefensiveErr(name: string): string {
    "Failed to find branch '" + name + "' try again with a --main-branch-name that exists"
  }

  /** The candidates: the named branch, or "main" then "master". */
  function SearchFor(cli: Cli): (r: seq<string>)
    ensures 1 <= |r| <= 2
  {
    match cli.mainBranchName
    case Some(b) => [b]
    case None => ["main", "master"]
  }

  /** `iter().all(|b| branch_list.contains(b))` */
  predicate HasAll(search: seq<string>, branchList: seq<string>) {
    forall b | b in search :: b in branchList
  }

  /** `iter().any(|b| branch_list.contains(b))` */
  predicate HasAny(search: seq<string>, branchList: seq<string>) {
    exists b | b in search :: b in branchList
  }

  /** How `get_main_reference_branch` ends before it may ask the user. */
  datatype RefDecision =
    | Use(branch: string)
    | Fail(message: string)
    | AskMainOrMaster(description: string)

  /** The decision code of `get_main_reference_branch`, branches kept as written. */
  function MainReferenceDecision(cli: Cli, branchList: seq<string>): (r: RefDecision)
    // a branch is used only if it is a listed candidate, main before master
    ensures r.Use? ==> r.branch in SearchFor(cli) && r.branch in branchList
    ensures r.Use? && cli.mainBranchName.None? && r.branch == "master" ==> "main" !in branchList
  {
    var search := SearchFor(cli);
    var hasAll := HasAll(search, branchList);
    var hasAny := HasAny(search, branchList);
    var potentialErr :=
      if |search| == 2 && hasAll then BothBranchesMsg
      else if |search| == 2 && !hasAny then NeitherBranchMsg
      else "Failed to find the reference branch: " + search[0];
    if (hasAll && |search| == 2 && cli.noInteractive) || (!hasAll && |search| == 1) || (!hasAny && |search| == 2) then
      Fail(RefBranchErr)
    else if hasAll && |search| == 2 then
      AskMainOrMaster(potentialErr)
    else if |search| == 2 then
      if search[0] in branchList then Use(search[0])
      else if search[1] in branchList then Use(search[1])
      else Fail(NeitherBranchDefensiveErr)
    else
      if search[0] in branchList then Use(search[0])
      else Fail(NamedBranchDefensiveErr(search[0]))
  }

  /** `handle_multiple_main_branches`: answer 1 is "main", any other answer "master". */
  function HandleMultipleMainBranches(selected: Result<int>): (r: Result<string>)
    ensures selected.Err? ==> r == Err(selected.error)
    ensures selected.Ok? ==> r.Ok? && (r.value == "main" <==> selected.value == 1)
    ensures r.Ok? ==> r.value in ["main", "master"]
  {
    match selected
    case Err(e) => Err(e)
    case Ok(n) => if n == 1 then Ok("main") else Ok("master")
  }

  /** `get_main_reference_branch`, with the user's menu answer as `selected`. */
  function GetMainReferenceBranch(cli: Cli, branchList: seq<string>, selected: Result<int>): (r: Result<string>)
    // an explicitly named branch is used exactly when it exists
    ensures cli.mainBranchName.Some? ==>
              (r.Ok? <==> cli.mainBranchName.value in branchList) &&
              (r.Ok? ==> r.value == cli.mainBranchName.value) &&
              (r.Err? ==> r.error == RefBranchErr)
    // otherwise: neither main nor master is an error
    ensures cli.mainBranchName.None? && "main" !in branchList && "master" !in branchList ==>
              r == Err(RefBranchErr)
    // both, without interaction, is an error; with interaction, the user picks
    ensures cli.mainBranchName.None? && "main" in branchList && "master" in branchList ==>
              r == if cli.noInteractive then Err(RefBranchErr) else HandleMultipleMainBranches(selected)
    // exactly one of them is used, main looked at first
    ensures cli.mainBranchName.None? && "main" in branchList && "master" !in branchList ==> r == Ok("main")
    ensures cli.mainBranchName.None? && "main" !in branchList && "master" in branchList ==> r == Ok("master")
    // whatever is returned exists
    ensures r.Ok? ==> r.value in branchList
  {
    match MainReferenceDecision(cli, branchList)
    case Use(b) => Ok(b)
    case Fail(message) => Err(message)
    case AskMainOrMaster(_) => HandleMultipleMainBranches(selected)
  }

  /**
   * The errors at main.rs:279 and main.rs:287-288 are never returned: the
   * guard before them already rejects every input that would reach them.
   */
  lemma DefensiveErrorsUnreachable(cli: Cli, branchList: seq<string>)
    ensures MainReferenceDecision(cli, branchList).Fail? ==>
              MainReferenceDecision(cli, branchList).message == RefBranchErr
  {
    var search := SearchFor(cli);
    if |search| == 2 && HasAny(search, branchList) {
      var b :| b in search && b in branchList;
      assert b == search[0] || b == search[1];
    }
  }

  /** The user is asked only when both main and master exist and interaction is allowed. */
  lemma AskOnlyWhenBoth(cli: Cli, branchList: seq<string>)
    ensures MainReferenceDecision(cli, branchList).AskMainOrMaster? <==>
              cli.mainBranchName.None? && !cli.noInteractive && "main" in branchList && "master" in branchList
    ensures MainReferenceDecision(cli, branchList).AskMainOrMaster? ==>
              MainReferenceDecision(cli, branchList).description == BothBranchesMsg
  {
  }
}
