/**
 * The command-line options of blog-updater/src/main.rs and the answers the
 * user gives to its prompts.  Parsing the command line and showing the menus
 * are outside the model; their results are these values.
 */
module CliOptions {
  import opened Wrappers

  /** `Cli` (main.rs:9-28). */
  datatype Cli = Cli(
    blogsBranchName: string,
    blogFileName: string,
    mainBranchName: Option<string>,
    blogRendererExecutable: string,
    homepageRendererExecutable: string,
    renderedDirectory: string,
    noInteractive: bool)

  /** The options with gumdrop's declared defaults and the given executables. */
  function DefaultCli(blogRenderer: string, homepageRenderer: string): (r: Cli)
    ensures r.blogsBranchName == "blogs" && r.blogFileName == "BLOG.md" && r.renderedDirectory == "tmp_blog"
    // no explicit main branch: main or master is looked for; prompts are allowed
    ensures r.mainBranchName.None? && !r.noInteractive
  {
    Cli("blogs", "BLOG.md", None, blogRenderer, homepageRenderer, "tmp_blog", false)
  }

  /**
   * The answers `interact_number` / `interact_word` return, or the error they
   * fail with, for the three prompts main.rs can show.
   */
  datatype Prompts = Prompts(
    mainOrMaster: Result<int>,
    branchMissing: Result<int>,
    branchWord: Result<string>)
}
