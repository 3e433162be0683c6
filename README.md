# blog-updater: RSS generation and branch selection, in Dafny

A model of the decision and formatting logic of `blog-updater`, a tool that
publishes blog posts kept in a git repository.

- **RSS generation** (`blog-updater/src/rss.rs`). `generate_rss_item` checks a
  post's metadata in a fixed order: title, blog home URL, blog file name,
  description, then a non-zero first-commit timestamp. It reports the first
  missing piece as `Blog post <path> is missing <what>`. Otherwise it prints an
  RSS `<item>` whose link and guid are both `home/file`. `generate_rss` checks
  the blog name, the home URL and the blog description, then reads the clock.
  It prints the RSS 2.0 channel document: its self link is `home/rss.xml` and
  the given items follow it unchanged.
- **Branches and changed posts** (`blog-updater/src/main.rs`).
  `get_main_reference_branch` chooses the main reference branch from the
  branch list, `--main-branch-name` and `--no-interactive`. When both main and
  master exist and interaction is allowed, it asks the user.
  `handle_branch_missing` creates or picks the blog branch, or exits.
  `get_all_blog_files_changed_since_last_blog_update` keeps the changed paths
  that end with the blog file name and reads each one's commit dates. The git
  output filters split command output into lines.

Modules, one per component: `Wrappers` (Option, Result), `Text` (Rust's
`trim_end`, `split`, `ends_with`), `Rss` and `RssReader` (rss.rs), `GitOutput`
(the git output filters of main.rs), `CliOptions`, `Reference`, `BlogBranch`,
`ChangedPosts` and `Run` (main.rs).

Inputs that stand for effects:
- A `GitOutput.Git` value says what each git command prints and its exit status.
- `CliOptions.Prompts` holds the user's answers, or the error a prompt fails with.
- `formatDate: int -> string` stands for chrono's `%a, %d %B %Y %H:%M:%S %z` formatting.
- `clockSeconds` is the system clock reading.

`RssReader` reads both RSS templates back. It is the independent statement of
what the generated XML holds. The read-back is proved for texts without `<`
(and a self link without `"`), because rss.rs does not escape values.

Two `BlogFile` types exist. rss.rs imports one with `path_from_root` and
`written`, whose definition lies outside rss.rs; it is `Rss.BlogFile`.
main.rs:30-36 defines one with `update_timestamps`; it is
`ChangedPosts.BlogFile`.

## Model

| member | source | states |
|---|---|---|
| `CliOptions.DefaultCli` | blog-updater/src/main.rs:11-23 | The declared defaults: blog branch "blogs", blog file "BLOG.md", rendered directory "tmp_blog", no explicit main branch (so main or master is looked for), and prompts allowed. |
| `Text.Split` | blog-updater/src/main.rs:66-67 | `split('\n')` never yields an empty list. No piece contains the separator. Joining the pieces with it gives back the input. |
| `Text.TrimEnd` | blog-updater/src/main.rs:116 | `trim_end` returns a prefix that is empty or ends in a non-whitespace character. Everything it drops is Unicode whitespace. |
| `Text.SplitJoin` | blog-updater/src/main.rs:116-117 | Splitting undoes joining when no part contains the separator. |
| `Text.TrimEndOfPadded` | blog-updater/src/main.rs:116 | Trimming removes exactly a whitespace tail appended to text that does not end in whitespace. |
| `Rss.RssErr` | blog-updater/src/rss.rs:6-9 | The message is "Blog post ", then the post's path, then " is missing ", then the missing piece, with nothing else (its length is the sum of the parts). |
| `Rss.ItemXml` | blog-updater/src/rss.rs:44-57 | The item opens with the item and title tags and the title verbatim, ends with the description verbatim and the closing tags, and is exactly as long as the template's text plus the five values. |
| `Rss.RssXml` | blog-updater/src/rss.rs:88-106 | The document opens with the rss, channel and title tags and the title verbatim, and ends with the items verbatim and the closing channel and rss tags. |
| `Rss.SelfLink` | blog-updater/src/rss.rs:86 | The feed's location is the home URL followed by "/rss.xml" (`RSS_ENDING`), and nothing else. |
| `Rss.GenerateRssItem` | blog-updater/src/rss.rs:11-60 | An item exists only when title, blog_home_url, blog_file_name and description are present and the timestamp is non-zero. It is the item template with home + "/" + file name as both link and guid and the formatted first-commit time as pubDate. Every error is an `rss_err` message for the post. |
| `Rss.GenerateRss` | blog-updater/src/rss.rs:62-109 | A document exists only when blog_name, blog_home_url and blog_description are present and the clock is not before 1970. It is the channel template with the formatted clock reading, the self link and the given items unchanged. Every error is the clock error or an `rss_err` message for the passed post. |
| `Rss.RssErrNamesTheMissingPiece` | blog-updater/src/rss.rs:6-9 | For one post, two equal messages name the same missing piece. |
| `Rss.FirstFailed` | blog-updater/src/rss.rs:15-34 | Gives none exactly when every check passes. Otherwise gives the label of a failed check that only passed checks come before. |
| `Rss.FirstFailedAt` | blog-updater/src/rss.rs:15-34 | The first failed check in order is the one reported. |
| `Rss.GenerateRssItemChecksInOrder` | blog-updater/src/rss.rs:15-34 | `generate_rss_item` fails exactly when title, blog_home_url, blog_file_name or description is missing, or the timestamp is 0. The error names the first failure in that order, whatever the date formatting. |
| `Rss.GenerateRssChecksInOrder` | blog-updater/src/rss.rs:67-81 | `generate_rss` fails exactly when blog_name, blog_home_url or blog_description is missing, or the clock is before 1970. The first missing field is reported, with the passed post's path, whatever the items and the clock. |
| `Rss.MissingTitleFailsItem` | blog-updater/src/rss.rs:15-18 | Without a title the result is exactly `Blog post <path> is missing title`. |
| `Rss.UncommittedPostFailsItem` | blog-updater/src/rss.rs:31-34 | A post with timestamp 0 never yields an item. |
| `Rss.MissingBlogDescriptionMessage` | blog-updater/src/rss.rs:75-78 | A missing blog_description is reported as "description". |
| `Rss.ItemDependsOnlyOnItsFields` | blog-updater/src/rss.rs:15-57 | Two configs that agree on title, home URL, file name and description give the same item result. |
| `Rss.ChannelDependsOnlyOnItsFields` | blog-updater/src/rss.rs:67-106 | Two configs that agree on blog name, home URL and blog description give the same document result. |
| `RssReader.ParseItemXml` | blog-updater/src/rss.rs:44-57 | Reading the item template back yields the five fields that went in, when they contain no `<`. |
| `RssReader.ParseRssXml` | blog-updater/src/rss.rs:88-106 | Reading the document template back yields the channel fields and the items text, for any items text. |
| `RssReader.GeneratedItemReadsBack` | blog-updater/src/rss.rs:42-59 | A generated item holds the title, home + "/" + file name as both link and guid, the formatted timestamp, and the description, all verbatim. |
| `RssReader.GeneratedRssReadsBack` | blog-updater/src/rss.rs:86-108 | A generated document holds the blog name, home URL, blog description, the formatted clock reading, self link home + "/rss.xml", and the items verbatim after the self link. |
| `RssReader.UnescapedItemsCollide` | blog-updater/src/rss.rs:44-57 | Values are not escaped: for any values, moving the title-to-link markup from the title into the link gives a different item that prints identically. |
| `GitOutput.BranchesFromOutputAsWritten` | blog-updater/src/main.rs:65-72 | The branch filter never fails, so the "Failed to find any git branches" error cannot occur. Its lines joined with newlines give the raw output. |
| `GitOutput.BranchesFromOutput` | blog-updater/src/git_commands.rs:38-45 | With trimming first: never fails, and the lines joined give the trimmed output. |
| `GitOutput.FirstCommitFromOutput` | blog-updater/src/main.rs:83-91 | Fails with the branch's error message exactly when the status is non-zero. Otherwise gives the output with its whitespace tail cut. |
| `GitOutput.MakeBranchFromOutput` | blog-updater/src/main.rs:167-174 | Fails with "Failed to make branch <name>" exactly when the status is non-zero. |
| `GitOutput.FilesChangedFromOutput` | blog-updater/src/main.rs:111-120 | Fails with the revision-range message exactly when the status is non-zero. Otherwise gives at least one line, and the lines joined give the trimmed output. |
| `GitOutput.TimestampsFromOutput` | blog-updater/src/main.rs:131-140 | Same contract for the commit-date lines of one file. |
| `GitOutput.GetFirstCommitOfBranch` | blog-updater/src/main.rs:79-92 | Fails with "Failed to get first commit of branch <name>" exactly when `git rev-list` exits non-zero. Otherwise the commit is git's output without its whitespace tail. |
| `GitOutput.MakeGitBranch` | blog-updater/src/main.rs:163-175 | Fails with "Failed to make branch <name>" exactly when `git branch` exits non-zero. |
| `GitOutput.ExpandQuotedFormat` | blog-updater/src/main.rs:63 | Git prints each branch through main.rs's format as the name in single quotes. |
| `GitOutput.PlainStdoutIsJoin` | blog-updater/src/git_commands.rs:36 | Git prints the branches through the unquoted format as the names joined by newlines, plus a final newline. |
| `GitOutput.BranchListRoundTrip` | blog-updater/src/git_commands.rs:34-46 | Reading the unquoted format's output back gives exactly the branch list, when there is at least one branch, no name contains a newline, and the last name does not end in Unicode whitespace. (With no branches the reader gives [""]. A last name ending in, say, U+00A0 loses that character.) |
| `GitOutput.QuotedBranchList` | blog-updater/src/main.rs:61-73 | As main.rs reads it, the list is every branch name in quotes, then an empty name. |
| `GitOutput.UntrimmedSplitAddsEmptyBranch` | blog-updater/src/main.rs:66-67 | Output "main\n" reads as ["main", ""] without trimming and as ["main"] with it. |
| `Reference.HandleMultipleMainBranches` | blog-updater/src/main.rs:222-233 | Answer 1 gives "main", any other answer gives "master". A prompt error is passed on. |
| `Reference.MainReferenceDecision` | blog-updater/src/main.rs:235-290 | A branch is used only if it is a listed candidate. With no name given, master is used only when main is not listed. |
| `Reference.GetMainReferenceBranch` | blog-updater/src/main.rs:235-293 | Named branch: Ok(b) iff b is listed, otherwise the error. No name, neither main nor master: error. Both with `--no-interactive`: error. Both, interactive: the user's pick. Exactly one: that one, main first. Any Ok branch is listed. |
| `Reference.DefensiveErrorsUnreachable` | blog-updater/src/main.rs:259-290 | The decision only fails with "Failed to find reference branch". The errors at lines 279 and 287-288 are never produced. |
| `Reference.AskOnlyWhenBoth` | blog-updater/src/main.rs:246-270 | The user is asked exactly when there is no named branch, interaction is allowed and both main and master exist. The question is the both-branches message. |
| `BlogBranch.CreateFromFirstCommit` | blog-updater/src/main.rs:201-203 | Succeeds, creating the branch, exactly when both git steps succeed. A failure creates nothing. A failing first-commit lookup gives its error, and a failing `git branch` gives "Failed to make branch <name>". |
| `BlogBranch.HandleBranchMissing` | blog-updater/src/main.rs:177-220 | Answer 1 creates branch_name from the first commit of the reference branch, whether or not it is listed. Answer 2 uses the typed word: a listed word as it is, an unlisted one created the same way. Either creation's failure is the result. Any other answer gives Err("Exiting..."), and a prompt error is passed on. A returned branch was listed or has just been created. |
| `BlogBranch.BlogsBranch` | blog-updater/src/main.rs:299-313 | A listed blog branch is used. A missing one with `--no-interactive` is an error. A missing one otherwise gets exactly what `handle_branch_missing` gives. The branch used exists afterwards, and only a missing branch is created. |
| `ChangedPosts.BlogPaths` | blog-updater/src/main.rs:150-151 | The kept paths are at most as many as the changed files, and every one ends with the blog file name. |
| `ChangedPosts.Timestamps` | blog-updater/src/main.rs:124-142 | Fails with "Failed to get timestamps of changes to <path>" exactly when `git log` exits non-zero. Otherwise gives at least one line, no line contains a newline, and the lines joined give git's trimmed output. |
| `ChangedPosts.CollectBlogFiles` | blog-updater/src/main.rs:149-160 | There are no more posts than changed files. A failure is the commit-date error of one of the files. |
| `ChangedPosts.GetAllBlogFilesChanged` | blog-updater/src/main.rs:144-161 | The loop's result is the diff error, or the specification `CollectBlogFiles` of the changed files. |
| `ChangedPosts.CollectErrPersists` | blog-updater/src/main.rs:152 | Once a commit-date read fails, the operation returns that error. |
| `ChangedPosts.BlogPathsAppend` | blog-updater/src/main.rs:150-151 | The blog-file filter distributes over concatenation, so input order is kept. |
| `ChangedPosts.BlogPathsMembers` | blog-updater/src/main.rs:150-151 | A path is kept iff it is a changed file ending with the blog file name. |
| `ChangedPosts.CollectedPaths` | blog-updater/src/main.rs:149-160 | On success the posts' paths are exactly the kept paths, in order. |
| `ChangedPosts.CollectedTimestamps` | blog-updater/src/main.rs:152-156 | On success each post carries the commit dates git reports for its own path. |
| `ChangedPosts.CollectSucceeds` | blog-updater/src/main.rs:150-158 | Succeeds iff the commit dates of every kept path can be read. |
| `ChangedPosts.CollectFailsAtFirst` | blog-updater/src/main.rs:150-158 | A failure is the error of the first kept path whose dates cannot be read. |
| `Run.RunCli` | blog-updater/src/main.rs:295-318 | Each step's error ends the run with that error: the reference branch, the blog branch, then the changed posts. When all three succeed, the run succeeds. On success the main reference branch is listed and is the one chosen. The blog branch is the one the blog-branch step settled on: it exists, and only a missing one was created. The posts are the blog files among the diff's paths, in order, each with git's commit dates for its path. |
| `Run.DefaultOptionsSettleBranches` | blog-updater/src/main.rs:11-16 | With the declared defaults, the blog branch is "blogs" when listed and is otherwise what `handle_branch_missing` gives for "blogs". Any reference branch found is main or master. |
| `Run.QuotedFormatHidesReferenceBranch` | blog-updater/src/main.rs:61-73 | With main.rs's branch list (names without newlines) no reference branch is found: not main, not master, not any non-empty named branch that does not start with a quote. `--main-branch-name ""` is found, as the trailing empty name. |

## Findings

| source | as written | input that shows it | evidently intended | confidence | as-written member | corrected member |
|---|---|---|---|---|---|---|
| blog-updater/src/main.rs:63 | `--format='%(refname:short)'` goes to git as one argument with no shell, so git prints every branch name in single quotes | branches `main`, `blogs`: the list is `'main'`, `'blogs'`, `` and the main reference branch is never found | `--format=%(refname:short)`, as git_commands.rs:36 has it | medium, not executed (assumes `exechelper::execute` starts git without a shell) | `Run.QuotedFormatHidesReferenceBranch` | `GitOutput.BranchListRoundTrip` |
| blog-updater/src/main.rs:66 | splits the raw output, so git's final newline becomes an empty branch name | stdout `main\n` gives `main` and `` | `trim_end()` before `split('\n')`, as git_commands.rs:39 has it | high, not executed | `GitOutput.UntrimmedSplitAddsEmptyBranch` | `GitOutput.BranchesFromOutput` |

`Run.RunCli` reads the branch list with the corrected filter.

## Left out

- Process execution (`exechelper::execute`) is left out. A command that cannot be started, and the `io::Error` it raises, are not modelled. Each command's status and output are inputs.
- The git argument lists are left out, apart from the `for-each-ref` format. Git's answer to each command is an input. For example, main.rs:129 passes `--pretty-format:%cd`, while git_commands.rs:95 passes `--pretty=format:%cd,%an`. `--pretty-format:%cd` is not an option git documents. If git rejects it, every commit-date read fails and `ChangedPosts.CollectFailsAtFirst` gives the first kept path's error. The model takes git's status as an input and does not decide which happens.
- Prompts (`simple_interaction`) are left out. The menu texts and descriptions (main.rs:183-192, 206, 223-224) are not built. The answers are inputs. `Reference.RefDecision.AskMainOrMaster` keeps the description passed to the prompt.
- `eprintln!` diagnostics (main.rs:260-263, 301-304), `std::process::exit` and `main` are left out. They are output only.
- gumdrop's command-line parsing is left out. `CliOptions.Cli` holds the parsed options.
- chrono's date formatting and `SystemTime::now` are left out; they are inputs. chrono's panic on an out-of-range timestamp is not modelled.
- git_commands.rs is left out. It is another version of main.rs's git wrappers. Only its branch filter and format appear, as the corrected definitions. Its other wrappers (`rev-parse`, `show`, `merge-base`, `branch -D`, the `ls-tree` loop) are not part of this model.
- `Rss.BlogConfig`'s definition lies outside rss.rs. The model carries only the six fields rss.rs reads.
- `Run.RunCli` returns what it settled on (reference branch, blog branch, created branch, posts). The source returns `()`.
- `Run.RunCli`: reads the branch list with git_commands.rs:38-45's trimming filter, the corrected definition of the main.rs:66 finding. main.rs:296 calls main.rs:65-67's filter, which also lists an empty name "" after git's final newline. So for `--blogs-branch-name ""` or `--main-branch-name ""`, the source finds the branch while the model does not. All other names are listed alike.
- `RssReader.GeneratedItemReadsBack`: proved only for values without `<`. rss.rs inserts values unescaped, so other values can change the document's structure (see `RssReader.UnescapedItemsCollide`).
- `RssReader.GeneratedRssReadsBack`: proved only for channel values without `<` and a home URL without `"`, for the same reason.
