/**
 * Finding the blog posts changed since the last blog update
 * (`get_all_blog_files_changed_since_last_blog_update`, blog-updater/src/main.rs:144-161):
 * list the files that differ between the main reference branch and the blog
 * branch, keep those whose path ends with the blog file name, and fetch the
 * commit dates of each kept file in turn.  The first git failure ends the
 * whole operation.
 */
module ChangedPosts {
  import opened Wrappers
  import opened Text
  import opened GitOutput

  /** main.rs's `BlogFile`: a post's path and its commit dates, most recent first. */
  datatype BlogFile = BlogFile(pathFromRoot: string, updateTimestamps: seq<string>)

  /** The reference filter: the paths ending with the blog file name, in their order. */
  function BlogPaths(files: seq<string>, blogFileName: string): (r: seq<string>)
    ensures |r| <= |files|
    ensures forall i :: 0 <= i < |r| ==> EndsWith(r[i], blogFileName)
  {
    if files == [] then []
    else (if EndsWith(files[0], blogFileName) then [files[0]] else []) + BlogPaths(files[1..], blogFileName)
  }

  function Paths(blogFiles: seq<BlogFile>): seq<string> {
    if blogFiles == [] then [] else [blogFiles[0].pathFromRoot] + Paths(blogFiles[1..])
  }

  /** `get_all_timestamps_of_file_commits(path, mainRef)`. */
  function Timestamps(git: Git, path: string, mainRef: string): (r: Result<seq<string>>)
    ensures r.Ok? <==> git.logDates(path, mainRef).status == 0
    ensures r.Err? ==> r.error == "Failed to get timestamps of changes to " + path
    ensures r.Ok? ==> |r.value| >= 1 && Join(r.value, '\n') == TrimEnd(git.logDates(path, mainRef).stdout)
    ensures r.Ok? ==> forall i :: 0 <= i < |r.value| ==> '\n' !in r.value[i]
  {
    TimestampsFromOutput(git.logDates(path, mainRef), path)
  }

  /** What the loop has built after the files `files`, taken in order. */
  function CollectBlogFiles(git: Git, files: seq<string>, mainRef: string, blogFileName: string)
    : (r: Result<seq<BlogFile>>)
    ensures r.Ok? ==> |r.value| <= |files|
    ensures r.Err? ==> exists k :: 0 <= k < |files| && Timestamps(git, files[k], mainRef) == Err(r.error)
  {
    if files == [] then Ok([])
    else
      var last := files[|files| - 1];
      match CollectBlogFiles(git, files[..|files| - 1], mainRef, blogFileName)
      case Err(e) => Err(e)
      case Ok(acc) =>
        if EndsWith(last, blogFileName) then
          match Timestamps(git, last, mainRef)
          case Err(e) => Err(e)
          case Ok(ts) => Ok(acc + [BlogFile(last, ts)])
        else Ok(acc)
  }

  /** What the operation yields: the diff's error, or the posts collected from the changed files. */
  function BlogFilesChanged(git: Git, blogBranchName: string, mainRefBranchName: string, blogFileName: string)
    : Result<seq<BlogFile>>
  {
    var changed := FilesChangedFromOutput(git.diffNameOnly(mainRefBranchName, blogBranchName),
                                          blogBranchName, mainRefBranchName);
    if changed.Err? then Err(changed.error)
    else CollectBlogFiles(git, changed.value, mainRefBranchName, blogFileName)
  }

  /** `get_all_blog_files_changed_since_last_blog_update`. */
  method GetAllBlogFilesChanged(git: Git, blogBranchName: string, mainRefBranchName: string, blogFileName: string)
    returns (r: Result<seq<BlogFile>>)
    ensures r == BlogFilesChanged(git, blogBranchName, mainRefBranchName, blogFileName)
  {
    var changed := FilesChangedFromOutput(git.diffNameOnly(mainRefBranchName, blogBranchName),
                                          blogBranchName, mainRefBranchName);
    if changed.Err? {
      return Err(changed.error);
    }
    var filesChanged := changed.value;
    var outVec: seq<BlogFile> := [];
    var i := 0;
    while i < |filesChanged|
      invariant 0 <= i <= |filesChanged|
      invariant CollectBlogFiles(git, filesChanged[..i], mainRefBranchName, blogFileName) == Ok(outVec)
    {
      var file := filesChanged[i];
      assert filesChanged[..i + 1][..i] == filesChanged[..i];
      if EndsWith(file, blogFileName) {
        var updateTimestamps := Timestamps(git, file, mainRefBranchName);
        if updateTimestamps.Err? {
          CollectErrPersists(git, filesChanged, i + 1, mainRefBranchName, blogFileName);
          return Err(updateTimestamps.error);
        }
        outVec := outVec + [BlogFile(file, updateTimestamps.value)];
      }
      i := i + 1;
    }
    assert filesChanged[..i] == filesChanged;
    r := Ok(outVec);
  }

  // ---------------------------------------------------------------------------
  // Properties

  /** Once a prefix has failed, the whole list fails with the same error. */
  lemma {:induction false} CollectErrPersists(git: Git, files: seq<string>, k: nat, mainRef: string, blogFileName: string)
    requires k <= |files|
    requires CollectBlogFiles(git, files[..k], mainRef, blogFileName).Err?
    ensures CollectBlogFiles(git, files, mainRef, blogFileName) == CollectBlogFiles(git, files[..k], mainRef, blogFileName)
    decreases |files|
  {
    if k == |files| {
      assert files[..k] == files;
    } else {
      var init := files[..|files| - 1];
      assert init[..k] == files[..k];
      CollectErrPersists(git, init, k, mainRef, blogFileName);
    }
  }

  lemma {:induction false} BlogPathsSnoc(files: seq<string>, x: string, blogFileName: string)
    ensures BlogPaths(files + [x], blogFileName) ==
            BlogPaths(files, blogFileName) + (if EndsWith(x, blogFileName) then [x] else [])
  {
    if files == [] {
      assert [] + [x] == [x];
    } else {
      assert (files + [x])[1..] == files[1..] + [x];
      BlogPathsSnoc(files[1..], x, blogFileName);
    }
  }

  lemma {:induction false} PathsSnoc(blogFiles: seq<BlogFile>, b: BlogFile)
    ensures Paths(blogFiles + [b]) == Paths(blogFiles) + [b.pathFromRoot]
  {
    if blogFiles != [] {
      assert (blogFiles + [b])[1..] == blogFiles[1..] + [b];
      PathsSnoc(blogFiles[1..], b);
    }
  }

  /** The filter distributes over concatenation: the order of the input is kept. */
  lemma {:induction false} BlogPathsAppend(a: seq<string>, b: seq<string>, blogFileName: string)
    ensures BlogPaths(a + b, blogFileName) == BlogPaths(a, blogFileName) + BlogPaths(b, blogFileName)
  {
    if a == [] {
      assert a + b == b;
    } else {
      assert (a + b)[0] == a[0] && (a + b)[1..] == a[1..] + b;
      BlogPathsAppend(a[1..], b, blogFileName);
    }
  }

  /** A path is kept exactly when it is one of the files and ends with the blog file name. */
  lemma {:induction false} BlogPathsMembers(files: seq<string>, blogFileName: string, x: string)
    ensures x in BlogPaths(files, blogFileName) <==> x in files && EndsWith(x, blogFileName)
  {
    if files != [] {
      BlogPathsMembers(files[1..], blogFileName, x);
      assert files == [files[0]] + files[1..];
    }
  }

  /** On success the posts are exactly the kept paths, in order. */
  lemma {:induction false} CollectedPaths(git: Git, files: seq<string>, mainRef: string, blogFileName: string)
    requires CollectBlogFiles(git, files, mainRef, blogFileName).Ok?
    ensures Paths(CollectBlogFiles(git, files, mainRef, blogFileName).value) == BlogPaths(files, blogFileName)
    decreases |files|
  {
    if files != [] {
      var init, last := files[..|files| - 1], files[|files| - 1];
      assert files == init + [last];
      CollectedPaths(git, init, mainRef, blogFileName);
      BlogPathsSnoc(init, last, blogFileName);
      var acc := CollectBlogFiles(git, init, mainRef, blogFileName).value;
      if EndsWith(last, blogFileName) {
        PathsSnoc(acc, BlogFile(last, Timestamps(git, last, mainRef).value));
      } else {
        assert BlogPaths(init, blogFileName) + [] == BlogPaths(init, blogFileName);
      }
    }
  }

  /** On success each post carries the commit dates git reports for its own path. */
  lemma {:induction false} CollectedTimestamps(git: Git, files: seq<string>, mainRef: string, blogFileName: string)
    requires CollectBlogFiles(git, files, mainRef, blogFileName).Ok?
    ensures var bs := CollectBlogFiles(git, files, mainRef, blogFileName).value;
            forall k :: 0 <= k < |bs| ==>
              EndsWith(bs[k].pathFromRoot, blogFileName) &&
              Timestamps(git, bs[k].pathFromRoot, mainRef) == Ok(bs[k].updateTimestamps)
    decreases |files|
  {
    if files != [] {
      CollectedTimestamps(git, files[..|files| - 1], mainRef, blogFileName);
    }
  }

  /** The operation succeeds exactly when git reports dates for every kept path. */
  lemma {:induction false} CollectSucceeds(git: Git, files: seq<string>, mainRef: string, blogFileName: string)
    ensures CollectBlogFiles(git, files, mainRef, blogFileName).Ok? <==>
            forall k :: 0 <= k < |files| && EndsWith(files[k], blogFileName) ==> Timestamps(git, files[k], mainRef).Ok?
    decreases |files|
  {
    if files != [] {
      var init := files[..|files| - 1];
      CollectSucceeds(git, init, mainRef, blogFileName);
      assert forall k :: 0 <= k < |init| ==> init[k] == files[k];
    }
  }

  /** A failure is the error of the first kept path whose dates cannot be read. */
  lemma {:induction false} CollectFailsAtFirst(git: Git, files: seq<string>, mainRef: string, blogFileName: string)
    requires CollectBlogFiles(git, files, mainRef, blogFileName).Err?
    ensures exists k :: 0 <= k < |files| && EndsWith(files[k], blogFileName) &&
              Timestamps(git, files[k], mainRef) == Err(CollectBlogFiles(git, files, mainRef, blogFileName).error) &&
              forall j :: 0 <= j < k && EndsWith(files[j], blogFileName) ==> Timestamps(git, files[j], mainRef).Ok?
    decreases |files|
  {
    var init, last := files[..|files| - 1], files[|files| - 1];
    assert forall k :: 0 <= k < |init| ==> init[k] == files[k];
    if CollectBlogFiles(git, init, mainRef, blogFileName).Err? {
      CollectFailsAtFirst(git, init, mainRef, blogFileName);
      var k :| 0 <= k < |init| && EndsWith(init[k], blogFileName) &&
               Timestamps(git, init[k], mainRef) == Err(CollectBlogFiles(git, init, mainRef, blogFileName).error) &&
               forall j :: 0 <= j < k && EndsWith(init[j], blogFileName) ==> Timestamps(git, init[j], mainRef).Ok?;
      assert files[k] == init[k];
    } else {
      CollectSucceeds(git, init, mainRef, blogFileName);
      assert files[|files| - 1] == last;
    }
  }
}
