/**
 * RSS generation (blog-updater/src/rss.rs): one `<item>` per post and the
 * RSS 2.0 `<channel>` document around the items.  Both operations check the
 * metadata they need in a fixed order and report the first missing field;
 * only then do they format.  The chrono date formatting and the system clock
 * are inputs: `formatDate` turns a Unix timestamp into the
 * `%a, %d %B %Y %H:%M:%S %z` text, `clockSeconds` is the clock reading.
 */
module Rss {
  import opened Wrappers

  /** `RSS_ENDING`: the feed's file name under the blog's home URL. */
  const RssEnding: string := "rss.xml"

  /**
   * The metadata record the RSS code reads: the six optional fields rss.rs
   * looks at.  The record itself is defined outside rss.rs.
   */
  datatype BlogConfig = BlogConfig(
    title: Option<string>,
    description: Option<string>,
    blogHomeUrl: Option<string>,
    blogFileName: Option<string>,
    blogName: Option<string>,
    blogDescription: Option<string>)

  /** The post the RSS code reports about: its path and its first-commit time (0 = unknown). */
  datatype BlogFile = BlogFile(pathFromRoot: string, written: int)

  const ErrPrefix: string := "Blog post "
  const ErrMiddle: string := " is missing "

  const MissingTitle: string := "title"
  const MissingBlogHomeUrl: string := "blog_home_url"
  const MissingBlogFileName: string :=
    "blog_file_name (this is supposed to be generated for you, but somehow we failed to parse the blog file name?)"
  const MissingDescription: string := "description"
  const MissingTimestamp: string :=
    "a timestamp of when it was written. Are you sure this file was committed into git?"
  const MissingBlogName: string := "blog_name"

  /** What `SystemTime::now().duration_since(UNIX_EPOCH)` reports for a clock before 1970. */
  const ClockErr: string := "Failed to get system time: second time provided was later than self"

  /** `rss_err`: the message naming the post and the missing piece. */
  function RssErr(blogFile: BlogFile, missing: string): (r: string)
    ensures |r| == |ErrPrefix| + |blogFile.pathFromRoot| + |ErrMiddle| + |missing|
    ensures r[..|ErrPrefix|] == ErrPrefix
    ensures r[|ErrPrefix|..|ErrPrefix| + |blogFile.pathFromRoot|] == blogFile.pathFromRoot
    ensures r[|ErrPrefix| + |blogFile.pathFromRoot|..|r| - |missing|] == ErrMiddle
    ensures r[|r| - |missing|..] == missing
  {
    ErrPrefix + blogFile.pathFromRoot + ErrMiddle + missing
  }

  /** For one post, the message determines which piece was missing. */
  lemma RssErrNamesTheMissingPiece(blogFile: BlogFile, m1: string, m2: string)
    requires RssErr(blogFile, m1) == RssErr(blogFile, m2)
    ensures m1 == m2
  {
    var r := RssErr(blogFile, m1);
    assert |m1| == |m2|;
    assert m1 == r[|r| - |m1|..] == m2;
  }

  // ---------------------------------------------------------------------------
  // Validation, stated as a table of checks run in order

  /** One validation step: whether it passed, and the name reported if it did not. */
  datatype Check = Check(passed: bool, missing: string)

  /** The label of the first failed check, if any. */
  function FirstFailed(checks: seq<Check>): (r: Option<string>)
    ensures r.None? <==> forall i :: 0 <= i < |checks| ==> checks[i].passed
    ensures r.Some? ==> exists i :: 0 <= i < |checks| && !checks[i].passed && checks[i].missing == r.value &&
                                    forall j :: 0 <= j < i ==> checks[j].passed
  {
    if checks == [] then None
    else if !checks[0].passed then Some(checks[0].missing)
    else
      var r := FirstFailed(checks[1..]);
      assert forall i :: 1 <= i < |checks| ==> checks[i] == checks[1..][i - 1];
      r
  }

  /** The first failed check is the one reported. */
  lemma {:induction false} FirstFailedAt(checks: seq<Check>, i: nat)
    requires i < |checks| && !checks[i].passed
    requires forall j :: 0 <= j < i ==> checks[j].passed
    ensures FirstFailed(checks) == Some(checks[i].missing)
  {
    if i > 0 {
      assert checks[0].passed;
      FirstFailedAt(checks[1..], i - 1);
    }
  }

  /** What an item needs, in the order rss.rs checks it. */
  function ItemChecks(config: BlogConfig, blogFile: BlogFile): seq<Check> {
    [ Check(config.title.Some?, MissingTitle),
      Check(config.blogHomeUrl.Some?, MissingBlogHomeUrl),
      Check(config.blogFileName.Some?, MissingBlogFileName),
      Check(config.description.Some?, MissingDescription),
      Check(blogFile.written != 0, MissingTimestamp) ]
  }

  /** What the channel needs, in the order rss.rs checks it. */
  function ChannelChecks(config: BlogConfig): seq<Check> {
    [ Check(config.blogName.Some?, MissingBlogName),
      Check(config.blogHomeUrl.Some?, MissingBlogHomeUrl),
      Check(config.blogDescription.Some?, MissingDescription) ]
  }

  // ---------------------------------------------------------------------------
  // The two `format!` templates

  /** The five elements of an `<item>`, in document order. */
  datatype ItemFields = ItemFields(title: string, link: string, pubDate: string, guid: string, description: string)

  const ItemOpen: string := "\n    <item>\n    <title>"
  const ItemTitleToLink: string := "</title>\n    <link>"
  const ItemLinkToPubDate: string := "</link>\n    <pubDate>"
  const ItemPubDateToGuid: string := "</pubDate>\n    <guid>"
  const ItemGuidToDescription: string := "</guid>\n    <description>"
  const ItemClose: string := "</description>\n    </item>"

  /** The item template of rss.rs:44-57, fields inserted as they are. */
  function ItemXml(f: ItemFields): (r: string)
    ensures |r| == |ItemOpen| + |f.title| + |ItemTitleToLink| + |f.link| + |ItemLinkToPubDate| + |f.pubDate| +
                   |ItemPubDateToGuid| + |f.guid| + |ItemGuidToDescription| + |f.description| + |ItemClose|
    ensures r[..|ItemOpen|] == ItemOpen && r[|ItemOpen|..|ItemOpen| + |f.title|] == f.title
    ensures r[|r| - |ItemClose| - |f.description|..|r| - |ItemClose|] == f.description
    ensures r[|r| - |ItemClose|..] == ItemClose
  {
    ItemOpen + (f.title + (ItemTitleToLink + (f.link + (ItemLinkToPubDate + (f.pubDate +
      (ItemPubDateToGuid + (f.guid + (ItemGuidToDescription + (f.description + ItemClose)))))))))
  }

  /** The channel-level elements and the embedded items, in document order. */
  datatype ChannelFields = ChannelFields(
    title: string, link: string, description: string, lastBuildDate: string, selfLink: string, items: string)

  const ChannelOpen: string :=
    "\n    <rss xmlns:atom=\"http://www.w3.org/2005/Atom\" version=\"2.0\">\n    <channel>\n    <title>"
  const ChannelTitleToLink: string := "</title>\n    <link>"
  const ChannelLinkToDescription: string := "</link>\n    <description>"
  const ChannelDescriptionToBuildDate: string :=
    "</description>" + "\n    <generator>blog-updater github.com/nikita-skobov/blog-updater</generator>\n    <lastBuildDate>"
  const ChannelBuildDateToSelfLink: string := "</lastBuildDate>\n    <atom:link href=\""
  const ChannelSelfLinkToItems: string := "\"" + " rel=\"self\" type=\"application/rss+xml\"></atom:link>\n    "
  const ChannelClose: string := "\n    </channel>\n    </rss>"

  /** The document template of rss.rs:88-106. */
  function RssXml(f: ChannelFields): (r: string)
    ensures |r| >= |ChannelOpen| + |f.title| + |ChannelSelfLinkToItems| + |f.items| + |ChannelClose|
    ensures r[..|ChannelOpen|] == ChannelOpen && r[|ChannelOpen|..|ChannelOpen| + |f.title|] == f.title
    ensures r[|r| - |ChannelClose| - |f.items|..|r| - |ChannelClose|] == f.items
    ensures r[|r| - |ChannelClose|..] == ChannelClose
  {
    ThirteenParts(ChannelOpen, f.title, ChannelTitleToLink, f.link, ChannelLinkToDescription, f.description,
                  ChannelDescriptionToBuildDate, f.lastBuildDate, ChannelBuildDateToSelfLink, f.selfLink,
                  ChannelSelfLinkToItems, f.items, ChannelClose);
    ChannelOpen + (f.title + (ChannelTitleToLink + (f.link + (ChannelLinkToDescription + (f.description +
      (ChannelDescriptionToBuildDate + (f.lastBuildDate + (ChannelBuildDateToSelfLink + (f.selfLink +
      (ChannelSelfLinkToItems + (f.items + ChannelClose)))))))))))
  }

  /** Where the first two and the last two of thirteen concatenated parts lie. */
  lemma ThirteenParts(p0: string, p1: string, p2: string, p3: string, p4: string, p5: string, p6: string,
                      p7: string, p8: string, p9: string, p10: string, p11: string, p12: string)
    ensures var r := p0 + (p1 + (p2 + (p3 + (p4 + (p5 + (p6 + (p7 + (p8 + (p9 + (p10 + (p11 + p12)))))))))));
            |r| >= |p0| + |p1| + |p10| + |p11| + |p12| &&
            r[..|p0|] == p0 && r[|p0|..|p0| + |p1|] == p1 &&
            r[|r| - |p12| - |p11|..|r| - |p12|] == p11 && r[|r| - |p12|..] == p12
  {
    var tail := p11 + p12;
    var m := p2 + (p3 + (p4 + (p5 + (p6 + (p7 + (p8 + (p9 + (p10 + tail))))))));
    var r := p0 + (p1 + m);
    var front := p2 + p3 + p4 + p5 + p6 + p7 + p8 + p9 + p10;
    assert m == front + tail;
    assert r == p0 + p1 + front + tail;
  }

  // ---------------------------------------------------------------------------
  // The operations

  /** The item's link, `blog_home_url/blog_file_name`. */
  function ItemLink(blogHomeUrl: string, blogFileName: string): string {
    blogHomeUrl + "/" + blogFileName
  }

  /** The feed's own address, `blog_home_url/rss.xml`. */
  function SelfLink(blogHomeUrl: string): (r: string)
    ensures |r| == |blogHomeUrl| + 8
    ensures r[..|blogHomeUrl|] == blogHomeUrl && r[|blogHomeUrl|..] == "/rss.xml"
  {
    blogHomeUrl + "/" + RssEnding
  }

  /** `generate_rss_item`. */
  function GenerateRssItem(config: BlogConfig, blogFile: BlogFile, formatDate: int -> string): (r: Result<string>)
    ensures r.Ok? ==> config.title.Some? && config.blogHomeUrl.Some? && config.blogFileName.Some? &&
                      config.description.Some? && blogFile.written != 0
    // link and guid are the same address; the date is the formatted first-commit time
    ensures r.Ok? ==>
              var link := ItemLink(config.blogHomeUrl.value, config.blogFileName.value);
              r.value == ItemXml(ItemFields(config.title.value, link, formatDate(blogFile.written), link,
                                            config.description.value))
    ensures r.Err? ==> exists missing :: r.error == RssErr(blogFile, missing)
  {
    match config.title
    case None => Err(RssErr(blogFile, MissingTitle))
    case Some(title) =>
    match config.blogHomeUrl
    case None => Err(RssErr(blogFile, MissingBlogHomeUrl))
    case Some(blogHomeUrl) =>
    match config.blogFileName
    case None => Err(RssErr(blogFile, MissingBlogFileName))
    case Some(blogFileName) =>
    match config.description
    case None => Err(RssErr(blogFile, MissingDescription))
    case Some(description) =>
    if blogFile.written == 0 then Err(RssErr(blogFile, MissingTimestamp))
    else
      var humanDate := formatDate(blogFile.written);
      var link := ItemLink(blogHomeUrl, blogFileName);
      Ok(ItemXml(ItemFields(title, link, humanDate, link, description)))
  }

  /** `generate_rss`; `blogFile` is only used to name the post in the error. */
  function GenerateRss(config: BlogConfig, blogFile: BlogFile, rssItemsXml: string,
                       clockSeconds: int, formatDate: int -> string): (r: Result<string>)
    ensures r.Ok? ==> config.blogName.Some? && config.blogHomeUrl.Some? && config.blogDescription.Some? &&
                      clockSeconds >= 0
    // the items go in unchanged after the self link home + "/rss.xml"
    ensures r.Ok? ==>
              r.value == RssXml(ChannelFields(config.blogName.value, config.blogHomeUrl.value,
                                              config.blogDescription.value, formatDate(clockSeconds),
                                              SelfLink(config.blogHomeUrl.value), rssItemsXml))
    ensures r.Err? ==> r.error == ClockErr || exists missing :: r.error == RssErr(blogFile, missing)
  {
    match config.blogName
    case None => Err(RssErr(blogFile, MissingBlogName))
    case Some(title) =>
    match config.blogHomeUrl
    case None => Err(RssErr(blogFile, MissingBlogHomeUrl))
    case Some(blogHomeUrl) =>
    match config.blogDescription
    case None => Err(RssErr(blogFile, MissingDescription))
    case Some(description) =>
    if clockSeconds < 0 then Err(ClockErr)
    else
      var humanDate := formatDate(clockSeconds);
      var rssLocation := SelfLink(blogHomeUrl);
      Ok(RssXml(ChannelFields(title, blogHomeUrl, description, humanDate, rssLocation, rssItemsXml)))
  }

  // ---------------------------------------------------------------------------
  // Properties

  /**
   * `generate_rss_item` fails exactly when a check of `ItemChecks` fails, and
   * then reports the first one.
   */
  lemma GenerateRssItemChecksInOrder(config: BlogConfig, blogFile: BlogFile, formatDate: int -> string)
    ensures GenerateRssItem(config, blogFile, formatDate).Ok? <==> FirstFailed(ItemChecks(config, blogFile)).None?
    ensures GenerateRssItem(config, blogFile, formatDate).Err? ==>
              GenerateRssItem(config, blogFile, formatDate).error ==
              RssErr(blogFile, FirstFailed(ItemChecks(config, blogFile)).value)
  {
    var checks := ItemChecks(config, blogFile);
    if config.title.None? {
      FirstFailedAt(checks, 0);
    } else if config.blogHomeUrl.None? {
      FirstFailedAt(checks, 1);
    } else if config.blogFileName.None? {
      FirstFailedAt(checks, 2);
    } else if config.description.None? {
      FirstFailedAt(checks, 3);
    } else if blogFile.written == 0 {
      FirstFailedAt(checks, 4);
    }
  }

  /**
   * `generate_rss` fails when a check of `ChannelChecks` fails, reporting the
   * first one, or else when the clock reads before 1970; otherwise it succeeds.
   */
  lemma GenerateRssChecksInOrder(config: BlogConfig, blogFile: BlogFile, items: string,
                                 clockSeconds: int, formatDate: int -> string)
    ensures GenerateRss(config, blogFile, items, clockSeconds, formatDate).Ok? <==>
              FirstFailed(ChannelChecks(config)).None? && clockSeconds >= 0
    ensures FirstFailed(ChannelChecks(config)).Some? ==>
              GenerateRss(config, blogFile, items, clockSeconds, formatDate) ==
              Err(RssErr(blogFile, FirstFailed(ChannelChecks(config)).value))
    ensures FirstFailed(ChannelChecks(config)).None? && clockSeconds < 0 ==>
              GenerateRss(config, blogFile, items, clockSeconds, formatDate) == Err(ClockErr)
  {
    var checks := ChannelChecks(config);
    if config.blogName.None? {
      FirstFailedAt(checks, 0);
    } else if config.blogHomeUrl.None? {
      FirstFailedAt(checks, 1);
    } else if config.blogDescription.None? {
      FirstFailedAt(checks, 2);
    }
  }

  /** When the title is missing, nothing else matters. */
  lemma MissingTitleFailsItem(config: BlogConfig, blogFile: BlogFile, formatDate: int -> string)
    requires config.title.None?
    ensures GenerateRssItem(config, blogFile, formatDate) == Err("Blog post " + blogFile.pathFromRoot + " is missing title")
  {
  }

  /** An uncommitted post (timestamp 0) never yields an item, however complete its metadata. */
  lemma UncommittedPostFailsItem(config: BlogConfig, blogFile: BlogFile, formatDate: int -> string)
    requires blogFile.written == 0
    ensures GenerateRssItem(config, blogFile, formatDate).Err?
  {
    assert !ItemChecks(config, blogFile)[4].passed;
  }

  /** A missing blog_description is reported under the name "description", for the passed post. */
  lemma MissingBlogDescriptionMessage(config: BlogConfig, blogFile: BlogFile, items: string,
                                      clockSeconds: int, formatDate: int -> string)
    requires config.blogName.Some? && config.blogHomeUrl.Some? && config.blogDescription.None?
    ensures GenerateRss(config, blogFile, items, clockSeconds, formatDate) ==
            Err("Blog post " + blogFile.pathFromRoot + " is missing description")
  {
  }

  /** An item depends on the title, home URL, file name, description and timestamp only. */
  lemma ItemDependsOnlyOnItsFields(c1: BlogConfig, c2: BlogConfig, blogFile: BlogFile, formatDate: int -> string)
    requires c1.title == c2.title && c1.blogHomeUrl == c2.blogHomeUrl
    requires c1.blogFileName == c2.blogFileName && c1.description == c2.description
    ensures GenerateRssItem(c1, blogFile, formatDate) == GenerateRssItem(c2, blogFile, formatDate)
  {
  }

  /** The channel depends on the blog name, home URL and blog description only. */
  lemma ChannelDependsOnlyOnItsFields(c1: BlogConfig, c2: BlogConfig, blogFile: BlogFile, items: string,
                                      clockSeconds: int, formatDate: int -> string)
    requires c1.blogName == c2.blogName && c1.blogHomeUrl == c2.blogHomeUrl
    requires c1.blogDescription == c2.blogDescription
    ensures GenerateRss(c1, blogFile, items, clockSeconds, formatDate) ==
            GenerateRss(c2, blogFile, items, clockSeconds, formatDate)
  {
  }
}
