/**
 * A reader for the two RSS templates, used as the independent statement of
 * what the generated XML contains: reading an item back yields the title,
 * link, date, guid and description that went in, and reading the document
 * back yields the channel fields and the embedded items unchanged.  Since
 * rss.rs inserts values without escaping, the read-back holds when the
 * element texts contain no `<` (and the self link no `"`).
 */
module RssReader {
  import opened Wrappers
  import opened Text
  import opened Rss

  /**
   * If `s` starts with `open`, the text after it up to the first `stop`, and
   * what follows from that `stop` on.
   */
  function Field(s: string, open: string, stop: char): Option<(string, string)> {
    if |open| <= |s| && s[..|open|] == open then
      var body := s[|open|..];
      var text := TakeUntil(body, stop);
      Some((text, body[|text|..]))
    else None
  }

  /** The fields of an item built by `ItemXml`, if `s` has its shape. */
  function ParseItem(s: string): Option<ItemFields> {
    var title :- Field(s, ItemOpen, '<');
    var link :- Field(title.1, ItemTitleToLink, '<');
    var pubDate :- Field(link.1, ItemLinkToPubDate, '<');
    var guid :- Field(pubDate.1, ItemPubDateToGuid, '<');
    var description :- Field(guid.1, ItemGuidToDescription, '<');
    if description.1 == ItemClose then
      Some(ItemFields(title.0, link.0, pubDate.0, guid.0, description.0))
    else None
  }

  /** The fields of a document built by `RssXml`, if `s` has its shape. */
  function ParseChannel(s: string): Option<ChannelFields> {
    var title :- Field(s, ChannelOpen, '<');
    var link :- Field(title.1, ChannelTitleToLink, '<');
    var description :- Field(link.1, ChannelLinkToDescription, '<');
    var lastBuildDate :- Field(description.1, ChannelDescriptionToBuildDate, '<');
    var selfLink :- Field(lastBuildDate.1, ChannelBuildDateToSelfLink, '"');
    var items :- ItemsOf(selfLink.1);
    Some(ChannelFields(title.0, link.0, description.0, lastBuildDate.0, selfLink.0, items))
  }

  /** The text between the self link's closing tag and the channel's closing tag. */
  function ItemsOf(rest: string): Option<string> {
    if |ChannelSelfLinkToItems| + |ChannelClose| <= |rest|
       && rest[..|ChannelSelfLinkToItems|] == ChannelSelfLinkToItems
       && rest[|rest| - |ChannelClose|..] == ChannelClose
    then Some(rest[|ChannelSelfLinkToItems|..|rest| - |ChannelClose|])
    else None
  }

  predicate ItemTextOnly(f: ItemFields) {
    '<' !in f.title && '<' !in f.link && '<' !in f.pubDate && '<' !in f.guid && '<' !in f.description
  }

  predicate ChannelTextOnly(f: ChannelFields) {
    '<' !in f.title && '<' !in f.link && '<' !in f.description && '<' !in f.lastBuildDate && '"' !in f.selfLink
  }

  /** Reading one field back: the text up to the delimiter that follows it. */
  lemma FieldOf(open: string, text: string, rest: string, stop: char)
    requires stop !in text
    requires rest != [] && rest[0] == stop
    ensures Field(open + (text + rest), open, stop) == Some((text, rest))
  {
    var s := open + (text + rest);
    assert s[..|open|] == open;
    assert s[|open|..] == text + rest;
    TakeUntilConcat(text, rest, stop);
    assert (text + rest)[|text|..] == rest;
  }

  /** `ParseItem` inverts `ItemXml` on plain text. */
  lemma ParseItemXml(f: ItemFields)
    requires ItemTextOnly(f)
    ensures ParseItem(ItemXml(f)) == Some(f)
  {
    var r5 := ItemClose;
    var r4 := ItemGuidToDescription + (f.description + r5);
    var r3 := ItemPubDateToGuid + (f.guid + r4);
    var r2 := ItemLinkToPubDate + (f.pubDate + r3);
    var r1 := ItemTitleToLink + (f.link + r2);
    FieldOf(ItemOpen, f.title, r1, '<');
    FieldOf(ItemTitleToLink, f.link, r2, '<');
    FieldOf(ItemLinkToPubDate, f.pubDate, r3, '<');
    FieldOf(ItemPubDateToGuid, f.guid, r4, '<');
    FieldOf(ItemGuidToDescription, f.description, r5, '<');
  }

  /** `ParseChannel` inverts `RssXml`: plain channel fields, any items text. */
  lemma ParseRssXml(f: ChannelFields)
    requires ChannelTextOnly(f)
    ensures ParseChannel(RssXml(f)) == Some(f)
  {
    var r5 := ChannelSelfLinkToItems + (f.items + ChannelClose);
    var r4 := ChannelBuildDateToSelfLink + (f.selfLink + r5);
    var r3 := ChannelDescriptionToBuildDate + (f.lastBuildDate + r4);
    var r2 := ChannelLinkToDescription + (f.description + r3);
    var r1 := ChannelTitleToLink + (f.link + r2);
    assert r3[0] == ChannelDescriptionToBuildDate[0] == '<';
    FieldOf(ChannelOpen, f.title, r1, '<');
    FieldOf(ChannelTitleToLink, f.link, r2, '<');
    FieldOf(ChannelLinkToDescription, f.description, r3, '<');
    FieldOf(ChannelDescriptionToBuildDate, f.lastBuildDate, r4, '<');
    FieldOf(ChannelBuildDateToSelfLink, f.selfLink, r5, '"');
    ItemsOfEmbedded(f.items);
  }

  lemma ItemsOfEmbedded(items: string)
    ensures ItemsOf(ChannelSelfLinkToItems + (items + ChannelClose)) == Some(items)
  {
    var rest := ChannelSelfLinkToItems + (items + ChannelClose);
    assert rest[..|ChannelSelfLinkToItems|] == ChannelSelfLinkToItems;
    assert rest[|rest| - |ChannelClose|..] == ChannelClose;
    assert rest[|ChannelSelfLinkToItems|..|rest| - |ChannelClose|] == items;
  }

  /**
   * A generated item carries the title and description as given, the date of
   * the post's timestamp, and `home/file` as both its link and its guid.
   */
  lemma GeneratedItemReadsBack(config: BlogConfig, blogFile: BlogFile, formatDate: int -> string)
    requires GenerateRssItem(config, blogFile, formatDate).Ok?
    requires '<' !in config.title.value && '<' !in config.description.value
    requires '<' !in config.blogHomeUrl.value + "/" + config.blogFileName.value
    requires '<' !in formatDate(blogFile.written)
    ensures var link := config.blogHomeUrl.value + "/" + config.blogFileName.value;
            ParseItem(GenerateRssItem(config, blogFile, formatDate).value) ==
            Some(ItemFields(config.title.value, link, formatDate(blogFile.written), link, config.description.value))
  {
    var link := ItemLink(config.blogHomeUrl.value, config.blogFileName.value);
    ParseItemXml(ItemFields(config.title.value, link, formatDate(blogFile.written), link, config.description.value));
  }

  /**
   * A generated document carries the blog name, home URL and description,
   * the date of the clock reading, `home/rss.xml` as its self link and the
   * given items text verbatim after the self link.
   */
  lemma GeneratedRssReadsBack(config: BlogConfig, blogFile: BlogFile, items: string,
                              clockSeconds: int, formatDate: int -> string)
    requires GenerateRss(config, blogFile, items, clockSeconds, formatDate).Ok?
    requires '<' !in config.blogName.value && '<' !in config.blogHomeUrl.value
    requires '<' !in config.blogDescription.value && '<' !in formatDate(clockSeconds)
    requires '"' !in config.blogHomeUrl.value
    ensures ParseChannel(GenerateRss(config, blogFile, items, clockSeconds, formatDate).value) ==
            Some(ChannelFields(config.blogName.value, config.blogHomeUrl.value, config.blogDescription.value,
                               formatDate(clockSeconds), config.blogHomeUrl.value + "/rss.xml", items))
  {
    var home := config.blogHomeUrl.value;
    assert SelfLink(home) == home + "/rss.xml";
    assert '"' !in SelfLink(home);
    var f := ChannelFields(config.blogName.value, home, config.blogDescription.value,
                           formatDate(clockSeconds), SelfLink(home), items);
    assert GenerateRss(config, blogFile, items, clockSeconds, formatDate) == Ok(RssXml(f));
    ParseRssXml(f);
  }

  /**
   * Values go into the template unescaped, so markup in them is not
   * contained: moving the title-to-link markup from the title into the link
   * gives a different item that prints identically.
   */
  lemma UnescapedItemsCollide(a: string, b: string, c: string, pubDate: string, guid: string, description: string)
    ensures ItemFields(a + ItemTitleToLink + b, c, pubDate, guid, description) !=
            ItemFields(a, b + ItemTitleToLink + c, pubDate, guid, description)
    ensures ItemXml(ItemFields(a + ItemTitleToLink + b, c, pubDate, guid, description)) ==
            ItemXml(ItemFields(a, b + ItemTitleToLink + c, pubDate, guid, description))
  {
    var tail := ItemLinkToPubDate + (pubDate + (ItemPubDateToGuid + (guid + (ItemGuidToDescription + (description + ItemClose)))));
    assert a + ItemTitleToLink + b + (ItemTitleToLink + (c + tail)) == a + (ItemTitleToLink + (b + ItemTitleToLink + c + tail));
  }
}
