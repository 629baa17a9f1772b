/** Concrete documents and what the model returns for them: each lemma pins down what
    `feed2json` returns for one small feed. */
module Scenarios {
  import opened Wrappers
  import opened Xml
  import opened PyText
  import opened FeedJson

  function Leaf(tag: string, text: string): Element {
    Element(tag, Some(text), map[], [])
  }

  function RssItem(): Element {
    Element("item", None, map[], [
      Leaf("guid", "1"), Leaf("link", "http://x/1"), Leaf("title", "I"),
      Leaf("description", " C\n"), Leaf("pubDate", "Mon, 01 Jan 2024 00:00:00 GMT")])
  }

  /** Strip cuts the surrounding whitespace of a description. */
  lemma StripExample()
    ensures Strip(" C\n") == "C"
  {
    var s := " C\n";
    assert s[1..2] == "C";
    assert AllSpace(s[..1]);
    assert AllSpace(s[2..]);
    TrimIsStrip(s, "C", 1, 2);
  }

  lemma RssItemId()
    ensures ItemId(RssItem()) == Ok(Some("1"))
  {
  }

  lemma RssItemLink()
    ensures FindBoth(RssItem(), "link") == Ok(Some("http://x/1"))
  {
  }

  lemma RssItemTitle()
    ensures FindBoth(RssItem(), "title") == Ok(Some("I"))
  {
  }

  lemma RssItemContent()
    ensures ContentHtml(RssItem()) == Ok("C")
  {
    assert Find(RssItem(), "description") == Some(Leaf("description", " C\n"));
    StripExample();
  }

  lemma RssItemDate()
    ensures PublishedDate(RssItem()) == Some("Mon, 01 Jan 2024 00:00:00 GMT")
  {
    assert !HasChild(RssItem(), "updated");
    assert !HasChild(RssItem(), Atom("published"));
  }

  lemma RssItemParses()
    ensures ParseItem(RssItem()) == Ok(Item(Some("1"), Some("http://x/1"), Some("I"), "C",
                                            Some("Mon, 01 Jan 2024 00:00:00 GMT"), None))
  {
    RssItemId();
    RssItemLink();
    RssItemTitle();
    RssItemContent();
    RssItemDate();
    RssItemNoEnclosure();
  }

  lemma RssItemNoEnclosure()
    ensures !HasChild(RssItem(), "enclosure")
  {
  }

  function RssChannel(): Element {
    Element("channel", None, map[], [
      Leaf("title", "T"), Leaf("link", "http://x/"), Leaf("description", "D"), RssItem()])
  }

  function RssRoot(): Element {
    Element("rss", None, map["version" := "2.0"], [RssChannel()])
  }

  lemma RssChannelTitle()
    ensures TextOf(RssChannel(), "title") == Ok(Some("T"))
  {
  }

  lemma RssChannelLink()
    ensures TextOf(RssChannel(), "link") == Ok(Some("http://x/"))
  {
  }

  lemma RssChannelDescription()
    ensures TextOf(RssChannel(), "description") == Ok(Some("D"))
  {
  }

  lemma RssChannelItems()
    ensures FindAll(RssChannel(), "item") == [RssItem()]
  {
  }

  /** An RSS channel with one fully populated item. */
  lemma RssFeedExample()
    ensures Feed2Json(Some(RssRoot()))
            == Ok(Some(JsonFeed(JsonFeedVersion,
                                RssMetadata(Some("T"), Some("http://x/"), Some("D"), None),
                                [Item(Some("1"), Some("http://x/1"), Some("I"), "C",
                                      Some("Mon, 01 Jan 2024 00:00:00 GMT"), None)])))
  {
    RssParserExample();
  }

  lemma RssParserExample()
    ensures RssParser(RssRoot())
            == Ok(JsonFeed(JsonFeedVersion,
                           RssMetadata(Some("T"), Some("http://x/"), Some("D"), None),
                           [Item(Some("1"), Some("http://x/1"), Some("I"), "C",
                                 Some("Mon, 01 Jan 2024 00:00:00 GMT"), None)]))
  {
    RssRootChannel();
    RssChannelTitle();
    RssChannelLink();
    RssChannelDescription();
    RssChannelNoAuthor();
    RssChannelItems();
    RssItemsParse();
  }

  lemma RssItemsParse()
    ensures ParseItems([RssItem()]) == Ok([Item(Some("1"), Some("http://x/1"), Some("I"), "C",
                                                Some("Mon, 01 Jan 2024 00:00:00 GMT"), None)])
  {
    RssItemParses();
    SingleItem(RssItem());
  }

  /** A one-element list parses to the one parsed item. */
  lemma SingleItem(e: Element)
    requires ParseItem(e).Ok?
    ensures ParseItems([e]) == Ok([ParseItem(e).value])
  {
    MapAllSingle(ParseItem, e);
  }

  lemma MapAllSingle<A, B, E>(f: A -> Result<B, E>, x: A)
    requires f(x).Ok?
    ensures MapAll(f, [x]) == Ok([f(x).value])
  {
    var xs := [x];
    assert xs[0] == x && xs[1..] == [];
    assert MapAll(f, xs[1..]) == Ok([]);
    assert [f(x).value] + [] == [f(x).value];
  }

  lemma RssRootChannel()
    ensures Find(RssRoot(), "channel") == Some(RssChannel())
  {
  }

  lemma RssChannelNoAuthor()
    ensures !HasChild(RssChannel(), Itunes("author"))
  {
  }

  function AtomEntry(): Element {
    Element(Atom("entry"), None, map[], [
      Leaf(Atom("id"), "urn:1"), Element(Atom("link"), None, map["href" := "https://example.org/e"], []), Leaf(Atom("title"), "E"),
      Leaf(Atom("content"), "<p>x</p>"), Leaf(Atom("updated"), "2024-01-01T00:00:00Z")])
  }

  function AtomRoot(): Element {
    Element(Atom("feed"), None, map[], [Leaf(Atom("title"), "A"), AtomEntry()])
  }

  lemma AtomEntryId()
    ensures ItemId(AtomEntry()) == Ok(Some("urn:1"))
  {
    assert !HasChild(AtomEntry(), "guid");
  }

  /** An Atom link carries its target in `href` and has no text, so its url is null. */
  lemma AtomEntryLink()
    ensures FindBoth(AtomEntry(), "link") == Ok(None)
  {
    assert !HasChild(AtomEntry(), "link");
  }

  lemma AtomEntryTitle()
    ensures FindBoth(AtomEntry(), "title") == Ok(Some("E"))
  {
    assert !HasChild(AtomEntry(), "title");
  }

  lemma AtomEntryContent()
    ensures ContentHtml(AtomEntry()) == Ok("<p>x</p>")
  {
    AtomEntryNoDescription();
    AtomEntryContentChild();
    ContentWithoutSpace(AtomEntry(), "<p>x</p>");
  }

  /** Content without surrounding whitespace is taken over unchanged. */
  lemma ContentWithoutSpace(e: Element, html: string)
    requires !HasDescriptionText(e) && HasChild(e, Atom("content"))
    requires Find(e, Atom("content")).value.text == Some(html) && NoEdgeSpace(html)
    ensures ContentHtml(e) == Ok(html)
  {
    TrimmedIsFixed(html);
    TrimIsUnique(html, ContentHtml(e).value, html);
  }

  lemma AtomEntryNoDescription()
    ensures !HasDescriptionText(AtomEntry())
  {
    assert !HasChild(AtomEntry(), "description");
    assert !HasChild(AtomEntry(), Atom("description")) by {
      QualifyInjective("feed", "description", "id");
      QualifyInjective("feed", "description", "link");
      QualifyInjective("feed", "description", "title");
      QualifyInjective("feed", "description", "content");
      QualifyInjective("feed", "description", "updated");
    }
  }

  lemma AtomEntryContentChild()
    ensures HasChild(AtomEntry(), Atom("content"))
    ensures Find(AtomEntry(), Atom("content")) == Some(Leaf(Atom("content"), "<p>x</p>"))
  {
    assert AtomEntry().children[3].tag == Atom("content");
  }

  /** The entry's `updated` child is namespaced, so it is not the
      unnamespaced `updated` candidate: the entry gets no published date. */
  lemma AtomEntryDate()
    ensures PublishedDate(AtomEntry()) == None
  {
    assert !HasChild(AtomEntry(), "updated");
    assert !HasChild(AtomEntry(), Atom("published"));
    assert !HasChild(AtomEntry(), "pubDate");
  }

  lemma AtomEntryParses()
    ensures ParseItem(AtomEntry()) == Ok(Item(Some("urn:1"), None, Some("E"), "<p>x</p>", None, None))
  {
    AtomEntryId();
    AtomEntryLink();
    AtomEntryTitle();
    AtomEntryContent();
    AtomEntryDate();
    AtomEntryNoEnclosure();
  }

  lemma AtomEntryNoEnclosure()
    ensures !HasChild(AtomEntry(), "enclosure")
  {
  }

  /** An Atom feed: only `title` is set at feed level. */
  lemma AtomFeedExample()
    ensures Feed2Json(Some(AtomRoot()))
            == Ok(Some(JsonFeed(JsonFeedVersion, AtomMetadata(Some("A")),
                                [Item(Some("urn:1"), None, Some("E"), "<p>x</p>", None, None)])))
  {
    AtomParserExample();
    AtomRootTag();
  }

  lemma AtomParserExample()
    ensures AtomParser(AtomRoot())
            == Ok(JsonFeed(JsonFeedVersion, AtomMetadata(Some("A")),
                           [Item(Some("urn:1"), None, Some("E"), "<p>x</p>", None, None)]))
  {
    AtomRootEntries();
    AtomRootTitle();
    AtomEntriesParse();
  }

  lemma AtomEntriesParse()
    ensures ParseItems([AtomEntry()]) == Ok([Item(Some("urn:1"), None, Some("E"), "<p>x</p>", None, None)])
  {
    AtomEntryParses();
    SingleItem(AtomEntry());
  }

  lemma AtomRootEntries()
    ensures FindAll(AtomRoot(), Atom("entry")) == [AtomEntry()]
  {
  }

  lemma AtomRootTitle()
    ensures TextOf(AtomRoot(), Atom("title")) == Ok(Some("A"))
  {
  }

  lemma AtomRootTag()
    ensures AtomRoot().tag != "rss" && Contains(AtomRoot().tag, "feed")
  {
    assert OccursAt(AtomRoot().tag, "feed", |AtomNs| + 2);
  }

  /** The date loop has no early exit: with `pubDate` and an Atom
      `published` both present, the later candidate wins. */
  lemma LastDateCandidateWins()
    ensures PublishedDate(Element("item", None, map[], [
              Leaf("pubDate", "first"), Leaf(Atom("published"), "second")])) == Some("second")
  {
  }

  /** A present candidate without text overwrites an earlier hit with None. */
  lemma EmptyLaterCandidateClearsDate()
    ensures PublishedDate(Element("item", None, map[], [
              Leaf("pubDate", "first"), Element("updated", None, map[], [])])) == None
  {
  }

  /** A `guid` without text still wins over an Atom `id`. */
  lemma EmptyGuidIsNotReplaced()
    ensures ItemId(Element("item", None, map[], [
              Element("guid", None, map[], []), Leaf(Atom("id"), "urn:1")])) == Ok(None)
  {
  }

  /** The enclosure attributes become one attachment, with the length read as an integer. */
  lemma EnclosureExamples()
    ensures EnclosureAttachment(Element("enclosure", None,
              map["url" := "http://x/a.mp3", "length" := "12345", "type" := "audio/mpeg"], []))
            == Ok(Attachment("http://x/a.mp3", "audio/mpeg", Some(12345)))
    ensures EnclosureAttachment(Element("enclosure", None,
              map["url" := "http://x/a.mp3", "type" := "audio/mpeg"], []))
            == Ok(Attachment("http://x/a.mp3", "audio/mpeg", None))
    ensures EnclosureAttachment(Element("enclosure", None,
              map["url" := "http://x/a.mp3", "length" := "12 kB", "type" := "audio/mpeg"], []))
            == Err(InvalidInteger("12 kB"))
  {
    LengthExample();
  }

  lemma LengthExample()
    ensures ParseInt("12345") == Some(12345)
  {
    assert "12"[..1] == "1";
    assert DigitsValue("12") == 12;
    assert "123"[..2] == "12";
    assert DigitsValue("123") == 123;
    assert "1234"[..3] == "123";
    assert DigitsValue("1234") == 1234;
    assert "12345"[..4] == "1234";
    assert DigitsValue("12345") == 12345;
  }

  /** Dispatch is a string test on the root tag: any tag containing `feed`
      goes to the Atom parser, and other tags raise. */
  lemma DispatchExamples()
    ensures Feed2Json(Some(Element("feedback", None, map[], []))) == Err(MissingElement(Atom("title")))
    ensures Feed2Json(Some(Element("html", None, map[], []))) == Err(UnknownFormat("html"))
    ensures Feed2Json(Some(Element("rss", None, map[], []))) == Err(MissingElement("channel"))
  {
    assert OccursAt("feedback", "feed", 0);
    assert "html"[0..4] == "html";
  }
}
