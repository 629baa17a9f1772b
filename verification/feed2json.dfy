/** The feed normaliser of crawler/feed2json.py: an RSS 2.0 or Atom element
    tree becomes a JSON Feed version 1 style record. The Python exceptions
    the module raises are `Err`s (the digit-count limit of `int` aside); the
    `None` it returns for unparsable input is `Ok(None)`. */
module FeedJson {
  import opened Wrappers
  import opened Xml
  import opened PyText

  const JsonFeedVersion: string := "https://jsonfeed.org/version/1"

  /** An element's `.text`: `None` is Python's None (an element without text). */
  type Text = Option<string>

  /** Why a call raised. */
  datatype FeedError =
    | UnknownFormat(rootTag: string)   // the explicit `raise` for an unrecognised root
    | MissingElement(path: string)     // AttributeError: `find` returned None
    | MissingText(path: string)        // AttributeError: `.strip()` on a None text
    | MissingAttribute(name: string)   // KeyError on `attrib`
    | InvalidInteger(literal: string)  // ValueError from `int`

  /** One entry of an item's `attachments` list. */
  datatype Attachment = Attachment(url: string, mimeType: string, sizeInBytes: Option<int>)

  /** One item dictionary. `attachment` is None when the item has no
      `attachments` key and Some(a) when that key holds the list `[a]`. */
  datatype Item = Item(
    id: Text,
    url: Text,
    title: Text,
    contentHtml: string,
    publishedDate: Text,
    attachment: Option<Attachment>)

  /** The feed-level keys, which depend on the format. For RSS, `author`
      is None when the key is absent and Some(t) when it holds `t`. */
  datatype Metadata =
    | RssMetadata(title: Text, homePageUrl: Text, description: Text, author: Option<Text>)
    | AtomMetadata(title: Text)

  datatype JsonFeed = JsonFeed(version: string, metadata: Metadata, items: seq<Item>)

  /** `{http://www.w3.org/2005/Atom}local`, the expansion of `feed:local`. */
  function Atom(local: string): string {
    Qualify("feed", local)
  }

  /** `{http://www.itunes.com/dtds/podcast-1.0.dtd}local`, the expansion of `itunes:local`. */
  function Itunes(local: string): string {
    Qualify("itunes", local)
  }

  /** `element.find(tag).text`, raising when there is no such child. */
  function TextOf(e: Element, tag: string): (r: Result<Text, FeedError>)
    ensures r.Err? <==> !HasChild(e, tag)
    ensures r.Err? ==> r.error == MissingElement(tag)
    ensures r.Ok? ==> (exists i :: 0 <= i < |e.children| && e.children[i].tag == tag
                         && e.children[i].text == r.value
                         && forall j :: 0 <= j < i ==> e.children[j].tag != tag)
  {
    match Find(e, tag)
    case None => Err(MissingElement(tag))
    case Some(c) => Ok(c.text)
  }

  /** `_find_both`: the text of the first unnamespaced `name` child, else of
      the first Atom `name` child; raising when neither exists. */
  function FindBoth(e: Element, name: string): (r: Result<Text, FeedError>)
    ensures r.Err? <==> !HasChild(e, name) && !HasChild(e, Atom(name))
    ensures HasChild(e, name) ==> r == Ok(Find(e, name).value.text)
    ensures !HasChild(e, name) && HasChild(e, Atom(name)) ==> r == Ok(Find(e, Atom(name)).value.text)
  {
    match Find(e, name)
    case Some(c) => Ok(c.text)
    case None =>
      match Find(e, Atom(name))
      case None => Err(MissingElement(Atom(name)))
      case Some(c) => Ok(c.text)
  }

  /** The `id` rule: the `guid` text when a `guid` child exists (even when
      that text is None), otherwise the Atom `id` text. */
  function ItemId(e: Element): (r: Result<Text, FeedError>)
    ensures r.Err? <==> !HasChild(e, "guid") && !HasChild(e, Atom("id"))
    ensures HasChild(e, "guid") ==> r == Ok(Find(e, "guid").value.text)
    ensures !HasChild(e, "guid") && HasChild(e, Atom("id")) ==> r == Ok(Find(e, Atom("id")).value.text)
  {
    match Find(e, "guid")
    case Some(g) => Ok(g.text)
    case None => TextOf(e, Atom("id"))
  }

  /** A child with the tag exists and the first one has text. */
  predicate HasTextChild(e: Element, tag: string) {
    HasChild(e, tag) && Find(e, tag).value.text.Some?
  }

  /** FindBoth finds a `description` that has text: the first unnamespaced
      one, or, only when there is none, the first Atom one. */
  predicate HasDescriptionText(e: Element) {
    HasTextChild(e, "description") || (!HasChild(e, "description") && HasTextChild(e, Atom("description")))
  }

  /** The description text FindBoth returns. */
  function DescriptionText(e: Element): string
    requires HasDescriptionText(e)
  {
    if HasChild(e, "description") then Find(e, "description").value.text.value
    else Find(e, Atom("description")).value.text.value
  }

  /** The `content_html` rule: the stripped `description` text when
      FindBoth finds a description with text, else the stripped text of the
      Atom `content` child; raising when that is missing or has no text. */
  function ContentHtml(e: Element): (r: Result<string, FeedError>)
    ensures r.Ok? <==> HasDescriptionText(e) || HasTextChild(e, Atom("content"))
    ensures r.Ok? ==> NoEdgeSpace(r.value)
    ensures HasDescriptionText(e) ==> r.Ok? && IsTrimOf(DescriptionText(e), r.value)
    ensures !HasDescriptionText(e) && r.Ok? ==> IsTrimOf(Find(e, Atom("content")).value.text.value, r.value)
  {
    match FindBoth(e, "description")
    case Ok(Some(d)) => StripIsTrim(d); Ok(Strip(d))
    case _ =>
      match Find(e, Atom("content"))
      case None => Err(MissingElement(Atom("content")))
      case Some(c) =>
        match c.text
        case None => Err(MissingText(Atom("content")))
        case Some(t) => StripIsTrim(t); Ok(Strip(t))
  }

  /** The candidate tags of `_get_published_date`, in the order they are tried. */
  const DateTags: seq<string> := ["pubDate", Atom("published"), "updated"]

  /** The loop of `_get_published_date`: each candidate that is present
      overwrites `acc` with its text; absent candidates leave it alone.
      There is no early exit. */
  function ScanDates(e: Element, tags: seq<string>, acc: Text): Text
    decreases |tags|
  {
    if |tags| == 0 then acc
    else
      var next := match Find(e, tags[0]) case None => acc case Some(c) => c.text;
      ScanDates(e, tags[1..], next)
  }

  /** Position `i` holds the last candidate that is present. */
  ghost predicate IsLastPresent(e: Element, tags: seq<string>, i: int) {
    0 <= i < |tags| && HasChild(e, tags[i]) &&
    forall j :: i < j < |tags| ==> !HasChild(e, tags[j])
  }

  /** The loop yields the text of the last present candidate, or the start
      value when no candidate is present. */
  lemma {:induction false} ScanDatesIsLastPresent(e: Element, tags: seq<string>, acc: Text)
    ensures (forall j :: 0 <= j < |tags| ==> !HasChild(e, tags[j])) ==> ScanDates(e, tags, acc) == acc
    ensures forall i :: IsLastPresent(e, tags, i) ==> ScanDates(e, tags, acc) == Find(e, tags[i]).value.text
  {
    if |tags| > 0 {
      var next := match Find(e, tags[0]) case None => acc case Some(c) => c.text;
      ScanDatesIsLastPresent(e, tags[1..], next);
      forall i | IsLastPresent(e, tags, i)
        ensures ScanDates(e, tags, acc) == Find(e, tags[i]).value.text
      {
        if i > 0 {
          assert IsLastPresent(e, tags[1..], i - 1);
        } else {
          assert forall j :: 0 <= j < |tags[1..]| ==> !HasChild(e, tags[1..][j]) by {
            forall j | 0 <= j < |tags[1..]| ensures !HasChild(e, tags[1..][j]) {
              assert tags[1..][j] == tags[j + 1];
            }
          }
        }
      }
    }
  }

  /** `_get_published_date`: the text of the last of `pubDate`, Atom
      `published`, unnamespaced `updated` that is present; None when none is. */
  function PublishedDate(e: Element): (r: Text)
    ensures HasChild(e, "updated") ==> r == Find(e, "updated").value.text
    ensures !HasChild(e, "updated") && HasChild(e, Atom("published")) ==> r == Find(e, Atom("published")).value.text
    ensures !HasChild(e, "updated") && !HasChild(e, Atom("published")) && HasChild(e, "pubDate")
            ==> r == Find(e, "pubDate").value.text
    ensures !HasChild(e, "updated") && !HasChild(e, Atom("published")) && !HasChild(e, "pubDate") ==> r == None
  {
    ScanDatesIsLastPresent(e, DateTags, None);
    assert HasChild(e, "updated") ==> IsLastPresent(e, DateTags, 2);
    assert !HasChild(e, "updated") && HasChild(e, Atom("published")) ==> IsLastPresent(e, DateTags, 1);
    assert !HasChild(e, "updated") && !HasChild(e, Atom("published")) && HasChild(e, "pubDate")
           ==> IsLastPresent(e, DateTags, 0);
    ScanDates(e, DateTags, None)
  }

  /** The enclosure has `url` and `type`, and its `length`, if any, is an integer. */
  predicate EnclosureIsValid(enc: Element) {
    && "url" in enc.attrib && "type" in enc.attrib
    && ("length" in enc.attrib ==> IsIntLiteral(enc.attrib["length"]))
  }

  /** The `attachments` rule: one attachment built from an `enclosure`
      element's `length`, `url` and `type` attributes, in that order. */
  function EnclosureAttachment(enc: Element): (r: Result<Attachment, FeedError>)
    ensures r.Ok? <==> EnclosureIsValid(enc)
    ensures r.Ok? ==> r.value.url == enc.attrib["url"] && r.value.mimeType == enc.attrib["type"]
    ensures r.Ok? ==> (r.value.sizeInBytes.None? <==> "length" !in enc.attrib)
    ensures r.Ok? && "length" in enc.attrib ==> r.value.sizeInBytes == ParseInt(enc.attrib["length"])
    ensures "length" in enc.attrib && !IsIntLiteral(enc.attrib["length"]) ==> r == Err(InvalidInteger(enc.attrib["length"]))
  {
    var size :- if "length" in enc.attrib then
                  match ParseInt(enc.attrib["length"])
                  case None => Err(InvalidInteger(enc.attrib["length"]))
                  case Some(n) => Ok(Some(n))
                else Ok(None);
    var url :- if "url" in enc.attrib then Ok(enc.attrib["url"]) else Err(MissingAttribute("url"));
    var mime :- if "type" in enc.attrib then Ok(enc.attrib["type"]) else Err(MissingAttribute("type"));
    Ok(Attachment(url, mime, size))
  }

  /** `_item_parser`, shared by RSS `item` and Atom `entry` elements. */
  function ParseItem(e: Element): (r: Result<Item, FeedError>)
    ensures r.Ok? <==> ItemParses(e)
    ensures r.Ok? ==> ItemId(e) == Ok(r.value.id)
    ensures r.Ok? ==> FindBoth(e, "link") == Ok(r.value.url) && FindBoth(e, "title") == Ok(r.value.title)
    ensures r.Ok? ==> ContentHtml(e) == Ok(r.value.contentHtml) && NoEdgeSpace(r.value.contentHtml)
    ensures r.Ok? ==> r.value.publishedDate == PublishedDate(e)
    ensures r.Ok? ==> (r.value.attachment.Some? <==> HasChild(e, "enclosure"))
    ensures r.Ok? && r.value.attachment.Some? ==> EnclosureAttachment(Find(e, "enclosure").value) == Ok(r.value.attachment.value)
  {
    var id :- ItemId(e);
    var url :- FindBoth(e, "link");
    var title :- FindBoth(e, "title");
    var content :- ContentHtml(e);
    var date := PublishedDate(e);
    var attachment :- match Find(e, "enclosure")
                      case None => Ok(None)
                      case Some(enc) =>
                        var a :- EnclosureAttachment(enc);
                        Ok(Some(a));
    Ok(Item(id, url, title, content, date, attachment))
  }

  /** Every step of `_item_parser` that can raise succeeds. */
  predicate ItemParses(e: Element) {
    && (HasChild(e, "guid") || HasChild(e, Atom("id")))
    && (HasChild(e, "link") || HasChild(e, Atom("link")))
    && (HasChild(e, "title") || HasChild(e, Atom("title")))
    && (HasDescriptionText(e) || HasTextChild(e, Atom("content")))
    && (HasChild(e, "enclosure") ==> EnclosureIsValid(Find(e, "enclosure").value))
  }

  /** Applies `f` to each element in order, stopping at the first failure:
      the shape of the item loops, which append to `feed['items']` and let
      any exception escape. */
  function MapAll<A, B, E>(f: A -> Result<B, E>, xs: seq<A>): (r: Result<seq<B>, E>)
    ensures r.Ok? <==> forall k :: 0 <= k < |xs| ==> f(xs[k]).Ok?
    ensures r.Ok? ==> |r.value| == |xs| && forall k :: 0 <= k < |xs| ==> f(xs[k]) == Ok(r.value[k])
  {
    if |xs| == 0 then Ok([])
    else
      var first :- f(xs[0]);
      var rest :- MapAll(f, xs[1..]);
      Ok([first] + rest)
  }

  /** A failing MapAll reports the error of its first failing element. */
  lemma {:induction false} MapAllFirstError<A, B, E>(f: A -> Result<B, E>, xs: seq<A>)
    requires MapAll(f, xs).Err?
    ensures exists k :: 0 <= k < |xs| && f(xs[k]) == Err(MapAll(f, xs).error)
                        && forall j :: 0 <= j < k ==> f(xs[j]).Ok?
  {
    if f(xs[0]).Ok? {
      MapAllFirstError(f, xs[1..]);
      var k :| 0 <= k < |xs[1..]| && f(xs[1..][k]) == Err(MapAll(f, xs[1..]).error)
               && forall j :: 0 <= j < k ==> f(xs[1..][j]).Ok?;
      assert f(xs[k + 1]) == Err(MapAll(f, xs).error);
      assert forall j :: 1 <= j < k + 1 ==> f(xs[j]) == f(xs[1..][j - 1]);
    }
  }

  /** The item loops of `_rss_parser` and `_atom_parser`: one item per
      element, in order; any element that fails aborts the whole list. */
  function ParseItems(es: seq<Element>): (r: Result<seq<Item>, FeedError>)
    ensures r.Ok? <==> forall k :: 0 <= k < |es| ==> ParseItem(es[k]).Ok?
    ensures r.Ok? ==> ItemsOf(es, r.value)
  {
    MapAll(ParseItem, es)
  }

  /** The error of a failing item list is that of its first failing element:
      no item is skipped. */
  lemma ParseItemsFirstError(es: seq<Element>)
    requires ParseItems(es).Err?
    ensures exists k :: 0 <= k < |es| && ParseItem(es[k]) == Err(ParseItems(es).error)
                        && forall j :: 0 <= j < k ==> ParseItem(es[j]).Ok?
  {
    MapAllFirstError(ParseItem, es);
  }

  /** `items` holds exactly the parsed `es`, one per element and in order. */
  ghost predicate ItemsOf(es: seq<Element>, items: seq<Item>) {
    |items| == |es| && forall k :: 0 <= k < |es| ==> ParseItem(es[k]) == Ok(items[k])
  }

  /** The RSS metadata rules: `title`, `link` and `description` children
      exist and supply their texts; `author` is present exactly when an
      `itunes:author` child exists. */
  ghost predicate ChannelMetadata(channel: Element, m: Metadata) {
    && m.RssMetadata?
    && HasChild(channel, "title") && m.title == Find(channel, "title").value.text
    && HasChild(channel, "link") && m.homePageUrl == Find(channel, "link").value.text
    && HasChild(channel, "description") && m.description == Find(channel, "description").value.text
    && (m.author.Some? <==> HasChild(channel, Itunes("author")))
    && (m.author.Some? ==> m.author.value == Find(channel, Itunes("author")).value.text)
  }

  /** Every step of `_rss_parser` after finding `channel` that can raise succeeds. */
  predicate ChannelParses(channel: Element) {
    && HasChild(channel, "title") && HasChild(channel, "link") && HasChild(channel, "description")
    && forall k :: 0 <= k < |FindAll(channel, "item")| ==> ParseItem(FindAll(channel, "item")[k]).Ok?
  }

  /** `_rss_parser`: metadata from `channel`'s `title`, `link` and
      `description` (each must exist), `author` only when `itunes:author`
      exists, and one item per `item` child of `channel`. */
  function RssParser(root: Element): (r: Result<JsonFeed, FeedError>)
    ensures !HasChild(root, "channel") ==> r == Err(MissingElement("channel"))
    ensures r.Ok? ==> r.value.version == JsonFeedVersion && r.value.metadata.RssMetadata?
    ensures r.Ok? <==> HasChild(root, "channel") && ChannelParses(Find(root, "channel").value)
    ensures r.Ok? ==> ChannelMetadata(Find(root, "channel").value, r.value.metadata)
    ensures r.Ok? ==> ItemsOf(FindAll(Find(root, "channel").value, "item"), r.value.items)
  {
    var channel :- match Find(root, "channel")
                   case None => Err(MissingElement("channel"))
                   case Some(c) => Ok(c);
    var title :- TextOf(channel, "title");
    var link :- TextOf(channel, "link");
    var description :- TextOf(channel, "description");
    var author := match Find(channel, Itunes("author"))
                  case None => None
                  case Some(a) => Some(a.text);
    var items :- ParseItems(FindAll(channel, "item"));
    Ok(JsonFeed(JsonFeedVersion, RssMetadata(title, link, description, author), items))
  }

  /** `_atom_parser`: only `title`, from the Atom `title` child (which must
      exist), and one item per Atom `entry` child. */
  function AtomParser(root: Element): (r: Result<JsonFeed, FeedError>)
    ensures r.Ok? <==> HasChild(root, Atom("title")) && forall k :: 0 <= k < |FindAll(root, Atom("entry"))| ==> ParseItem(FindAll(root, Atom("entry"))[k]).Ok?
    ensures !HasChild(root, Atom("title")) ==> r == Err(MissingElement(Atom("title")))
    ensures r.Ok? ==> r.value.version == JsonFeedVersion
    ensures r.Ok? ==> r.value.metadata == AtomMetadata(Find(root, Atom("title")).value.text)
    ensures r.Ok? ==> ItemsOf(FindAll(root, Atom("entry")), r.value.items)
  {
    var title :- TextOf(root, Atom("title"));
    var items :- ParseItems(FindAll(root, Atom("entry")));
    Ok(JsonFeed(JsonFeedVersion, AtomMetadata(title), items))
  }

  /** `feed2json`, with the XML parser's outcome as input: None when the
      document could not be parsed. */
  function Feed2Json(parsed: Option<Element>): (r: Result<Option<JsonFeed>, FeedError>)
    ensures parsed.None? ==> r == Ok(None)
    ensures parsed.Some? ==> r.Err? || r.value.Some?
    ensures r.Ok? && r.value.Some? ==> r.value.value.version == JsonFeedVersion
    ensures parsed.Some? && r.Ok? ==>
              (r.value.value.metadata.RssMetadata? <==> parsed.value.tag == "rss")
    ensures parsed.Some? && r.Ok? && r.value.value.metadata.AtomMetadata? ==> Contains(parsed.value.tag, "feed")
    ensures (parsed.Some? && parsed.value.tag != "rss" && !Contains(parsed.value.tag, "feed"))
            ==> r == Err(UnknownFormat(parsed.value.tag))
    ensures parsed.Some? && parsed.value.tag == "rss" ==>
              (r.Ok? <==> RssParser(parsed.value).Ok?) && (r.Ok? ==> r.value == Some(RssParser(parsed.value).value))
    ensures parsed.Some? && parsed.value.tag != "rss" && Contains(parsed.value.tag, "feed") ==>
              (r.Ok? <==> AtomParser(parsed.value).Ok?) && (r.Ok? ==> r.value == Some(AtomParser(parsed.value).value))
  {
    match parsed
    case None => Ok(None)
    case Some(root) =>
      if root.tag == "rss" then
        var feed :- RssParser(root);
        Ok(Some(feed))
      else if Contains(root.tag, "feed") then
        var feed :- AtomParser(root);
        Ok(Some(feed))
      else
        Err(UnknownFormat(root.tag))
  }

  /** Nothing is dropped: a single item that fails to parse makes the whole
      call fail, for either format. */
  lemma FailingItemFailsFeed(root: Element, k: nat)
    requires root.tag == "rss" ==> HasChild(root, "channel") && k < |FindAll(Find(root, "channel").value, "item")|
                                   && ParseItem(FindAll(Find(root, "channel").value, "item")[k]).Err?
    requires root.tag != "rss" ==> k < |FindAll(root, Atom("entry"))| && ParseItem(FindAll(root, Atom("entry"))[k]).Err?
    ensures Feed2Json(Some(root)).Err?
  {
  }
}
