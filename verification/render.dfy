/** The dictionaries `feed2json` actually returns, with exactly the keys
    the code writes, and a decoder that reads the typed records back. */
module JsonRender {
  import opened Wrappers
  import opened FeedJson

  /** A JSON value; Python's None is `Null`. */
  datatype Json = Null | Str(s: string) | Num(n: int) | Arr(elems: seq<Json>) | Obj(fields: map<string, Json>)

  function TextValue(t: Text): Json {
    match t
    case None => Null
    case Some(s) => Str(s)
  }

  function DecodeText(j: Json): Option<Text> {
    match j
    case Null => Some(None)
    case Str(s) => Some(Some(s))
    case _ => None
  }

  /** An attachment dictionary: `size_in_bytes`, `url`, `mime_type`. */
  function AttachmentObject(a: Attachment): (j: Json)
    ensures j.Obj? && j.fields.Keys == {"size_in_bytes", "url", "mime_type"}
  {
    Obj(map[
      "size_in_bytes" := (match a.sizeInBytes case None => Null case Some(n) => Num(n)),
      "url" := Str(a.url),
      "mime_type" := Str(a.mimeType)])
  }

  function DecodeAttachment(j: Json): Option<Attachment> {
    if j.Obj? && "size_in_bytes" in j.fields && "url" in j.fields && "mime_type" in j.fields
       && j.fields["url"].Str? && j.fields["mime_type"].Str?
    then
      var size :- match j.fields["size_in_bytes"]
                  case Null => Some(None)
                  case Num(n) => Some(Some(n))
                  case _ => None;
      Some(Attachment(j.fields["url"].s, j.fields["mime_type"].s, size))
    else None
  }

  /** The keys every item dictionary has. */
  const ItemKeys: set<string> := {"id", "url", "title", "content_html", "published_date"}

  /** An item dictionary. It has an `attachments` key exactly when the item
      has an attachment, and that key then holds a one-element list. */
  function ItemObject(i: Item): (j: Json)
    ensures j.Obj?
    ensures i.attachment.None? ==> j.fields.Keys == ItemKeys
    ensures i.attachment.Some? ==> j.fields.Keys == ItemKeys + {"attachments"}
    ensures "attachments" in j.fields ==> j.fields["attachments"].Arr? && |j.fields["attachments"].elems| == 1
  {
    var base := map[
      "id" := TextValue(i.id),
      "url" := TextValue(i.url),
      "title" := TextValue(i.title),
      "content_html" := Str(i.contentHtml),
      "published_date" := TextValue(i.publishedDate)];
    match i.attachment
    case None => Obj(base)
    case Some(a) => Obj(base["attachments" := Arr([AttachmentObject(a)])])
  }

  function DecodeItem(j: Json): Option<Item> {
    if j.Obj? && ItemKeys <= j.fields.Keys && j.fields["content_html"].Str? then
      var id :- DecodeText(j.fields["id"]);
      var url :- DecodeText(j.fields["url"]);
      var title :- DecodeText(j.fields["title"]);
      var date :- DecodeText(j.fields["published_date"]);
      var attachment :- if "attachments" !in j.fields then Some(None)
                        else match j.fields["attachments"]
                             case Arr(es) =>
                               if |es| == 1 then
                                 var a :- DecodeAttachment(es[0]);
                                 Some(Some(a))
                               else None
                             case _ => None;
      Some(Item(id, url, title, j.fields["content_html"].s, date, attachment))
    else None
  }

  function ItemsArray(items: seq<Item>): (js: seq<Json>)
    ensures |js| == |items|
  {
    if |items| == 0 then [] else [ItemObject(items[0])] + ItemsArray(items[1..])
  }

  function DecodeItems(js: seq<Json>): Option<seq<Item>> {
    if |js| == 0 then Some([])
    else
      var first :- DecodeItem(js[0]);
      var rest :- DecodeItems(js[1..]);
      Some([first] + rest)
  }

  /** The keys an RSS feed dictionary has besides `author`. */
  const RssKeys: set<string> := {"version", "items", "title", "home_page_url", "description"}

  /** The keys an Atom feed dictionary has. */
  const AtomKeys: set<string> := {"version", "items", "title"}

  /** The feed dictionary. RSS writes `title`, `home_page_url`,
      `description` and, only when it was found, `author`; Atom writes only
      `title`. */
  function FeedObject(f: JsonFeed): (j: Json)
    ensures j.Obj? && "version" in j.fields && j.fields["version"] == Str(f.version)
    ensures f.metadata.AtomMetadata? ==> j.fields.Keys == AtomKeys
    ensures f.metadata.RssMetadata? && f.metadata.author.None? ==> j.fields.Keys == RssKeys
    ensures f.metadata.RssMetadata? && f.metadata.author.Some? ==> j.fields.Keys == RssKeys + {"author"}
    ensures "items" in j.fields && j.fields["items"].Arr? && |j.fields["items"].elems| == |f.items|
  {
    var common := map[
      "version" := Str(f.version),
      "items" := Arr(ItemsArray(f.items)),
      "title" := TextValue(f.metadata.title)];
    match f.metadata
    case AtomMetadata(_) => Obj(common)
    case RssMetadata(_, home, description, author) =>
      var rss := common["home_page_url" := TextValue(home)]["description" := TextValue(description)];
      match author
      case None => Obj(rss)
      case Some(a) => Obj(rss["author" := TextValue(a)])
  }

  /** Reads the feed-level metadata: RSS when `home_page_url` and
      `description` are present, Atom otherwise. */
  function DecodeMetadata(fields: map<string, Json>): Option<Metadata> {
    if "title" !in fields then None
    else
      var title :- DecodeText(fields["title"]);
      if "home_page_url" in fields && "description" in fields then
        var home :- DecodeText(fields["home_page_url"]);
        var description :- DecodeText(fields["description"]);
        var author :- if "author" in fields then
                        var a :- DecodeText(fields["author"]);
                        Some(Some(a))
                      else Some(None);
        Some(RssMetadata(title, home, description, author))
      else Some(AtomMetadata(title))
  }

  function DecodeFeed(j: Json): Option<JsonFeed> {
    if j.Obj? && "version" in j.fields && "items" in j.fields
       && j.fields["version"].Str? && j.fields["items"].Arr? then
      var items :- DecodeItems(j.fields["items"].elems);
      var metadata :- DecodeMetadata(j.fields);
      Some(JsonFeed(j.fields["version"].s, metadata, items))
    else None
  }

  lemma AttachmentRoundTrip(a: Attachment)
    ensures DecodeAttachment(AttachmentObject(a)) == Some(a)
  {
  }

  lemma ItemRoundTrip(i: Item)
    ensures DecodeItem(ItemObject(i)) == Some(i)
  {
    var j := ItemObject(i);
    assert DecodeText(j.fields["id"]) == Some(i.id);
    assert DecodeText(j.fields["url"]) == Some(i.url);
    assert DecodeText(j.fields["title"]) == Some(i.title);
    assert DecodeText(j.fields["published_date"]) == Some(i.publishedDate);
    if i.attachment.Some? {
      AttachmentRoundTrip(i.attachment.value);
    }
  }

  lemma {:induction false} ItemsRoundTrip(items: seq<Item>)
    ensures DecodeItems(ItemsArray(items)) == Some(items)
  {
    if |items| > 0 {
      ItemsRoundTrip(items[1..]);
      var js := ItemsArray(items);
      assert js[0] == ItemObject(items[0]) && js[1..] == ItemsArray(items[1..]);
      ItemRoundTrip(items[0]);
      assert [items[0]] + items[1..] == items;
    }
  }

  lemma MetadataRoundTrip(f: JsonFeed)
    ensures DecodeMetadata(FeedObject(f).fields) == Some(f.metadata)
  {
    var fields := FeedObject(f).fields;
    assert DecodeText(fields["title"]) == Some(f.metadata.title);
    if f.metadata.RssMetadata? {
      assert DecodeText(fields["home_page_url"]) == Some(f.metadata.homePageUrl);
      assert DecodeText(fields["description"]) == Some(f.metadata.description);
      if f.metadata.author.Some? {
        assert DecodeText(fields["author"]) == Some(f.metadata.author.value);
      }
    }
  }

  /** The dictionary loses nothing: the typed feed can be read back from it. */
  lemma FeedRoundTrip(f: JsonFeed)
    ensures DecodeFeed(FeedObject(f)) == Some(f)
  {
    ItemsRoundTrip(f.items);
    MetadataRoundTrip(f);
  }
}
