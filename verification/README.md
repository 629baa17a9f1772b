# feed2json in Dafny

A functional model of the feed normaliser `crawler/feed2json.py` of the
crawler project. The normaliser takes the element tree of an RSS 2.0 or Atom
document and builds a JSON Feed version 1 style dictionary: a fixed `version`,
feed-level metadata that depends on the format, and one item dictionary per
RSS `item` or Atom `entry`.

Modules, leaves first:

- `Wrappers` (`wrappers.dfy`): `Option` and `Result`, both usable with `:-`.
- `Xml` (`xml.dfy`): ElementTree's view of a document. An `Element` has a tag
  in Clark notation (`{uri}local`, or bare `local`), an optional text, an
  attribute map and its children in document order. `Find` is "first direct
  child with this tag" and `FindAll` is "all such children, in order".
  `Qualify` expands the `itunes:` and `feed:` prefixes through the module's
  prefix map. `feed:` maps to the Atom namespace of section 1.2 of RFC 4287.
- `PyText` (`pytext.dfy`): the Python string built-ins the module relies on.
  These are `str.strip()`, `int(str)` and the substring test `in`.
- `FeedJson` (`feed2json.dfy`): the module itself. It covers `_find_both`,
  `_get_published_date`, `_item_parser`, `_rss_parser`, `_atom_parser` and
  `feed2json`. The exceptions the Python code raises become `Err`s, except
  that the digit-count limit of `int` is not modelled (see "Left out").
  The XML parser's outcome is an input `Option<Element>`: `None` stands for a
  parse failure, for which `feed2json` returns `None`, modelled as `Ok(None)`.
- `JsonRender` (`render.dfy`): the dictionaries the code returns, with exactly
  the keys it writes, and a decoder proving nothing is lost.
- `Scenarios` (`scenarios.dfy`): small concrete documents and what the model
  returns for them.

The typed records keep Python's three-way distinctions. An element text is
`Option<string>`, where `None` is Python's None. A key that may be missing is
an `Option` around its value. So an RSS `author` of `Some(None)` is a key
holding null, and `None` is a missing key.

## Model

| member | source | states |
|---|---|---|
| Xml.Qualify | crawler/feed2json.py:7-10 | `prefix:local` expands to `{uri}local` with the URI from the prefix map; the result has the local name as suffix |
| Xml.QualifyInjective | crawler/feed2json.py:7-10 | two expanded names with the same prefix are equal exactly when their local names are |
| Xml.QualifiedIsNotPlain | crawler/feed2json.py:13-17 | an expanded name never equals an unprefixed tag, so the two lookups of `_find_both` never see the same child |
| Xml.FirstIndex | crawler/feed2json.py:14-16 | returns the position of the first child carrying the tag; None exactly when no child carries it |
| Xml.Find | crawler/feed2json.py:14-16 | `find` returns None iff no direct child has the tag; otherwise a child with the tag that no earlier child shares |
| Xml.Filter | crawler/feed2json.py:86 | keeps only elements with the tag, and keeps every one of them |
| Xml.FindAll | crawler/feed2json.py:86 | `findall` returns direct children with the tag, and every such child appears |
| Xml.FilterAppend | crawler/feed2json.py:96 | selection distributes over concatenation, so document order is preserved |
| Xml.FindIsFirstOfFindAll | crawler/feed2json.py:76-86 | `find` is None iff `findall` is empty, and otherwise is the first element `findall` returns |
| PyText.TrimStart | crawler/feed2json.py:44 | removes a whitespace-only prefix and leaves no leading whitespace |
| PyText.TrimEnd | crawler/feed2json.py:44 | removes a whitespace-only suffix and leaves no trailing whitespace |
| PyText.Strip | crawler/feed2json.py:44 | the stripped text has no whitespace at either edge and is no longer than the input |
| PyText.StripIsTrim | crawler/feed2json.py:44 | the stripped text is the input minus a whitespace-only prefix and suffix |
| PyText.TrimIsUnique | crawler/feed2json.py:48 | there is only one such trim of a string, so the trim description determines `strip` |
| PyText.TrimIsStrip | crawler/feed2json.py:44 | any decomposition of a string into whitespace, an edge-trimmed middle and whitespace has that middle as its `strip` |
| PyText.StripIdempotent | crawler/feed2json.py:48 | stripping twice equals stripping once |
| PyText.ParseInt | crawler/feed2json.py:59 | `int` succeeds exactly on an optionally signed non-empty digit string; the sign decides the sign of the value |
| PyText.LeadingZeroIgnored | crawler/feed2json.py:59 | in the model, `int` accepts leading zeros and they do not change the value (CPython's digit-count limit aside) |
| PyText.PlusSignIgnored | crawler/feed2json.py:59 | `int` accepts an explicit plus sign and it does not change the value |
| PyText.MinusSignNegates | crawler/feed2json.py:59 | a minus sign before a digit string gives the negation of that string's value |
| PyText.ParseShowRoundTrip | crawler/feed2json.py:59 | in the model, reading back the decimal text of any integer yields that integer (CPython raises beyond 4300 digits) |
| PyText.Contains | crawler/feed2json.py:115 | `needle in hay` holds iff the needle occurs at some position of the hay |
| FeedJson.TextOf | crawler/feed2json.py:77-79 | `find(tag).text` raises iff there is no child with the tag; otherwise it is the text of the first such child |
| FeedJson.FindBoth | crawler/feed2json.py:13-17 | text of the first unnamespaced child if any, else of the first Atom child; raises iff neither exists |
| FeedJson.ItemId | crawler/feed2json.py:37-40 | `id` is the `guid` text whenever a `guid` exists, even a null one; else the Atom `id` text; raises iff neither exists |
| FeedJson.ContentHtml | crawler/feed2json.py:43-48 | succeeds iff `_find_both` finds a description with text or the first Atom content has text; the result is the trim of the description text when there is one, else of the content text, and has no edge whitespace |
| FeedJson.ScanDatesIsLastPresent | crawler/feed2json.py:21-31 | the date loop returns the text of the last present candidate, or its start value when none is present |
| FeedJson.PublishedDate | crawler/feed2json.py:21-31 | `updated` wins if present, then Atom `published`, then `pubDate`; None when none is present, and never an error |
| FeedJson.EnclosureAttachment | crawler/feed2json.py:57-67 | succeeds iff `url` and `type` exist and any `length` is an integer; copies `url` and `type`; size is None iff `length` is absent |
| FeedJson.ParseItem | crawler/feed2json.py:33-70 | succeeds iff a `guid` or Atom `id`, a `link`, a `title`, a usable description or content, and a valid first `enclosure` (if any) exist; fields follow the id, link, title, content and date rules; `attachments` iff an `enclosure` child exists |
| FeedJson.MapAll | crawler/feed2json.py:86-88 | succeeds iff every element succeeds, and then yields one result per element in order |
| FeedJson.MapAllFirstError | crawler/feed2json.py:86-88 | a failure carries the error of the first failing element |
| FeedJson.ParseItems | crawler/feed2json.py:96-98 | one item per element in document order; succeeds iff every element parses |
| FeedJson.ParseItemsFirstError | crawler/feed2json.py:96-98 | a failing item list reports its first failing element; no item is skipped |
| FeedJson.RssParser | crawler/feed2json.py:73-90 | requires `channel` with `title`, `link` and `description`; metadata are their texts; `author` iff `itunes:author` exists; items are exactly the parsed `item` children |
| FeedJson.AtomParser | crawler/feed2json.py:92-99 | succeeds iff the Atom `title` exists and every Atom `entry` parses; sets only `title`; items are exactly the parsed entries |
| FeedJson.Feed2Json | crawler/feed2json.py:101-122 | unparsable input gives None; root `rss` selects RSS; else a root containing `feed` selects Atom; else raises; every feed has the fixed version |
| FeedJson.FailingItemFailsFeed | crawler/feed2json.py:86-98 | one failing item makes the whole call fail, in either format |
| JsonRender.AttachmentObject | crawler/feed2json.py:63-67 | an attachment has exactly the keys `size_in_bytes`, `url`, `mime_type` |
| JsonRender.ItemObject | crawler/feed2json.py:35-70 | an item has exactly `id`, `url`, `title`, `content_html`, `published_date`, plus `attachments` iff it has an attachment, holding one element |
| JsonRender.FeedObject | crawler/feed2json.py:76-94 | RSS feeds have `version`, `items`, `title`, `home_page_url`, `description` and `author` only when found; Atom feeds have only `version`, `items`, `title` |
| JsonRender.AttachmentRoundTrip | crawler/feed2json.py:63-67 | the attachment can be read back from its dictionary |
| JsonRender.ItemRoundTrip | crawler/feed2json.py:35-70 | the item can be read back from its dictionary |
| JsonRender.ItemsRoundTrip | crawler/feed2json.py:86-88 | the item list can be read back from the `items` array |
| JsonRender.MetadataRoundTrip | crawler/feed2json.py:76-84 | the format and metadata, including an absent versus a null `author`, can be read back |
| JsonRender.FeedRoundTrip | crawler/feed2json.py:103-106 | the whole feed can be read back from the dictionary: rendering loses nothing |
| Scenarios.StripExample | crawler/feed2json.py:44 | `" C\n"` strips to `"C"` |
| Scenarios.RssItemParses | crawler/feed2json.py:33-70 | a fully populated RSS item yields the expected item |
| Scenarios.RssFeedExample | crawler/feed2json.py:73-90 | a one-item RSS channel yields the expected feed, without an `author` |
| Scenarios.AtomEntryDate | crawler/feed2json.py:22 | an Atom entry whose only date is the namespaced `updated` gets no published date |
| Scenarios.AtomEntryParses | crawler/feed2json.py:33-70 | an Atom entry takes id, title and content from the Atom namespace; its `<link href>` has no text, so the url is null |
| Scenarios.AtomFeedExample | crawler/feed2json.py:92-99 | a one-entry Atom feed yields only a title and the one item |
| Scenarios.LastDateCandidateWins | crawler/feed2json.py:24-28 | with `pubDate` and Atom `published` both present, the `published` text wins |
| Scenarios.EmptyLaterCandidateClearsDate | crawler/feed2json.py:26 | a later candidate without text resets an earlier date to None |
| Scenarios.EmptyGuidIsNotReplaced | crawler/feed2json.py:37-40 | a `guid` without text gives a null `id`, even when an Atom `id` exists |
| Scenarios.EnclosureExamples | crawler/feed2json.py:57-67 | length `12345` becomes size 12345; a missing length gives no size; a non-numeric length raises |
| Scenarios.DispatchExamples | crawler/feed2json.py:113-118 | root `feedback` goes to the Atom parser, `html` raises, `rss` needs a `channel` |

## Behaviour that follows the code

Some of the module's behaviour differs from a natural reading of its purpose.
The model follows the code in each case:

- The published-date loop has no `break`, so the last present candidate wins,
  not the first. A candidate that is present without text resets the date to
  None.
- The item key is `published_date`, not JSON Feed's `date_published`.
- The third date candidate is an unnamespaced `updated`. An Atom entry's
  `updated` is in the Atom namespace and is never read.
- Only a missing `length` attribute gives an unknown size. A non-numeric
  `length` raises, because only `KeyError` is caught.
- Required fields fail only when the element is missing. A present item
  `title`, `link` or `guid`, Atom `id`, channel `title`, `link` or
  `description`, or `itunes:author` without text gives a null value. An Atom
  `<link href="…"/>` has no text, so an entry whose first Atom `link` is
  such an element, and which has no unnamespaced `link`, gets a null url. The
  exception is `content_html`, where a null text falls back to Atom `content`.
- A `description` child without text falls back to Atom `content` directly.
  It does not try an Atom `description`.
- A document that cannot be parsed returns None. An unknown root tag raises.
  The Atom test is a substring test, so any root tag containing `feed` selects
  the Atom parser.

## Left out

- `main.py`: the asyncio queue and worker pool are concurrency plus logging
  set-up. The worker never calls `task_done`, so there is no termination
  property to state.
- `crawler/crawler.py`: `fetch` is an HTTP GET and `get_links` delegates to a
  foreign HTML library.
- The XML parser (`ET.fromstring`) is foreign; it is the input `Option<Element>`.
- All logging, which has no effect on the result.
- Unknown namespace prefixes, which make ElementTree raise. The module only
  uses `itunes:` and `feed:`, so `Qualify` requires a known prefix.
- The key order of Python dictionaries. The model uses maps, which have none.
- PyText.ParseInt: does not accept the surrounding whitespace, underscores or
  non-ASCII digits that Python's `int` accepts; it takes an optional sign and
  ASCII decimal digits only. In the other direction it has no digit-count
  limit: CPython (3.11 on, and the 3.7–3.10 security releases) raises
  `ValueError` on a literal of more than 4300 digits, leading zeros included,
  where the model returns a value and the enclosure parses.
- FeedJson.EnclosureAttachment: inherits the missing digit-count limit of
  `PyText.ParseInt`, so a `length` of more than 4300 digits gives a size where
  CPython raises `ValueError`.
- PyText.Strip: trims only space, tab, line feed, carriage return, vertical tab
  and form feed, not every character Python treats as whitespace.
