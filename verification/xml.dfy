/** The part of Python's ElementTree that the feed normaliser relies on:
    an immutable element tree, Clark-notation tag names, and the one-step
    `find` / `findall` lookups over direct children. */
module Xml {
  import opened Wrappers

  /** An element as ElementTree presents it: the tag in Clark notation
      (`{uri}local`, or a bare `local` when unnamespaced), the optional
      text, the attribute map and the child elements in document order. */
  datatype Element = Element(
    tag: string,
    text: Option<string>,
    attrib: map<string, string>,
    children: seq<Element>)

  const ItunesNs: string := "http://www.itunes.com/dtds/podcast-1.0.dtd"
  /** The Atom namespace of section 1.2 of RFC 4287. */
  const AtomNs: string := "http://www.w3.org/2005/Atom"

  /** The prefix map handed to every prefixed lookup. */
  const Namespaces: map<string, string> := map["itunes" := ItunesNs, "feed" := AtomNs]

  /** `prefix:local` expanded through the prefix map to `{uri}local`. */
  function Qualify(prefix: string, local: string): (name: string)
    requires prefix in Namespaces
    ensures |name| == |Namespaces[prefix]| + |local| + 2
    ensures name[0] == '{' && name[|Namespaces[prefix]| + 1] == '}'
    ensures name[1..|Namespaces[prefix]| + 1] == Namespaces[prefix]
    ensures name[|name| - |local|..] == local
  {
    "{" + Namespaces[prefix] + "}" + local
  }

  /** Expanded names with the same prefix differ exactly when their local parts do. */
  lemma QualifyInjective(prefix: string, a: string, b: string)
    requires prefix in Namespaces
    ensures Qualify(prefix, a) == Qualify(prefix, b) <==> a == b
  {
    if Qualify(prefix, a) == Qualify(prefix, b) {
      var n := |Namespaces[prefix]| + 2;
      assert a == Qualify(prefix, a)[n..];
      assert b == Qualify(prefix, b)[n..];
    }
  }

  /** An expanded name never equals a name without a leading brace,
      so prefixed and unprefixed lookups never see the same child. */
  lemma QualifiedIsNotPlain(prefix: string, local: string, plain: string)
    requires prefix in Namespaces
    requires plain == [] || plain[0] != '{'
    ensures Qualify(prefix, local) != plain
  {
  }

  /** Some direct child carries the tag. */
  predicate HasChild(e: Element, tag: string) {
    exists i :: 0 <= i < |e.children| && e.children[i].tag == tag
  }

  /** Position of the first element of `cs` carrying the tag. */
  function FirstIndex(cs: seq<Element>, tag: string): (r: Option<nat>)
    ensures r.None? <==> forall i :: 0 <= i < |cs| ==> cs[i].tag != tag
    ensures r.Some? ==> r.value < |cs| && cs[r.value].tag == tag
    ensures r.Some? ==> forall j :: 0 <= j < r.value ==> cs[j].tag != tag
  {
    if |cs| == 0 then None
    else if cs[0].tag == tag then Some(0)
    else
      match FirstIndex(cs[1..], tag)
      case None => None
      case Some(k) => Some(k + 1)
  }

  /** `element.find(tag)`: the first direct child whose tag equals `tag`, or None. */
  function Find(e: Element, tag: string): (r: Option<Element>)
    ensures r.None? <==> !HasChild(e, tag)
    ensures r.Some? ==> r.value.tag == tag && r.value in e.children
    ensures r.Some? ==> exists i :: 0 <= i < |e.children| && e.children[i] == r.value
                         && forall j :: 0 <= j < i ==> e.children[j].tag != tag
  {
    match FirstIndex(e.children, tag)
    case None => None
    case Some(i) => Some(e.children[i])
  }

  /** The elements of `cs` carrying the tag, in their original order. */
  function Filter(cs: seq<Element>, tag: string): (r: seq<Element>)
    ensures |r| <= |cs|
    ensures forall k :: 0 <= k < |r| ==> r[k].tag == tag && r[k] in cs
    ensures forall c :: c in cs && c.tag == tag ==> c in r
  {
    if |cs| == 0 then []
    else if cs[0].tag == tag then [cs[0]] + Filter(cs[1..], tag)
    else Filter(cs[1..], tag)
  }

  /** `element.findall(tag)`: every direct child whose tag equals `tag`, in document order. */
  function FindAll(e: Element, tag: string): (r: seq<Element>)
    ensures forall k :: 0 <= k < |r| ==> r[k].tag == tag && r[k] in e.children
    ensures forall c :: c in e.children && c.tag == tag ==> c in r
  {
    Filter(e.children, tag)
  }

  /** Filtering distributes over concatenation: together with the one-element
      cases this pins Filter down as the order-preserving selection. */
  lemma {:induction false} FilterAppend(a: seq<Element>, b: seq<Element>, tag: string)
    ensures Filter(a + b, tag) == Filter(a, tag) + Filter(b, tag)
  {
    if |a| == 0 {
      assert a + b == b;
    } else {
      assert (a + b)[1..] == a[1..] + b;
      FilterAppend(a[1..], b, tag);
    }
  }

  /** `find` returns the head of what `findall` returns. */
  lemma {:induction false} FindIsFirstOfFindAll(e: Element, tag: string)
    ensures Find(e, tag).None? <==> FindAll(e, tag) == []
    ensures Find(e, tag).Some? ==> Find(e, tag).value == FindAll(e, tag)[0]
  {
    FirstOfFilter(e.children, tag);
  }

  lemma {:induction false} FirstOfFilter(cs: seq<Element>, tag: string)
    ensures FirstIndex(cs, tag).None? <==> Filter(cs, tag) == []
    ensures FirstIndex(cs, tag).Some? ==> cs[FirstIndex(cs, tag).value] == Filter(cs, tag)[0]
  {
    if |cs| > 0 && cs[0].tag != tag {
      FirstOfFilter(cs[1..], tag);
    }
  }
}
