/**
 * The SEO component (src/components/SEO.tsx): absolute URLs for the page and
 * its preview image, the production-host test, and the `updateMeta` upsert of
 * `<meta>` elements in the document head.
 */
module Seo {
  import opened Text
  import opened Wrappers

  const SiteUrl: string := "https://holyforgegames.pages.dev"
  const DefaultTitle: string := "HolyForge Games | Elite C++ & WebAssembly Native Gaming Hub"
  const DefaultDescription: string := "Experience elite C++ and C games running natively in your browser with zero latency. Powered by WebAssembly and the HolyForge Engine. Crafted for Glory."
  const DefaultImage: string := SiteUrl + "/og-image.png"
  const DefaultType: string := "website"

  /** The component's props; `None` is an omitted (undefined) prop. */
  datatype SeoProps = SeoProps(title: Option<string>, description: Option<string>,
                               image: Option<string>, pageType: Option<string>)

  /** The props after the defaults of the parameter list are applied. */
  datatype PageInfo = PageInfo(title: string, description: string, image: string, pageType: string)

  /** A prop's value, or its default when omitted. */
  function OrDefault(p: Option<string>, default: string): (r: string)
    ensures p.None? ==> r == default
    ensures p.Some? ==> r == p.value
  {
    match p
    case Some(v) => v
    case None => default
  }

  /** Omitted props fall back to the site defaults and the type "website". */
  function ResolveProps(p: SeoProps): (r: PageInfo)
    ensures r.title == OrDefault(p.title, DefaultTitle)
    ensures r.description == OrDefault(p.description, DefaultDescription)
    ensures r.image == OrDefault(p.image, DefaultImage)
    ensures r.pageType == OrDefault(p.pageType, DefaultType)
  {
    PageInfo(OrDefault(p.title, DefaultTitle), OrDefault(p.description, DefaultDescription),
             OrDefault(p.image, DefaultImage), OrDefault(p.pageType, DefaultType))
  }

  /** `${SITE_URL}${location.pathname}`. */
  function PageUrl(pathname: string): (r: string)
    ensures StartsWith(r, SiteUrl) && r[|SiteUrl|..] == pathname
  {
    SiteUrl + pathname
  }

  /** An image URL starting with "http" is kept; anything else is made absolute under the site. */
  function AbsoluteImage(image: string): (r: string)
    ensures StartsWith(r, "http")
    ensures StartsWith(image, "http") ==> r == image
    ensures !StartsWith(image, "http") ==> r == SiteUrl + image
  {
    if StartsWith(image, "http") then image else SiteUrl + image
  }

  /** Development hosts are `localhost` and any host name containing "127.0.0.1". */
  function IsProduction(hostname: string): (b: bool)
    ensures hostname == "localhost" ==> !b
    ensures Includes(hostname, "127.0.0.1") ==> !b
    ensures hostname != "localhost" && !Includes(hostname, "127.0.0.1") ==> b
  {
    hostname != "localhost" && !Includes(hostname, "127.0.0.1")
  }

  /** In production a cache-busting query is added; `stamp` is the decimal text of `Date.now()`. */
  function FinalImage(absoluteImage: string, production: bool, stamp: string): (r: string)
    ensures StartsWith(r, absoluteImage)
    ensures production <==> r != absoluteImage
  {
    if production then absoluteImage + "?v=" + stamp else absoluteImage
  }

  /** The attributes of one `<meta>` element. */
  type Attributes = map<string, string>

  /** The attribute `updateMeta` gives a new element: "property" if the selector mentions it, else "name". */
  function SelectorAttribute(selector: string): (r: string)
    ensures r == "property" || r == "name"
    ensures r == "property" <==> Includes(selector, "property")
  {
    if Includes(selector, "property") then "property" else "name"
  }

  /** The selector `meta[key="value"]`, the form every call of the effect uses. */
  function MetaSelector(key: string, value: string): string
  {
    "meta[" + key + "=" + "\"" + value + "\"" + "]"
  }

  /**
   * The attribute an attribute selector tests: the text between the first `[`
   * and the first `=` after it, or "" when either is missing.
   */
  function SelectorKey(selector: string): (r: string)
    ensures '=' !in r
  {
    var i := IndexOfChar(selector, '[');
    if i < 0 then ""
    else
      var rest := selector[i + 1..];
      var j := IndexOfChar(rest, '=');
      if j < 0 then "" else rest[..j]
  }

  /** Of `meta[key="value"]` the key is `key` and the quoted value is `value`. */
  lemma MetaSelectorParts(key: string, value: string)
    requires '=' !in key && '"' !in key && '"' !in value
    ensures SelectorKey(MetaSelector(key, value)) == key
    ensures SecondQuotedField(MetaSelector(key, value)) == value
  {
    MetaSelectorKey(key, value);
    SecondQuotedFieldOf("meta[" + key + "=", value, "]");
  }

  /** The key of `meta[key="value"]` is `key` when `key` holds no `=`. */
  lemma MetaSelectorKey(key: string, value: string)
    requires '=' !in key
    ensures SelectorKey(MetaSelector(key, value)) == key
  {
    var tail := "\"" + value + "\"" + "]";
    var rest := key + "=" + tail;
    assert MetaSelector(key, value) == "meta" + ['['] + rest;
    IndexOfCharAfter("meta", '[', rest);
    assert ("meta" + ['['] + rest)[5..] == rest;
    IndexOfCharAfter(key, '=', tail);
  }

  /**
   * `document.querySelector(selector)` on an attribute selector: an element
   * matches when it carries the selector's attribute with the quoted value.
   */
  predicate MatchesSelector(e: Attributes, selector: string): (b: bool)
    ensures b ==> SelectorKey(selector) in e
  {
    SelectorKey(selector) in e && e[SelectorKey(selector)] == SecondQuotedField(selector)
  }

  /** `meta[key="value"]` matches exactly the elements whose `key` is `value`. */
  lemma MatchesMetaSelector(e: Attributes, key: string, value: string)
    requires '=' !in key && '"' !in key && '"' !in value
    ensures MatchesSelector(e, MetaSelector(key, value)) <==> key in e && e[key] == value
  {
    MetaSelectorParts(key, value);
  }

  /**
   * `updateMeta` names a new element after "property" or "name", while the search
   * tests the selector's own key: the two agree for `meta[property="…"]`, and for
   * `meta[name="…"]` whenever the value cannot contain "property" (it has no `y`).
   */
  lemma MetaSelectorAttribute(key: string, value: string)
    requires key == "property" || (key == "name" && 'y' !in value)
    ensures SelectorKey(MetaSelector(key, value)) == SelectorAttribute(MetaSelector(key, value)) == key
  {
    MetaSelectorKey(key, value);
    if key == "property" {
      PropertySelectorIncludes(value);
    } else {
      NameSelectorLacksY(value);
      LacksCharExcludes(MetaSelector(key, value), "property", 'y');
    }
  }

  /** A `meta[property="…"]` selector mentions "property". */
  lemma PropertySelectorIncludes(value: string)
    ensures Includes(MetaSelector("property", value), "property")
  {
    var s := MetaSelector("property", value);
    assert s[5..13] == "property";
    assert OccursAt(s, "property", 5);
    IncludesIffOccurs(s, "property");
  }

  /** A `meta[name="…"]` selector has a `y` only in its value. */
  lemma NameSelectorLacksY(value: string)
    requires 'y' !in value
    ensures 'y' !in MetaSelector("name", value)
  {
    assert 'y' !in "meta[" + "name" + "=" + "\"";
    assert 'y' !in "\"" + "]";
  }

  /** Index of the first element matching `selector`, or -1 when none does. */
  function FirstMatch(head: seq<Attributes>, selector: string): (r: int)
    ensures -1 <= r < |head|
    ensures r == -1 <==> forall i :: 0 <= i < |head| ==> !MatchesSelector(head[i], selector)
    ensures 0 <= r ==> MatchesSelector(head[r], selector) &&
                       forall i :: 0 <= i < r ==> !MatchesSelector(head[i], selector)
  {
    if head == [] then -1
    else if MatchesSelector(head[0], selector) then 0
    else
      var k := FirstMatch(head[1..], selector);
      assert forall i :: 1 <= i < |head| ==> head[i] == head[1..][i - 1];
      if k == -1 then -1 else k + 1
  }

  /** The selector finds the elements `updateMeta` creates for it, as for every call of the effect. */
  predicate SelfMatching(selector: string, attr: string)
  {
    attr != SelectorAttribute(selector) && SelectorKey(selector) == SelectorAttribute(selector)
  }

  /** The element `updateMeta` creates when nothing matches. */
  function NewMeta(selector: string, attr: string, value: string): (e: Attributes)
    ensures e.Keys == {SelectorAttribute(selector), attr}
    ensures e[attr] == value
    ensures SelfMatching(selector, attr) ==> MatchesSelector(e, selector)
    ensures SelectorKey(selector) != SelectorAttribute(selector) && SelectorKey(selector) != attr ==>
              !MatchesSelector(e, selector)
  {
    map[SelectorAttribute(selector) := SecondQuotedField(selector)][attr := value]
  }

  /** `updateMeta(selector, attr, value)` on the head's list of meta elements. */
  function Upsert(head: seq<Attributes>, selector: string, attr: string, value: string): (r: seq<Attributes>)
    ensures FirstMatch(head, selector) >= 0 ==>
      var i := FirstMatch(head, selector);
      |r| == |head| && attr in r[i] && r[i][attr] == value && r[i].Keys == head[i].Keys + {attr} &&
      (forall a :: a in head[i] && a != attr ==> a in r[i] && r[i][a] == head[i][a]) &&
      (forall j :: 0 <= j < |head| && j != i ==> r[j] == head[j])
    ensures FirstMatch(head, selector) < 0 ==>
      |r| == |head| + 1 && r[..|head|] == head && attr in r[|head|] && r[|head|][attr] == value &&
      (attr != SelectorAttribute(selector) ==>
         r[|head|] == map[SelectorAttribute(selector) := SecondQuotedField(selector), attr := value]) &&
      (attr == SelectorAttribute(selector) ==> r[|head|] == map[attr := value])
    ensures SelfMatching(selector, attr) ==>
      0 <= FirstMatch(r, selector) && attr in r[FirstMatch(r, selector)] &&
      r[FirstMatch(r, selector)][attr] == value
  {
    var i := FirstMatch(head, selector);
    if i >= 0 then
      UpsertFoundFirst(head, selector, attr, value, i);
      head[i := head[i][attr := value]]
    else
      UpsertAppendedFirst(head, selector, attr, value);
      head + [NewMeta(selector, attr, value)]
  }

  /** After setting `attr` on the first match, that element is still the first match. */
  lemma UpsertFoundFirst(head: seq<Attributes>, selector: string, attr: string, value: string, i: nat)
    requires i < |head| && i == FirstMatch(head, selector)
    ensures SelfMatching(selector, attr) ==> FirstMatch(head[i := head[i][attr := value]], selector) == i
  {
    var r := head[i := head[i][attr := value]];
    SetKeepsMatch(head[i], selector, attr, value);
    assert forall j :: 0 <= j < i ==> r[j] == head[j];
    FirstMatchIs(r, selector, i);
  }

  /** When nothing matched, the appended element is the first match. */
  lemma UpsertAppendedFirst(head: seq<Attributes>, selector: string, attr: string, value: string)
    requires FirstMatch(head, selector) < 0
    ensures SelfMatching(selector, attr) ==> FirstMatch(head + [NewMeta(selector, attr, value)], selector) == |head|
  {
    var r := head + [NewMeta(selector, attr, value)];
    assert forall j :: 0 <= j < |head| ==> r[j] == head[j];
    FirstMatchIs(r, selector, |head|);
  }

  /** An element that matches after only non-matching ones is the first match. */
  lemma FirstMatchIs(head: seq<Attributes>, selector: string, i: nat)
    requires i < |head| && forall j :: 0 <= j < i ==> !MatchesSelector(head[j], selector)
    ensures MatchesSelector(head[i], selector) ==> FirstMatch(head, selector) == i
  {
  }

  /** Setting an attribute other than the selector's key keeps an element matching. */
  lemma SetKeepsMatch(e: Attributes, selector: string, attr: string, value: string)
    ensures MatchesSelector(e, selector) && attr != SelectorKey(selector) ==>
              MatchesSelector(e[attr := value], selector)
  {
  }

  /** Repeating an update with the same arguments changes nothing more. */
  lemma UpsertIdempotent(head: seq<Attributes>, selector: string, attr: string, value: string)
    requires SelfMatching(selector, attr)
    ensures Upsert(Upsert(head, selector, attr, value), selector, attr, value) ==
            Upsert(head, selector, attr, value)
  {
    UpsertAtValue(Upsert(head, selector, attr, value), selector, attr, value);
  }

  /** An update whose first match already carries the value changes nothing. */
  lemma UpsertAtValue(head: seq<Attributes>, selector: string, attr: string, value: string)
    requires 0 <= FirstMatch(head, selector)
    requires attr in head[FirstMatch(head, selector)] && head[FirstMatch(head, selector)][attr] == value
    ensures Upsert(head, selector, attr, value) == head
  {
    var i := FirstMatch(head, selector);
    assert head[i][attr := value] == head[i];
    assert head[i := head[i][attr := value]] == head;
  }

  /** A (selector, content) pair the effect writes. */
  datatype MetaTag = MetaTag(selector: string, content: string)

  /** The eleven `updateMeta` calls of the effect, in order. */
  function MetaTags(info: PageInfo, url: string, finalImage: string): (r: seq<MetaTag>)
    ensures |r| == 11
  {
    [ MetaTag(MetaSelector("name", "title"), info.title),
      MetaTag(MetaSelector("name", "description"), info.description),
      MetaTag(MetaSelector("property", "og:title"), info.title),
      MetaTag(MetaSelector("property", "og:description"), info.description),
      MetaTag(MetaSelector("property", "og:image"), finalImage),
      MetaTag(MetaSelector("property", "og:url"), url),
      MetaTag(MetaSelector("property", "og:type"), info.pageType),
      MetaTag(MetaSelector("name", "twitter:title"), info.title),
      MetaTag(MetaSelector("name", "twitter:description"), info.description),
      MetaTag(MetaSelector("name", "twitter:image"), finalImage),
      MetaTag(MetaSelector("name", "twitter:url"), url) ]
  }

  /** Every call of the effect writes `content` through a selector that finds the element it creates. */
  lemma MetaTagsSelfMatching(info: PageInfo, url: string, finalImage: string)
    ensures forall k :: 0 <= k < 11 ==> SelfMatching(MetaTags(info, url, finalImage)[k].selector, "content")
  {
    var keys := ["name", "name", "property", "property", "property", "property", "property",
                 "name", "name", "name", "name"];
    var values := ["title", "description", "og:title", "og:description", "og:image", "og:url",
                   "og:type", "twitter:title", "twitter:description", "twitter:image", "twitter:url"];
    forall k | 0 <= k < 11
      ensures SelfMatching(MetaTags(info, url, finalImage)[k].selector, "content")
    {
      assert MetaTags(info, url, finalImage)[k].selector == MetaSelector(keys[k], values[k]);
      SelfMatchingTag(keys[k], values[k]);
    }
  }

  /** `meta[property="…"]`, and `meta[name="…"]` with no `y` in the value, find the element created for them. */
  lemma SelfMatchingTag(key: string, value: string)
    requires key == "property" || (key == "name" && forall i :: 0 <= i < |value| ==> value[i] != 'y')
    ensures SelfMatching(MetaSelector(key, value), "content")
  {
    MetaSelectorAttribute(key, value);
  }

  /** The updates applied one after the other. */
  function UpsertAll(head: seq<Attributes>, tags: seq<MetaTag>): seq<Attributes>
    decreases |tags|
  {
    if tags == [] then head
    else UpsertAll(Upsert(head, tags[0].selector, "content", tags[0].content), tags[1..])
  }

  /** The parts of the document the component touches. */
  class Document {
    var title: string
    /** The `<meta>` elements of `document.head`, in document order. */
    var head: seq<Attributes>

    /** `document.querySelector(selector)`, as the index of the element found or -1. */
    method QuerySelector(selector: string) returns (index: int)
      ensures index == FirstMatch(head, selector)
    {
      index := 0;
      while index < |head| && !MatchesSelector(head[index], selector)
        invariant 0 <= index <= |head|
        invariant forall j :: 0 <= j < index ==> !MatchesSelector(head[j], selector)
      {
        index := index + 1;
      }
      if index == |head| {
        index := -1;
      }
    }

    /** `updateMeta`: set the attribute on the element found, or append a new element. */
    method UpdateMeta(selector: string, attr: string, value: string)
      modifies this
      ensures head == Upsert(old(head), selector, attr, value)
      ensures title == old(title)
    {
      var index := QuerySelector(selector);
      if index >= 0 {
        head := head[index := head[index][attr := value]];
      } else {
        var meta: Attributes := map[];
        meta := meta[SelectorAttribute(selector) := SecondQuotedField(selector)];
        meta := meta[attr := value];
        head := head + [meta];
      }
    }

    /** The `updateMeta(selector, 'content', value)` calls of the effect, in order. */
    method UpdateAll(tags: seq<MetaTag>)
      modifies this
      ensures head == UpsertAll(old(head), tags)
      ensures title == old(title)
    {
      var k := 0;
      while k < |tags|
        invariant 0 <= k <= |tags|
        invariant title == old(title)
        invariant UpsertAll(head, tags[k..]) == UpsertAll(old(head), tags)
      {
        assert tags[k..][1..] == tags[k + 1..];
        UpdateMeta(tags[k].selector, "content", tags[k].content);
        k := k + 1;
      }
      assert tags[k..] == [];
    }

    /** The component's effect: set the title, then write every meta tag. */
    method ApplySeo(props: SeoProps, pathname: string, hostname: string, stamp: string)
      modifies this
      ensures title == ResolveProps(props).title
      ensures head == UpsertAll(old(head), MetaTags(ResolveProps(props), PageUrl(pathname),
                       FinalImage(AbsoluteImage(ResolveProps(props).image), IsProduction(hostname), stamp)))
    {
      var info := ResolveProps(props);
      var finalImage := FinalImage(AbsoluteImage(info.image), IsProduction(hostname), stamp);
      title := info.title;
      UpdateAll(MetaTags(info, PageUrl(pathname), finalImage));
    }
  }
}
