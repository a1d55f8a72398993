/**
 * `_extract_post_info`: the fields of one post read from one candidate element.
 *
 * The title comes from the first of four searches whose element has text
 * (headings, then anchors, then class fragments "title" and "headline");
 * when none has, the last search's result is kept. The link prefers the
 * title element when that is an anchor, otherwise the first anchor carrying
 * an `href`. The date comes from the first time/span/div whose class
 * mentions a date, and the summary from the first p/div whose class
 * mentions a summary, else the first paragraph.
 *
 * `urljoin` is a parameter; it returns `None` where it would raise, and
 * that exception is the one way the extraction as a whole returns `None`.
 */
module Extract {
  import opened Maybe
  import opened Strings
  import opened Html
  import opened Dates

  /** The post dictionary `_extract_post_info` builds. `scrapedAt` is the
      `isoformat()` of the clock, which the caller supplies. */
  datatype Post = Post(title: string, url: string, date: Option<DateTime>, summary: string,
                       company: string, scrapedAt: string)

  /** `urljoin(base, href)`, or `None` where it raises. */
  type Joiner = (string, string) -> Option<string>

  /** The title searches, in the order they are tried. */
  const TitleStrategies: seq<Query> := [
    TagIn({"h1", "h2", "h3", "h4"}),   // element.find(['h1', 'h2', 'h3', 'h4'])
    TagIn({"a"}),                      // element.find(['a'])
    ClassHas("title"),                 // element.select_one('[class*="title"]')
    ClassHas("headline")               // element.select_one('[class*="headline"]')
  ]

  const NoTitle := "No title found"
  const NoSummary := "No summary available"

  /** `node.get_text().strip()` is not empty. */
  predicate HasText(n: Node) {
    Strip(GetText(n)) != []
  }

  /** A search result the title loop stops at. */
  predicate Usable(found: Option<Node>) {
    found.Some? && HasText(found.value)
  }

  /** The result of title search `i`. */
  function Found(element: Node, i: nat): Option<Node>
    requires i < |TitleStrategies|
  {
    FindFirst(element, TitleStrategies[i])
  }

  /** The title element the loop ends with when it starts at search `i`. */
  function TitleElemFrom(element: Node, i: nat): Option<Node>
    requires i < |TitleStrategies|
    decreases |TitleStrategies| - i
  {
    if Usable(Found(element, i)) || i == |TitleStrategies| - 1 then Found(element, i)
    else TitleElemFrom(element, i + 1)
  }

  function TitleElem(element: Node): Option<Node> {
    TitleElemFrom(element, 0)
  }

  /** The title: the element's stripped text with whitespace collapsed, or the sentinel. */
  function TitleText(titleElem: Option<Node>): string {
    match titleElem
    case None => NoTitle
    case Some(t) => Collapse(Strip(GetText(t)))
  }

  /** The element the link is read from. */
  function LinkElem(element: Node, titleElem: Option<Node>): Option<Node> {
    if titleElem.Some? && titleElem.value.Elem? && titleElem.value.tag == "a" then titleElem
    else FindFirst(element, AnchorWithHref)
  }

  /** `link_elem.get('href')` when it is a non-empty string. */
  function Href(linkElem: Option<Node>): Option<string> {
    if linkElem.Some? && linkElem.value.Elem? && "href" in linkElem.value.attrs
       && linkElem.value.attrs["href"] != ""
    then Some(linkElem.value.attrs["href"])
    else None
  }

  /** The link: the href resolved against the page, or the page itself. */
  function LinkOf(baseUrl: string, href: Option<string>, join: Joiner): Option<string> {
    match href
    case None => Some(baseUrl)
    case Some(h) => join(baseUrl, h)
  }

  const DateQuery := TagWithClassLike({"time", "span", "div"}, ["date", "time", "published"])

  /** `date_elem.get('datetime') or date_elem.get_text().strip()`. */
  function DateText(d: Node): string {
    if d.Elem? && "datetime" in d.attrs && d.attrs["datetime"] != "" then d.attrs["datetime"]
    else Strip(GetText(d))
  }

  function PostDate(element: Node): Option<DateTime> {
    match FindFirst(element, DateQuery)
    case None => None
    case Some(d) => ParsedDate(DateText(d))
  }

  const SummaryQuery := TagWithClassLike({"p", "div"}, ["summary", "excerpt", "description"])

  /** The summary element: a p/div whose class mentions a summary, else the first paragraph. */
  function SummaryElem(element: Node): Option<Node> {
    var s := FindFirst(element, SummaryQuery);
    if s.Some? then s else FindFirst(element, TagIn({"p"}))
  }

  /** The first 200 characters of the stripped text followed by "...", or the sentinel. */
  function SummaryText(summaryElem: Option<Node>): string {
    match summaryElem
    case None => NoSummary
    case Some(s) => Take(Strip(GetText(s)), 200) + "..."
  }

  /** What `_extract_post_info(element, base_url, company)` returns. */
  function Extraction(element: Node, baseUrl: string, company: string, join: Joiner, stamp: string): Option<Post> {
    var titleElem := TitleElem(element);
    var link := LinkOf(baseUrl, Href(LinkElem(element, titleElem)), join);
    if link.None? then None
    else Some(Post(TitleText(titleElem), link.value, PostDate(element),
                   SummaryText(SummaryElem(element)), company, stamp))
  }

  /** The title loop of `_extract_post_info`: the searches in order, stopping
      at the first element with text, ending with the last search's result. */
  method FindTitleElem(element: Node) returns (titleElem: Option<Node>)
    ensures titleElem == TitleElem(element)
  {
    titleElem := None;
    var i := 0;
    while i < |TitleStrategies|
      invariant 0 <= i <= |TitleStrategies|
      invariant i < |TitleStrategies| ==> TitleElemFrom(element, i) == TitleElem(element)
      invariant i == |TitleStrategies| ==> titleElem == TitleElem(element)
    {
      titleElem := Found(element, i);
      if Usable(titleElem) {
        break;
      }
      i := i + 1;
    }
  }

  /** `_extract_post_info`; the date goes through `_parse_date`. */
  method ExtractPostInfo(element: Node, baseUrl: string, company: string, join: Joiner, stamp: string)
    returns (post: Option<Post>)
    ensures post == Extraction(element, baseUrl, company, join, stamp)
  {
    var titleElem := FindTitleElem(element);
    var title := TitleText(titleElem);

    var linkElem: Option<Node>;
    if titleElem.Some? && titleElem.value.Elem? && titleElem.value.tag == "a" {
      linkElem := titleElem;
    } else {
      linkElem := FindFirst(element, AnchorWithHref);
    }
    var link: string;
    if linkElem.Some? && linkElem.value.Elem? && "href" in linkElem.value.attrs
       && linkElem.value.attrs["href"] != "" {
      var joined := join(baseUrl, linkElem.value.attrs["href"]);
      if joined.None? {
        return None;
      }
      link := joined.value;
    } else {
      link := baseUrl;
    }

    var dateElem := FindFirst(element, DateQuery);
    var date: Option<DateTime> := None;
    if dateElem.Some? {
      date := ParseDate(DateText(dateElem.value));
    }

    assert LinkOf(baseUrl, Href(linkElem), join) == Some(link);
    var summary := SummaryText(SummaryElem(element));
    return Some(Post(title, link, date, summary, company, stamp));
  }

  // ------------------------------------------------------------------ title

  lemma {:induction false} TitleElemFromChoice(element: Node, k: nat, i: nat)
    requires k <= i < |TitleStrategies|
    requires forall j :: k <= j < i ==> !Usable(Found(element, j))
    ensures Usable(Found(element, i)) || i == |TitleStrategies| - 1 ==> TitleElemFrom(element, k) == Found(element, i)
    decreases i - k
  {
    if k < i {
      TitleElemFromStep(element, k);
      TitleElemFromChoice(element, k + 1, i);
    }
  }

  /** A search without usable result passes the choice to the next search. */
  lemma TitleElemFromStep(element: Node, k: nat)
    requires k < |TitleStrategies| - 1 && !Usable(Found(element, k))
    ensures TitleElemFrom(element, k) == TitleElemFrom(element, k + 1)
  {
  }

  /** The title element is the result of the first search that finds an element
      with text; when no search does, it is whatever the last search found. */
  lemma TitleSelection(element: Node)
    ensures forall i :: 0 <= i < |TitleStrategies| && Usable(Found(element, i))
              && (forall j :: 0 <= j < i ==> !Usable(Found(element, j)))
              ==> TitleElem(element) == Found(element, i)
    ensures (forall j :: 0 <= j < |TitleStrategies| ==> !Usable(Found(element, j)))
              ==> TitleElem(element) == Found(element, |TitleStrategies| - 1)
  {
    forall i | 0 <= i < |TitleStrategies| && Usable(Found(element, i))
               && (forall j :: 0 <= j < i ==> !Usable(Found(element, j)))
      ensures TitleElem(element) == Found(element, i)
    {
      TitleElemFromChoice(element, 0, i);
    }
    if forall j :: 0 <= j < |TitleStrategies| ==> !Usable(Found(element, j)) {
      TitleElemFromChoice(element, 0, |TitleStrategies| - 1);
    }
  }

  /** The title has no whitespace at its ends and no run of two whitespace
      characters; it is the sentinel when no title element exists, and otherwise
      has the element's non-whitespace characters, so it is empty exactly when the
      element's text is blank. */
  lemma TitleShape(titleElem: Option<Node>)
    ensures Collapsed(TitleText(titleElem))
    ensures titleElem.None? ==> TitleText(titleElem) == NoTitle
    ensures titleElem.Some? ==> NonSpace(TitleText(titleElem)) == NonSpace(GetText(titleElem.value))
    ensures titleElem.Some? ==> (TitleText(titleElem) == [] <==> !HasText(titleElem.value))
  {
    match titleElem
    case None =>
      assert Collapsed(NoTitle) by {
        assert NoTitle[0] == 'N' && NoTitle[|NoTitle| - 1] == 'd';
        assert forall i :: 0 <= i < |NoTitle| && IsSpace(NoTitle[i]) ==> NoTitle[i] == ' ';
        assert forall i, j :: 0 <= i && j == i + 1 && j < |NoTitle| ==> !(IsSpace(NoTitle[i]) && IsSpace(NoTitle[j]));
      }
    case Some(t) =>
      var text := Strip(GetText(t));
      StripKeepsShape(GetText(t));
      NonSpaceOfTrimmed(text);
      NonSpaceOfTrimmed(Collapse(text));
  }

  // ------------------------------------------------------------------- link

  /** The link comes from the title element whenever that is an anchor: its href
      resolved against the page, or the page itself when it has none, even if
      other anchors carry hrefs. */
  lemma TitleAnchorLink(element: Node, baseUrl: string, company: string, join: Joiner, stamp: string)
    requires TitleElem(element).Some? && TitleElem(element).value.Elem? && TitleElem(element).value.tag == "a"
    ensures var a := TitleElem(element).value;
      var post := Extraction(element, baseUrl, company, join, stamp);
      if "href" in a.attrs && a.attrs["href"] != "" then
        && (post.Some? <==> join(baseUrl, a.attrs["href"]).Some?)
        && (post.Some? ==> post.value.url == join(baseUrl, a.attrs["href"]).value)
      else post.Some? && post.value.url == baseUrl
  {
  }

  /** When the title element is not an anchor, the link comes from the first
      anchor that has an `href` attribute: its href resolved against the page,
      or the page itself when that href is empty, even if later anchors carry
      non-empty hrefs; with no such anchor it is the page. */
  lemma NonAnchorTitleLink(element: Node, baseUrl: string, company: string, join: Joiner, stamp: string)
    ensures var t := TitleElem(element);
      var a := FindFirst(element, AnchorWithHref);
      var post := Extraction(element, baseUrl, company, join, stamp);
      !(t.Some? && t.value.Elem? && t.value.tag == "a") ==>
      if a.Some? && a.value.attrs["href"] != "" then
        && (post.Some? <==> join(baseUrl, a.value.attrs["href"]).Some?)
        && (post.Some? ==> post.value.url == join(baseUrl, a.value.attrs["href"]).value)
      else post.Some? && post.value.url == baseUrl
  {
  }

  /** An element with no anchor carrying a non-empty href links to the page itself. */
  lemma NoHrefLinksPage(element: Node, baseUrl: string, company: string, join: Joiner, stamp: string)
    requires forall n :: n in Descendants(element) && n.Elem? && n.tag == "a" && "href" in n.attrs
               ==> n.attrs["href"] == ""
    ensures Extraction(element, baseUrl, company, join, stamp).Some?
    ensures Extraction(element, baseUrl, company, join, stamp).value.url == baseUrl
  {
    var t := TitleElem(element);
    TitleIsFound(element, 0);
    var l := LinkElem(element, t);
    assert l.Some? ==> l.value in Descendants(element);
  }

  lemma {:induction false} TitleIsFound(element: Node, i: nat)
    requires i < |TitleStrategies|
    ensures TitleElemFrom(element, i).Some? ==> TitleElemFrom(element, i).value in Descendants(element)
    decreases |TitleStrategies| - i
  {
    if !(Usable(Found(element, i)) || i == |TitleStrategies| - 1) {
      TitleIsFound(element, i + 1);
    }
  }

  /** Missing fields never make the extraction fail: it returns `None` only
      when `urljoin` raises, and with `urljoin` defined on the page's links it
      always returns a post. */
  lemma ExtractionFailsOnlyInJoin(element: Node, baseUrl: string, company: string, join: Joiner, stamp: string)
    ensures Extraction(element, baseUrl, company, join, stamp).None?
        <==> exists h :: Href(LinkElem(element, TitleElem(element))) == Some(h) && join(baseUrl, h).None?
    ensures (forall h :: join(baseUrl, h).Some?) ==> Extraction(element, baseUrl, company, join, stamp).Some?
  {
    var href := Href(LinkElem(element, TitleElem(element)));
    if Extraction(element, baseUrl, company, join, stamp).None? {
      assert href == Some(href.value) && join(baseUrl, href.value).None?;
    }
  }

  // ------------------------------------------------------------ date, summary

  /** A post's date is absent when there is no date element, is read from a
      non-empty `datetime` attribute in preference to the text, falls back to
      the element's stripped text when that attribute is missing or empty, and
      is always a real calendar date. */
  lemma DateRule(element: Node)
    ensures FindFirst(element, DateQuery).None? ==> PostDate(element) == None
    ensures var d := FindFirst(element, DateQuery);
      d.Some? && "datetime" in d.value.attrs && d.value.attrs["datetime"] != ""
      ==> PostDate(element) == ParsedDate(d.value.attrs["datetime"])
    ensures var d := FindFirst(element, DateQuery);
      d.Some? && !("datetime" in d.value.attrs && d.value.attrs["datetime"] != "")
      ==> PostDate(element) == ParsedDate(Strip(GetText(d.value)))
    ensures PostDate(element).Some? ==> ValidParsedDate(PostDate(element).value)
  {
    var d := FindFirst(element, DateQuery);
    if d.Some? {
      ParsedDateIsValid(DateText(d.value));
    }
  }

  /** With a summary element the summary is at most 203 characters, ends with
      "...", and before that is the start of the element's stripped text; the
      whole stripped text when it has at most 200 characters, and exactly 200 of
      them otherwise. Without one it is the sentinel. */
  lemma SummaryShape(summaryElem: Option<Node>)
    ensures summaryElem.None? ==> SummaryText(summaryElem) == NoSummary
    ensures summaryElem.Some? ==>
      var s := SummaryText(summaryElem);
      var text := Strip(GetText(summaryElem.value));
      && 3 <= |s| <= 203
      && s[|s| - 3..] == "..."
      && s[..|s| - 3] <= text
      && (|text| <= 200 ==> s == text + "...")
      && (|text| > 200 ==> |s| == 203)
  {
    if summaryElem.Some? {
      var text := Strip(GetText(summaryElem.value));
      var cut := Take(text, 200);
      var s := cut + "...";
      assert s[..|s| - 3] == cut;
      assert s[|s| - 3..] == "...";
    }
  }

  /** The summary element is the first p or div whose class mentions a summary
      when there is one, and otherwise the first paragraph of the element. */
  lemma SummarySource(element: Node)
    ensures FindFirst(element, SummaryQuery).Some? ==> SummaryElem(element) == FindFirst(element, SummaryQuery)
    ensures var s := SummaryElem(element);
      s.Some? ==> s.value in Descendants(element) && s.value.Elem? && s.value.tag in {"p", "div"}
    ensures var s := SummaryElem(element);
      s.Some? && s.value.tag == "div" ==> Matches(SummaryQuery, s.value)
    ensures FindFirst(element, SummaryQuery).None? ==> SummaryElem(element) == FindFirst(element, TagIn({"p"}))
  {
  }

  /** An element that holds only text (no child elements) still yields a post:
      sentinel title, the page as link, no date, sentinel summary. */
  lemma TextOnlyElement(element: Node, baseUrl: string, company: string, join: Joiner, stamp: string)
    requires forall n :: n in Descendants(element) ==> n.Text?
    ensures Extraction(element, baseUrl, company, join, stamp)
         == Some(Post(NoTitle, baseUrl, None, NoSummary, company, stamp))
  {
    forall q: Query ensures FindFirst(element, q) == None {
    }
    forall j | 0 <= j < |TitleStrategies| ensures !Usable(Found(element, j)) {
      assert Found(element, j) == FindFirst(element, TitleStrategies[j]);
    }
    TitleSelection(element);
    assert TitleElem(element) == None by {
      assert Found(element, |TitleStrategies| - 1) == FindFirst(element, TitleStrategies[3]);
    }
    assert LinkElem(element, None) == None by {
      assert FindFirst(element, AnchorWithHref) == None;
    }
    assert PostDate(element) == None by {
      assert FindFirst(element, DateQuery) == None;
    }
    assert SummaryElem(element) == None by {
      assert FindFirst(element, SummaryQuery) == None;
      assert FindFirst(element, TagIn({"p"})) == None;
    }
  }
}
