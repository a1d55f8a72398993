/**
 * `_parse_generic_blog`: the listing page of one site becomes its recent posts.
 *
 * Seven selectors are tried in order and the first one that matches anything
 * supplies the candidates, at most 15 of them; only when all seven match
 * nothing are up to 10 `div`s taken instead, each wrapping a single string
 * with some character other than a newline. Each candidate is extracted, and the post is kept when its title
 * is longer than 10 characters and its date passes the cutoff. The company
 * label on every post is the page's host with each "www." removed, title-cased.
 */
module Scanner {
  import opened Maybe
  import opened Strings
  import opened Html
  import opened Dates
  import opened Extract

  /** The candidate selectors, in the order they are tried. */
  const Selectors: seq<Query> := [
    TagIn({"article"}),     // 'article'
    ClassHas("post"),       // '[class*="post"]'
    ClassHas("article"),    // '[class*="article"]'
    ClassHas("story"),      // '[class*="story"]'
    ClassHas("entry"),      // '[class*="entry"]'
    ClassHas("item"),       // '[class*="item"]'
    ClassHas("card")        // '[class*="card"]'
  ]

  const SelectorCap := 15
  const FallbackCap := 10

  /** `soup.select(selectors[k])`. */
  function Hits(doc: Node, k: nat): seq<Node>
    requires k < |Selectors|
  {
    SelectAll(doc, Selectors[k])
  }

  /** The candidates when the selectors before `k` matched nothing. */
  function CandidatesFrom(doc: Node, k: nat): seq<Node>
    requires k <= |Selectors|
    decreases |Selectors| - k
  {
    if k == |Selectors| then Take(SelectAll(doc, DivWithText), FallbackCap)
    else if Hits(doc, k) != [] then Take(Hits(doc, k), SelectorCap)
    else CandidatesFrom(doc, k + 1)
  }

  /** `post_elements` once selection is over. */
  function Candidates(doc: Node): seq<Node> {
    CandidatesFrom(doc, 0)
  }

  /** `urlparse(base_url).netloc.replace('www.', '').title()`, given the netloc. */
  function CompanyLabel(netloc: string): string {
    Title(RemoveAll(netloc, "www."))
  }

  /** The noise and recency filter applied to an extraction. */
  predicate Keeps(post: Option<Post>, cutoff: DateTime) {
    post.Some? && |post.value.title| > 10 && IsRecent(post.value.date, cutoff)
  }

  /** The extraction of every candidate, in candidate order. */
  function Extractions(cands: seq<Node>, baseUrl: string, company: string, join: Joiner, stamp: string)
    : (r: seq<Option<Post>>)
    ensures |r| == |cands|
    ensures forall i :: 0 <= i < |cands| ==> r[i] == Extraction(cands[i], baseUrl, company, join, stamp)
  {
    seq(|cands|, i requires 0 <= i < |cands| => Extraction(cands[i], baseUrl, company, join, stamp))
  }

  /** The posts among `outcomes` that the filter keeps, in order. */
  function KeepFilter(outcomes: seq<Option<Post>>, cutoff: DateTime): seq<Post>
    decreases |outcomes|
  {
    if outcomes == [] then []
    else
      var last := outcomes[|outcomes| - 1];
      KeepFilter(outcomes[..|outcomes| - 1], cutoff) + (if Keeps(last, cutoff) then [last.value] else [])
  }

  /** The posts kept from `cands`, in candidate order. */
  function KeptPosts(cands: seq<Node>, baseUrl: string, company: string, cutoff: DateTime,
                     join: Joiner, stamp: string): seq<Post>
  {
    KeepFilter(Extractions(cands, baseUrl, company, join, stamp), cutoff)
  }

  /** What `_parse_generic_blog(html, base_url, cutoff)` returns for the parsed page
      `doc`; `netloc` is `None` where `urlparse` raises, which yields no posts. */
  function Scan(doc: Node, baseUrl: string, netloc: Option<string>, cutoff: DateTime,
                join: Joiner, stamp: string): seq<Post>
  {
    match netloc
    case None => []
    case Some(n) => KeptPosts(Candidates(doc), baseUrl, CompanyLabel(n), cutoff, join, stamp)
  }

  /** The selector loop of `_parse_generic_blog` with its `break`, then the fallback. */
  method SelectCandidates(doc: Node) returns (postElements: seq<Node>)
    ensures postElements == Candidates(doc)
  {
    postElements := [];
    var k := 0;
    while k < |Selectors|
      invariant 0 <= k <= |Selectors|
      invariant postElements == []
      invariant CandidatesFrom(doc, k) == Candidates(doc)
    {
      var elements := Hits(doc, k);
      if elements != [] {
        postElements := Take(elements, SelectorCap);
        break;
      }
      k := k + 1;
    }
    if postElements == [] {
      postElements := Take(SelectAll(doc, DivWithText), FallbackCap);
    }
  }

  /** `_parse_generic_blog`: the candidates, then the loop that appends the posts it keeps. */
  method ParseGenericBlog(doc: Node, baseUrl: string, netloc: Option<string>, cutoff: DateTime,
                          join: Joiner, stamp: string) returns (posts: seq<Post>)
    ensures posts == Scan(doc, baseUrl, netloc, cutoff, join, stamp)
  {
    posts := [];
    if netloc.None? {
      return;
    }
    var company := Title(RemoveAll(netloc.value, "www."));
    var postElements := SelectCandidates(doc);
    ghost var outcomes := Extractions(postElements, baseUrl, company, join, stamp);

    for i := 0 to |postElements|
      invariant posts == KeepFilter(outcomes[..i], cutoff)
    {
      assert outcomes[..i + 1][..i] == outcomes[..i];
      var post := ExtractPostInfo(postElements[i], baseUrl, company, join, stamp);
      assert post == outcomes[i];
      if post.Some? && |post.value.title| > 10 {
        if IsRecent(post.value.date, cutoff) {
          posts := posts + [post.value];
        }
      }
    }
    assert outcomes[..|postElements|] == outcomes;
  }

  // ------------------------------------------------------------- selection

  lemma {:induction false} CandidatesFromChoice(doc: Node, k: nat)
    requires k <= |Selectors|
    ensures forall i :: k <= i < |Selectors| && Hits(doc, i) != []
              && (forall j :: k <= j < i ==> Hits(doc, j) == [])
              ==> CandidatesFrom(doc, k) == Take(Hits(doc, i), SelectorCap)
    ensures (forall j :: k <= j < |Selectors| ==> Hits(doc, j) == [])
              ==> CandidatesFrom(doc, k) == Take(SelectAll(doc, DivWithText), FallbackCap)
    decreases |Selectors| - k
  {
    if k < |Selectors| {
      if Hits(doc, k) == [] {
        CandidatesFromChoice(doc, k + 1);
        assert CandidatesFrom(doc, k) == CandidatesFrom(doc, k + 1);
        forall i | k <= i < |Selectors| && Hits(doc, i) != []
                   && (forall j :: k <= j < i ==> Hits(doc, j) == [])
          ensures CandidatesFrom(doc, k) == Take(Hits(doc, i), SelectorCap)
        {
          assert k < i;
        }
      } else {
        forall i | k <= i < |Selectors| && Hits(doc, i) != []
                   && (forall j :: k <= j < i ==> Hits(doc, j) == [])
          ensures CandidatesFrom(doc, k) == Take(Hits(doc, i), SelectorCap)
        {
          assert i == k;
        }
      }
    }
  }

  lemma {:induction false} CandidatesFromBounds(doc: Node, k: nat)
    requires k <= |Selectors|
    ensures |CandidatesFrom(doc, k)| <= SelectorCap
    ensures forall c :: c in CandidatesFrom(doc, k) ==> c in Descendants(doc)
    decreases |Selectors| - k
  {
    if k < |Selectors| && Hits(doc, k) == [] {
      CandidatesFromBounds(doc, k + 1);
    } else {
      var from := if k == |Selectors| then SelectAll(doc, DivWithText) else Hits(doc, k);
      assert forall c :: c in from ==> c in Descendants(doc);
    }
  }

  /** The first selector that matches anything supplies the candidates, its first
      15 matches in document order; only when none matches are the first 10
      single-string divs used. There are never more than 15 candidates, and all
      of them are elements of the page. */
  lemma CandidateSelection(doc: Node)
    ensures |Candidates(doc)| <= SelectorCap
    ensures forall c :: c in Candidates(doc) ==> c in Descendants(doc)
    ensures forall i :: 0 <= i < |Selectors| && Hits(doc, i) != []
              && (forall j :: 0 <= j < i ==> Hits(doc, j) == [])
              ==> Candidates(doc) == Take(Hits(doc, i), SelectorCap)
    ensures (forall j :: 0 <= j < |Selectors| ==> Hits(doc, j) == [])
              ==> (Candidates(doc) == Take(SelectAll(doc, DivWithText), FallbackCap)
                   && |Candidates(doc)| <= FallbackCap)
  {
    CandidatesFromChoice(doc, 0);
    CandidatesFromBounds(doc, 0);
  }

  // ------------------------------------------------------------- filtering

  /** Every kept post passed the filter; there are no more posts than outcomes. */
  lemma {:induction false} KeepFilterFacts(outcomes: seq<Option<Post>>, cutoff: DateTime)
    ensures var out := KeepFilter(outcomes, cutoff);
      && |out| <= |outcomes|
      && forall p :: p in out ==> |p.title| > 10 && IsRecent(p.date, cutoff) && Some(p) in outcomes
    decreases |outcomes|
  {
    if outcomes != [] {
      var init := outcomes[..|outcomes| - 1];
      KeepFilterFacts(init, cutoff);
      assert forall o :: o in init ==> o in outcomes;
    }
  }

  /** The positions of the outcomes that pass the filter, in increasing order. */
  function Passing(outcomes: seq<Option<Post>>, cutoff: DateTime): seq<nat>
    decreases |outcomes|
  {
    if outcomes == [] then []
    else
      var n := |outcomes| - 1;
      Passing(outcomes[..n], cutoff) + (if Keeps(outcomes[n], cutoff) then [n] else [])
  }

  /** `Passing` lists every passing position and nothing else, increasing. */
  lemma {:induction false} PassingMembers(outcomes: seq<Option<Post>>, cutoff: DateTime)
    ensures var idx := Passing(outcomes, cutoff);
      && (forall i :: 0 <= i < |idx| ==> idx[i] < |outcomes|)
      && (forall i, j :: 0 <= i < j < |idx| ==> idx[i] < idx[j])
      && (forall j :: 0 <= j < |outcomes| ==> (j in idx <==> Keeps(outcomes[j], cutoff)))
    decreases |outcomes|
  {
    if outcomes != [] {
      var n := |outcomes| - 1;
      var init := outcomes[..n];
      PassingMembers(init, cutoff);
      var prev := Passing(init, cutoff);
      forall j | 0 <= j < |outcomes|
        ensures j in Passing(outcomes, cutoff) <==> Keeps(outcomes[j], cutoff)
      {
        if j < n {
          assert outcomes[j] == init[j];
        } else {
          assert n !in prev;
        }
      }
    }
  }

  /** The kept posts are the passing outcomes, position by position. */
  lemma {:induction false} KeepFilterAtPassing(outcomes: seq<Option<Post>>, cutoff: DateTime)
    ensures var idx := Passing(outcomes, cutoff);
      var out := KeepFilter(outcomes, cutoff);
      && |idx| == |out|
      && (forall i :: 0 <= i < |idx| ==> idx[i] < |outcomes| && outcomes[idx[i]] == Some(out[i]))
    decreases |outcomes|
  {
    if outcomes != [] {
      var n := |outcomes| - 1;
      var init := outcomes[..n];
      KeepFilterAtPassing(init, cutoff);
      var prev := Passing(init, cutoff);
      var before := KeepFilter(init, cutoff);
      var idx := Passing(outcomes, cutoff);
      var out := KeepFilter(outcomes, cutoff);
      forall i | 0 <= i < |idx|
        ensures idx[i] < |outcomes| && outcomes[idx[i]] == Some(out[i])
      {
        if i < |prev| {
          assert idx[i] == prev[i] && out[i] == before[i];
          assert outcomes[prev[i]] == init[prev[i]];
        }
      }
    }
  }

  /** The filter keeps exactly the outcomes that pass it, in order: `idx` lists
      their positions, increasing. */
  lemma KeepFilterIndices(outcomes: seq<Option<Post>>, cutoff: DateTime)
    returns (idx: seq<nat>)
    ensures var out := KeepFilter(outcomes, cutoff);
      && |idx| == |out|
      && (forall i :: 0 <= i < |idx| ==> idx[i] < |outcomes| && outcomes[idx[i]] == Some(out[i]))
      && (forall i, j :: 0 <= i < j < |idx| ==> idx[i] < idx[j])
      && (forall j :: 0 <= j < |outcomes| ==> (j in idx <==> Keeps(outcomes[j], cutoff)))
  {
    idx := Passing(outcomes, cutoff);
    PassingMembers(outcomes, cutoff);
    KeepFilterAtPassing(outcomes, cutoff);
  }

  /** The kept posts are the extractions of exactly the candidates that pass the
      filter, in candidate order, each carrying the company label. */
  lemma KeptIndices(cands: seq<Node>, baseUrl: string, company: string,
                    cutoff: DateTime, join: Joiner, stamp: string)
    returns (idx: seq<nat>)
    ensures var out := KeptPosts(cands, baseUrl, company, cutoff, join, stamp);
      && |idx| == |out| && |out| <= |cands|
      && (forall i :: 0 <= i < |idx| ==>
            idx[i] < |cands| && Extraction(cands[idx[i]], baseUrl, company, join, stamp) == Some(out[i]))
      && (forall i, j :: 0 <= i < j < |idx| ==> idx[i] < idx[j])
      && (forall j :: 0 <= j < |cands| ==>
            (j in idx <==> Keeps(Extraction(cands[j], baseUrl, company, join, stamp), cutoff)))
      && (forall p :: p in out ==> |p.title| > 10 && IsRecent(p.date, cutoff) && p.company == company)
  {
    var outcomes := Extractions(cands, baseUrl, company, join, stamp);
    idx := KeepFilterIndices(outcomes, cutoff);
    KeepFilterFacts(outcomes, cutoff);
    forall p | p in KeptPosts(cands, baseUrl, company, cutoff, join, stamp)
      ensures p.company == company
    {
      var j :| 0 <= j < |outcomes| && outcomes[j] == Some(p);
      ExtractionCompany(cands[j], baseUrl, company, join, stamp);
    }
  }

  lemma ExtractionCompany(c: Node, baseUrl: string, company: string, join: Joiner, stamp: string)
    ensures Extraction(c, baseUrl, company, join, stamp).Some? ==>
            Extraction(c, baseUrl, company, join, stamp).value.company == company
  {
  }

  /** A candidate whose extraction passes the filter gives a post. */
  lemma KeptPostsComplete(cands: seq<Node>, baseUrl: string, company: string,
                          cutoff: DateTime, join: Joiner, stamp: string, c: Node)
    requires c in cands
    requires Keeps(Extraction(c, baseUrl, company, join, stamp), cutoff)
    ensures Extraction(c, baseUrl, company, join, stamp).value in KeptPosts(cands, baseUrl, company, cutoff, join, stamp)
  {
    var idx := KeptIndices(cands, baseUrl, company, cutoff, join, stamp);
    var j :| 0 <= j < |cands| && cands[j] == c;
    assert j in idx;
    var i :| 0 <= i < |idx| && idx[i] == j;
  }

  /** A page yields at most 15 posts, at most 10 through the fallback, and none
      when its address cannot be parsed. */
  lemma ScanBounds(doc: Node, baseUrl: string, netloc: Option<string>, cutoff: DateTime,
                   join: Joiner, stamp: string)
    ensures |Scan(doc, baseUrl, netloc, cutoff, join, stamp)| <= SelectorCap
    ensures (forall j :: 0 <= j < |Selectors| ==> Hits(doc, j) == [])
              ==> |Scan(doc, baseUrl, netloc, cutoff, join, stamp)| <= FallbackCap
    ensures netloc.None? ==> Scan(doc, baseUrl, netloc, cutoff, join, stamp) == []
  {
    CandidateSelection(doc);
    if netloc.Some? {
      var cands := Candidates(doc);
      KeepFilterFacts(Extractions(cands, baseUrl, CompanyLabel(netloc.value), join, stamp), cutoff);
    }
  }

  /** The title sentinel is not noise to the filter: a candidate holding only
      text (such as a fallback div wrapping one string) is kept, whatever the cutoff,
      as a post titled "No title found". */
  lemma TextOnlyCandidateKept(c: Node, baseUrl: string, company: string, cutoff: DateTime,
                              join: Joiner, stamp: string)
    requires forall n :: n in Descendants(c) ==> n.Text?
    ensures Keeps(Extraction(c, baseUrl, company, join, stamp), cutoff)
    ensures Extraction(c, baseUrl, company, join, stamp).value.title == NoTitle
  {
    TextOnlyElement(c, baseUrl, company, join, stamp);
  }

  // ------------------------------------------------------------ company label

  /** The label of a configured host with "www.": the prefix goes and each
      dot-separated part is capitalised. */
  lemma VergeLabel(host: string)
    requires host == "www.theverge.com"
    ensures CompanyLabel(host) == "Theverge.Com"
  {
    var rest := host[4..];
    assert host == "www." + rest && rest == "theverge.com";
    VergeHostPart(rest);
    LabelOfWww(host, rest);
  }

  lemma VergeHostPart(rest: string)
    requires rest == "theverge.com"
    ensures !Contains(rest, "www.") && Title(rest) == "Theverge.Com"
  {
    assert !Contains(rest, "www.") by {
      NotContainsWithoutHead(rest, "www.");
    }
    assert Title(rest) == "Theverge.Com" by {
      assert rest == "theverge" + "." + "com";
      TitleOfDotted("theverge", "com");
    }
  }

  /** The label of a configured host without "www.". */
  lemma CrunchLabel(host: string)
    requires host == "techcrunch.com"
    ensures CompanyLabel(host) == "Techcrunch.Com"
  {
    assert !Contains(host, "www.") by {
      NotContainsWithoutHead(host, "www.");
    }
    assert Title(host) == "Techcrunch.Com" by {
      assert host == "techcrunch" + "." + "com";
      TitleOfDotted("techcrunch", "com");
    }
  }

  /** A host of the form "www." + rest, where rest has no further "www.", is labelled by rest. */
  lemma LabelOfWww(netloc: string, rest: string)
    requires netloc == "www." + rest && !Contains(rest, "www.")
    ensures CompanyLabel(netloc) == Title(rest)
  {
    RemoveAllLeftmost(netloc, "www.", [], rest);
    assert [] + "www." + rest == netloc;
  }

  /** The label differs from the host with "www." removed only in letter case, is
      already title-cased, and is no longer than the host. */
  lemma CompanyLabelRule(netloc: string)
    ensures LowerAll(CompanyLabel(netloc)) == LowerAll(RemoveAll(netloc, "www."))
    ensures Title(CompanyLabel(netloc)) == CompanyLabel(netloc)
    ensures |CompanyLabel(netloc)| <= |netloc|
    ensures !Contains(netloc, "www.") ==> CompanyLabel(netloc) == Title(netloc)
  {
    TitleKeepsLetters(RemoveAll(netloc, "www."));
    TitleIdempotent(RemoveAll(netloc, "www."));
  }
}
