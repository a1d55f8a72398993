/**
 * `ReportGenerator._build_report_content`: the markdown report as a list of
 * lines joined with newlines. A fixed header with the generation time and the
 * two counts, then one section per company in mapping order, then a fixed
 * footer. A company without posts gets a single placeholder line; each post
 * gets a `###` heading, optional date and link lines, a summary line and a
 * blank line.
 *
 * The generation time is the already formatted `strftime` text.
 */
module Report {
  import opened Maybe
  import opened Strings
  import opened Dates
  import opened Extract

  /** A post dictionary as the report reads it: a missing `title` key is `None`;
      a missing or empty `url` or `summary` is "" and a missing date `None`. */
  datatype Entry = Entry(title: Option<string>, date: Option<DateTime>, url: string, summary: string)

  /** The dictionary the scraper builds for a post, as the report sees it. */
  function EntryOf(p: Post): Entry {
    Entry(Some(p.title), p.date, p.url, p.summary)
  }

  const Heading := "# AI Competitive Intelligence Report"
  const SummaryHeading := "## Summary"
  const SectionPrefix := "## "
  const TitlePrefix := "### "
  const DatePrefix := "**Date:** "
  const LinkPrefix := "**Link:** "
  const SummaryPrefix := "**Summary:** "
  const SummaryPlaceholder := "*No summary available*"
  const NoPosts := "*No recent posts found.*"
  const FooterRule := "---"
  /** Written as two literals: the verifier reads the characters of the shorter
      first part directly, which the line-kind lemmas need. */
  const FooterNote := "*Report generated automatically by " + "AI Competitive Intelligence Scraper*"

  /** `'%0{width}d' % n`: the sign counts towards the width. */
  function Pad(n: int, width: nat): string {
    if n < 0 then "-" + ZeroPad(-n, if width == 0 then 0 else width - 1) else ZeroPad(n, width)
  }

  /** `str(d)` for a `datetime`: `YYYY-MM-DD HH:MM:SS`, then `.ffffff` when there
      are microseconds. */
  function DateTimeText(d: DateTime): string {
    Pad(d.year, 4) + "-" + Pad(d.month, 2) + "-" + Pad(d.day, 2) + " "
      + Pad(d.hour, 2) + ":" + Pad(d.minute, 2) + ":" + Pad(d.second, 2)
      + (if d.microsecond != 0 then "." + Pad(d.microsecond, 6) else "")
  }

  function TitleLine(e: Entry): string {
    TitlePrefix + (match e.title case Some(t) => t case None => "Untitled")
  }

  function DateLines(e: Entry): seq<string> {
    if e.date.Some? then [DatePrefix + DateTimeText(e.date.value)] else []
  }

  function LinkLine(url: string): string {
    LinkPrefix + "[" + url + "](" + url + ")"
  }

  function LinkLines(e: Entry): seq<string> {
    if e.url != "" then [LinkLine(e.url)] else []
  }

  function SummaryLine(e: Entry): string {
    SummaryPrefix + (if e.summary != "" then e.summary else SummaryPlaceholder)
  }

  /** The lines of one post. */
  function PostLines(e: Entry): seq<string> {
    [TitleLine(e)] + DateLines(e) + LinkLines(e) + [SummaryLine(e), ""]
  }

  function PostsLines(posts: seq<Entry>): seq<string>
    decreases |posts|
  {
    if posts == [] then []
    else PostsLines(posts[..|posts| - 1]) + PostLines(posts[|posts| - 1])
  }

  function RecentLine(posts: seq<Entry>): string {
    "**Recent posts (" + NatToString(|posts|) + "):**"
  }

  function SectionLine(name: string): string {
    SectionPrefix + name
  }

  /** What follows a company's heading. */
  function CompanyBody(posts: seq<Entry>): seq<string> {
    if posts == [] then [NoPosts, ""] else [RecentLine(posts), ""] + PostsLines(posts)
  }

  /** The section of one company. */
  function CompanyLines(name: string, posts: seq<Entry>): seq<string> {
    [SectionLine(name), ""] + CompanyBody(posts)
  }

  function Sections(data: seq<(string, seq<Entry>)>): seq<string>
    decreases |data|
  {
    if data == [] then []
    else
      var n := |data| - 1;
      Sections(data[..n]) + CompanyLines(data[n].0, data[n].1)
  }

  /** `sum(len(posts) for posts in scraped_data.values())`. */
  function TotalPosts(data: seq<(string, seq<Entry>)>): nat
    decreases |data|
  {
    if data == [] then 0 else TotalPosts(data[..|data| - 1]) + |data[|data| - 1].1|
  }

  function TotalLine(data: seq<(string, seq<Entry>)>): string {
    "- **Total posts analyzed:** " + NatToString(TotalPosts(data))
  }

  function CompaniesLine(data: seq<(string, seq<Entry>)>): string {
    "- **Companies monitored:** " + NatToString(|data|)
  }

  function GeneratedLine(generatedOn: string): string {
    "**Generated on:** " + generatedOn
  }

  function HeaderLines(data: seq<(string, seq<Entry>)>, generatedOn: string): seq<string> {
    [Heading, GeneratedLine(generatedOn), ""] + [SummaryHeading] + [TotalLine(data), CompaniesLine(data), ""]
  }

  /** The `content` list once it is complete. */
  function ReportLines(data: seq<(string, seq<Entry>)>, generatedOn: string): seq<string> {
    HeaderLines(data, generatedOn) + Sections(data) + [FooterRule, FooterNote]
  }

  /** `"\n".join(lines)`. */
  function JoinLines(lines: seq<string>): string
    decreases |lines|
  {
    if lines == [] then ""
    else if |lines| == 1 then lines[0]
    else lines[0] + "\n" + JoinLines(lines[1..])
  }

  /** `_build_report_content(scraped_data, date)`, with `date` already formatted. */
  method BuildReportContent(data: seq<(string, seq<Entry>)>, generatedOn: string) returns (text: string)
    ensures text == JoinLines(ReportLines(data, generatedOn))
  {
    var content: seq<string> := [];
    content := content + [Heading];
    content := content + [GeneratedLine(generatedOn)];
    content := content + [""];

    var totalPosts := TotalPosts(data);
    content := content + [SummaryHeading];
    content := content + ["- **Total posts analyzed:** " + NatToString(totalPosts)];
    content := content + [CompaniesLine(data)];
    content := content + [""];

    for i := 0 to |data|
      invariant content == HeaderLines(data, generatedOn) + Sections(data[..i])
    {
      var (company, posts) := data[i];
      content := AppendCompany(content, company, posts);
      SectionsStep(data, i);
      AppendAssoc(HeaderLines(data, generatedOn), Sections(data[..i]), CompanyLines(company, posts));
    }
    assert data[..|data|] == data;

    content := content + [FooterRule];
    content := content + [FooterNote];
    AppendAssoc(HeaderLines(data, generatedOn) + Sections(data), [FooterRule], [FooterNote]);
    assert [FooterRule] + [FooterNote] == [FooterRule, FooterNote];
    text := JoinLines(content);
  }

  /** The outer loop's body: the section of one company appended to `content`;
      the early return is the loop's `continue`. */
  method AppendCompany(content: seq<string>, company: string, posts: seq<Entry>) returns (result: seq<string>)
    ensures result == content + CompanyLines(company, posts)
  {
    result := content + [SectionLine(company)];
    result := result + [""];
    AppendAssoc(content, [SectionLine(company)], [""]);

    if posts == [] {
      result := result + [NoPosts];
      AppendAssoc(content, [SectionLine(company), ""], [NoPosts]);
      result := result + [""];
      AppendAssoc(content, [SectionLine(company), "", NoPosts], [""]);
      return;
    }

    result := result + [RecentLine(posts)];
    AppendAssoc(content, [SectionLine(company), ""], [RecentLine(posts)]);
    result := result + [""];
    AppendAssoc(content, [SectionLine(company), "", RecentLine(posts)], [""]);
    result := AppendPosts(result, posts);
    AppendAssoc(content, [SectionLine(company), "", RecentLine(posts), ""], PostsLines(posts));
  }

  /** The inner loop: the lines of every post, in order, appended to `content`. */
  method AppendPosts(content: seq<string>, posts: seq<Entry>) returns (result: seq<string>)
    ensures result == content + PostsLines(posts)
  {
    result := content;
    for j := 0 to |posts|
      invariant result == content + PostsLines(posts[..j])
    {
      assert posts[..j + 1][..j] == posts[..j];
      result := AppendPost(result, posts[j]);
      AppendAssoc(content, PostsLines(posts[..j]), PostLines(posts[j]));
    }
    assert posts[..|posts|] == posts;
  }

  /** The inner loop's body: the lines of one post appended to `content`. */
  method AppendPost(content: seq<string>, post: Entry) returns (result: seq<string>)
    ensures result == content + PostLines(post)
  {
    ghost var lines := [TitleLine(post)];
    result := content + [TitleLine(post)];
    if post.date.Some? {
      var line := DatePrefix + DateTimeText(post.date.value);
      AppendAssoc(content, lines, [line]);
      result, lines := result + [line], lines + [line];
    }
    assert lines == [TitleLine(post)] + DateLines(post);
    if post.url != "" {
      AppendAssoc(content, lines, [LinkLine(post.url)]);
      result, lines := result + [LinkLine(post.url)], lines + [LinkLine(post.url)];
    }
    assert lines == [TitleLine(post)] + DateLines(post) + LinkLines(post);
    if post.summary != "" {
      AppendAssoc(content, lines, [SummaryPrefix + post.summary]);
      result, lines := result + [SummaryPrefix + post.summary], lines + [SummaryPrefix + post.summary];
    } else {
      AppendAssoc(content, lines, [SummaryPrefix + SummaryPlaceholder]);
      result, lines := result + [SummaryPrefix + SummaryPlaceholder], lines + [SummaryPrefix + SummaryPlaceholder];
    }
    assert lines == [TitleLine(post)] + DateLines(post) + LinkLines(post) + [SummaryLine(post)];
    AppendAssoc(content, lines, [""]);
    result, lines := result + [""], lines + [""];
    assert lines == PostLines(post);
  }


  lemma SectionsStep(data: seq<(string, seq<Entry>)>, i: nat)
    requires i < |data|
    ensures Sections(data[..i + 1]) == Sections(data[..i]) + CompanyLines(data[i].0, data[i].1)
  {
    assert data[..i + 1][..i] == data[..i];
  }

  lemma AppendAssoc(a: seq<string>, b: seq<string>, c: seq<string>)
    ensures a + b + c == a + (b + c)
  {
  }

  // -------------------------------------------------------------- line shape

  /** The lines of `lines` that start with `prefix`, in order. */
  function Starting(lines: seq<string>, prefix: string): seq<string>
    decreases |lines|
  {
    if lines == [] then []
    else (if prefix <= lines[0] then [lines[0]] else []) + Starting(lines[1..], prefix)
  }

  lemma {:induction false} StartingAppend(a: seq<string>, b: seq<string>, prefix: string)
    ensures Starting(a + b, prefix) == Starting(a, prefix) + Starting(b, prefix)
    decreases |a|
  {
    if a == [] {
      assert a + b == b;
    } else {
      assert (a + b)[0] == a[0];
      assert (a + b)[1..] == a[1..] + b;
      StartingAppend(a[1..], b, prefix);
    }
  }

  lemma StartingOne(line: string, prefix: string)
    ensures Starting([line], prefix) == if prefix <= line then [line] else []
  {
    assert [line][1..] == [];
  }

  /** A line that differs from `prefix` at position `i` (or ends before it) does
      not start with `prefix`. */
  lemma Miss(prefix: string, line: string, i: nat)
    requires i < |prefix|
    requires i < |line| ==> line[i] != prefix[i]
    ensures Starting([line], prefix) == []
  {
    StartingOne(line, prefix);
    if i < |line| {
      assert line[i] != prefix[i];
    }
  }

  lemma Hit(prefix: string, rest: string)
    ensures Starting([prefix + rest], prefix) == [prefix + rest]
  {
    StartingOne(prefix + rest, prefix);
    assert (prefix + rest)[..|prefix|] == prefix;
  }

  lemma PostLinesStarting(e: Entry, prefix: string)
    ensures Starting(PostLines(e), prefix)
         == Starting([TitleLine(e)], prefix) + Starting(DateLines(e), prefix) + Starting(LinkLines(e), prefix)
            + Starting([SummaryLine(e)], prefix) + Starting([""], prefix)
  {
    var t, d, l, s := [TitleLine(e)], DateLines(e), LinkLines(e), [SummaryLine(e)];
    assert PostLines(e) == t + d + l + s + [""];
    StartingAppend(t + d + l + s, [""], prefix);
    StartingAppend(t + d + l, s, prefix);
    StartingAppend(t + d, l, prefix);
    StartingAppend(t, d, prefix);
  }

  lemma PostLinesLayout(e: Entry)
    ensures var lines := PostLines(e);
      && |lines| == 3 + (if e.date.Some? then 1 else 0) + (if e.url != "" then 1 else 0)
      && lines[0] == TitlePrefix + (if e.title.Some? then e.title.value else "Untitled")
      && lines[|lines| - 2] == SummaryPrefix + (if e.summary != "" then e.summary else SummaryPlaceholder)
      && lines[|lines| - 1] == ""
  {
  }

  /** The markers the report is searched for: `###`, `##` and the no-posts
      placeholder all open with `##` or `*N`. */
  ghost predicate Marker(prefix: string) {
    |prefix| >= 2 && ((prefix[0] == '#' && prefix[1] == '#') || (prefix[0] == '*' && prefix[1] == 'N'))
  }

  lemma Markers()
    ensures Marker(TitlePrefix) && Marker(SectionPrefix) && Marker(NoPosts)
  {
    assert NoPosts[0] == '*' && NoPosts[1] == 'N';
  }

  /** A line that starts with no marker: empty, `-…`, `# …`, or `*` not followed
      by `N`. */
  ghost predicate Plain(line: string) {
    || line == []
    || line[0] == '-'
    || (|line| >= 2 && line[0] == '#' && line[1] == ' ')
    || (|line| >= 2 && line[0] == '*' && line[1] != 'N')
  }

  lemma PlainMiss(prefix: string, line: string)
    requires Marker(prefix) && Plain(line)
    ensures Starting([line], prefix) == []
  {
    if line == [] || line[0] == '-' || (line[0] == '#') != (prefix[0] == '#') {
      Miss(prefix, line, 0);
    } else {
      Miss(prefix, line, 1);
    }
  }

  lemma {:induction false} PlainLines(lines: seq<string>, prefix: string)
    requires Marker(prefix)
    requires forall k :: 0 <= k < |lines| ==> Plain(lines[k])
    ensures Starting(lines, prefix) == []
    decreases |lines|
  {
    if lines != [] {
      StartingOne(lines[0], prefix);
      PlainMiss(prefix, lines[0]);
      PlainLines(lines[1..], prefix);
    }
  }

  lemma DateLinesUnmarked(e: Entry, prefix: string)
    requires Marker(prefix)
    ensures Starting(DateLines(e), prefix) == []
  {
    if e.date.Some? {
      BoldPlain();
      PlainAppend(DatePrefix, DateTimeText(e.date.value));
      PlainLines(DateLines(e), prefix);
    }
  }

  lemma LinkLinesUnmarked(e: Entry, prefix: string)
    requires Marker(prefix)
    ensures Starting(LinkLines(e), prefix) == []
  {
    if e.url != "" {
      BoldPlain();
      PlainAppend(LinkPrefix, "[");
      PlainAppend(LinkPrefix + "[", e.url);
      PlainAppend(LinkPrefix + "[" + e.url, "](");
      PlainAppend(LinkPrefix + "[" + e.url + "](", e.url);
      PlainAppend(LinkPrefix + "[" + e.url + "](" + e.url, ")");
      PlainLines(LinkLines(e), prefix);
    }
  }

  /** Of a post's lines only the title line can start with a marker. */
  lemma PostLinesMarked(e: Entry, prefix: string)
    requires Marker(prefix)
    ensures Starting(PostLines(e), prefix) == Starting([TitleLine(e)], prefix)
  {
    PostLinesStarting(e, prefix);
    PlainMiss(prefix, "");
    BoldPlain();
    PlainAppend(SummaryPrefix, if e.summary != "" then e.summary else SummaryPlaceholder);
    PlainMiss(prefix, SummaryLine(e));
    DateLinesUnmarked(e, prefix);
    LinkLinesUnmarked(e, prefix);
  }

  /** A `###` line is not a `##` heading or the placeholder. */
  lemma TitleLineKind(e: Entry)
    ensures Starting([TitleLine(e)], TitlePrefix) == [TitleLine(e)]
    ensures Starting([TitleLine(e)], SectionPrefix) == []
    ensures Starting([TitleLine(e)], NoPosts) == []
  {
    var title := TitleLine(e);
    Hit(TitlePrefix, title[|TitlePrefix|..]);
    assert TitlePrefix + title[|TitlePrefix|..] == title;
    assert title[0] == '#' && title[2] == '#';
    Miss(SectionPrefix, title, 2);
    Miss(NoPosts, title, 0);
  }

  lemma PostLinesTitle(e: Entry)
    ensures Starting(PostLines(e), TitlePrefix) == [TitleLine(e)]
    ensures Starting(PostLines(e), SectionPrefix) == []
    ensures Starting(PostLines(e), NoPosts) == []
  {
    Markers();
    TitleLineKind(e);
    PostLinesMarked(e, TitlePrefix);
    PostLinesMarked(e, SectionPrefix);
    PostLinesMarked(e, NoPosts);
  }

  lemma PostLinesDate(e: Entry)
    ensures Starting(PostLines(e), DatePrefix) == DateLines(e)
  {
    var title, summary := TitleLine(e), SummaryLine(e);
    PostLinesStarting(e, DatePrefix);
    assert title[0] == '#';
    Miss(DatePrefix, title, 0);
    assert summary[2] == 'S';
    Miss(DatePrefix, summary, 2);
    Miss(DatePrefix, "", 0);
    if e.date.Some? {
      Hit(DatePrefix, DateTimeText(e.date.value));
    }
    if e.url != "" {
      var line := LinkLine(e.url);
      assert line[2] == 'L';
      Miss(DatePrefix, line, 2);
    }
  }

  lemma PostLinesLink(e: Entry)
    ensures Starting(PostLines(e), LinkPrefix) == LinkLines(e)
  {
    var title, summary := TitleLine(e), SummaryLine(e);
    PostLinesStarting(e, LinkPrefix);
    assert title[0] == '#';
    Miss(LinkPrefix, title, 0);
    assert summary[2] == 'S';
    Miss(LinkPrefix, summary, 2);
    Miss(LinkPrefix, "", 0);
    if e.date.Some? {
      var line := DatePrefix + DateTimeText(e.date.value);
      assert line[2] == 'D';
      Miss(LinkPrefix, line, 2);
    }
    if e.url != "" {
      var line := LinkLine(e.url);
      Hit(LinkPrefix, line[|LinkPrefix|..]);
      assert LinkPrefix + line[|LinkPrefix|..] == line;
    }
  }

  /** A post's lines: the `###` title line first ("Untitled" only without a
      title), then the date line exactly when there is a date and the link line
      exactly when there is a url, the summary line (with its placeholder when
      the summary is empty), and a closing blank line. Exactly one of them is a
      `###` line; none is a `##` heading or the no-posts placeholder. */
  lemma PostLinesShape(e: Entry)
    ensures var lines := PostLines(e);
      && |lines| == 3 + (if e.date.Some? then 1 else 0) + (if e.url != "" then 1 else 0)
      && lines[0] == TitlePrefix + (if e.title.Some? then e.title.value else "Untitled")
      && lines[|lines| - 2] == SummaryPrefix + (if e.summary != "" then e.summary else SummaryPlaceholder)
      && lines[|lines| - 1] == ""
      && Starting(lines, DatePrefix) == (if e.date.Some? then [DatePrefix + DateTimeText(e.date.value)] else [])
      && Starting(lines, LinkPrefix) == (if e.url != "" then [LinkLine(e.url)] else [])
      && Starting(lines, TitlePrefix) == [TitleLine(e)]
      && Starting(lines, SectionPrefix) == []
      && Starting(lines, NoPosts) == []
  {
    PostLinesLayout(e);
    PostLinesTitle(e);
    PostLinesDate(e);
    PostLinesLink(e);
  }

  lemma {:induction false} PostsLinesCounts(posts: seq<Entry>)
    ensures |Starting(PostsLines(posts), TitlePrefix)| == |posts|
    ensures Starting(PostsLines(posts), SectionPrefix) == []
    ensures Starting(PostsLines(posts), NoPosts) == []
    decreases |posts|
  {
    if posts != [] {
      var n := |posts| - 1;
      PostsLinesCounts(posts[..n]);
      PostLinesTitle(posts[n]);
      StartingAppend(PostsLines(posts[..n]), PostLines(posts[n]), TitlePrefix);
      StartingAppend(PostsLines(posts[..n]), PostLines(posts[n]), SectionPrefix);
      StartingAppend(PostsLines(posts[..n]), PostLines(posts[n]), NoPosts);
    }
  }

  /** A company heading is a `##` line and nothing else. */
  lemma SectionLineKind(name: string)
    ensures Starting([SectionLine(name)], TitlePrefix) == []
    ensures Starting([SectionLine(name)], SectionPrefix) == [SectionLine(name)]
    ensures Starting([SectionLine(name)], NoPosts) == []
  {
    var line := SectionLine(name);
    assert line[0] == '#' && line[2] == ' ';
    Miss(TitlePrefix, line, 2);
    Hit(SectionPrefix, name);
    Miss(NoPosts, line, 0);
  }

  /** The placeholder is neither kind of heading. */
  lemma PlaceholderKind()
    ensures Starting([NoPosts], TitlePrefix) == []
    ensures Starting([NoPosts], SectionPrefix) == []
    ensures Starting([NoPosts], NoPosts) == [NoPosts]
  {
    assert NoPosts[0] == '*';
    Miss(TitlePrefix, NoPosts, 0);
    Miss(SectionPrefix, NoPosts, 0);
    Hit(NoPosts, "");
    assert NoPosts + "" == NoPosts;
  }

  lemma BoldPlain()
    ensures Plain(SummaryPrefix) && Plain(DatePrefix) && Plain(LinkPrefix)
  {
    assert SummaryPrefix[..2] == DatePrefix[..2] == LinkPrefix[..2] == "**";
  }

  lemma PlainAppend(a: string, b: string)
    requires Plain(a) && a != []
    ensures Plain(a + b)
  {
    assert (a + b)[0] == a[0];
    if |a| >= 2 {
      assert (a + b)[1] == a[1];
    }
  }

  lemma RecentLinePlain(posts: seq<Entry>)
    ensures Plain(RecentLine(posts))
  {
    var head := "**Recent posts (";
    assert head[0] == '*' && head[1] == '*';
    PlainAppend(head, NatToString(|posts|));
    PlainAppend(head + NatToString(|posts|), "):**");
  }

  lemma CompanyBodyMarked(posts: seq<Entry>, prefix: string)
    requires Marker(prefix) && posts != []
    ensures Starting(CompanyBody(posts), prefix) == Starting(PostsLines(posts), prefix)
  {
    RecentLinePlain(posts);
    StartingAppend([RecentLine(posts), ""], PostsLines(posts), prefix);
    PlainLines([RecentLine(posts), ""], prefix);
  }

  /** Of a company's lines, the heading, the placeholder and the post lines can
      start with a marker; the count line and the blank lines cannot. */
  lemma CompanyLinesMarked(name: string, posts: seq<Entry>, prefix: string)
    requires Marker(prefix)
    ensures Starting(CompanyLines(name, posts), prefix)
         == Starting([SectionLine(name)], prefix) + Starting(CompanyBody(posts), prefix)
  {
    StartingAppend([SectionLine(name), ""], CompanyBody(posts), prefix);
    StartingAppend([SectionLine(name)], [""], prefix);
    PlainMiss(prefix, "");
  }

  lemma PlaceholderBody(prefix: string)
    requires Marker(prefix)
    ensures Starting(CompanyBody([]), prefix) == Starting([NoPosts], prefix)
  {
    StartingAppend([NoPosts], [""], prefix);
    PlainMiss(prefix, "");
  }

  /** A company's section opens with its `##` heading and a blank line; without
      posts it holds just the placeholder and a blank line, otherwise the line
      with the number of posts follows. */
  lemma CompanyLinesLayout(name: string, posts: seq<Entry>)
    ensures CompanyLines(name, posts)[..2] == [SectionPrefix + name, ""]
    ensures posts == [] ==> CompanyLines(name, posts) == [SectionPrefix + name, "", NoPosts, ""]
  {
    assert CompanyLines(name, posts) == [SectionLine(name), ""] + CompanyBody(posts);
  }

  /** A line made of `head`, `str(n)` and `tail` shows `n` in decimal between them. */
  lemma ShowsCount(head: string, n: nat, tail: string)
    ensures var line := head + NatToString(n) + tail;
      && |line| > |head| + |tail|
      && line[..|head|] == head
      && line[|line| - |tail|..] == tail
      && AllDigits(line[|head|..|line| - |tail|])
      && DigitsValue(line[|head|..|line| - |tail|]) == n
  {
    var digits := NatToString(n);
    NatToStringDigits(n);
    var line := head + digits + tail;
    assert line[|head|..|line| - |tail|] == digits;
  }

  /** With posts, the line after the heading's blank line is the count line,
      and the number it shows is the number of posts. */
  lemma CompanyPostCount(name: string, posts: seq<Entry>)
    requires posts != []
    ensures var line := CompanyLines(name, posts)[2];
      && |line| > 20
      && line[..16] == "**Recent posts ("
      && line[|line| - 4..] == "):**"
      && AllDigits(line[16..|line| - 4])
      && DigitsValue(line[16..|line| - 4]) == |posts|
  {
    assert CompanyLines(name, posts) == [SectionLine(name), ""] + CompanyBody(posts);
    assert CompanyLines(name, posts)[2] == RecentLine(posts);
    ShowsCount("**Recent posts (", |posts|, "):**");
  }

  /** A company's section has one `###` line per post, its heading is its only
      `##` line, and the placeholder appears exactly when it has no posts. */
  lemma CompanyLinesCounts(name: string, posts: seq<Entry>)
    ensures |Starting(CompanyLines(name, posts), TitlePrefix)| == |posts|
    ensures Starting(CompanyLines(name, posts), SectionPrefix) == [SectionPrefix + name]
    ensures |Starting(CompanyLines(name, posts), NoPosts)| == if posts == [] then 1 else 0
  {
    Markers();
    SectionLineKind(name);
    PlaceholderKind();
    PostsLinesCounts(posts);
    CompanyLinesMarked(name, posts, TitlePrefix);
    CompanyLinesMarked(name, posts, SectionPrefix);
    CompanyLinesMarked(name, posts, NoPosts);
    if posts == [] {
      PlaceholderBody(TitlePrefix);
      PlaceholderBody(SectionPrefix);
      PlaceholderBody(NoPosts);
    } else {
      CompanyBodyMarked(posts, TitlePrefix);
      CompanyBodyMarked(posts, SectionPrefix);
      CompanyBodyMarked(posts, NoPosts);
    }
  }

  /** The company headings, in mapping order. */
  function SectionHeadings(data: seq<(string, seq<Entry>)>): seq<string>
    decreases |data|
  {
    if data == [] then [] else SectionHeadings(data[..|data| - 1]) + [SectionPrefix + data[|data| - 1].0]
  }

  /** How many companies have no posts. */
  function EmptyCount(data: seq<(string, seq<Entry>)>): nat
    decreases |data|
  {
    if data == [] then 0 else EmptyCount(data[..|data| - 1]) + (if data[|data| - 1].1 == [] then 1 else 0)
  }

  lemma {:induction false} SectionsCounts(data: seq<(string, seq<Entry>)>)
    ensures |Starting(Sections(data), TitlePrefix)| == TotalPosts(data)
    ensures Starting(Sections(data), SectionPrefix) == SectionHeadings(data)
    ensures |Starting(Sections(data), NoPosts)| == EmptyCount(data)
    decreases |data|
  {
    if data != [] {
      var n := |data| - 1;
      SectionsCounts(data[..n]);
      CompanyLinesCounts(data[n].0, data[n].1);
      StartingAppend(Sections(data[..n]), CompanyLines(data[n].0, data[n].1), TitlePrefix);
      StartingAppend(Sections(data[..n]), CompanyLines(data[n].0, data[n].1), SectionPrefix);
      StartingAppend(Sections(data[..n]), CompanyLines(data[n].0, data[n].1), NoPosts);
    }
  }

  /** Every header line but the summary heading is plain. */
  lemma HeaderPlain(data: seq<(string, seq<Entry>)>, generatedOn: string)
    ensures Plain(Heading) && Plain(GeneratedLine(generatedOn)) && Plain("")
    ensures Plain(TotalLine(data)) && Plain(CompaniesLine(data))
  {
    assert Heading[0] == '#' && Heading[1] == ' ';
    var generated, total, companies := "**Generated on:** ", "- **Total posts analyzed:** ", "- **Companies monitored:** ";
    assert generated[0] == '*' && generated[1] == '*' && total[0] == '-' && companies[0] == '-';
    PlainAppend(generated, generatedOn);
    PlainAppend(total, NatToString(TotalPosts(data)));
    PlainAppend(companies, NatToString(|data|));
  }

  /** Of the header lines only the summary heading can start with a marker. */
  lemma HeaderMarked(data: seq<(string, seq<Entry>)>, generatedOn: string, prefix: string)
    requires Marker(prefix)
    ensures Starting(HeaderLines(data, generatedOn), prefix) == Starting([SummaryHeading], prefix)
  {
    var top := [Heading, GeneratedLine(generatedOn), ""];
    var counts := [TotalLine(data), CompaniesLine(data), ""];
    HeaderPlain(data, generatedOn);
    StartingAppend(top + [SummaryHeading], counts, prefix);
    StartingAppend(top, [SummaryHeading], prefix);
    PlainLines(top, prefix);
    PlainLines(counts, prefix);
  }

  /** Neither footer line starts with a marker. */
  lemma FooterMarked(prefix: string)
    requires Marker(prefix)
    ensures Starting([FooterRule, FooterNote], prefix) == []
  {
    assert FooterRule[0] == '-' && FooterNote[0] == '*' && FooterNote[1] == 'R';
    PlainLines([FooterRule, FooterNote], prefix);
  }

  lemma SummaryHeadingKind()
    ensures Starting([SummaryHeading], TitlePrefix) == []
    ensures Starting([SummaryHeading], SectionPrefix) == [SummaryHeading]
    ensures Starting([SummaryHeading], NoPosts) == []
  {
    SectionLineKind("Summary");
    assert SectionLine("Summary") == SummaryHeading;
  }

  /** The report opens with the title, the generation time and the two counts. */
  lemma ReportHeader(data: seq<(string, seq<Entry>)>, generatedOn: string)
    ensures var lines := ReportLines(data, generatedOn);
      && |lines| >= 9
      && lines[0] == Heading
      && lines[1] == "**Generated on:** " + generatedOn
      && lines[4] == "- **Total posts analyzed:** " + NatToString(TotalPosts(data))
      && lines[5] == "- **Companies monitored:** " + NatToString(|data|)
  {
    var header := HeaderLines(data, generatedOn);
    var rest := Sections(data) + [FooterRule, FooterNote];
    assert ReportLines(data, generatedOn) == header + rest;
    assert (header + rest)[..7] == header;
  }

  /** The report closes with the rule and the footer note. */
  lemma ReportFooter(data: seq<(string, seq<Entry>)>, generatedOn: string)
    ensures var lines := ReportLines(data, generatedOn);
      && |lines| >= 2 && lines[|lines| - 2..] == [FooterRule, FooterNote]
  {
    var body := HeaderLines(data, generatedOn) + Sections(data);
    assert ReportLines(data, generatedOn) == body + [FooterRule, FooterNote];
  }

  /** The report's `##` headings are the summary heading and then one per
      company in mapping order; it has one `###` line per post, as many as the
      total it reports, and one placeholder line per company without posts. */
  lemma ReportCounts(data: seq<(string, seq<Entry>)>, generatedOn: string)
    ensures var lines := ReportLines(data, generatedOn);
      && Starting(lines, SectionPrefix) == [SummaryHeading] + SectionHeadings(data)
      && |Starting(lines, TitlePrefix)| == TotalPosts(data)
      && |Starting(lines, NoPosts)| == EmptyCount(data)
  {
    SectionsCounts(data);
    SummaryHeadingKind();
    Markers();
    ReportMarked(data, generatedOn, TitlePrefix);
    ReportMarked(data, generatedOn, SectionPrefix);
    ReportMarked(data, generatedOn, NoPosts);
  }

  lemma ReportMarked(data: seq<(string, seq<Entry>)>, generatedOn: string, prefix: string)
    requires Marker(prefix)
    ensures Starting(ReportLines(data, generatedOn), prefix) == Starting([SummaryHeading], prefix) + Starting(Sections(data), prefix)
  {
    var header, sections, footer := HeaderLines(data, generatedOn), Sections(data), [FooterRule, FooterNote];
    assert ReportLines(data, generatedOn) == header + sections + footer;
    StartingAppend(header + sections, footer, prefix);
    StartingAppend(header, sections, prefix);
    HeaderMarked(data, generatedOn, prefix);
    FooterMarked(prefix);
  }

  // -------------------------------------------------------------- the text

  /** `s.split("\n")`. */
  function SplitLines(s: string): seq<string>
    decreases |s|
  {
    if '\n' !in s then [s]
    else
      var k := FirstNewline(s);
      [s[..k]] + SplitLines(s[k + 1..])
  }

  function FirstNewline(s: string): (k: nat)
    requires '\n' in s
    ensures k < |s| && s[k] == '\n' && '\n' !in s[..k]
  {
    if s[0] == '\n' then 0
    else
      var k := 1 + FirstNewline(s[1..]);
      assert s[..k] == [s[0]] + s[1..][..k - 1];
      k
  }

  /** Once the first newline is located, the search finds it. */
  lemma {:induction false} FirstNewlineAt(s: string, k: nat)
    requires k < |s| && s[k] == '\n' && '\n' !in s[..k]
    ensures FirstNewline(s) == k
    decreases k
  {
    if k > 0 {
      assert s[0] == s[..k][0];
      assert s[1..][..k - 1] == s[1..k];
      assert forall c :: c in s[1..k] ==> c in s[..k];
      FirstNewlineAt(s[1..], k - 1);
    }
  }

  /** Joining lines that hold no newline can be undone by splitting at newlines. */
  lemma {:induction false} SplitJoin(lines: seq<string>)
    requires lines != []
    requires forall l :: l in lines ==> '\n' !in l
    ensures SplitLines(JoinLines(lines)) == lines
    decreases |lines|
  {
    if |lines| > 1 {
      var rest := JoinLines(lines[1..]);
      var s := lines[0] + "\n" + rest;
      assert s[|lines[0]|] == '\n';
      assert s[..|lines[0]|] == lines[0];
      FirstNewlineAt(s, |lines[0]|);
      assert s[|lines[0]| + 1..] == rest;
      SplitJoin(lines[1..]);
    }
  }

  /** Joining one more line adds a newline and that line at the end. */
  lemma {:induction false} JoinLinesSnoc(lines: seq<string>, last: string)
    requires lines != []
    ensures JoinLines(lines + [last]) == JoinLines(lines) + "\n" + last
    decreases |lines|
  {
    if |lines| > 1 {
      assert (lines + [last])[1..] == lines[1..] + [last];
      JoinLinesSnoc(lines[1..], last);
    }
  }

  lemma JoinEnds(lines: seq<string>)
    requires |lines| >= 4
    ensures var n := |lines|;
      JoinLines(lines) == lines[0] + "\n" + (JoinLines(lines[1..n - 2]) + "\n" + lines[n - 2] + "\n" + lines[n - 1])
  {
    var n := |lines|;
    var middle := lines[1..n - 2];
    assert lines[n - 2..] == [lines[n - 2]] + [lines[n - 1]];
    assert lines[1..] == middle + lines[n - 2..];
    AppendAssoc(middle, [lines[n - 2]], [lines[n - 1]]);
    assert JoinLines(lines) == lines[0] + "\n" + JoinLines(lines[1..]);
    JoinLinesSnoc(middle, lines[n - 2]);
    JoinLinesSnoc(middle + [lines[n - 2]], lines[n - 1]);
    assert JoinLines(lines[1..]) == JoinLines(middle) + "\n" + lines[n - 2] + "\n" + lines[n - 1];
  }

  /** The report text is its title line, then the body, then the rule and the
      footer note, each joined to the next by a newline. */
  lemma ReportText(data: seq<(string, seq<Entry>)>, generatedOn: string)
    ensures var lines := ReportLines(data, generatedOn);
      JoinLines(lines)
      == Heading + "\n" + (JoinLines(lines[1..|lines| - 2]) + "\n" + FooterRule + "\n" + FooterNote)
  {
    var header := HeaderLines(data, generatedOn);
    var lines := ReportLines(data, generatedOn);
    assert lines == header + Sections(data) + [FooterRule, FooterNote];
    assert lines[0] == header[0];
    JoinEnds(lines);
  }
}
