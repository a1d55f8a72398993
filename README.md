# AI competitive-intelligence scraper: a verified model

This project models, in Dafny, the part of the `ai-competitive-intel` scraper
that turns fetched blog pages into posts, and posts into a markdown report.

- **Sites.** `BlogScraper.scrape_all_companies` visits the six configured news
  sites in order. It computes the cutoff once and stores each site's posts
  under the site's name. A site whose request fails gets an empty list.
- **One page.** `_parse_generic_blog` reads a page as follows:
  - Seven CSS selectors are tried in order. The first that matches anything
    supplies at most 15 candidates.
  - When none matches, at most 10 `div`s that wrap one string are used instead.
  - Each candidate is handed to `_extract_post_info`.
  - A post is kept when its title is longer than 10 characters and
    `_is_recent_post` accepts its date.
  - The company label on the posts is the host, with "www." removed, title-cased.
- **One post.** `_extract_post_info` reads the fields of one candidate:
  - the title, from four searches tried in order, with whitespace collapsed;
  - the link, which prefers a title anchor and is resolved with `urljoin`;
  - the date, through `_parse_date`: nine `strptime` formats tried in order;
  - the summary, at most 200 characters of text followed by "...".
- **Report.** `ReportGenerator._build_report_content` writes the report as
  lines joined by newlines:
  - a header with the two counts;
  - one section per company, which is either a placeholder or one block per post;
  - a footer.

Modules, one per concern of the source:

| module | file | models |
|---|---|---|
| `Maybe` | maybe.dfy | `Optional` / `None` |
| `Strings` | strings.dfy | `str.strip`, `re.sub(r'\s+', ' ', ·)`, `replace`, `title`, `[:n]`, `str(int)`, zero padding |
| `Html` | html.dfy | the parsed page as a tree; `find`, `select_one`, `select`, `find_all`, `get_text`, `.string` |
| `Dates` | dates.dfy | `datetime` ordering, `_is_recent_post`, `strptime` for the nine formats, `_parse_date` |
| `Extract` | extract.dfy | `_extract_post_info` |
| `Scanner` | scanner.dfy | `_parse_generic_blog` and the company label |
| `Scraper` | scraper.dfy | `_scrape_company_blog`, `scrape_all_companies`, the site configuration |
| `Report` | report.dfy | `_build_report_content` |

Each loop of the source is a `method` with its loop and invariants:
- the format loop of `_parse_date`;
- the title loop of `_extract_post_info`;
- the selector loop and the candidate loop of `_parse_generic_blog`;
- the site loop;
- the two nested loops of the report.

Each method is proved equal to a specification function, and the properties
are lemmas about those functions.

The outside world is passed in as parameters:
- the HTTP fetch, which gives a body or a failure;
- the HTML parser;
- `urlparse(...).netloc`, which is `None` where it raises;
- `urljoin`, which is `None` where it raises;
- the `scraped_at` timestamp text;
- the cutoff instant;
- the formatted generation time of the report.

## Model

| member | source | states |
|---|---|---|
| Dates.BeforeIsStrictTotalOrder | src/scraper.py:313 | `<` on datetimes (field tuple, lexicographic) is irreflexive, asymmetric, transitive and total |
| Dates.RecencyRule | src/scraper.py:311-313 | an undated post is always recent; a dated post is recent exactly when it equals the cutoff or is later (inclusive boundary) |
| Dates.RecencyMonotone | src/scraper.py:311-313 | a post recent for a cutoff stays recent for every earlier cutoff |
| Dates.ParseDate | src/scraper.py:274-299 | the format loop returns exactly `ParsedDate(text)`: `None` for empty text, else the first format (in list order) that parses the stripped text |
| Dates.FirstParseTakesEarliest | src/scraper.py:292-296 | when format `i` parses and every earlier format fails, the result is format `i`'s reading; later formats are never consulted |
| Dates.FirstParseNone | src/scraper.py:292-299 | parsing yields `None` if and only if every format fails |
| Dates.FirstParseIsValid | src/scraper.py:294 | any parsed result is a calendar-valid date (month lengths, leap years, hour/minute/second ranges) with no microseconds |
| Dates.ParsedDateIsValid | src/scraper.py:274-299 | empty text gives `None`; any date returned is calendar-valid |
| Dates.MonthNameBeforeDigitFails | src/scraper.py:284-285 | `%B`/`%b` formats reject text that starts with a digit |
| Dates.YearBeforeSlashFails | src/scraper.py:281-283 | the three ISO formats reject text with `/` as its third character |
| Dates.DayBeforeSpaceFails | src/scraper.py:286-287 | `%d %B %Y` and `%d %b %Y` reject text shaped `dd/` |
| Dates.SlashTextSkipsOtherFormats | src/scraper.py:280-290 | text shaped `dd/...` fails the first seven formats, so only the two slash formats can read it |
| Dates.SlashDateMatch | src/scraper.py:288-289 | a `dd/dd/dddd` text whose two-digit fields are in range matches a slash format field by field |
| Dates.TwoDigitFieldRejected | src/scraper.py:288 | `%m/` rejects a first field outside 01..12: one digit is taken, then the `/` is missing |
| Dates.SlashDateReading | src/scraper.py:280-296 | a `dd/dd/dddd` date reads month-first whenever that is a real date, and otherwise day-first when the first field cannot be a month |
| Dates.MonthFirstWins | src/scraper.py:288 | `"01/02/2024"` parses as 2 January 2024 |
| Dates.DayFirstFallback | src/scraper.py:288-289 | `"13/02/2024"` parses as 13 February 2024 |
| Strings.StripBounds | src/scraper.py:219 | `strip()` returns a contiguous slice of its input, and every character cut from either end is whitespace |
| Strings.StripKeepsShape | src/scraper.py:222 | stripping keeps single-space spacing and deletes no non-whitespace character |
| Strings.Collapse | src/scraper.py:222 | the cleaned title has no whitespace at either end, no whitespace other than single spaces, and the same non-whitespace characters as the input |
| Strings.CollapseJoinsWords | src/scraper.py:219-222 | the clean-up equals `" ".join(s.split())`: the whitespace-separated words of the text, in order, with exactly one space between neighbours and none at the ends |
| Strings.WordsOfCollapse | src/scraper.py:219-222 | the cleaned title has exactly the words of the input, in the same order |
| Strings.CollapseFixesCollapsed | src/scraper.py:222 | the clean-up leaves text that is already in that shape unchanged |
| Strings.CollapseIdempotent | src/scraper.py:222 | cleaning a title twice equals cleaning it once |
| Strings.RemoveAll | src/scraper.py:155 | `replace("www.", "")` leaves text without the pattern unchanged, and otherwise shortens it by at least the pattern's length |
| Strings.RemoveAllLeftmost | src/scraper.py:155 | `replace` works from the left: the text before the first occurrence is kept as it is, that occurrence is dropped, and the rest is processed the same way |
| Strings.Title | src/scraper.py:155 | `title()` upper-cases exactly the letters that begin the text or follow a non-letter, lower-cases every other letter, and keeps the length |
| Strings.TitleKeepsLetters | src/scraper.py:155 | title-casing changes only letter case |
| Strings.TitleIdempotent | src/scraper.py:155 | title-casing is idempotent |
| Strings.TitleOfDotted | src/scraper.py:155 | a host made of two lower-case parts around a dot title-cases to both parts capitalised |
| Strings.Take | src/scraper.py:250 | `s[:n]` is the prefix of length `min(n, len(s))` |
| Strings.NatToStringDigits | src/report_generator.py:50-51 | `str(n)` is non-empty decimal digits, with no leading zero, that read back as `n` |
| Strings.ZeroPadDigits | src/report_generator.py:71 | a zero-padded field reads back as its number and is exactly the field width unless the number is wider |
| Html.FindFirst | src/scraper.py:213-215 | `find`/`select_one` returns the first matching descendant in document order (no descendant before it matches), and returns nothing only when no descendant matches |
| Html.Filter | src/scraper.py:170 | `select` returns matching nodes only, and every matching node, no more of them than there are nodes |
| Html.FilterIndices | src/scraper.py:170-177 | `select`/`find_all` return the matching nodes at exactly the matching positions, in increasing document order, with no reordering and no merging of equal nodes |
| Html.FindIsFirstSelected | src/scraper.py:211-215 | `find` finds nothing exactly when `select` selects nothing, and otherwise finds the first node `select` returns |
| Extract.FindTitleElem | src/scraper.py:203-217 | the title loop ends with exactly `TitleElem(element)` |
| Extract.ExtractPostInfo | src/scraper.py:201-263 | the extraction returns exactly `Extraction(...)`: the title, the link, the parsed date, the summary, the company and the timestamp |
| Extract.TitleSelection | src/scraper.py:204-217 | the title element is the first search result whose text is non-blank; if there is none, it is the last search's result |
| Extract.TitleShape | src/scraper.py:219-222 | the title is collapsed. It is "No title found" without a title element; otherwise it keeps the element's non-whitespace characters and is empty exactly when the element's text is blank |
| Extract.TitleAnchorLink | src/scraper.py:225-234 | with an anchor as title element, the link is that anchor's resolved href, or the page URL when it has none, whatever other anchors exist |
| Extract.NonAnchorTitleLink | src/scraper.py:225-234 | with a title element that is not an anchor, the link is the resolved href of the first anchor having an `href` attribute, or the page URL when that href is empty (even if later anchors have hrefs) or there is no such anchor |
| Extract.NoHrefLinksPage | src/scraper.py:229-234 | with no anchor carrying a non-empty href, the post exists and links to the page URL |
| Extract.ExtractionFailsOnlyInJoin | src/scraper.py:231-263 | the extraction is `None` if and only if a non-empty href exists and `urljoin` raises on it |
| Extract.DateRule | src/scraper.py:237-242 | no date element gives no date; a non-empty `datetime` attribute is parsed in preference to the text; with that attribute missing or empty the element's stripped text is parsed; any date is calendar-valid |
| Extract.SummaryShape | src/scraper.py:250 | with a summary element the summary is at most 203 characters, ends in "...", and is the first ≤200 characters of the stripped text (all of it when short). Without one it is "No summary available" |
| Extract.SummarySource | src/scraper.py:245-248 | the summary element is the first summary-class `p`/`div` when there is one, and the first `p` when that search finds nothing; it is always a `p`/`div` of the element |
| Extract.TextOnlyElement | src/scraper.py:201-259 | an element holding only text yields title "No title found", the page URL, no date and "No summary available" |
| Extract.TitleIsFound | src/scraper.py:211-217 | the title element, when present, is a descendant of the candidate |
| Scanner.SelectCandidates | src/scraper.py:168-177 | the selector loop with its `break`, then the fallback, gives exactly `Candidates(doc)` |
| Scanner.ParseGenericBlog | src/scraper.py:150-188 | the page scan returns exactly `Scan(...)`: nothing when `urlparse` raises; otherwise (an empty host included, labelled "") the kept extractions of the candidates, in order |
| Scanner.CandidateSelection | src/scraper.py:158-177 | the first selector with a match supplies its first 15 matches; with no match, the first 10 single-string divs. Never more than 15 candidates, all from the page |
| Scanner.KeepFilterFacts | src/scraper.py:179-183 | every kept post has a title longer than 10 and a recent date, and is one of the extractions; no more posts than candidates |
| Scanner.KeepFilterIndices | src/scraper.py:179-183 | the kept posts are, in increasing position order, exactly the outcomes that pass the filter |
| Scanner.KeptIndices | src/scraper.py:179-183 | the kept posts are the extractions of exactly the passing candidates, as a subsequence in candidate order, each labelled with the company |
| Scanner.KeptPostsComplete | src/scraper.py:179-183 | every candidate whose extraction passes the filter contributes its post |
| Scanner.ExtractionCompany | src/scraper.py:257 | every extracted post carries the company label it was given |
| Scanner.ScanBounds | src/scraper.py:150-188 | a page yields at most 15 posts, at most 10 on the fallback path, and none when `urlparse` raises |
| Scanner.TextOnlyCandidateKept | src/scraper.py:177-183 | a text-only candidate is kept for every cutoff, as a post titled "No title found" |
| Scanner.VergeLabel | src/scraper.py:155 | the host "www.theverge.com" is labelled "Theverge.Com" |
| Scanner.CrunchLabel | src/scraper.py:155 | the host "techcrunch.com" is labelled "Techcrunch.Com" |
| Scanner.CompanyLabelRule | src/scraper.py:155 | the label equals the host with "www." removed, up to letter case; it is already title-cased and no longer than the host |
| Scraper.ScrapeCompanyBlog | src/scraper.py:109-122 | a failed request gives `[]`; otherwise the page scan's result |
| Scraper.ScrapeAllCompanies | src/scraper.py:74-95 | the site loop returns exactly `ScrapeAll(configs, cutoff, w)` with one cutoff for all sites |
| Scraper.OneEntryPerSite | src/scraper.py:74-95 | one entry per site, in configuration order, each holding only what that site yields, so a failing site does not affect the others |
| Scraper.SiteOutcome | src/scraper.py:109-122 | a failed request gives no posts; a site gives at most 15, each with a title longer than 10 and a recent date |
| Scraper.CompanyNamesDistinct | src/scraper.py:38-63 | the six configured site names are distinct, so each is one key of the results |
| Report.BuildReportContent | src/report_generator.py:38-87 | the report text is `"\n".join` of `ReportLines(data, generatedOn)` |
| Report.AppendCompany | src/report_generator.py:55-81 | one loop pass appends exactly the company's section (heading, blank, then placeholder or count line and posts) |
| Report.AppendPosts | src/report_generator.py:67-81 | the inner loop appends the lines of every post, in order |
| Report.AppendPost | src/report_generator.py:68-81 | one post appends exactly `PostLines(post)` |
| Report.PostLinesShape | src/report_generator.py:68-81 | a post has the title line first ("Untitled" only without a title), a date line exactly when it has a date, a link line exactly when it has a url, the summary line (with its placeholder when empty), then a blank line; exactly one `###` line |
| Report.PostLinesTitle | src/report_generator.py:68 | a post contributes one `###` line, no `##` line and no placeholder |
| Report.PostLinesDate | src/report_generator.py:70-71 | a post's `**Date:**` lines are exactly one for a dated post and none otherwise |
| Report.PostLinesLink | src/report_generator.py:73-74 | a post's `**Link:**` lines are exactly one `[url](url)` line for a non-empty url and none otherwise |
| Report.PostsLinesCounts | src/report_generator.py:67-81 | a company's post lines hold one `###` line per post and no `##` or placeholder line |
| Report.CompanyLinesLayout | src/report_generator.py:56-62 | a section starts `## name` and a blank line; with no posts it is just those and the placeholder with a blank line |
| Report.CompanyPostCount | src/report_generator.py:64 | with posts, the third line of a section is `**Recent posts (N):**` and its digits read back as the number of posts |
| Report.ShowsCount | src/report_generator.py:64 | a line built as head, `str(n)` and tail shows, between head and tail, digits that read back as `n` |
| Report.CompanyLinesCounts | src/report_generator.py:55-81 | a section has as many `###` lines as posts and its heading as its only `##` line, and contains the placeholder exactly when it has no posts |
| Report.SectionsCounts | src/report_generator.py:55-81 | over all sections: the `###` count is the total number of posts, the `##` lines are the company names in order, and there is one placeholder per company without posts |
| Report.ReportHeader | src/report_generator.py:43-51 | the report opens with the title, the generated-on line, and the total-posts and companies lines showing `str` of the counts |
| Report.ReportFooter | src/report_generator.py:84-85 | the last two lines are `---` and the footer note |
| Report.ReportCounts | src/report_generator.py:48-81 | the report's `##` headings are "Summary" then the companies in order; its `###` lines are as many as the reported total; one placeholder per company without posts |
| Report.SplitJoin | src/report_generator.py:87 | joining lines that hold no newline with `"\n"` is undone by splitting at newlines |
| Report.JoinLinesSnoc | src/report_generator.py:87 | joining one more line appends a newline and that line |
| Report.ReportText | src/report_generator.py:43-87 | the report text is the title line, a newline, the body, then `---` and the footer note each after a newline |

## Left out

- `_make_request` (src/scraper.py:124-148), the HTTP session and its headers: the fetch is a parameter that returns a body or `Failed`. Every exception it catches becomes `Failed`.
- `time.sleep` rate limiting and all logging: they have no effect on results.
- BeautifulSoup's parsing of the body: the parser is a parameter that returns a tree of elements and text nodes.
  - Comments, CDATA and other node kinds are not modelled.
  - Class matching is by substring of the whole `class` attribute.
  - `re.I` class matching uses ASCII case folding.
- `urljoin` and `urlparse`: both are parameters. `None` stands for the exception each may raise.
- `datetime.now()` and `timedelta` (src/scraper.py:75): the cutoff is a parameter, computed once by the caller.
- Extract.ExtractPostInfo: `scraped_at` is one timestamp text for the whole run, shared by every site and every post. The source reads the clock for every post.
- Exceptions that BeautifulSoup itself might raise inside `_parse_generic_blog` are not modelled. The parse is total.
- Dates.ParseDate: `strptime` is modelled with ASCII digits, case-sensitive month names and literals, and a single space for each space of the format. CPython's `strptime` matches case-insensitively, accepts any Unicode decimal digit, and lets a format space match any run of whitespace.
- Strings.Title: `str.title()` is modelled over ASCII letters. Other characters are left unchanged, without Unicode case mapping.
- Report.BuildReportContent: the `Generated on` time is an already formatted string. `strftime('%B %d, %Y at %I:%M %p')` is not modelled.
- Report.BuildReportContent: a post dictionary is read as an `Entry`.
  - A `title` key that is present but holds `None` (printed as "None") is not represented.
  - Dates are naive datetimes printed as `str(datetime)`; time zones are not modelled.
- Report.BuildReportContent: the model splits the two nested loops into helper methods, one per loop body. The lines appended, and their order, are the source's.
- `generate_report`, `_ensure_reports_dir`, the file write, and the whole of src/main.py are not part of this model.

Two behaviours of the code that a reader might not expect:
- The summary always gets "..." appended when there is a summary element, even when the text is shorter than 200 characters (Extract.SummaryShape).
- The sentinel title "No title found" has 14 characters and so passes the length filter (Scanner.TextOnlyCandidateKept).
