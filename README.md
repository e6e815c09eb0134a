# emailmak crawlers in Dafny

This project models the core of *emailmak*, a Python service that collects company contact
addresses from Korean job sites. The model covers:

- **The three site adapters.**
  - Saramin: HTML result pages, four homepage fallbacks.
  - JobKorea: job cards, a job page that leads to a company page, two homepage fallbacks.
  - Wanted: JSON API, client-side page window, id parsing.
- **The email extraction both layers use.**
  - The regular expression `[a-zA-Z0-9._%+-]+@[a-zA-Z0-9.-]+\.[a-zA-Z]{2,}` and `findall` over it.
  - The extractor's validator.
  - The `mailto:` links.
  - The contact-page search and the visit of up to three contact pages.
  - The base crawler's order-keeping, case-insensitive deduplication.
- **The enrichment loops.** They fill in each company's homepage and addresses, survive a
  failure of any one company, and rank companies by the number of addresses found.
- **The API server's two crawl endpoints.** This covers their request validation and the
  event sequence of the streaming endpoint.
- **The Google Sheets export's row building.**

### How the outside world is represented

- **Fetches are oracles.** A fetch is a function from URL to an optional parsed page. `None`
  stands for a network error, an HTTP error status or an empty body. A JSON API call is a
  function to the object under the keys the code reads.
- **HTML parsing is pre-computed.** A parsed page is the sequences of elements the code's
  selectors would return: anchors with their href and text, `dt` labels, text nodes with the
  next link.
- **Exceptions are parameters.** An exception raised while a company is processed is a fault
  oracle, `fault(i)`, naming the stage at which company i raises. A search that raises is an
  optional error message.
- **The code's own loops stay loops.** Every loop the program runs is a `method` with a loop,
  proved equal to a specification function. These include the page loops, the deduplication
  with a `seen` set, the fallback searches with `break`, the enrichment loop that updates each
  record, the event generator and the row builder. The properties are proved about those
  functions.

Module layout: `Wrappers`, `Text` (Python `str` operations), `Seqs`, `Sorting` (the stable
`list.sort(key=…, reverse=True)`), `Web`, `EmailPattern`, `EmailExtractor`, `BaseCrawler`,
`Records`, `Saramin`, `JobKorea`, `Wanted`, `Server`, `Sheets`.

### Where the model follows the code rather than the description

- Records never receive an `error` field; the code writes none.
- The JobKorea exclusion list has the sixteen domains of the code.
- The streaming endpoint does not sort the companies it reports.

## Model

| member | source | states |
|---|---|---|
| EmailPattern.RunEnd | crawlers/email_extractor.py:22 | a greedy run ends at the first character outside the class, and every character before it belongs to the class |
| EmailPattern.LastTldDot | crawlers/email_extractor.py:22-23 | backtracking stops at the last '.' followed by two letters of the case-insensitive class (ASCII letters and İ, ı, ſ, K), and there is no such position when it reports none |
| EmailPattern.MatchAtShape | crawlers/email_extractor.py:21-24 | what the matcher returns at a position is a string of the regular language (local part, '@', domain, '.', two or more letters), whose letter classes under `re.IGNORECASE` also admit İ, ı, ſ and the Kelvin sign |
| EmailPattern.FindAllMatches | crawlers/email_extractor.py:120 | every item `findall` returns is the match started at some position of the text |
| EmailPattern.FindAllShaped | crawlers/email_extractor.py:120 | every item `findall` returns is a string of the case-insensitive regular language |
| EmailPattern.ShapedMatchesWhole | crawlers/email_extractor.py:21-24 | the matcher started at the beginning of a string of the case-insensitive regular language takes the whole string |
| EmailPattern.MatchAtIdempotent | crawlers/email_extractor.py:21-24 | a match, searched again on its own, is found whole |
| EmailPattern.FindAllOfMatch | crawlers/email_extractor.py:120 | `findall` on a match alone returns exactly that match |
| EmailPattern.ShapedSplit | crawlers/email_extractor.py:137-138 | a string of the language splits at '@' into exactly two parts, the domain of four or more characters |
| EmailPattern.ShapedLower | crawlers/email_extractor.py:23 | lower-casing keeps a string in the language, as the case-insensitive pattern needs |
| EmailPattern.FindAllShortTld | crawlers/email_extractor.py:22 | a one-letter top-level domain gives no match |
| EmailPattern.FindAllLongS | crawlers/email_extractor.py:21-24 | under `re.IGNORECASE` the long s is a local-part letter: "ſa@bc.kr" is found whole |
| EmailPattern.FindAllKelvinSign | crawlers/email_extractor.py:21-24 | the Kelvin sign is a top-level-domain letter: "hr@corp.Kr" ending in U+212A is found whole |
| EmailPattern.FindAllBacktracks | crawlers/email_extractor.py:22 | the domain gives characters back to the last '.' that starts a two-letter domain |
| EmailExtractor.ValidEmailHasOneAt | crawlers/email_extractor.py:137-139 | an address the validator accepts has exactly one '@' and at least four characters after it |
| EmailExtractor.MatchValidIff | crawlers/email_extractor.py:123-141 | a pattern match is accepted exactly when its lower-cased form holds no refused extension, no "example" and no "test@" |
| EmailExtractor.ValidEmailExample | crawlers/email_extractor.py:136-141 | "a@bc.co" is accepted |
| EmailExtractor.ShortDomainExample | crawlers/email_extractor.py:138-139 | "a@b.c" is refused for its short domain |
| EmailExtractor.ExampleDomainExample | crawlers/email_extractor.py:133-134 | "user@example.com" is refused |
| EmailExtractor.ExtractEmailsIdempotent | crawlers/email_extractor.py:115-121 | every address extracted from a text is valid, and extracting from it alone gives back just that address |
| EmailExtractor.MailtoCandidateClean | crawlers/email_extractor.py:79 | the address cut out of a `mailto:` href holds no '?' and has no whitespace at either end |
| EmailExtractor.MailtoCandidateExample | crawlers/email_extractor.py:79 | "mailto:hr@corp.kr?subject=hi" gives "hr@corp.kr" |
| EmailExtractor.MailtoEmailsValid | crawlers/email_extractor.py:76-81 | every address taken from the `mailto:` links passed the validator |
| EmailExtractor.MailtoEmailsFrom | crawlers/email_extractor.py:76-81 | the `mailto:` addresses are exactly the valid candidates of the anchors whose href starts with `mailto:` |
| EmailExtractor.PageEmailsValid | crawlers/email_extractor.py:64-83 | every address a page yields passed the validator |
| EmailExtractor.ExtractFromPage | crawlers/email_extractor.py:64-87 | the set the loop over a page's anchors builds is the page's text matches plus its `mailto:` addresses; a failed fetch yields none |
| EmailExtractor.ContactPagesCharacterized | crawlers/email_extractor.py:89-113 | the contact pages hold no repeats, and a URL is among them exactly when a keyword link of the base page resolves to it on the base host; a failed fetch gives none |
| EmailExtractor.FindContactPages | crawlers/email_extractor.py:89-113 | the loop that appends unseen same-host keyword links builds the specified contact list |
| EmailExtractor.NormalizeUrl | crawlers/email_extractor.py:41-42 | the URL gets `https://` unless it already starts with `http://` or `https://`, and the result always names one of the two schemes |
| EmailExtractor.NormalizeUrlIdempotent | crawlers/email_extractor.py:41-42 | normalising twice is normalising once |
| EmailExtractor.VisitedContacts | crawlers/email_extractor.py:58 | at most three contact pages are visited: the first three, or all when fewer |
| EmailExtractor.SiteEmailsValid | crawlers/email_extractor.py:35-62 | every address collected from a site passed the validator |
| EmailExtractor.SetToSeq | crawlers/email_extractor.py:62 | `list(emails)` holds each member of the set exactly once |
| EmailExtractor.ExtractFromUrl | crawlers/email_extractor.py:35-62 | the result lists, without repeats, the homepage's addresses and those of its first three contact pages; an empty URL gives none and requests nothing; the URLs requested are the homepage twice, then the visited contact pages |
| EmailExtractor.VisitPages | crawlers/email_extractor.py:58-60 | the loop over the contact pages collects the union of their addresses and requests each page once, in order |
| BaseCrawler.ExtractEmails | crawlers/base.py:53-77 | the loop with its `seen` set computes the specified first-occurrence list |
| BaseCrawler.ExtractedEmailsFirstSeen | crawlers/base.py:63-75 | the result is a subsequence of the matches, each item the first match of its lower-cased form that passes the filters, and every match that passes is represented regardless of case |
| BaseCrawler.ExtractedEmailsDistinct | crawlers/base.py:66-74 | no two results are equal after lower-casing, and there are no more results than matches |
| BaseCrawler.ExtractedEmailsFiltered | crawlers/base.py:68-71 | no result holds one of the five extensions, starts with "example@" or ends with "@example.com", and every result is a string of the pattern |
| Sorting.SortDescCorrect | crawlers/saramin.py:226 | the descending sort by key is ordered, is a permutation of its input, and keeps the input order among equal keys |
| Sorting.SortDescHead | crawlers/jobkorea.py:99-100 | the first item after the sort is the first input item with the largest key |
| Sorting.SortDescLast | crawlers/jobkorea.py:99-101 | the last item after the sort is the last input item with the smallest key |
| Sorting.SortDescExample | crawlers/jobkorea.py:99 | keys 2, 0, 2, 1 come out as items one, three, four, two |
| Records.RankByEmails | crawlers/saramin.py:226 | the final ranking is a permutation of the companies, most addresses first, with ties in their original order |
| Saramin.ParseSearchResults | crawlers/saramin.py:77-115 | the loop over the result items builds one record per item with a company link |
| Saramin.ParsedItemsRecords | crawlers/saramin.py:85-113 | records come in item order, exactly one per item with a company link; each record has the stripped name, the link resolved against the site when relative, the stripped job title (or ""), and no homepage or addresses |
| Saramin.Search | crawlers/saramin.py:24-56 | the page loop and the deduplication by company URL compute the specified result; there is one pause between each two consecutive pages |
| Saramin.CollectPages | crawlers/saramin.py:39-46 | the records of pages start to end are concatenated in page order, and a page that cannot be fetched adds none |
| Saramin.SearchResultsUnique | crawlers/saramin.py:49-56 | the result keeps, in order, the first record of each non-empty company URL, and no two results share a URL |
| Saramin.HomepageAcceptable | crawlers/saramin.py:117-180 | a homepage found starts with "http" and does not mention "saramin.co.kr" |
| Saramin.HomepageFirstStrategy | crawlers/saramin.py:131-177 | there is no homepage exactly when all four strategies fail; otherwise it is the answer of the first strategy that succeeds |
| Saramin.GetCompanyDetail | crawlers/saramin.py:117-180 | the four fallback loops with `break` compute the specified homepage; a failed fetch gives none; a homepage found is acceptable |
| Saramin.FindLabelHomepage | crawlers/saramin.py:136-146 | the first strategy's loop returns the first acceptable link after a "홈페이지" label |
| Saramin.FindAnchorHomepage | crawlers/saramin.py:158-166 | the third strategy's loop returns the first outside link whose text names a homepage |
| Saramin.FindInfoHomepage | crawlers/saramin.py:171-177 | the fourth strategy's loop returns the first acceptable link in the company information items |
| Saramin.CrawlWithEmails | crawlers/saramin.py:182-228 | each search result is enriched, a failing company included; the callback is called once per company with its position and the total; the result is the enriched list ranked by address count |
| Saramin.ProcessCompany | crawlers/saramin.py:204-223 | one company's `try` block sets the homepage and then the addresses, each stage only if reached, and stops where an exception is raised |
| Saramin.EnrichedKeepsRecord | crawlers/saramin.py:203-223 | the enrichment keeps name, URL and title; a homepage it sets is acceptable; every address it adds is valid |
| JobKorea.CardRecordChoice | crawlers/jobkorea.py:82-116 | a card gives no record exactly when it has fewer than two links or fewer than two link texts; otherwise the title is the first longest text, the name the last shortest, and the job URL comes from the first link |
| JobKorea.CardTextsOrder | crawlers/jobkorea.py:93 | the card texts are the non-empty stripped link texts, in link order |
| JobKorea.CardTie | crawlers/jobkorea.py:99-101 | with two texts of equal length, the sort keeps their order: the first is the title and the second is the name |
| JobKorea.ParseSearchResults | crawlers/jobkorea.py:70-121 | the loop over the cards, with its `seen_companies` set, computes the specified records |
| JobKorea.ParseCard | crawlers/jobkorea.py:80-116 | one card's body computes that card's record |
| JobKorea.TextLinks | crawlers/jobkorea.py:93 | the comprehension's loop collects the non-empty stripped texts |
| JobKorea.ParsedCardsUnique | crawlers/jobkorea.py:103-106 | the parsed records keep the first card of each non-empty name, and no two share a name |
| JobKorea.Search | crawlers/jobkorea.py:25-58 | the page loop and the deduplication by name compute the specified result; there is one pause between each two consecutive pages |
| JobKorea.CollectPages | crawlers/jobkorea.py:40-47 | the records of the pages are concatenated in page order |
| JobKorea.SearchResultsUnique | crawlers/jobkorea.py:50-58 | the result keeps, in order, the first record of each non-empty name, no two results share a name, and every non-empty name among the collected records is represented |
| JobKorea.FirstCoRead | crawlers/jobkorea.py:189-190 | the search finds the leftmost occurrence of "/Recruit/Co_Read/C/" followed by a digit, or reports none when there is none |
| JobKorea.CompanyUrlInMatch | crawlers/jobkorea.py:188-196 | a company URL is found exactly when the job page holds the pattern; it is the site's Co_Read page of the longest digit run at the leftmost match |
| JobKorea.GetCompanyUrlFromJob | crawlers/jobkorea.py:170-199 | a failed job-page fetch gives no URL; a URL found is the site's Co_Read path followed by an id |
| JobKorea.HomepageAcceptable | crawlers/jobkorea.py:123-168 | a homepage starts with "http" and avoids the sixteen excluded domains; the text-node strategy wins when it finds one, else the first outside link decides |
| JobKorea.GetCompanyDetail | crawlers/jobkorea.py:123-168 | the two fallback loops with `break` compute the specified homepage, which is acceptable |
| JobKorea.CrawlWithEmails | crawlers/jobkorea.py:201-252 | each search result is enriched by the job-page lookup, the company page and the site, a failing company included; the callback is called once per company; the result is ranked by address count |
| JobKorea.ProcessCompany | crawlers/jobkorea.py:223-247 | one company's `try` block: it overwrites the company URL with the lookup's answer, then sets the homepage, then the addresses, stopping where an exception is raised |
| JobKorea.EnrichedLookup | crawlers/jobkorea.py:222-247 | for a fresh search record: name, job URL and title are kept; a company URL set is a Co_Read page; without one there is no homepage and no address; a homepage is acceptable; every address is valid |
| Wanted.SliceBound | crawlers/wanted.py:97 | a slice bound is read from the end when negative and clamped to the list |
| Wanted.Search | crawlers/wanted.py:25-101 | the item loop and the final slice compute the specified window; a missing response gives [] |
| Wanted.AcceptedRecords | crawlers/wanted.py:64-89 | records come in entry order, exactly one per object entry whose id and name are truthy; each has the site's company page of the id, the placeholder title, the id kept, and no job link, homepage or address |
| Wanted.SliceWindow | crawlers/wanted.py:97 | a window starting at a non-negative position is the run of the list from there, cut off at the list's end |
| Wanted.SliceAdjacent | crawlers/wanted.py:93-97 | the windows of pages a..b and b..c joined are the window of a..c |
| Wanted.SearchPageWindow | crawlers/wanted.py:93-97 | from start page 1 or later, the result is the kept records from `(start-1)*10` up to `end*10`, as far as they go, and consecutive page ranges add up |
| Wanted.SecondPageOfTwentyFive | crawlers/wanted.py:93-97 | of 25 kept records, page 2 alone is records 10 to 19 |
| Wanted.PageZeroCountsFromTheEnd | crawlers/wanted.py:94-97 | start page 0 makes the start index negative, so pages 0..5 of 25 records give the last ten |
| Wanted.ApiId | crawlers/wanted.py:115-121 | an all-digit argument is its own id; any other argument's id is its last `/`-segment once trailing slashes are removed: an ending of the stripped text with no `/`, preceded by a `/` unless it is the whole text |
| Wanted.ApiIdOfCompanyPage | crawlers/wanted.py:72 | the company URL the search builds, with or without a trailing slash, reads back to its id, so the lookup fetches that id's API entry |
| Wanted.DetailRequestOnlyForDigits | crawlers/wanted.py:123-133 | there is a fetch exactly when the id is all digits, and it is of that id's API entry; otherwise, or when the fetch or `company.detail` is missing, there is no homepage |
| Wanted.NormalizeLinkHttp | crawlers/wanted.py:136-146 | a non-empty link without "http" gets "http://" and any other value is kept; so the result is none, "" or an http link, and normalising again changes nothing |
| Server.CrawlRejectionCases | server.py:54-58 | a request is refused with 400 exactly when the keyword strips to nothing or the page count is outside 1..10, with the blank-keyword detail checked first |
| Server.CrawlAsWritten | server.py:49-77 | the JSON endpoint as written: validation, then a 500 for every request that passes it |
| Server.CrawlAsWrittenNeverServes | server.py:60-77 | as written, the endpoint never answers with companies; a valid Saramin request fails with the `TypeError` of its keyword argument, and an unknown source gives 500 with "400: 지원하지 않는 소스: …" |
| Server.Crawl | server.py:60-77 | with the evident call, a valid Saramin request gets the ranked enrichment of pages 1..pages with its total; an unknown source or a failed search gives 500 |
| Server.Generate | server.py:89-127 | the generator yields one error for an unknown source or a failed search; otherwise it yields start, then one progress event per enriched company, then complete |
| Server.Report | server.py:100-119 | the per-company loop enriches each company and reports it with its position and the total, whether its `try` failed or not |
| Server.StreamShape | server.py:97-122 | the stream for N companies is N + 2 events: start with N, progress 1..N in order, complete with N |
| Server.StreamedEvents | server.py:97-127 | one error event and nothing else on failure; otherwise exactly one start first, one complete last, no error, and progress events naming the search results in order |
| Server.CrawlStreamAsWritten | server.py:80-136 | the stream as written checks only the keyword and searches pages `pages` to 5 |
| Server.StreamAsWrittenSearchesNothing | server.py:94 | as written, a page count of 6 or more searches no page, so the stream announces zero companies whatever the site holds |
| Server.CrawlStream | server.py:80-136 | with the evident call, the stream covers pages 1..pages; a blank keyword gives 400 before streaming |
| Sheets.ExportValues | utils/google_sheets.py:51-82 | the values are the header row followed by one row per company in order, and the message counts the companies |
| Sheets.RowColumns | utils/google_sheets.py:60-69 | a row has eight cells in header order; a missing key gives "" and a null value passes through |
| Sheets.AddressColumnsRoundTrip | utils/google_sheets.py:56-58 | when no address is empty or contains ", ", the primary cell and the split of the additional cell give back the address list |
| Sheets.RowEmailsRoundTrip | utils/google_sheets.py:56-69 | a company's third and fourth cells give back its address list, the empty list when the key is missing |
| Sheets.SeparatorInAddressIsLost | utils/google_sheets.py:58 | an address containing ", " makes two different lists produce the same cells |

## Left out

- HTTP transport is not modelled: clients, headers, redirects, timeouts, TLS verification and the client lifetime. A fetch is an oracle and a failed fetch is `None`.
- A fetch returns the same answer each time for the same URL. The homepage that `extract_from_url` requests twice therefore answers the same both times.
- BeautifulSoup and CSS-selector semantics are not modelled. A page is the element sequences the selectors would return.
- `get_text(strip=True)` is `Strip` of the whole text, with Python's whitespace set. Lower-casing covers ASCII letters only: Python's `lower()` also maps the Kelvin sign to 'k' and İ to 'i' followed by a combining dot, which the model leaves unchanged, so for addresses holding them the validator's and the deduplication's lower-cased forms differ from Python's. `isdigit` and `\d` are ASCII digits.
- `urljoin` and `urlparse(...).netloc` are function parameters (section 5.2 and section 3.2 of RFC 3986).
- `quote` and query-string building are not modelled. A search oracle takes the keyword and the page directly.
- `asyncio.sleep` and `print` are left out. The search methods only count their pauses.
- `list(set)` enumerates the set in an order the model leaves open (`EmailExtractor.SetToSeq`). Address lists are therefore specified by their set of members and by having no repeats.
- In-place updates of a company dictionary are record updates, and the in-place list sort is the value of a stable descending sort.
- Aliasing among the dictionaries is not modelled.
- Records fold a missing key and a `None` value into one `None`. For example, Saramin records have no `job_url` key. The sheet export keeps the two apart, because there the difference changes a cell.
- An empty HTML body is treated like a failed fetch, as `if not html` does.
- Exceptions inside the per-company `try` are the stage a fault oracle names. The model does not follow why they are raised.
- Outside those blocks, only the search's exception is modelled (as an error message).
- Creating the HTTP client is assumed not to raise.
- Exceptions that parsing a Wanted entry would raise are modelled only for an entry that is not an object.
- Wanted ids and names are assumed to be numbers or strings, and names strings.
- The `TypeError` message of the as-written `/api/crawl` is written in the form Python 3.10 and later give.
- The text of a caught `HTTPException` is its status, a colon and its detail, as Starlette formats it.
- FastAPI routing, CORS, static files, server-sent-event framing and JSON serialisation are left out. An event is a value, not its `data: …` line.
- `BaseCrawler.__aenter__`/`__aexit__` only open and close the HTTP client, which is out of scope.
- The Google Sheets client is left out: authentication, `open_by_url`, worksheet creation, `clear`, `update`, `format`, and the `(False, str(e))` reply on a failure. The document title is a parameter.
- An `emails` value of `None` in the sheet export (on which `len` raises) is not modelled. A missing key gives the empty list.
- `crawlers/__init__.py` only re-exports names and is not part of this model.
- Wanted has no `crawl_with_emails`, so the model has no Wanted enrichment loop.

## Findings

| source | as written | input that shows it | evidently intended | confidence | as-written member | corrected member |
|---|---|---|---|---|---|---|
| server.py:63-66 | `crawl_with_emails(keyword=..., pages=...)`, but the method's parameters are `start_page`, `end_page` and `progress_callback` | any valid request such as `{"keyword": "개발", "pages": 3}` raises `TypeError` and gets status 500 | crawl pages 1 to `pages` | not executed | Server.CrawlAsWritten, Server.CrawlAsWrittenNeverServes | Server.Crawl |
| server.py:94 | `search(request.keyword, request.pages)` passes the page count as `start_page`, leaving `end_page` at its default of 5 | `{"keyword": "개발", "pages": 6}` searches `range(6, 6)`, which is no page, so the stream is `start{0}`, `complete{0}` | search pages 1 to `pages` | not executed | Server.CrawlStreamAsWritten, Server.StreamAsWrittenSearchesNothing | Server.CrawlStream |
