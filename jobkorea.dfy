/**
 * The JobKorea adapter (crawlers/jobkorea.py): reading the job cards of the search result
 * pages, keeping one record per company name, finding the company page from a job page, finding
 * a homepage on the company page, and the enrichment loop.
 *
 * A search result page is the sequence of its job cards, a card the sequence of its job links;
 * the fetch of a job page yields its HTML text, the fetch of a company page the few element
 * sequences the two strategies look at.
 */
module JobKorea {
  import opened Wrappers
  import opened Text
  import opened Seqs
  import opened Sorting
  import opened Web
  import opened Records
  import opened EmailPattern
  import EmailExtractor

  const BaseUrl: string := "https://www.jobkorea.co.kr"

  /** The path of a company page, followed by the company's number. */
  const CoReadPath: string := "/Recruit/Co_Read/C/"

  /** Hosts that are never a company's homepage; a link is refused if it contains any of them. */
  const ExcludeDomains: seq<string> := [
    "jobkorea.co.kr", "albamon.com", "gamejob.co.kr", "ninehire.com",
    "klik.co.kr", "naver.com", "facebook.com", "instagram.com",
    "youtube.com", "notion.site", "oopy.io", "google.com",
    "daum.net", "kakao.com", "nicebizinfo.com", "dataline.co.kr"]

  // ---------------------------------------------------------------- job cards

  /** A job card: its links to job pages (`a[href*="/Recruit/GI_Read/"]`), in document order. */
  datatype Card = Card(links: seq<Anchor>)

  /** A relative job link is resolved against the site; an empty or absolute one is kept. */
  function JobLink(resolve: (string, string) -> string, href: string): string
  {
    if href != "" && !StartsWith(href, "http") then resolve(BaseUrl, href) else href
  }

  /** A link's stripped text, when it is not empty. */
  function LinkText(a: Anchor): Option<string>
  {
    if Strip(a.text) != "" then Some(Strip(a.text)) else None
  }

  /** The texts of a card's links that have one, in document order. */
  function CardTexts(card: Card): seq<string>
  {
    FilterMap(card.links, LinkText)
  }

  function TextLength(s: string): nat { |s| }

  /**
   * The record of one card, before the check on the name: nothing with fewer than two job
   * links or fewer than two texts; otherwise the job URL is the first link's, and after the
   * texts are sorted longest first the first is the job title and the last the company name.
   */
  function CardRecord(resolve: (string, string) -> string, card: Card): Option<Company>
  {
    if |card.links| < 2 then None
    else
      var texts := CardTexts(card);
      if |texts| < 2 then None
      else
        var sorted := SortDesc(texts, TextLength);
        Some(Company(sorted[|sorted| - 1], None, Some(JobLink(resolve, card.links[0].href)), sorted[0], None, [], None))
  }

  function CardParser(resolve: (string, string) -> string): Card -> Option<Company>
  {
    card => CardRecord(resolve, card)
  }

  predicate HasName(c: Company) { c.companyName != "" }

  function NameKey(c: Company): string { c.companyName }

  /** What `_parse_search_results` returns: the card records, each company name kept once. */
  function ParsedCards(resolve: (string, string) -> string, cards: seq<Card>): seq<Company>
  {
    FirstByKey(FilterMap(cards, CardParser(resolve)), HasName, NameKey)
  }

  /**
   * A card's record: the job title is the first of the longest texts, the company name the
   * last of the shortest, the job URL comes from the first job link whether or not it has a
   * text; and a card gives none exactly when it has fewer than two links or two texts.
   */
  lemma CardRecordChoice(resolve: (string, string) -> string, card: Card)
    ensures CardRecord(resolve, card).None? <==> |card.links| < 2 || |CardTexts(card)| < 2
    ensures CardRecord(resolve, card).Some? ==>
              var c := CardRecord(resolve, card).value;
              var texts := CardTexts(card);
              (exists i :: IsFirstMax(texts, TextLength, i) && c.jobTitle == texts[i])
              && (exists i :: IsLastMin(texts, TextLength, i) && c.companyName == texts[i])
              && c.jobUrl == Some(JobLink(resolve, card.links[0].href))
              && c.companyUrl.None? && c.homepage.None? && c.emails == []
  {
    if CardRecord(resolve, card).Some? {
      var texts := CardTexts(card);
      var h := SortDescHead(texts, TextLength);
      var l := SortDescLast(texts, TextLength);
    }
  }

  /** The texts of a card are exactly the non-empty stripped texts of its links, in order. */
  lemma CardTextsOrder(card: Card) returns (idx: seq<nat>)
    ensures |idx| == |CardTexts(card)| && IncreasingIndices(idx, card.links)
    ensures forall k :: 0 <= k < |idx| ==> CardTexts(card)[k] == Strip(card.links[idx[k]].text) != ""
    ensures forall j :: 0 <= j < |card.links| && Strip(card.links[j].text) != "" ==> j in idx
  {
    idx := FilterMapPositions(card.links, LinkText);
  }

  /** A name already stripped: non-empty with no whitespace at either end. */
  predicate Clean(x: string)
  {
    x != "" && !IsPyWhitespace(x[0]) && !IsPyWhitespace(x[|x| - 1])
  }

  /** Two link texts of equal length: the first is the job title, the second the company name. */
  lemma CardTie(resolve: (string, string) -> string, links: seq<Anchor>)
    requires |links| == 2 && Clean(links[0].text) && Clean(links[1].text) && |links[0].text| == |links[1].text|
    ensures CardRecord(resolve, Card(links))
            == Some(Company(links[1].text, None, Some(JobLink(resolve, links[0].href)), links[0].text, None, [], None))
  {
    TieTexts(links);
    TieSort(links[0].text, links[1].text);
  }

  lemma TieTexts(links: seq<Anchor>)
    requires |links| == 2 && Clean(links[0].text) && Clean(links[1].text)
    ensures CardTexts(Card(links)) == [links[0].text, links[1].text]
  {
    CleanText(links[0]);
    CleanText(links[1]);
    FilterMapSnoc(links, 0, LinkText);
    FilterMapSnoc(links, 1, LinkText);
    assert links[..0] == [];
    assert links[..2] == links;
  }

  lemma CleanText(a: Anchor)
    requires Clean(a.text)
    ensures LinkText(a) == Some(a.text)
  {
    StripUnchanged(a.text);
  }

  lemma TieSort(x: string, y: string)
    requires |x| == |y|
    ensures SortDesc([x, y], TextLength) == [x, y]
  {
    assert [x, y][..1] == [x];
    assert SortDesc([x], TextLength) == [x];
    assert Insert(y, [x], TextLength) == [x, y];
  }

  /** `_parse_search_results`. */
  method ParseSearchResults(resolve: (string, string) -> string, cards: seq<Card>) returns (companies: seq<Company>)
    ensures companies == ParsedCards(resolve, cards)
  {
    companies := [];
    var seenCompanies: set<string> := {};
    for i := 0 to |cards|
      invariant companies == FirstByKey(FilterMap(cards[..i], CardParser(resolve)), HasName, NameKey)
      invariant seenCompanies == KeySet(companies, NameKey)
    {
      FilterMapSnoc(cards, i, CardParser(resolve));
      var before := FilterMap(cards[..i], CardParser(resolve));
      var parsed := ParseCard(resolve, cards[i]);
      if parsed.None? {
        assert FilterMap(cards[..i + 1], CardParser(resolve)) == before;
        continue;
      }
      var record := parsed.value;
      assert FilterMap(cards[..i + 1], CardParser(resolve)) == before + [record];
      var companyName := record.companyName;
      FirstByKeySnoc(before, record, HasName, NameKey);
      if companyName == "" || companyName in seenCompanies {
        continue;
      }
      KeySetAppend(companies, record, NameKey);
      seenCompanies := seenCompanies + {companyName};
      companies := companies + [record];
    }
    assert cards[..|cards|] == cards;
  }

  /** The body of the card loop up to the check on the name. */
  method ParseCard(resolve: (string, string) -> string, card: Card) returns (record: Option<Company>)
    ensures record == CardParser(resolve)(card)
  {
    var links := card.links;
    if |links| < 2 {
      return None;
    }
    var jobUrl := links[0].href;
    if jobUrl != "" && !StartsWith(jobUrl, "http") {
      jobUrl := resolve(BaseUrl, jobUrl);
    }
    var textLinks := TextLinks(links);
    if |textLinks| < 2 {
      return None;
    }
    textLinks := SortDesc(textLinks, TextLength);
    var jobTitle := textLinks[0];
    var companyName := textLinks[|textLinks| - 1];
    record := Some(Company(companyName, None, Some(jobUrl), jobTitle, None, [], None));
  }

  /** The list comprehension over a card's links that keeps the ones with a text. */
  method TextLinks(links: seq<Anchor>) returns (texts: seq<string>)
    ensures texts == FilterMap(links, LinkText)
  {
    texts := [];
    for i := 0 to |links|
      invariant texts == FilterMap(links[..i], LinkText)
    {
      FilterMapSnoc(links, i, LinkText);
      var text := Strip(links[i].text);
      if text != "" {
        texts := texts + [text];
      }
    }
    assert links[..|links|] == links;
  }

  /** Within a page the names are non-empty and distinct, each the first card record with that name. */
  lemma ParsedCardsUnique(resolve: (string, string) -> string, cards: seq<Card>) returns (idx: seq<nat>)
    ensures var all := FilterMap(cards, CardParser(resolve));
            var r := ParsedCards(resolve, cards);
            |idx| == |r| && IncreasingIndices(idx, all)
            && (forall k :: 0 <= k < |idx| ==> r[k] == all[idx[k]] && IsFirstOk(all, HasName, NameKey, idx[k]))
            && (forall i, j :: 0 <= i < j < |r| ==> r[i].companyName != r[j].companyName)
            && (forall j :: 0 <= j < |all| && HasName(all[j]) ==> all[j].companyName in KeySet(r, NameKey))
  {
    var all := FilterMap(cards, CardParser(resolve));
    idx := FirstByKeyPositions(all, HasName, NameKey);
    FirstByKeyKeys(all, HasName, NameKey);
    FirstByKeyDistinctKeys(all, HasName, NameKey);
  }

  // ---------------------------------------------------------------- search

  function PageCompanies(searchPage: (string, int) -> Option<seq<Card>>, resolve: (string, string) -> string,
                         keyword: string, page: int): seq<Company>
  {
    match searchPage(keyword, page)
    case None => []
    case Some(cards) => ParsedCards(resolve, cards)
  }

  /** The records of pages `start` to `end`, in page order. */
  function Collected(searchPage: (string, int) -> Option<seq<Card>>, resolve: (string, string) -> string,
                     keyword: string, start: int, end: int): seq<Company>
    decreases if end < start then 0 else end - start + 1
  {
    if end < start then []
    else Collected(searchPage, resolve, keyword, start, end - 1) + PageCompanies(searchPage, resolve, keyword, end)
  }

  /** What `search` returns: the records of all pages, each company name kept once. */
  function SearchResults(searchPage: (string, int) -> Option<seq<Card>>, resolve: (string, string) -> string,
                         keyword: string, start: int, end: int): seq<Company>
  {
    FirstByKey(Collected(searchPage, resolve, keyword, start, end), HasName, NameKey)
  }

  /** `search`; `delays` counts the pauses between result pages. */
  method Search(searchPage: (string, int) -> Option<seq<Card>>, resolve: (string, string) -> string,
                keyword: string, startPage: int, endPage: int)
    returns (uniqueCompanies: seq<Company>, delays: nat)
    ensures uniqueCompanies == SearchResults(searchPage, resolve, keyword, startPage, endPage)
    ensures delays == if endPage > startPage then endPage - startPage else 0
  {
    var companies;
    companies, delays := CollectPages(searchPage, resolve, keyword, startPage, endPage);

    var seen: set<string> := {};
    uniqueCompanies := [];
    for i := 0 to |companies|
      invariant uniqueCompanies == FirstByKey(companies[..i], HasName, NameKey)
      invariant seen == KeySet(uniqueCompanies, NameKey)
    {
      var company := companies[i];
      assert companies[..i + 1] == companies[..i] + [company];
      FirstByKeySnoc(companies[..i], company, HasName, NameKey);
      var companyKey := company.companyName;
      if companyKey != "" && companyKey !in seen {
        KeySetAppend(uniqueCompanies, company, NameKey);
        seen := seen + {companyKey};
        uniqueCompanies := uniqueCompanies + [company];
      }
    }
    assert companies[..|companies|] == companies;
  }

  /** The page loop of `search`: the records of every page, in page order, and the pauses between pages. */
  method CollectPages(searchPage: (string, int) -> Option<seq<Card>>, resolve: (string, string) -> string,
                      keyword: string, startPage: int, endPage: int)
    returns (companies: seq<Company>, delays: nat)
    ensures companies == Collected(searchPage, resolve, keyword, startPage, endPage)
    ensures delays == if endPage > startPage then endPage - startPage else 0
  {
    companies := [];
    delays := 0;
    var page := startPage;
    while page <= endPage
      invariant endPage < startPage ==> page == startPage
      invariant startPage <= endPage ==> startPage <= page <= endPage + 1
      invariant companies == Collected(searchPage, resolve, keyword, startPage, page - 1)
      invariant delays == page - startPage - (if page > endPage && page > startPage then 1 else 0)
      decreases endPage - page
    {
      var cards := searchPage(keyword, page);
      var pageCompanies := [];
      if cards.Some? {
        pageCompanies := ParseSearchResults(resolve, cards.value);
      }
      assert pageCompanies == PageCompanies(searchPage, resolve, keyword, page);
      assert Collected(searchPage, resolve, keyword, startPage, page) == companies + pageCompanies;
      companies := companies + pageCompanies;
      if page < endPage {
        delays := delays + 1;
      }
      page := page + 1;
    }
  }

  /**
   * Across pages the names are non-empty and distinct, the first record with each name kept, in
   * order, and every non-empty name among the collected records is represented.
   */
  lemma SearchResultsUnique(searchPage: (string, int) -> Option<seq<Card>>, resolve: (string, string) -> string,
                            keyword: string, start: int, end: int) returns (idx: seq<nat>)
    ensures var all := Collected(searchPage, resolve, keyword, start, end);
            var r := SearchResults(searchPage, resolve, keyword, start, end);
            |idx| == |r| && IncreasingIndices(idx, all)
            && (forall k :: 0 <= k < |idx| ==> r[k] == all[idx[k]] && IsFirstOk(all, HasName, NameKey, idx[k]))
            && (forall k :: 0 <= k < |r| ==> r[k].companyName != "")
            && (forall i, j :: 0 <= i < j < |r| ==> r[i].companyName != r[j].companyName)
            && (forall j :: 0 <= j < |all| && HasName(all[j]) ==> NameKey(all[j]) in KeySet(r, NameKey))
  {
    var all := Collected(searchPage, resolve, keyword, start, end);
    idx := FirstByKeyPositions(all, HasName, NameKey);
    FirstByKeyKeys(all, HasName, NameKey);
    FirstByKeyDistinctKeys(all, HasName, NameKey);
    FirstByKeyMembers(all, HasName, NameKey);
  }

  // ---------------------------------------------------------------- company page from a job page

  /** `/Recruit/Co_Read/C/` followed by a digit starts at position i. */
  predicate CoReadAt(html: string, i: nat)
  {
    i + |CoReadPath| < |html| && html[i..i + |CoReadPath|] == CoReadPath && IsAsciiDigit(html[i + |CoReadPath|])
  }

  /** The leftmost position from `i` on where the pattern matches. */
  function FirstCoRead(html: string, i: nat): (r: Option<nat>)
    ensures r.Some? ==> i <= r.value && CoReadAt(html, r.value) && forall j :: i <= j < r.value ==> !CoReadAt(html, j)
    ensures r.None? ==> forall j :: i <= j ==> !CoReadAt(html, j)
    decreases |html| - i
  {
    if i + |CoReadPath| >= |html| then None
    else if CoReadAt(html, i) then Some(i)
    else FirstCoRead(html, i + 1)
  }

  /** The company page URL `re.search` leads to: the site, the path, and the whole run of digits. */
  function CompanyUrlIn(html: string): (r: Option<string>)
  {
    match FirstCoRead(html, 0)
    case None => None
    case Some(i) =>
      var start := i + |CoReadPath|;
      Some(BaseUrl + CoReadPath + html[start..RunEnd(html, start, IsAsciiDigit)])
  }

  /** What `_get_company_url_from_job` returns for a job page URL. */
  function CompanyUrlFromJob(fetchJob: string -> Option<string>, jobUrl: string): Option<string>
  {
    match fetchJob(jobUrl)
    case None => None
    case Some(html) => if html == "" then None else CompanyUrlIn(html)
  }

  /**
   * The URL found is the site's company page for a number `id`: "/Recruit/Co_Read/C/" then the
   * number start at position i of the page, the leftmost place the pattern matches, and the
   * number is the whole run of digits there; there is none exactly when the pattern occurs nowhere.
   */
  lemma CompanyUrlInMatch(html: string) returns (i: nat, id: string)
    ensures CompanyUrlIn(html).None? <==> forall j :: 0 <= j ==> !CoReadAt(html, j)
    ensures CompanyUrlIn(html).Some? ==>
              CompanyUrlIn(html).value == BaseUrl + CoReadPath + id && IsDigits(id)
              && CoReadAt(html, i) && (forall j :: 0 <= j < i ==> !CoReadAt(html, j))
              && i + |CoReadPath| + |id| <= |html| && html[i + |CoReadPath|..i + |CoReadPath| + |id|] == id
              && (i + |CoReadPath| + |id| == |html| || !IsAsciiDigit(html[i + |CoReadPath| + |id|]))
  {
    i, id := 0, "";
    if FirstCoRead(html, 0).Some? {
      i := FirstCoRead(html, 0).value;
      var start := i + |CoReadPath|;
      var e := RunEnd(html, start, IsAsciiDigit);
      id := html[start..e];
      assert forall k :: 0 <= k < |id| ==> id[k] == html[start + k];
    }
  }

  /** `_get_company_url_from_job`. */
  method GetCompanyUrlFromJob(fetchJob: string -> Option<string>, jobUrl: string) returns (companyUrl: Option<string>)
    ensures companyUrl == CompanyUrlFromJob(fetchJob, jobUrl)
    ensures fetchJob(jobUrl).None? ==> companyUrl.None?
    ensures companyUrl.Some? ==> StartsWith(companyUrl.value, BaseUrl + CoReadPath) && |companyUrl.value| > |BaseUrl + CoReadPath|
  {
    var html := fetchJob(jobUrl);
    if html.None? || html.value == "" {
      return None;
    }
    var _, _ := CompanyUrlInMatch(html.value);
    var m := FirstCoRead(html.value, 0);
    if m.Some? {
      var start := m.value + |CoReadPath|;
      var companyId := html.value[start..RunEnd(html.value, start, IsAsciiDigit)];
      companyUrl := Some(BaseUrl + CoReadPath + companyId);
      assert StartsWith(companyUrl.value, BaseUrl + CoReadPath) by {
        assert (BaseUrl + CoReadPath + companyId)[..|BaseUrl + CoReadPath|] == BaseUrl + CoReadPath;
      }
      return;
    }
    return None;
  }

  // ---------------------------------------------------------------- homepage on the company page

  /** A text node of the company page, and the href of the first `a[href]` after its parent. */
  datatype TextNode = TextNode(text: string, nextLink: Option<string>)

  /** A company page as the two strategies see it: its text nodes and its links with an href. */
  datatype CompanyPage = CompanyPage(nodes: seq<TextNode>, anchors: seq<Anchor>)

  /** The test both strategies apply: no excluded host occurs in the link. */
  predicate Excluded(href: string)
  {
    ContainsAny(href, ExcludeDomains)
  }

  function NodeCandidate(n: TextNode): Option<string>
  {
    if n.text != "" && Contains(n.text, "홈페이지") && n.nextLink.Some?
       && StartsWith(n.nextLink.value, "http") && !Excluded(n.nextLink.value)
    then n.nextLink else None
  }

  /** Only links whose href starts with "http" are selected. */
  function LinkCandidate(a: Anchor): Option<string>
  {
    if StartsWith(a.href, "http") && !Excluded(a.href) then Some(a.href) else None
  }

  function NodeCandidates(ns: seq<TextNode>): seq<Option<string>>
  {
    seq(|ns|, i requires 0 <= i < |ns| => NodeCandidate(ns[i]))
  }

  function LinkCandidates(links: seq<Anchor>): seq<Option<string>>
  {
    seq(|links|, i requires 0 <= i < |links| => LinkCandidate(links[i]))
  }

  /** What each strategy finds on its own, in the order they are tried. */
  function Strategies(p: CompanyPage): seq<Option<string>>
  {
    [FirstSome(NodeCandidates(p.nodes)), FirstSome(LinkCandidates(p.anchors))]
  }

  function Homepage(p: CompanyPage): Option<string>
  {
    FirstSome(Strategies(p))
  }

  /** What `get_company_detail` returns for a company page URL. */
  function DetailHomepage(fetchDetail: string -> Option<CompanyPage>, companyUrl: string): Option<string>
  {
    match fetchDetail(companyUrl)
    case None => None
    case Some(p) => Homepage(p)
  }

  /**
   * A homepage found on a company page starts with "http" and contains none of the sixteen
   * hosts; the label strategy is tried first, and the first external link only when it found nothing.
   */
  lemma HomepageAcceptable(p: CompanyPage)
    ensures Homepage(p).Some? ==> StartsWith(Homepage(p).value, "http") && !Excluded(Homepage(p).value)
    ensures FirstSome(NodeCandidates(p.nodes)).Some? ==> Homepage(p) == FirstSome(NodeCandidates(p.nodes))
    ensures FirstSome(NodeCandidates(p.nodes)).None? ==> Homepage(p) == FirstSome(LinkCandidates(p.anchors))
  {
    if Homepage(p).Some? {
      var s := FirstSomeFound(Strategies(p));
      if s == 0 {
        var k := FirstSomeFound(NodeCandidates(p.nodes));
      } else {
        var k := FirstSomeFound(LinkCandidates(p.anchors));
      }
    }
    FirstSomeStep(Strategies(p), 0);
    FirstSomeStep(Strategies(p), 1);
    assert Strategies(p)[0..] == Strategies(p);
    assert Strategies(p)[2..] == [];
  }

  /** `get_company_detail`: the two strategy loops, each stopping at its first success. */
  method GetCompanyDetail(fetchDetail: string -> Option<CompanyPage>, companyUrl: string) returns (homepage: Option<string>)
    ensures homepage == DetailHomepage(fetchDetail, companyUrl)
    ensures homepage.Some? ==> StartsWith(homepage.value, "http") && !ContainsAny(homepage.value, ExcludeDomains)
  {
    var html := fetchDetail(companyUrl);
    if html.None? {
      return None;
    }
    var p := html.value;
    HomepageAcceptable(p);
    homepage := None;

    var i := 0;
    while i < |p.nodes|
      invariant 0 <= i <= |p.nodes|
      invariant FirstSome(NodeCandidates(p.nodes)) == FirstSome(NodeCandidates(p.nodes)[i..])
    {
      FirstSomeStep(NodeCandidates(p.nodes), i);
      var elem := p.nodes[i];
      if elem.text != "" && Contains(elem.text, "홈페이지") {
        var nextLink := elem.nextLink;
        if nextLink.Some? {
          var href := nextLink.value;
          if StartsWith(href, "http") && !ContainsAny(href, ExcludeDomains) {
            homepage := Some(href);
            break;
          }
        }
      }
      i := i + 1;
    }
    assert NodeCandidates(p.nodes)[|p.nodes|..] == [];
    assert homepage == FirstSome(NodeCandidates(p.nodes));

    if homepage.None? {
      var j := 0;
      while j < |p.anchors|
        invariant 0 <= j <= |p.anchors|
        invariant FirstSome(LinkCandidates(p.anchors)) == FirstSome(LinkCandidates(p.anchors)[j..])
      {
        FirstSomeStep(LinkCandidates(p.anchors), j);
        var link := p.anchors[j];
        if StartsWith(link.href, "http") {
          var href := link.href;
          if !ContainsAny(href, ExcludeDomains) {
            homepage := Some(href);
            break;
          }
        }
        j := j + 1;
      }
      assert LinkCandidates(p.anchors)[|p.anchors|..] == [];
    }
  }

  // ---------------------------------------------------------------- enrichment

  /** The sites the enrichment loop reads: job pages, company pages, homepages and contact pages. */
  datatype Sites = Sites(fetchJob: string -> Option<string>, fetchDetail: string -> Option<CompanyPage>,
                         fetchSite: string -> Option<Page>, ops: UrlOps)

  /**
   * `d` is `c` after the body of the enrichment loop, given the stage that raises, if any: the
   * callback (when there is one); the company page lookup (only when the job URL is truthy),
   * which overwrites the company URL, with `None` when it finds none; the homepage lookup
   * (only when that URL is truthy); the address extraction (only when the homepage is then
   * truthy).  An exception leaves what was already set and skips the rest.
   */
  ghost predicate Enriched(c: Company, d: Company, s: Sites, fault: Option<Stage>, hasCallback: bool)
  {
    var stopped := hasCallback && fault == Some(AtCallback);
    var lookupRuns := !stopped && Truthy(c.jobUrl);
    var lookupDone := lookupRuns && fault != Some(AtJobLookup);
    var url := if lookupDone then CompanyUrlFromJob(s.fetchJob, c.jobUrl.value) else c.companyUrl;
    var detailRuns := lookupDone && Truthy(url);
    var detailDone := detailRuns && fault != Some(AtDetail);
    var home := if detailDone then DetailHomepage(s.fetchDetail, url.value) else c.homepage;
    var extractRuns := !stopped && (lookupDone || !lookupRuns) && (detailDone || !detailRuns) && Truthy(home);
    var extractDone := extractRuns && fault != Some(AtExtract);
    d == c.(companyUrl := url, homepage := home, emails := d.emails)
    && if extractDone
       then ToSet(d.emails) == EmailExtractor.SiteEmails(s.fetchSite, s.ops, home.value) && NoDup(d.emails)
       else d.emails == c.emails
  }

  /**
   * `crawl_with_emails`.  `fault(i)` is the stage at which processing company i raises, if any;
   * `enriched` is the list after the loop, before the sort.
   */
  method CrawlWithEmails(searchPage: (string, int) -> Option<seq<Card>>, resolve: (string, string) -> string,
                         s: Sites, fault: nat -> Option<Stage>, hasCallback: bool,
                         keyword: string, startPage: int, endPage: int)
    returns (result: seq<Company>, calls: seq<Progress>, ghost enriched: seq<Company>)
    ensures var found := SearchResults(searchPage, resolve, keyword, startPage, endPage);
            |enriched| == |found|
            && (forall i :: 0 <= i < |found| ==> Enriched(found[i], enriched[i], s, fault(i), hasCallback))
            && calls == (if hasCallback then ProgressCalls(found, |found|) else [])
    ensures result == SortDesc(enriched, EmailCount)
  {
    var companies, _ := Search(searchPage, resolve, keyword, startPage, endPage);
    var total := |companies|;
    var work := companies;
    calls := [];
    for idx := 0 to total
      invariant |work| == total
      invariant forall i :: 0 <= i < idx ==> Enriched(companies[i], work[i], s, fault(i), hasCallback)
      invariant forall i :: idx <= i < total ==> work[i] == companies[i]
      invariant calls == if hasCallback then ProgressCalls(companies, idx) else []
    {
      if hasCallback {
        ProgressCallsSnoc(companies, idx);
        calls := calls + [Progress(idx + 1, total, work[idx].companyName)];
      }
      var company := ProcessCompany(s, fault(idx), hasCallback, work[idx]);
      work := work[idx := company];
    }
    enriched := work;
    result := SortDesc(work, EmailCount);
  }

  /**
   * The `try` block of the enrichment loop for one company, the callback already called: an
   * exception at a stage ends the block with what was set so far.
   */
  method ProcessCompany(s: Sites, failure: Option<Stage>, hasCallback: bool, c: Company) returns (company: Company)
    ensures Enriched(c, company, s, failure, hasCallback)
  {
    company := c;
    if hasCallback && failure == Some(AtCallback) {
      return;
    }
    if Truthy(company.jobUrl) {
      if failure == Some(AtJobLookup) {
        return;
      }
      var companyUrl := GetCompanyUrlFromJob(s.fetchJob, company.jobUrl.value);
      company := company.(companyUrl := companyUrl);
      if Truthy(companyUrl) {
        if failure == Some(AtDetail) {
          return;
        }
        var detail := GetCompanyDetail(s.fetchDetail, companyUrl.value);
        company := company.(homepage := detail);
      }
    }
    if Truthy(company.homepage) {
      if failure == Some(AtExtract) {
        return;
      }
      var emails, _ := EmailExtractor.ExtractFromUrl(s.fetchSite, s.ops, company.homepage.value);
      company := company.(emails := emails);
    }
  }


  /**
   * A company whose job page leads to no company page keeps no company URL and gets no
   * homepage; one found is the site's company page; every address found is valid.
   */
  lemma EnrichedLookup(c: Company, d: Company, s: Sites, fault: Option<Stage>, hasCallback: bool)
    requires Enriched(c, d, s, fault, hasCallback)
    requires c.companyUrl.None? && c.homepage.None? && c.emails == []
    ensures d.companyName == c.companyName && d.jobUrl == c.jobUrl && d.jobTitle == c.jobTitle
    ensures d.companyUrl.Some? ==> StartsWith(d.companyUrl.value, BaseUrl + CoReadPath)
    ensures d.companyUrl.None? ==> d.homepage.None? && d.emails == []
    ensures d.homepage.Some? ==> StartsWith(d.homepage.value, "http") && !Excluded(d.homepage.value)
    ensures forall e :: e in d.emails ==> EmailExtractor.IsValidEmail(e)
  {
    if d.companyUrl.Some? {
      var html := s.fetchJob(c.jobUrl.value).value;
      var i, id := CompanyUrlInMatch(html);
      assert d.companyUrl.value[..|BaseUrl + CoReadPath|] == BaseUrl + CoReadPath;
    }
    if d.homepage.Some? {
      HomepageAcceptable(s.fetchDetail(d.companyUrl.value).value);
      EmailExtractor.SiteEmailsValid(s.fetchSite, s.ops, d.homepage.value);
    }
    forall e | e in d.emails ensures EmailExtractor.IsValidEmail(e) {
      assert e in ToSet(d.emails);
    }
  }
}
