/**
 * The Saramin adapter (crawlers/saramin.py): reading the search result pages, keeping one
 * record per company page, finding a company's homepage by four fallback strategies, and the
 * enrichment loop that fills in homepages and addresses and ranks the companies.
 *
 * A search result page is the sequence of its `.item_recruit` elements; a company page is the
 * few element sequences the four strategies look at.  Fetching a page is an oracle that yields
 * the parsed page or nothing.
 */
module Saramin {
  import opened Wrappers
  import opened Text
  import opened Seqs
  import opened Sorting
  import opened Web
  import opened Records
  import EmailExtractor

  const BaseUrl: string := "https://www.saramin.co.kr"

  /** Links into the site itself are never a company's homepage. */
  const OwnDomain: string := "saramin.co.kr"

  /** Link texts that mark a homepage link for the third strategy. */
  const HomepageWords: seq<string> := ["홈페이지", "회사소개", "homepage", "website"]

  // ---------------------------------------------------------------- search result pages

  /** One `.item_recruit` element: its `.corp_name a` and `.job_tit a` links, when present. */
  datatype SearchItem = SearchItem(corpLink: Option<Anchor>, jobLink: Option<Anchor>)

  /** A relative company link is resolved against the site; an empty or absolute one is kept. */
  function CompanyLink(resolve: (string, string) -> string, href: string): string
  {
    if href != "" && !StartsWith(href, "http") then resolve(BaseUrl, href) else href
  }

  /** The record built from one item, or nothing when it has no company link. */
  function ParseItem(resolve: (string, string) -> string, item: SearchItem): Option<Company>
  {
    match item.corpLink
    case None => None
    case Some(a) =>
      var title := if item.jobLink.Some? then Strip(item.jobLink.value.text) else "";
      Some(Company(Strip(a.text), Some(CompanyLink(resolve, a.href)), None, title, None, [], None))
  }

  function Parser(resolve: (string, string) -> string): SearchItem -> Option<Company>
  {
    item => ParseItem(resolve, item)
  }

  function ParsedItems(resolve: (string, string) -> string, items: seq<SearchItem>): seq<Company>
  {
    FilterMap(items, Parser(resolve))
  }

  /** `_parse_search_results`. */
  method ParseSearchResults(resolve: (string, string) -> string, items: seq<SearchItem>) returns (companies: seq<Company>)
    ensures companies == ParsedItems(resolve, items)
  {
    companies := [];
    for i := 0 to |items|
      invariant companies == FilterMap(items[..i], Parser(resolve))
    {
      FilterMapSnoc(items, i, Parser(resolve));
      var item := items[i];
      if item.corpLink.None? {
        continue;
      }
      var companyElem := item.corpLink.value;
      var companyName := Strip(companyElem.text);
      var companyLink := companyElem.href;
      if companyLink != "" && !StartsWith(companyLink, "http") {
        companyLink := resolve(BaseUrl, companyLink);
      }
      var jobTitle := if item.jobLink.Some? then Strip(item.jobLink.value.text) else "";
      companies := companies + [Company(companyName, Some(companyLink), None, jobTitle, None, [], None)];
    }
    assert items[..|items|] == items;
  }

  /**
   * One record per item that has a company link, in item order: its name is the link's
   * stripped text, its company URL the link resolved against the site when it is relative,
   * its job title the job link's stripped text or "" without one; no homepage, no addresses.
   */
  lemma ParsedItemsRecords(resolve: (string, string) -> string, items: seq<SearchItem>) returns (idx: seq<nat>)
    ensures |idx| == |ParsedItems(resolve, items)| && IncreasingIndices(idx, items)
    ensures forall j :: 0 <= j < |items| && items[j].corpLink.Some? ==> j in idx
    ensures forall k :: 0 <= k < |idx| ==>
              var item := items[idx[k]];
              var c := ParsedItems(resolve, items)[k];
              item.corpLink.Some?
              && c.companyName == Strip(item.corpLink.value.text)
              && c.companyUrl == Some(CompanyLink(resolve, item.corpLink.value.href))
              && c.jobTitle == (if item.jobLink.Some? then Strip(item.jobLink.value.text) else "")
              && c.homepage.None? && c.emails == [] && c.jobUrl.None?
  {
    idx := FilterMapPositions(items, Parser(resolve));
  }

  // ---------------------------------------------------------------- search

  /** The records of one search result page; a page that cannot be fetched gives none. */
  function PageCompanies(searchPage: (string, int) -> Option<seq<SearchItem>>, resolve: (string, string) -> string,
                         keyword: string, page: int): seq<Company>
  {
    match searchPage(keyword, page)
    case None => []
    case Some(items) => ParsedItems(resolve, items)
  }

  /** The records of pages `start` to `end`, in page order. */
  function Collected(searchPage: (string, int) -> Option<seq<SearchItem>>, resolve: (string, string) -> string,
                     keyword: string, start: int, end: int): seq<Company>
    decreases if end < start then 0 else end - start + 1
  {
    if end < start then []
    else Collected(searchPage, resolve, keyword, start, end - 1) + PageCompanies(searchPage, resolve, keyword, end)
  }

  predicate HasCompanyUrl(c: Company) { Truthy(c.companyUrl) }

  function CompanyUrlKey(c: Company): string { c.companyUrl.GetOr("") }

  /** What `search` returns. */
  function SearchResults(searchPage: (string, int) -> Option<seq<SearchItem>>, resolve: (string, string) -> string,
                         keyword: string, start: int, end: int): seq<Company>
  {
    FirstByKey(Collected(searchPage, resolve, keyword, start, end), HasCompanyUrl, CompanyUrlKey)
  }

  /** `search`; `delays` counts the pauses between result pages. */
  method Search(searchPage: (string, int) -> Option<seq<SearchItem>>, resolve: (string, string) -> string,
                keyword: string, startPage: int, endPage: int)
    returns (uniqueCompanies: seq<Company>, delays: nat)
    ensures uniqueCompanies == SearchResults(searchPage, resolve, keyword, startPage, endPage)
    ensures delays == if endPage > startPage then endPage - startPage else 0
  {
    var companies;
    companies, delays := CollectPages(searchPage, resolve, keyword, startPage, endPage);

    var seen: set<string> := {};
    uniqueCompanies := [];
    for i := 0 to |companies|
      invariant uniqueCompanies == FirstByKey(companies[..i], HasCompanyUrl, CompanyUrlKey)
      invariant seen == KeySet(uniqueCompanies, CompanyUrlKey)
    {
      var company := companies[i];
      assert companies[..i + 1] == companies[..i] + [company];
      FirstByKeySnoc(companies[..i], company, HasCompanyUrl, CompanyUrlKey);
      if Truthy(company.companyUrl) && company.companyUrl.value !in seen {
        KeySetAppend(uniqueCompanies, company, CompanyUrlKey);
        seen := seen + {company.companyUrl.value};
        uniqueCompanies := uniqueCompanies + [company];
      }
    }
    assert companies[..|companies|] == companies;
  }

  /** The page loop of `search`: the records of every page, in page order, and the pauses between pages. */
  method CollectPages(searchPage: (string, int) -> Option<seq<SearchItem>>, resolve: (string, string) -> string,
                      keyword: string, startPage: int, endPage: int)
    returns (companies: seq<Company>, delays: nat)
    ensures companies == Collected(searchPage, resolve, keyword, startPage, endPage)
    ensures delays == if endPage > startPage then endPage - startPage else 0
  {
    companies := [];
    delays := 0;
    var page := startPage;
    while page <= endPage
      invariant endPage < startPage ==> page == startPage
      invariant startPage <= endPage ==> startPage <= page <= endPage + 1
      invariant companies == Collected(searchPage, resolve, keyword, startPage, page - 1)
      invariant delays == page - startPage - (if page > endPage && page > startPage then 1 else 0)
      decreases endPage - page
    {
      var items := searchPage(keyword, page);
      var pageCompanies := [];
      if items.Some? {
        pageCompanies := ParseSearchResults(resolve, items.value);
      }
      assert pageCompanies == PageCompanies(searchPage, resolve, keyword, page);
      assert Collected(searchPage, resolve, keyword, startPage, page) == companies + pageCompanies;
      companies := companies + pageCompanies;
      if page < endPage {
        delays := delays + 1;
      }
      page := page + 1;
    }
  }

  /**
   * The search output drops the records without a company URL, no two of its records share a
   * company URL, each record is the first of the collected records with its URL (in their
   * order), and every URL among the collected records is represented.
   */
  lemma SearchResultsUnique(searchPage: (string, int) -> Option<seq<SearchItem>>, resolve: (string, string) -> string,
                            keyword: string, start: int, end: int) returns (idx: seq<nat>)
    ensures var all := Collected(searchPage, resolve, keyword, start, end);
            var r := SearchResults(searchPage, resolve, keyword, start, end);
            |idx| == |r| && IncreasingIndices(idx, all)
            && (forall k :: 0 <= k < |idx| ==> r[k] == all[idx[k]] && IsFirstOk(all, HasCompanyUrl, CompanyUrlKey, idx[k]))
            && (forall i, j :: 0 <= i < j < |r| ==> r[i].companyUrl != r[j].companyUrl)
            && (forall j :: 0 <= j < |all| && HasCompanyUrl(all[j]) ==> CompanyUrlKey(all[j]) in KeySet(r, CompanyUrlKey))
  {
    var all := Collected(searchPage, resolve, keyword, start, end);
    idx := FirstByKeyPositions(all, HasCompanyUrl, CompanyUrlKey);
    FirstByKeyKeys(all, HasCompanyUrl, CompanyUrlKey);
    FirstByKeyDistinctKeys(all, HasCompanyUrl, CompanyUrlKey);
  }

  // ---------------------------------------------------------------- company page

  /** A `dt.tit` element: its text, and the first `a[href]` of the `dd` after it, when there is one. */
  datatype Label = Label(text: string, ddLink: Option<string>)

  /**
   * A company page as the four strategies see it: the `dt.tit` labels, the href of the first
   * `dl.company_details a.ellipsis` ("" when it has none), every link with an href, and the href
   * of the first `a[href]` of each `.info_item, .tb_col_list td, dd.desc` element.
   */
  datatype DetailPage = DetailPage(
    labels: seq<Label>,
    ellipsisHref: Option<string>,
    anchors: seq<Anchor>,
    infoLinks: seq<Option<string>>)

  /** The test the first, second and fourth strategies apply to a candidate. */
  predicate Acceptable(href: string)
  {
    StartsWith(href, "http") && !Contains(href, OwnDomain)
  }

  function LabelCandidate(l: Label): Option<string>
  {
    if Contains(l.text, "홈페이지") && l.ddLink.Some? && Acceptable(l.ddLink.value) then l.ddLink else None
  }

  function EllipsisCandidate(p: DetailPage): Option<string>
  {
    if p.ellipsisHref.Some? && Acceptable(p.ellipsisHref.value) then p.ellipsisHref else None
  }

  /** Only the links whose href starts with "http" are selected; their text is what decides. */
  function AnchorCandidate(a: Anchor): Option<string>
  {
    if StartsWith(a.href, "http") && ContainsAny(Lower(Strip(a.text)), HomepageWords) && !Contains(a.href, OwnDomain)
    then Some(a.href) else None
  }

  function InfoCandidate(link: Option<string>): Option<string>
  {
    if link.Some? && Acceptable(link.value) then link else None
  }

  function LabelCandidates(ls: seq<Label>): seq<Option<string>>
  {
    seq(|ls|, i requires 0 <= i < |ls| => LabelCandidate(ls[i]))
  }

  function AnchorCandidates(links: seq<Anchor>): seq<Option<string>>
  {
    seq(|links|, i requires 0 <= i < |links| => AnchorCandidate(links[i]))
  }

  function InfoCandidates(links: seq<Option<string>>): seq<Option<string>>
  {
    seq(|links|, i requires 0 <= i < |links| => InfoCandidate(links[i]))
  }

  /** What each strategy finds on its own, in the order they are tried. */
  function Strategies(p: DetailPage): seq<Option<string>>
  {
    [FirstSome(LabelCandidates(p.labels)), EllipsisCandidate(p),
     FirstSome(AnchorCandidates(p.anchors)), FirstSome(InfoCandidates(p.infoLinks))]
  }

  function Homepage(p: DetailPage): Option<string>
  {
    FirstSome(Strategies(p))
  }

  /** What `get_company_detail` returns for a company page URL. */
  function DetailHomepage(fetchDetail: string -> Option<DetailPage>, companyUrl: string): Option<string>
  {
    match fetchDetail(companyUrl)
    case None => None
    case Some(p) => Homepage(p)
  }

  /** A homepage found on a company page is an absolute http(s) link outside the site. */
  lemma HomepageAcceptable(p: DetailPage)
    ensures Homepage(p).Some? ==> Acceptable(Homepage(p).value)
  {
    if Homepage(p).Some? {
      var s := FirstSomeFound(Strategies(p));
      if s == 0 {
        var k := FirstSomeFound(LabelCandidates(p.labels));
      } else if s == 2 {
        var k := FirstSomeFound(AnchorCandidates(p.anchors));
      } else if s == 3 {
        var k := FirstSomeFound(InfoCandidates(p.infoLinks));
      }
    }
  }

  /**
   * The strategies are tried in their fixed order: the homepage is the finding of strategy k
   * exactly when every earlier strategy found nothing, and there is none when none found one.
   */
  lemma HomepageFirstStrategy(p: DetailPage)
    ensures Homepage(p).None? <==> forall j :: 0 <= j < 4 ==> Strategies(p)[j].None?
    ensures Homepage(p).Some? ==>
              exists k :: 0 <= k < 4 && Strategies(p)[k] == Homepage(p) && forall j :: 0 <= j < k ==> Strategies(p)[j].None?
  {
    FirstSomePicksFirstPresent(Strategies(p));
  }

  /** `get_company_detail`: the four strategy loops, each of which stops at its first success. */
  method GetCompanyDetail(fetchDetail: string -> Option<DetailPage>, companyUrl: string) returns (homepage: Option<string>)
    ensures homepage == DetailHomepage(fetchDetail, companyUrl)
    ensures fetchDetail(companyUrl).None? ==> homepage.None?
    ensures homepage.Some? ==> StartsWith(homepage.value, "http") && !Contains(homepage.value, OwnDomain)
  {
    var html := fetchDetail(companyUrl);
    if html.None? {
      return None;
    }
    var p := html.value;
    HomepageAcceptable(p);
    assert Strategies(p)[0..] == Strategies(p);
    assert Strategies(p)[4..] == [];

    FirstSomeStep(Strategies(p), 0);
    var s1 := FindLabelHomepage(p.labels);
    homepage := s1;

    FirstSomeStep(Strategies(p), 1);
    if homepage.None? {
      var link := p.ellipsisHref;
      if link.Some? {
        var href := link.value;
        if StartsWith(href, "http") && !Contains(href, OwnDomain) {
          homepage := Some(href);
        }
      }
    }

    FirstSomeStep(Strategies(p), 2);
    if homepage.None? {
      homepage := FindAnchorHomepage(p.anchors);
    }

    FirstSomeStep(Strategies(p), 3);
    if homepage.None? {
      homepage := FindInfoHomepage(p.infoLinks);
    }
  }

  /** The first strategy: the first "홈페이지" label whose following `dd` holds an acceptable link. */
  method FindLabelHomepage(labels: seq<Label>) returns (homepage: Option<string>)
    ensures homepage == FirstSome(LabelCandidates(labels))
  {
    homepage := None;
    var i := 0;
    while i < |labels|
      invariant 0 <= i <= |labels|
      invariant FirstSome(LabelCandidates(labels)) == FirstSome(LabelCandidates(labels)[i..])
    {
      FirstSomeStep(LabelCandidates(labels), i);
      var dt := labels[i];
      if Contains(dt.text, "홈페이지") {
        var link := dt.ddLink;
        if link.Some? {
          var href := link.value;
          if StartsWith(href, "http") && !Contains(href, OwnDomain) {
            homepage := Some(href);
            break;
          }
        }
      }
      i := i + 1;
    }
    assert LabelCandidates(labels)[|labels|..] == [];
  }

  /** The third strategy: the first external link whose text names a homepage. */
  method FindAnchorHomepage(anchors: seq<Anchor>) returns (homepage: Option<string>)
    ensures homepage == FirstSome(AnchorCandidates(anchors))
  {
    homepage := None;
    var i := 0;
    while i < |anchors|
      invariant 0 <= i <= |anchors|
      invariant FirstSome(AnchorCandidates(anchors)) == FirstSome(AnchorCandidates(anchors)[i..])
    {
      FirstSomeStep(AnchorCandidates(anchors), i);
      var link := anchors[i];
      if StartsWith(link.href, "http") {
        var href := link.href;
        var text := Lower(Strip(link.text));
        if ContainsAny(text, HomepageWords) {
          if !Contains(href, OwnDomain) {
            homepage := Some(href);
            break;
          }
        }
      }
      i := i + 1;
    }
    assert AnchorCandidates(anchors)[|anchors|..] == [];
  }

  /** The fourth strategy: the first company-information cell whose link is acceptable. */
  method FindInfoHomepage(infoLinks: seq<Option<string>>) returns (homepage: Option<string>)
    ensures homepage == FirstSome(InfoCandidates(infoLinks))
  {
    homepage := None;
    var i := 0;
    while i < |infoLinks|
      invariant 0 <= i <= |infoLinks|
      invariant FirstSome(InfoCandidates(infoLinks)) == FirstSome(InfoCandidates(infoLinks)[i..])
    {
      FirstSomeStep(InfoCandidates(infoLinks), i);
      var link := infoLinks[i];
      if link.Some? {
        var href := link.value;
        if StartsWith(href, "http") && !Contains(href, OwnDomain) {
          homepage := Some(href);
          break;
        }
      }
      i := i + 1;
    }
    assert InfoCandidates(infoLinks)[|infoLinks|..] == [];
  }

  // ---------------------------------------------------------------- enrichment

  /** The sites the enrichment loop reads: company pages, homepages and their contact pages. */
  datatype Sites = Sites(fetchDetail: string -> Option<DetailPage>, fetchSite: string -> Option<Page>, ops: UrlOps)

  /**
   * `d` is `c` after the body of the enrichment loop, given the stage that raises, if any: the
   * callback (when there is one), the homepage lookup (only when the company URL is truthy; it
   * sets the homepage), the address extraction (only when the homepage is then truthy; it sets
   * the addresses, once each, to those of the site).  An exception leaves what was already set
   * and skips the rest; nothing else changes.
   */
  ghost predicate Enriched(c: Company, d: Company, s: Sites, fault: Option<Stage>, hasCallback: bool)
  {
    var stopped := hasCallback && fault == Some(AtCallback);
    var detailRuns := !stopped && Truthy(c.companyUrl);
    var detailDone := detailRuns && fault != Some(AtDetail);
    var home := if detailDone then DetailHomepage(s.fetchDetail, c.companyUrl.value) else c.homepage;
    var extractRuns := !stopped && (detailDone || !detailRuns) && Truthy(home);
    var extractDone := extractRuns && fault != Some(AtExtract);
    d == c.(homepage := home, emails := d.emails)
    && if extractDone
       then ToSet(d.emails) == EmailExtractor.SiteEmails(s.fetchSite, s.ops, home.value) && NoDup(d.emails)
       else d.emails == c.emails
  }

  /**
   * `crawl_with_emails`.  `fault(i)` is the stage at which processing company i raises, if any;
   * `enriched` is the list after the loop, before the sort.
   */
  method CrawlWithEmails(searchPage: (string, int) -> Option<seq<SearchItem>>, resolve: (string, string) -> string,
                         s: Sites, fault: nat -> Option<Stage>, hasCallback: bool,
                         keyword: string, startPage: int, endPage: int)
    returns (result: seq<Company>, calls: seq<Progress>, ghost enriched: seq<Company>)
    ensures var found := SearchResults(searchPage, resolve, keyword, startPage, endPage);
            |enriched| == |found|
            && (forall i :: 0 <= i < |found| ==> Enriched(found[i], enriched[i], s, fault(i), hasCallback))
            && calls == (if hasCallback then ProgressCalls(found, |found|) else [])
    ensures result == SortDesc(enriched, EmailCount)
  {
    var companies, _ := Search(searchPage, resolve, keyword, startPage, endPage);
    var total := |companies|;
    var work := companies;
    calls := [];
    for idx := 0 to total
      invariant |work| == total
      invariant forall i :: 0 <= i < idx ==> Enriched(companies[i], work[i], s, fault(i), hasCallback)
      invariant forall i :: idx <= i < total ==> work[i] == companies[i]
      invariant calls == if hasCallback then ProgressCalls(companies, idx) else []
    {
      if hasCallback {
        ProgressCallsSnoc(companies, idx);
        calls := calls + [Progress(idx + 1, total, work[idx].companyName)];
      }
      var company := ProcessCompany(s, fault(idx), hasCallback, work[idx]);
      work := work[idx := company];
    }
    enriched := work;
    result := SortDesc(work, EmailCount);
  }

  /**
   * The `try` block of the enrichment loop for one company, the callback already called: an
   * exception at a stage ends the block with what was set so far.
   */
  method ProcessCompany(s: Sites, failure: Option<Stage>, hasCallback: bool, c: Company) returns (company: Company)
    ensures Enriched(c, company, s, failure, hasCallback)
  {
    company := c;
    if hasCallback && failure == Some(AtCallback) {
      return;
    }
    if Truthy(company.companyUrl) {
      if failure == Some(AtDetail) {
        return;
      }
      var detail := GetCompanyDetail(s.fetchDetail, company.companyUrl.value);
      company := company.(homepage := detail);
    }
    if Truthy(company.homepage) {
      if failure == Some(AtExtract) {
        return;
      }
      var emails, _ := EmailExtractor.ExtractFromUrl(s.fetchSite, s.ops, company.homepage.value);
      company := company.(emails := emails);
    }
  }


  /**
   * The enrichment keeps every search result: entry i of the list before the sort is search
   * result i with at most its homepage and addresses filled in, and every address found is valid.
   */
  lemma EnrichedKeepsRecord(c: Company, d: Company, s: Sites, fault: Option<Stage>, hasCallback: bool)
    requires Enriched(c, d, s, fault, hasCallback)
    ensures d.companyName == c.companyName && d.companyUrl == c.companyUrl && d.jobTitle == c.jobTitle
    ensures d.homepage.Some? && d.homepage != c.homepage ==> Acceptable(d.homepage.value)
    ensures c.emails == [] ==> forall e :: e in d.emails ==> EmailExtractor.IsValidEmail(e)
  {
    var stopped := hasCallback && fault == Some(AtCallback);
    var detailRuns := !stopped && Truthy(c.companyUrl);
    var detailDone := detailRuns && fault != Some(AtDetail);
    if detailDone {
      var url := c.companyUrl.value;
      if s.fetchDetail(url).Some? { HomepageAcceptable(s.fetchDetail(url).value); }
    }
    if d.homepage.Some? && d.homepage.value != "" {
      EmailExtractor.SiteEmailsValid(s.fetchSite, s.ops, d.homepage.value);
    }
    forall e | e in d.emails && c.emails == [] ensures EmailExtractor.IsValidEmail(e) {
      assert e in ToSet(d.emails);
    }
  }
}
