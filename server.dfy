/**
 * The two crawl endpoints of the API server (server.py): `/api/crawl`, which validates the
 * request and answers with the ranked companies in one JSON reply, and `/api/crawl/stream`,
 * which validates only the keyword and then streams a `start` event, one `progress` event per
 * company, and a `complete` event, or a single `error` event.
 *
 * Both endpoints drive the Saramin adapter; the model runs the Saramin model's own search and
 * per-company enrichment.  An exception escaping the search is the parameter `searchFault`
 * (its message), one raised while enriching company i is `fault(i)`.
 */
module Server {
  import opened Wrappers
  import opened Text
  import opened Sorting
  import opened Records
  import Saramin

  /** The request body; pydantic fills in 5 pages and the source "saramin" when they are absent. */
  datatype CrawlRequest = CrawlRequest(keyword: string, pages: int, source: string)

  /** A reply: an HTTP error with its detail, the JSON body of `/api/crawl`, or an event stream. */
  datatype Reply =
    | Failure(status: int, detail: string)
    | Crawled(keyword: string, total: nat, companies: seq<Company>)
    | Events(events: seq<Event>)

  /** One server-sent event of `/api/crawl/stream`. */
  datatype Event =
    | Start(total: nat)
    | ProgressEvent(current: nat, total: nat, company: Company)
    | Complete(total: nat)
    | ErrorEvent(message: string)

  const BlankKeywordDetail: string := "검색어를 입력해주세요."
  const PagesRangeDetail: string := "페이지 수는 1~10 사이여야 합니다."

  function UnsupportedSource(source: string): string
  {
    "지원하지 않는 소스: " + source
  }

  /** The only source the server drives. */
  const Supported: string := "saramin"

  /** The message of the `TypeError` the call `crawl_with_emails(keyword=…, pages=…)` raises. */
  const PagesKeywordError: string := "SaraminCrawler.crawl_with_emails() got an unexpected keyword argument 'pages'"

  /** The text `str(e)` of an `HTTPException`: its status, a colon and its detail. */
  function HttpExceptionText(status: int, detail: string): string
  {
    IntToDecimal(status) + ": " + detail
  }

  predicate BlankKeyword(keyword: string)
  {
    Strip(keyword) == ""
  }

  predicate PagesInRange(pages: int)
  {
    1 <= pages <= 10
  }

  /** The 400 reply `/api/crawl` gives before it crawls, if any: the keyword is checked first. */
  function CrawlRejection(req: CrawlRequest): Option<Reply>
  {
    if BlankKeyword(req.keyword) then Some(Failure(400, BlankKeywordDetail))
    else if !PagesInRange(req.pages) then Some(Failure(400, PagesRangeDetail))
    else None
  }

  /**
   * A request is refused with 400 exactly when its keyword is blank or its page count is
   * outside 1..10, and the detail names the first check that fails.
   */
  lemma CrawlRejectionCases(req: CrawlRequest)
    ensures CrawlRejection(req).Some? <==> BlankKeyword(req.keyword) || !PagesInRange(req.pages)
    ensures CrawlRejection(req).Some? ==> CrawlRejection(req).value.Failure? && CrawlRejection(req).value.status == 400
    ensures BlankKeyword(req.keyword) ==> CrawlRejection(req) == Some(Failure(400, BlankKeywordDetail))
    ensures !BlankKeyword(req.keyword) && !PagesInRange(req.pages) ==> CrawlRejection(req) == Some(Failure(400, PagesRangeDetail))
  {
  }

  // ---------------------------------------------------------------- /api/crawl

  /**
   * `/api/crawl` as written.  Its call passes `pages=` to `crawl_with_emails`, whose parameters
   * are `start_page` and `end_page`, so a valid Saramin request raises a `TypeError` before any
   * crawling; every exception in the `try`, the 400 for an unknown source included, becomes a 500.
   */
  function CrawlAsWritten(req: CrawlRequest): Reply
  {
    match CrawlRejection(req)
    case Some(rejection) => rejection
    case None =>
      if req.source == Supported then Failure(500, PagesKeywordError)
      else Failure(500, HttpExceptionText(400, UnsupportedSource(req.source)))
  }

  /** `/api/crawl` as written never answers with companies: a valid Saramin request always fails with 500. */
  lemma CrawlAsWrittenNeverServes(req: CrawlRequest)
    ensures !CrawlAsWritten(req).Crawled?
    ensures CrawlRejection(req).None? && req.source == Supported ==> CrawlAsWritten(req) == Failure(500, PagesKeywordError)
    ensures CrawlRejection(req).None? && req.source != Supported ==>
              CrawlAsWritten(req) == Failure(500, "400: " + UnsupportedSource(req.source))
  {
    assert IntToDecimal(400) == "400" by {
      assert NatToDecimal(400) == NatToDecimal(40) + [DigitChar(0)];
      assert NatToDecimal(40) == NatToDecimal(4) + [DigitChar(0)];
    }
  }

  /**
   * `/api/crawl` with the call it evidently means, `crawl_with_emails(keyword, 1, pages)`:
   * a valid Saramin request answers with the ranked result of crawling pages 1 to `pages`.
   */
  method Crawl(searchPage: (string, int) -> Option<seq<Saramin.SearchItem>>, resolve: (string, string) -> string,
               s: Saramin.Sites, searchFault: Option<string>, fault: nat -> Option<Stage>, req: CrawlRequest)
    returns (reply: Reply, ghost enriched: seq<Company>)
    ensures CrawlRejection(req).Some? ==> reply == CrawlRejection(req).value
    ensures CrawlRejection(req).None? && req.source != Supported ==>
              reply == Failure(500, HttpExceptionText(400, UnsupportedSource(req.source)))
    ensures CrawlRejection(req).None? && req.source == Supported && searchFault.Some? ==>
              reply == Failure(500, searchFault.value)
    ensures CrawlRejection(req).None? && req.source == Supported && searchFault.None? ==>
              var found := Saramin.SearchResults(searchPage, resolve, req.keyword, 1, req.pages);
              |enriched| == |found|
              && (forall i :: 0 <= i < |found| ==> Saramin.Enriched(found[i], enriched[i], s, fault(i), false))
              && reply == Crawled(req.keyword, |found|, SortDesc(enriched, EmailCount))
  {
    enriched := [];
    var rejection := CrawlRejection(req);
    if rejection.Some? {
      return rejection.value, [];
    }
    if req.source != Supported {
      return Failure(500, HttpExceptionText(400, UnsupportedSource(req.source))), [];
    }
    if searchFault.Some? {
      return Failure(500, searchFault.value), [];
    }
    var results, calls;
    results, calls, enriched := Saramin.CrawlWithEmails(searchPage, resolve, s, fault, false, req.keyword, 1, req.pages);
    RankByEmails(enriched);
    assert |results| == |multiset(results)| == |multiset(enriched)| == |enriched|;
    reply := Crawled(req.keyword, |results|, results);
  }

  // ---------------------------------------------------------------- /api/crawl/stream

  /** The progress events for the first n of `cs`: positions counted from 1, out of `|cs|`. */
  function ProgressEvents(cs: seq<Company>, n: nat): (r: seq<Event>)
    requires n <= |cs|
  {
    seq(n, i requires 0 <= i < n => ProgressEvent(i + 1, |cs|, cs[i]))
  }

  /** The whole stream for the enriched companies `cs`. */
  function StreamOf(cs: seq<Company>): seq<Event>
  {
    [Start(|cs|)] + ProgressEvents(cs, |cs|) + [Complete(|cs|)]
  }

  /**
   * What `generate()` yields when it searches pages `startPage..endPage`: a single error event
   * for an unknown source or a failed search, else the stream of the enriched search results.
   */
  ghost predicate Streamed(searchPage: (string, int) -> Option<seq<Saramin.SearchItem>>, resolve: (string, string) -> string,
                           s: Saramin.Sites, searchFault: Option<string>, fault: nat -> Option<Stage>,
                           req: CrawlRequest, startPage: int, endPage: int, events: seq<Event>, enriched: seq<Company>)
  {
    if req.source != Supported then events == [ErrorEvent(UnsupportedSource(req.source))]
    else if searchFault.Some? then events == [ErrorEvent(searchFault.value)]
    else
      var found := Saramin.SearchResults(searchPage, resolve, req.keyword, startPage, endPage);
      |enriched| == |found|
      && (forall i :: 0 <= i < |found| ==> Saramin.Enriched(found[i], enriched[i], s, fault(i), false))
      && events == StreamOf(enriched)
  }

  /** `generate()`, searching pages `startPage..endPage`. */
  method Generate(searchPage: (string, int) -> Option<seq<Saramin.SearchItem>>, resolve: (string, string) -> string,
                  s: Saramin.Sites, searchFault: Option<string>, fault: nat -> Option<Stage>,
                  req: CrawlRequest, startPage: int, endPage: int)
    returns (events: seq<Event>, ghost enriched: seq<Company>)
    ensures Streamed(searchPage, resolve, s, searchFault, fault, req, startPage, endPage, events, enriched)
  {
    enriched := [];
    if req.source != Supported {
      return [ErrorEvent(UnsupportedSource(req.source))], [];
    }
    if searchFault.Some? {
      return [ErrorEvent(searchFault.value)], [];
    }
    var companies, _ := Saramin.Search(searchPage, resolve, req.keyword, startPage, endPage);
    var progress;
    progress, enriched := Report(s, fault, companies);
    events := [Start(|companies|)] + progress + [Complete(|companies|)];
  }

  /** The loop of `generate()`: enrich each company in turn and report it, failed or not. */
  method Report(s: Saramin.Sites, fault: nat -> Option<Stage>, companies: seq<Company>)
    returns (progress: seq<Event>, work: seq<Company>)
    ensures |work| == |companies|
    ensures forall i :: 0 <= i < |companies| ==> Saramin.Enriched(companies[i], work[i], s, fault(i), false)
    ensures progress == ProgressEvents(work, |work|)
  {
    var total := |companies|;
    progress := [];
    work := companies;
    for idx := 0 to total
      invariant |work| == total
      invariant forall i :: 0 <= i < idx ==> Saramin.Enriched(companies[i], work[i], s, fault(i), false)
      invariant forall i :: idx <= i < total ==> work[i] == companies[i]
      invariant progress == ProgressEvents(work, idx)
    {
      var company := Saramin.ProcessCompany(s, fault(idx), false, work[idx]);
      ProgressEventsSnoc(work, idx, company);
      work := work[idx := company];
      progress := progress + [ProgressEvent(idx + 1, total, company)];
    }
  }

  lemma ProgressEventsSnoc(cs: seq<Company>, n: nat, c: Company)
    requires n < |cs|
    ensures ProgressEvents(cs[n := c], n + 1) == ProgressEvents(cs, n) + [ProgressEvent(n + 1, |cs|, c)]
  {
    assert ProgressEvents(cs[n := c], n + 1)[..n] == ProgressEvents(cs, n);
  }

  /**
   * The stream for N companies has N + 2 events: `start` with N, then `progress` for company
   * 1 to N in order, each with the total N, then `complete` with N.
   */
  lemma StreamShape(cs: seq<Company>)
    ensures |StreamOf(cs)| == |cs| + 2
    ensures StreamOf(cs)[0] == Start(|cs|) && StreamOf(cs)[|cs| + 1] == Complete(|cs|)
    ensures forall i :: 1 <= i <= |cs| ==> StreamOf(cs)[i] == ProgressEvent(i, |cs|, cs[i - 1])
  {
  }

  /**
   * An unknown source or a failed search gives exactly one event, an error; otherwise there is
   * exactly one `start` (the first event), one `complete` (the last) and no error, and the
   * progress events name the search results in order, a company that failed included.
   */
  lemma StreamedEvents(searchPage: (string, int) -> Option<seq<Saramin.SearchItem>>, resolve: (string, string) -> string,
                       s: Saramin.Sites, searchFault: Option<string>, fault: nat -> Option<Stage>,
                       req: CrawlRequest, startPage: int, endPage: int, events: seq<Event>, enriched: seq<Company>)
    requires Streamed(searchPage, resolve, s, searchFault, fault, req, startPage, endPage, events, enriched)
    ensures req.source != Supported || searchFault.Some? ==> |events| == 1 && events[0].ErrorEvent?
    ensures req.source == Supported && searchFault.None? ==>
              var found := Saramin.SearchResults(searchPage, resolve, req.keyword, startPage, endPage);
              |events| == |found| + 2
              && events[0] == Start(|found|) && events[|found| + 1] == Complete(|found|)
              && (forall i :: 0 <= i < |events| ==> !events[i].ErrorEvent?)
              && (forall i :: 1 <= i <= |found| ==>
                    events[i].ProgressEvent? && events[i].current == i && events[i].total == |found|
                    && events[i].company.companyName == found[i - 1].companyName
                    && events[i].company.companyUrl == found[i - 1].companyUrl)
  {
    if req.source == Supported && searchFault.None? {
      var found := Saramin.SearchResults(searchPage, resolve, req.keyword, startPage, endPage);
      StreamShape(enriched);
      forall i | 1 <= i <= |found|
        ensures events[i].company.companyName == found[i - 1].companyName
        ensures events[i].company.companyUrl == found[i - 1].companyUrl
      {
        Saramin.EnrichedKeepsRecord(found[i - 1], enriched[i - 1], s, fault(i - 1), false);
      }
    }
  }

  /**
   * `/api/crawl/stream` as written: it checks only the keyword, and its `search(keyword, pages)`
   * passes the page count as the first page, so it searches pages `pages` to 5.
   */
  method CrawlStreamAsWritten(searchPage: (string, int) -> Option<seq<Saramin.SearchItem>>, resolve: (string, string) -> string,
                              s: Saramin.Sites, searchFault: Option<string>, fault: nat -> Option<Stage>, req: CrawlRequest)
    returns (reply: Reply, ghost enriched: seq<Company>)
    ensures BlankKeyword(req.keyword) ==> reply == Failure(400, BlankKeywordDetail)
    ensures !BlankKeyword(req.keyword) ==>
              reply.Events? && Streamed(searchPage, resolve, s, searchFault, fault, req, req.pages, 5, reply.events, enriched)
  {
    if BlankKeyword(req.keyword) {
      return Failure(400, BlankKeywordDetail), [];
    }
    var events;
    events, enriched := Generate(searchPage, resolve, s, searchFault, fault, req, req.pages, 5);
    reply := Events(events);
  }

  /**
   * With a page count of 6 or more (which the stream does not refuse) the as-written stream
   * searches no page at all: whatever the site holds, it announces zero companies.
   */
  lemma StreamAsWrittenSearchesNothing(searchPage: (string, int) -> Option<seq<Saramin.SearchItem>>,
                                       resolve: (string, string) -> string, s: Saramin.Sites,
                                       fault: nat -> Option<Stage>, req: CrawlRequest,
                                       events: seq<Event>, enriched: seq<Company>)
    requires req.source == Supported && req.pages >= 6
    requires Streamed(searchPage, resolve, s, None, fault, req, req.pages, 5, events, enriched)
    ensures events == [Start(0), Complete(0)]
  {
    assert Saramin.Collected(searchPage, resolve, req.keyword, req.pages, 5) == [];
    assert enriched == [];
  }

  /**
   * `/api/crawl/stream` with the call it evidently means, `search(keyword, 1, pages)`: it
   * streams the companies of pages 1 to `pages`.
   */
  method CrawlStream(searchPage: (string, int) -> Option<seq<Saramin.SearchItem>>, resolve: (string, string) -> string,
                     s: Saramin.Sites, searchFault: Option<string>, fault: nat -> Option<Stage>, req: CrawlRequest)
    returns (reply: Reply, ghost enriched: seq<Company>)
    ensures BlankKeyword(req.keyword) ==> reply == Failure(400, BlankKeywordDetail)
    ensures !BlankKeyword(req.keyword) ==>
              reply.Events? && Streamed(searchPage, resolve, s, searchFault, fault, req, 1, req.pages, reply.events, enriched)
  {
    if BlankKeyword(req.keyword) {
      return Failure(400, BlankKeywordDetail), [];
    }
    var events;
    events, enriched := Generate(searchPage, resolve, s, searchFault, fault, req, 1, req.pages);
    reply := Events(events);
  }
}
