/**
 * The Wanted adapter (crawlers/wanted.py): the company search through the site's JSON API,
 * which keeps the entries with an id and a name and cuts a window of "pages" out of the
 * result list, and the company lookup, which reads the id out of a company URL or takes a
 * bare id and normalises the homepage link the API reports.
 *
 * A call of the JSON API is an oracle: the search answers with the list under
 * `data.companies`, the company lookup with the object under `company.detail`, or nothing when
 * the request fails, the body is empty or those keys are missing.
 */
module Wanted {
  import opened Wrappers
  import opened Text
  import opened Seqs
  import opened Records

  const BaseUrl: string := "https://www.wanted.co.kr"
  const ApiCompanyUrl: string := "https://www.wanted.co.kr/api/v4/companies"

  /** The page size the result list is cut by. */
  const ItemsPerPage: int := 10

  // ---------------------------------------------------------------- search

  /**
   * One entry of `data.companies`: an object with its `id` and `name` (`None` when missing or
   * null), or an entry that is no object, on which `item.get` raises.
   */
  datatype SearchItem = Malformed | Item(id: Option<JsonId>, name: Option<string>)

  /** Python's truth value of an optional id: present, and not `0` or `""`. */
  predicate IdTruthy(id: Option<JsonId>)
  {
    match id
    case None => false
    case Some(Num(n)) => n != 0
    case Some(Str(s)) => s != ""
  }

  /** Python's `str(id)` inside an f-string. */
  function IdText(id: JsonId): string
  {
    match id
    case Num(n) => IntToDecimal(n)
    case Str(s) => s
  }

  /** The company page of an id. */
  function CompanyPageUrl(id: JsonId): string
  {
    BaseUrl + "/company/" + IdText(id)
  }

  /** The placeholder title of a company, which has no job posting of its own here. */
  function PlaceholderTitle(name: string): string
  {
    name + " 채용 정보"
  }

  /** The record built from one entry, or nothing when the entry is skipped. */
  function ItemRecord(item: SearchItem): Option<Company>
  {
    if item.Malformed? || !IdTruthy(item.id) || !Truthy(item.name) then None
    else Some(Company(item.name.value, Some(CompanyPageUrl(item.id.value)), None,
                      PlaceholderTitle(item.name.value), None, [], item.id))
  }

  /** Python's reading of a slice bound against a list of length n: from the end when negative, then clamped. */
  function SliceBound(i: int, n: nat): (r: nat)
    ensures r <= n
    ensures 0 <= i <= n ==> r == i
    ensures i > n ==> r == n
    ensures i < 0 && n + i >= 0 ==> r == n + i
    ensures n + i < 0 ==> r == 0
  {
    if i < 0 then (if n + i < 0 then 0 else n + i) else if i > n then n else i
  }

  /** Python's `s[a:b]` on a list. */
  function PySlice<T>(s: seq<T>, a: int, b: int): seq<T>
  {
    var i := SliceBound(a, |s|);
    var j := SliceBound(b, |s|);
    if i < j then s[i..j] else []
  }

  /** The records of the kept entries, before the page window. */
  function Accepted(items: seq<SearchItem>): seq<Company>
  {
    FilterMap(items, ItemRecord)
  }

  /** What `search` returns. */
  function SearchResults(searchApi: string -> Option<seq<SearchItem>>, keyword: string,
                         startPage: int, endPage: int): seq<Company>
  {
    match searchApi(keyword)
    case None => []
    case Some(items) => PySlice(Accepted(items), (startPage - 1) * ItemsPerPage, endPage * ItemsPerPage)
  }

  /** `search`. */
  method Search(searchApi: string -> Option<seq<SearchItem>>, keyword: string, startPage: int, endPage: int)
    returns (window: seq<Company>)
    ensures window == SearchResults(searchApi, keyword, startPage, endPage)
  {
    var data := searchApi(keyword);
    if data.None? {
      return [];
    }
    var rawCompanies := data.value;
    var companies: seq<Company> := [];
    for i := 0 to |rawCompanies|
      invariant companies == FilterMap(rawCompanies[..i], ItemRecord)
    {
      FilterMapSnoc(rawCompanies, i, ItemRecord);
      var item := rawCompanies[i];
      if item.Malformed? {
        continue;
      }
      var companyId := item.id;
      var companyName := item.name;
      if !IdTruthy(companyId) || !Truthy(companyName) {
        continue;
      }
      var companyUrl := BaseUrl + "/company/" + IdText(companyId.value);
      companies := companies + [Company(companyName.value, Some(companyUrl), None,
                                        companyName.value + " 채용 정보", None, [], companyId)];
    }
    assert rawCompanies[..|rawCompanies|] == rawCompanies;
    var startIdx := (startPage - 1) * ItemsPerPage;
    var endIdx := endPage * ItemsPerPage;
    window := PySlice(companies, startIdx, endIdx);
  }

  /**
   * One record per entry that is an object with a truthy id and a truthy name, in entry order:
   * its company URL is the site's company page of the id, its title the name with the
   * placeholder suffix, the id is kept for the lookup, and there is no job link, homepage or
   * address yet.
   */
  lemma AcceptedRecords(items: seq<SearchItem>) returns (idx: seq<nat>)
    ensures |idx| == |Accepted(items)| && IncreasingIndices(idx, items)
    ensures forall j :: 0 <= j < |items| && items[j].Item? && IdTruthy(items[j].id) && Truthy(items[j].name) ==> j in idx
    ensures forall k :: 0 <= k < |idx| ==>
              var item := items[idx[k]];
              var c := Accepted(items)[k];
              item.Item? && IdTruthy(item.id) && Truthy(item.name)
              && c.companyName == item.name.value
              && c.companyUrl == Some(BaseUrl + "/company/" + IdText(item.id.value))
              && c.jobTitle == item.name.value + " 채용 정보"
              && c.apiId == item.id
              && c.jobUrl.None? && c.homepage.None? && c.emails == []
  {
    idx := FilterMapPositions(items, ItemRecord);
  }

  /**
   * For a window that starts at a non-negative position, the slice is the run of the list
   * between the two positions, cut off at its end: item k of the slice is item `a + k`.
   */
  lemma SliceWindow<T>(s: seq<T>, a: int, b: int)
    requires 0 <= a <= b
    ensures |PySlice(s, a, b)| == if a >= |s| then 0 else (if b < |s| then b else |s|) - a
    ensures forall k :: 0 <= k < |PySlice(s, a, b)| ==> PySlice(s, a, b)[k] == s[a + k]
  {
  }

  /** Adjacent windows join up: pages a..b followed by pages b..c are pages a..c. */
  lemma SliceAdjacent<T>(s: seq<T>, a: int, b: int, c: int)
    requires 0 <= a <= b <= c
    ensures PySlice(s, a, b) + PySlice(s, b, c) == PySlice(s, a, c)
  {
    var i, j, k := SliceBound(a, |s|), SliceBound(b, |s|), SliceBound(c, |s|);
    if i < j && j < k {
      assert s[i..j] + s[j..k] == s[i..k];
    }
  }

  /**
   * For pages `startPage..endPage` with `1 <= startPage`, the search returns the kept records
   * from position `(startPage - 1) * 10` up to `endPage * 10`, as far as the list goes; and the
   * windows of two consecutive page ranges add up to the window of the whole range.
   */
  lemma SearchPageWindow(items: seq<SearchItem>, startPage: int, midPage: int, endPage: int)
    requires 1 <= startPage <= midPage <= endPage
    ensures var w := PySlice(Accepted(items), (startPage - 1) * ItemsPerPage, endPage * ItemsPerPage);
            var n := |Accepted(items)|;
            |w| == (if (startPage - 1) * 10 >= n then 0 else (if endPage * 10 < n then endPage * 10 else n) - (startPage - 1) * 10)
            && forall k :: 0 <= k < |w| ==> w[k] == Accepted(items)[(startPage - 1) * 10 + k]
    ensures PySlice(Accepted(items), (startPage - 1) * ItemsPerPage, midPage * ItemsPerPage)
            + PySlice(Accepted(items), midPage * ItemsPerPage, endPage * ItemsPerPage)
            == PySlice(Accepted(items), (startPage - 1) * ItemsPerPage, endPage * ItemsPerPage)
  {
    SliceWindow(Accepted(items), (startPage - 1) * ItemsPerPage, endPage * ItemsPerPage);
    SliceAdjacent(Accepted(items), (startPage - 1) * ItemsPerPage, midPage * ItemsPerPage, endPage * ItemsPerPage);
  }

  /** With 25 kept records, page 2 alone is records 10 to 19. */
  lemma SecondPageOfTwentyFive(cs: seq<Company>)
    requires |cs| == 25
    ensures PySlice(cs, (2 - 1) * ItemsPerPage, 2 * ItemsPerPage) == cs[10..20]
  {
  }

  /**
   * A start page below 1 gives a negative start, which Python counts from the end: page 0
   * to page 5 of 25 records is the last ten records, not the first fifty.
   */
  lemma PageZeroCountsFromTheEnd(cs: seq<Company>)
    requires |cs| == 25
    ensures PySlice(cs, (0 - 1) * ItemsPerPage, 5 * ItemsPerPage) == cs[15..]
  {
  }

  // ---------------------------------------------------------------- company lookup

  /** The object under `company.detail`: its `link`, `None` when missing or null. */
  datatype CompanyDetail = CompanyDetail(link: Option<string>)

  /** The id read from the argument's text: the text itself when all digits, else its last `/`-segment. */
  function ApiId(text: string): (r: string)
    ensures IsDigits(text) ==> r == text
    ensures !IsDigits(text) ==>
              var t := RStrip(text, '/');
              EndsWith(t, r) && '/' !in r && (|r| == |t| || t[|t| - |r| - 1] == '/')
  {
    if IsDigits(text) then text else LastSegment(RStrip(text, '/'), '/')
  }

  /** The URL the lookup fetches, or nothing when the id is not all digits. */
  function DetailRequest(arg: JsonId): (r: Option<string>)
  {
    var apiId := ApiId(IdText(arg));
    if IsDigits(apiId) then Some(ApiCompanyUrl + "/" + apiId) else None
  }

  /** A truthy link without an `http` prefix gets `http://`; every other value is kept. */
  function NormalizeLink(link: Option<string>): Option<string>
  {
    if Truthy(link) && !StartsWith(link.value, "http") then Some("http://" + link.value) else link
  }

  /** `get_company_detail`: the `homepage` it reports. */
  function DetailHomepage(companyApi: string -> Option<CompanyDetail>, arg: JsonId): Option<string>
  {
    match DetailRequest(arg)
    case None => None
    case Some(url) =>
      match companyApi(url)
      case None => None
      case Some(detail) => NormalizeLink(detail.link)
  }

  /**
   * The company URL the search builds is read back to its id, with or without a trailing
   * slash, for an id that is a non-negative number or a digit string; so the lookup of a
   * search record fetches the API entry of that record's id.
   */
  lemma ApiIdOfCompanyPage(id: JsonId)
    requires IsDigits(IdText(id))
    ensures ApiId(CompanyPageUrl(id)) == IdText(id)
    ensures ApiId(CompanyPageUrl(id) + "/") == IdText(id)
    ensures DetailRequest(Str(CompanyPageUrl(id))) == Some(ApiCompanyUrl + "/" + IdText(id))
  {
    var d := IdText(id);
    var u := CompanyPageUrl(id);
    assert u == (BaseUrl + "/company") + ['/'] + d;
    assert !IsDigits(u) by { assert u[0] == 'h'; }
    assert !IsDigits(u + "/") by { assert (u + "/")[0] == 'h'; }
    assert u[|u| - 1] == d[|d| - 1];
    assert RStrip(u, '/') == u;
    assert (u + "/")[..|u + "/"| - 1] == u;
    assert RStrip(u + "/", '/') == u;
    SplitLastAfter(BaseUrl + "/company", d, '/');
  }

  /**
   * The lookup fetches only for an all-digit id, and then exactly the API entry of that id;
   * otherwise it reports no homepage whatever the API would answer.  A failed fetch or a
   * missing `company.detail` reports none either.
   */
  lemma DetailRequestOnlyForDigits(companyApi: string -> Option<CompanyDetail>, arg: JsonId)
    ensures DetailRequest(arg).Some? <==> IsDigits(ApiId(IdText(arg)))
    ensures DetailRequest(arg).Some? ==> DetailRequest(arg).value == ApiCompanyUrl + "/" + ApiId(IdText(arg))
    ensures DetailRequest(arg).None? ==> DetailHomepage(companyApi, arg).None?
    ensures DetailRequest(arg).Some? && companyApi(DetailRequest(arg).value).None? ==> DetailHomepage(companyApi, arg).None?
  {
  }

  /**
   * The reported homepage is the link, with `http://` put in front exactly when it is a
   * non-empty link that does not start with `http`; so it is nothing, the empty string, or a
   * string starting with `http`, and normalising it again changes nothing.
   */
  lemma NormalizeLinkHttp(link: Option<string>)
    ensures Truthy(link) && !StartsWith(link.value, "http") ==> NormalizeLink(link) == Some("http://" + link.value)
    ensures !(Truthy(link) && !StartsWith(link.value, "http")) ==> NormalizeLink(link) == link
    ensures NormalizeLink(link).None? || NormalizeLink(link) == Some("") || StartsWith(NormalizeLink(link).value, "http")
    ensures NormalizeLink(NormalizeLink(link)) == NormalizeLink(link)
  {
    if Truthy(link) && !StartsWith(link.value, "http") {
      assert ("http://" + link.value)[..4] == "http";
    }
  }
}
