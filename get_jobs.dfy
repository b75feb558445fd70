/** `getJobs`: builds one paginated, optionally filtered query on the `jobs`
    table, and turns its response into a page of display records or the one
    generic failure. The network call and the date formatter are parameters. */
module GetJobs {
  import opened Wrappers
  import opened Jobs
  import opened Pagination
  import opened Search

  /** The optional call parameters. `companyName` is accepted but not used. */
  datatype PageParams = PageParams(
    page: Option<int>,
    size: Option<int>,
    search: Option<string>,
    companyName: Option<string>)

  /** A call with no parameters. */
  const NoParams: PageParams := PageParams(None, None, None, None)

  /** The page asked for, 1 by default. */
  function PageOf(params: PageParams): (page: int)
    ensures params.page.None? ==> page == DefaultPage
    ensures params.page.Some? ==> page == params.page.value
  {
    params.page.GetOr(DefaultPage)
  }

  /** The page size asked for, 12 by default. */
  function SizeOf(params: PageParams): (size: int)
    ensures params.size.None? ==> size == DefaultSize
    ensures params.size.Some? ==> size == params.size.value
  {
    params.size.GetOr(DefaultSize)
  }

  /** The query that is sent: every column of `table` with an exact row count,
      the optional `or` filter, the inclusive row range, and the ordering. */
  datatype Request = Request(
    table: string,
    columns: string,
    exactCount: bool,
    filter: Option<string>,
    rangeFirst: int,
    rangeLast: int,
    orderColumn: string,
    ascending: bool)

  /** The query `getJobs` builds: all columns of `jobs` with an exact count,
      filtered by the search if there is one, limited to the page's rows,
      newest `created_at` first. */
  function BuildRequest(params: PageParams): (req: Request)
    ensures req.table == "jobs" && req.columns == "*" && req.exactCount
    ensures req.filter == SearchFilter(params.search)
    ensures req.filter.None? <==> params.search.None? || params.search.value == []
    ensures req.rangeLast - req.rangeFirst + 1 == SizeOf(params)
    ensures req.rangeFirst == (PageOf(params) - 1) * SizeOf(params)
    ensures req.orderColumn == "created_at" && !req.ascending
  {
    var range := PageRange(PageOf(params), SizeOf(params));
    Request(
      table := "jobs",
      columns := "*",
      exactCount := true,
      filter := SearchFilter(params.search),
      rangeFirst := range.first,
      rangeLast := range.last,
      orderColumn := "created_at",
      ascending := false)
  }

  /** The error object the data store reports; its content is never looked at. */
  datatype QueryError = QueryError(message: string, code: string, details: string, hint: string)

  /** What executing the query returns: rows, an exact count and an error, each
      possibly absent. */
  datatype Response = Response(
    data: Option<seq<RawJob>>,
    count: Option<nat>,
    error: Option<QueryError>)

  /** The page envelope returned on success. */
  datatype PageResult = PageResult(
    jobs: seq<Job>,
    totalCount: nat,
    totalPages: nat,
    currentPage: int)

  /** The message of the one error `getJobs` throws. */
  const FetchFailed: string := "Failed to fetch jobs"

  /** The rows of a response, none when `data` is absent. */
  function Rows(resp: Response): (rows: seq<RawJob>)
    ensures resp.data.None? ==> rows == []
    ensures resp.data.Some? ==> rows == resp.data.value
  {
    resp.data.GetOr([])
  }

  /** The response turned into the call's outcome: any error gives the fixed
      failure; otherwise each row is reshaped in order, an absent count reads
      as 0, the page count is its ceiling over `size`, and the requested page
      is echoed. */
  function ToPageResult(resp: Response, page: int, size: int, formatDate: string -> string)
    : (r: Result<PageResult, string>)
    requires size >= 1
    ensures r.Failure? <==> resp.error.Some?
    ensures r.Failure? ==> r.error == FetchFailed
    ensures r.Success? ==> |r.value.jobs| == |Rows(resp)|
    ensures r.Success? ==> resp.data.None? ==> r.value.jobs == []
    ensures r.Success? ==> forall i :: 0 <= i < |r.value.jobs| ==>
      r.value.jobs[i] == ToJob(Rows(resp)[i], formatDate)
    ensures r.Success? ==> r.value.totalCount == resp.count.GetOr(0)
    ensures r.Success? ==> var n, t := r.value.totalCount, r.value.totalPages;
      (t - 1) * size < n <= t * size && (t == 0 <==> n == 0)
    ensures r.Success? ==> r.value.currentPage == page
  {
    if resp.error.Some? then Failure(FetchFailed)
    else
      var rows := Rows(resp);
      var count := resp.count.GetOr(0);
      Success(PageResult(
        jobs := seq(|rows|, i requires 0 <= i < |rows| => ToJob(rows[i], formatDate)),
        totalCount := count,
        totalPages := TotalPages(count, size),
        currentPage := page))
  }

  /** The whole call: build the query, run it with `execute`, and handle the
      response. A page size below 1 makes the JavaScript page count NaN,
      Infinity, a negative number or -0, and is not modelled. */
  function GetJobs(params: PageParams, execute: Request -> Response, formatDate: string -> string)
    : (r: Result<PageResult, string>)
    requires SizeOf(params) >= 1
    ensures r.Failure? <==> execute(BuildRequest(params)).error.Some?
    ensures r.Failure? ==> r.error == FetchFailed
    ensures r.Success? ==> r.value.currentPage == PageOf(params)
    ensures r.Success? ==> r.value.totalCount == execute(BuildRequest(params)).count.GetOr(0)
    ensures r.Success? ==> |r.value.jobs| == |Rows(execute(BuildRequest(params)))|
    ensures r.Success? ==> forall i :: 0 <= i < |r.value.jobs| ==>
      r.value.jobs[i] == ToJob(Rows(execute(BuildRequest(params)))[i], formatDate)
    ensures r.Success? ==> var n, t, size := r.value.totalCount, r.value.totalPages, SizeOf(params);
      (t - 1) * size < n <= t * size && (t == 0 <==> n == 0)
  {
    ToPageResult(execute(BuildRequest(params)), PageOf(params), SizeOf(params), formatDate)
  }

  /** The error's content, the rows and the count make no difference once an
      error is reported. */
  lemma ErrorHidesDetail(a: Response, b: Response, page: int, size: int, formatDate: string -> string)
    requires size >= 1 && a.error.Some? && b.error.Some?
    ensures ToPageResult(a, page, size, formatDate) == ToPageResult(b, page, size, formatDate)
      == Failure(FetchFailed)
  {
  }

  /** On success, each job's `isAlways` is the stored flag or `false`. */
  lemma IsAlwaysDefault(resp: Response, page: int, size: int, formatDate: string -> string, i: int)
    requires size >= 1 && resp.error.None? && 0 <= i < |Rows(resp)|
    ensures var r := ToPageResult(resp, page, size, formatDate);
      r.Success? && i < |r.value.jobs| &&
      r.value.jobs[i].isAlways == (Rows(resp)[i].is_always.Some? && Rows(resp)[i].is_always.value)
  {
  }

  /** `companyName` changes nothing that is sent. */
  lemma CompanyNameUnused(params: PageParams, name: Option<string>)
    ensures BuildRequest(params.(companyName := name)) == BuildRequest(params)
  {
  }

  /** ... and so nothing that is returned. */
  lemma CompanyNameUnusedInResult(params: PageParams, name: Option<string>,
                                  execute: Request -> Response, formatDate: string -> string)
    requires SizeOf(params) >= 1
    ensures GetJobs(params.(companyName := name), execute, formatDate) == GetJobs(params, execute, formatDate)
  {
    CompanyNameUnused(params, name);
  }

  /** With no parameters the query asks for rows 0 to 11, with no filter, and a
      successful result reports page 1. */
  lemma DefaultCall(execute: Request -> Response, formatDate: string -> string)
    ensures var req := BuildRequest(NoParams);
      req.rangeFirst == 0 && req.rangeLast == 11 && req.filter.None?
    ensures var r := GetJobs(NoParams, execute, formatDate);
      r.Success? ==> r.value.currentPage == 1
  {
  }

  /** An empty response to a call with no parameters is an empty first page,
      not an error. */
  lemma EmptyResponse(formatDate: string -> string)
    ensures GetJobs(NoParams, _ => Response(None, None, None), formatDate)
      == Success(PageResult([], 0, 0, 1))
  {
  }

  /** Page 2 of size 10 asks for rows 10 to 19; 25 matching rows make 3 pages. */
  lemma SecondPageOfTen(rows: seq<RawJob>, formatDate: string -> string)
    ensures var req := BuildRequest(PageParams(Some(2), Some(10), None, None));
      req.rangeFirst == 10 && req.rangeLast == 19
    ensures var r := GetJobs(PageParams(Some(2), Some(10), None, None),
                             _ => Response(Some(rows), Some(25), None), formatDate);
      r.Success? && r.value.currentPage == 2 && r.value.totalCount == 25 && r.value.totalPages == 3
  {
    TotalPagesUnique(25, 10, 3);
  }

  /** Searching for `50% off` sends the filter with `50\% off` in each clause. */
  lemma PercentSearchRequest()
    ensures BuildRequest(PageParams(None, None, Some("50% off"), None)).filter
      == Some(FilterText("50\\% off"))
  {
    EscapePercentExample();
  }

  /** A reported error fails the call with the generic message. */
  lemma ErrorResponse(params: PageParams, e: QueryError, formatDate: string -> string)
    requires SizeOf(params) >= 1
    ensures GetJobs(params, _ => Response(None, None, Some(e)), formatDate) == Failure(FetchFailed)
  {
  }
}
