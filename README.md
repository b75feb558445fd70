# getJobs — a Dafny model of the job-listing query

`getJobs` (`src/lib/supabase/getJobs.ts`) fetches one page of job postings from
the `jobs` table of a Supabase (PostgREST) data store. It turns the page number
and size into an inclusive zero-based row range. It escapes the LIKE wildcards
of an optional search term and builds an `or` filter over `title`, `company`
and `description`. It asks for an exact row count, ordered by `created_at`,
newest first. Then it reshapes the response into
`{ jobs, totalCount, totalPages, currentPage }`, or throws
`Failed to fetch jobs` if the store reports an error.

The model keeps the pure logic and turns the rest into parameters:

- `wrappers.dfy` — `Option` (JavaScript's absent values and `??`) and `Result` (return or throw).
- `jobs.dfy` — the stored row `RawJob` and the display record `Job`. `ToJob` is the camelCase renaming plus date formatting plus the `isAlways` default. `ToRaw` is the inverse renaming, used to show that no field is lost.
- `pagination.dfy` — the defaults (page 1, size 12), the row range of a page, and the page count `ceil(count / size)`. It also proves how pages tile the rows.
- `search.dfy` — the wildcard escaping, its inverse, and a reading of LIKE patterns that shows what the escaping does and does not achieve. It also builds the filter text and shows that the search term can be read back out of it.
- `get_jobs.dfy` — the parameters, the `Request` record that would be sent, the `Response` record that comes back, the envelope, and the whole call.

The query executor (`execute: Request -> Response`) and the date formatter
(`formatDate: string -> string`) are function parameters. Nothing is assumed
about them.

Two things the code does that a reader might not expect:

- Only `%` and `_` are escaped. A backslash in the term is not. So the term
  `\%` becomes `\\%`, which a LIKE pattern reads as a literal backslash
  followed by a live `%` wildcard (`Search.BackslashCancelsEscape`). For terms
  without a backslash, PostgreSQL's LIKE reading of the escaped term on its
  own takes every character literally (`Search.EscapeIsLiteral`). That is not
  a literal match of the filter as sent: PostgREST reads every `*` of an
  `ilike` value as `%`, and `*` is not escaped (`Search.StarNotEscaped`); a `,`
  or parenthesis in the term splits the `or` list. Neither is covered. The
  model keeps the escaping exactly as written.
- The filter names the column `company`. The declared row type has
  `company_name` and no `company`. The model keeps `company`, as the code
  writes it.

## Model

| member | source | states |
|---|---|---|
| `Jobs.ToJob` | src/lib/supabase/getJobs.ts:80-86 | the three dates are the formatter applied to the stored dates; `isAlways` is true exactly when the stored flag is present and true; every other field is carried over under its camelCase name |
| `Jobs.ToJobThenToRaw` | src/lib/supabase/getJobs.ts:5-37 | renaming to camelCase and back gives the stored row again, with a missing `is_always` now `false` |
| `Jobs.ToRawThenToJob` | src/lib/supabase/getJobs.ts:5-37 | every display record is the renaming of a stored row: the key mapping is one-to-one |
| `Jobs.ToJobKeepsNonDateFields` | src/lib/supabase/getJobs.ts:80-86 | two rows with the same display record agree on every non-date field and on the defaulted flag |
| `Pagination.PageRange` | src/lib/supabase/getJobs.ts:57-58 | the range holds exactly `size` rows, starts at `(page-1)*size`, and starts at or after row 0 when `page >= 1` and `size >= 0` |
| `Pagination.TotalPages` | src/lib/supabase/getJobs.ts:91 | the page count is the ceiling of `count/size`: `(pages-1)*size < count <= pages*size`; it is 0 exactly when the count is 0 |
| `Pagination.TotalPagesUnique` | src/lib/supabase/getJobs.ts:91 | any number of pages bracketing the count that way is the computed one |
| `Pagination.NextPageAdjacent` | src/lib/supabase/getJobs.ts:57-58 | the next page starts on the row after this page's last row |
| `Pagination.PagesDisjoint` | src/lib/supabase/getJobs.ts:57-58 | for `size >= 1`, an earlier page ends before a later one starts, so no row is on two pages |
| `Pagination.RowOnPage` | src/lib/supabase/getJobs.ts:57-58 | every row offset lies on page `row/size + 1` |
| `Pagination.PageNonEmptyIff` | src/lib/supabase/getJobs.ts:90-91 | a page from 1 up starts before the row count exactly when it is no later than `totalPages` |
| `Pagination.DefaultRange` | src/lib/supabase/getJobs.ts:54-58 | page 1 at the default size asks for rows 0 to 11 |
| `Search.Escape` | src/lib/supabase/getJobs.ts:63 | the output is as long as the input plus its number of `%` and `_`; a term without them is unchanged; the output never starts with a wildcard |
| `Search.NoWildcardsIff` | src/lib/supabase/getJobs.ts:63 | the wildcard count is zero exactly when no character is `%` or `_` |
| `Search.UnescapeEscape` | src/lib/supabase/getJobs.ts:63 | removing the inserted backslashes recovers the search term |
| `Search.EscapeInjective` | src/lib/supabase/getJobs.ts:63 | distinct terms stay distinct after escaping |
| `Search.EscapeAppend` | src/lib/supabase/getJobs.ts:63 | escaping works character by character: it distributes over concatenation |
| `Search.EscapeIsLiteral` | src/lib/supabase/getJobs.ts:63 | for a term without a backslash, PostgreSQL's LIKE reading of the escaped term on its own is the term's characters, each literal (PostgREST's `*` and the `or` syntax are not covered) |
| `Search.StarNotEscaped` | src/lib/supabase/getJobs.ts:63 | a `*` in the term is not escaped: `a*b` is sent as `a*b` |
| `Search.BackslashCancelsEscape` | src/lib/supabase/getJobs.ts:63 | the term `\%` escapes to `\\%`, which reads as a literal backslash and a `%` wildcard |
| `Search.EscapePercentExample` | src/lib/supabase/getJobs.ts:63 | `50% off` escapes to `50\% off` |
| `Search.SearchFilter` | src/lib/supabase/getJobs.ts:62-66 | no filter exactly when the search is absent or empty; otherwise the `ilike *T*` clauses on `title`, `company` and `description`, joined by commas, with T the escaped term |
| `Search.FilterIsClauses` | src/lib/supabase/getJobs.ts:65 | the template string is those three clauses joined by commas |
| `Search.FilterLayout` | src/lib/supabase/getJobs.ts:65 | the filter is three times the term's length plus 52, starts with `title.ilike.*`, and the term follows at offset 13 |
| `Search.FilterTermRecovers` | src/lib/supabase/getJobs.ts:62-66 | the search term can be read back out of the filter it produced |
| `Search.FilterInjective` | src/lib/supabase/getJobs.ts:62-66 | different non-empty searches give different filters |
| `GetJobs.PageOf` | src/lib/supabase/getJobs.ts:54 | the page is the given one, or 1 |
| `GetJobs.SizeOf` | src/lib/supabase/getJobs.ts:54 | the size is the given one, or 12 |
| `GetJobs.BuildRequest` | src/lib/supabase/getJobs.ts:57-73 | all columns of `jobs` with an exact count; the search filter, none for an absent or empty search; a range of `size` rows from `(page-1)*size`; ordered by `created_at` descending |
| `GetJobs.Rows` | src/lib/supabase/getJobs.ts:70 | absent rows read as no rows |
| `GetJobs.ToPageResult` | src/lib/supabase/getJobs.ts:69-93 | failure with the fixed message exactly when an error is reported; otherwise one job per row in order, each the reshaped row; the count or 0; the ceiling page count; the requested page |
| `GetJobs.GetJobs` | src/lib/supabase/getJobs.ts:53-94 | the call fails exactly when the response to the built request has an error, with the fixed message; on success it echoes the page, reports the count or 0, returns one job per row, each the reshaped row in order, and brackets the ceiling page count |
| `GetJobs.ErrorHidesDetail` | src/lib/supabase/getJobs.ts:75-78 | once an error is reported, its content, the rows and the count make no difference: the result is the fixed failure |
| `GetJobs.IsAlwaysDefault` | src/lib/supabase/getJobs.ts:85 | each returned `isAlways` is the stored flag, or `false` when it is absent |
| `GetJobs.CompanyNameUnused` | src/lib/supabase/getJobs.ts:50-54 | the request does not depend on `companyName` |
| `GetJobs.CompanyNameUnusedInResult` | src/lib/supabase/getJobs.ts:50-54 | nor does the result |
| `GetJobs.DefaultCall` | src/lib/supabase/getJobs.ts:53-58 | with no parameters the request is rows 0 to 11 with no filter, and a success reports page 1 |
| `GetJobs.EmptyResponse` | src/lib/supabase/getJobs.ts:69-93 | a response with no rows, no count and no error gives `{ jobs: [], totalCount: 0, totalPages: 0, currentPage: 1 }` |
| `GetJobs.SecondPageOfTen` | src/lib/supabase/getJobs.ts:57-92 | page 2 of size 10 asks for rows 10 to 19; a count of 25 gives 3 pages and page 2 |
| `GetJobs.PercentSearchRequest` | src/lib/supabase/getJobs.ts:62-66 | searching for `50% off` sends the filter built on `50\% off` |
| `GetJobs.ErrorResponse` | src/lib/supabase/getJobs.ts:75-77 | a response with an error fails with `Failed to fetch jobs` |

## Left out

- The Supabase client and query builder (`createClient`, `from`, `select`, `or`, `range`, `order`): network I/O through a foreign client. The model builds the `Request` record that would be sent and takes the response from an `execute` parameter.
- Server-side behaviour: case-insensitive matching, PostgREST's reading of `*` as `%`, the meaning of a `,` or parenthesis inside the term for the `or` syntax, and the ordering by `created_at`. These happen remotely.
- `camelcaseKeys` as a general library: only its effect on the thirteen declared fields is modelled, as a fixed field-by-field mapping.
- `formatDate` (JavaScript `Date` and `ko-KR` locale formatting): an uninterpreted function parameter; nothing is said about its output.
- `console.error` logging of the error: a side effect with no result to state.
- Async/await: there is no concurrency.
- JavaScript numbers: page and size are unbounded integers. Non-integer arguments and precision loss above 2^53 are not modelled.
- GetJobs.ToPageResult: requires a page size of at least 1. With a size of 0 or below, the source computes `Math.ceil` of a division by zero or a negative number and returns NaN, Infinity or a negative page count. That is floating-point behaviour and is not modelled.
- GetJobs.GetJobs: requires a resolved page size of at least 1, for the same reason.
- Pagination.TotalPages: requires a page size of at least 1, for the same reason.
