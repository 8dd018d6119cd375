# zoom-api-helper: a Dafny model of the client's decision logic

`zoom-api-helper` is a small Python client for the Zoom API v2. This project models the parts of it that
decide something. The HTTP, file and thread plumbing around them is left out.

- **Bulk meeting creation** (`ZoomAPI.bulk_create_meetings`):
  - column headers are normalised by `to_snake_case`;
  - a header→keyword table is built over the allow-list `CREATE_MEETING_KWARGS`;
  - `process_row` runs on a copy of each row, and each accepted copy becomes a Create Meeting request
    with a default `timezone`;
  - a dry run prints the table and the requests and stops there (its `json.dumps` raises on a request
    holding a `Meeting` member);
  - otherwise the output path is derived and the thread pool is opened, either of which can raise
    before any meeting is created;
  - then one `create_meeting` task runs per request, and each outcome is written back onto the rows
    through `update_row` (by default `dict.update`), in whatever order the futures complete;
  - finally the rows are written to the CSV file, whose columns are the first row's keys.
- **Meeting creation** (`ZoomAPI.create_meeting`): chooses the user the meeting is created for and
  assembles the request body.
- **User listing** (`ZoomAPI.list_users`): follows the pages of the users endpoint and accumulates the
  users.
- **Token cache** (`get_access_token`): serves a cached OAuth token while it is unexpired. Otherwise it
  exchanges the account credentials for a new token and caches it with a five-minute margin.

Modules, one per component: `Values` (row values and the `Meeting` enum), `Constants`, `SnakeCase`,
`HeaderTable`, `MeetingRequests`, `CreateMeeting`, `Reconciliation`, `CsvOutput` (the writer of
zoom_api_helper/utils.py), `BulkCreate`, `ListUsers`, `OAuth` (with the class `TokenCache`).

How things are represented:
- A row is a `map<string, Value>`. `Value` keeps only what the client inspects: equality and Python
  truthiness.
- Python dicts whose key order matters are modelled with their order made explicit:
  - the header table is an ordered dict;
  - the first row's key order is the `headers` argument;
  - the (hash-dependent) iteration order of `CREATE_MEETING_KWARGS` is the `allowOrder` argument.
- Remote calls are function parameters:
  - the Create Meeting POST is `Post`, and in bulk creation `Posts`, which answers each task's POST
    separately (so identical requests may get different replies);
  - the users GET is `Fetch`;
  - the token endpoint is `Exchange`.
- The clock is an integer `now`.
- The thread pool is a sequential loop over an arbitrary completion order. `Reconcile` is proved for
  every permutation of the request indices, and `Dispatch` picks one with `:|`.

Behaviour of the code worth knowing:
- Responses are written back to `rows[i]`, where `i` is the position in the list of *requests*, not the
  row the request came from (see Findings).
- `list_users` never checks the HTTP status. An error body is returned as is with `all_pages=False`.
  With `all_pages=True` it fails with a `KeyError` on the missing page fields (`MissingPageField`).
- A token is returned even when its reported lifetime is at most five minutes. In that case its cache
  entry is already stale (`OAuth.GrantedEntryFreshIff`).
- The cache is keyed by the file name `token_{account_id}_{client_id}.json`, so two different
  credential pairs can share one entry (`OAuth.CacheFileShared`).

## Model

| member | source | states |
|---|---|---|
| `Values.Code` | zoom_api_helper/models.py:41-48 | `Meeting.X.value` is one of the enum's codes 1, 2, 3, 8 |
| `SnakeCase.Replace` | zoom_api_helper/v2.py:160 | `str.replace` of one character: same length, every occurrence replaced, every other character kept |
| `SnakeCase.Lower` | zoom_api_helper/v2.py:160 | `str.lower` on ASCII: same length, each character lower-cased on its own |
| `SnakeCase.ToSnakeCase` | zoom_api_helper/v2.py:159-160 | same length as the header; each character is mapped on its own (space or hyphen to `_`, capital to lower case); the result has no space, hyphen or capital |
| `SnakeCase.ToSnakeCaseIdempotent` | zoom_api_helper/v2.py:159-160 | normalising twice equals normalising once |
| `SnakeCase.SnakeFixed` | zoom_api_helper/v2.py:159-160 | a header is unchanged by normalisation exactly when it has no space, hyphen or capital |
| `HeaderTable.ResolveKwarg` | zoom_api_helper/v2.py:176 | a non-empty entry of the mapping is taken as is; otherwise the header's snake-case form, of the header's length, is used |
| `HeaderTable.Put` | zoom_api_helper/v2.py:178 | dict assignment: the key maps to the new value, a new key goes last, the ordered-dict invariant is kept |
| `HeaderTable.StepDescribes` | zoom_api_helper/v2.py:175-178 | one pass of the header loop extends the table's description from the first i headers to the first i+1 |
| `HeaderTable.BuildHeaderTable` | zoom_api_helper/v2.py:170-178 | every allow-list name maps to itself unless it is a header that resolves to an allowed name; a header maps to `mapping.get(h) or to_snake_case(h)` exactly when that name is allowed; nothing else is a key; every value is allowed; keys in dict insertion order; an omitted mapping acts as the empty one |
| `MeetingRequests.Project` | zoom_api_helper/v2.py:196-197 | every key of the projection is a name the table maps to, and every value is one of the row's values |
| `MeetingRequests.MeetingRequest` | zoom_api_helper/v2.py:196-201 | a request always has `timezone`; its other keys are names the table maps to, holding row values; `timezone` is a row value or the default |
| `MeetingRequests.ProjectKeys` | zoom_api_helper/v2.py:196-197 | the projection holds exactly the mapped names of the table headers present in the row |
| `MeetingRequests.ProjectValues` | zoom_api_helper/v2.py:196-197 | each projected name holds the row's value under the last header, in table order, that maps to it |
| `MeetingRequests.RequestContents` | zoom_api_helper/v2.py:195-201 | a request's keys are the mapped names present in the row plus `timezone`, all allow-listed; `timezone` is the default when no header supplied it |
| `MeetingRequests.RunProcessRow` | zoom_api_helper/v2.py:182-192 | without `process_row` every row is kept unchanged (`do_nothing`); otherwise `process_row` decides on the copy and may change it |
| `MeetingRequests.BuildRequests` | zoom_api_helper/v2.py:180-203 | one request per row accepted by `process_row`, in row order, built from the processed copy (the rows themselves are not changed); with no `process_row` every row gives one request |
| `CreateMeeting.SetIfTruthy` | zoom_api_helper/v2.py:280-291 | `if v: d[name] = v` sets `name` exactly when `v` is truthy and changes no other key |
| `CreateMeeting.BodyFields` | zoom_api_helper/v2.py:280-291 | every keyword argument that is not a named parameter is kept unchanged; `host_id`, `host_email` and `type` are not in it |
| `CreateMeeting.UserId` | zoom_api_helper/v2.py:273-278 | user id is `host_id` if truthy, else the id mapped to `host_email` if truthy (an unknown email is a `KeyError`), else `"me"` |
| `CreateMeeting.BuildCall` | zoom_api_helper/v2.py:273-294 | the call fails exactly when the email lookup fails or a truthy `type` is not a `Meeting`; the lookup failure wins; otherwise the user id is the resolved one |
| `CreateMeeting.BuildCallBody` | zoom_api_helper/v2.py:248-294 | the body is every other keyword argument unchanged; agenda, topic, start_time and timezone (defaults 'My Description', 'My Meeting', none, 'UTC') appear exactly when truthy; `type` appears as its code exactly when truthy; host_id and host_email never appear |
| `CreateMeeting.CreateOutcome` | zoom_api_helper/v2.py:296-299 | a failed assembly is that failure; otherwise a 2xx reply is the created meeting and any other reply an HTTP error |
| `Reconciliation.ApplyUpdate` | zoom_api_helper/v2.py:227-228 | the default `dict.update`: keys of both, response values overwrite, other row values kept; a given `update_row` decides the row |
| `Reconciliation.Reconciled` | zoom_api_helper/v2.py:232-244 | the as-written result: a success at request index i updates `rows[i]`; a failure, or an index past the last request, leaves the row as it was |
| `Reconciliation.Reconcile` | zoom_api_helper/v2.py:230-244 | for any completion order: success at index i sets `rows[i]` to `update_row(rows[i], resp)`; failure leaves it; rows past the last request are untouched; rows keep their order |
| `Reconciliation.ReconciledByOrigin` | zoom_api_helper/v2.py:231-237 | corrected reconciliation: the outcome of request j goes to the row it came from; failed and rejected rows are unchanged |
| `Reconciliation.ReconciledAgreesWithoutRejections` | zoom_api_helper/v2.py:182-184 | when no row is rejected, the as-written and the corrected reconciliation coincide |
| `Reconciliation.MisattributedResponse` | zoom_api_helper/v2.py:186-193 | with the first row rejected, the second row's response is merged into the first row and the second is left as it was |
| `BulkCreate.DryRunDump` | zoom_api_helper/v2.py:205-211 | the dry run's dump of the requests succeeds exactly when no request holds a `Meeting` member, and then prints the requests unchanged; otherwise it is a `TypeError` |
| `BulkCreate.EncodeValue` | zoom_api_helper/v2.py:211 | corrected encoding of one value: a `Meeting` member becomes its code, anything else is kept |
| `BulkCreate.DryRunDumpFixed` | zoom_api_helper/v2.py:211 | corrected dump: same requests and keys, every `Meeting` member replaced by its code, so nothing is left that the encoder rejects |
| `BulkCreate.DryRunDumpsAgree` | zoom_api_helper/v2.py:211 | wherever the as-written dump succeeds it prints what the corrected dump prints |
| `BulkCreate.DryRunRejectsMeetingType` | zoom_api_helper/v2.py:211 | a request whose `type` is `Meeting.SCHEDULED` makes the as-written dump raise; the corrected dump prints `type` as 2 |
| `BulkCreate.OutputPath` | zoom_api_helper/v2.py:216-220 | the output path is `out_file` when it is a `Path`, else `{stem}.out.csv` beside the Excel file; without either it is a `TypeError`, and a string `out_file` an `AttributeError` |
| `BulkCreate.OutputPathFixed` | zoom_api_helper/v2.py:216-220 | corrected: a string `out_file` is used as a path; only the lack of both `out_file` and `excel_file` fails |
| `BulkCreate.OutputPathsAgree` | zoom_api_helper/v2.py:216-220 | the as-written and the corrected path agree exactly when `out_file` is not a string |
| `BulkCreate.StrOutFileRejected` | zoom_api_helper/v2.py:219-220 | `out_file="meetings.out.csv"` raises as written and names the output file when corrected |
| `BulkCreate.Setup` | zoom_api_helper/v2.py:216-229 | a path error comes first; otherwise `max_threads <= 0` is a `ValueError`; otherwise the output path |
| `BulkCreate.Outcomes` | zoom_api_helper/v2.py:222-233 | one `create_meeting` outcome per request, in request order, each from its own POST |
| `BulkCreate.Dispatch` | zoom_api_helper/v2.py:222-244 | rows end up reconciled with the outcomes of all requests, whatever the completion order |
| `BulkCreate.BulkCreateMeetings` | zoom_api_helper/v2.py:162-246 | table and requests as above; a dry run creates nothing and changes no row, and raises exactly when `DryRunDump` does; a failing output path or thread count does the same and raises; otherwise every request is dispatched once, the rows are reconciled in input order and handed to `write_to_csv`, whose file and error are reported |
| `CsvOutput.FirstExtra` | zoom_api_helper/utils.py:73-75 | the index of the first row with a key outside the columns; every earlier row fits |
| `CsvOutput.Record` | zoom_api_helper/utils.py:73-75 | a written record has exactly the columns, holds the row's value in each column the row has, and is empty (`restval=''`) elsewhere |
| `CsvOutput.WriteToCsv` | zoom_api_helper/utils.py:71-75 | the columns are the first row's keys; the write fails exactly when some row has another key, at the first such row, after writing the rows before it; each written record is the row with empty cells for missing columns |
| `CsvOutput.AllKeysFromRows` | zoom_api_helper/utils.py:73 | every column of the corrected writer comes from some row |
| `CsvOutput.WriteAllColumns` | zoom_api_helper/utils.py:71-75 | corrected: the columns are all rows' keys; every row is written whole and nothing fails |
| `CsvOutput.WritersAgree` | zoom_api_helper/utils.py:71-75 | when no row has a key the first row lacks, both writers produce the same file |
| `CsvOutput.FailedFirstRowBreaksWriter` | zoom_api_helper/utils.py:71-75 | after row 0's meeting fails and row 1's succeeds, the as-written write fails at row 1 with one record written; the corrected writer writes both |
| `ListUsers.OnePageServerAdmitted` | zoom_api_helper/v2.py:342-343 | the termination assumption admits a server whose first page says no more pages remain, whatever it would answer for later pages |
| `ListUsers.ListUsers` | zoom_api_helper/v2.py:335-349 | requests pages page, page+1, ... while the latest reply has page_count > page_number; the users are all pages' users in request order, under the first reply's counters; exactly one request without `all_pages`; a non-page reply is a `KeyError` |
| `OAuth.CacheFile` | zoom_api_helper/oauth.py:32 | the cache file name is `token_`, the account id, `_`, the client id and `.json`, in that order |
| `OAuth.AccessToken` | zoom_api_helper/oauth.py:32-62 | an unexpired cached token (`expires_at > now`) is served with no exchange; otherwise one `account_credentials` exchange for the account; refusal raises with the cache unchanged; a grant is stored with `expires_at = now + expires_in - 300` under this key only and returned |
| `OAuth.OtherEntriesUnchanged` | zoom_api_helper/oauth.py:58-60 | entries of other cache files are neither added, removed nor changed |
| `OAuth.SecondCallServedFromCache` | zoom_api_helper/oauth.py:35-62 | after a miss at t1 granting more than 300 + (t2 - t1) seconds, the call at t2 makes no exchange and returns the same token |
| `OAuth.GrantedEntryFreshIff` | zoom_api_helper/oauth.py:36-56 | a granted token's cache entry is unexpired exactly when its lifetime exceeds the 300-second margin |
| `OAuth.CacheFileShared` | zoom_api_helper/oauth.py:32 | credential pairs ("a_b", "c") and ("a", "b_c") share one cache file |
| `OAuth.TokenCache.GetAccessToken` | zoom_api_helper/oauth.py:32-62 | returns the token and exchange of `AccessToken` and leaves the cache as it says |

## Findings

| source | as written | input that shows it | evidently intended | confidence | as-written member | corrected member |
|---|---|---|---|---|---|---|
| zoom_api_helper/v2.py:232-237 | the outcome of the i-th request is applied to `rows[i]` | `process_row` rejects row 0 and accepts row 1; row 1's meeting is created | the response is merged into row 1, the row it was built from ("mark each future with its row index") | high; not executed | `Reconciliation.MisattributedResponse` (on `Reconciliation.Reconciled`) | `Reconciliation.ReconciledByOrigin` |
| zoom_api_helper/utils.py:71-75 | the CSV columns are the keys of `rows[0]` only, and `DictWriter` raises `ValueError` on a row with any other key | two rows with the same keys; row 0's meeting fails and row 1's succeeds, so `dict.update` gives row 1 the response's keys | the updated rows are all written out after the meetings were created | high; not executed | `CsvOutput.FailedFirstRowBreaksWriter` (on `CsvOutput.WriteToCsv`) | `CsvOutput.WriteAllColumns` |
| zoom_api_helper/v2.py:216-220 | `out_file.absolute()` is called on `out_file` as given | `out_file="meetings.out.csv"`, a `str`, which the signature admits | a string `out_file` is used as a path | high; not executed | `BulkCreate.StrOutFileRejected` (on `BulkCreate.OutputPath`) | `BulkCreate.OutputPathFixed` |
| zoom_api_helper/v2.py:211 | the dry run dumps the requests with `CustomEncoder`, which converts only datetimes (utils.py:29-35) | in-memory rows `[{"Type": Meeting.SCHEDULED}]` with `dry_run=True`: the request's `type` is a `Meeting` member, a plain `Enum` | the dry run prints the requests a real run would create, the `Meeting` member as its code | high; not executed | `BulkCreate.DryRunRejectsMeetingType` (on `BulkCreate.DryRunDump`) | `BulkCreate.DryRunDumpFixed` |

The bulk-creation path (`BulkCreate.Dispatch`, `BulkCreate.BulkCreateMeetings`) reproduces the code as
written, for all four findings. Its contract also states that it equals the corrected reconciliation
whenever no row is rejected. `CsvOutput.WritersAgree` shows that the two writers agree whenever no row
has a key the first row lacks, and `BulkCreate.OutputPathsAgree` that the two path derivations agree on
anything but a string `out_file`.

## Left out

- Excel ingestion (`sheet2dict`) is file I/O, and so is the `import sheet2dict` at v2.py:157, which
  raises `ImportError` without the package even for in-memory rows. The model assumes the import succeeds.
- The name `{stem}.out.csv` derived from the Excel path is not computed (`BesideExcel` stands for it), and
  neither are the errors `pathlib` raises on malformed paths. CSV column order and the file's text
  encoding are not modelled either. The CSV file is its columns and records.
- `BulkCreate.BulkCreateMeetings`: requires at least one in-memory row, because with no rows the source
  reads the Excel file instead.
- HTTP sessions, headers, `_get`/`_post`, `raise_for_status` and `.json()` are plumbing. Remote replies
  are abstract values.
- The thread pool: tasks are run sequentially in an arbitrary completion order. Each task touches only
  its own row, so this order is the only thing concurrency adds.
- Exceptions raised by `process_row` or `update_row` themselves are not modelled; both are total
  functions here. In the source these exceptions propagate out of `bulk_create_meetings`.
- Aliasing between rows: two list entries holding the same dict, or nested objects shared by the
  shallow copy. Values are immutable in the model.
- `datetime` handling: a `start_time` datetime is serialised with `isoformat`; the model passes it
  through unchanged. In the dry run's dump, values other than `Meeting` members (`Other`) are taken to
  be encodable.
- Non-ASCII lower-casing in `to_snake_case`. Only `A`-`Z` are lower-cased.
- The `session` keyword of `create_meeting`. It never occurs in a request because it is not allow-listed.
- `user_email_to_id` and its `cached_property` memoisation. The email→id map is a parameter.
- Logging, `print` in the dry run, and `log_time`. The dry run's table and request list are returned in
  the report instead.
- `ListUsers.ListUsers`: requires a bound `limit` on the pages the loop reaches, those after replies that
  all said more pages remain: none at or past `limit` says more pages remain too. A server with no such
  bound keeps the source's loop running forever, unless it answers with a body that is not a page.
- Cache files that are empty (`{}`) or lack a field, and the creation of the cache directory. Cache
  entries are always well-formed here.
- Wall-clock time: `round(time())` is the integer parameter `now`. The source reads the clock twice, at
  oauth.py:36 for the expiry check and at oauth.py:56 after the exchange. The model uses one `now` for
  both, so the stored expiry is computed from the time of the check, not the time the reply arrived.
- The `ZoomAPI` constructor, the dummy client, `__repr__`, packaging and the integration tests.
