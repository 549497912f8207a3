# Course catalog web application — a Dafny model

The application lets users browse a course catalog, look a course up by its
code and submit new courses. Courses live in a single JSON file that is read
in full and rewritten in full on every save. Every request is wrapped by two
hooks: `before_request` opens a trace span, and `after_request` tags and ends
it and records the metrics `route_requests_total`, `route_processing_time_ms`
and `error_count`.

This project models that logic as pure functions over an explicit state:

- `wrappers.dfy` (`Wrappers`): `Option` and `Result`.
- `store.dfy` (`CourseStore`): the `Course` record. The file is
  `Option<seq<Course>>`, where `None` means the file does not exist.
  `Load` is `load_courses` and `Save` is the read-append-write `save_courses`.
- `telemetry.dfy` (`Telemetry`): the metric instruments. Each one is keyed by
  the attribute set its samples are recorded under. A counter keeps a running
  total per key and the histogram keeps the recorded samples per key. One
  instrument, `error_count`, is used with two attribute shapes:
  `{route, method}` from `after_request` and `{route, error_type}` from the
  submission handler. `Attrs` has one constructor for each.
- `interceptor.dfy` (`Interceptor`): the span record and the two hooks.
- `catalog.dfy` (`Catalog`): validation of a submission, the submission
  itself, and the first-match lookup by code. The lookup exists both as a
  recursive function and as a loop.
- `app.dfy` (`App`): routing by path and method, the route handlers, and
  `Serve`. `Serve` is one request through both hooks and its handler.
  `ServeAll` is a sequence of requests.

The duration of a request comes from the wall clock. It is a `real`
parameter, passed in as a measured value. Status codes follow the
framework's defaults: a rendered page answers 200 and a redirect answers 302.
`Route` maps a decoded path to the rule it matches. A `<code>` segment is one
or more characters other than '/'. A path that no rule matches is answered
404. A method the rule does not accept is answered 405. Every rule accepts
HEAD next to GET, and OPTIONS, which the framework answers with 200 without
calling the view. The hooks run for all of these.

The application is started with the development server in debug mode
(app.py:241). A HEAD request to `/add_courses` reaches the view, which tests
only for GET and POST and returns nothing. In debug mode the framework
re-raises the resulting error, so `after_request` never runs. The model
gives that request the outcome `NoResponse`: its span stays open and
unexported, and no metric moves.

## Model

| member | source | states |
|---|---|---|
| CourseStore.Save | CS203_Lab_01-main/app.py:73-78 | after a save the file exists and holds one more record; every earlier record keeps its index and the new record is last |
| CourseStore.AbsentFile | CS203_Lab_01-main/app.py:66-78 | an absent file loads as the empty collection; saving into it creates the file holding exactly the new record |
| CourseStore.LoadAfterSave | CS203_Lab_01-main/app.py:73-78 | loading after a save gives the old collection with the new record appended |
| CourseStore.SaveAllAppends | CS203_Lab_01-main/app.py:73-78 | any sequence of saves leaves the old collection followed by the saved records in order |
| CourseStore.SaveAllMonotone | CS203_Lab_01-main/app.py:73-78 | saves never remove or reorder records: the size grows by the number saved and the old collection stays a prefix |
| Telemetry.Add | CS203_Lab_01-main/app.py:102 | adding n to a counter under one attribute set raises that total by n and leaves every other total unchanged |
| Telemetry.Record | CS203_Lab_01-main/app.py:103 | recording a histogram sample appends exactly that sample under its attribute set and touches no other set |
| Interceptor.SpanName | CS203_Lab_01-main/app.py:85-86 | the span name is the method, one space, then the path |
| Interceptor.SpanNameDeterminesRequest | CS203_Lab_01-main/app.py:85-86 | a method contains no space, so two requests give the same span name only if they have the same method and path |
| Interceptor.BeforeRequest | CS203_Lab_01-main/app.py:81-91 | the opened span carries the name, the method and the URL; it has no status code, no error flag, and has not ended |
| Interceptor.AfterRequest | CS203_Lab_01-main/app.py:93-117 | exactly one `before_request` span is ended and exported, tagged with the status and flagged as an error iff status >= 400; one request count and one duration sample are recorded under (path, method); the error count under that key rises iff status >= 400; every other key is unchanged |
| Interceptor.InterceptSpan | CS203_Lab_01-main/app.py:81-107 | the span a request leaves behind is ended, named "<METHOD> <PATH>", carries the status code, and has its error flag set iff status >= 400 |
| Interceptor.RunCounts | CS203_Lab_01-main/app.py:101-107 | over any run of requests through both hooks, each key's request and sample counts grow by the number of requests under that key, its error count grows by the number of those with status >= 400, and one `before_request` span is exported per request |
| Catalog.MissingFields | CS203_Lab_01-main/app.py:169-176 | a label is listed iff its field is absent or empty; only the three labels occur, and they keep the fixed order code, name, instructor; the list is empty iff nothing is missing |
| Catalog.MissingFieldsDistinct | CS203_Lab_01-main/app.py:170-176 | no label is listed twice |
| Catalog.Validate | CS203_Lab_01-main/app.py:164-192 | a submission fails iff some field is absent or empty, and the failure lists the missing labels; an accepted record has exactly the submitted code, name and instructor, all non-empty |
| Catalog.Submit | CS203_Lab_01-main/app.py:163-194 | on rejection the store is unchanged, and the error counter rises by exactly one under {route "/add_courses", error_type "missing_fields"} and nowhere else; on acceptance the record is appended to the store and the counter is untouched |
| Catalog.SubmitRejectedIff | CS203_Lab_01-main/app.py:169-194 | a submission is rejected iff a field is missing, and the store stays the same iff it is rejected |
| Catalog.RejectsEmptyCode | CS203_Lab_01-main/app.py:169-176 | an empty code with the other two fields present is rejected listing exactly "Course Code" |
| Catalog.FirstIndex | CS203_Lab_01-main/app.py:226 | the result is the least index whose record has the queried code, or none when no record has it |
| Catalog.FindByCode | CS203_Lab_01-main/app.py:225-227 | a record is found iff some stored record has the code; a found record has that code and is in the store |
| Catalog.FindByCodeFirstMatch | CS203_Lab_01-main/app.py:226 | with duplicate codes the record at the first occurrence is returned |
| Catalog.FindByCodeAfterAppend | CS203_Lab_01-main/app.py:226 | appending a record never changes a lookup that already succeeds; a failing lookup finds the new record iff its code matches |
| Catalog.ScanForCode | CS203_Lab_01-main/app.py:226 | the linear scan returns the same record as the first-match lookup |
| Catalog.FindsStoredCourse | CS203_Lab_01-main/app.py:225-236 | after CS203 is stored in an absent file, looking up "CS203" finds it and looking up "NOPE" finds nothing |
| App.SubmittedCourse | CS203_Lab_01-main/app.py:187-194 | the stored record of an accepted submission has exactly the submitted field values |
| App.RouteCoursePath | CS203_Lab_01-main/app.py:209 | the path /course/<code> is routed to the details page iff the code is non-empty and contains no '/'; otherwise no rule matches it |
| App.ServeAborted | CS203_Lab_01-main/app.py:160-163 | exactly the HEAD requests to /add_courses, which miss both method tests, end without a response; for them no span is exported, no metric moves and the store is untouched |
| App.ServeInstruments | CS203_Lab_01-main/app.py:81-107 | every request that gets a response, whatever its route, exports one ended `before_request` span named after it, with its status code and error flag iff status >= 400; one request count and one sample are recorded under its route and method, and no other key changes |
| App.ServeErrorCount | CS203_Lab_01-main/app.py:104-105 | error_count moves in exactly two ways: by one under (path, method) iff the request gets a response with status >= 400, and by one under the missing-fields key (line 177) iff the request is a rejected submission |
| App.ServeHandledErrorsRedirect | CS203_Lab_01-main/app.py:225-236 | an unknown code and a rejected submission (line 185) both redirect to the catalog with a notice; a path matching no rule answers 404 and a method the rule does not accept answers 405, and only those two give status >= 400 |
| App.ServeStore | CS203_Lab_01-main/app.py:151-207 | only an accepted POST to /add_courses writes the store, and it appends exactly the submitted record; every other request leaves the file unchanged |
| App.ServeDetails | CS203_Lab_01-main/app.py:209-238 | a GET or HEAD of /course/<code> renders the first stored record with that code, and redirects with a not-found notice iff there is none; an empty code or one containing '/' matches no rule and answers 404 |
| App.ServeAllStore | CS203_Lab_01-main/app.py:151-207 | over any sequence of requests the store ends as the initial collection followed by the accepted submissions in order; exactly one `before_request` span is exported per request that gets a response |

## Left out

- JSON parsing and serialisation, and the filesystem (app.py:70-71, 77-78). The file is the abstract `Option<seq<Course>>`, which always holds an array of complete records. A file that is not valid JSON makes `json.load` raise on every route that loads it (app.py:71). A file holding valid JSON that is not such an array is not rejected when loaded, and each route then does whatever Python's operations do on that value. For `{}`: a submission fails at `courses.append` (app.py:76), the lookup (app.py:226) finds nothing and redirects, and the catalog renders an empty list. A record without a `code` key makes the lookup raise at app.py:226. None of these cases is modelled.
- A server that passes exceptions on to an error handler: the model follows the debug-mode server the application is started with (app.py:241), where a view that returns nothing skips `after_request`.
- The tracer and meter providers, the exporters and batch processing (app.py:28-63): these are library calls and background export. The exported spans are kept as a sequence in the state.
- The server span that `FlaskInstrumentor` opens and exports on every request (app.py:38): the model's spans are only those `before_request` opens.
- The wall clock (app.py:84, 96): the duration is a parameter. No sign is promised, because `time.time()` is not monotonic.
- The structured log lines (app.py:20-26, 110-116, and the per-route `logger` calls) and the flash messages: these are output only. A redirect carries a `Notice` naming its cause instead of the message text.
- Template rendering and `redirect`/`url_for`. Routing is modelled on the decoded path. The framework's static-file rule and its redirects that normalise a path (merging repeated slashes) are not.
- The child spans each route opens with `start_as_current_span`, and their attributes (app.py:122-125, 136-148, 154-158, 195-197, 212-217, 228). Several of those attributes are set after the `with` block has ended the child span. That includes the error flag in `course_details`, which the tracing library ignores, so the model leaves it off every span.
- Concurrent requests and concurrent writers to the file: requests are served one at a time, in sequence.
