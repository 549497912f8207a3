/**
 * The application end to end, as the development server it is started with
 * runs it: a request passes through `before_request`, is routed by its path
 * and method, reaches its handler (or is answered by the framework), and
 * passes through `after_request`. The state threaded through requests is the
 * course file and the process-wide telemetry.
 */
module App {
  import opened Wrappers
  import opened CourseStore
  import opened Telemetry
  import opened Interceptor
  import opened Catalog

  // ---------------------------------------------------------------------------
  // Routing
  // ---------------------------------------------------------------------------

  /** The rule a path matches. */
  datatype Endpoint =
    | Home                        // /
    | CatalogPage                 // /catalog
    | AddCourses                  // /add_courses
    | CourseDetails(code: string) // /course/<code>
    | NoRoute                     // no rule matches

  const CoursePrefix: string := "/course/"

  /** A `<code>` segment: the default converter takes one or more characters other than '/'. */
  predicate ValidCode(code: string) {
    code != "" && '/' !in code
  }

  /** The rule the (decoded) request path matches, if any. */
  function Route(path: string): Endpoint {
    if path == "/" then Home
    else if path == "/catalog" then CatalogPage
    else if path == "/add_courses" then AddCourses
    else if |path| >= |CoursePrefix| && path[..|CoursePrefix|] == CoursePrefix
            && ValidCode(path[|CoursePrefix|..]) then
      CourseDetails(path[|CoursePrefix|..])
    else NoRoute
  }

  /**
   * `/course/<code>` is routed to the details page exactly when the code is a
   * valid segment; otherwise no rule matches it.
   */
  lemma RouteCoursePath(code: string)
    ensures Route(CoursePrefix + code) == if ValidCode(code) then CourseDetails(code) else NoRoute
  {
    var p := CoursePrefix + code;
    assert p[..|CoursePrefix|] == CoursePrefix;
    assert p[|CoursePrefix|..] == code;
    assert p[1] == 'c';
    assert p != "/" && p != "/catalog" && p != "/add_courses" by {
      assert "/catalog"[1] == 'c' && "/catalog"[2] == 'a' && p[2] == 'o';
      assert "/add_courses"[1] == 'a';
    }
  }

  /**
   * The methods a rule accepts: the ones it declares plus HEAD (added for
   * GET) and OPTIONS (answered by the framework).
   */
  function AllowedMethods(e: Endpoint): set<string> {
    match e
    case AddCourses => {"GET", "HEAD", "POST", "OPTIONS"}
    case NoRoute => {}
    case _ => {"GET", "HEAD", "OPTIONS"}
  }

  /** The submitted form fields `course-code`, `courseName` and `instructor`. */
  datatype Form = Form(code: Field, name: Field, instructor: Field)

  datatype Request = Request(httpMethod: string, path: string, url: string, form: Form)

  // ---------------------------------------------------------------------------
  // Handlers
  // ---------------------------------------------------------------------------

  /** The notice a redirect to the catalog carries. */
  datatype Notice =
    | MissingFieldsNotice(missing: seq<string>)
    | CourseAdded
    | CourseNotFound(code: string)

  datatype View = HomeView | CatalogView(courses: seq<Course>) | FormView | DetailsView(course: Course)

  datatype Response =
    | Rendered(view: View)
    | RedirectToCatalog(notice: Notice)
    | FrameworkAnswer(status: int)  // 404, 405, or the default OPTIONS answer
    | NoResponse                    // the view returned nothing

  /** Rendered pages answer 200 and redirects 302; the framework picks its own status. */
  function StatusOf(r: Response): int
    requires !r.NoResponse?
  {
    match r
    case Rendered(_) => 200
    case RedirectToCatalog(_) => 302
    case FrameworkAnswer(s) => s
  }

  const NotFoundStatus: int := 404
  const MethodNotAllowedStatus: int := 405
  const OptionsStatus: int := 200

  datatype Handled = Handled(file: CourseFile, errors: Counter, response: Response)

  /** Routing, then the route handlers: what each request is answered with and what it changes. */
  function Handle(file: CourseFile, errors: Counter, req: Request): Handled {
    var e := Route(req.path);
    if e.NoRoute? then Handled(file, errors, FrameworkAnswer(NotFoundStatus))
    else if req.httpMethod !in AllowedMethods(e) then
      Handled(file, errors, FrameworkAnswer(MethodNotAllowedStatus))
    else if req.httpMethod == "OPTIONS" then Handled(file, errors, FrameworkAnswer(OptionsStatus))
    else
      match e
      case Home => Handled(file, errors, Rendered(HomeView))
      case CatalogPage => Handled(file, errors, Rendered(CatalogView(Load(file))))
      case AddCourses =>
        if req.httpMethod == "GET" then Handled(file, errors, Rendered(FormView))
        else if req.httpMethod == "POST" then
          var s := Submit(file, errors, req.form.code, req.form.name, req.form.instructor);
          (match s.verdict
           case Failure(missing) => Handled(s.file, s.errors, RedirectToCatalog(MissingFieldsNotice(missing)))
           case Success(_) => Handled(s.file, s.errors, RedirectToCatalog(CourseAdded)))
        else Handled(file, errors, NoResponse)
      case CourseDetails(code) =>
        (match FindByCode(Load(file), code)
         case None => Handled(file, errors, RedirectToCatalog(CourseNotFound(code)))
         case Some(c) => Handled(file, errors, Rendered(DetailsView(c))))
  }

  // ---------------------------------------------------------------------------
  // Serving
  // ---------------------------------------------------------------------------

  datatype AppState = AppState(file: CourseFile, telemetry: Observability)

  datatype Served = Served(state: AppState, response: Response)

  /**
   * One request: open the span, route and handle, then finish the span and
   * the metrics. When the view returns nothing, the development server
   * re-raises the resulting error, so `after_request` never runs: the span
   * stays open and no sample is recorded.
   */
  function Serve(a: AppState, req: Request, duration: real): Served {
    var span := BeforeRequest(req.httpMethod, req.path, req.url);
    var h := Handle(a.file, a.telemetry.metrics.errors, req);
    var o := a.telemetry.(metrics := a.telemetry.metrics.(errors := h.errors));
    if h.response.NoResponse? then Served(AppState(h.file, o), h.response)
    else
      var o' := AfterRequest(o, span, req.httpMethod, req.path, StatusOf(h.response), duration);
      Served(AppState(h.file, o'), h.response)
  }

  /** A request whose view falls through both method tests: HEAD on `/add_courses`. */
  predicate Aborts(req: Request) {
    Route(req.path).AddCourses? && req.httpMethod == "HEAD"
  }

  /** A submission the handler accepts: a POST to `/add_courses` with every field present. */
  predicate Accepts(req: Request) {
    && Route(req.path).AddCourses?
    && req.httpMethod == "POST"
    && Validate(req.form.code, req.form.name, req.form.instructor).Success?
  }

  /** A submission the handler rejects: a POST to `/add_courses` with a field missing. */
  predicate Rejects(req: Request) {
    && Route(req.path).AddCourses?
    && req.httpMethod == "POST"
    && Validate(req.form.code, req.form.name, req.form.instructor).Failure?
  }

  /** The record an accepted submission stores. */
  function SubmittedCourse(req: Request): (c: Course)
    requires Accepts(req)
    ensures Some(c.code) == req.form.code && Some(c.name) == req.form.name
    ensures Some(c.instructor) == req.form.instructor
  {
    Validate(req.form.code, req.form.name, req.form.instructor).value
  }

  /**
   * Exactly the requests whose view returns nothing end without a response;
   * for them no span is exported, no metric moves and the store is untouched.
   */
  lemma ServeAborted(a: AppState, req: Request, duration: real)
    ensures var r := Serve(a, req, duration);
      && (r.response.NoResponse? <==> Aborts(req))
      && (r.response.NoResponse? ==> r.state == a)
  {
  }

  /**
   * Every request that gets a response, whatever its route and outcome,
   * exports exactly one ended `before_request` span named "<METHOD> <PATH>",
   * carrying the response status and flagged as an error iff that status is
   * from 400 up, and records exactly one request count and one
   * processing-time sample under its route and method.
   */
  lemma ServeInstruments(a: AppState, req: Request, duration: real)
    ensures var r := Serve(a, req, duration);
      var o := a.telemetry; var o' := r.state.telemetry;
      var k := RequestKey(req.path, req.httpMethod);
      !r.response.NoResponse? ==>
        && |o'.spans| == |o.spans| + 1
        && o'.spans[..|o.spans|] == o.spans
        && o'.spans[|o.spans|] == Span(SpanName(req.httpMethod, req.path), req.httpMethod, req.url,
                                       Some(StatusOf(r.response)), StatusOf(r.response) >= 400, true)
        && Total(o'.metrics.requests, k) == Total(o.metrics.requests, k) + 1
        && Samples(o'.metrics.processingTime, k) == Samples(o.metrics.processingTime, k) + [duration]
        && (forall j :: j != k ==> Total(o'.metrics.requests, j) == Total(o.metrics.requests, j))
        && (forall j :: j != k ==> Samples(o'.metrics.processingTime, j) == Samples(o.metrics.processingTime, j))
  {
  }

  /**
   * The error counter moves in exactly two ways: by one under the request's
   * route and method iff it gets a response with status from 400 up, and by
   * one under the missing-fields key iff the request is a rejected submission.
   */
  lemma ServeErrorCount(a: AppState, req: Request, duration: real, j: Attrs)
    ensures var r := Serve(a, req, duration);
      var k := RequestKey(req.path, req.httpMethod);
      Total(r.state.telemetry.metrics.errors, j)
        == Total(a.telemetry.metrics.errors, j)
           + (if j == k && !r.response.NoResponse? && StatusOf(r.response) >= 400 then 1 else 0)
           + (if j == MissingFieldsKey && Rejects(req) then 1 else 0)
  {
  }

  /**
   * The handled failures, a rejected submission and an unknown course code,
   * are redirects, so they never raise the per-route error count: a status
   * from 400 up comes only from a path no rule matches (404) or a method the
   * rule does not accept (405).
   */
  lemma ServeHandledErrorsRedirect(a: AppState, req: Request, duration: real)
    ensures var r := Serve(a, req, duration);
      var e := Route(req.path);
      && (Rejects(req) ==> r.response == RedirectToCatalog(MissingFieldsNotice(
            MissingFields(req.form.code, req.form.name, req.form.instructor))))
      && ((e.CourseDetails? && req.httpMethod in {"GET", "HEAD"}
           && FindByCode(Load(a.file), e.code).None?)
            ==> r.response == RedirectToCatalog(CourseNotFound(e.code)))
      && (e.NoRoute? ==> r.response == FrameworkAnswer(404))
      && (!e.NoRoute? && req.httpMethod !in AllowedMethods(e) ==> r.response == FrameworkAnswer(405))
      && (!r.response.NoResponse? ==>
            (StatusOf(r.response) >= 400 <==> e.NoRoute? || req.httpMethod !in AllowedMethods(e)))
  {
  }

  /**
   * Only an accepted submission writes the store, and it appends exactly the
   * submitted record; every other request leaves the file as it was.
   */
  lemma ServeStore(a: AppState, req: Request, duration: real)
    ensures var r := Serve(a, req, duration);
      && (Accepts(req) ==> Load(r.state.file) == Load(a.file) + [SubmittedCourse(req)])
      && (!Accepts(req) ==> r.state.file == a.file)
  {
  }

  /**
   * A GET or HEAD of `/course/<code>` renders the first stored record with
   * that code, and redirects with a not-found notice iff there is none; a
   * code that is not a valid segment matches no rule and is answered 404.
   */
  lemma ServeDetails(a: AppState, code: string, m: string, url: string, form: Form, duration: real)
    requires m == "GET" || m == "HEAD"
    ensures var r := Serve(a, Request(m, CoursePrefix + code, url, form), duration);
      && (!ValidCode(code) ==> r.response == FrameworkAnswer(404))
      && (ValidCode(code) ==>
          && (r.response.Rendered? <==> exists i :: 0 <= i < |Load(a.file)| && Load(a.file)[i].code == code)
          && (r.response.Rendered? ==> r.response.view == DetailsView(FindByCode(Load(a.file), code).value))
          && (!r.response.Rendered? ==> r.response == RedirectToCatalog(CourseNotFound(code))))
  {
    RouteCoursePath(code);
  }

  /** One request together with the processing time the clock reported for it. */
  datatype Call = Call(request: Request, duration: real)

  /** Serving `calls` in order, oldest first. */
  function ServeAll(a: AppState, calls: seq<Call>): AppState
    decreases |calls|
  {
    if calls == [] then a
    else
      var c := calls[|calls| - 1];
      Serve(ServeAll(a, calls[..|calls| - 1]), c.request, c.duration).state
  }

  /** The records the accepted submissions among `calls` store, in order. */
  function AcceptedCourses(calls: seq<Call>): seq<Course>
    decreases |calls|
  {
    if calls == [] then []
    else
      var c := calls[|calls| - 1];
      AcceptedCourses(calls[..|calls| - 1])
        + (if Accepts(c.request) then [SubmittedCourse(c.request)] else [])
  }

  /** How many of `calls` get a response. */
  function Answered(calls: seq<Call>): nat
    decreases |calls|
  {
    if calls == [] then 0
    else
      var c := calls[|calls| - 1];
      Answered(calls[..|calls| - 1]) + (if Aborts(c.request) then 0 else 1)
  }

  /**
   * Over any sequence of requests the store only grows: it ends as the
   * initial collection followed by the accepted submissions, in order, and
   * exactly one `before_request` span is exported per answered request.
   */
  lemma {:induction false} ServeAllStore(a: AppState, calls: seq<Call>)
    ensures Load(ServeAll(a, calls).file) == Load(a.file) + AcceptedCourses(calls)
    ensures |ServeAll(a, calls).telemetry.spans| == |a.telemetry.spans| + Answered(calls)
    decreases |calls|
  {
    if calls != [] {
      var init := calls[..|calls| - 1];
      var c := calls[|calls| - 1];
      ServeAllStore(a, init);
      var b := ServeAll(a, init);
      ServeStore(b, c.request, c.duration);
      ServeInstruments(b, c.request, c.duration);
      ServeAborted(b, c.request, c.duration);
    }
  }
}
