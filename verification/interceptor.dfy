/**
 * The per-request instrumentation hooks. `before_request` opens a span named
 * after the request; `after_request` tags it with the status code (and an
 * error flag from 400 up), records one request count, one processing-time
 * sample and, from 400 up, one error count under the request's route and
 * method, then ends the span.
 */
module Interceptor {
  import opened Wrappers
  import opened Telemetry

  /** A trace span with the attributes the hooks set on it. */
  datatype Span = Span(
    name: string,
    httpMethod: string,       // "http.method"
    url: string,              // "http.url"
    statusCode: Option<int>,  // "http.status_code", set on completion
    error: bool,              // "error"
    ended: bool
  )

  /**
   * The process-wide telemetry: the metric instruments and the ended spans
   * the request hooks opened, oldest first.
   */
  datatype Observability = Observability(metrics: Metrics, spans: seq<Span>)

  /** The attribute set every per-request sample is recorded under. */
  function RequestKey(path: string, httpMethod: string): Attrs {
    RouteMethod(path, httpMethod)
  }

  /** The span name: the method, one space, the path. */
  function SpanName(httpMethod: string, path: string): (r: string)
    ensures |r| == |httpMethod| + 1 + |path|
    ensures r[..|httpMethod|] == httpMethod
    ensures r[|httpMethod|] == ' '
    ensures r[|httpMethod| + 1..] == path
  {
    httpMethod + " " + path
  }

  /**
   * An HTTP method never contains a space, so a span name identifies the
   * method and the path it was built from.
   */
  lemma SpanNameDeterminesRequest(m1: string, p1: string, m2: string, p2: string)
    requires ' ' !in m1 && ' ' !in m2
    requires SpanName(m1, p1) == SpanName(m2, p2)
    ensures m1 == m2 && p1 == p2
  {
  }

  /** `before_request`: open a span for the request, not yet ended and untagged. */
  function BeforeRequest(httpMethod: string, path: string, url: string): (s: Span)
    ensures s.name == SpanName(httpMethod, path)
    ensures s.httpMethod == httpMethod && s.url == url
    ensures s.statusCode == None && !s.error && !s.ended
  {
    Span(SpanName(httpMethod, path), httpMethod, url, None, false, false)
  }

  /**
   * `after_request`: finish span `s` for a response with `status` that took
   * `duration` milliseconds. Exactly one span is exported; exactly one request
   * count and one sample are recorded under the request's key; the error
   * counter rises under that key iff `status >= 400`; nothing else changes.
   */
  function AfterRequest(o: Observability, s: Span, httpMethod: string, path: string,
                        status: int, duration: real): (r: Observability)
    ensures |r.spans| == |o.spans| + 1
    ensures r.spans[..|o.spans|] == o.spans
    ensures var t := r.spans[|o.spans|];
      && t.ended
      && t.statusCode == Some(status)
      && (t.error <==> s.error || status >= 400)
      && t.name == s.name && t.httpMethod == s.httpMethod && t.url == s.url
    ensures var k := RequestKey(path, httpMethod);
      && Total(r.metrics.requests, k) == Total(o.metrics.requests, k) + 1
      && Samples(r.metrics.processingTime, k) == Samples(o.metrics.processingTime, k) + [duration]
      && (status >= 400 ==> Total(r.metrics.errors, k) == Total(o.metrics.errors, k) + 1)
      && (status < 400 ==> r.metrics.errors == o.metrics.errors)
    ensures forall j :: j != RequestKey(path, httpMethod) ==>
      && Total(r.metrics.requests, j) == Total(o.metrics.requests, j)
      && Samples(r.metrics.processingTime, j) == Samples(o.metrics.processingTime, j)
      && Total(r.metrics.errors, j) == Total(o.metrics.errors, j)
  {
    var k := RequestKey(path, httpMethod);
    var tagged := s.(statusCode := Some(status));
    var flagged := if status >= 400 then tagged.(error := true) else tagged;
    var m := o.metrics;
    var requests := Add(m.requests, 1, k);
    var times := Record(m.processingTime, duration, k);
    var errors := if status >= 400 then Add(m.errors, 1, k) else m.errors;
    Observability(Metrics(requests, times, errors), o.spans + [flagged.(ended := true)])
  }

  /** One request through both hooks. */
  function Intercept(o: Observability, httpMethod: string, path: string, url: string,
                     status: int, duration: real): Observability
  {
    AfterRequest(o, BeforeRequest(httpMethod, path, url), httpMethod, path, status, duration)
  }

  /**
   * The span a request leaves behind is ended, named "<METHOD> <PATH>",
   * carries the status code, and is flagged as an error iff `status >= 400`.
   */
  lemma InterceptSpan(o: Observability, httpMethod: string, path: string, url: string,
                      status: int, duration: real)
    ensures var r := Intercept(o, httpMethod, path, url, status, duration);
      && |r.spans| == |o.spans| + 1
      && r.spans[..|o.spans|] == o.spans
      && r.spans[|o.spans|] == Span(SpanName(httpMethod, path), httpMethod, url,
                                    Some(status), status >= 400, true)
  {
  }

  /** The facts about one request that the hooks see. */
  datatype Exchange = Exchange(httpMethod: string, path: string, url: string,
                               status: int, duration: real)

  /** Intercepting `xs` in order, oldest first. */
  function Run(o: Observability, xs: seq<Exchange>): Observability
    decreases |xs|
  {
    if xs == [] then o
    else
      var x := xs[|xs| - 1];
      Intercept(Run(o, xs[..|xs| - 1]), x.httpMethod, x.path, x.url, x.status, x.duration)
  }

  /** How many of `xs` were requests under key `k`. */
  function Hits(xs: seq<Exchange>, k: Attrs): nat
    decreases |xs|
  {
    if xs == [] then 0
    else
      var x := xs[|xs| - 1];
      Hits(xs[..|xs| - 1], k) + (if RequestKey(x.path, x.httpMethod) == k then 1 else 0)
  }

  /** How many of `xs` were requests under key `k` answered with a status from 400 up. */
  function ErrorHits(xs: seq<Exchange>, k: Attrs): nat
    decreases |xs|
  {
    if xs == [] then 0
    else
      var x := xs[|xs| - 1];
      ErrorHits(xs[..|xs| - 1], k)
        + (if RequestKey(x.path, x.httpMethod) == k && x.status >= 400 then 1 else 0)
  }

  /**
   * Over any run of requests, every key's request count and sample count
   * grow by the number of requests under that key, its error count by the
   * number of those that failed, and one span is exported per request.
   */
  lemma {:induction false} RunCounts(o: Observability, xs: seq<Exchange>, k: Attrs)
    ensures |Run(o, xs).spans| == |o.spans| + |xs|
    ensures Total(Run(o, xs).metrics.requests, k) == Total(o.metrics.requests, k) + Hits(xs, k)
    ensures |Samples(Run(o, xs).metrics.processingTime, k)|
         == |Samples(o.metrics.processingTime, k)| + Hits(xs, k)
    ensures Total(Run(o, xs).metrics.errors, k) == Total(o.metrics.errors, k) + ErrorHits(xs, k)
    decreases |xs|
  {
    if xs != [] {
      RunCounts(o, xs[..|xs| - 1], k);
    }
  }
}
