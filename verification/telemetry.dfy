/**
 * The process-wide metric instruments: two counters (`route_requests_total`,
 * `error_count`) and one histogram (`route_processing_time_ms`). Each sample
 * is recorded under an attribute set; the model keeps, per attribute set, the
 * running count (for a counter) or the recorded samples (for the histogram).
 */
module Telemetry {

  /** The attribute sets the application records samples under. */
  datatype Attrs =
    | RouteMethod(route: string, httpMethod: string)      // {"route": …, "method": …}
    | RouteErrorType(route: string, errorType: string)  // {"route": …, "error_type": …}

  /** A monotonic counter: the running total per attribute set. */
  type Counter = map<Attrs, nat>

  /** A histogram: the samples recorded per attribute set, oldest first. */
  type Histogram = map<Attrs, seq<real>>

  /** The current total of `c` under `k`; an attribute set never used reads 0. */
  function Total(c: Counter, k: Attrs): nat {
    if k in c then c[k] else 0
  }

  /** `counter.add(n, k)`: the total under `k` rises by `n`, nothing else moves. */
  function Add(c: Counter, n: nat, k: Attrs): (r: Counter)
    ensures Total(r, k) == Total(c, k) + n
    ensures forall j :: j != k ==> Total(r, j) == Total(c, j)
  {
    c[k := Total(c, k) + n]
  }

  /** The samples of `h` under `k`; an attribute set never used has none. */
  function Samples(h: Histogram, k: Attrs): seq<real> {
    if k in h then h[k] else []
  }

  /** `histogram.record(v, k)`: exactly one sample `v` joins `k`, nothing else moves. */
  function Record(h: Histogram, v: real, k: Attrs): (r: Histogram)
    ensures Samples(r, k) == Samples(h, k) + [v]
    ensures forall j :: j != k ==> Samples(r, j) == Samples(h, j)
  {
    h[k := Samples(h, k) + [v]]
  }

  /** The three instruments together. */
  datatype Metrics = Metrics(
    requests: Counter,          // route_requests_total
    processingTime: Histogram,  // route_processing_time_ms
    errors: Counter             // error_count
  )
}
