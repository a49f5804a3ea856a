/** The records that flow through index.js: Lighthouse audit records, the
    six metrics the script keeps, and the names it uses for them. A
    JavaScript object is a map from property names to values; a property
    the object does not have is a key the map lacks. */
module Audits {

  datatype Option<T> = None | Some(value: T)

  /** A property value of an audit record. Only numbers and strings are
      ever inspected by the script; every other kind of value is `Other`. */
  datatype Field = Number(x: real) | Text(s: string) | Other

  /** One audit record, e.g. the value of `audits["speed-index"]`. */
  type Audit = map<string, Field>

  /** A map from audit names to audit records: the `lhr.audits` object
      Lighthouse returns. */
  type Report = map<string, Audit>

  /** The six metrics the script keeps; each constructor stands for the
      short key of the same name (fcp, lcp, si, tbt, mpf, cls) under which
      the metric appears in an extracted set. */
  datatype Metric = Fcp | Lcp | Si | Tbt | Mpf | Cls

  /** The six metrics in the order the averager visits them (index.js:57). */
  const Metrics: seq<Metric> := [Fcp, Lcp, Si, Tbt, Mpf, Cls]

  /** `Metrics` lists every metric. */
  lemma MetricsComplete()
    ensures forall m: Metric :: m in Metrics
  {
    forall m: Metric
      ensures m in Metrics
    {
      match m
      case Fcp => assert Metrics[0] == m;
      case Lcp => assert Metrics[1] == m;
      case Si => assert Metrics[2] == m;
      case Tbt => assert Metrics[3] == m;
      case Mpf => assert Metrics[4] == m;
      case Cls => assert Metrics[5] == m;
    }
  }

  /** The Lighthouse audit each metric is read from (index.js:28-33). */
  function AuditId(m: Metric): string {
    match m
    case Fcp => "first-contentful-paint"
    case Lcp => "largest-contentful-paint"
    case Si => "speed-index"
    case Tbt => "total-blocking-time"
    case Mpf => "max-potential-fid"
    case Cls => "cumulative-layout-shift"
  }

  /** One extracted metric set: a record per short key. The short keys are
      the only ones such an object can have, so it is keyed by `Metric`. */
  type MetricSet = map<Metric, Audit>

  /** The two properties of an audit that the extractor keeps. */
  const RetainedFields: set<string> := {"numericValue", "numericUnit"}

  /** True when the audit's display mode is the JavaScript string "numeric"
      (strict equality: only that exact string matches). */
  predicate IsNumeric(sample: Audit) {
    "scoreDisplayMode" in sample && sample["scoreDisplayMode"] == Text("numeric")
  }
}
