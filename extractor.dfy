/** parsePerformanceResults (index.js:26-52): renames six Lighthouse audits
    to short keys by destructuring, then keeps `numericValue` and
    `numericUnit` of each with lodash `pick` over twelve dotted paths. */
module Extractor {
  import opened Audits

  /** A dotted path "key.field" as given to `pick`, e.g. "fcp.numericValue". */
  datatype Path = Path(key: Metric, field: string)

  /** The paths `<key>.numericValue` and `<key>.numericUnit` for each of
      the given metrics, in order; for `Metrics` these are the twelve paths
      of index.js:37-48. */
  function PathsFor(ms: seq<Metric>): seq<Path> {
    if ms == [] then []
    else [Path(ms[0], "numericValue"), Path(ms[0], "numericUnit")] + PathsFor(ms[1..])
  }

  /** The object built by the destructuring arrow of index.js:27-34: it has
      all six short keys; a key whose audit is absent holds `undefined`
      (here `None`). */
  function Destructure(audits: Report): (relevant: map<Metric, Option<Audit>>)
    ensures forall m: Metric :: m in relevant
    ensures forall m :: relevant[m] == (if AuditId(m) in audits then Some(audits[AuditId(m)]) else None)
  {
    MetricsComplete();
    map m | m in Metrics :: if AuditId(m) in audits then Some(audits[AuditId(m)]) else None
  }

  /** lodash `hasIn`: every step of the path exists; a step through
      `undefined` fails. */
  predicate HasIn(obj: map<Metric, Option<Audit>>, p: Path) {
    p.key in obj && obj[p.key].Some? && p.field in obj[p.key].value
  }

  function GetPath(obj: map<Metric, Option<Audit>>, p: Path): Field
    requires HasIn(obj, p)
  {
    obj[p.key].value[p.field]
  }

  /** lodash `set` on a two-step path: creates the intermediate object when
      it is missing, then sets the field. */
  function SetPath(acc: MetricSet, p: Path, v: Field): MetricSet {
    acc[p.key := (if p.key in acc then acc[p.key] else map[])[p.field := v]]
  }

  /** lodash `pick`: visits the paths in order and copies each one the
      source object has into the accumulated result. */
  function PickInto(acc: MetricSet, obj: map<Metric, Option<Audit>>, paths: seq<Path>): MetricSet
    decreases |paths|
  {
    if paths == [] then acc
    else
      var acc' := if HasIn(obj, paths[0]) then SetPath(acc, paths[0], GetPath(obj, paths[0])) else acc;
      PickInto(acc', obj, paths[1..])
  }

  /** index.js:26-52. */
  function ParsePerformanceResults(audits: Report): MetricSet {
    PickInto(map[], Destructure(audits), PathsFor(Metrics))
  }

  /** Field-level meaning of `pick`: a field is in the result exactly when
      it was already in the accumulator or one of the paths names it and
      the source has it; a copied field carries the source's value, any
      other keeps the accumulator's. */
  lemma {:induction false} PickIntoAt(acc: MetricSet, obj: map<Metric, Option<Audit>>, paths: seq<Path>, m: Metric, f: string)
    ensures var r := PickInto(acc, obj, paths);
      && ((m in r && f in r[m]) <==> ((m in acc && f in acc[m]) || (Path(m, f) in paths && HasIn(obj, Path(m, f)))))
      && (Path(m, f) in paths && HasIn(obj, Path(m, f)) ==> r[m][f] == GetPath(obj, Path(m, f)))
      && (m in acc && f in acc[m] && !(Path(m, f) in paths && HasIn(obj, Path(m, f))) ==> r[m][f] == acc[m][f])
    decreases |paths|
  {
    if paths != [] {
      var p := paths[0];
      var acc' := if HasIn(obj, p) then SetPath(acc, p, GetPath(obj, p)) else acc;
      PickIntoAt(acc', obj, paths[1..], m, f);
      assert Path(m, f) in paths <==> Path(m, f) == p || Path(m, f) in paths[1..] by {
        assert paths == [p] + paths[1..];
      }
    }
  }

  /** Shape of `pick`'s result: every record in it is non-empty and holds
      only fields that the paths name. */
  lemma {:induction false} PickIntoShape(acc: MetricSet, obj: map<Metric, Option<Audit>>, paths: seq<Path>, fields: set<string>)
    requires forall m :: m in acc ==> acc[m] != map[] && acc[m].Keys <= fields
    requires forall p :: p in paths ==> p.field in fields
    ensures forall m :: m in PickInto(acc, obj, paths) ==>
      PickInto(acc, obj, paths)[m] != map[] && PickInto(acc, obj, paths)[m].Keys <= fields
    decreases |paths|
  {
    if paths != [] {
      var p := paths[0];
      var acc' := if HasIn(obj, p) then SetPath(acc, p, GetPath(obj, p)) else acc;
      assert p in paths;
      assert forall q :: q in paths[1..] ==> q in paths;
      assert forall m :: m in acc' ==> acc'[m] != map[] && acc'[m].Keys <= fields by {
        if HasIn(obj, p) {
          assert p.field in acc'[p.key];
        }
      }
      PickIntoShape(acc', obj, paths[1..], fields);
      assert PickInto(acc, obj, paths) == PickInto(acc', obj, paths[1..]);
    }
  }

  /** The paths name exactly the retained fields of the given metrics. */
  lemma {:induction false} PathsForAre(ms: seq<Metric>, p: Path)
    ensures p in PathsFor(ms) <==> p.key in ms && p.field in RetainedFields
  {
    if ms != [] {
      PathsForAre(ms[1..], p);
      assert ms == [ms[0]] + ms[1..];
    }
  }

  /** Each entry of the extracted set is a non-empty record holding at most
      `numericValue` and `numericUnit` (index.js:36-49); its keys are the
      six short keys by construction of `MetricSet`. */
  lemma ParseShape(audits: Report)
    ensures forall m :: m in ParsePerformanceResults(audits) ==>
      ParsePerformanceResults(audits)[m] != map[] && ParsePerformanceResults(audits)[m].Keys <= RetainedFields
  {
    forall p | p in PathsFor(Metrics)
      ensures p.field in RetainedFields
    {
      PathsForAre(Metrics, p);
    }
    PickIntoShape(map[], Destructure(audits), PathsFor(Metrics), RetainedFields);
  }

  /** Each retained field is present exactly when the corresponding long-name
      audit has it, and then equals it (index.js:27-34, 36-49). */
  lemma ParseFields(audits: Report, m: Metric, f: string)
    requires f in RetainedFields
    ensures var r := ParsePerformanceResults(audits);
      && ((m in r && f in r[m]) <==> (AuditId(m) in audits && f in audits[AuditId(m)]))
      && (m in r && f in r[m] ==> r[m][f] == audits[AuditId(m)][f])
  {
    PathsForAre(Metrics, Path(m, f));
    assert m in Metrics;
    PickIntoAt(map[], Destructure(audits), PathsFor(Metrics), m, f);
  }

  /** The extracted record of a metric is exactly its source audit restricted
      to the two retained fields; the metric is absent from the extracted
      set, without any fault, when its audit is missing or has neither
      field. */
  lemma ParseEntry(audits: Report, m: Metric)
    ensures var r := ParsePerformanceResults(audits);
      var kept := if AuditId(m) in audits then Retained(audits[AuditId(m)]) else map[];
      && (m in r <==> kept != map[])
      && (m in r ==> r[m] == kept)
  {
    var r := ParsePerformanceResults(audits);
    var kept := if AuditId(m) in audits then Retained(audits[AuditId(m)]) else map[];
    ParseShape(audits);
    ParseFields(audits, m, "numericValue");
    ParseFields(audits, m, "numericUnit");
    assert forall f :: f in kept ==> f in RetainedFields;
    if m in r {
      forall f | f in RetainedFields
        ensures f in r[m] <==> f in kept
        ensures f in kept ==> r[m][f] == kept[f]
      {
      }
      assert r[m].Keys == kept.Keys;
    }
  }

  /** The two retained properties of an audit record, where present. */
  function Retained(a: Audit): (kept: Audit)
    ensures kept.Keys <= RetainedFields
    ensures forall f :: f in kept ==> f in a && kept[f] == a[f]
    ensures forall f :: f in RetainedFields && f in a ==> f in kept
  {
    map f | f in RetainedFields && f in a :: a[f]
  }

  /** For a report holding all six audits, each with both retained fields,
      the extracted set has all six keys and each entry exactly the two
      fields, copied from the source. */
  lemma ParseCompleteReport(audits: Report)
    requires forall m: Metric :: AuditId(m) in audits && RetainedFields <= audits[AuditId(m)].Keys
    ensures forall m: Metric ::
      && m in ParsePerformanceResults(audits)
      && ParsePerformanceResults(audits)[m] == Retained(audits[AuditId(m)])
      && ParsePerformanceResults(audits)[m].Keys == RetainedFields
  {
    forall m: Metric
      ensures m in ParsePerformanceResults(audits)
      ensures ParsePerformanceResults(audits)[m] == Retained(audits[AuditId(m)])
      ensures ParsePerformanceResults(audits)[m].Keys == RetainedFields
    {
      ParseEntry(audits, m);
    }
  }

  /** Every other property of an audit is dropped; in particular no
      extracted record has a `scoreDisplayMode`, so none is "numeric". */
  lemma ParseDropsDisplayMode(audits: Report)
    ensures forall m :: m in ParsePerformanceResults(audits) ==>
      && ParsePerformanceResults(audits)[m].Keys <= RetainedFields
      && "scoreDisplayMode" !in ParsePerformanceResults(audits)[m]
      && !IsNumeric(ParsePerformanceResults(audits)[m])
  {
    ParseShape(audits);
  }
}
