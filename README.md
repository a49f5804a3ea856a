# lightvessel performance script — Dafny model

lightvessel is a single Node.js script, `index.js`. It signs in to the Veerum
digital-twin web application with Puppeteer. It runs Lighthouse ten times on
each of three pages. It reduces every Lighthouse report to six performance
metrics and writes the raw per-run results to `results.json`. It also defines
an averaging routine for those metrics that `main` never calls.

This project models the script's logic in Dafny and proves properties of it.
That logic is:

- **The metric extractor** `parsePerformanceResults` (`extractor.dfy`). The
  destructuring step renames six Lighthouse audits to the short keys
  fcp, lcp, si, tbt, mpf and cls. Then lodash `pick` copies the twelve paths
  `<key>.numericValue` and `<key>.numericUnit`, visiting them in order and
  copying only the paths that are present. `PickInto` writes out this
  path-by-path behaviour. The lemmas describe the result field by field.
- **The metric averager** `averagePerformanceResults` (`averager.dfy`). It is
  a method with the source's two nested loops. Its postcondition ties the
  result to the recursive specification functions `Tally`, `AverageMetric`
  and `AverageMetrics`. The lemmas relate those functions to a separate
  reference definition: the sum and count taken over exactly the samples
  whose `scoreDisplayMode` is "numeric".
- **The orchestrator** `main` (`orchestrator.dfy`), modelled as `Run`. It
  covers the credential guard and the three collection loops. Lighthouse is
  the parameter `audit`, which gives the `lhr.audits` report for a URL and an
  iteration index. The browser, the sign-in form and the file system appear
  only as a list of `Effect`s, in the order `main` requests them.

`audits.dfy` holds the data model. A JavaScript object is a `map`, and a
property the object lacks is a key the map lacks. An audit record is a
`map<string, Field>`. A short key is a `Metric` value (`Fcp` stands for the
property `fcp`, and so on). `AuditId` gives the Lighthouse audit each metric
is read from.

Error paths follow the code. The averager reads properties of `undefined` in
three cases: when the input is empty, when the first sample lacks a metric
(line 61), and when a later sample lacks a metric (lines 64-66).
JavaScript raises a TypeError in each case, and the model returns
`Failure(EmptyResults)` or `Failure(MissingMetric(metric, index))`, naming
the first access that fails. In particular an empty input does not give NaN
for every metric: the code faults before it reaches the division
(`AverageOfEmpty`). When count is 0, `sum / count` is 0 / 0, which the
model writes as `NaN`.

`Run` takes the credentials as parameters instead of reading the constants
`USERNAME` and `PASSWORD`; `Orchestrator.Username` and `Orchestrator.Password`
hold the shipped values. Both are empty strings, so as shipped `main` always
stops at the guard (`ShippedCredentialsAbort`, and the clause of `Run` for
a call with those constants).

## Model

| member | source | states |
|---|---|---|
| `Audits.MetricsComplete` | index.js:57 | The metric list the averager visits names every one of the six metrics. |
| `Extractor.PathsForAre` | index.js:37-48 | The picked paths are exactly `numericValue` and `numericUnit` under each of the six short keys. |
| `Extractor.PickIntoAt` | index.js:36-49 | `pick`, field by field: a field ends up in the result exactly when it was already there, or when a listed path names it and the source has it. A copied field holds the source's value. Any other field keeps its earlier value. |
| `Extractor.PickIntoShape` | index.js:36-49 | `pick` never produces an empty record. Each record holds only fields that the listed paths name. |
| `Extractor.ParseShape` | index.js:36-49 | Every entry of an extracted set is a non-empty record. It holds at most `numericValue` and `numericUnit`. |
| `Extractor.ParseFields` | index.js:27-49 | For each metric and each retained field: the field is in the output exactly when the metric's long-name audit has it, and it then equals that audit's field. |
| `Extractor.ParseEntry` | index.js:26-52 | The renaming reads each short key from its long-name audit. A metric's extracted record is that audit restricted to the two retained fields. The metric is absent, with no fault, when the audit is missing or has neither field. |
| `Extractor.ParseCompleteReport` | index.js:26-52 | Take a report with all six audits, each having both fields. Its extracted set has all six keys, and each entry is exactly `{numericValue, numericUnit}` copied from the source. |
| `Extractor.ParseDropsDisplayMode` | index.js:36-49 | Every other audit property is dropped: each extracted record holds only `numericValue` and `numericUnit`. In particular no extracted record has `scoreDisplayMode`, so none counts as "numeric". |
| `Averager.AveragePerformanceResults` | index.js:54-81 | The nested-loop method returns exactly the specification `AverageMetrics(results, Metrics)`, faults included. |
| `Averager.TallyFailurePersists` | index.js:63-70 | A sample that faults in a prefix of the input makes the whole inner loop fault with that same fault. |
| `Averager.AverageMetricsFailurePersists` | index.js:57-78 | A metric that faults makes the whole outer loop fault with that same fault. |
| `Averager.TallyTotals` | index.js:57-70 | The loop's `sum` equals the sum of `numericValue` over exactly the samples whose mode is "numeric". Its `count` equals the number of those samples. Samples with any other mode add to neither. |
| `Averager.TallySuccessAllHave` | index.js:63-66 | The inner loop finishes without a fault only when every sample has the metric. |
| `Averager.TallyFirstFault` | index.js:63-66 | The inner loop faults at the first sample that lacks the metric. |
| `Averager.TallyCountsNumeric` | index.js:57-70 | The inner loop succeeds exactly when every sample has the metric. It then yields the numeric-only sum and count. Otherwise it faults at the first sample that lacks the metric. |
| `Averager.AverageMetricMeans` | index.js:57-77 | An empty input faults. Otherwise a metric's average succeeds exactly when every sample has the metric. Its value is then the numeric-only sum divided by the numeric-only count, and its unit is the first sample's, whatever that sample's mode. |
| `Averager.AverageMetricsAt` | index.js:57-78 | The outer loop succeeds exactly when every visited metric succeeds. Its object then has exactly the visited keys, each holding that metric's average. |
| `Averager.AverageOutcome` | index.js:54-81 | The averager succeeds exactly when the input is non-empty and every sample has all six metrics. The result then has all six keys, each holding its metric's average. |
| `Averager.AverageOfEmpty` | index.js:61 | An empty input faults at `results[0]` instead of producing an average. |
| `Averager.AverageAllNumeric` | index.js:63-73 | When every sample is "numeric", the count is the input length. The average is then the mean over all samples, with the first sample's unit. |
| `Averager.AverageNoneNumeric` | index.js:63-73 | When no sample is "numeric", the count is 0 and the sum is 0. The average is 0 / 0 (NaN), and the unit is still the first sample's. |
| `Averager.AverageOfParsed` | index.js:36-73 | Averaging extractor output counts no samples: for every metric that every sample has, the number of "numeric" samples is 0, because the extractor drops `scoreDisplayMode`. Every metric of a successful average is therefore NaN. |
| `Orchestrator.AuditCallsStep` | index.js:113-119 | One more loop iteration appends exactly one audit call for the next index. |
| `Orchestrator.TestPhase` | index.js:113-119 | One collection loop yields exactly `ITERATIONS` extracted sets. The `j`-th comes from the `j`-th audit of the page, and the effects gain those audit calls in order. The same loop appears at lines 126-132 and 136-142. |
| `Orchestrator.Run` | index.js:94-157 | An empty username or password ends the run with the two guidance lines, with nothing launched or audited; in every other case the run proceeds. A call with the shipped constants aborts. Each of `loginResults`, `workscopesResults` and `viewerResults` then holds exactly `ITERATIONS` sets in call order, and the effects are those of `Session`. |
| `Orchestrator.ShippedCredentialsAbort` | index.js:6-7 | Only records the constants: the credentials that ship in the source are empty, so they meet the guard's condition (the abort itself is stated by `Orchestrator.Run`). |
| `Orchestrator.SessionOrder` | index.js:103-156 | Every position of a session is fixed: launch, new page and a 1080×1024 viewport come first, before any audit. The ten login-page audits come before the sign-in, and all twenty protected-page audits come after it. The results document is written once, just before the browser is closed. |

## Left out

- Puppeteer: browser launch, new page, viewport, navigation and the sign-in form (index.js:12-24, 103-106, 156). These are foreign browser automation. They appear only as `Effect`s. Element lookup failures (`ElementNotFound`) are not modelled.
- Lighthouse (index.js:83-92): the call is the parameter `audit`, a total function of URL and iteration index. Its options (`disableStorageReset`, `desktopConfig`) are not modelled. Neither is the dependence of a report on the session's sign-in state, nor a failing audit that would abort the run.
- Console and stdout progress lines (index.js:112, 120, 125, 133, 135, 143, 153), `JSON.stringify`, and the write callback's re-throw: these are I/O. The write is the effect `WriteResults`, which carries the document.
- The race between the unawaited `writeFile` callback and `browser.close()` (index.js:151-156). This is asynchronous ordering. The model records only the order in which the two are requested.
- JavaScript floating point: values are `real`, and rounding, Infinity and the order-dependence of floating-point sums are not modelled. NaN is a separate value.
- Averager.SampleValue: a "numeric" sample whose `numericValue` is a string or another non-number is treated as NaN. JavaScript `+=` would coerce it instead (string concatenation, `null` as 0, booleans as 0/1). A missing `numericValue` (`undefined`) gives NaN, as in JavaScript.
- An audit entry that is not an object, and lodash's lookup through an object's prototype chain in `hasIn`. Lighthouse does not produce either.
- Orchestrator.TestPhase: the three identical collection loops of `main` are one method called three times. Their order and their effects are unchanged.
