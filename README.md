# Pizza service telemetry: a Dafny model

This project models the telemetry pipeline of the JWT pizza service
(`src/metrics.js`). The service keeps process-wide counters in memory. Request
middleware and business-logic callbacks update them in place. A periodic
task reads the counters, turns them into OTLP-shaped metrics, and posts them
to a collector.

The model has two modules.

- `Otel` (`otel.dfy`) models the metric builder. A `MetricSpec` is what a
  producer reports. `CreateMetric` turns one spec into one `Metric`: one data
  point, its attributes merged with the `source` tag, and the cumulative
  temporality and monotonic flag on sums only. `OtelMetricBuilder` is the
  builder object. Its `Add` method appends built metrics in a loop. `Envelope`
  is the one-resource/one-scope body posted to the collector.
- `Metrics` (`metrics.dfy`) models the registry. `Registry` is a class that
  holds the endpoint dictionary and the eight scalar counters as fields. Its
  methods are the mutators `requestTracker`, `logUser`, `logLatency`,
  `logAuth` and `pizzaPurchase`. The dictionary is a key sequence in
  insertion order plus a map. The `get*Metrics` producers are pure functions
  of the registry's values. `FlushCycle` is the body of one export cycle, up
  to the network send.

Some inputs of the source become parameters:

- the clock, with one reading per built metric, since `createMetric` calls
  `Date.now()` for each metric;
- the configured `source` tag;
- the cpu and memory samples.

Prices and latencies are integers. For example, prices can be taken in cents.

## Model

| member | source | states |
|---|---|---|
| `Otel.WithSource` | src/metrics.js:10 | the spread `{ ...attributes, source }`: `source` maps to the tag, and the key list grows by one exactly when the spec lacked `source`. The full characterisation is `WithSourceSpec` |
| `Otel.WithSourceSpec` | src/metrics.js:10 | `{ ...attributes, source }` is again an object with distinct keys. `source` maps to the tag, every other key of the spec keeps its value and place, no other key appears, and `source` is added last unless the spec already had it |
| `Otel.ToAttributeList` | src/metrics.js:26-31 | the `forEach`/`push` over the object's keys yields one entry per key; what each entry holds is `ToAttributeListEntries` and `KeysOfAttributeList` |
| `Otel.ToAttributeListEntries` | src/metrics.js:26-31 | one `{key, value: {stringValue}}` entry per key of the object, in key order, carrying that key's value |
| `Otel.KeysOfAttributeList` | src/metrics.js:26-31 | reading the keys back out of the attribute list gives the object's keys in order |
| `Otel.MergedAttributes` | src/metrics.js:10-31 | a data point gets one attribute per spec key, plus one for `source` when the spec lacks it; its keys and values are `MergedAttributesKeys` and `MergedAttributesLookup` |
| `Otel.MergedAttributesKeys` | src/metrics.js:10-31 | a data point's attribute keys are distinct: the spec's keys in their own order, then `source` unless the spec already had it |
| `Otel.MergedAttributesLookup` | src/metrics.js:10-31 | looking up a key in a data point's attributes gives the `source` tag for `source`, the spec's value for any other spec key, and nothing otherwise |
| `Otel.CreateMetric` | src/metrics.js:9-39 | name, unit and type are copied from the spec. There is exactly one data point, with the value under the spec's value type and `timeUnixNano = nowMillis * 1000000`. Temporality and the monotonic flag are present iff the type is `sum`, and they are then `AGGREGATION_TEMPORALITY_CUMULATIVE` and `true` |
| `Otel.CreateAll` | src/metrics.js:41-45 | one built metric per spec, position by position, each with its own clock reading |
| `Otel.CreateAllAppend` | src/metrics.js:41-45 | building two categories one after the other yields the concatenation of their metrics |
| `Otel.OtelMetricBuilder.constructor` | src/metrics.js:5-7 | a new builder holds no metrics |
| `Otel.OtelMetricBuilder.Add` | src/metrics.js:41-45 | the builder's metrics become the old ones, unchanged, followed by exactly one metric built from each spec of the category, in input order |
| `Otel.Envelope` | src/metrics.js:48-58 | the body holds exactly one resource with exactly one scope; reading all metrics out of it gives back the builder's metrics in order |
| `Metrics.EndpointKey` | src/metrics.js:87 | the key is `[`, the method, `] `, then the path: its length and the bracket positions; that it determines method and path is `EndpointKeyInjective` |
| `Metrics.EndpointKeyInjective` | src/metrics.js:87 | for methods without `]`, the key `[METHOD] path` determines both the method and the path |
| `Metrics.Bump` | src/metrics.js:88 | the count under the key rises by exactly 1, and an unseen key goes to 1. No other key's count changes and the key set only grows |
| `Metrics.Replay` | src/metrics.js:86-90 | the dictionary after one `requestTracker` call per request from a fresh start: every present count is at least 1; the exact counts are `ReplayCounts` |
| `Metrics.ReplayCounts` | src/metrics.js:86-90 | after any sequence of requests from a fresh start, an endpoint has an entry iff it was requested, and its count is the number of requests with exactly that method and path |
| `Metrics.Registry.constructor` | src/metrics.js:76-84 | the registry starts with an empty dictionary and every counter at 0 |
| `Metrics.Registry.RequestTracker` | src/metrics.js:86-90 | the dictionary is updated as `Bump` states. A first-seen key is appended to the key order, the key order stays duplicate-free, and no scalar counter moves |
| `Metrics.Registry.LogUser` | src/metrics.js:101-107 | `login` adds 1 to active users and any other action subtracts 1, with no lower bound; nothing else changes |
| `Metrics.Registry.LogLatency` | src/metrics.js:109-111 | adds the argument to the request-latency sum; nothing else changes |
| `Metrics.Registry.LogAuth` | src/metrics.js:113-119 | `success` increments successful auths and any other status increments failed auths; nothing else changes |
| `Metrics.Registry.PizzaPurchase` | src/metrics.js:159-166 | failed purchases rise by 1 iff the status is not `success`. Latency, price and order size are added to pizza latency, revenue and pizzas sold on every call. No other counter changes |
| `Metrics.HttpMetrics` | src/metrics.js:92-99 | one spec per dictionary key, in key order. Each is named `requests`, with unit `1`, type `sum` and value type `asInt`. Its value is that key's count, and its only attribute is `endpoint` = key |
| `Metrics.SystemMetrics` | src/metrics.js:121-128 | two attribute-free integer gauges with unit `%`: `cpu` carrying the cpu sample, then `memory` carrying the memory sample |
| `Metrics.AuthMetrics` | src/metrics.js:143-150 | two attribute-free integer sums with unit `1`: `success` carrying the successful auths, then `failure` carrying the failed ones |
| `Metrics.UserMetrics` | src/metrics.js:152-157 | one attribute-free integer sum with unit `1`: `active` carrying the active users |
| `Metrics.LatencyMetrics` | src/metrics.js:168-175 | two attribute-free integer sums with unit `ms`: `request latency`, then `pizza latency`, carrying the two latency totals |
| `Metrics.PizzaMetrics` | src/metrics.js:177-186 | three attribute-free integer sums with unit `1`: `pizza purchases`, `purchase failures` and `revenue`, carrying pizzas sold, failed purchases and revenue |
| `Metrics.CycleSpecs` | src/metrics.js:191-197 | a cycle reports one spec per endpoint plus ten more |
| `Metrics.CycleSpecsKinds` | src/metrics.js:191-197 | every spec of a cycle is `asInt`, and exactly the two right after the endpoints (cpu, memory) are gauges |
| `Metrics.CycleSpecsTail` | src/metrics.js:193-197 | after the per-endpoint specs come the system, auth, user, latency and pizza categories, in that order |
| `Metrics.CycleMetrics` | src/metrics.js:191-197 | the builder's metrics after the six `add` calls: one metric per clock reading; `CycleSplit` shows it is the one-go build of the cycle's specs |
| `Metrics.CyclePayload` | src/metrics.js:191-199 | the body a cycle posts: one resource holding as many metrics as clock readings; what they read is `CycleReadings`, `CycleFixedReadings`, `CycleEndpointMetric` and `CycleMetricShape` |
| `Metrics.CycleSplit` | src/metrics.js:191-197 | adding the six categories one after the other, each with its own clock readings, builds the same metrics as building all the cycle's specs in one go |
| `Metrics.FlushCycle` | src/metrics.js:188-199 | the posted body is the envelope around the six categories built in the order HTTP, system, auth, user, latency, pizza. The cycle has no `modifies` frame, so it never resets or changes the registry |
| `Metrics.CycleEndpointSpec` | src/metrics.js:92-98 | the `i`-th spec of a cycle is the `requests` sum of the `i`-th endpoint, with unit `1`, its count as value and `endpoint` = key as its only attribute |
| `Metrics.EndpointAttributes` | src/metrics.js:10-31 | a data point built for an endpoint carries exactly the attributes `endpoint` and then `source`, holding the key and the source tag |
| `Metrics.CycleEndpointMetric` | src/metrics.js:92-98 | in the payload, metric `i` (for `i` below the endpoint count) is a cumulative monotonic `requests` sum with the `i`-th endpoint's count. Its attribute keys are exactly `endpoint`, `source`, carrying the key and the source tag |
| `Metrics.CycleReadings` | src/metrics.js:9-45 | what a collector reads off a cycle's payload (name, type, value) is, metric by metric and in order, what the cycle's specs report |
| `Metrics.FixedSpecReadings` | src/metrics.js:121-186 | the ten specs after the per-endpoint ones report, in order: the cpu and memory gauges, then `success`, `failure`, `active`, `request latency`, `pizza latency`, `pizza purchases`, `purchase failures` and `revenue` as sums of the registry's values |
| `Metrics.CycleFixedReadings` | src/metrics.js:191-197 | in the payload, the ten metrics after the per-endpoint ones read exactly as the fixed list above, in the order the categories are added |
| `Metrics.CycleMetricShape` | src/metrics.js:12-36 | every payload metric has one `asInt` data point stamped with its clock reading in nanoseconds. Only the two system metrics are gauges. Sums carry cumulative temporality and `isMonotonic`; gauges carry neither |
| `Metrics.IdleCycle` | src/metrics.js:188-199 | a cycle after a fresh start with no activity still reports the cpu and memory gauges, followed by eight sums that all report 0 |

## Left out

- Network send: the `fetch` POST, its headers, `JSON.stringify` and the logging of failures (src/metrics.js:60-72) are I/O. `Envelope` stops at the body.
- Scheduling: `setInterval`, the period and the `try/catch` around a cycle (src/metrics.js:188-206) are timer and host plumbing. `FlushCycle` models one cycle's body.
- Middleware control flow: `requestTracker` calls `next()` after counting. The model counts and returns.
- Host sampling: `getCpuUsagePercentage` and `getMemoryUsagePercentage` (src/metrics.js:130-141) read the operating system and use floating point and `toFixed`. The memory sample is even a string. Both are integer inputs to `SystemMetrics` and `FlushCycle`.
- Numbers: counters, latencies, prices and values are JavaScript doubles. The model uses unbounded integers, so fractional prices (for example in cents) and double rounding are not captured.
- CreateMetric: `timeUnixNano` is the exact integer `nowMillis * 1000000`. In JavaScript this product is a double above 2^53 and may be rounded.
- Key order: JavaScript lists integer-like property keys before the others. The model uses plain insertion order. The keys here (`[METHOD] path`, `endpoint`, `source`) are never integer-like.
- Concurrency and atomicity: the code is single-threaded and makes no atomicity promise, so the model is sequential.
- Attribute values: the model's values are strings. The source passes whatever value the attribute object holds, including an unset `source` configuration.
- Monotonicity: no counter is proved non-negative or non-decreasing. `logUser` lowers active users on any non-login action, although `active` is reported as a sum with `isMonotonic` set (src/metrics.js:105, 154, 33-36). `requestLatency`, `pizzaLatency`, `revenue` and `pizzasSold` have arguments added to them, and those arguments may be negative (src/metrics.js:110, 163-165). The auth counters, `failedPizzas` and the per-endpoint counts only ever rise by 1.
- Status arguments: `logAuth` and `pizzaPurchase` compare a status string with `success`, and the model takes that string.
