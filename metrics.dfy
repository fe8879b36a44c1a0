/**
 The pizza service's telemetry registry: the per-endpoint request counts and
 the scalar counters that request middleware and business logic update in
 place, the producers that turn them into metric specs, and one flush cycle
 that reads them into the payload for the collector.
 */
module Metrics {
  import opened Otel

  /** The dictionary key of an endpoint: `[METHOD] path`. */
  function EndpointKey(httpMethod: string, path: string): (key: string)
    ensures |key| == |httpMethod| + |path| + 3
    ensures key[0] == '[' && key[|httpMethod| + 1] == ']' && key[|httpMethod| + 2] == ' '
  {
    "[" + httpMethod + "] " + path
  }

  /** Where the method, the closing bracket and the path sit in a key. */
  lemma {:induction false} KeyLayout(httpMethod: string, path: string)
    ensures var key := EndpointKey(httpMethod, path);
      && |key| == |httpMethod| + |path| + 3
      && key[1 + |httpMethod|] == ']'
      && key[1..1 + |httpMethod|] == httpMethod
      && key[|httpMethod| + 3..] == path
  {
  }

  /**
   An HTTP method never contains `]`, so the key determines the method and
   the path: distinct requests are never counted under one key.
   */
  lemma {:induction false} EndpointKeyInjective(m1: string, p1: string, m2: string, p2: string)
    requires ']' !in m1 && ']' !in m2
    requires EndpointKey(m1, p1) == EndpointKey(m2, p2)
    ensures m1 == m2 && p1 == p2
  {
    var key := EndpointKey(m1, p1);
    KeyLayout(m1, p1);
    KeyLayout(m2, p2);
    assert |m1| == |m2| by {
      if |m1| < |m2| {
        assert false;
      } else if |m2| < |m1| {
        assert false;
      }
    }
    assert m1 == key[1..1 + |m1|];
    assert m2 == key[1..1 + |m2|];
  }

  /**
   requestTracker's update of the dictionary: the count under `key` goes up
   by exactly one, an unseen key counting as 0; no other key moves and no
   key disappears.
   */
  function Bump(requests: map<string, int>, key: string): (r: map<string, int>)
    ensures r.Keys == requests.Keys + {key}
    ensures key in requests ==> r[key] == requests[key] + 1
    ensures key !in requests ==> r[key] == 1
    ensures forall k :: k in requests && k != key ==> r[k] == requests[k]
  {
    requests[key := (if key in requests then requests[key] else 0) + 1]
  }

  /** The dictionary after a fresh start and one requestTracker call per request, in order. */
  function Replay(calls: seq<(string, string)>): (requests: map<string, int>)
    ensures forall k :: k in requests ==> requests[k] >= 1
  {
    if calls == [] then map[]
    else
      var last := calls[|calls| - 1];
      Bump(Replay(calls[..|calls| - 1]), EndpointKey(last.0, last.1))
  }

  /**
   After any sequence of requests the count of an endpoint is the number of
   requests with exactly that method and path, and an endpoint never
   requested has no entry.
   */
  lemma {:induction false} ReplayCounts(calls: seq<(string, string)>, httpMethod: string, path: string)
    requires forall i :: 0 <= i < |calls| ==> ']' !in calls[i].0
    requires ']' !in httpMethod
    ensures EndpointKey(httpMethod, path) in Replay(calls) <==> (httpMethod, path) in calls
    ensures EndpointKey(httpMethod, path) in Replay(calls) ==>
              Replay(calls)[EndpointKey(httpMethod, path)] == multiset(calls)[(httpMethod, path)]
  {
    if calls != [] {
      var n := |calls| - 1;
      var front, last := calls[..n], calls[n];
      assert calls == front + [last];
      assert multiset(calls) == multiset(front) + multiset{last};
      ReplayCounts(front, httpMethod, path);
      var key := EndpointKey(httpMethod, path);
      if last != (httpMethod, path) {
        if EndpointKey(last.0, last.1) == key {
          EndpointKeyInjective(last.0, last.1, httpMethod, path);
        }
      } else {
        assert (httpMethod, path) !in front ==> multiset(front)[(httpMethod, path)] == 0;
      }
    }
  }

  /** A snapshot of the scalar counters. */
  datatype Counters = Counters(
    activeUsers: int,
    successfulAuths: int,
    unsuccessfulAuths: int,
    pizzasSold: int,
    revenue: int,
    failedPizzas: int,
    pizzaLatency: int,
    requestLatency: int)

  const ZeroCounters := Counters(0, 0, 0, 0, 0, 0, 0, 0)

  /** The process-wide registry: every counter starts at 0 and the dictionary empty. */
  class Registry {
    /** The keys of the request dictionary, in the order they were first seen. */
    var endpoints: seq<string>
    var requests: map<string, int>
    var activeUsers: int
    var successfulAuths: int
    var unsuccessfulAuths: int
    var pizzasSold: int
    var revenue: int
    var failedPizzas: int
    var pizzaLatency: int
    var requestLatency: int

    /** The key sequence lists every dictionary key exactly once. */
    ghost predicate Valid()
      reads this
    {
      && Distinct(endpoints)
      && (forall k :: k in endpoints ==> k in requests)
      && (forall k :: k in requests ==> k in endpoints)
    }

    /** The scalar counters as one value. */
    function Snapshot(): Counters
      reads this
    {
      Counters(activeUsers, successfulAuths, unsuccessfulAuths, pizzasSold,
               revenue, failedPizzas, pizzaLatency, requestLatency)
    }

    constructor ()
      ensures Valid()
      ensures endpoints == [] && requests == map[]
      ensures Snapshot() == ZeroCounters
    {
      endpoints, requests := [], map[];
      activeUsers, successfulAuths, unsuccessfulAuths := 0, 0, 0;
      pizzasSold, revenue, failedPizzas := 0, 0, 0;
      pizzaLatency, requestLatency := 0, 0;
    }

    /**
     requestTracker: counts one request under `[METHOD] path`; a first-seen
     endpoint is appended to the key order. No scalar counter moves.
     */
    method RequestTracker(httpMethod: string, path: string)
      requires Valid()
      modifies this
      ensures Valid()
      ensures requests == Bump(old(requests), EndpointKey(httpMethod, path))
      ensures endpoints ==
                if EndpointKey(httpMethod, path) in old(requests) then old(endpoints)
                else old(endpoints) + [EndpointKey(httpMethod, path)]
      ensures Snapshot() == old(Snapshot())
    {
      var endpoint := EndpointKey(httpMethod, path);
      if endpoint !in requests {
        endpoints := endpoints + [endpoint];
      }
      requests := requests[endpoint := (if endpoint in requests then requests[endpoint] else 0) + 1];
    }

    /**
     logUser: a `login` adds one active user, any other action removes one,
     with no lower bound.
     */
    method LogUser(action: string)
      modifies this
      ensures endpoints == old(endpoints) && requests == old(requests)
      ensures Snapshot() == old(Snapshot()).(activeUsers := old(activeUsers) + if action == "login" then 1 else -1)
    {
      if action == "login" {
        activeUsers := activeUsers + 1;
      } else {
        activeUsers := activeUsers - 1;
      }
    }

    /** logLatency: adds the latency of one request to the running request-latency sum. */
    method LogLatency(latency: int)
      modifies this
      ensures endpoints == old(endpoints) && requests == old(requests)
      ensures Snapshot() == old(Snapshot()).(requestLatency := old(requestLatency) + latency)
    {
      requestLatency := requestLatency + latency;
    }

    /** logAuth: a `success` counts as a successful authentication, anything else as a failed one. */
    method LogAuth(status: string)
      modifies this
      ensures endpoints == old(endpoints) && requests == old(requests)
      ensures status == "success" ==>
                Snapshot() == old(Snapshot()).(successfulAuths := old(successfulAuths) + 1)
      ensures status != "success" ==>
                Snapshot() == old(Snapshot()).(unsuccessfulAuths := old(unsuccessfulAuths) + 1)
    {
      if status == "success" {
        successfulAuths := successfulAuths + 1;
      } else {
        unsuccessfulAuths := unsuccessfulAuths + 1;
      }
    }

    /**
     pizzaPurchase: a purchase whose status is not `success` counts as
     failed; latency, revenue and pizzas sold accumulate on every call.
     */
    method PizzaPurchase(status: string, latency: int, price: int, orderSize: int)
      modifies this
      ensures endpoints == old(endpoints) && requests == old(requests)
      ensures Snapshot() == old(Snapshot()).(
                failedPizzas := old(failedPizzas) + if status != "success" then 1 else 0,
                pizzaLatency := old(pizzaLatency) + latency,
                revenue := old(revenue) + price,
                pizzasSold := old(pizzasSold) + orderSize)
    {
      if status != "success" {
        failedPizzas := failedPizzas + 1;
      }
      pizzaLatency := pizzaLatency + latency;
      revenue := revenue + price;
      pizzasSold := pizzasSold + orderSize;
    }
  }

  /** A cumulative integer sum without dimensions: what every scalar counter reports. */
  function CounterSpec(name: string, unit: string, value: int): MetricSpec
  {
    MetricSpec(name, value, unit, Sum, AsInt, NoAttrs)
  }

  /** An integer gauge without dimensions: what each host sample reports. */
  function GaugeSpec(name: string, value: int): MetricSpec
  {
    MetricSpec(name, value, "%", Gauge, AsInt, NoAttrs)
  }

  predicate IsCounterSpec(s: MetricSpec)
  {
    s.kind == Sum && s.valueType == AsInt && s.attributes == NoAttrs
  }

  const EndpointAttr := "endpoint"

  /**
   getHttpMetrics: one `requests` sum per dictionary key, in key order, whose
   value is that key's count and whose only attribute is `endpoint` = key.
   */
  function HttpMetrics(endpoints: seq<string>, requests: map<string, int>): (r: seq<MetricSpec>)
    requires forall k :: k in endpoints ==> k in requests
    ensures |r| == |endpoints| && AllValid(r)
    ensures forall i :: 0 <= i < |endpoints| ==>
              && r[i].name == "requests" && r[i].unit == "1"
              && r[i].kind == Sum && r[i].valueType == AsInt
              && r[i].value == requests[endpoints[i]]
              && r[i].attributes.keys == [EndpointAttr]
              && r[i].attributes.values == map[EndpointAttr := endpoints[i]]
  {
    if endpoints == [] then []
    else
      var n := |endpoints| - 1;
      var endpoint := endpoints[n];
      HttpMetrics(endpoints[..n], requests)
        + [MetricSpec("requests", requests[endpoint], "1", Sum, AsInt,
                      Attrs([EndpointAttr], map[EndpointAttr := endpoint]))]
  }

  /** getSystemMetrics with the host samples as inputs: a cpu gauge, then a memory gauge. */
  function SystemMetrics(cpu: int, memory: int): (r: seq<MetricSpec>)
    ensures |r| == 2 && AllValid(r)
    ensures forall i :: 0 <= i < |r| ==>
              r[i].kind == Gauge && r[i].valueType == AsInt && r[i].unit == "%" && r[i].attributes == NoAttrs
    ensures SpecReading(r[0]) == ("cpu", Gauge, cpu) && SpecReading(r[1]) == ("memory", Gauge, memory)
  {
    [GaugeSpec("cpu", cpu), GaugeSpec("memory", memory)]
  }

  /** getAuthMetrics: the successful and the failed authentications, as counters. */
  function AuthMetrics(c: Counters): (r: seq<MetricSpec>)
    ensures |r| == 2 && AllValid(r) && forall i :: 0 <= i < |r| ==> IsCounterSpec(r[i]) && r[i].unit == "1"
    ensures SpecReading(r[0]) == ("success", Sum, c.successfulAuths)
    ensures SpecReading(r[1]) == ("failure", Sum, c.unsuccessfulAuths)
  {
    [CounterSpec("success", "1", c.successfulAuths), CounterSpec("failure", "1", c.unsuccessfulAuths)]
  }

  /** getUserMetrics: the active users, as a counter. */
  function UserMetrics(c: Counters): (r: seq<MetricSpec>)
    ensures |r| == 1 && AllValid(r) && forall i :: 0 <= i < |r| ==> IsCounterSpec(r[i]) && r[i].unit == "1"
    ensures SpecReading(r[0]) == ("active", Sum, c.activeUsers)
  {
    [CounterSpec("active", "1", c.activeUsers)]
  }

  /** getLatencyMetrics: the request and the pizza latency sums, in milliseconds. */
  function LatencyMetrics(c: Counters): (r: seq<MetricSpec>)
    ensures |r| == 2 && AllValid(r) && forall i :: 0 <= i < |r| ==> IsCounterSpec(r[i]) && r[i].unit == "ms"
    ensures SpecReading(r[0]) == ("request latency", Sum, c.requestLatency)
    ensures SpecReading(r[1]) == ("pizza latency", Sum, c.pizzaLatency)
  {
    [CounterSpec("request latency", "ms", c.requestLatency), CounterSpec("pizza latency", "ms", c.pizzaLatency)]
  }

  /** getPizzaMetrics: pizzas sold, failed purchases and revenue, as counters. */
  function PizzaMetrics(c: Counters): (r: seq<MetricSpec>)
    ensures |r| == 3 && AllValid(r) && forall i :: 0 <= i < |r| ==> IsCounterSpec(r[i]) && r[i].unit == "1"
    ensures SpecReading(r[0]) == ("pizza purchases", Sum, c.pizzasSold)
    ensures SpecReading(r[1]) == ("purchase failures", Sum, c.failedPizzas)
    ensures SpecReading(r[2]) == ("revenue", Sum, c.revenue)
  {
    [CounterSpec("pizza purchases", "1", c.pizzasSold),
     CounterSpec("purchase failures", "1", c.failedPizzas),
     CounterSpec("revenue", "1", c.revenue)]
  }

  /** What a collector reads off one metric: its name, its shape and its value. */
  function Reading(m: Metric): (string, MetricType, int)
  {
    (m.name, m.kind, if m.data.dataPoints == [] then 0 else m.data.dataPoints[0].value)
  }

  function Readings(ms: seq<Metric>): (r: seq<(string, MetricType, int)>)
    ensures |r| == |ms| && forall i :: 0 <= i < |ms| ==> r[i] == Reading(ms[i])
  {
    seq(|ms|, i requires 0 <= i < |ms| => Reading(ms[i]))
  }

  /** Metrics a cycle reports besides the per-endpoint ones: two system gauges and eight counters. */
  const FixedMetricCount := 10

  /**
   The specs one flush cycle adds, in its order: HTTP, system (cpu,
   memory), auth, user, latency, pizza.
   */
  function CycleSpecs(endpoints: seq<string>, requests: map<string, int>, c: Counters, cpu: int, memory: int): (r: seq<MetricSpec>)
    requires forall k :: k in endpoints ==> k in requests
    ensures |r| == |endpoints| + FixedMetricCount
  {
    HttpMetrics(endpoints, requests) + SystemMetrics(cpu, memory)
      + AuthMetrics(c) + UserMetrics(c) + LatencyMetrics(c) + PizzaMetrics(c)
  }

  /** Every spec of a cycle is an integer one, and exactly the two right after the endpoints are gauges. */
  lemma {:induction false} CycleSpecsKinds(endpoints: seq<string>, requests: map<string, int>, c: Counters, cpu: int, memory: int)
    requires forall k :: k in endpoints ==> k in requests
    ensures var r := CycleSpecs(endpoints, requests, c, cpu, memory);
      forall i :: 0 <= i < |r| ==> r[i].valueType == AsInt && (r[i].kind == Gauge <==> |endpoints| <= i < |endpoints| + 2)
  {
  }

  /** After the per-endpoint specs, a cycle's specs are the system, auth, user, latency and pizza categories. */
  lemma {:induction false} CycleSpecsTail(endpoints: seq<string>, requests: map<string, int>, c: Counters, cpu: int, memory: int)
    requires forall k :: k in endpoints ==> k in requests
    ensures CycleSpecs(endpoints, requests, c, cpu, memory)[|endpoints|..]
              == SystemMetrics(cpu, memory) + AuthMetrics(c) + UserMetrics(c) + LatencyMetrics(c) + PizzaMetrics(c)
  {
    var http := HttpMetrics(endpoints, requests);
    var tail := SystemMetrics(cpu, memory) + AuthMetrics(c) + UserMetrics(c) + LatencyMetrics(c) + PizzaMetrics(c);
    assert CycleSpecs(endpoints, requests, c, cpu, memory) == http + tail;
  }

  /**
   The builder's metrics after one cycle: the six categories built one
   after the other, each with the clock readings taken while it is added.
   */
  function CycleMetrics(endpoints: seq<string>, requests: map<string, int>, c: Counters,
                        cpu: int, memory: int, source: string, clock: seq<int>): (ms: seq<Metric>)
    requires forall k :: k in endpoints ==> k in requests
    requires |clock| == |endpoints| + FixedMetricCount
    ensures |ms| == |clock|
  {
    var n := |endpoints|;
    CreateAll(HttpMetrics(endpoints, requests), source, clock[..n])
      + CreateAll(SystemMetrics(cpu, memory), source, clock[n..n + 2])
      + CreateAll(AuthMetrics(c), source, clock[n + 2..n + 4])
      + CreateAll(UserMetrics(c), source, clock[n + 4..n + 5])
      + CreateAll(LatencyMetrics(c), source, clock[n + 5..n + 7])
      + CreateAll(PizzaMetrics(c), source, clock[n + 7..])
  }

  /** The body one flush cycle posts, given one clock reading per metric it builds. */
  function CyclePayload(endpoints: seq<string>, requests: map<string, int>, c: Counters,
                        cpu: int, memory: int, source: string, clock: seq<int>): (p: Payload)
    requires forall k :: k in endpoints ==> k in requests
    requires |clock| == |endpoints| + FixedMetricCount
    ensures |p.resourceMetrics| == 1 && |AllMetrics(p)| == |clock|
  {
    Envelope(CycleMetrics(endpoints, requests, c, cpu, memory, source, clock))
  }

  /** The clock readings of a cycle, cut at the category boundaries, join back up. */
  lemma ClockSplit(clock: seq<int>, n: nat)
    requires |clock| == n + FixedMetricCount
    ensures clock == clock[..n] + clock[n..n + 2] + clock[n + 2..n + 4] + clock[n + 4..n + 5]
                     + clock[n + 5..n + 7] + clock[n + 7..]
  {
    assert clock[..n + 2] == clock[..n] + clock[n..n + 2];
    assert clock[..n + 4] == clock[..n + 2] + clock[n + 2..n + 4];
    assert clock[..n + 5] == clock[..n + 4] + clock[n + 4..n + 5];
    assert clock[..n + 7] == clock[..n + 5] + clock[n + 5..n + 7];
    assert clock == clock[..n + 7] + clock[n + 7..];
  }

  /** Building a cycle's categories one after the other equals building all its specs in one go. */
  lemma {:induction false} CycleSplit(endpoints: seq<string>, requests: map<string, int>, c: Counters,
                   cpu: int, memory: int, source: string, clock: seq<int>)
    requires forall k :: k in endpoints ==> k in requests
    requires |clock| == |endpoints| + FixedMetricCount
    ensures AllValid(CycleSpecs(endpoints, requests, c, cpu, memory))
    ensures CycleMetrics(endpoints, requests, c, cpu, memory, source, clock)
              == CreateAll(CycleSpecs(endpoints, requests, c, cpu, memory), source, clock)
  {
    var http, system := HttpMetrics(endpoints, requests), SystemMetrics(cpu, memory);
    var auth, user, latency, pizza := AuthMetrics(c), UserMetrics(c), LatencyMetrics(c), PizzaMetrics(c);
    var n := |endpoints|;
    var c1, c2, c3 := clock[..n], clock[n..n + 2], clock[n + 2..n + 4];
    var c4, c5, c6 := clock[n + 4..n + 5], clock[n + 5..n + 7], clock[n + 7..];
    ClockSplit(clock, n);
    CreateAllAppend(http, system, source, c1, c2);
    CreateAllAppend(http + system, auth, source, c1 + c2, c3);
    CreateAllAppend(http + system + auth, user, source, c1 + c2 + c3, c4);
    CreateAllAppend(http + system + auth + user, latency, source, c1 + c2 + c3 + c4, c5);
    CreateAllAppend(http + system + auth + user + latency, pizza, source, c1 + c2 + c3 + c4 + c5, c6);
  }

  /**
   One flush cycle, up to the network send: a fresh builder gets the six
   categories in order and the envelope is built around its metrics. The
   cycle has no write access to the registry, so it never resets or changes
   a counter.
   */
  method FlushCycle(registry: Registry, source: string, clock: seq<int>, cpu: int, memory: int)
    returns (body: Payload)
    requires registry.Valid()
    requires |clock| == |registry.endpoints| + FixedMetricCount
    ensures body == CyclePayload(registry.endpoints, registry.requests, registry.Snapshot(),
                                 cpu, memory, source, clock)
  {
    var endpoints, requests, c := registry.endpoints, registry.requests, registry.Snapshot();
    var n := |endpoints|;
    var http, system := HttpMetrics(endpoints, requests), SystemMetrics(cpu, memory);
    var auth, user, latency, pizza := AuthMetrics(c), UserMetrics(c), LatencyMetrics(c), PizzaMetrics(c);
    var c1, c2, c3 := clock[..n], clock[n..n + 2], clock[n + 2..n + 4];
    var c4, c5, c6 := clock[n + 4..n + 5], clock[n + 5..n + 7], clock[n + 7..];
    var metrics := new OtelMetricBuilder();
    metrics.Add(http, source, c1);
    assert [] + CreateAll(http, source, c1) == CreateAll(http, source, c1);
    metrics.Add(system, source, c2);
    metrics.Add(auth, source, c3);
    metrics.Add(user, source, c4);
    metrics.Add(latency, source, c5);
    metrics.Add(pizza, source, c6);
    body := Envelope(metrics.metrics);
  }

  /** The metric at position `j` of a cycle's payload is the one built from the `j`-th spec with the `j`-th clock reading. */
  lemma {:induction false} CycleMetricAt(endpoints: seq<string>, requests: map<string, int>, c: Counters,
                      cpu: int, memory: int, source: string, clock: seq<int>, j: nat)
    requires forall k :: k in endpoints ==> k in requests
    requires |clock| == |endpoints| + FixedMetricCount
    requires j < |clock|
    ensures AllValid(CycleSpecs(endpoints, requests, c, cpu, memory))
    ensures |AllMetrics(CyclePayload(endpoints, requests, c, cpu, memory, source, clock))| == |clock|
    ensures AllMetrics(CyclePayload(endpoints, requests, c, cpu, memory, source, clock))[j]
              == CreateMetric(CycleSpecs(endpoints, requests, c, cpu, memory)[j], source, clock[j])
  {
    CycleSplit(endpoints, requests, c, cpu, memory, source, clock);
  }

  /**
   A cycle's payload opens with one `requests` sum per endpoint, in key
   order: its value is that endpoint's count and its attributes are
   `endpoint` (the key) followed by `source`.
   */
  lemma {:induction false} CycleEndpointMetric(endpoints: seq<string>, requests: map<string, int>, c: Counters,
                            cpu: int, memory: int, source: string, clock: seq<int>, i: nat)
    requires forall k :: k in endpoints ==> k in requests
    requires |clock| == |endpoints| + FixedMetricCount
    requires i < |endpoints|
    ensures var m := AllMetrics(CyclePayload(endpoints, requests, c, cpu, memory, source, clock))[i];
      && Reading(m) == ("requests", Sum, requests[endpoints[i]])
      && m.data.aggregationTemporality == Some(Cumulative) && m.data.isMonotonic == Some(true)
      && KeysOf(m.data.dataPoints[0].attributes) == [EndpointAttr, SourceKey]
      && Lookup(m.data.dataPoints[0].attributes, EndpointAttr) == Some(endpoints[i])
      && Lookup(m.data.dataPoints[0].attributes, SourceKey) == Some(source)
  {
    CycleMetricAt(endpoints, requests, c, cpu, memory, source, clock, i);
    CycleEndpointSpec(endpoints, requests, c, cpu, memory, i);
    EndpointAttributes(endpoints[i], source);
  }

  /** The `i`-th spec of a cycle is the `requests` sum of the `i`-th endpoint. */
  lemma {:induction false} CycleEndpointSpec(endpoints: seq<string>, requests: map<string, int>, c: Counters,
                          cpu: int, memory: int, i: nat)
    requires forall k :: k in endpoints ==> k in requests
    requires i < |endpoints|
    ensures CycleSpecs(endpoints, requests, c, cpu, memory)[i]
              == MetricSpec("requests", requests[endpoints[i]], "1", Sum, AsInt,
                            Attrs([EndpointAttr], map[EndpointAttr := endpoints[i]]))
  {
    assert CycleSpecs(endpoints, requests, c, cpu, memory)[i] == HttpMetrics(endpoints, requests)[i];
  }

  /** A data point built for an endpoint carries `endpoint` and then `source`, with the key and the tag. */
  lemma EndpointAttributes(endpoint: string, source: string)
    ensures Attrs([EndpointAttr], map[EndpointAttr := endpoint]).Valid()
    ensures var attrs := MergedAttributes(Attrs([EndpointAttr], map[EndpointAttr := endpoint]), source);
      && KeysOf(attrs) == [EndpointAttr, SourceKey]
      && Lookup(attrs, EndpointAttr) == Some(endpoint)
      && Lookup(attrs, SourceKey) == Some(source)
  {
    var a := Attrs([EndpointAttr], map[EndpointAttr := endpoint]);
    MergedAttributesKeys(a, source);
    MergedAttributesLookup(a, source, EndpointAttr);
    MergedAttributesLookup(a, source, SourceKey);
  }

  /** What a collector reads off the metric at position `j` of a cycle is what the `j`-th spec reports. */
  lemma {:induction false} CycleReadingAt(endpoints: seq<string>, requests: map<string, int>, c: Counters,
                       cpu: int, memory: int, source: string, clock: seq<int>, j: nat)
    requires forall k :: k in endpoints ==> k in requests
    requires |clock| == |endpoints| + FixedMetricCount
    requires j < |clock|
    ensures var s := CycleSpecs(endpoints, requests, c, cpu, memory)[j];
      Reading(AllMetrics(CyclePayload(endpoints, requests, c, cpu, memory, source, clock))[j])
        == (s.name, s.kind, s.value)
  {
    CycleMetricAt(endpoints, requests, c, cpu, memory, source, clock, j);
  }

  /**
   What a collector reads off the ten metrics after the per-endpoint ones,
   in order: the two host samples as gauges, then the authentication, user,
   latency and pizza counters as sums.
   */
  function FixedReadings(c: Counters, cpu: int, memory: int): seq<(string, MetricType, int)>
  {
    [("cpu", Gauge, cpu), ("memory", Gauge, memory),
     ("success", Sum, c.successfulAuths), ("failure", Sum, c.unsuccessfulAuths),
     ("active", Sum, c.activeUsers),
     ("request latency", Sum, c.requestLatency), ("pizza latency", Sum, c.pizzaLatency),
     ("pizza purchases", Sum, c.pizzasSold), ("purchase failures", Sum, c.failedPizzas),
     ("revenue", Sum, c.revenue)]
  }

  /** What a spec reports: its name, its shape and its value. */
  function SpecReading(s: MetricSpec): (string, MetricType, int)
  {
    (s.name, s.kind, s.value)
  }

  function SpecReadings(specs: seq<MetricSpec>): seq<(string, MetricType, int)>
  {
    seq(|specs|, i requires 0 <= i < |specs| => SpecReading(specs[i]))
  }

  /**
   What a collector reads off a cycle's payload is, metric by metric and in
   order, what the cycle's specs report.
   */
  lemma {:induction false} CycleReadings(endpoints: seq<string>, requests: map<string, int>, c: Counters,
                      cpu: int, memory: int, source: string, clock: seq<int>)
    requires forall k :: k in endpoints ==> k in requests
    requires |clock| == |endpoints| + FixedMetricCount
    ensures Readings(AllMetrics(CyclePayload(endpoints, requests, c, cpu, memory, source, clock)))
              == SpecReadings(CycleSpecs(endpoints, requests, c, cpu, memory))
  {
    var ms := AllMetrics(CyclePayload(endpoints, requests, c, cpu, memory, source, clock));
    var specs := CycleSpecs(endpoints, requests, c, cpu, memory);
    CycleMetricAt(endpoints, requests, c, cpu, memory, source, clock, 0);
    forall j | 0 <= j < |ms| ensures Readings(ms)[j] == SpecReadings(specs)[j] {
      CycleReadingAt(endpoints, requests, c, cpu, memory, source, clock, j);
    }
  }

  /** Reading off a suffix of the specs is the suffix of their readings. */
  lemma SpecReadingsSuffix(specs: seq<MetricSpec>, n: nat)
    requires n <= |specs|
    ensures SpecReadings(specs)[n..] == SpecReadings(specs[n..])
  {
  }

  /** The five fixed categories, added in order, report exactly the fixed readings. */
  lemma {:induction false} CategoryReadings(c: Counters, cpu: int, memory: int)
    ensures SpecReadings(SystemMetrics(cpu, memory) + AuthMetrics(c) + UserMetrics(c) + LatencyMetrics(c) + PizzaMetrics(c))
              == FixedReadings(c, cpu, memory)
  {
    var system, auth, user := SystemMetrics(cpu, memory), AuthMetrics(c), UserMetrics(c);
    var latency, pizza := LatencyMetrics(c), PizzaMetrics(c);
    var t := system + auth + user + latency + pizza;
    var rs := SpecReadings(t);
    assert t[0] == system[0] && t[1] == system[1];
    assert t[2] == auth[0] && t[3] == auth[1] && t[4] == user[0];
    assert t[5] == latency[0] && t[6] == latency[1];
    assert t[7] == pizza[0] && t[8] == pizza[1] && t[9] == pizza[2];
    assert rs == FixedReadings(c, cpu, memory) by {
      assert rs[0] == SpecReading(t[0]) && rs[1] == SpecReading(t[1]) && rs[2] == SpecReading(t[2]);
      assert rs[3] == SpecReading(t[3]) && rs[4] == SpecReading(t[4]) && rs[5] == SpecReading(t[5]);
      assert rs[6] == SpecReading(t[6]) && rs[7] == SpecReading(t[7]) && rs[8] == SpecReading(t[8]);
      assert rs[9] == SpecReading(t[9]);
    }
  }

  /** The ten fixed specs of a cycle report exactly the fixed readings. */
  lemma {:induction false} FixedSpecReadings(endpoints: seq<string>, requests: map<string, int>, c: Counters, cpu: int, memory: int)
    requires forall k :: k in endpoints ==> k in requests
    ensures SpecReadings(CycleSpecs(endpoints, requests, c, cpu, memory))[|endpoints|..] == FixedReadings(c, cpu, memory)
  {
    SpecReadingsSuffix(CycleSpecs(endpoints, requests, c, cpu, memory), |endpoints|);
    CycleSpecsTail(endpoints, requests, c, cpu, memory);
    CategoryReadings(c, cpu, memory);
  }

  /**
   After the per-endpoint metrics, a cycle reports exactly the cpu and
   memory gauges followed by the registry's eight counters as sums, in the
   order the categories are added.
   */
  lemma {:induction false} CycleFixedReadings(endpoints: seq<string>, requests: map<string, int>, c: Counters,
                           cpu: int, memory: int, source: string, clock: seq<int>)
    requires forall k :: k in endpoints ==> k in requests
    requires |clock| == |endpoints| + FixedMetricCount
    ensures var ms := AllMetrics(CyclePayload(endpoints, requests, c, cpu, memory, source, clock));
      && |ms| == |endpoints| + FixedMetricCount
      && Readings(ms)[|endpoints|..] == FixedReadings(c, cpu, memory)
  {
    CycleMetricAt(endpoints, requests, c, cpu, memory, source, clock, 0);
    CycleReadings(endpoints, requests, c, cpu, memory, source, clock);
    FixedSpecReadings(endpoints, requests, c, cpu, memory);
  }

  /**
   Every metric of a cycle has exactly one data point stamped with its clock
   reading in nanoseconds; only the two system metrics are gauges, and
   exactly the sums carry the cumulative temporality and the monotonic flag.
   */
  lemma {:induction false} CycleMetricShape(endpoints: seq<string>, requests: map<string, int>, c: Counters,
                         cpu: int, memory: int, source: string, clock: seq<int>, j: nat)
    requires forall k :: k in endpoints ==> k in requests
    requires |clock| == |endpoints| + FixedMetricCount
    requires j < |clock|
    ensures var m := AllMetrics(CyclePayload(endpoints, requests, c, cpu, memory, source, clock))[j];
      && |m.data.dataPoints| == 1
      && m.data.dataPoints[0].timeUnixNano == clock[j] * NanosPerMilli
      && m.data.dataPoints[0].valueType == AsInt
      && (m.kind == Gauge <==> j == |endpoints| || j == |endpoints| + 1)
      && (m.kind == Sum ==> m.data.aggregationTemporality == Some(Cumulative) && m.data.isMonotonic == Some(true))
      && (m.kind == Gauge ==> m.data.aggregationTemporality == None && m.data.isMonotonic == None)
  {
    CycleSpecsKinds(endpoints, requests, c, cpu, memory);
    CycleMetricAt(endpoints, requests, c, cpu, memory, source, clock, j);
  }

  /**
   A cycle after a fresh start with no activity still reports the cpu and
   memory gauges, followed by counters that all report zero.
   */
  lemma {:induction false} IdleCycle(cpu: int, memory: int, source: string, clock: seq<int>)
    requires |clock| == FixedMetricCount
    ensures var ms := AllMetrics(CyclePayload([], map[], ZeroCounters, cpu, memory, source, clock));
      && |ms| == FixedMetricCount
      && Reading(ms[0]) == ("cpu", Gauge, cpu)
      && Reading(ms[1]) == ("memory", Gauge, memory)
      && forall j :: 2 <= j < |ms| ==> Reading(ms[j]).1 == Sum && Reading(ms[j]).2 == 0
  {
    var ms := AllMetrics(CyclePayload([], map[], ZeroCounters, cpu, memory, source, clock));
    CycleFixedReadings([], map[], ZeroCounters, cpu, memory, source, clock);
    assert Readings(ms) == FixedReadings(ZeroCounters, cpu, memory);
  }

}
