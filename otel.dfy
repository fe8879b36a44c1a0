/**
 The metric builder of the pizza service's telemetry exporter: metric specs
 (what the registry reports), the OTLP-shaped metric records built from them,
 the one-resource/one-scope envelope that is sent to the collector, and the
 builder object that accumulates metrics in order.
 */
module Otel {

  datatype Option<T> = None | Some(value: T)

  /** The two metric shapes the exporter emits: cumulative sums and gauges. */
  datatype MetricType = Sum | Gauge

  /** The data-point field that holds the value (`asInt` or `asDouble`). */
  datatype ValueType = AsInt | AsDouble

  /** No key occurs twice. */
  predicate Distinct(s: seq<string>)
  {
    forall i, j :: 0 <= i < j < |s| ==> s[i] != s[j]
  }

  /**
   A plain object of string-valued properties: its own keys in enumeration
   order, and the value of each key.
   */
  datatype Attrs = Attrs(keys: seq<string>, values: map<string, string>) {
    /** What every object satisfies: each property listed once, and only those. */
    predicate Valid()
    {
      && Distinct(keys)
      && (forall k :: k in keys ==> k in values)
      && (forall k :: k in values ==> k in keys)
    }
  }

  const NoAttrs: Attrs := Attrs([], map[])

  /** What a producer reports about one metric before it is built. */
  datatype MetricSpec = MetricSpec(
    name: string,
    value: int,
    unit: string,
    kind: MetricType,
    valueType: ValueType,
    attributes: Attrs)

  predicate AllValid(specs: seq<MetricSpec>)
  {
    forall i :: 0 <= i < |specs| ==> specs[i].attributes.Valid()
  }

  /** One `{key, value: {stringValue}}` entry of a data point. */
  datatype Attribute = Attribute(key: string, stringValue: string)

  datatype DataPoint = DataPoint(
    valueType: ValueType,
    value: int,
    timeUnixNano: int,
    attributes: seq<Attribute>)

  /** The object stored under the `sum` or `gauge` key of a metric. */
  datatype MetricData = MetricData(
    dataPoints: seq<DataPoint>,
    aggregationTemporality: Option<string>,
    isMonotonic: Option<bool>)

  /** A built metric; `kind` says under which key (`sum` or `gauge`) `data` sits. */
  datatype Metric = Metric(name: string, unit: string, kind: MetricType, data: MetricData)

  datatype ScopeMetrics = ScopeMetrics(metrics: seq<Metric>)
  datatype ResourceMetrics = ResourceMetrics(scopeMetrics: seq<ScopeMetrics>)
  /** The JSON body posted to the collector. */
  datatype Payload = Payload(resourceMetrics: seq<ResourceMetrics>)

  const SourceKey := "source"
  const Cumulative := "AGGREGATION_TEMPORALITY_CUMULATIVE"
  const NanosPerMilli := 1000000

  /** The keys of an attribute list, in order. */
  function KeysOf(attrs: seq<Attribute>): (r: seq<string>)
    ensures |r| == |attrs|
    ensures forall i :: 0 <= i < |attrs| ==> r[i] == attrs[i].key
  {
    if attrs == [] then [] else [attrs[0].key] + KeysOf(attrs[1..])
  }

  /** The value a collector reads for key `k`: that of the first entry with that key. */
  function Lookup(attrs: seq<Attribute>, k: string): Option<string>
  {
    if attrs == [] then None
    else if attrs[0].key == k then Some(attrs[0].stringValue)
    else Lookup(attrs[1..], k)
  }

  /**
   The object `{ ...a, source: source }`: every property of `a` is kept in
   its place, `source` overrides a property of the same name, and is
   otherwise added last.
   */
  function WithSource(a: Attrs, source: string): (r: Attrs)
    ensures SourceKey in r.values && r.values[SourceKey] == source
    ensures |r.keys| == |a.keys| + (if SourceKey in a.values then 0 else 1)
  {
    var keys := if SourceKey in a.values then a.keys else a.keys + [SourceKey];
    Attrs(keys, a.values[SourceKey := source])
  }

  /**
   What the spread promises: the merged object is again an object with
   distinct keys, `source` maps to the tag, every other key of `a` keeps its
   value, no other key appears, and the keys of `a` keep their places.
   */
  lemma WithSourceSpec(a: Attrs, source: string)
    requires a.Valid()
    ensures WithSource(a, source).Valid()
    ensures forall k :: k in WithSource(a, source).values <==> k in a.values || k == SourceKey
    ensures WithSource(a, source).values[SourceKey] == source
    ensures forall k :: k in a.values && k != SourceKey ==> WithSource(a, source).values[k] == a.values[k]
    ensures |WithSource(a, source).keys| == |a.keys| + (if SourceKey in a.values then 0 else 1)
    ensures WithSource(a, source).keys[..|a.keys|] == a.keys
  {
    var r := WithSource(a, source);
    assert r.keys[..|a.keys|] == a.keys;
  }

  /** The attribute entries pushed for each key of an object, in key order. */
  function ToAttributeList(keys: seq<string>, values: map<string, string>): (r: seq<Attribute>)
    requires forall k :: k in keys ==> k in values
    ensures |r| == |keys|
  {
    if keys == [] then []
    else
      var last := keys[|keys| - 1];
      ToAttributeList(keys[..|keys| - 1], values) + [Attribute(last, values[last])]
  }

  /** Entry `i` of the list carries key `i` of the object and that key's value. */
  lemma {:induction false} ToAttributeListEntries(keys: seq<string>, values: map<string, string>)
    requires forall k :: k in keys ==> k in values
    ensures forall i :: 0 <= i < |keys| ==>
              ToAttributeList(keys, values)[i] == Attribute(keys[i], values[keys[i]])
  {
    if keys != [] {
      var init := keys[..|keys| - 1];
      ToAttributeListEntries(init, values);
    }
  }

  /** An attribute list built from distinct keys answers every lookup from the object. */
  lemma {:induction false} LookupFromEntries(attrs: seq<Attribute>, keys: seq<string>, values: map<string, string>, k: string)
    requires Distinct(keys) && forall key :: key in keys ==> key in values
    requires |attrs| == |keys|
    requires forall i :: 0 <= i < |keys| ==> attrs[i] == Attribute(keys[i], values[keys[i]])
    ensures Lookup(attrs, k) == if k in keys then Some(values[k]) else None
  {
    if attrs != [] {
      assert keys == [keys[0]] + keys[1..];
      if attrs[0].key != k {
        LookupFromEntries(attrs[1..], keys[1..], values, k);
      } else {
        assert k in keys;
      }
    }
  }

  /** The attribute list of a built data point: `{ ...a, source }`, key by key. */
  function MergedAttributes(a: Attrs, source: string): (attrs: seq<Attribute>)
    requires a.Valid()
    ensures |attrs| == |a.keys| + (if SourceKey in a.values then 0 else 1)
  {
    var merged := WithSource(a, source);
    ToAttributeList(merged.keys, merged.values)
  }

  /**
   The merged attribute list has one entry per distinct key: the spec's keys
   in their own order, then `source` unless the spec already has that key.
   */
  lemma MergedAttributesKeys(a: Attrs, source: string)
    requires a.Valid()
    ensures Distinct(KeysOf(MergedAttributes(a, source)))
    ensures KeysOf(MergedAttributes(a, source)) ==
              if SourceKey in a.values then a.keys else a.keys + [SourceKey]
  {
    var merged := WithSource(a, source);
    assert Distinct(merged.keys) by { WithSourceSpec(a, source); }
    KeysOfAttributeList(merged.keys, merged.values);
  }

  /** Reading the keys back out of an attribute list gives the object's keys. */
  lemma KeysOfAttributeList(keys: seq<string>, values: map<string, string>)
    requires forall k :: k in keys ==> k in values
    ensures KeysOf(ToAttributeList(keys, values)) == keys
  {
    var attrs := ToAttributeList(keys, values);
    ToAttributeListEntries(keys, values);
    var ks := KeysOf(attrs);
    forall i | 0 <= i < |ks| ensures ks[i] == keys[i] {
      assert attrs[i].key == keys[i];
    }
  }

  /** In the merged attribute list, `source` overrides a spec attribute of that name; every other key keeps its value. */
  lemma MergedAttributesLookup(a: Attrs, source: string, k: string)
    requires a.Valid()
    ensures Lookup(MergedAttributes(a, source), k) ==
              if k == SourceKey then Some(source)
              else if k in a.values then Some(a.values[k])
              else None
  {
    var merged := WithSource(a, source);
    WithSourceSpec(a, source);
    ToAttributeListEntries(merged.keys, merged.values);
    LookupFromEntries(MergedAttributes(a, source), merged.keys, merged.values, k);
  }



  /**
   createMetric: one spec becomes one metric with exactly one data point.
   The data point holds the value under the spec's value type, the clock
   reading in nanoseconds, and one attribute per key of the spec's
   attributes merged with `source`. Only sums carry the cumulative
   temporality and the monotonic flag.
   */
  function CreateMetric(spec: MetricSpec, source: string, nowMillis: int): (m: Metric)
    requires spec.attributes.Valid()
    ensures m.name == spec.name && m.unit == spec.unit && m.kind == spec.kind
    ensures |m.data.dataPoints| == 1
    ensures m.data.dataPoints[0].valueType == spec.valueType
    ensures m.data.dataPoints[0].value == spec.value
    ensures m.data.dataPoints[0].timeUnixNano == nowMillis * NanosPerMilli
    ensures m.data.aggregationTemporality.Some? <==> spec.kind == Sum
    ensures m.data.isMonotonic.Some? <==> spec.kind == Sum
    ensures spec.kind == Sum ==>
              m.data.aggregationTemporality == Some(Cumulative) && m.data.isMonotonic == Some(true)
    ensures m.data.dataPoints[0].attributes == MergedAttributes(spec.attributes, source)
  {
    var point := DataPoint(spec.valueType, spec.value, nowMillis * NanosPerMilli, MergedAttributes(spec.attributes, source));
    var data := match spec.kind
      case Sum => MetricData([point], Some(Cumulative), Some(true))
      case Gauge => MetricData([point], None, None);
    Metric(spec.name, spec.unit, spec.kind, data)
  }

  /** The metrics built from a category of specs, one clock reading per spec. */
  function CreateAll(specs: seq<MetricSpec>, source: string, clock: seq<int>): (r: seq<Metric>)
    requires |clock| == |specs| && AllValid(specs)
    ensures |r| == |specs|
    ensures forall i {:trigger r[i]} :: 0 <= i < |specs| ==> r[i] == CreateMetric(specs[i], source, clock[i])
  {
    seq(|specs|, i requires 0 <= i < |specs| => CreateMetric(specs[i], source, clock[i]))
  }


  /** Building two categories one after the other builds their concatenation. */
  lemma {:induction false} CreateAllAppend(a: seq<MetricSpec>, b: seq<MetricSpec>, source: string, ca: seq<int>, cb: seq<int>)
    requires |ca| == |a| && |cb| == |b| && AllValid(a) && AllValid(b)
    ensures AllValid(a + b)
    ensures CreateAll(a + b, source, ca + cb) == CreateAll(a, source, ca) + CreateAll(b, source, cb)
  {
    assert AllValid(a + b) by {
      forall i | 0 <= i < |a + b| ensures (a + b)[i].attributes.Valid() {
        if i >= |a| { assert (a + b)[i] == b[i - |a|]; }
      }
    }
    var lhs := CreateAll(a + b, source, ca + cb);
    var rhs := CreateAll(a, source, ca) + CreateAll(b, source, cb);
    assert |lhs| == |rhs|;
    forall i | 0 <= i < |lhs| ensures lhs[i] == rhs[i] {
      if i >= |a| {
        assert (a + b)[i] == b[i - |a|] && (ca + cb)[i] == cb[i - |a|];
      }
    }
  }

  /** The body sendToGrafana posts: exactly one resource holding exactly one scope. */
  function Envelope(metrics: seq<Metric>): (p: Payload)
    ensures |p.resourceMetrics| == 1
    ensures |p.resourceMetrics[0].scopeMetrics| == 1
    ensures AllMetrics(p) == metrics
  {
    var p := Payload([ResourceMetrics([ScopeMetrics(metrics)])]);
    assert AllMetrics(p) == ScopeListMetrics([ScopeMetrics(metrics)]) + AllMetrics(Payload([]));
    assert ScopeListMetrics([ScopeMetrics(metrics)]) == metrics + ScopeListMetrics([]);
    p
  }

  /** Every metric of a payload, resource by resource and scope by scope, as a collector reads them. */
  function AllMetrics(p: Payload): seq<Metric>
    decreases |p.resourceMetrics|
  {
    if p.resourceMetrics == [] then []
    else ScopeListMetrics(p.resourceMetrics[0].scopeMetrics) + AllMetrics(Payload(p.resourceMetrics[1..]))
  }

  function ScopeListMetrics(scopes: seq<ScopeMetrics>): seq<Metric>
  {
    if scopes == [] then [] else scopes[0].metrics + ScopeListMetrics(scopes[1..])
  }

  /** The builder a flush cycle fills, category by category. */
  class OtelMetricBuilder {
    var metrics: seq<Metric>

    constructor ()
      ensures metrics == []
    {
      metrics := [];
    }

    /**
     add: appends one built metric per spec of the category, in order,
     leaving the metrics already built as they were.
     */
    method Add(category: seq<MetricSpec>, source: string, clock: seq<int>)
      requires |clock| == |category| && AllValid(category)
      modifies this
      ensures metrics == old(metrics) + CreateAll(category, source, clock)
    {
      ghost var before, built := metrics, CreateAll(category, source, clock);
      for i := 0 to |category|
        invariant metrics == before + built[..i]
      {
        assert built[..i + 1] == built[..i] + [CreateMetric(category[i], source, clock[i])];
        metrics := metrics + [CreateMetric(category[i], source, clock[i])];
      }
      assert built[..|category|] == built;
    }
  }
}
