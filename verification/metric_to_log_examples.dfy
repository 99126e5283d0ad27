/**
 * The counter and gauge metrics of the metric_to_log tests, serialised the way
 * the metric serialiser lays them out (name, kind, the value under the metric
 * type's name, the tags when there are any, and the timestamp as text), and
 * what the rewrite makes of them with the host tag `tags.host`.
 */
module MetricToLogExamples {
  import opened Base
  import opened Lookup
  import opened Values
  import opened MetricToLog

  const HostTag: seq<Segment> := [Field("tags"), Field("host")]

  /** 1.0 as an IEEE 754 double. */
  const One: Value := Float(0x3FF0_0000_0000_0000)

  const Tags: seq<Entry> := Put(Put([], "host", Bytes("localhost")), "some_tag", Bytes("some_value"))

  /** The serialised gauge: no tags. */
  function Gauge(stamp: Value): seq<Entry> {
    Put(Put(Put(Put([], "name", Bytes("gauge")), "kind", Bytes("absolute")),
        "gauge", Map([Entry("value", One)])), "timestamp", stamp)
  }

  /** The serialised counter: the gauge's fields with the counter's name, and two tags. */
  function Counter(stamp: Value): seq<Entry> {
    Put(Put(Put(Put(Put([], "name", Bytes("counter")), "kind", Bytes("absolute")),
        "counter", Map([Entry("value", One)])), "tags", Map(Tags)), "timestamp", stamp)
  }

  lemma CounterSorted(stamp: Value)
    ensures Sorted(Counter(stamp))
  {
    var e1 := Put([], "name", Bytes("counter"));
    var e2 := Put(e1, "kind", Bytes("absolute"));
    var e3 := Put(e2, "counter", Map([Entry("value", One)]));
    var e4 := Put(e3, "tags", Map(Tags));
    PutSorted([], "name", Bytes("counter"));
    PutSorted(e1, "kind", Bytes("absolute"));
    PutSorted(e2, "counter", Map([Entry("value", One)]));
    PutSorted(e3, "tags", Map(Tags));
    PutSorted(e4, "timestamp", stamp);
  }

  /** The counter's tags object and timestamp. */
  lemma CounterFinds(stamp: Value)
    ensures Find(Counter(stamp), "tags") == Some(Map(Tags))
    ensures Find(Counter(stamp), "timestamp") == Some(stamp)
  {
    var e1 := Put([], "name", Bytes("counter"));
    var e2 := Put(e1, "kind", Bytes("absolute"));
    var e3 := Put(e2, "counter", Map([Entry("value", One)]));
    var e4 := Put(e3, "tags", Map(Tags));
    PutSorted([], "name", Bytes("counter"));
    PutSorted(e1, "kind", Bytes("absolute"));
    PutSorted(e2, "counter", Map([Entry("value", One)]));
    PutSorted(e3, "tags", Map(Tags));
    FindPut(e4, "timestamp", stamp, "tags");
    FindPut(e3, "tags", Map(Tags), "tags");
    FindPut(e4, "timestamp", stamp, "timestamp");
  }

  lemma TagsFinds()
    ensures Find(Tags, "host") == Some(Bytes("localhost"))
    ensures Find(Tags, "some_tag") == Some(Bytes("some_value"))
  {
    var t1 := Put([], "host", Bytes("localhost"));
    FindPut(t1, "some_tag", Bytes("some_value"), "host");
    FindPut(t1, "some_tag", Bytes("some_value"), "some_tag");
  }

  /** A metric whose tags hold a host and one other tag. */
  lemma TaggedMetric(obj: seq<Entry>, hostTag: seq<Segment>, tags: seq<Entry>, host: Value, tag: string,
                     tagValue: Value, convert: Value -> Option<int>, now: int)
    requires hostTag == [Field("tags"), Field("host")]
    requires Sorted(obj) && Find(obj, "tags") == Some(Map(tags))
    requires Find(tags, "host") == Some(host) && tag != "host" && Find(tags, tag) == Some(tagValue)
    ensures Get(Rewrite(obj, hostTag, convert, now), HostKey) == Some(host)
    ensures Get(Rewrite(obj, hostTag, convert, now), hostTag) == None
    ensures Get(Rewrite(obj, hostTag, convert, now), [Field("tags"), Field(tag)]) == Some(tagValue)
  {
    assert Get(Map(obj), hostTag) == Some(host);
    assert [Field("tags"), Field(tag)][1..] == [Field(tag)];
    GetTopField(tags, tag);
    assert Get(Map(obj), [Field("tags"), Field(tag)]) == Some(tagValue);
    RewriteHost(obj, hostTag, convert, now);
    RewriteTags(obj, "host", convert, now, tag);
  }

  /**
   * The counter's log: `host` holds the host tag, the host tag is gone from
   * `tags`, and the other tag stays there.
   */
  lemma CounterTags(stamp: Value, convert: Value -> Option<int>, now: int)
    ensures Get(Rewrite(Counter(stamp), HostTag, convert, now), HostKey) == Some(Bytes("localhost"))
    ensures Get(Rewrite(Counter(stamp), HostTag, convert, now), HostTag) == None
    ensures Get(Rewrite(Counter(stamp), HostTag, convert, now), [Field("tags"), Field("some_tag")])
         == Some(Bytes("some_value"))
  {
    CounterSorted(stamp);
    CounterFinds(stamp);
    TagsFinds();
    TaggedMetric(Counter(stamp), HostTag, Tags, Bytes("localhost"), "some_tag", Bytes("some_value"), convert, now);
  }

  /** The counter's timestamp is its own, converted. */
  lemma CounterTimestamp(stamp: Value, convert: Value -> Option<int>, t: int, now: int)
    requires convert(stamp) == Some(t)
    ensures Get(Rewrite(Counter(stamp), HostTag, convert, now), TimestampKey) == Some(Timestamp(t))
  {
    CounterSorted(stamp);
    CounterFinds(stamp);
    RewriteTimestamp(Counter(stamp), HostTag, convert, now);
  }

  lemma GaugeSorted(stamp: Value)
    ensures Sorted(Gauge(stamp))
  {
    var e1 := Put([], "name", Bytes("gauge"));
    var e2 := Put(e1, "kind", Bytes("absolute"));
    var e3 := Put(e2, "gauge", Map([Entry("value", One)]));
    PutSorted([], "name", Bytes("gauge"));
    PutSorted(e1, "kind", Bytes("absolute"));
    PutSorted(e2, "gauge", Map([Entry("value", One)]));
    PutSorted(e3, "timestamp", stamp);
  }

  /** The gauge has neither tags nor a host. */
  lemma GaugeFinds(stamp: Value)
    ensures Find(Gauge(stamp), "tags") == None
    ensures Find(Gauge(stamp), "host") == None
  {
    var e1 := Put([], "name", Bytes("gauge"));
    var e2 := Put(e1, "kind", Bytes("absolute"));
    var e3 := Put(e2, "gauge", Map([Entry("value", One)]));
    PutSorted([], "name", Bytes("gauge"));
    PutSorted(e1, "kind", Bytes("absolute"));
    PutSorted(e2, "gauge", Map([Entry("value", One)]));
    FindPut(e3, "timestamp", stamp, "tags");
    FindPut(e2, "gauge", Map([Entry("value", One)]), "tags");
    FindPut(e1, "kind", Bytes("absolute"), "tags");
    FindPut(e3, "timestamp", stamp, "host");
    FindPut(e2, "gauge", Map([Entry("value", One)]), "host");
    FindPut(e1, "kind", Bytes("absolute"), "host");
  }

  /** A metric without tags gets no host field. */
  lemma GaugeNoHost(stamp: Value, convert: Value -> Option<int>, now: int)
    ensures Get(Rewrite(Gauge(stamp), HostTag, convert, now), HostKey) == None
  {
    GaugeSorted(stamp);
    GaugeFinds(stamp);
    RewriteHost(Gauge(stamp), HostTag, convert, now);
  }

  /** The counter's name, kind and value object, as serialised. */
  lemma CounterOwnFinds(stamp: Value)
    ensures Find(Counter(stamp), "name") == Some(Bytes("counter"))
    ensures Find(Counter(stamp), "kind") == Some(Bytes("absolute"))
    ensures Find(Counter(stamp), "counter") == Some(Map([Entry("value", One)]))
  {
    var e1 := Put([], "name", Bytes("counter"));
    var e2 := Put(e1, "kind", Bytes("absolute"));
    var e3 := Put(e2, "counter", Map([Entry("value", One)]));
    var e4 := Put(e3, "tags", Map(Tags));
    PutSorted([], "name", Bytes("counter"));
    PutSorted(e1, "kind", Bytes("absolute"));
    PutSorted(e2, "counter", Map([Entry("value", One)]));
    PutSorted(e3, "tags", Map(Tags));
    FindPut(e4, "timestamp", stamp, "name");
    FindPut(e3, "tags", Map(Tags), "name");
    FindPut(e2, "counter", Map([Entry("value", One)]), "name");
    FindPut(e1, "kind", Bytes("absolute"), "name");
    FindPut(e4, "timestamp", stamp, "kind");
    FindPut(e3, "tags", Map(Tags), "kind");
    FindPut(e2, "counter", Map([Entry("value", One)]), "kind");
    FindPut(e4, "timestamp", stamp, "counter");
    FindPut(e3, "tags", Map(Tags), "counter");
  }

  /** The counter's log keeps `counter.value`, `kind` and `name` as the metric had them. */
  lemma CounterOwnFields(stamp: Value, convert: Value -> Option<int>, now: int)
    ensures Get(Rewrite(Counter(stamp), HostTag, convert, now), [Field("counter"), Field("value")]) == Some(One)
    ensures Get(Rewrite(Counter(stamp), HostTag, convert, now), [Field("kind")]) == Some(Bytes("absolute"))
    ensures Get(Rewrite(Counter(stamp), HostTag, convert, now), [Field("name")]) == Some(Bytes("counter"))
  {
    CounterSorted(stamp);
    CounterOwnFinds(stamp);
    RewriteKeepsFields(Counter(stamp), HostTag, convert, now, [Field("counter"), Field("value")]);
    RewriteKeepsFields(Counter(stamp), HostTag, convert, now, [Field("kind")]);
    RewriteKeepsFields(Counter(stamp), HostTag, convert, now, [Field("name")]);
    assert [Field("counter"), Field("value")][1..] == [Field("value")];
    GetTopField([Entry("value", One)], "value");
    GetTopField(Counter(stamp), "kind");
    GetTopField(Counter(stamp), "name");
  }

  /** The gauge's name, kind and value object, as serialised. */
  lemma GaugeOwnFinds(stamp: Value)
    ensures Find(Gauge(stamp), "name") == Some(Bytes("gauge"))
    ensures Find(Gauge(stamp), "kind") == Some(Bytes("absolute"))
    ensures Find(Gauge(stamp), "gauge") == Some(Map([Entry("value", One)]))
  {
    var e1 := Put([], "name", Bytes("gauge"));
    var e2 := Put(e1, "kind", Bytes("absolute"));
    var e3 := Put(e2, "gauge", Map([Entry("value", One)]));
    PutSorted([], "name", Bytes("gauge"));
    PutSorted(e1, "kind", Bytes("absolute"));
    PutSorted(e2, "gauge", Map([Entry("value", One)]));
    FindPut(e3, "timestamp", stamp, "name");
    FindPut(e2, "gauge", Map([Entry("value", One)]), "name");
    FindPut(e1, "kind", Bytes("absolute"), "name");
    FindPut(e3, "timestamp", stamp, "kind");
    FindPut(e2, "gauge", Map([Entry("value", One)]), "kind");
    FindPut(e3, "timestamp", stamp, "gauge");
  }

  /** The gauge's log keeps `gauge.value`, `kind` and `name` as the metric had them. */
  lemma GaugeOwnFields(stamp: Value, convert: Value -> Option<int>, now: int)
    ensures Get(Rewrite(Gauge(stamp), HostTag, convert, now), [Field("gauge"), Field("value")]) == Some(One)
    ensures Get(Rewrite(Gauge(stamp), HostTag, convert, now), [Field("kind")]) == Some(Bytes("absolute"))
    ensures Get(Rewrite(Gauge(stamp), HostTag, convert, now), [Field("name")]) == Some(Bytes("gauge"))
  {
    GaugeSorted(stamp);
    GaugeOwnFinds(stamp);
    RewriteKeepsFields(Gauge(stamp), HostTag, convert, now, [Field("gauge"), Field("value")]);
    RewriteKeepsFields(Gauge(stamp), HostTag, convert, now, [Field("kind")]);
    RewriteKeepsFields(Gauge(stamp), HostTag, convert, now, [Field("name")]);
    assert [Field("gauge"), Field("value")][1..] == [Field("value")];
    GetTopField([Entry("value", One)], "value");
    GetTopField(Gauge(stamp), "kind");
    GetTopField(Gauge(stamp), "name");
  }
}
