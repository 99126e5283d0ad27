/**
 * The metric_to_log transform: a metric, serialised to a JSON object, becomes
 * a log event.  Every top-level key of the object becomes one field of the
 * log (the key taken whole, as a single segment, dots and all); the
 * `timestamp` field is replaced by its conversion to a timestamp, or by the
 * current time when it is missing or does not convert; and the configured
 * host tag, looked up under `tags`, is moved to the log's `host` field,
 * dropping `tags` when it was the only tag.
 *
 * Serialisation and the timestamp conversion are not modelled: the transform
 * is given the serialised metric (None when serialisation failed) and the
 * conversion as a function, and the current time as a number.
 */
module MetricToLog {
  import opened Base
  import opened Lookup
  import opened Values

  /** The log schema's host and timestamp keys (their default values). */
  const HostKey: seq<Segment> := [Field("host")]
  const TimestampKey: seq<Segment> := [Field("timestamp")]

  /** `LogEvent::insert`: x stored at p; a path the tree cannot take leaves the log as it was. */
  function Store(log: Value, p: seq<Segment>, x: Value): Value
    requires p != []
  {
    match Insert(log, p, x)
    case Some(l) => l
    case None => log
  }

  // ---------------------------------------------------------------------------
  // The rewrite, step by step

  /** The log collected from the object's entries, each key inserted as one raw segment, in order. */
  function Collected(obj: seq<Entry>): Value
    decreases |obj|
  {
    if obj == [] then Map([])
    else
      var last := obj[|obj| - 1];
      Store(Collected(obj[..|obj| - 1]), FromRaw(last.key), last.val)
  }

  /** The timestamp the log gets: the removed field converted, or now when it is missing or does not convert. */
  function StampOf(removed: Option<Value>, convert: Value -> Option<int>, now: int): Value {
    match removed
    case None => Timestamp(now)
    case Some(v) => (match convert(v) case Some(t) => Timestamp(t) case None => Timestamp(now))
  }

  /** The log with its timestamp field removed and set again from StampOf. */
  function Restamped(log: Value, convert: Value -> Option<int>, now: int): Value {
    var (rest, removed) := Remove(log, TimestampKey, false);
    Store(rest, TimestampKey, StampOf(removed, convert, now))
  }

  /** The log with the value at the host tag path (pruned) moved to the host key. */
  function HostMoved(log: Value, hostTag: seq<Segment>): Value
    requires hostTag != []
  {
    var (rest, host) := Remove(log, hostTag, true);
    match host
    case None => rest
    case Some(h) => Store(rest, HostKey, h)
  }

  /** The log event a serialised metric object becomes. */
  function Rewrite(obj: seq<Entry>, hostTag: seq<Segment>, convert: Value -> Option<int>, now: int): Value
    requires hostTag != []
  {
    HostMoved(Restamped(Collected(obj), convert, now), hostTag)
  }

  /** The host tag path of a transform: `tags`, then the configured tag or the schema's host key. */
  predicate IsHostTag(hostTag: seq<Segment>) {
    hostTag != [] && hostTag[0] == Field("tags")
  }

  class MetricToLog {
    const timestampKey: seq<Segment>
    const hostTag: seq<Segment>

    ghost predicate Valid() {
      timestampKey == TimestampKey && IsHostTag(hostTag)
    }

    /** `MetricToLog::new`: the host tag path is `tags` extended by the configured tag, or by the host key. */
    constructor (configured: Option<seq<Segment>>)
      ensures Valid()
      ensures hostTag == [Field("tags")] + configured.GetOr(HostKey)
    {
      var tagLookup := new LookupBuf(FromRaw("tags"));
      tagLookup.Extend(configured.GetOr(HostKey));
      timestampKey := FromRaw("timestamp");
      hostTag := tagLookup.segments;
    }

    /**
     * `transform`: an object appends exactly one log event, its rewrite;
     * anything else (or a failed serialisation) appends nothing.
     */
    method Transform(output: seq<Value>, serialized: Option<Value>, convert: Value -> Option<int>, now: int)
      returns (out: seq<Value>)
      requires Valid()
      ensures serialized.Some? && serialized.value.Map? ==>
        out == output + [Rewrite(serialized.value.entries, hostTag, convert, now)]
      ensures !(serialized.Some? && serialized.value.Map?) ==> out == output
    {
      if serialized.Some? && serialized.value.Map? {
        var obj := serialized.value.entries;
        var log := Map([]);
        for i := 0 to |obj|
          invariant log == Collected(obj[..i])
        {
          log := Store(log, FromRaw(obj[i].key), obj[i].val);
          assert obj[..i + 1][..i] == obj[..i];
        }
        assert obj[..|obj|] == obj;
        var collected := log;
        var (rest, removed) := Remove(log, timestampKey, false);
        log := Store(rest, TimestampKey, StampOf(removed, convert, now));
        assert log == Restamped(collected, convert, now);
        var stamped := log;
        var (rest2, host) := Remove(log, hostTag, true);
        log := rest2;
        if host.Some? {
          log := Store(log, HostKey, host.value);
        }
        assert log == HostMoved(stamped, hostTag);
        out := output + [log];
      } else {
        out := output;
      }
    }
  }

  // ---------------------------------------------------------------------------
  // What the rewrite does

  /** Collecting a sorted object key by key, each key one segment, gives the object back. */
  lemma {:induction false} CollectedObject(obj: seq<Entry>)
    requires Sorted(obj)
    ensures Collected(obj) == Map(obj)
    decreases |obj|
  {
    if obj != [] {
      var n := |obj| - 1;
      var init := obj[..n];
      assert Sorted(init);
      CollectedObject(init);
      InsertTopField(init, obj[n].key, obj[n].val);
      PutAtEnd(init, obj[n].key, obj[n].val);
      assert init + [obj[n]] == obj;
    }
  }

  /** Restamping leaves a sorted map, and every field but the timestamp as it was. */
  lemma RestampedOthers(es: seq<Entry>, convert: Value -> Option<int>, now: int, q: seq<Segment>)
    requires Sorted(es) && q != [] && q[0].Field? && q[0].name != "timestamp"
    ensures Restamped(Map(es), convert, now).Map? && Sorted(Restamped(Map(es), convert, now).entries)
    ensures Get(Restamped(Map(es), convert, now), q) == Get(Map(es), q)
  {
    var (rest, removed) := Remove(Map(es), TimestampKey, false);
    RemoveOtherKey(Map(es), TimestampKey, false, q);
    InsertTopField(rest.entries, "timestamp", StampOf(removed, convert, now));
    InsertRootSorted(rest, TimestampKey, StampOf(removed, convert, now));
    InsertOtherKey(rest, TimestampKey, StampOf(removed, convert, now), q);
  }

  /** Restamping sets the timestamp from the removed field, or from now. */
  lemma RestampedTimestamp(es: seq<Entry>, convert: Value -> Option<int>, now: int)
    requires Sorted(es)
    ensures Find(Restamped(Map(es), convert, now).entries, "timestamp")
         == Some(StampOf(Find(es, "timestamp"), convert, now))
  {
    var (rest, removed) := Remove(Map(es), TimestampKey, false);
    RemoveReturnsGet(Map(es), TimestampKey, false);
    GetTopField(es, "timestamp");
    assert rest.Map? && Sorted(rest.entries) by {
      if Find(es, "timestamp").Some? {
        DeleteSorted(es, "timestamp");
      }
    }
    InsertTopField(rest.entries, "timestamp", StampOf(removed, convert, now));
    FindPut(rest.entries, "timestamp", StampOf(removed, convert, now), "timestamp");
  }

  /** The stamp is always a timestamp: the converted field when it converts, now otherwise. */
  lemma StampIsTimestamp(removed: Option<Value>, convert: Value -> Option<int>, now: int)
    ensures StampOf(removed, convert, now).Timestamp?
    ensures removed.Some? && convert(removed.value).Some? ==>
      StampOf(removed, convert, now).t == convert(removed.value).value
    ensures removed.None? || convert(removed.value).None? ==> StampOf(removed, convert, now).t == now
  {
  }

  /** Moving the host tag leaves every top-level field outside `tags` and `host` as it was. */
  lemma HostMovedOthers(es: seq<Entry>, hostTag: seq<Segment>, q: seq<Segment>)
    requires Sorted(es) && IsHostTag(hostTag)
    requires q != [] && q[0].Field? && q[0].name != "tags" && q[0].name != "host"
    ensures Get(HostMoved(Map(es), hostTag), q) == Get(Map(es), q)
  {
    var (rest, host) := Remove(Map(es), hostTag, true);
    RemoveOtherKey(Map(es), hostTag, true, q);
    if host.Some? {
      InsertTopField(rest.entries, "host", host.value);
      InsertOtherKey(rest, HostKey, host.value, q);
    }
  }

  /** The host key ends up holding what the host tag held; with no host tag it is left as it was. */
  lemma HostMovedHost(es: seq<Entry>, hostTag: seq<Segment>)
    requires Sorted(es) && IsHostTag(hostTag)
    ensures Get(Map(es), hostTag).Some? ==> Get(HostMoved(Map(es), hostTag), HostKey) == Get(Map(es), hostTag)
    ensures Get(Map(es), hostTag).None? ==> Get(HostMoved(Map(es), hostTag), HostKey) == Get(Map(es), HostKey)
  {
    var (rest, host) := Remove(Map(es), hostTag, true);
    RemoveReturnsGet(Map(es), hostTag, true);
    RemoveOtherKey(Map(es), hostTag, true, HostKey);
    if host.Some? {
      InsertTopField(rest.entries, "host", host.value);
      FindPut(rest.entries, "host", host.value, "host");
    }
  }

  /** Removing the tag `tags.h` (pruning) leaves nothing there, every other tag as it was, and a sorted root. */
  lemma RemoveTag(es: seq<Entry>, h: string, t: string)
    requires Sorted(es) && t != h
    ensures var rest := Remove(Map(es), [Field("tags"), Field(h)], true).0;
      && rest.Map? && Sorted(rest.entries)
      && Get(rest, [Field("tags"), Field(h)]) == None
      && Get(rest, [Field("tags"), Field(t)]) == Get(Map(es), [Field("tags"), Field(t)])
  {
    var p := [Field("tags"), Field(h)];
    var rest := Remove(Map(es), p, true).0;
    assert p[1..] == [Field(h)];
    match Find(es, "tags")
    case None =>
    case Some(tags) =>
      if tags.Map? && Find(tags.entries, h).Some? {
        var tes := tags.entries;
        var c2 := Map(Delete(tes, h));
        FindDelete(tes, h, t);
        FindDelete(tes, h, h);
        assert Remove(tags, [Field(h)], true) == (c2, Find(tes, h));
        if IsEmptyContainer(c2) {
          assert rest == Map(Delete(es, "tags"));
          FindDelete(es, "tags", "tags");
          DeleteSorted(es, "tags");
        } else {
          assert rest == Map(Put(es, "tags", c2));
          FindPut(es, "tags", c2, "tags");
          PutSorted(es, "tags", c2);
        }
      }
  }

  /** Moving the tag `tags.h` leaves nothing at `tags.h` and keeps every other tag where it was. */
  lemma HostMovedOtherTags(es: seq<Entry>, h: string, t: string)
    requires Sorted(es) && t != h
    ensures Get(HostMoved(Map(es), [Field("tags"), Field(h)]), [Field("tags"), Field(h)]) == None
    ensures Get(HostMoved(Map(es), [Field("tags"), Field(h)]), [Field("tags"), Field(t)])
         == Get(Map(es), [Field("tags"), Field(t)])
  {
    var hostTag := [Field("tags"), Field(h)];
    var (rest, host) := Remove(Map(es), hostTag, true);
    RemoveTag(es, h, t);
    if host.Some? {
      InsertTopField(rest.entries, "host", host.value);
      InsertOtherKey(rest, HostKey, host.value, [Field("tags"), Field(t)]);
      InsertOtherKey(rest, HostKey, host.value, hostTag);
    }
  }

  // ---------------------------------------------------------------------------
  // The whole rewrite

  /** Every top-level field of the metric but `timestamp`, `tags` and `host` reaches the log unchanged. */
  lemma RewriteKeepsFields(obj: seq<Entry>, hostTag: seq<Segment>, convert: Value -> Option<int>, now: int, q: seq<Segment>)
    requires Sorted(obj) && IsHostTag(hostTag)
    requires q != [] && q[0].Field? && q[0].name !in {"timestamp", "tags", "host"}
    ensures Get(Rewrite(obj, hostTag, convert, now), q) == Get(Map(obj), q)
  {
    CollectedObject(obj);
    RestampedOthers(obj, convert, now, q);
    var stamped := Restamped(Map(obj), convert, now);
    HostMovedOthers(stamped.entries, hostTag, q);
  }

  /** The log always holds a timestamp: the metric's own, converted, or now. */
  lemma RewriteTimestamp(obj: seq<Entry>, hostTag: seq<Segment>, convert: Value -> Option<int>, now: int)
    requires Sorted(obj) && IsHostTag(hostTag)
    ensures Get(Rewrite(obj, hostTag, convert, now), TimestampKey) == Some(StampOf(Find(obj, "timestamp"), convert, now))
  {
    CollectedObject(obj);
    RestampedOthers(obj, convert, now, [Field("tags")]);
    RestampedTimestamp(obj, convert, now);
    var stamped := Restamped(Map(obj), convert, now);
    GetTopField(stamped.entries, "timestamp");
    HostMovedOthers(stamped.entries, hostTag, TimestampKey);
  }

  /**
   * The host tag's value, when present, is moved to the host key; when absent,
   * the host key holds whatever the metric had there (nothing, for a metric).
   */
  lemma RewriteHost(obj: seq<Entry>, hostTag: seq<Segment>, convert: Value -> Option<int>, now: int)
    requires Sorted(obj) && IsHostTag(hostTag)
    ensures Get(Map(obj), hostTag).Some? ==>
      Get(Rewrite(obj, hostTag, convert, now), HostKey) == Get(Map(obj), hostTag)
    ensures Get(Map(obj), hostTag).None? ==>
      Get(Rewrite(obj, hostTag, convert, now), HostKey) == Get(Map(obj), HostKey)
  {
    CollectedObject(obj);
    RestampedOthers(obj, convert, now, hostTag);
    RestampedOthers(obj, convert, now, HostKey);
    var stamped := Restamped(Map(obj), convert, now);
    HostMovedHost(stamped.entries, hostTag);
  }

  /** With a one-segment host tag `tags.h`, the tag is gone from `tags` and every other tag stays. */
  lemma RewriteTags(obj: seq<Entry>, h: string, convert: Value -> Option<int>, now: int, t: string)
    requires Sorted(obj) && t != h
    ensures Get(Rewrite(obj, [Field("tags"), Field(h)], convert, now), [Field("tags"), Field(h)]) == None
    ensures Get(Rewrite(obj, [Field("tags"), Field(h)], convert, now), [Field("tags"), Field(t)])
         == Get(Map(obj), [Field("tags"), Field(t)])
  {
    CollectedObject(obj);
    RestampedOthers(obj, convert, now, [Field("tags"), Field(t)]);
    var stamped := Restamped(Map(obj), convert, now);
    HostMovedOtherTags(stamped.entries, h, t);
  }
}
